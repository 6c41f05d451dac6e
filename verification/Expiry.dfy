/** When a bill or a registration expires, and when the merchant hears of it. */
module Expiry {
  import opened Domain
  import opened Tables
  import opened Steps
  import opened Invariant
  import A = Agreement

  // ---------------------------------------------------------------- what a call expires

  /** The payment gets past the repeats: its pair is not flagged and no row is settled under its id. */
  predicate PassesRepeats(db: Db, p: PaymentReq) {
    && p.paymentId != "" && p.paid > 0 && !Flagged(db, p)
    && forall i :: 0 <= i < |db.txns| ==> db.txns[i].paymentId != p.paymentId
  }

  /** A payment expires a pending row exactly when it is for that row's number, the row's expiry has passed, and the
      payment repeats nothing. */
  lemma PaymentExpiresExactlyWhen(db: Db, p: PaymentReq, now: int, i: nat)
    requires Inv(db) && i < |db.txns| && db.txns[i].status == Pending
    ensures var after := Payment(db, p, now).db.txns;
            && |db.txns| <= |after|
            && (after[i].status == Expired <==>
                  && PassesRepeats(db, p) && db.txns[i].va == p.va && !IsNoBillVA(db, p.va)
                  && db.txns[i].expires.Some? && now > db.txns[i].expires.value
                  && forall k :: 0 <= k < |db.instalments| && db.instalments[k].paymentId == p.paymentId ==>
                       db.instalments[k].txn != i)
  {
    A.PaymentExpiresOnlyThePast(db, p, now, i);
    if PassesRepeats(db, p) && !IsNoBillVA(db, p.va) && Best(db.txns, p.va).Some? {
      var b := Best(db.txns, p.va).value;
      if db.txns[i].va == p.va {
        BestIsThePendingRow(db.txns, p.va, i);
        DueBillExpires(db, p, b, now);
      }
    }
    hide PayBilled, PaymentNoBill, Flagged;
  }

  lemma DueBillExpires(db: Db, p: PaymentReq, b: nat, now: int)
    requires Inv(db) && b < |db.txns| && db.txns[b].status == Pending
    ensures var after := PayBilled(db, p, b, now).db.txns;
            && |after| == |db.txns|
            && (after[b].status == Expired <==>
                  && db.txns[b].expires.Some? && now > db.txns[b].expires.value
                  && forall k :: 0 <= k < |db.instalments| && db.instalments[k].paymentId == p.paymentId ==>
                       db.instalments[k].txn != b)
  {
    hide MarkExpired, PayInstalment, PaySettlement, InstalmentSum, Inv, FindInstalment, PaymentBilling;
    OneInstalmentPerId(db, p.paymentId);
    A.MarkExpiredTouches(db, b, b);
    A.CollectingExpiresNothing(db, p, b, b);
  }

  lemma OneInstalmentPerId(db: Db, id: string)
    requires Inv(db)
    ensures var k := FindInstalment(db.instalments, id);
            && (k.Some? ==> k.value < |db.instalments| && db.instalments[k.value].paymentId == id)
            && forall m :: 0 <= m < |db.instalments| && db.instalments[m].paymentId == id ==> k == Some(m)
  {
  }

  /** A registration without a bill lapses exactly when an inquiry, or a payment that repeats nothing, finds it active
      past its expiry. */
  lemma RegistrationLapsesExactlyWhen(db: Db, va: string, q: InquiryReq, p: PaymentReq, now: int)
    requires IsNoBillVA(db, va) && q.va == p.va == va && db.accounts[va].status != Lapsed
    ensures var a := db.accounts[va]; var due := a.status == Active && a.expires.Some? && now > a.expires.value;
            && Inquiry(db, q, now).db.accounts == db.accounts[va := a.(status := if due then Lapsed else a.status)]
            && Payment(db, p, now).db.accounts
               == db.accounts[va := a.(status := if due && PassesRepeats(db, p) then Lapsed else a.status)]
  {
  }

  // ---------------------------------------------------------------- what the merchant hears

  /** The call takes the number's open bill to '02', or its active registration to EXPIRED. */
  ghost predicate Expires(db: Db, after: Db, va: string) {
    || (exists i :: 0 <= i < |db.txns| && i < |after.txns| && Pends(db.txns[i], va) && after.txns[i].status == Expired)
    || (&& va in db.accounts && db.accounts[va].status == Active
        && va in after.accounts && after.accounts[va].status == Lapsed)
  }

  /** The callback address of what the call is about: the registration without a bill, or the row it looks at. */
  function SubjectUrl(db: Db, e: Event): string {
    match e
    case Inquire(q, _) =>
      if IsNoBillVA(db, q.va) then db.accounts[q.va].url
      else if ResolveInquiry(db, q).Some? then db.txns[ResolveInquiry(db, q).value].url else ""
    case Pay(p, _) =>
      if IsNoBillVA(db, p.va) then db.accounts[p.va].url
      else if Best(db.txns, p.va).Some? then db.txns[Best(db.txns, p.va).value].url else ""
    case _ => ""
  }

  /** The step announces the number's expiry, under the subject's address, exactly when it expires the number for the
      first time with an address to call; it adds no other expiry callback. */
  ghost predicate AnnouncesRightly(db: Db, after: Db, url: string, va: string) {
    && (ExpiryAnnounced(after.callbacks, va) <==>
          ExpiryAnnounced(db.callbacks, va) || (Expires(db, after, va) && url != ""))
    && (ExpiryAnnounced(after.callbacks, va) && !ExpiryAnnounced(db.callbacks, va) ==>
          after.callbacks == db.callbacks + [VAExpired(va, url)])
  }

  lemma AnnouncedLater(callbacks: seq<Callback>, c: Callback, va: string)
    ensures ExpiryAnnounced(callbacks + [c], va) <==> ExpiryAnnounced(callbacks, va) || (c.VAExpired? && c.va == va)
  {
    assert c in callbacks + [c];
  }

  lemma MarkExpiredAnnounces(db: Db, i: nat, va: string)
    requires i < |db.txns|
    ensures AnnouncesRightly(db, MarkExpired(db, i), db.txns[i].url, va)
  {
    var row, after := db.txns[i], MarkExpired(db, i);
    AnnouncedLater(db.callbacks, VAExpired(row.va, row.url), va);
    if AnyPending(db.txns, row.va) {
      var j :| 0 <= j < |db.txns| && Pends(db.txns[j], row.va);
      assert after.txns[j].status == Expired;
    }
  }

  lemma LapseAnnounces(db: Db, number: string, va: string)
    requires number in db.accounts
    ensures AnnouncesRightly(db, MarkRegistrationExpired(db, number), db.accounts[number].url, va)
  {
    AnnouncedLater(db.callbacks, VAExpired(number, db.accounts[number].url), va);
  }

  /** Nothing expires and no expiry callback is added. */
  ghost predicate Quiet(db: Db, after: Db) {
    && (forall i :: 0 <= i < |db.txns| && i < |after.txns| && db.txns[i].status == Pending ==>
          after.txns[i].status != Expired)
    && (forall v :: v in db.accounts && db.accounts[v].status == Active && v in after.accounts ==>
          after.accounts[v].status != Lapsed)
    && OnlyPaymentsAdded(db.callbacks, after.callbacks)
  }

  ghost predicate OnlyPaymentsAdded(before: seq<Callback>, after: seq<Callback>) {
    && |before| <= |after| && after[..|before|] == before
    && forall k :: |before| <= k < |after| ==> after[k].PaymentReceived?
  }

  lemma QuietAnnounces(db: Db, after: Db, url: string, va: string)
    requires Quiet(db, after)
    ensures AnnouncesRightly(db, after, url, va)
  {
    forall c: Callback | c.VAExpired? ensures c in after.callbacks <==> c in db.callbacks {
      if k :| 0 <= k < |db.callbacks| && db.callbacks[k] == c { assert after.callbacks[..|db.callbacks|][k] == c; }
      if k :| 0 <= k < |after.callbacks| && after.callbacks[k] == c { assert after.callbacks[..|db.callbacks|][k] == c; }
    }
  }

  lemma QuietItself(db: Db)
    ensures Quiet(db, db)
  {
  }

  lemma ClaimIsQuiet(db: Db, i: nat, id: string)
    requires i < |db.txns|
    ensures Quiet(db, db.(txns := ClaimInquiryRequestID(db.txns, i, id)))
  {
  }

  lemma BilledInquiryAnnounces(db: Db, q: InquiryReq, i: nat, now: int, va: string)
    requires i < |db.txns|
    ensures AnnouncesRightly(db, InquiryBilled(db, q, i, now).db, db.txns[i].url, va)
  {
    MarkExpiredAnnounces(db, i, va);
    QuietItself(db);
    ClaimIsQuiet(db, i, q.inquiryId);
    hide Quiet, AnnouncesRightly, MarkExpired, ClaimInquiryRequestID;
    if !db.txns[i].IsExpired(now) { QuietAnnounces(db, InquiryBilled(db, q, i, now).db, db.txns[i].url, va); }
  }

  lemma InquiryAnnounces(db: Db, q: InquiryReq, now: int, va: string)
    ensures AnnouncesRightly(db, Inquiry(db, q, now).db, SubjectUrl(db, Inquire(q, now)), va)
  {
    hide Quiet, AnnouncesRightly, MarkRegistrationExpired, InquiryBilled;
    QuietItself(db);
    QuietAnnounces(db, db, SubjectUrl(db, Inquire(q, now)), va);
    if IsNoBillVA(db, q.va) {
      LapseAnnounces(db, q.va, va);
    } else if ResolveInquiry(db, q).Some? {
      BilledInquiryAnnounces(db, q, ResolveInquiry(db, q).value, now, va);
    }
  }

  lemma InstalmentIsQuiet(db: Db, p: PaymentReq, b: nat)
    requires b < |db.txns|
    ensures Quiet(db, PayInstalment(db, p, b).db)
  {
  }

  lemma SettlementIsQuiet(db: Db, p: PaymentReq, b: nat)
    requires b < |db.txns|
    ensures Quiet(db, PaySettlement(db, p, b).db)
  {
  }

  lemma BilledPaymentAnnounces(db: Db, p: PaymentReq, b: nat, now: int, va: string)
    requires b < |db.txns|
    ensures AnnouncesRightly(db, PayBilled(db, p, b, now).db, db.txns[b].url, va)
  {
    MarkExpiredAnnounces(db, b, va);
    PayBilledBranches(db, p, b, now);
    QuietItself(db);
    InstalmentIsQuiet(db, p, b);
    SettlementIsQuiet(db, p, b);
    hide Quiet, AnnouncesRightly, MarkExpired, PayInstalment, PaySettlement, PayBilled;
    if PayBilled(db, p, b, now).db != MarkExpired(db, b) {
      QuietAnnounces(db, PayBilled(db, p, b, now).db, db.txns[b].url, va);
    }
  }

  lemma NoBillSaveIsQuiet(db: Db, p: PaymentReq, t: Txn, url: string)
    requires SaveNoBillPayment(db, t).Some?
    ensures Quiet(db, Notify(SaveNoBillPayment(db, t).value, p.va, p.paid, url))
  {
  }

  lemma NoBillPaymentAnnounces(db: Db, p: PaymentReq, now: int, va: string)
    requires p.va in db.accounts
    ensures AnnouncesRightly(db, PaymentNoBill(db, p, now).db, db.accounts[p.va].url, va)
  {
    var a := db.accounts[p.va];
    LapseAnnounces(db, p.va, va);
    QuietItself(db);
    if SaveNoBillPayment(db, NoBillTxn(p, a)).Some? { NoBillSaveIsQuiet(db, p, NoBillTxn(p, a), a.url); }
    hide Quiet, AnnouncesRightly, MarkRegistrationExpired, Notify, SaveNoBillPayment;
    if !a.IsExpired(now) { QuietAnnounces(db, PaymentNoBill(db, p, now).db, a.url, va); }
  }

  lemma PaymentAnnounces(db: Db, p: PaymentReq, now: int, va: string)
    ensures AnnouncesRightly(db, Payment(db, p, now).db, SubjectUrl(db, Pay(p, now)), va)
  {
    var url := SubjectUrl(db, Pay(p, now));
    QuietItself(db);
    QuietAnnounces(db, db, url, va);
    if IsNoBillVA(db, p.va) {
      NoBillPaymentAnnounces(db, p, now, va);
    } else if Best(db.txns, p.va).Some? {
      BilledPaymentAnnounces(db, p, Best(db.txns, p.va).value, now, va);
    }
    hide AnnouncesRightly, PaymentNoBill, PayBilled;
    FilingKeeps(db, p, now, url, va);
  }

  lemma FilingKeeps(db: Db, p: PaymentReq, now: int, url: string, va: string)
    requires AnnouncesRightly(db, db, url, va) && AnnouncesRightly(db, Decide(db, p, now).db, url, va)
    ensures AnnouncesRightly(db, Payment(db, p, now).db, url, va)
  {
    hide Decide;
  }

  lemma CreateIsQuiet(db: Db, c: CreateReq)
    ensures Quiet(db, CreateVA(db, c).db)
  {
    hide StoreInquiry, StoreAccount, CustomerRegistered, CreateFieldsValid, Number, Best;
    if CreateFieldsValid(c) && Number(c).Numbered? {
      StoredBillIsQuiet(db.txns, c, Number(c).customerNo, Number(c).vaNo);
      StoredAccountIsQuiet(db.accounts, Number(c).vaNo, NewAccount(c, Number(c).customerNo));
    }
  }

  lemma StoredAccountIsQuiet(accounts: map<string, Account>, va: string, a: Account)
    requires a.status == Active
    ensures var after := StoreAccount(accounts, va, a);
            after.Some? ==>
              forall v :: v in accounts && accounts[v].status == Active && v in after.value ==>
                after.value[v].status != Lapsed
  {
  }

  lemma StoredBillIsQuiet(txns: seq<Txn>, c: CreateReq, customerNo: string, va: string)
    ensures var after := StoreInquiry(txns, c.partner, customerNo, NewBill(c, va));
            after.Some? ==>
              forall i :: 0 <= i < |txns| && i < |after.value| && txns[i].status == Pending ==>
                after.value[i].status != Expired
  {
  }

  lemma DeleteIsQuiet(db: Db, va: string)
    ensures Quiet(db, DeleteVA(db, va).db)
  {
  }

  /** Rows are settled at most, and the callbacks added tell of payments. */
  ghost predicate SettlesOnly(db: Db, after: Db) {
    && |after.txns| == |db.txns| && after.accounts == db.accounts && OnlyPaymentsAdded(db.callbacks, after.callbacks)
    && forall i :: 0 <= i < |db.txns| ==> after.txns[i].status == db.txns[i].status || after.txns[i].status == Settled
  }

  lemma ReconcileSettlesOnly(db: Db, record: Txn, answer: VendorAnswer)
    ensures SettlesOnly(db, ReconcileRecord(db, record, answer).db)
  {
  }

  lemma {:induction false} SweepSettlesOnly(db: Db, records: seq<Txn>, vendor: VendorBook)
    ensures SettlesOnly(db, SweepRecords(db, records, vendor).db)
  {
    if |records| > 0 {
      var n := |records| - 1;
      var mid := SweepRecords(db, records[..n], vendor).db;
      SweepSettlesOnly(db, records[..n], vendor);
      ReconcileSettlesOnly(mid, records[n], AnswerFor(vendor, records[n].va));
      SettlingComposes(db, mid, ReconcileRecord(mid, records[n], AnswerFor(vendor, records[n].va)).db);
      hide SettlesOnly, ReconcileRecord;
    }
  }

  lemma SettlingComposes(db: Db, mid: Db, after: Db)
    requires SettlesOnly(db, mid) && SettlesOnly(mid, after)
    ensures SettlesOnly(db, after)
  {
    assert after.callbacks[..|db.callbacks|] == after.callbacks[..|mid.callbacks|][..|db.callbacks|];
    forall k | |db.callbacks| <= k < |after.callbacks| ensures after.callbacks[k].PaymentReceived? {
      if k < |mid.callbacks| { assert after.callbacks[..|mid.callbacks|][k] == mid.callbacks[k]; }
    }
  }

  lemma SettlingIsQuiet(db: Db, after: Db)
    requires SettlesOnly(db, after)
    ensures Quiet(db, after)
  {
  }

  lemma StepAnnounces(db: Db, e: Event, va: string)
    ensures AnnouncesRightly(db, Step(db, e), SubjectUrl(db, e), va)
  {
    hide AnnouncesRightly, Quiet;
    match e
    case Create(c) => CreateIsQuiet(db, c); QuietAnnounces(db, Step(db, e), "", va);
    case Inquire(q, now) => InquiryAnnounces(db, q, now, va);
    case Pay(p, now) => PaymentAnnounces(db, p, now, va);
    case Delete(number) => DeleteIsQuiet(db, number); QuietAnnounces(db, Step(db, e), "", va);
    case ReconcileOne(number, answer) =>
      QuietItself(db);
      if Best(db.txns, number).Some? {
        ReconcileSettlesOnly(db, db.txns[Best(db.txns, number).value], answer);
        SettlingIsQuiet(db, Step(db, e));
      }
      QuietAnnounces(db, Step(db, e), "", va);
    case SweepAll(cutoff, now, limit, vendor) =>
      SweepSettlesOnly(db, Candidates(db.txns, cutoff, now, limit), vendor);
      SettlingIsQuiet(db, Step(db, e));
      QuietAnnounces(db, Step(db, e), "", va);
  }

  /** The call expires the number and knows where to announce it. */
  ghost predicate ExpiresAloud(db: Db, e: Event, va: string) {
    Expires(db, Step(db, e), va) && SubjectUrl(db, e) != ""
  }

  ghost predicate ExpiredAloud(run: seq<Event>, va: string) {
    exists k :: 0 <= k < |run| && ExpiresAloud(Run(EMPTY_DB, run[..k]), run[k], va)
  }

  lemma ExpiredAloudExtends(run: seq<Event>, va: string)
    requires |run| > 0
    ensures var n := |run| - 1;
            ExpiredAloud(run, va) <==> ExpiredAloud(run[..n], va) || ExpiresAloud(Run(EMPTY_DB, run[..n]), run[n], va)
  {
    hide Run, ExpiresAloud;
    var n := |run| - 1;
    assert forall k :: 0 <= k < n ==> run[..n][..k] == run[..k] && run[..n][k] == run[k];
    if k :| 0 <= k < n && ExpiresAloud(Run(EMPTY_DB, run[..n][..k]), run[..n][k], va) {
      assert ExpiresAloud(Run(EMPTY_DB, run[..k]), run[k], va);
    }
  }

  /** In every run a number's expiry is on file as announced exactly when some call of the run expired its open bill,
      or its registration, with an address to announce it to. */
  lemma {:induction false} AnnouncedExactlyWhen(run: seq<Event>, va: string)
    ensures ExpiryAnnounced(Run(EMPTY_DB, run).callbacks, va) <==>
            exists k :: 0 <= k < |run| && ExpiresAloud(Run(EMPTY_DB, run[..k]), run[k], va)
  {
    if |run| > 0 {
      var n := |run| - 1;
      AnnouncedExactlyWhen(run[..n], va);
      ExpiredAloudExtends(run, va);
      StepAnnounces(Run(EMPTY_DB, run[..n]), run[n], va);
      hide Expires, SubjectUrl, Step, ExpiryAnnounced;
    }
  }
}

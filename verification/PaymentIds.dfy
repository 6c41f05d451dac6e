/** Over whole runs: how often one payment id is credited on a number. */
module PaymentIds {
  import opened Domain
  import opened Tables
  import opened Steps
  import opened Invariant
  import opened Reconciliation
  import opened Callbacks
  import opened Lifecycle
  import U = Uniqueness
  import B = VariableBill
  import F = Findings

  predicate Credits(db: Db, p: PaymentReq, now: int) {
    |Payment(db, p, now).db.credits| > |db.credits|
  }

  // ---------------------------------------------------------------- when a recorded id is overwritten

  /** The vendor settles the row under an id of its own. */
  predicate VendorRenames(row: Txn, answer: VendorAnswer) {
    && row.status == Pending && !row.IsPlaceholder() && ConfirmsPayment(answer)
    && answer.data.value.paymentId != "" && answer.data.value.paymentId != row.paymentId
  }

  /** The call settles row `i` under another payment id than it holds. */
  predicate Overwrites(db: Db, e: Event, i: nat)
    requires i < |db.txns|
  {
    match e
    case Pay(p, now) =>
      && ReachesBill(db, p, now, i) && PaymentBilling(db, db.txns[i]) != Variable
      && p.paid == db.txns[i].total && p.total.GetOr(p.paid) == p.paid
    case ReconcileOne(va, answer) => Best(db.txns, va) == Some(i) && VendorRenames(db.txns[i], answer)
    case SweepAll(cutoff, now, limit, vendor) =>
      i in ListStalePending(db.txns, cutoff, now, limit)
      && VendorRenames(db.txns[i], AnswerFor(vendor, db.txns[i].va))
    case _ => false
  }

  ghost predicate KeepsIds(before: seq<Txn>, after: seq<Txn>) {
    |before| <= |after| && forall i :: 0 <= i < |before| ==> after[i].paymentId == before[i].paymentId
  }

  lemma CreateKeepsIds(db: Db, c: CreateReq)
    ensures KeepsIds(db.txns, CreateVA(db, c).db.txns)
  {
    if CreateFieldsValid(c) && Number(c).Numbered? {
      StoreKeepsIds(db.txns, BillRow(NewBill(c, Number(c).vaNo)));
      hide SaveInquiry, BillRow;
    }
  }

  lemma StoreKeepsIds(txns: seq<Txn>, bill: Txn)
    ensures KeepsIds(txns, SaveInquiry(txns, bill))
  {
  }

  /** Rows keep their number, their type and their payment id. */
  ghost predicate Restamped(before: seq<Txn>, after: seq<Txn>) {
    |after| == |before| && forall i :: 0 <= i < |before| ==>
      after[i].va == before[i].va && after[i].vaType == before[i].vaType && after[i].paymentId == before[i].paymentId
  }

  lemma RestampedItself(txns: seq<Txn>)
    ensures Restamped(txns, txns)
  {
  }

  lemma ExpiryRestamps(db: Db, i: nat)
    requires i < |db.txns|
    ensures Restamped(db.txns, MarkExpired(db, i).txns)
  {
  }

  lemma ClaimRestamps(txns: seq<Txn>, i: nat, id: string)
    requires i < |txns|
    ensures Restamped(txns, ClaimInquiryRequestID(txns, i, id))
  {
  }

  lemma BilledInquiryRestamps(db: Db, q: InquiryReq, i: nat, now: int)
    requires i < |db.txns|
    ensures Restamped(db.txns, InquiryBilled(db, q, i, now).db.txns)
  {
    RestampedItself(db.txns);
    ExpiryRestamps(db, i);
    ClaimRestamps(db.txns, i, q.inquiryId);
    hide Restamped, MarkExpired, ClaimInquiryRequestID;
  }

  lemma NoBillInquiryKeepsRows(db: Db, va: string, now: int)
    requires va in db.accounts
    ensures InquiryNoBill(db, va, now).db.txns == db.txns
  {
  }

  lemma InquiryRestamps(db: Db, q: InquiryReq, now: int)
    ensures Restamped(db.txns, Inquiry(db, q, now).db.txns)
  {
    RestampedItself(db.txns);
    if IsNoBillVA(db, q.va) {
      NoBillInquiryKeepsRows(db, q.va, now);
    } else if ResolveInquiry(db, q).Some? {
      BilledInquiryRestamps(db, q, ResolveInquiry(db, q).value, now);
    }
    hide Restamped, InquiryNoBill, InquiryBilled;
  }

  lemma InquiryKeepsIds(db: Db, q: InquiryReq, now: int)
    ensures KeepsIds(db.txns, Inquiry(db, q, now).db.txns)
  {
    InquiryRestamps(db, q, now);
    hide Inquiry;
  }

  lemma DeleteKeepsIds(db: Db, va: string)
    ensures KeepsIds(db.txns, DeleteVA(db, va).db.txns)
  {
  }

  lemma NoBillKeepsIds(db: Db, p: PaymentReq, now: int)
    requires p.va in db.accounts
    ensures KeepsIds(db.txns, PaymentNoBill(db, p, now).db.txns)
  {
  }

  lemma InstalmentKeepsIds(db: Db, p: PaymentReq, b: nat)
    requires b < |db.txns|
    ensures KeepsIds(db.txns, PayInstalment(db, p, b).db.txns)
  {
  }

  lemma MarkExpiredKeepsIds(db: Db, b: nat)
    requires b < |db.txns|
    ensures KeepsIds(db.txns, MarkExpired(db, b).txns)
  {
  }

  lemma SettlementOverwrites(db: Db, p: PaymentReq, b: nat, i: nat)
    requires Inv(db) && b < |db.txns| && i < |db.txns| && db.txns[i].paymentId != p.paymentId
    ensures var after := PaySettlement(db, p, b).db.txns;
            && |after| == |db.txns|
            && (after[i].paymentId != db.txns[i].paymentId <==>
                  b == i && p.paid == db.txns[b].total && p.total.GetOr(p.paid) == p.paid)
  {
    assert FindKey(db.txns, db.txns[b].key) == Some(b);
  }

  predicate BilledOverwrites(db: Db, p: PaymentReq, b: nat, now: int, i: nat)
    requires b < |db.txns|
  {
    && b == i && !db.txns[b].IsExpired(now) && db.txns[b].IsPayable() && PaymentBilling(db, db.txns[b]) != Variable
    && (var k := FindInstalment(db.instalments, p.paymentId); k.Some? ==> db.instalments[k.value].txn != b)
    && p.paid == db.txns[b].total && p.total.GetOr(p.paid) == p.paid
  }

  lemma PayBilledOverwrites(db: Db, p: PaymentReq, b: nat, now: int, i: nat)
    requires Inv(db) && b < |db.txns| && i < |db.txns| && db.txns[i].paymentId != p.paymentId
    ensures var after := PayBilled(db, p, b, now).db.txns;
            |after| == |db.txns| && (after[i].paymentId != db.txns[i].paymentId <==> BilledOverwrites(db, p, b, now, i))
  {
    BilledKeepsSize(db, p, b, now);
    if db.txns[b].IsExpired(now) {
      MarkExpiredKeepsIds(db, b);
    } else if PaymentBilling(db, db.txns[b]) == Variable {
      InstalmentKeepsIds(db, p, b);
    } else {
      SettlementOverwrites(db, p, b, i);
    }
    hide Inv, MarkExpired, PayInstalment, PaySettlement, PaymentBilling, FindInstalment, InstalmentSum;
  }

  lemma BilledKeepsSize(db: Db, p: PaymentReq, b: nat, now: int)
    requires Inv(db) && b < |db.txns|
    ensures |PayBilled(db, p, b, now).db.txns| == |db.txns|
  {
    assert FindKey(db.txns, db.txns[b].key) == Some(b);
  }

  lemma PayOverwrites(db: Db, p: PaymentReq, now: int, i: nat)
    requires Inv(db) && i < |db.txns|
    ensures var after := Payment(db, p, now).db.txns;
            i < |after| && (after[i].paymentId != db.txns[i].paymentId <==> Overwrites(db, Pay(p, now), i))
  {
    if FindPaid(db.txns, p.paymentId).None? {
      if IsNoBillVA(db, p.va) {
        NoBillKeepsIds(db, p, now);
      } else if Best(db.txns, p.va).Some? {
        PayBilledOverwrites(db, p, Best(db.txns, p.va).value, now, i);
      }
    }
    hide Inv, PaymentNoBill, PayBilled;
  }

  lemma ReconcileOverwrites(db: Db, b: nat, answer: VendorAnswer, i: nat)
    requires Inv(db) && b < |db.txns| && i < |db.txns|
    ensures var after := ReconcileRecord(db, db.txns[b], answer).db.txns;
            && |after| == |db.txns|
            && (after[i].paymentId != db.txns[i].paymentId <==> b == i && VendorRenames(db.txns[b], answer))
  {
    SettlesExactlyWhenConfirmed(db, db.txns[b], answer);
    SettlesOwnRow(db, b, answer);
    if VendorRenames(db.txns[b], answer) {
      assert Pends(db.txns[b], db.txns[b].va);
    }
    hide Inv, ReconcileRecord;
  }

  lemma LastIsNew(ids: seq<nat>)
    requires |ids| > 0 && forall k, l :: 0 <= k < l < |ids| ==> ids[k] < ids[l]
    ensures var n := |ids| - 1;
            ids[n] !in ids[..n] && forall i :: i in ids <==> i in ids[..n] || i == ids[n]
  {
    var n := |ids| - 1;
    assert ids == ids[..n] + [ids[n]];
  }

  lemma {:induction false} SweepOverwrites(db: Db, ids: seq<nat>, vendor: VendorBook, i: nat)
    requires Inv(db) && PendingSelection(db, ids) && i < |db.txns|
    ensures var after := SweepRecords(db, Selected(db.txns, ids), vendor).db.txns;
            && |after| == |db.txns|
            && (i !in ids ==> after[i].paymentId == db.txns[i].paymentId)
            && (after[i].paymentId != db.txns[i].paymentId <==>
                  i in ids && VendorRenames(db.txns[i], AnswerFor(vendor, db.txns[i].va)))
  {
    if |ids| > 0 {
      var n := |ids| - 1;
      var records := Selected(db.txns, ids);
      SelectedPrefix(db.txns, ids, n);
      SweepOverwrites(db, ids[..n], vendor, i);
      RecordStillFresh(db, ids, vendor);
      var mid := SweepRecords(db, records[..n], vendor).db;
      ReconcileOverwrites(mid, ids[n], AnswerFor(vendor, records[n].va), i);
      LastIsNew(ids);
      hide Inv, PendingSelection, ReconcileRecord, VendorRenames;
    }
  }

  /** A payment id a row holds is overwritten exactly when the call settles the row again under another one. */
  lemma OverwrittenExactlyWhen(db: Db, e: Event, i: nat)
    requires Inv(db) && i < |db.txns|
    ensures var after := Step(db, e).txns;
            i < |after| && (db.txns[i].paymentId != "" ==>
                              (after[i].paymentId != db.txns[i].paymentId <==> Overwrites(db, e, i)))
  {
    match e
    case Create(c) => CreateKeepsIds(db, c);
    case Inquire(q, now) => InquiryKeepsIds(db, q, now);
    case Pay(p, now) => PayOverwrites(db, p, now, i);
    case Delete(va) => DeleteKeepsIds(db, va);
    case ReconcileOne(va, answer) =>
      if Best(db.txns, va).Some? { ReconcileOverwrites(db, Best(db.txns, va).value, answer, i); }
    case SweepAll(cutoff, now, limit, vendor) =>
      SweepOverwrites(db, ListStalePending(db.txns, cutoff, now, limit), vendor, i);
  }

  predicate Holds(txns: seq<Txn>, i: nat, id: string) {
    i < |txns| && txns[i].paymentId == id
  }

  /** The call takes the id from the row that holds it. */
  predicate Takes(db: Db, e: Event, i: nat, id: string) {
    Holds(db.txns, i, id) && Overwrites(db, e, i)
  }

  lemma HeldAfterStep(db: Db, e: Event, i: nat, id: string)
    requires Inv(db) && id != "" && Holds(db.txns, i, id) && !Takes(db, e, i, id)
    ensures Holds(Step(db, e).txns, i, id)
  {
    OverwrittenExactlyWhen(db, e, i);
    hide Inv, Step, Overwrites;
  }

  lemma {:induction false} IdKept(db: Db, run: seq<Event>, i: nat, id: string)
    requires Inv(db) && id != "" && Holds(db.txns, i, id)
    requires forall k :: 0 <= k < |run| ==> !Takes(Run(db, run[..k]), run[k], i, id)
    ensures Holds(Run(db, run).txns, i, id)
  {
    if |run| > 0 {
      var n := |run| - 1;
      RunKeepsInv(db, run[..n]);
      hide Inv, Holds, Takes, Step, Preserves;
      assert forall k :: 0 <= k < n ==> run[..n][..k] == run[..k] && run[..n][k] == run[k];
      IdKept(db, run[..n], i, id);
      HeldAfterStep(Run(db, run[..n]), run[n], i, id);
    }
  }

  // ---------------------------------------------------------------- variable numbers remember in va_payments

  /** A row has a VA type only if its number is registered. */
  ghost predicate TypesRegistered(db: Db) {
    forall i :: 0 <= i < |db.txns| && db.txns[i].vaType != "" ==> db.txns[i].va in db.accounts
  }

  /** Rows keep their number and type, and the new ones are of registered numbers. */
  ghost predicate KeepsTypes(db: Db, after: Db) {
    && |db.txns| <= |after.txns|
    && (forall i :: 0 <= i < |db.txns| ==>
          after.txns[i].va == db.txns[i].va && after.txns[i].vaType == db.txns[i].vaType)
    && (forall i :: |db.txns| <= i < |after.txns| && after.txns[i].vaType != "" ==> after.txns[i].va in db.accounts)
  }

  lemma InquiryKeepsTypes(db: Db, q: InquiryReq, now: int)
    ensures KeepsTypes(db, Inquiry(db, q, now).db)
  {
    InquiryRestamps(db, q, now);
    hide Inquiry;
  }

  lemma NoBillKeepsTypes(db: Db, p: PaymentReq, now: int)
    requires p.va in db.accounts
    ensures KeepsTypes(db, PaymentNoBill(db, p, now).db)
  {
  }

  lemma BilledKeepsTypes(db: Db, p: PaymentReq, b: nat, now: int)
    requires Inv(db) && b < |db.txns|
    ensures KeepsTypes(db, PayBilled(db, p, b, now).db)
  {
    ExpiryRestamps(db, b);
    RestampedKeepsTypes(db, MarkExpired(db, b));
    InstalmentKeepsTypes(db, p, b);
    SettlementKeepsTypes(db, p, b);
    TypesItself(db, db);
    hide Inv, KeepsTypes, MarkExpired, PayInstalment, PaySettlement;
  }

  lemma RestampedKeepsTypes(db: Db, after: Db)
    requires Restamped(db.txns, after.txns)
    ensures KeepsTypes(db, after)
  {
  }

  lemma InstalmentKeepsTypes(db: Db, p: PaymentReq, b: nat)
    requires b < |db.txns|
    ensures KeepsTypes(db, PayInstalment(db, p, b).db)
  {
  }

  lemma SettlementKeepsTypes(db: Db, p: PaymentReq, b: nat)
    requires Inv(db) && b < |db.txns|
    ensures KeepsTypes(db, PaySettlement(db, p, b).db)
  {
    assert FindKey(db.txns, db.txns[b].key) == Some(b);
  }

  lemma TypesItself(db: Db, after: Db)
    requires after.txns == db.txns
    ensures KeepsTypes(db, after)
  {
  }

  lemma PayKeepsTypes(db: Db, p: PaymentReq, now: int)
    requires Inv(db)
    ensures KeepsTypes(db, Payment(db, p, now).db)
  {
    if IsNoBillVA(db, p.va) {
      NoBillKeepsTypes(db, p, now);
    } else if Best(db.txns, p.va).Some? {
      BilledKeepsTypes(db, p, Best(db.txns, p.va).value, now);
    }
    TypesItself(db, Payment(db, p, now).db.(txns := db.txns));
    hide Inv, PaymentNoBill, PayBilled;
  }

  lemma ReconcileKeepsTypes(db: Db, record: Txn, answer: VendorAnswer)
    ensures KeepsTypes(db, ReconcileRecord(db, record, answer).db)
  {
  }

  lemma {:induction false} SweepKeepsTypes(db: Db, records: seq<Txn>, vendor: VendorBook)
    ensures KeepsTypes(db, SweepRecords(db, records, vendor).db)
    ensures SweepRecords(db, records, vendor).db.accounts == db.accounts
  {
    if |records| > 0 {
      var n := |records| - 1;
      var mid := SweepRecords(db, records[..n], vendor).db;
      SweepKeepsTypes(db, records[..n], vendor);
      ReconcileKeepsTypes(mid, records[n], AnswerFor(vendor, records[n].va));
      U.ReconcileKeepsAccounts(mid, records[n], AnswerFor(vendor, records[n].va));
      hide ReconcileRecord;
    }
  }

  lemma CreateKeepsRegistered(db: Db, c: CreateReq)
    requires Inv(db) && TypesRegistered(db)
    ensures TypesRegistered(CreateVA(db, c).db)
  {
    if CreateFieldsValid(c) && Number(c).Numbered? {
      var customerNo, va := Number(c).customerNo, Number(c).vaNo;
      var registered := if c.Managed() then StoreAccount(db.accounts, va, NewAccount(c, customerNo)) else Some(db.accounts);
      if registered.Some? {
        StoreKeepsRegistered(db.txns, db.accounts, registered.value, BillRow(NewBill(c, va)));
        hide SaveInquiry, SaveVAAccount, AccountRow, Best;
      }
    }
  }

  lemma StoreKeepsRegistered(txns: seq<Txn>, before: map<string, Account>, after: map<string, Account>, bill: Txn)
    requires TxnsInv(txns) && bill.key == Placeholder(bill.va)
    requires before.Keys <= after.Keys && (bill.vaType != "" ==> bill.va in after)
    requires forall i :: 0 <= i < |txns| && txns[i].vaType != "" ==> txns[i].va in before
    ensures var saved := SaveInquiry(txns, bill);
            forall i :: 0 <= i < |saved| && saved[i].vaType != "" ==> saved[i].va in after
    ensures forall i :: 0 <= i < |txns| && txns[i].vaType != "" ==> txns[i].va in after
  {
  }

  lemma RegisteredByTypes(db: Db, after: Db)
    requires TypesRegistered(db) && KeepsTypes(db, after) && after.accounts.Keys == db.accounts.Keys
    ensures TypesRegistered(after)
  {
  }

  lemma StepKeepsRegistered(db: Db, e: Event)
    requires Inv(db) && TypesRegistered(db)
    ensures TypesRegistered(Step(db, e))
  {
    if e.Create? {
      CreateKeepsRegistered(db, e.c);
    } else {
      U.StepKeepsIdentities(db, e);
      StepKeepsTypes(db, e);
      RegisteredByTypes(db, Step(db, e));
    }
  }

  lemma DeleteKeepsTypes(db: Db, va: string)
    ensures KeepsTypes(db, DeleteVA(db, va).db)
  {
  }

  lemma StepKeepsTypes(db: Db, e: Event)
    requires Inv(db) && !e.Create?
    ensures KeepsTypes(db, Step(db, e))
  {
    TypesItself(db, db);
    hide KeepsTypes, Inquiry, Payment, DeleteVA, ReconcileRecord;
    match e
    case Inquire(q, now) => InquiryKeepsTypes(db, q, now);
    case Pay(p, now) => PayKeepsTypes(db, p, now);
    case Delete(va) => DeleteKeepsTypes(db, va);
    case ReconcileOne(va, answer) =>
      if Best(db.txns, va).Some? { ReconcileKeepsTypes(db, db.txns[Best(db.txns, va).value], answer); }
    case SweepAll(cutoff, now, limit, vendor) =>
      SweepKeepsTypes(db, Candidates(db.txns, cutoff, now, limit), vendor);
  }

  lemma {:induction false} RunKeepsRegistered(db: Db, run: seq<Event>)
    requires Inv(db) && TypesRegistered(db)
    ensures TypesRegistered(Run(db, run))
  {
    if |run| > 0 {
      var n := |run| - 1;
      RunKeepsRegistered(db, run[..n]);
      RunKeepsInv(db, run[..n]);
      StepKeepsRegistered(Run(db, run[..n]), run[n]);
    }
  }

  /** The payment is an instalment on file, of a number registered as variable. */
  predicate OnFile(db: Db, p: PaymentReq) {
    && FindInstalment(db.instalments, p.paymentId).Some?
    && p.va in db.accounts && db.accounts[p.va].billing == Variable
  }

  lemma CreateKeepsOnFile(db: Db, c: CreateReq, p: PaymentReq)
    requires OnFile(db, p)
    ensures OnFile(CreateVA(db, c).db, p)
  {
    if CreateFieldsValid(c) && Number(c).Numbered? {
      B.CreateKeepsBilling(db, c, Number(c).customerNo, Number(c).vaNo, p.va);
      CreateKeepsInstalments(db, c);
      hide CreateNumbered;
    }
  }

  lemma CreateKeepsInstalments(db: Db, c: CreateReq)
    ensures CreateVA(db, c).db.instalments == db.instalments
  {
  }

  lemma FoundInMore(rows: seq<Instalment>, more: seq<Instalment>, id: string)
    requires rows <= more && FindInstalment(rows, id).Some?
    ensures FindInstalment(more, id).Some?
  {
    var k := FindInstalment(rows, id).value;
    assert more[k] == rows[k];
  }

  lemma DecideAddsInstalments(db: Db, p: PaymentReq, now: int)
    ensures db.instalments <= Decide(db, p, now).db.instalments
  {
  }

  lemma InquiryKeepsInstalments(db: Db, q: InquiryReq, now: int)
    ensures Inquiry(db, q, now).db.instalments == db.instalments
  {
  }

  lemma ReconcileKeepsInstalments(db: Db, record: Txn, answer: VendorAnswer)
    ensures ReconcileRecord(db, record, answer).db.instalments == db.instalments
  {
  }

  lemma StepAddsInstalments(db: Db, e: Event)
    requires !e.Create?
    ensures db.instalments <= Step(db, e).instalments
  {
    hide Decide, Inquiry, ReconcileRecord;
    match e
    case Inquire(q, now) => InquiryKeepsInstalments(db, q, now);
    case Pay(p, now) => DecideAddsInstalments(db, p, now);
    case Delete(va) =>
    case ReconcileOne(va, answer) =>
      if Best(db.txns, va).Some? { ReconcileKeepsInstalments(db, db.txns[Best(db.txns, va).value], answer); }
    case SweepAll(cutoff, now, limit, vendor) =>
      SweepKeepsInstalments(db, Candidates(db.txns, cutoff, now, limit), vendor);
  }

  lemma {:induction false} SweepKeepsInstalments(db: Db, records: seq<Txn>, vendor: VendorBook)
    ensures SweepRecords(db, records, vendor).db.instalments == db.instalments
  {
    if |records| > 0 {
      SweepKeepsInstalments(db, records[..|records| - 1], vendor);
    }
  }

  lemma StepKeepsOnFile(db: Db, e: Event, p: PaymentReq)
    requires OnFile(db, p)
    ensures OnFile(Step(db, e), p)
  {
    if e.Create? {
      CreateKeepsOnFile(db, e.c, p);
    } else {
      U.StepKeepsIdentities(db, e);
      StepAddsInstalments(db, e);
      FoundInMore(db.instalments, Step(db, e).instalments, p.paymentId);
    }
    hide CreateVA;
  }

  lemma {:induction false} RunKeepsOnFile(db: Db, run: seq<Event>, p: PaymentReq)
    requires OnFile(db, p)
    ensures OnFile(Run(db, run), p)
  {
    if |run| > 0 {
      RunKeepsOnFile(db, run[..|run| - 1], p);
      StepKeepsOnFile(Run(db, run[..|run| - 1]), run[|run| - 1], p);
    }
  }

  lemma OnFileIsNotCredited(db: Db, p: PaymentReq, now: int)
    requires Inv(db) && OnFile(db, p)
    ensures !Credits(db, p, now)
  {
    CreditExactlyWhenAccepted(db, p, now);
    hide Payment, Inv;
  }

  // ---------------------------------------------------------------- main results

  /** A credited payment is remembered: as the id of a row, or as an instalment of a variable number. */
  lemma CreditIsRemembered(db: Db, p: PaymentReq, now: int)
    requires Inv(db) && TypesRegistered(db) && Credits(db, p, now)
    ensures p.paymentId != ""
    ensures var after := Payment(db, p, now).db;
            OnFile(after, p) || exists r :: 0 <= r < |after.txns| && after.txns[r].paymentId == p.paymentId
  {
    if IsNoBillVA(db, p.va) {
      NoBillCreditIsRemembered(db, p, now);
    } else {
      BilledCreditIsRemembered(db, p, now, Best(db.txns, p.va).value);
    }
    hide Inv, Credits, TypesRegistered;
  }

  lemma NoBillCreditIsRemembered(db: Db, p: PaymentReq, now: int)
    requires IsNoBillVA(db, p.va) && Credits(db, p, now)
    ensures p.paymentId != ""
    ensures var after := Payment(db, p, now).db; exists r :: 0 <= r < |after.txns| && after.txns[r].paymentId == p.paymentId
  {
    var after := Payment(db, p, now).db;
    assert after.txns == db.txns + [NoBillTxn(p, db.accounts[p.va])];
    assert after.txns[|db.txns|].paymentId == p.paymentId;
  }

  lemma BilledCreditIsRemembered(db: Db, p: PaymentReq, now: int, b: nat)
    requires Inv(db) && TypesRegistered(db) && !IsNoBillVA(db, p.va) && Credits(db, p, now)
    requires Best(db.txns, p.va).Some? ==> Best(db.txns, p.va) == Some(b)
    ensures p.paymentId != ""
    ensures var after := Payment(db, p, now).db;
            OnFile(after, p) || exists r :: 0 <= r < |after.txns| && after.txns[r].paymentId == p.paymentId
  {
    var after := Payment(db, p, now).db;
    assert FindPaid(db.txns, p.paymentId).None? && Best(db.txns, p.va) == Some(b);
    assert after.txns == PayBilled(db, p, b, now).db.txns && after.instalments == PayBilled(db, p, b, now).db.instalments;
    assert after.accounts == PayBilled(db, p, b, now).db.accounts;
    assert |PayBilled(db, p, b, now).db.credits| > |db.credits|;
    BilledRemembers(db, p, now, b);
  }

  lemma BilledRemembers(db: Db, p: PaymentReq, now: int, b: nat)
    requires Inv(db) && TypesRegistered(db) && Best(db.txns, p.va) == Some(b)
    requires |PayBilled(db, p, b, now).db.credits| > |db.credits|
    ensures var after := PayBilled(db, p, b, now).db;
            OnFile(after, p) || exists r :: 0 <= r < |after.txns| && after.txns[r].paymentId == p.paymentId
  {
    if PaymentBilling(db, db.txns[b]) == Variable {
      InstalmentIsOnFile(db, p, b);
    } else {
      SettlementHoldsId(db, p, b);
    }
    BilledCreditBranches(db, p, now, b);
    hide Inv, TypesRegistered, OnFile, PayBilled, PayInstalment, PaySettlement;
  }

  lemma BilledCreditBranches(db: Db, p: PaymentReq, now: int, b: nat)
    requires b < |db.txns| && |PayBilled(db, p, b, now).db.credits| > |db.credits|
    ensures PayBilled(db, p, b, now).db ==
            if PaymentBilling(db, db.txns[b]) == Variable then PayInstalment(db, p, b).db else PaySettlement(db, p, b).db
  {
    hide PayInstalment, PaySettlement;
  }

  lemma InstalmentIsOnFile(db: Db, p: PaymentReq, b: nat)
    requires TypesRegistered(db) && b < |db.txns| && db.txns[b].va == p.va
    requires PaymentBilling(db, db.txns[b]) == Variable
    ensures |PayInstalment(db, p, b).db.credits| > |db.credits| ==> OnFile(PayInstalment(db, p, b).db, p)
  {
    var rows := db.instalments + [Instalment(b, p.paymentId, p.paid)];
    assert rows[|db.instalments|].paymentId == p.paymentId;
    assert p.va in db.accounts && db.accounts[p.va].billing == Variable;
  }

  lemma SettlementHoldsId(db: Db, p: PaymentReq, b: nat)
    requires Inv(db) && b < |db.txns|
    ensures var after := PaySettlement(db, p, b).db;
            |after.credits| > |db.credits| ==> b < |after.txns| && after.txns[b].paymentId == p.paymentId
  {
    assert FindKey(db.txns, db.txns[b].key) == Some(b);
  }

  lemma {:induction false} RunConcat(db: Db, a: seq<Event>, b: seq<Event>)
    ensures Run(db, a + b) == Run(Run(db, a), b)
  {
    if |b| == 0 {
      assert a + b == a;
    } else {
      assert (a + b)[..|a + b| - 1] == a + b[..|b| - 1];
      RunConcat(db, a, b[..|b| - 1]);
    }
  }

  /** Some call of `run` takes the payment id `id` from a row. */
  ghost predicate Forgets(db: Db, run: seq<Event>, id: string) {
    exists k, r :: 0 <= k < |run| && Takes(Run(db, run[..k]), run[k], r, id)
  }

  /** Once a payment was credited, a further payment of the number under its id is credited only if a call in
      between settled the row holding that id again, under another one. */
  lemma CreditedAgainOnlyIfForgotten(db: Db, first: PaymentReq, firstNow: int, run: seq<Event>, p: PaymentReq, now: int)
    requires Inv(db) && TypesRegistered(db) && Credits(db, first, firstNow)
    requires p.paymentId == first.paymentId && p.va == first.va
    requires Credits(Run(Payment(db, first, firstNow).db, run), p, now)
    ensures Forgets(Payment(db, first, firstNow).db, run, p.paymentId)
  {
    var after := Payment(db, first, firstNow).db;
    CreditIsRemembered(db, first, firstNow);
    StepKeepsInv(db, Pay(first, firstNow));
    RunKeepsInv(after, run);
    var end := Run(after, run);
    if OnFile(after, p) {
      RunKeepsOnFile(after, run, p);
      OnFileIsNotCredited(end, p, now);
    } else {
      var r :| 0 <= r < |after.txns| && after.txns[r].paymentId == p.paymentId;
      if !Forgets(after, run, p.paymentId) {
        IdKept(after, run, r, p.paymentId);
        assert FindPaid(end.txns, p.paymentId).Some?;
        RepeatIsNotCredited(end, p, now);
      }
    }
  }

  lemma RepeatIsNotCredited(db: Db, p: PaymentReq, now: int)
    requires FindPaid(db.txns, p.paymentId).Some?
    ensures !Credits(db, p, now)
  {
  }

  /** From empty tables: two payments of a run with one id on one number are both credited only if some call
      between them overwrote that id. */
  lemma CreditedOncePerNumber(run: seq<Event>, i: nat, j: nat)
    requires i < j < |run| && run[i].Pay? && run[j].Pay?
    requires run[i].p.paymentId == run[j].p.paymentId && run[i].p.va == run[j].p.va
    requires Credits(Run(EMPTY_DB, run[..i]), run[i].p, run[i].now)
    requires Credits(Run(EMPTY_DB, run[..j]), run[j].p, run[j].now)
    ensures Forgets(Run(EMPTY_DB, run[..i + 1]), run[i + 1..j], run[j].p.paymentId)
  {
    var db := Run(EMPTY_DB, run[..i]);
    RunKeepsInv(EMPTY_DB, run[..i]);
    RunKeepsRegistered(EMPTY_DB, run[..i]);
    PayStep(EMPTY_DB, run, i);
    RunSplit(EMPTY_DB, run, i + 1, j);
    hide Inv, TypesRegistered, Credits, Forgets, Payment, Preserves, Run, Step;
    CreditedAgainOnlyIfForgotten(db, run[i].p, run[i].now, run[i + 1..j], run[j].p, run[j].now);
  }

  /** The no-bill number takes the payment as a new one. */
  predicate NoBillTakes(db: Db, p: PaymentReq, now: int) {
    && IsNoBillVA(db, p.va) && !db.accounts[p.va].IsExpired(now) && db.accounts[p.va].status == Active
    && FindKey(db.txns, Vendor(p.paymentId)).None?
  }

  /** The answering bill takes the payment: as an instalment under an id not on file, within its remainder, or as
      its exact total. */
  predicate BillTakes(db: Db, p: PaymentReq, now: int) {
    && !IsNoBillVA(db, p.va) && Best(db.txns, p.va).Some?
    && var b := Best(db.txns, p.va).value;
    && BilledTakes(db, p, b, now)
  }

  predicate BilledTakes(db: Db, p: PaymentReq, b: nat, now: int)
    requires b < |db.txns|
  {
    && !db.txns[b].IsExpired(now) && db.txns[b].IsPayable()
    && var k := FindInstalment(db.instalments, p.paymentId);
    if PaymentBilling(db, db.txns[b]) == Variable then k.None? && !Overpays(db.txns[b], p.paid)
    else
      && (k.Some? ==> db.instalments[k.value].txn != b)
      && p.paid == db.txns[b].total && p.total.GetOr(p.paid) == p.paid
  }

  /** The request is well formed, nothing is on file for its pair or settled under its id, and the number takes it. */
  predicate CanBeCredited(db: Db, p: PaymentReq, now: int) {
    && p.paymentId != "" && p.paid > 0 && !Flagged(db, p) && FindPaid(db.txns, p.paymentId).None?
    && (NoBillTakes(db, p, now) || BillTakes(db, p, now))
  }

  lemma NoBillCreditsExactlyWhen(db: Db, p: PaymentReq, now: int)
    requires IsNoBillVA(db, p.va) && p.paid > 0
    ensures |PaymentNoBill(db, p, now).db.credits| > |db.credits| <==> NoBillTakes(db, p, now)
  {
  }

  lemma InstalmentCreditsExactlyWhen(db: Db, p: PaymentReq, b: nat)
    requires b < |db.txns|
    ensures |PayInstalment(db, p, b).db.credits| > |db.credits| <==>
            FindInstalment(db.instalments, p.paymentId).None? && !Overpays(db.txns[b], p.paid)
  {
  }

  lemma SettlementCreditsExactlyWhen(db: Db, p: PaymentReq, b: nat)
    requires b < |db.txns|
    ensures |PaySettlement(db, p, b).db.credits| > |db.credits| <==>
            p.paid == db.txns[b].total && p.total.GetOr(p.paid) == p.paid
  {
  }

  lemma BilledCreditsExactlyWhen(db: Db, p: PaymentReq, b: nat, now: int)
    requires b < |db.txns|
    ensures |PayBilled(db, p, b, now).db.credits| > |db.credits| <==> BilledTakes(db, p, b, now)
  {
    MarkExpiredCreditsNothing(db, b);
    InstalmentCreditsExactlyWhen(db, p, b);
    SettlementCreditsExactlyWhen(db, p, b);
    hide MarkExpired, PayInstalment, PaySettlement, FindInstalment, PaymentBilling, Overpays;
  }

  /** A payment is credited exactly when nothing remembers its id and the number takes it. */
  lemma CreditedExactlyWhen(db: Db, p: PaymentReq, now: int)
    ensures Credits(db, p, now) <==> CanBeCredited(db, p, now)
  {
    if IsNoBillVA(db, p.va) {
      if p.paid > 0 { NoBillCreditsExactlyWhen(db, p, now); }
    } else if Best(db.txns, p.va).Some? {
      BilledCreditsExactlyWhen(db, p, Best(db.txns, p.va).value, now);
    }
    hide PaymentNoBill, PayBilled, NoBillTakes, BilledTakes, Flagged;
  }

  /** From empty tables: after a payment was credited, a later one of the run with its id on its number is credited
      exactly when by then no row is settled under the id, its pair is not flagged, and the number takes it under
      an id not on file; and that only happens after some call in between overwrote the id. */
  lemma RepeatCreditedExactlyWhen(run: seq<Event>, i: nat, j: nat)
    requires i < j < |run| && run[i].Pay? && run[j].Pay?
    requires run[i].p.paymentId == run[j].p.paymentId && run[i].p.va == run[j].p.va
    requires Credits(Run(EMPTY_DB, run[..i]), run[i].p, run[i].now)
    ensures Credits(Run(EMPTY_DB, run[..j]), run[j].p, run[j].now) <==>
            && CanBeCredited(Run(EMPTY_DB, run[..j]), run[j].p, run[j].now)
            && Forgets(Run(EMPTY_DB, run[..i + 1]), run[i + 1..j], run[j].p.paymentId)
  {
    CreditedExactlyWhen(Run(EMPTY_DB, run[..j]), run[j].p, run[j].now);
    hide Credits, CanBeCredited, Forgets, Run;
    if Credits(Run(EMPTY_DB, run[..j]), run[j].p, run[j].now) {
      CreditedOncePerNumber(run, i, j);
    }
  }

  lemma PayStep(db: Db, run: seq<Event>, i: nat)
    requires i < |run| && run[i].Pay?
    ensures Run(db, run[..i + 1]) == Payment(Run(db, run[..i]), run[i].p, run[i].now).db
  {
    assert run[..i + 1][..i] == run[..i];
    hide Payment;
  }

  lemma RunSplit(db: Db, run: seq<Event>, i: nat, j: nat)
    requires i <= j <= |run|
    ensures Run(db, run[..j]) == Run(Run(db, run[..i]), run[i..j])
  {
    hide Run;
    assert run[..j] == run[..i] + run[i..j];
    RunConcat(db, run[..i], run[i..j]);
  }

  // ---------------------------------------------------------------- and it does happen

  /** The fixed bill of 1.00 on "P1", as it stands after a payment under `id`. */
  function PaidBill(id: string): Txn {
    NewBill(F.FixedBill(None), "P1").(status := Settled, paid := Some(100), paymentId := id)
  }

  lemma PayFixed(db: Db, id: string)
    requires |db.txns| == 1 && db.txns[0].(paid := None, paymentId := "") == NewBill(F.FixedBill(None), "P1")
    requires db.txns[0].paymentId != id && id != "" && db.accounts == map[] && db.instalments == []
    ensures Step(db, Pay(F.PayOf(id, "P1", 100), 0)) ==
            db.(txns := [PaidBill(id)], credits := db.credits + [Credit(0, "P1", id, 100, "")])
  {
    var p := F.PayOf(id, "P1", 100);
    assert Best(db.txns, "P1") == Some(0) && FindPaid(db.txns, id).None?;
    assert FindKey(db.txns, db.txns[0].key) == Some(0);
    assert db.txns[0 := PaidInFull(db.txns[0], 100, id)] == [PaidBill(id)];
    assert PayBilled(db, p, 0, 0) == PaySettlement(db, p, 0);
    assert Decide(db, p, 0) == PayBilled(db, p, 0, 0);
  }

  lemma Reissue(db: Db, id: string)
    requires db.txns == [PaidBill(id)] && db.accounts == map[]
    ensures Step(db, Create(F.FixedBill(None))) == db.(txns := [PaidBill(id).(status := Pending)])
  {
    var c := F.FixedBill(None);
    assert |c.vaNo| == 2 && |c.customerNo| == 1 && c.vaNo == c.partner + c.customerNo;
    assert |c.partner| == 1 && |c.vaType| == 0 && |c.trxId| == 1 && |c.url| == 0;
    assert BillRow(NewBill(c, "P1")) == NewBill(c, "P1");
    assert Best(db.txns, "P1") == Some(0) && FindKey(db.txns, Placeholder("P1")) == Some(0);
    assert db.txns[0 := Reopened(db.txns[0], NewBill(c, "P1"))] == [PaidBill(id).(status := Pending)];
  }

  /** A bill paid without an inquiry under "p1", opened again and paid under "p2", then opened again: a payment
      repeating "p1" is credited a second time. */
  lemma ReopenedBillForgetsItsId()
    ensures var issue, p1, p2 := Create(F.FixedBill(None)), F.PayOf("p1", "P1", 100), F.PayOf("p2", "P1", 100);
            var db := Run(EMPTY_DB, [issue] + [Pay(p1, 0)] + [issue] + [Pay(p2, 0)] + [issue]);
            db.credits == [Credit(0, "P1", "p1", 100, ""), Credit(0, "P1", "p2", 100, "")] && Credits(db, p1, 0)
  {
    var issue, p1, p2 := Create(F.FixedBill(None)), F.PayOf("p1", "P1", 100), F.PayOf("p2", "P1", 100);
    FiveSteps(EMPTY_DB, issue, Pay(p1, 0), issue, Pay(p2, 0), issue);
    PaidTwice();
    var last := Step(Step(Step(Step(Step(EMPTY_DB, issue), Pay(p1, 0)), issue), Pay(p2, 0)), issue);
    PayFixed(last, "p1");
    CreditsGrow(last, p1);
    hide Step, PaidBill, Run;
  }

  lemma CreditsGrow(db: Db, p: PaymentReq)
    requires |Step(db, Pay(p, 0)).credits| > |db.credits|
    ensures Credits(db, p, 0)
  {
    hide Payment;
  }

  lemma PaidTwice()
    ensures var issue, p1, p2 := Create(F.FixedBill(None)), F.PayOf("p1", "P1", 100), F.PayOf("p2", "P1", 100);
            Step(Step(Step(Step(Step(EMPTY_DB, issue), Pay(p1, 0)), issue), Pay(p2, 0)), issue) ==
            EMPTY_DB.(txns := [PaidBill("p2").(status := Pending)],
                      credits := [Credit(0, "P1", "p1", 100, ""), Credit(0, "P1", "p2", 100, "")])
  {
    hide Step;
    FirstIssue();
    PaidAndReissued(EMPTY_DB.(txns := [NewBill(F.FixedBill(None), "P1")]), "p1");
    var c1, c2 := Credit(0, "P1", "p1", 100, ""), Credit(0, "P1", "p2", 100, "");
    assert [] + [c1] == [c1] && [c1] + [c2] == [c1, c2];
    PaidAndReissued(EMPTY_DB.(txns := [PaidBill("p1").(status := Pending)], credits := [c1]), "p2");
  }

  lemma FirstIssue()
    ensures Step(EMPTY_DB, Create(F.FixedBill(None))) == EMPTY_DB.(txns := [NewBill(F.FixedBill(None), "P1")])
  {
    F.IssueFixed(EMPTY_DB, None);
    hide Step;
    assert EMPTY_DB.txns + [NewBill(F.FixedBill(None), "P1")] == [NewBill(F.FixedBill(None), "P1")];
  }

  /** The bill is paid under `id` and opened again. */
  lemma PaidAndReissued(db: Db, id: string)
    requires |db.txns| == 1 && db.txns[0].(paid := None, paymentId := "") == NewBill(F.FixedBill(None), "P1")
    requires db.txns[0].paymentId != id && id != "" && db.accounts == map[] && db.instalments == []
    ensures Step(Step(db, Pay(F.PayOf(id, "P1", 100), 0)), Create(F.FixedBill(None))) ==
            db.(txns := [PaidBill(id).(status := Pending)], credits := db.credits + [Credit(0, "P1", id, 100, "")])
  {
    PayFixed(db, id);
    Reissue(Step(db, Pay(F.PayOf(id, "P1", 100), 0)), id);
    hide Step;
  }

  lemma FiveSteps(db: Db, a: Event, b: Event, c: Event, d: Event, e: Event)
    ensures Run(db, [a] + [b] + [c] + [d] + [e]) == Step(Step(Step(Step(Step(db, a), b), c), d), e)
  {
    hide Step;
    NoEvents(db);
    OneMore(db, [], a);
    assert [] + [a] == [a];
    OneMore(db, [a], b);
    OneMore(db, [a] + [b], c);
    OneMore(db, [a] + [b] + [c], d);
    OneMore(db, [a] + [b] + [c] + [d], e);
  }

  lemma NoEvents(db: Db)
    ensures Run(db, []) == db
  {
  }

  lemma OneMore(db: Db, run: seq<Event>, e: Event)
    ensures Run(db, run + [e]) == Step(Run(db, run), e)
  {
    assert (run + [e])[..|run|] == run;
  }
}

/** A number first registered without a bill: paid any number of times, each payment its own row. */
module NoBillNumbers {
  import opened Domain
  import opened Tables
  import opened Steps
  import opened Invariant
  import opened Reconciliation

  datatype Totals = Totals(count: nat, amount: int)

  /** The listing's aggregate of one number: COUNT(*) and SUM(paid_amount) over its settled rows. */
  function SettledTotals(txns: seq<Txn>, va: string): Totals {
    if |txns| == 0 then Totals(0, 0)
    else
      var t := txns[|txns| - 1];
      var rest := SettledTotals(txns[..|txns| - 1], va);
      if t.va == va && t.status == Settled then Totals(rest.count + 1, rest.amount + t.Paid()) else rest
  }

  /** The number and the sum of the payments accepted for `va`. */
  function CreditTotals(credits: seq<Credit>, va: string): Totals {
    if |credits| == 0 then Totals(0, 0)
    else
      var c := credits[|credits| - 1];
      var rest := CreditTotals(credits[..|credits| - 1], va);
      if c.va == va then Totals(rest.count + 1, rest.amount + c.amount) else rest
  }

  /** One accepted payment of a no-bill number. */
  predicate IsPaymentRow(t: Txn, paymentId: string, amount: int) {
    t.status == Settled && t.key == Vendor(paymentId) && t.paymentId == paymentId
    && t.paid == Some(amount) && t.total == amount
  }

  /** A bill a later CreateVA of another kind left on the number: never payable through it. */
  predicate IsDeadBill(t: Txn) {
    t.status == Pending && t.key == Placeholder(t.va)
  }

  ghost predicate RowsOf(txns: seq<Txn>, va: string) {
    forall i :: 0 <= i < |txns| && txns[i].va == va ==>
      IsDeadBill(txns[i]) || IsPaymentRow(txns[i], txns[i].paymentId, txns[i].total)
  }

  ghost predicate CreditsOf(db: Db, va: string) {
    && (forall k :: 0 <= k < |db.credits| && db.credits[k].va == va ==>
          db.credits[k].row < |db.txns|
          && IsPaymentRow(db.txns[db.credits[k].row], db.credits[k].paymentId, db.credits[k].amount))
    && (forall k, l :: 0 <= k < l < |db.credits| && db.credits[k].va == va && db.credits[l].va == va ==>
          db.credits[k].row != db.credits[l].row)
  }

  ghost predicate NoBillNumber(db: Db, va: string) {
    && IsNoBillVA(db, va) && RowsOf(db.txns, va) && CreditsOf(db, va)
    && SettledTotals(db.txns, va) == CreditTotals(db.credits, va)
  }

  /** Rows and credits of `va` are those of before, a dead bill apart; its billing class is the same. */
  ghost predicate Untouched(db: Db, after: Db, va: string) {
    && |db.txns| <= |after.txns| && |db.credits| <= |after.credits|
    && (forall i :: 0 <= i < |db.txns| ==> after.txns[i].va == db.txns[i].va)
    && (forall i :: 0 <= i < |db.txns| && db.txns[i].va == va ==> after.txns[i] == db.txns[i])
    && (forall i :: |db.txns| <= i < |after.txns| && after.txns[i].va == va ==> IsDeadBill(after.txns[i]))
    && after.credits[..|db.credits|] == db.credits
    && (forall k :: |db.credits| <= k < |after.credits| ==> after.credits[k].va != va)
    && IsNoBillVA(after, va)
  }

  lemma {:induction false} SettledTotalsUntouched(before: seq<Txn>, after: seq<Txn>, va: string)
    requires |before| <= |after|
    requires forall i :: 0 <= i < |before| ==> after[i].va == before[i].va
    requires forall i :: 0 <= i < |before| && before[i].va == va ==> after[i] == before[i]
    requires forall i :: |before| <= i < |after| && after[i].va == va ==> IsDeadBill(after[i])
    ensures SettledTotals(after, va) == SettledTotals(before, va)
    decreases |after|
  {
    if |after| > 0 {
      var rest := after[..|after| - 1];
      if |before| < |after| {
        SettledTotalsUntouched(before, rest, va);
      } else {
        SettledTotalsUntouched(before[..|before| - 1], rest, va);
      }
    }
  }

  lemma {:induction false} CreditTotalsUntouched(credits: seq<Credit>, more: seq<Credit>, va: string)
    requires |credits| <= |more| && more[..|credits|] == credits
    requires forall k :: |credits| <= k < |more| ==> more[k].va != va
    ensures CreditTotals(more, va) == CreditTotals(credits, va)
  {
    if |credits| < |more| {
      assert more[..|more| - 1][..|credits|] == credits;
      CreditTotalsUntouched(credits, more[..|more| - 1], va);
    } else {
      assert more == credits;
    }
  }

  lemma UntouchedKeeps(db: Db, after: Db, va: string)
    requires NoBillNumber(db, va) && Untouched(db, after, va) && CreditsInv(db.credits, db.txns)
    ensures NoBillNumber(after, va)
  {
    SettledTotalsUntouched(db.txns, after.txns, va);
    CreditTotalsUntouched(db.credits, after.credits, va);
    forall k | 0 <= k < |after.credits| && after.credits[k].va == va
      ensures k < |db.credits| && after.credits[k] == db.credits[k]
    {
      if k < |db.credits| { assert after.credits[..|db.credits|][k] == after.credits[k]; }
    }
  }

  lemma MarkExpiredUntouched(db: Db, i: nat, va: string)
    requires IsNoBillVA(db, va) && i < |db.txns| && db.txns[i].va != va
    ensures Untouched(db, MarkExpired(db, i), va)
  {
  }

  lemma InquiryUntouched(db: Db, req: InquiryReq, now: int, va: string)
    requires Inv(db) && NoBillNumber(db, va)
    ensures Untouched(db, Inquiry(db, req, now).db, va)
  {
    if IsNoBillVA(db, req.va) {
      NoBillInquiryUntouched(db, req.va, now, va);
    } else if ResolveInquiry(db, req).Some? {
      var i := ResolveInquiry(db, req).value;
      if db.txns[i].va != va {
        OtherInquiryUntouched(db, req, i, now, va);
      } else {
        OwnInquiryUntouched(db, req, i, now);
      }
    }
  }

  lemma NoBillInquiryUntouched(db: Db, number: string, now: int, va: string)
    requires IsNoBillVA(db, va) && number in db.accounts
    ensures Untouched(db, InquiryNoBill(db, number, now).db, va)
  {
  }

  lemma OtherInquiryUntouched(db: Db, req: InquiryReq, i: nat, now: int, va: string)
    requires IsNoBillVA(db, va) && i < |db.txns| && db.txns[i].va != va
    ensures Untouched(db, InquiryBilled(db, req, i, now).db, va)
  {
    if db.txns[i].IsExpired(now) {
      MarkExpiredUntouched(db, i, va);
    }
  }

  /** A row of the number can only be reached by its vendor id, and then it is closed. */
  lemma OwnInquiryUntouched(db: Db, req: InquiryReq, i: nat, now: int)
    requires i < |db.txns| && IsNoBillVA(db, db.txns[i].va) && RowsOf(db.txns, db.txns[i].va)
    requires db.txns[i].key == Vendor(req.inquiryId)
    ensures InquiryBilled(db, req, i, now).db == db
  {
  }

  lemma NothingTouched(db: Db, va: string)
    requires IsNoBillVA(db, va)
    ensures Untouched(db, db, va)
  {
  }

  lemma OtherInstalmentUntouched(db: Db, req: PaymentReq, b: nat, va: string)
    requires IsNoBillVA(db, va) && b < |db.txns| && db.txns[b].va != va
    ensures Untouched(db, PayInstalment(db, req, b).db, va)
  {
  }

  lemma OtherSettlementUntouched(db: Db, req: PaymentReq, b: nat, va: string)
    requires Inv(db) && IsNoBillVA(db, va) && b < |db.txns| && db.txns[b].va != va
    ensures Untouched(db, PaySettlement(db, req, b).db, va)
  {
    assert FindKey(db.txns, db.txns[b].key) == Some(b);
  }

  lemma OtherBillUntouched(db: Db, req: PaymentReq, b: nat, now: int, va: string)
    requires Inv(db) && IsNoBillVA(db, va) && req.va != va && Best(db.txns, req.va) == Some(b)
    ensures Untouched(db, PayBilled(db, req, b, now).db, va)
  {
    MarkExpiredUntouched(db, b, va);
    OtherInstalmentUntouched(db, req, b, va);
    OtherSettlementUntouched(db, req, b, va);
    NothingTouched(db, va);
    PayBilledBranches(db, req, b, now);
    hide Inv, Untouched, PayBilled, PayInstalment, PaySettlement, MarkExpired;
  }

  lemma OtherNoBillUntouched(db: Db, req: PaymentReq, now: int, va: string)
    requires IsNoBillVA(db, va) && req.va != va && req.va in db.accounts
    ensures Untouched(db, PaymentNoBill(db, req, now).db, va)
  {
  }

  /** A payment of another number. */
  lemma OtherPaymentUntouched(db: Db, req: PaymentReq, now: int, va: string)
    requires Inv(db) && IsNoBillVA(db, va) && req.va != va
    ensures Untouched(db, Decide(db, req, now).db, va)
  {
    if FindPaid(db.txns, req.paymentId).None? {
      if IsNoBillVA(db, req.va) {
        OtherNoBillUntouched(db, req, now, va);
      } else if Best(db.txns, req.va).Some? {
        OtherBillUntouched(db, req, Best(db.txns, req.va).value, now, va);
      }
    }
  }

  /** A payment of the number itself: refused and without effect, or one new row and one new credit. */
  lemma OwnPayment(db: Db, req: PaymentReq, now: int)
    requires Inv(db) && NoBillNumber(db, req.va)
    ensures var out := Decide(db, req, now);
            || Untouched(db, out.db, req.va)
            || (&& out.db.txns == db.txns + [NoBillTxn(req, db.accounts[req.va])]
                && out.db.credits ==
                   db.credits + [Credit(|db.txns|, req.va, req.paymentId, req.paid, db.accounts[req.va].url)]
                && out.db.accounts == db.accounts)
  {
    hide PaymentNoBill, Untouched, Inv, RowsOf, CreditsOf, SettledTotals, CreditTotals;
    NoBillPaymentAppends(db, req, now);
    NothingTouched(db, req.va);
  }

  lemma NoBillPaymentAppends(db: Db, req: PaymentReq, now: int)
    requires IsNoBillVA(db, req.va)
    ensures var out := PaymentNoBill(db, req, now);
            || Untouched(db, out.db, req.va)
            || (&& out.db.txns == db.txns + [NoBillTxn(req, db.accounts[req.va])]
                && out.db.credits ==
                   db.credits + [Credit(|db.txns|, req.va, req.paymentId, req.paid, db.accounts[req.va].url)]
                && out.db.accounts == db.accounts)
  {
  }

  lemma RowsOfAppend(txns: seq<Txn>, t: Txn, va: string)
    requires RowsOf(txns, va) && IsPaymentRow(t, t.paymentId, t.total)
    ensures RowsOf(txns + [t], va)
  {
  }

  lemma AppendedPaymentKeeps(db: Db, after: Db, req: PaymentReq)
    requires Inv(db) && NoBillNumber(db, req.va) && after.accounts == db.accounts
    requires after.txns == db.txns + [NoBillTxn(req, db.accounts[req.va])]
    requires after.credits ==
             db.credits + [Credit(|db.txns|, req.va, req.paymentId, req.paid, db.accounts[req.va].url)]
    ensures NoBillNumber(after, req.va)
  {
    var t := NoBillTxn(req, db.accounts[req.va]);
    var c := Credit(|db.txns|, req.va, req.paymentId, req.paid, db.accounts[req.va].url);
    hide Inv, RowsOf, CreditsOf, SettledTotals, CreditTotals;
    RowsOfAppend(db.txns, t, req.va);
    SettledTotalsAppend(db.txns, t, req.va);
    CreditTotalsAppend(db.credits, c, req.va);
    CreditsOfAppend(db, after, t, c);
  }

  lemma SettledTotalsAppend(txns: seq<Txn>, t: Txn, va: string)
    requires t.va == va && t.status == Settled
    ensures SettledTotals(txns + [t], va) ==
            Totals(SettledTotals(txns, va).count + 1, SettledTotals(txns, va).amount + t.Paid())
  {
    assert (txns + [t])[..|txns|] == txns;
  }

  lemma CreditTotalsAppend(credits: seq<Credit>, c: Credit, va: string)
    requires c.va == va
    ensures CreditTotals(credits + [c], va) ==
            Totals(CreditTotals(credits, va).count + 1, CreditTotals(credits, va).amount + c.amount)
  {
    assert (credits + [c])[..|credits|] == credits;
  }

  lemma CreditsOfAppend(db: Db, after: Db, t: Txn, c: Credit)
    requires CreditsOf(db, c.va) && c.row == |db.txns| && IsPaymentRow(t, c.paymentId, c.amount)
    requires after.txns == db.txns + [t] && after.credits == db.credits + [c]
    ensures CreditsOf(after, c.va)
  {
  }

  lemma PaymentKeeps(db: Db, req: PaymentReq, now: int, va: string)
    requires Inv(db) && NoBillNumber(db, va)
    ensures NoBillNumber(Payment(db, req, now).db, va)
  {
    if req.paymentId != "" && req.paid > 0 && !Flagged(db, req) {
      var out := Decide(db, req, now);
      if req.va != va {
        OtherPaymentUntouched(db, req, now, va);
        UntouchedKeeps(db, out.db, va);
      } else {
        OwnPayment(db, req, now);
        if Untouched(db, out.db, va) { UntouchedKeeps(db, out.db, va); } else { AppendedPaymentKeeps(db, out.db, req); }
      }
    }
  }

  lemma OpenBillUntouched(db: Db, c: CreateReq, customerNo: string, number: string, va: string)
    requires Inv(db) && IsNoBillVA(db, va) && RowsOf(db.txns, va)
    ensures Untouched(db, OpenBill(db, c, customerNo, number).db, va)
  {
    var k := FindKey(db.txns, Placeholder(number));
    if k.Some? && number == va { BestIsThePendingRow(db.txns, va, k.value); }
  }

  lemma CreateUntouched(db: Db, c: CreateReq, va: string)
    requires Inv(db) && NoBillNumber(db, va)
    ensures Untouched(db, CreateVA(db, c).db, va)
  {
    if CreateFieldsValid(c) && Number(c).Numbered? {
      var customerNo, number := Number(c).customerNo, Number(c).vaNo;
      var registered :=
        if c.Managed() then StoreAccount(db.accounts, number, NewAccount(c, customerNo)) else Some(db.accounts);
      if registered.Some? {
        OpenBillUntouched(db.(accounts := registered.value), c, customerNo, number, va);
      }
    }
  }

  lemma DeleteUntouched(db: Db, number: string, va: string)
    requires NoBillNumber(db, va)
    ensures Untouched(db, DeleteVA(db, number).db, va)
  {
  }

  /** Every row of the number is closed or was never inquired, so the vendor is not believed about it. */
  lemma ReconcileUntouched(db: Db, record: Txn, answer: VendorAnswer, va: string)
    requires NoBillNumber(db, va)
    requires Unbelieved(record, va)
    ensures Untouched(db, ReconcileRecord(db, record, answer).db, va)
  {
    SettlesExactlyWhenConfirmed(db, record, answer);
    if ReconcileRecord(db, record, answer).outcome == OutSettled {
      SettleCreditsSound(db.txns, record.va, answer.data.value.paid.value, answer.data.value.paymentId);
    }
  }

  /** The vendor's word settles no row of the number. */
  predicate Unbelieved(t: Txn, va: string) {
    t.va == va ==> t.status != Pending || t.IsPlaceholder()
  }

  lemma OwnRowsUnbelieved(db: Db, va: string)
    requires NoBillNumber(db, va)
    ensures forall i :: 0 <= i < |db.txns| ==> Unbelieved(db.txns[i], va)
  {
  }

  lemma {:induction false} SweepKeeps(db: Db, records: seq<Txn>, vendor: VendorBook, va: string)
    requires Inv(db) && NoBillNumber(db, va)
    requires forall k :: 0 <= k < |records| ==> Unbelieved(records[k], va)
    ensures NoBillNumber(SweepRecords(db, records, vendor).db, va)
  {
    if |records| > 0 {
      var n := |records| - 1;
      SweepKeeps(db, records[..n], vendor, va);
      SweepKeepsInv(db, records[..n], vendor);
      var mid := SweepRecords(db, records[..n], vendor).db;
      var answer := AnswerFor(vendor, records[n].va);
      ReconcileUntouched(mid, records[n], answer, va);
      UntouchedKeeps(mid, ReconcileRecord(mid, records[n], answer).db, va);
    }
  }

  lemma StepKeeps(db: Db, e: Event, va: string)
    requires Inv(db) && NoBillNumber(db, va)
    ensures NoBillNumber(Step(db, e), va)
  {
    match e
    case Create(c) => CreateUntouched(db, c, va); UntouchedKeeps(db, Step(db, e), va);
    case Inquire(q, now) => InquiryUntouched(db, q, now, va); UntouchedKeeps(db, Step(db, e), va);
    case Pay(p, now) => PaymentKeeps(db, p, now, va);
    case Delete(number) => DeleteUntouched(db, number, va); UntouchedKeeps(db, Step(db, e), va);
    case ReconcileOne(number, answer) =>
      if Best(db.txns, number).Some? {
        ReconcileUntouched(db, db.txns[Best(db.txns, number).value], answer, va);
        UntouchedKeeps(db, Step(db, e), va);
      }
    case SweepAll(cutoff, now, limit, vendor) =>
      OwnRowsUnbelieved(db, va);
      SweepKeeps(db, Candidates(db.txns, cutoff, now, limit), vendor, va);
  }

  lemma {:induction false} RunKeeps(db: Db, run: seq<Event>, va: string)
    requires Inv(db) && NoBillNumber(db, va)
    ensures NoBillNumber(Run(db, run), va)
  {
    if |run| > 0 {
      var n := |run| - 1;
      RunKeeps(db, run[..n], va);
      RunKeepsInv(db, run[..n]);
      StepKeeps(Run(db, run[..n]), run[n], va);
    }
  }

  /** CreateVA registers `va` without a bill, on a number nothing is known of. */
  predicate RegistersNoBill(db: Db, c: CreateReq, va: string) {
    && CreateVA(db, c).code == Created && CreatesNoBill(c) && Number(c).vaNo == va
    && va !in db.accounts && Best(db.txns, va).None?
  }

  lemma {:induction false} NothingKnown(txns: seq<Txn>, credits: seq<Credit>, va: string)
    requires forall i :: 0 <= i < |txns| ==> txns[i].va != va
    requires forall k :: 0 <= k < |credits| ==> credits[k].va != va
    ensures SettledTotals(txns, va) == Totals(0, 0) == CreditTotals(credits, va)
    decreases |txns| + |credits|
  {
    if |txns| > 0 {
      NothingKnown(txns[..|txns| - 1], credits, va);
    } else if |credits| > 0 {
      NothingKnown(txns, credits[..|credits| - 1], va);
    }
  }

  lemma RegistrationStarts(db: Db, c: CreateReq, va: string)
    requires Inv(db) && RegistersNoBill(db, c, va)
    ensures NoBillNumber(CreateVA(db, c).db, va)
    ensures var a := CreateVA(db, c).db.accounts[va]; a.status == Active && a.expires == c.expires
  {
    assert CreateVA(db, c).db.txns == db.txns && CreateVA(db, c).db.credits == db.credits;
    assert forall k :: 0 <= k < |db.credits| ==> db.credits[k].va != va;
    NothingKnown(db.txns, db.credits, va);
  }

  /** A number first registered without a bill, in every later state: it still has no bill, its settled rows
      count and sum to its accepted payments, and those have pairwise distinct payment ids. */
  lemma NoBillNumberAddsUp(earlier: seq<Event>, c: CreateReq, va: string, run: seq<Event>)
    requires RegistersNoBill(Run(EMPTY_DB, earlier), c, va)
    ensures var end := Run(Step(Run(EMPTY_DB, earlier), Create(c)), run);
            && IsNoBillVA(end, va)
            && SettledTotals(end.txns, va) == CreditTotals(end.credits, va)
            && forall k, l :: 0 <= k < l < |end.credits| && end.credits[k].va == va && end.credits[l].va == va ==>
                 end.credits[k].paymentId != end.credits[l].paymentId
  {
    var before := Run(EMPTY_DB, earlier);
    var after := Step(before, Create(c));
    RunKeepsInv(EMPTY_DB, earlier);
    StepKeepsInv(before, Create(c));
    RegistrationStarts(before, c, va);
    RunKeeps(after, run, va);
    RunKeepsInv(after, run);
    DistinctPaymentIds(Run(after, run), va);
  }

  /** No later call alters a payment already recorded. */
  lemma EarlierPaymentsUnaltered(db: Db, va: string, run: seq<Event>, i: nat)
    requires Inv(db) && NoBillNumber(db, va)
    requires i < |db.txns| && db.txns[i].va == va && db.txns[i].status == Settled
    ensures i < |Run(db, run).txns| && Run(db, run).txns[i] == db.txns[i]
  {
    assert IsPaymentRow(db.txns[i], db.txns[i].paymentId, db.txns[i].total);
    RunKeepsInv(db, run);
  }

  lemma DistinctPaymentIds(db: Db, va: string)
    requires Inv(db) && NoBillNumber(db, va)
    ensures forall k, l :: 0 <= k < l < |db.credits| && db.credits[k].va == va && db.credits[l].va == va ==>
              db.credits[k].paymentId != db.credits[l].paymentId
  {
    forall k, l | 0 <= k < l < |db.credits| && db.credits[k].va == va && db.credits[l].va == va
      ensures db.credits[k].paymentId != db.credits[l].paymentId
    {
      assert db.txns[db.credits[k].row].key != db.txns[db.credits[l].row].key;
    }
  }

  // ---------------------------------------------------------------- deletion

  /** The registration takes no payment: it was deleted or has expired. */
  predicate Retired(db: Db, va: string) {
    IsNoBillVA(db, va) && db.accounts[va].status != Active
  }

  predicate CreatesOn(e: Event, va: string) {
    e.Create? && Number(e.c).Numbered? && Number(e.c).vaNo == va
  }

  lemma PaymentKeepsRetired(db: Db, req: PaymentReq, now: int, va: string)
    requires Inv(db) && Retired(db, va)
    ensures Retired(Decide(db, req, now).db, va)
    ensures CreditTotals(Decide(db, req, now).db.credits, va) == CreditTotals(db.credits, va)
  {
    if req.va != va {
      OtherPaymentUntouched(db, req, now, va);
      CreditTotalsUntouched(db.credits, Decide(db, req, now).db.credits, va);
      OtherPaymentKeepsAccount(db, req, now, va);
    }
  }

  lemma OtherPaymentKeepsAccount(db: Db, req: PaymentReq, now: int, va: string)
    requires va in db.accounts && req.va != va
    ensures var after := Decide(db, req, now).db; va in after.accounts && after.accounts[va] == db.accounts[va]
  {
  }

  lemma InquiryKeepsRetired(db: Db, req: InquiryReq, now: int, va: string)
    requires Retired(db, va)
    ensures Retired(Inquiry(db, req, now).db, va)
  {
  }

  lemma CreateElsewhereKeepsRetired(db: Db, c: CreateReq, va: string)
    requires Retired(db, va) && !CreatesOn(Create(c), va)
    ensures Retired(CreateVA(db, c).db, va)
  {
  }

  /** The registration stays retired and no credit of the number is added. */
  ghost predicate StaysRetired(db: Db, after: Db, va: string) {
    Retired(after, va) && CreditTotals(after.credits, va) == CreditTotals(db.credits, va)
  }

  lemma UntouchedStaysRetired(db: Db, after: Db, va: string)
    requires Untouched(db, after, va) && Retired(after, va)
    ensures StaysRetired(db, after, va)
  {
    CreditTotalsUntouched(db.credits, after.credits, va);
  }

  lemma DeleteStaysRetired(db: Db, number: string, va: string)
    requires Retired(db, va)
    ensures StaysRetired(db, DeleteVA(db, number).db, va)
  {
  }

  lemma ReconcileStaysRetired(db: Db, number: string, answer: VendorAnswer, va: string)
    requires NoBillNumber(db, va) && Retired(db, va)
    ensures StaysRetired(db, Step(db, ReconcileOne(number, answer)), va)
  {
    hide Untouched;
    if Best(db.txns, number).Some? {
      var record := db.txns[Best(db.txns, number).value];
      ReconcileUntouched(db, record, answer, va);
      UntouchedStaysRetired(db, ReconcileRecord(db, record, answer).db, va);
    }
  }

  lemma PayStaysRetired(db: Db, p: PaymentReq, now: int, va: string)
    requires Inv(db) && Retired(db, va)
    ensures StaysRetired(db, Payment(db, p, now).db, va)
  {
    PaymentKeepsRetired(db, p, now, va);
  }

  lemma StepKeepsRetired(db: Db, e: Event, va: string)
    requires Inv(db) && NoBillNumber(db, va) && Retired(db, va) && !CreatesOn(e, va)
    ensures StaysRetired(db, Step(db, e), va)
  {
    hide StaysRetired, NoBillNumber, Untouched, Inv, CreatesOn;
    match e
    case Create(c) =>
      CreateElsewhereKeepsRetired(db, c, va);
      CreateUntouched(db, c, va);
      UntouchedStaysRetired(db, CreateVA(db, c).db, va);
    case Inquire(q, now) =>
      InquiryKeepsRetired(db, q, now, va);
      InquiryUntouched(db, q, now, va);
      UntouchedStaysRetired(db, Inquiry(db, q, now).db, va);
    case Pay(p, now) => PayStaysRetired(db, p, now, va);
    case Delete(number) => DeleteStaysRetired(db, number, va);
    case ReconcileOne(number, answer) => ReconcileStaysRetired(db, number, answer, va);
    case SweepAll(cutoff, now, limit, vendor) =>
      OwnRowsUnbelieved(db, va);
      SweepKeepsRetired(db, Candidates(db.txns, cutoff, now, limit), vendor, va);
  }

  lemma {:induction false} SweepKeepsRetired(db: Db, records: seq<Txn>, vendor: VendorBook, va: string)
    requires Inv(db) && NoBillNumber(db, va) && Retired(db, va)
    requires forall k :: 0 <= k < |records| ==> Unbelieved(records[k], va)
    ensures StaysRetired(db, SweepRecords(db, records, vendor).db, va)
  {
    if |records| > 0 {
      var n := |records| - 1;
      SweepKeepsRetired(db, records[..n], vendor, va);
      SweepKeeps(db, records[..n], vendor, va);
      var mid := SweepRecords(db, records[..n], vendor).db;
      var answer := AnswerFor(vendor, records[n].va);
      ReconcileUntouched(mid, records[n], answer, va);
      CreditTotalsUntouched(mid.credits, ReconcileRecord(mid, records[n], answer).db.credits, va);
    }
  }

  lemma {:induction false} RunKeepsRetired(db: Db, run: seq<Event>, va: string)
    requires Inv(db) && NoBillNumber(db, va) && Retired(db, va)
    requires forall k :: 0 <= k < |run| ==> !CreatesOn(run[k], va)
    ensures Retired(Run(db, run), va)
    ensures CreditTotals(Run(db, run).credits, va) == CreditTotals(db.credits, va)
  {
    if |run| > 0 {
      var n := |run| - 1;
      RunKeepsRetired(db, run[..n], va);
      RunKeeps(db, run[..n], va);
      RunKeepsInv(db, run[..n]);
      StepKeepsRetired(Run(db, run[..n]), run[n], va);
    }
  }

  /** After DeleteVA no payment of the number is recorded until CreateVA names it again. */
  lemma DeletedTakesNoCredit(db: Db, va: string, run: seq<Event>)
    requires Inv(db) && NoBillNumber(db, va)
    requires forall k :: 0 <= k < |run| ==> !CreatesOn(run[k], va)
    ensures var deleted := Step(db, Delete(va));
            CreditTotals(Run(deleted, run).credits, va) == CreditTotals(db.credits, va)
  {
    StepKeeps(db, Delete(va), va);
    StepKeepsInv(db, Delete(va));
    RunKeepsRetired(Step(db, Delete(va)), run, va);
  }
}

/** Over whole runs: when a row the vendor settled can be settled again. */
module Resettlement {
  import opened Domain
  import opened Tables
  import opened Steps
  import opened Invariant
  import opened Reconciliation
  import opened Lifecycle
  import opened VariableBill

  /** What the row's instalments sum to once the payment is recorded; an id on file adds nothing. */
  function SumAfter(db: Db, p: PaymentReq, i: nat): int {
    InstalmentSum(db.instalments, i) + if FindInstalment(db.instalments, p.paymentId).None? then p.paid else 0
  }

  /** The call is an instalment the row takes, and the instalments then fall short of its total. */
  predicate ReopensRow(db: Db, e: Event, i: nat) {
    && e.Pay? && ReachesBill(db, e.p, e.now, i) && PaymentBilling(db, db.txns[i]) == Variable
    && !Overpays(db.txns[i], e.p.paid) && SumAfter(db, e.p, i) < db.txns[i].total
  }

  /** A settled row under a vendor id. */
  predicate SettledAt(txns: seq<Txn>, i: nat) {
    i < |txns| && txns[i].status == Settled && txns[i].key.Vendor?
  }

  lemma InstalmentReopens(db: Db, p: PaymentReq, b: nat, i: nat)
    requires b < |db.txns| && SettledAt(db.txns, i)
    ensures var after := PayInstalment(db, p, b).db.txns;
            && i < |after| && after[i].key == db.txns[i].key
            && (after[i].status != Settled <==>
                  b == i && !Overpays(db.txns[b], p.paid) && SumAfter(db, p, b) < db.txns[b].total)
            && (after[i].status == Settled || after[i].status == Pending)
  {
    SumAppend(db.instalments, Instalment(b, p.paymentId, p.paid), b);
  }

  lemma SettlementKeepsSettled(db: Db, p: PaymentReq, b: nat, i: nat)
    requires Inv(db) && b < |db.txns| && SettledAt(db.txns, i)
    ensures SettledAt(PaySettlement(db, p, b).db.txns, i)
  {
    assert FindKey(db.txns, db.txns[b].key) == Some(b);
  }

  lemma ExpiryKeepsSettled(db: Db, b: nat, i: nat)
    requires b < |db.txns| && SettledAt(db.txns, i)
    ensures SettledAt(MarkExpired(db, b).txns, i)
  {
  }

  /** Whether row `i` is the one the payment comes to, as an instalment short of the total. */
  predicate BilledReopens(db: Db, p: PaymentReq, b: nat, now: int, i: nat)
    requires b < |db.txns|
  {
    && b == i && !db.txns[b].IsExpired(now) && db.txns[b].IsPayable() && PaymentBilling(db, db.txns[b]) == Variable
    && (var k := FindInstalment(db.instalments, p.paymentId); k.Some? ==> db.instalments[k.value].txn != b)
    && !Overpays(db.txns[b], p.paid) && SumAfter(db, p, b) < db.txns[b].total
  }

  lemma PayBilledReopens(db: Db, p: PaymentReq, b: nat, now: int, i: nat)
    requires Inv(db) && b < |db.txns| && SettledAt(db.txns, i)
    ensures SettledAt(PayBilled(db, p, b, now).db.txns, i) <==> !BilledReopens(db, p, b, now, i)
  {
    ExpiryKeepsSettled(db, b, i);
    InstalmentReopens(db, p, b, i);
    SettlementKeepsSettled(db, p, b, i);
    hide Inv, MarkExpired, PayInstalment, PaySettlement, InstalmentSum, SumAfter;
  }

  lemma NoBillKeepsSettled(db: Db, p: PaymentReq, now: int, i: nat)
    requires p.va in db.accounts && SettledAt(db.txns, i)
    ensures SettledAt(PaymentNoBill(db, p, now).db.txns, i)
  {
  }

  lemma PayReopens(db: Db, p: PaymentReq, now: int, i: nat)
    requires Inv(db) && SettledAt(db.txns, i)
    ensures SettledAt(Payment(db, p, now).db.txns, i) <==> !ReopensRow(db, Pay(p, now), i)
  {
    if IsNoBillVA(db, p.va) {
      NoBillKeepsSettled(db, p, now, i);
    } else if Best(db.txns, p.va).Some? {
      PayBilledReopens(db, p, Best(db.txns, p.va).value, now, i);
    }
    hide Inv, PaymentNoBill, PayBilled, SumAfter;
  }

  lemma CreateKeepsSettled(db: Db, c: CreateReq, i: nat)
    requires Inv(db) && SettledAt(db.txns, i)
    ensures SettledAt(CreateVA(db, c).db.txns, i)
  {
    if CreateFieldsValid(c) && Number(c).Numbered? {
      StoreKeepsSettled(db.txns, BillRow(NewBill(c, Number(c).vaNo)), i);
      hide SettledAt, SaveInquiry, BillRow;
    }
  }

  lemma StoreKeepsSettled(txns: seq<Txn>, bill: Txn, i: nat)
    requires SettledAt(txns, i) && bill.key.Placeholder?
    ensures SettledAt(SaveInquiry(txns, bill), i)
  {
  }

  lemma InquiryKeepsSettled(db: Db, q: InquiryReq, now: int, i: nat)
    requires SettledAt(db.txns, i)
    ensures SettledAt(Inquiry(db, q, now).db.txns, i)
  {
    if !IsNoBillVA(db, q.va) && ResolveInquiry(db, q).Some? {
      BilledInquiryKeepsSettled(db, q, ResolveInquiry(db, q).value, now, i);
      hide InquiryBilled, SettledAt;
    }
  }

  lemma BilledInquiryKeepsSettled(db: Db, q: InquiryReq, r: nat, now: int, i: nat)
    requires r < |db.txns| && SettledAt(db.txns, i)
    ensures SettledAt(InquiryBilled(db, q, r, now).db.txns, i)
  {
    ExpiryKeepsSettled(db, r, i);
    hide MarkExpired;
  }

  lemma ReconcileKeepsSettled(db: Db, record: Txn, answer: VendorAnswer, i: nat)
    requires SettledAt(db.txns, i)
    ensures SettledAt(ReconcileRecord(db, record, answer).db.txns, i)
  {
  }

  lemma {:induction false} SweepKeepsSettled(db: Db, records: seq<Txn>, vendor: VendorBook, i: nat)
    requires SettledAt(db.txns, i)
    ensures SettledAt(SweepRecords(db, records, vendor).db.txns, i)
  {
    if |records| > 0 {
      var n := |records| - 1;
      SweepKeepsSettled(db, records[..n], vendor, i);
      ReconcileKeepsSettled(SweepRecords(db, records[..n], vendor).db, records[n], AnswerFor(vendor, records[n].va), i);
    }
  }

  /** A settled row under a vendor id stays settled under every call but one: an instalment that leaves its
      instalments short of the total. */
  lemma ReopenedExactlyWhen(db: Db, e: Event, i: nat)
    requires Inv(db) && SettledAt(db.txns, i)
    ensures SettledAt(Step(db, e).txns, i) <==> !ReopensRow(db, e, i)
  {
    match e
    case Create(c) => CreateKeepsSettled(db, c, i);
    case Inquire(q, now) => InquiryKeepsSettled(db, q, now, i);
    case Pay(p, now) => PayReopens(db, p, now, i);
    case Delete(va) =>
    case ReconcileOne(va, answer) =>
      if Best(db.txns, va).Some? { ReconcileKeepsSettled(db, db.txns[Best(db.txns, va).value], answer, i); }
    case SweepAll(cutoff, now, limit, vendor) =>
      SweepKeepsSettled(db, Candidates(db.txns, cutoff, now, limit), vendor, i);
  }

  lemma {:induction false} SettledUntilReopened(db: Db, run: seq<Event>, i: nat)
    requires Inv(db) && SettledAt(db.txns, i)
    requires forall k :: 0 <= k < |run| ==> !ReopensRow(Run(db, run[..k]), run[k], i)
    ensures SettledAt(Run(db, run).txns, i)
  {
    if |run| > 0 {
      var n := |run| - 1;
      assert forall k :: 0 <= k < n ==> run[..n][..k] == run[..k] && run[..n][k] == run[k];
      SettledUntilReopened(db, run[..n], i);
      RunKeepsInv(db, run[..n]);
      ReopenedExactlyWhen(Run(db, run[..n]), run[n], i);
    }
  }

  /** The vendor settles a row; if after any further run the row is open to be settled again, then some call of
      that run was an instalment that reopened it. */
  lemma SettledAgainOnlyIfReopened(db: Db, i: nat, answer: VendorAnswer, run: seq<Event>)
    requires Inv(db) && i < |db.txns| && ReconcileRecord(db, db.txns[i], answer).outcome == OutSettled
    ensures var settled := ReconcileRecord(db, db.txns[i], answer).db;
            && i < |Run(settled, run).txns|
            && (Run(settled, run).txns[i].status == Pending ==>
                  exists k :: 0 <= k < |run| && ReopensRow(Run(settled, run[..k]), run[k], i))
  {
    var settled := ReconcileRecord(db, db.txns[i], answer).db;
    SettlesOwnRow(db, i, answer);
    SettlesExactlyWhenConfirmed(db, db.txns[i], answer);
    assert SettledAt(settled.txns, i);
    ReconcileKeepsInv(db, db.txns[i], answer);
    RunKeepsInv(settled, run);
    if forall k :: 0 <= k < |run| ==> !ReopensRow(Run(settled, run[..k]), run[k], i) {
      SettledUntilReopened(settled, run, i);
    }
  }
}

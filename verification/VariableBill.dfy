/** A variable bill over its cycle: what the row says is what its instalments say. */
module VariableBill {
  import opened Domain
  import opened Tables
  import opened Steps
  import opened Invariant

  lemma SumAppend(rows: seq<Instalment>, x: Instalment, r: nat)
    ensures InstalmentSum(rows + [x], r) == InstalmentSum(rows, r) + if x.txn == r then x.amount else 0
  {
    assert (rows + [x])[..|rows|] == rows;
  }

  lemma {:induction false} SumOfUnusedRow(rows: seq<Instalment>, r: nat)
    requires forall i :: 0 <= i < |rows| ==> rows[i].txn != r
    ensures InstalmentSum(rows, r) == 0
  {
    if |rows| > 0 { SumOfUnusedRow(rows[..|rows| - 1], r); }
  }

  /** The row agrees with the sum of its instalments and is settled exactly when they reach the total. */
  predicate Balanced(row: Txn, sum: int) {
    && row.total > 0 && row.Paid() == sum && 0 <= sum <= row.total
    && (row.status == Settled <==> sum == row.total)
  }

  predicate InCycle(db: Db, r: nat) {
    && r < |db.txns|
    && db.txns[r].va in db.accounts && db.accounts[db.txns[r].va].billing == Variable
    && Balanced(db.txns[r], InstalmentSum(db.instalments, r))
  }

  /** The vendor's answer that makes a reconciliation settle. */
  predicate Confirms(answer: VendorAnswer) {
    && answer.Answer? && answer.data.Some? && answer.data.value.paid.Some?
    && ClassifyVendorStatus(answer.code, answer.data.value.flag) == OutSettled
  }

  /** A CreateVA that succeeds in writing a bill on `va`. */
  predicate OpensBill(db: Db, c: CreateReq, va: string) {
    CreateVA(db, c).code == Created && !CreatesNoBill(c) && Number(c).vaNo == va
  }

  /** A call that neither opens a bill on `va` nor settles it on the vendor's word. A CreateVA on the number that
      is refused, or only renews its registration, stays within the cycle. */
  predicate WithinCycle(db: Db, e: Event, va: string) {
    match e
    case Create(c) => !OpensBill(db, c, va)
    case ReconcileOne(v, answer) => v == va ==> !Confirms(answer)
    case SweepAll(_, _, _, vendor) => !Confirms(AnswerFor(vendor, va))
    case Inquire(_, _) => true
    case Pay(_, _) => true
    case Delete(_) => true
  }

  /** Closing the pending rows of any number keeps the balance: a pending row is short of its total. */
  lemma CloseKeepsCycle(db: Db, r: nat, va: string, status: Status)
    requires InCycle(db, r) && status in {Expired, Deleted}
    ensures InCycle(db.(txns := UpdateVAStatus(db.txns, va, status)), r)
  {
  }

  lemma MarkExpiredKeepsCycle(db: Db, r: nat, i: nat)
    requires InCycle(db, r) && i < |db.txns|
    ensures InCycle(MarkExpired(db, i), r)
  {
    CloseKeepsCycle(db, r, db.txns[i].va, Expired);
  }

  lemma InquiryKeepsCycle(db: Db, r: nat, req: InquiryReq, now: int)
    requires InCycle(db, r)
    ensures InCycle(Inquiry(db, req, now).db, r)
  {
    if IsNoBillVA(db, req.va) {
      assert db.txns[r].va != req.va;
      NoBillInquiryKeepsCycle(db, r, req.va, now);
    } else if ResolveInquiry(db, req).Some? {
      BilledInquiryKeepsCycle(db, r, req, ResolveInquiry(db, req).value, now);
    }
  }

  lemma NoBillInquiryKeepsCycle(db: Db, r: nat, va: string, now: int)
    requires InCycle(db, r) && va in db.accounts && db.txns[r].va != va
    ensures InCycle(InquiryNoBill(db, va, now).db, r)
  {
  }

  lemma BilledInquiryKeepsCycle(db: Db, r: nat, req: InquiryReq, i: nat, now: int)
    requires InCycle(db, r) && i < |db.txns|
    ensures InCycle(InquiryBilled(db, req, i, now).db, r)
  {
    if db.txns[i].IsExpired(now) {
      MarkExpiredKeepsCycle(db, r, i);
    }
  }

  lemma InstalmentKeepsCycle(db: Db, r: nat, req: PaymentReq, b: nat)
    requires InCycle(db, r) && b < |db.txns| && req.paid > 0
    requires db.txns[b].IsPayable()
    ensures InCycle(PayInstalment(db, req, b).db, r)
  {
    if !Overpays(db.txns[b], req.paid) {
      SaveInstalmentKeepsCycle(db, r, b, req.paymentId, req.paid);
    }
    hide SaveVAPayment, InstalmentSum, FindInstalment, Balanced;
  }

  lemma SaveInstalmentKeepsCycle(db: Db, r: nat, b: nat, id: string, amount: int)
    requires InCycle(db, r) && b < |db.txns| && amount > 0 && db.txns[b].IsPayable() && !Overpays(db.txns[b], amount)
    ensures InCycle(SaveVAPayment(db, b, id, amount), r)
  {
    SumAppend(db.instalments, Instalment(b, id, amount), r);
  }

  lemma PayBilledKeepsCycle(db: Db, r: nat, req: PaymentReq, b: nat, now: int)
    requires Inv(db) && InCycle(db, r) && Best(db.txns, req.va) == Some(b) && req.paid > 0
    ensures InCycle(PayBilled(db, req, b, now).db, r)
  {
    var row := db.txns[b];
    if row.IsExpired(now) {
      MarkExpiredKeepsCycle(db, r, b);
    } else if row.IsPayable() && PaymentBilling(db, row) == Variable {
      InstalmentKeepsCycle(db, r, req, b);
    } else if row.IsPayable() {
      SettlementKeepsCycle(db, r, req, b);
    }
  }

  lemma SettlementKeepsCycle(db: Db, r: nat, req: PaymentReq, b: nat)
    requires Inv(db) && InCycle(db, r) && b < |db.txns| && PaymentBilling(db, db.txns[b]) != Variable
    ensures InCycle(PaySettlement(db, req, b).db, r)
  {
    assert FindKey(db.txns, db.txns[b].key) == Some(b);
  }

  lemma NoBillKeepsCycle(db: Db, r: nat, req: PaymentReq, now: int)
    requires InCycle(db, r) && IsNoBillVA(db, req.va)
    ensures InCycle(PaymentNoBill(db, req, now).db, r)
  {
    assert db.txns[r].va != req.va;
  }

  lemma PaymentKeepsCycle(db: Db, r: nat, req: PaymentReq, now: int)
    requires Inv(db) && InCycle(db, r)
    ensures InCycle(Payment(db, req, now).db, r)
  {
    if req.paymentId != "" && req.paid > 0 && !Flagged(db, req) {
      if FindPaid(db.txns, req.paymentId).None? {
        if IsNoBillVA(db, req.va) {
          NoBillKeepsCycle(db, r, req, now);
        } else if Best(db.txns, req.va).Some? {
          PayBilledKeepsCycle(db, r, req, Best(db.txns, req.va).value, now);
        }
      }
      assert InCycle(Decide(db, req, now).db, r);
    }
  }

  lemma CreateKeepsCycle(db: Db, r: nat, c: CreateReq)
    requires Inv(db) && InCycle(db, r) && !OpensBill(db, c, db.txns[r].va)
    ensures InCycle(CreateVA(db, c).db, r)
  {
    if CreateFieldsValid(c) && Number(c).Numbered? {
      CreateKeepsBilling(db, c, Number(c).customerNo, Number(c).vaNo, db.txns[r].va);
      CreateKeepsRow(db, r, c, Number(c).customerNo, Number(c).vaNo);
    }
  }

  /** CreateVA never changes the billing class of a registered number. */
  lemma CreateKeepsBilling(db: Db, c: CreateReq, customerNo: string, number: string, va: string)
    requires va in db.accounts
    ensures var after := CreateNumbered(db, c, customerNo, number).db;
            va in after.accounts && after.accounts[va].billing == db.accounts[va].billing
  {
  }

  lemma CreateKeepsRow(db: Db, r: nat, c: CreateReq, customerNo: string, va: string)
    requires Inv(db) && r < |db.txns|
    requires CreateNumbered(db, c, customerNo, va).code == Created && !CreatesNoBill(c) ==> va != db.txns[r].va
    ensures var after := CreateNumbered(db, c, customerNo, va).db;
            r < |after.txns| && after.txns[r] == db.txns[r] && after.instalments == db.instalments
  {
    hide StoreAccount, NewAccount, InstalmentsInv, CreditsInv;
    if va != db.txns[r].va {
      OtherRowKept(db.txns, r, BillRow(NewBill(c, va)));
    }
  }

  lemma OtherRowKept(txns: seq<Txn>, r: nat, bill: Txn)
    requires TxnsInv(txns) && r < |txns| && bill.va != txns[r].va && bill.key == Placeholder(bill.va)
    ensures var after := SaveInquiry(txns, bill); r < |after| && after[r] == txns[r]
  {
    var k := FindKey(txns, bill.key);
    assert k.Some? ==> txns[k.value].va == bill.va;
  }

  lemma DeleteKeepsCycle(db: Db, r: nat, va: string)
    requires InCycle(db, r)
    ensures InCycle(DeleteVA(db, va).db, r)
  {
    CloseKeepsCycle(db, r, va, Deleted);
  }

  lemma ReconcileKeepsCycle(db: Db, r: nat, record: Txn, answer: VendorAnswer)
    requires InCycle(db, r) && (record.va == db.txns[r].va ==> !Confirms(answer))
    ensures InCycle(ReconcileRecord(db, record, answer).db, r)
  {
  }

  lemma {:induction false} SweepKeepsCycle(db: Db, r: nat, records: seq<Txn>, vendor: VendorBook)
    requires Inv(db) && InCycle(db, r) && !Confirms(AnswerFor(vendor, db.txns[r].va))
    ensures InCycle(SweepRecords(db, records, vendor).db, r)
  {
    if |records| > 0 {
      var n := |records| - 1;
      SweepKeepsCycle(db, r, records[..n], vendor);
      SweepKeepsInv(db, records[..n], vendor);
      ReconcileKeepsCycle(SweepRecords(db, records[..n], vendor).db, r, records[n], AnswerFor(vendor, records[n].va));
    }
  }

  lemma StepKeepsCycle(db: Db, r: nat, e: Event)
    requires Inv(db) && InCycle(db, r) && WithinCycle(db, e, db.txns[r].va)
    ensures InCycle(Step(db, e), r)
  {
    match e
    case Create(c) => CreateKeepsCycle(db, r, c);
    case Inquire(q, now) => InquiryKeepsCycle(db, r, q, now);
    case Pay(p, now) => PaymentKeepsCycle(db, r, p, now);
    case Delete(va) => DeleteKeepsCycle(db, r, va);
    case ReconcileOne(va, answer) =>
      if Best(db.txns, va).Some? { ReconcileKeepsCycle(db, r, db.txns[Best(db.txns, va).value], answer); }
    case SweepAll(cutoff, now, limit, vendor) =>
      SweepKeepsCycle(db, r, Candidates(db.txns, cutoff, now, limit), vendor);
  }

  lemma {:induction false} RunKeepsCycle(db: Db, r: nat, run: seq<Event>)
    requires Inv(db) && InCycle(db, r)
    requires forall k :: 0 <= k < |run| ==> WithinCycle(Run(db, run[..k]), run[k], db.txns[r].va)
    ensures InCycle(Run(db, run), r)
  {
    if |run| > 0 {
      var n := |run| - 1;
      assert forall k :: 0 <= k < n ==> run[..n][..k] == run[..k];
      RunKeepsCycle(db, r, run[..n]);
      RunKeepsInv(db, run[..n]);
      StepKeepsCycle(Run(db, run[..n]), r, run[n]);
    }
  }

  /** CreateVA inserts a new row, a variable bill with something to pay. */
  predicate OpensVariableBill(db: Db, c: CreateReq) {
    var after := CreateVA(db, c).db;
    && |after.txns| == |db.txns| + 1
    && after.txns[|db.txns|].total > 0
    && PaymentBilling(after, after.txns[|db.txns|]) == Variable
  }

  lemma NewBillInCycle(db: Db, c: CreateReq)
    requires Inv(db) && OpensVariableBill(db, c)
    ensures InCycle(CreateVA(db, c).db, |db.txns|)
  {
    NewBillAppended(db, c);
    SumOfUnusedRow(db.instalments, |db.txns|);
    hide CreateVA, Inv, SaveInquiry;
  }

  /** What CreateVA leaves when it inserts a row for a variable bill: the row, and a registered variable number. */
  lemma NewBillAppended(db: Db, c: CreateReq)
    requires OpensVariableBill(db, c)
    ensures Number(c).Numbered?
    ensures var va, after := Number(c).vaNo, CreateVA(db, c).db;
            && after.instalments == db.instalments
            && after.txns == db.txns + [BillRow(NewBill(c, va))]
            && va in after.accounts && after.accounts[va].billing == Variable
  {
    hide Best, BillFits, AccountFits, CustomerRegistered;
  }

  /** A variable bill CreateVA inserts as a new row, through any run that stays within its cycle: paid_amount
      is the sum of its instalments, never above the total, each payment id is counted once, and the row is
      settled exactly when the sum reaches the total. */
  lemma VariableBillBalances(earlier: seq<Event>, c: CreateReq, run: seq<Event>)
    requires OpensVariableBill(Run(EMPTY_DB, earlier), c)
    requires var before := Run(EMPTY_DB, earlier);
             var after := Step(before, Create(c));
             forall k :: 0 <= k < |run| ==> WithinCycle(Run(after, run[..k]), run[k], after.txns[|before.txns|].va)
    ensures var before := Run(EMPTY_DB, earlier);
            var end := Run(Step(before, Create(c)), run);
            var r := |before.txns|;
            && r < |end.txns|
            && Balanced(end.txns[r], InstalmentSum(end.instalments, r))
            && forall k, l :: 0 <= k < l < |end.instalments| ==>
                 end.instalments[k].paymentId != end.instalments[l].paymentId
  {
    var before := Run(EMPTY_DB, earlier);
    var after := Step(before, Create(c));
    RunKeepsInv(EMPTY_DB, earlier);
    StepKeepsInv(before, Create(c));
    NewBillInCycle(before, c);
    RunKeepsCycle(after, |before.txns|, run);
    RunKeepsInv(after, run);
  }
}

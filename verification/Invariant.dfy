/** What every call keeps: unique keys, one open bill per number, closed rows left alone. */
module Invariant {
  import opened Domain
  import opened Tables
  import opened Steps

  /** inquiry_request_id is unique, never empty, and a placeholder names its own row's number. */
  ghost predicate KeysSound(txns: seq<Txn>) {
    && (forall i, j :: 0 <= i < j < |txns| ==> txns[i].key != txns[j].key)
    && (forall i :: 0 <= i < |txns| ==> txns[i].key.Placeholder? ==> txns[i].key.va == txns[i].va)
    && (forall i :: 0 <= i < |txns| ==> txns[i].key.Vendor? ==> txns[i].key.id != "")
  }

  /** A row nothing newer and payable may follow: it is pending, or still holds CreateVA's placeholder. */
  predicate Leads(t: Txn) {
    t.status == Pending || t.key.Placeholder?
  }

  ghost predicate OpenBillsNewest(txns: seq<Txn>) {
    forall i, j :: 0 <= i < j < |txns| && txns[i].va == txns[j].va && Leads(txns[i]) ==> !txns[j].IsPayable()
  }

  ghost predicate TxnsInv(txns: seq<Txn>) {
    KeysSound(txns) && OpenBillsNewest(txns)
  }

  ghost predicate InstalmentsInv(rows: seq<Instalment>, size: nat) {
    && (forall i, j :: 0 <= i < j < |rows| ==> rows[i].paymentId != rows[j].paymentId)
    && (forall i :: 0 <= i < |rows| ==> rows[i].txn < size)
  }

  ghost predicate CreditsInv(credits: seq<Credit>, txns: seq<Txn>) {
    forall k :: 0 <= k < |credits| ==> credits[k].row < |txns| && txns[credits[k].row].va == credits[k].va
  }

  ghost predicate TablesInv(txns: seq<Txn>, instalments: seq<Instalment>, credits: seq<Credit>) {
    TxnsInv(txns) && InstalmentsInv(instalments, |txns|) && CreditsInv(credits, txns)
  }

  ghost predicate Inv(db: Db) {
    TablesInv(db.txns, db.instalments, db.credits)
  }

  /** Rows are never removed nor moved to another number, and a closed row under a vendor id never changes. */
  ghost predicate Preserves(before: seq<Txn>, after: seq<Txn>) {
    && |before| <= |after|
    && (forall i :: 0 <= i < |before| ==> after[i].va == before[i].va)
    && (forall i :: 0 <= i < |before| && before[i].key.Vendor? && !before[i].IsPayable() ==> after[i] == before[i])
  }

  /** A write that changes payable rows only and neither renames nor renumbers them. */
  ghost predicate RewritesOpenRows(before: seq<Txn>, after: seq<Txn>) {
    && |before| == |after|
    && (forall i :: 0 <= i < |before| ==> after[i].va == before[i].va && after[i].key == before[i].key)
    && (forall i :: 0 <= i < |before| && !before[i].IsPayable() ==> after[i] == before[i])
    && (forall i, j ::
          0 <= i < j < |before| && after[i].status == Pending && before[i].status != Pending && before[j].va == before[i].va
          ==> !before[j].IsPayable())
  }

  lemma RewriteKeepsInv(before: seq<Txn>, after: seq<Txn>)
    requires TxnsInv(before) && RewritesOpenRows(before, after)
    ensures TxnsInv(after) && Preserves(before, after)
  {
    forall i, j | 0 <= i < j < |after| && after[i].va == after[j].va && Leads(after[i])
      ensures !after[j].IsPayable()
    {
      if Leads(before[i]) {
        assert !before[j].IsPayable();
      }
    }
  }

  lemma CloseKeepsInv(txns: seq<Txn>, va: string, status: Status)
    requires TxnsInv(txns) && status in {Expired, Deleted}
    ensures TxnsInv(UpdateVAStatus(txns, va, status)) && Preserves(txns, UpdateVAStatus(txns, va, status))
  {
    RewriteKeepsInv(txns, UpdateVAStatus(txns, va, status));
  }

  /** Claiming gives the row a key no other row holds; its row is payable, so only its key changes. */
  lemma ClaimKeepsInv(txns: seq<Txn>, i: nat, id: string)
    requires TxnsInv(txns) && i < |txns| && id != ""
    requires FindKey(txns, Vendor(id)).None? || txns[i].key == Vendor(id)
    requires txns[i].IsPayable()
    ensures TxnsInv(ClaimInquiryRequestID(txns, i, id)) && Preserves(txns, ClaimInquiryRequestID(txns, i, id))
  {
  }

  lemma AppendKeepsInv(txns: seq<Txn>, t: Txn)
    requires TxnsInv(txns) && FindKey(txns, t.key).None?
    requires t.key.Placeholder? ==> t.key.va == t.va
    requires t.key.Vendor? ==> t.key.id != ""
    requires t.IsPayable() ==> forall i :: 0 <= i < |txns| && txns[i].va == t.va ==> !Leads(txns[i])
    ensures TxnsInv(txns + [t]) && Preserves(txns, txns + [t])
  {
  }

  /** CreateVA's write, when no bill of the number is pending. */
  lemma SaveInquiryKeepsInv(txns: seq<Txn>, bill: Txn)
    requires TxnsInv(txns) && bill.key == Placeholder(bill.va) && !AnyPending(txns, bill.va)
    ensures TxnsInv(SaveInquiry(txns, bill)) && Preserves(txns, SaveInquiry(txns, bill))
  {
    assert forall i :: 0 <= i < |txns| && txns[i].va == bill.va ==> !Pends(txns[i], bill.va);
    match FindKey(txns, bill.key)
    case None =>
      forall i | 0 <= i < |txns| && txns[i].va == bill.va ensures !Leads(txns[i]) {
        assert txns[i].key != bill.key;
      }
      AppendKeepsInv(txns, bill);
    case Some(k) =>
  }

  /** The row CreateVA looks at is pending whenever any row of the number is. */
  lemma BestIsThePendingRow(txns: seq<Txn>, va: string, i: nat)
    requires TxnsInv(txns) && i < |txns| && Pends(txns[i], va)
    ensures Best(txns, va) == Some(i)
  {
    var b := Best(txns, va).value;
    assert txns[i].IsPayable();
    if i < b { assert Leads(txns[i]); }
  }

  /** A number has at most one pending row, and it is the newest of its payable rows. */
  lemma OnePendingRow(txns: seq<Txn>, va: string, i: nat, j: nat)
    requires TxnsInv(txns) && i < |txns| && j < |txns| && txns[j].va == va
    requires Pends(txns[i], va)
    ensures txns[j].status == Pending ==> i == j
    ensures txns[j].IsPayable() ==> j <= i
  {
    if i < j { assert Leads(txns[i]); }
    if j < i && txns[j].status == Pending { assert Leads(txns[j]) && txns[i].IsPayable(); }
  }

  lemma MarkExpiredKeepsInv(db: Db, i: nat)
    requires Inv(db) && i < |db.txns|
    ensures Inv(MarkExpired(db, i)) && Preserves(db.txns, MarkExpired(db, i).txns)
  {
    CloseKeepsInv(db.txns, db.txns[i].va, Expired);
  }

  lemma InquiryBilledKeepsInv(db: Db, req: InquiryReq, i: nat, now: int)
    requires Inv(db) && ResolveInquiry(db, req) == Some(i)
    ensures Inv(InquiryBilled(db, req, i, now).db)
    ensures Preserves(db.txns, InquiryBilled(db, req, i, now).db.txns)
  {
    var row := db.txns[i];
    if row.IsExpired(now) {
      MarkExpiredKeepsInv(db, i);
    } else if row.IsPayable() && row.IsPlaceholder() && req.inquiryId != "" {
      ClaimKeepsInv(db.txns, i, req.inquiryId);
    }
  }

  lemma InquiryKeepsInv(db: Db, req: InquiryReq, now: int)
    requires Inv(db)
    ensures Inv(Inquiry(db, req, now).db) && Preserves(db.txns, Inquiry(db, req, now).db.txns)
  {
    if !IsNoBillVA(db, req.va) && ResolveInquiry(db, req).Some? {
      InquiryBilledKeepsInv(db, req, ResolveInquiry(db, req).value, now);
    }
  }

  lemma SaveVAPaymentKeepsInv(db: Db, b: nat, paymentId: string, amount: int)
    requires Inv(db) && b < |db.txns|
    requires Best(db.txns, db.txns[b].va) == Some(b) && db.txns[b].IsPayable()
    ensures Inv(SaveVAPayment(db, b, paymentId, amount))
    ensures Preserves(db.txns, SaveVAPayment(db, b, paymentId, amount).txns)
  {
    var after := SaveVAPayment(db, b, paymentId, amount);
    AccumulatingRewrites(db.txns, b, after.txns[b]);
    RewriteKeepsInv(db.txns, after.txns);
    InstalmentRecorded(db, b, paymentId, amount);
  }

  lemma AccumulatingRewrites(txns: seq<Txn>, b: nat, row: Txn)
    requires b < |txns| && Best(txns, txns[b].va) == Some(b) && txns[b].IsPayable()
    requires row.va == txns[b].va && row.key == txns[b].key
    ensures RewritesOpenRows(txns, txns[b := row])
  {
  }

  lemma InstalmentAppended(rows: seq<Instalment>, x: Instalment, size: nat)
    requires InstalmentsInv(rows, size) && FindInstalment(rows, x.paymentId).None? && x.txn < size
    ensures InstalmentsInv(rows + [x], size)
  {
  }

  lemma CreditAppended(credits: seq<Credit>, c: Credit, before: seq<Txn>, after: seq<Txn>)
    requires CreditsInv(credits, before) && Preserves(before, after)
    requires c.row < |after| && after[c.row].va == c.va
    ensures CreditsInv(credits, after) && CreditsInv(credits + [c], after)
  {
  }

  lemma InstalmentRecorded(db: Db, b: nat, paymentId: string, amount: int)
    requires TablesInv(db.txns, db.instalments, db.credits) && b < |db.txns|
    requires Preserves(db.txns, SaveVAPayment(db, b, paymentId, amount).txns)
    ensures var after := SaveVAPayment(db, b, paymentId, amount);
            InstalmentsInv(after.instalments, |after.txns|) && CreditsInv(after.credits, after.txns)
  {
    var row := db.txns[b];
    CreditAppended(db.credits, Credit(b, row.va, paymentId, amount, row.url), db.txns,
                   SaveVAPayment(db, b, paymentId, amount).txns);
    if FindInstalment(db.instalments, paymentId).None? {
      InstalmentAppended(db.instalments, Instalment(b, paymentId, amount), |db.txns|);
    }
    hide InstalmentsInv, CreditsInv, Preserves, FindInstalment, InstalmentSum;
  }

  lemma SavePaymentKeepsInv(db: Db, b: nat, amount: int, paymentId: string, orphan: Txn)
    requires Inv(db) && b < |db.txns| && db.txns[b].IsPayable()
    ensures FindKey(db.txns, db.txns[b].key) == Some(b)
    ensures Inv(SavePayment(db, db.txns[b].key, amount, paymentId, orphan))
    ensures Preserves(db.txns, SavePayment(db, db.txns[b].key, amount, paymentId, orphan).txns)
  {
    RewriteKeepsInv(db.txns, SavePayment(db, db.txns[b].key, amount, paymentId, orphan).txns);
  }

  lemma PayInstalmentKeepsInv(db: Db, req: PaymentReq, b: nat)
    requires Inv(db) && Best(db.txns, req.va) == Some(b) && db.txns[b].IsPayable()
    ensures Inv(PayInstalment(db, req, b).db) && Preserves(db.txns, PayInstalment(db, req, b).db.txns)
  {
    if !Overpays(db.txns[b], req.paid) {
      SaveVAPaymentKeepsInv(db, b, req.paymentId, req.paid);
    }
  }

  lemma PaySettlementKeepsInv(db: Db, req: PaymentReq, b: nat)
    requires Inv(db) && Best(db.txns, req.va) == Some(b) && db.txns[b].IsPayable()
    ensures Inv(PaySettlement(db, req, b).db) && Preserves(db.txns, PaySettlement(db, req, b).db.txns)
  {
    var row := db.txns[b];
    var orphan := Txn(req.va, row.key, row.trxId, row.url, "", Settled, req.total.GetOr(req.paid),
                      Some(req.paid), req.paymentId, None);
    SavePaymentKeepsInv(db, b, req.paid, req.paymentId, orphan);
  }

  /** The ways a payment of a billed number can leave the tables. */
  lemma PayBilledBranches(db: Db, req: PaymentReq, b: nat, now: int)
    requires b < |db.txns|
    ensures var after := PayBilled(db, req, b, now).db;
            after == db || after == MarkExpired(db, b) || after == PayInstalment(db, req, b).db
            || after == PaySettlement(db, req, b).db
  {
    hide MarkExpired, PayInstalment, PaySettlement, FindInstalment, PaymentBilling;
  }

  lemma PayBilledKeepsInv(db: Db, req: PaymentReq, b: nat, now: int)
    requires Inv(db) && Best(db.txns, req.va) == Some(b)
    ensures Inv(PayBilled(db, req, b, now).db) && Preserves(db.txns, PayBilled(db, req, b, now).db.txns)
  {
    if db.txns[b].IsExpired(now) {
      MarkExpiredKeepsInv(db, b);
    } else if db.txns[b].IsPayable() {
      PayInstalmentKeepsInv(db, req, b);
      PaySettlementKeepsInv(db, req, b);
    }
  }

  lemma PaymentNoBillKeepsInv(db: Db, req: PaymentReq, now: int)
    requires Inv(db) && req.va in db.accounts && req.paymentId != ""
    ensures Inv(PaymentNoBill(db, req, now).db) && Preserves(db.txns, PaymentNoBill(db, req, now).db.txns)
  {
    var t := NoBillTxn(req, db.accounts[req.va]);
    PreservesItself(db.txns);
    if SaveNoBillPayment(db, t).Some? {
      AppendKeepsInv(db.txns, t);
      CreditAppended(db.credits, Credit(|db.txns|, t.va, t.paymentId, t.total, t.url), db.txns, db.txns + [t]);
    }
    hide TxnsInv, Preserves, CreditsInv;
  }

  lemma PaymentKeepsInv(db: Db, req: PaymentReq, now: int)
    requires Inv(db)
    ensures Inv(Payment(db, req, now).db) && Preserves(db.txns, Payment(db, req, now).db.txns)
  {
    if req.paymentId != "" && req.paid > 0 && !Flagged(db, req) {
      if FindPaid(db.txns, req.paymentId).None? {
        if IsNoBillVA(db, req.va) {
          PaymentNoBillKeepsInv(db, req, now);
        } else if Best(db.txns, req.va).Some? {
          PayBilledKeepsInv(db, req, Best(db.txns, req.va).value, now);
        }
      }
      assert Inv(Decide(db, req, now).db) && Preserves(db.txns, Decide(db, req, now).db.txns);
    }
  }

  lemma OpenBillKeepsInv(db: Db, c: CreateReq, customerNo: string, va: string)
    requires Inv(db)
    ensures Inv(OpenBill(db, c, customerNo, va).db) && Preserves(db.txns, OpenBill(db, c, customerNo, va).db.txns)
  {
    if OpenBill(db, c, customerNo, va).code == Created {
      if AnyPending(db.txns, va) {
        var i :| 0 <= i < |db.txns| && Pends(db.txns[i], va);
        BestIsThePendingRow(db.txns, va, i);
      }
      SaveInquiryKeepsInv(db.txns, BillRow(NewBill(c, va)));
    }
  }

  lemma CreateKeepsInv(db: Db, c: CreateReq)
    requires Inv(db)
    ensures Inv(CreateVA(db, c).db) && Preserves(db.txns, CreateVA(db, c).db.txns)
  {
    if CreateFieldsValid(c) && Number(c).Numbered? {
      var customerNo, va := Number(c).customerNo, Number(c).vaNo;
      var registered :=
        if c.Managed() then StoreAccount(db.accounts, va, NewAccount(c, customerNo)) else Some(db.accounts);
      if registered.Some? {
        OpenBillKeepsInv(db.(accounts := registered.value), c, customerNo, va);
      }
    }
  }

  lemma DeleteKeepsInv(db: Db, va: string)
    requires Inv(db)
    ensures Inv(DeleteVA(db, va).db) && Preserves(db.txns, DeleteVA(db, va).db.txns)
  {
    PreservesItself(db.txns);
    if AnyPending(db.txns, va) {
      CloseKeepsInv(db.txns, va, Deleted);
      CreditsStay(db.credits, db.txns, UpdateVAStatus(db.txns, va, Deleted));
      hide TxnsInv, Preserves, CreditsInv;
    }
  }

  lemma CreditsStay(credits: seq<Credit>, before: seq<Txn>, after: seq<Txn>)
    requires CreditsInv(credits, before) && Preserves(before, after)
    ensures CreditsInv(credits, after)
  {
  }

  lemma SettleCreditsSound(txns: seq<Txn>, va: string, paid: int, paymentId: string)
    ensures forall k :: 0 <= k < |SettleCredits(txns, va, paid, paymentId)| ==>
              var c := SettleCredits(txns, va, paid, paymentId)[k];
              c.row < |txns| && Pends(txns[c.row], va) && c.va == va && c.url == txns[c.row].url
  {
  }

  lemma SettleKeepsInv(db: Db, va: string, paid: int, paymentId: string)
    requires Inv(db)
    ensures Inv(SettlePendingFromVendor(db, va, paid, paymentId))
    ensures Preserves(db.txns, SettlePendingFromVendor(db, va, paid, paymentId).txns)
  {
    SettleCreditsSound(db.txns, va, paid, paymentId);
    RewriteKeepsInv(db.txns, SettlePending(db.txns, va, paid, paymentId));
  }

  lemma ReconcileKeepsInv(db: Db, record: Txn, answer: VendorAnswer)
    requires Inv(db)
    ensures Inv(ReconcileRecord(db, record, answer).db)
    ensures Preserves(db.txns, ReconcileRecord(db, record, answer).db.txns)
  {
    PreservesItself(db.txns);
    if answer.Answer? && answer.data.Some? && answer.data.value.paid.Some? {
      SettleKeepsInv(db, record.va, answer.data.value.paid.value, answer.data.value.paymentId);
      hide TablesInv, Preserves, SettleCredits, SettlePending;
    } else {
      hide TablesInv, Preserves;
    }
  }

  lemma PreservesItself(a: seq<Txn>)
    ensures Preserves(a, a)
  {
  }

  lemma PreservesTransitive(a: seq<Txn>, b: seq<Txn>, c: seq<Txn>)
    requires Preserves(a, b) && Preserves(b, c)
    ensures Preserves(a, c)
  {
  }

  lemma SweepKeepsInv(db: Db, records: seq<Txn>, vendor: VendorBook)
    requires Inv(db)
    ensures Inv(SweepRecords(db, records, vendor).db)
    ensures Preserves(db.txns, SweepRecords(db, records, vendor).db.txns)
  {
    if |records| > 0 {
      var n := |records| - 1;
      SweepKeepsInv(db, records[..n], vendor);
      var mid := SweepRecords(db, records[..n], vendor).db;
      ReconcileKeepsInv(mid, records[n], AnswerFor(vendor, records[n].va));
      PreservesTransitive(db.txns, mid.txns, SweepRecords(db, records, vendor).db.txns);
    }
  }

  lemma StepKeepsInv(db: Db, e: Event)
    requires Inv(db)
    ensures Inv(Step(db, e)) && Preserves(db.txns, Step(db, e).txns)
  {
    PreservesItself(db.txns);
    hide Inv, Preserves;
    match e
    case Create(c) => CreateKeepsInv(db, c);
    case Inquire(q, now) => InquiryKeepsInv(db, q, now);
    case Pay(p, now) => PaymentKeepsInv(db, p, now);
    case Delete(va) => DeleteKeepsInv(db, va);
    case ReconcileOne(va, answer) =>
      if Best(db.txns, va).Some? { ReconcileKeepsInv(db, db.txns[Best(db.txns, va).value], answer); }
    case SweepAll(cutoff, now, limit, vendor) =>
      SweepKeepsInv(db, Candidates(db.txns, cutoff, now, limit), vendor);
  }

  lemma {:induction false} RunKeepsInv(db: Db, run: seq<Event>)
    requires Inv(db)
    ensures Inv(Run(db, run)) && Preserves(db.txns, Run(db, run).txns)
  {
    if |run| > 0 {
      var n := |run| - 1;
      RunKeepsInv(db, run[..n]);
      StepKeepsInv(Run(db, run[..n]), run[n]);
      PreservesTransitive(db.txns, Run(db, run[..n]).txns, Run(db, run).txns);
    }
  }

  // ---------------------------------------------------------------- main results

  /** In every reachable state a number has at most one pending row, no newer row of that number is
      payable, and no payable row was created after the row that still holds CreateVA's placeholder. */
  lemma ReachableOneOpenBill(run: seq<Event>, i: nat, j: nat)
    requires i < j < |Run(EMPTY_DB, run).txns|
    ensures var txns := Run(EMPTY_DB, run).txns;
            txns[i].va == txns[j].va && (txns[i].status == Pending || txns[i].key == Placeholder(txns[i].va)) ==>
              txns[j].status != Pending && !txns[j].IsPayable()
  {
    RunKeepsInv(EMPTY_DB, run);
    var txns := Run(EMPTY_DB, run).txns;
    if txns[i].va == txns[j].va && (txns[i].status == Pending || txns[i].key == Placeholder(txns[i].va)) {
      assert Leads(txns[i]);
    }
  }

  /** A closed row under a real vendor id, a paid fixed bill among them, is the same row after any further run. */
  lemma ClosedRowFrozen(earlier: seq<Event>, later: seq<Event>, i: nat)
    requires i < |Run(EMPTY_DB, earlier).txns|
    requires Run(EMPTY_DB, earlier).txns[i].key.Vendor?
    requires !Run(EMPTY_DB, earlier).txns[i].IsPayable()
    ensures var end := Run(Run(EMPTY_DB, earlier), later).txns;
            i < |end| && end[i] == Run(EMPTY_DB, earlier).txns[i]
  {
    RunKeepsInv(EMPTY_DB, earlier);
    RunKeepsInv(Run(EMPTY_DB, earlier), later);
  }

  /** inquiry_request_id stays unique and non-empty in every reachable state. */
  lemma ReachableKeysUnique(run: seq<Event>, i: nat, j: nat)
    requires i < j < |Run(EMPTY_DB, run).txns|
    ensures var txns := Run(EMPTY_DB, run).txns;
            txns[i].key != txns[j].key && txns[i].key != Vendor("") && txns[j].key != Vendor("")
  {
    RunKeepsInv(EMPTY_DB, run);
  }
}

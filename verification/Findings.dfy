/** Reachable states in which a stronger law one might expect fails, and the exact law that holds. */
module Findings {
  import opened Domain
  import opened Tables
  import opened Steps
  import opened VariableBill
  import opened Invariant
  import opened Reconciliation
  import opened Agreement

  /** An unmanaged fixed bill of 1.00 on "P1". */
  function FixedBill(expires: Option<int>): CreateReq {
    CreateReq("P", "1", "P1", "t", "", expires, Some(100), "", false, None, None)
  }

  /** A dynamic variable bill on the merchant's own number "V". */
  function DynamicBill(total: int, generated: string): CreateReq {
    CreateReq("P", "", "V", "t", "", None, Some(total), "05", false, Some(TypeRule(true, Variable)), Some(generated))
  }

  function PayOf(id: string, va: string, amount: int): PaymentReq {
    PaymentReq("", id, va, amount, None, false)
  }

  lemma TwoSteps(db: Db, a: Event, b: Event)
    ensures Run(db, [a, b]) == Step(Step(db, a), b)
  {
    assert [a, b][..1] == [a] && [a][..0] == [];
    assert Run(db, [a]) == Step(Run(db, []), a);
  }

  lemma ThreeSteps(db: Db, a: Event, b: Event, c: Event)
    ensures Run(db, [a, b, c]) == Step(Step(Step(db, a), b), c)
  {
    assert [a, b, c][..2] == [a, b];
    TwoSteps(db, a, b);
  }

  /** Nothing open on the number and no placeholder left: CreateVA appends the bill. */
  lemma IssueFixed(db: Db, expires: Option<int>)
    requires FindKey(db.txns, Placeholder("P1")).None?
    requires Best(db.txns, "P1").Some? ==> db.txns[Best(db.txns, "P1").value].status != Pending
    ensures Step(db, Create(FixedBill(expires))) == db.(txns := db.txns + [NewBill(FixedBill(expires), "P1")])
  {
    var c := FixedBill(expires);
    assert |c.vaNo| == 2 && |c.customerNo| == 1 && c.vaNo == c.partner + c.customerNo;
  }

  /** The first inquiry of an open bill stamps its id on the row. */
  lemma InquiryClaims(db: Db, va: string, id: string, now: int, i: nat)
    requires !IsNoBillVA(db, va) && id != "" && FindKey(db.txns, Vendor(id)).None?
    requires Best(db.txns, va) == Some(i) && db.txns[i].key == Placeholder(va)
    requires db.txns[i].status == Pending && !db.txns[i].PastExpiry(now)
    ensures Inquiry(db, InquiryReq(va, id), now).code == InquirySuccess
    ensures Step(db, Inquire(InquiryReq(va, id), now)) == db.(txns := db.txns[i := db.txns[i].(key := Vendor(id))])
  {
  }

  /** An inquiry resolved to an expired row closes what is pending on its number. */
  lemma InquiryExpires(db: Db, va: string, id: string, now: int, i: nat, j: nat)
    requires !IsNoBillVA(db, va) && ResolveInquiry(db, InquiryReq(va, id)) == Some(i)
    requires db.txns[i].IsExpired(now) && db.txns[i].url == ""
    requires j < |db.txns| && Pends(db.txns[j], db.txns[i].va)
    ensures Step(db, Inquire(InquiryReq(va, id), now)) == db.(txns := UpdateVAStatus(db.txns, db.txns[i].va, Expired))
  {
  }

  /** An inquired bill of "P1" that ran out, and what comes after it. */
  function ExpiredCycle(): Txn {
    NewBill(FixedBill(Some(10)), "P1").(key := Vendor("i1"), status := Expired)
  }

  lemma BillInquired()
    ensures Run(EMPTY_DB, [Create(FixedBill(Some(10))), Inquire(InquiryReq("P1", "i1"), 5)]) ==
            EMPTY_DB.(txns := [NewBill(FixedBill(Some(10)), "P1").(key := Vendor("i1"))])
  {
    TwoSteps(EMPTY_DB, Create(FixedBill(Some(10))), Inquire(InquiryReq("P1", "i1"), 5));
    BillIssued();
    InquiryClaims(EMPTY_DB.(txns := [NewBill(FixedBill(Some(10)), "P1")]), "P1", "i1", 5, 0);
    hide Step, Run, Inquiry;
  }

  lemma BillIssued()
    ensures Step(EMPTY_DB, Create(FixedBill(Some(10)))) == EMPTY_DB.(txns := [NewBill(FixedBill(Some(10)), "P1")])
  {
    IssueFixed(EMPTY_DB, Some(10));
    hide Step;
    assert EMPTY_DB.txns + [NewBill(FixedBill(Some(10)), "P1")] == [NewBill(FixedBill(Some(10)), "P1")];
  }

  lemma CycleExpires()
    ensures Run(EMPTY_DB, [Create(FixedBill(Some(10))), Inquire(InquiryReq("P1", "i1"), 5),
                           Inquire(InquiryReq("P1", "i2"), 20)]) == EMPTY_DB.(txns := [ExpiredCycle()])
  {
    var a, b, c := Create(FixedBill(Some(10))), Inquire(InquiryReq("P1", "i1"), 5), Inquire(InquiryReq("P1", "i2"), 20);
    assert [a, b, c][..2] == [a, b];
    BillInquired();
    var claimed := EMPTY_DB.(txns := [NewBill(FixedBill(Some(10)), "P1").(key := Vendor("i1"))]);
    InquiryExpires(claimed, "P1", "i2", 20, 0, 0);
    assert UpdateVAStatus(claimed.txns, "P1", Expired) == [ExpiredCycle()];
  }

  /** The bill of an expired cycle is inquired again under its old id: the new, never expiring bill is expired. */
  lemma StaleInquiryExpiresNewBill()
    ensures var before := Run(EMPTY_DB, [Create(FixedBill(Some(10))), Inquire(InquiryReq("P1", "i1"), 5),
                                         Inquire(InquiryReq("P1", "i2"), 20)]);
            var reissued := Step(before, Create(FixedBill(None)));
            var after := Step(reissued, Inquire(InquiryReq("P1", "i1"), 21));
            && |reissued.txns| == |after.txns| == 2
            && reissued.txns[1].status == Pending && reissued.txns[1].expires == None
            && after.txns[1].status == Expired
  {
    CycleExpires();
    var before := EMPTY_DB.(txns := [ExpiredCycle()]);
    IssueFixed(before, None);
    InquiryExpires(before.(txns := before.txns + [NewBill(FixedBill(None), "P1")]), "P1", "i1", 21, 0, 1);
  }

  /** CreateVA with nothing open: the bill is saved and the number is registered as variable. */
  lemma IssueDynamic(db: Db, total: int, generated: string)
    requires |generated| <= CUSTOMER_NO_WIDTH && 0 <= total < NUMERIC_LIMIT
    requires !IsNoBillVA(db, "V") && ("V" !in db.accounts ==> db.accounts == map[])
    requires "V" in db.accounts ==> db.accounts["V"].billing == Variable
    requires Best(db.txns, "V").Some? ==> db.txns[Best(db.txns, "V").value].status != Pending
    ensures var after := Step(db, Create(DynamicBill(total, generated)));
            && after == db.(txns := SaveInquiry(db.txns, NewBill(DynamicBill(total, generated), "V")),
                            accounts := after.accounts)
            && "V" in after.accounts && after.accounts["V"].billing == Variable
  {
    var c := DynamicBill(total, generated);
    assert |c.vaNo| == 1 && |c.customerNo| == 0;
    assert |c.partner| == 1 && |c.vaType| == 2 && |c.trxId| == 1 && |c.url| == 0;
    assert BillRow(NewBill(c, "V")) == NewBill(c, "V");
    assert AccountRow(NewAccount(c, generated)) == NewAccount(c, generated);
  }

  /** The first instalment of row 0, the number's only row. */
  lemma FirstInstalment(db: Db, id: string, amount: int)
    requires |db.txns| == 1 && db.txns[0].va == "V" && db.txns[0].IsPayable() && !db.txns[0].IsExpired(0)
    requires db.txns[0].url == "" && db.txns[0].paymentId != id && id != ""
    requires "V" in db.accounts && db.accounts["V"].billing == Variable
    requires db.instalments == [] && amount > 0 && !Overpays(db.txns[0], amount)
    ensures Step(db, Pay(PayOf(id, "V", amount), 0)) ==
            db.(txns := [Accumulated(db.txns[0], amount)], instalments := [Instalment(0, id, amount)],
                credits := db.credits + [Credit(0, "V", id, amount, "")])
  {
    var req := PayOf(id, "V", amount);
    SumAppend([], Instalment(0, id, amount), 0);
    assert [] + [Instalment(0, id, amount)] == [Instalment(0, id, amount)];
    assert db.txns[0 := Accumulated(db.txns[0], amount)] == [Accumulated(db.txns[0], amount)];
    assert PayBilled(db, req, 0, 0) == PayInstalment(db, req, 0);
    assert Decide(db, req, 0) == PayBilled(db, req, 0, 0);
  }

  /** A bill paid without an inquiry is re-opened by the next CreateVA and keeps its paid amount: an inquiry
      accepts it, and every payment of a positive amount is refused. */
  lemma ReopenedBillRefusesEveryAmount(now: int, id: string, amount: int)
    requires amount > 0 && id != "" && id != "p1"
    ensures var db := Run(EMPTY_DB, [Create(DynamicBill(100, "1")), Pay(PayOf("p1", "V", 100), 0),
                                     Create(DynamicBill(50, "2"))]);
            && Inquiry(db, InquiryReq("V", "i1"), now).code == InquirySuccess
            && Payment(db, PayOf(id, "V", amount), now).resp.code == PaymentInvalidAmt
  {
    BillReopened();
    var db := Run(EMPTY_DB, [Create(DynamicBill(100, "1")), Pay(PayOf("p1", "V", 100), 0),
                             Create(DynamicBill(50, "2"))]);
    InquiryClaims(db, "V", "i1", now, 0);
    FullBillRefuses(db, PayOf(id, "V", amount), now);
  }

  /** What a payment of the re-opened bill meets. */
  lemma FullBillRefuses(db: Db, p: PaymentReq, now: int)
    requires Best(db.txns, p.va) == Some(0) && !IsNoBillVA(db, p.va) && p.paymentId != "" && p.paid > 0 && !Flagged(db, p)
    requires FindPaid(db.txns, p.paymentId).None? && FindInstalment(db.instalments, p.paymentId).None?
    requires db.txns[0].status == Pending && db.txns[0].expires.None? && 0 < db.txns[0].total <= db.txns[0].Paid()
    requires PaymentBilling(db, db.txns[0]) == Variable
    ensures Payment(db, p, now).resp.code == PaymentInvalidAmt
  {
    PaymentReaches(db, p, now);
  }

  lemma BillReopened()
    ensures var db := Run(EMPTY_DB, [Create(DynamicBill(100, "1")), Pay(PayOf("p1", "V", 100), 0),
                                     Create(DynamicBill(50, "2"))]);
            && db.txns == [NewBill(DynamicBill(100, "1"), "V").(paid := Some(100), total := 50)]
            && db.instalments == [Instalment(0, "p1", 100)] && db.flags == map[]
            && "V" in db.accounts && db.accounts["V"].billing == Variable
  {
    hide Step, Run;
    var bill := NewBill(DynamicBill(100, "1"), "V");
    ThreeSteps(EMPTY_DB, Create(DynamicBill(100, "1")), Pay(PayOf("p1", "V", 100), 0), Create(DynamicBill(50, "2")));
    VariableBillIssued();
    var issued := Step(EMPTY_DB, Create(DynamicBill(100, "1")));
    FirstInstalment(issued, "p1", 100);
    var paid := Step(issued, Pay(PayOf("p1", "V", 100), 0));
    IssueDynamic(paid, 50, "2");
    var db := Step(paid, Create(DynamicBill(50, "2")));
    assert db.txns == [bill.(paid := Some(100), total := 50)];
  }

  /** An accepted instalment raises the row's paid amount by what was tendered exactly when the row recorded
      the sum of its instalments before: an amount a vendor settlement wrote is otherwise forgotten. */
  lemma InstalmentAddsUpExactlyWhen(db: Db, req: PaymentReq, b: nat)
    requires b < |db.txns| && FindInstalment(db.instalments, req.paymentId).None?
    requires !Overpays(db.txns[b], req.paid)
    ensures var after := PayInstalment(db, req, b).db.txns[b];
            after.Paid() == db.txns[b].Paid() + req.paid <==>
            db.txns[b].Paid() == InstalmentSum(db.instalments, b)
  {
    SumAppend(db.instalments, Instalment(b, req.paymentId, req.paid), b);
  }

  const VENDOR_PAID_60 := Answer(StatusSuccess, Some(VendorData(VFlag00, Some(60), "")))

  /** The vendor settles row 0, the number's only row. */
  lemma VendorSettlesRow(db: Db)
    requires |db.txns| == 1 && Pends(db.txns[0], "V") && db.txns[0].key == Vendor("i1") && db.txns[0].trxId == "t"
    requires db.txns[0].url == ""
    ensures Step(db, ReconcileOne("V", VENDOR_PAID_60)) ==
            db.(txns := [SettledByVendor(db.txns[0], 60, "")], credits := db.credits + [Credit(0, "V", "", 60, "")],
                attempts := db.attempts + [Attempt("V", OutSettled)])
  {
    SettleCreditsOne(db.txns, "V", 60, "", 0);
    assert SettlePending(db.txns, "V", 60, "") == [SettledByVendor(db.txns[0], 60, "")];
    SettlesExactlyWhenConfirmed(db, db.txns[0], VENDOR_PAID_60);
  }

  lemma VariableBillInquired()
    ensures var db := Run(EMPTY_DB, [Create(DynamicBill(100, "1")), Inquire(InquiryReq("V", "i1"), 0)]);
            && db.txns == [NewBill(DynamicBill(100, "1"), "V").(key := Vendor("i1"))]
            && db.credits == [] && db.instalments == []
            && "V" in db.accounts && db.accounts["V"].billing == Variable
  {
    TwoSteps(EMPTY_DB, Create(DynamicBill(100, "1")), Inquire(InquiryReq("V", "i1"), 0));
    VariableBillIssued();
    InquiryClaims(Step(EMPTY_DB, Create(DynamicBill(100, "1"))), "V", "i1", 0, 0);
    hide Step, Run, Inquiry;
  }

  lemma VariableBillIssued()
    ensures var issued := Step(EMPTY_DB, Create(DynamicBill(100, "1")));
            && issued == EMPTY_DB.(txns := [NewBill(DynamicBill(100, "1"), "V")], accounts := issued.accounts)
            && "V" in issued.accounts && issued.accounts["V"].billing == Variable
  {
    IssueDynamic(EMPTY_DB, 100, "1");
    hide Step;
    assert EMPTY_DB.txns + [NewBill(DynamicBill(100, "1"), "V")] == [NewBill(DynamicBill(100, "1"), "V")];
  }

  lemma VendorSettlesPart()
    ensures var db := Run(EMPTY_DB, [Create(DynamicBill(100, "1")), Inquire(InquiryReq("V", "i1"), 0),
                                     ReconcileOne("V", VENDOR_PAID_60)]);
            && db.txns == [NewBill(DynamicBill(100, "1"), "V").(key := Vendor("i1"), status := Settled, paid := Some(60))]
            && db.credits == [Credit(0, "V", "", 60, "")] && db.instalments == []
            && "V" in db.accounts && db.accounts["V"].billing == Variable
  {
    var a, b, c := Create(DynamicBill(100, "1")), Inquire(InquiryReq("V", "i1"), 0), ReconcileOne("V", VENDOR_PAID_60);
    assert [a, b, c][..2] == [a, b];
    VariableBillInquired();
    VendorSettlesRow(Run(EMPTY_DB, [a, b]));
  }

  /** The vendor settles 0.60 of a variable bill of 1.00; paying the remaining 0.40 leaves 0.40 recorded as
      paid and the bill open, although both amounts are on file as credits. */
  lemma VendorAmountForgotten()
    ensures var settled := Run(EMPTY_DB, [Create(DynamicBill(100, "1")), Inquire(InquiryReq("V", "i1"), 0),
                                          ReconcileOne("V", VENDOR_PAID_60)]);
            var paid := Step(settled, Pay(PayOf("p1", "V", 40), 0));
            && |settled.txns| == 1 && settled.txns[0].status == Settled && settled.txns[0].Paid() == 60
            && |paid.txns| == 1 && paid.txns[0].status == Pending && paid.txns[0].Paid() == 40
            && |paid.credits| == 2 && paid.credits[0].amount + paid.credits[1].amount == 100
  {
    VendorSettlesPart();
    FirstInstalment(Run(EMPTY_DB, [Create(DynamicBill(100, "1")), Inquire(InquiryReq("V", "i1"), 0),
                                   ReconcileOne("V", VENDOR_PAID_60)]), "p1", 40);
  }

  /** The vendor's word then settles the same row once more: credits of 1.60 on a bill of 1.00. */
  lemma VendorSettlesTwice()
    ensures var settled := Run(EMPTY_DB, [Create(DynamicBill(100, "1")), Inquire(InquiryReq("V", "i1"), 0),
                                          ReconcileOne("V", VENDOR_PAID_60)]);
            var again := Step(Step(settled, Pay(PayOf("p1", "V", 40), 0)), ReconcileOne("V", VENDOR_PAID_60));
            && |again.txns| == 1 && again.txns[0].status == Settled && again.txns[0].total == 100
            && again.credits == [Credit(0, "V", "", 60, ""), Credit(0, "V", "p1", 40, ""), Credit(0, "V", "", 60, "")]
  {
    var settled := Run(EMPTY_DB, [Create(DynamicBill(100, "1")), Inquire(InquiryReq("V", "i1"), 0),
                                  ReconcileOne("V", VENDOR_PAID_60)]);
    VendorSettlesPart();
    FirstInstalment(settled, "p1", 40);
    VendorSettlesRow(Step(settled, Pay(PayOf("p1", "V", 40), 0)));
    hide Step, Run;
  }
}

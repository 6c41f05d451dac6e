/** Which row answers for a number, and that inquiry and payment answer alike. */
module Agreement {
  import opened Domain
  import opened Tables
  import opened Steps
  import opened Invariant

  /** The SQL ranking and the program's own test pick out the same rows. */
  lemma RankIsPayable(t: Txn)
    ensures t.SqlRank() == 0 <==> t.IsPayable()
  {
  }

  /** The row answering for a number is payable exactly when some row of the number is. */
  lemma OpenBillNeverHidden(txns: seq<Txn>, va: string)
    ensures Best(txns, va).Some? <==> exists i :: 0 <= i < |txns| && txns[i].va == va
    ensures (Best(txns, va).Some? && txns[Best(txns, va).value].IsPayable()) <==>
            exists i :: 0 <= i < |txns| && txns[i].va == va && txns[i].IsPayable()
  {
    if i :| 0 <= i < |txns| && txns[i].va == va && txns[i].IsPayable() {
      assert txns[Best(txns, va).value].IsPayable();
    }
  }

  /** A payable bill's payment leaves no row expired that was not. */
  lemma CollectingExpiresNothing(db: Db, req: PaymentReq, b: nat, i: nat)
    requires Inv(db) && b < |db.txns| && i < |db.txns| && db.txns[i].status == Pending
    ensures |PayInstalment(db, req, b).db.txns| == |PaySettlement(db, req, b).db.txns| == |db.txns|
    ensures PayInstalment(db, req, b).db.txns[i].status != Expired
    ensures PaySettlement(db, req, b).db.txns[i].status != Expired
  {
    assert FindKey(db.txns, db.txns[b].key) == Some(b);
  }

  lemma MarkExpiredTouches(db: Db, b: nat, i: nat)
    requires b < |db.txns| && i < |db.txns| && db.txns[i].status == Pending
    ensures var after := MarkExpired(db, b).txns;
            && |after| == |db.txns|
            && (after[i].status == Expired <==> db.txns[i].va == db.txns[b].va)
  {
    assert Pends(db.txns[i], db.txns[i].va);
  }

  lemma PayBilledExpires(db: Db, req: PaymentReq, b: nat, now: int, i: nat)
    requires Inv(db) && Best(db.txns, req.va) == Some(b) && i < |db.txns| && db.txns[i].status == Pending
    ensures var after := PayBilled(db, req, b, now).db.txns;
            && |after| == |db.txns|
            && (after[i].status == Expired ==> db.txns[i].PastExpiry(now) && db.txns[i].va == req.va)
  {
    if db.txns[b].IsExpired(now) {
      MarkExpiredTouches(db, b, i);
      if db.txns[i].va == req.va { BestIsThePendingRow(db.txns, req.va, i); }
    } else {
      CollectingExpiresNothing(db, req, b, i);
    }
  }

  /** A payment expires a pending row only when that row's own expiry has passed. */
  lemma PaymentExpiresOnlyThePast(db: Db, req: PaymentReq, now: int, i: nat)
    requires Inv(db) && i < |db.txns| && db.txns[i].status == Pending
    ensures var after := Decide(db, req, now).db.txns;
            && |db.txns| <= |after|
            && (after[i].status == Expired ==> db.txns[i].PastExpiry(now) && db.txns[i].va == req.va)
  {
    if FindPaid(db.txns, req.paymentId).None? && !IsNoBillVA(db, req.va) && Best(db.txns, req.va).Some? {
      PayBilledExpires(db, req, Best(db.txns, req.va).value, now, i);
    }
  }

  /** An inquiry expires a pending row exactly when it resolves to an expired row of the same number. */
  lemma InquiryExpiresExactlyWhen(db: Db, req: InquiryReq, now: int, j: nat)
    requires Inv(db) && j < |db.txns| && db.txns[j].status == Pending && !IsNoBillVA(db, req.va)
    ensures |Inquiry(db, req, now).db.txns| == |db.txns|
    ensures Inquiry(db, req, now).db.txns[j].status == Expired <==>
            var i := ResolveInquiry(db, req);
            i.Some? && db.txns[i.value].va == db.txns[j].va && db.txns[i.value].IsExpired(now)
  {
    var i := ResolveInquiry(db, req);
    hide ResolveInquiry, Inv;
    if i.Some? {
      ResolvedInquiryExpires(db, req, i.value, now, j);
      hide InquiryBilled;
    }
  }

  lemma ResolvedInquiryExpires(db: Db, req: InquiryReq, i: nat, now: int, j: nat)
    requires i < |db.txns| && j < |db.txns| && db.txns[j].status == Pending
    ensures |InquiryBilled(db, req, i, now).db.txns| == |db.txns|
    ensures InquiryBilled(db, req, i, now).db.txns[j].status == Expired <==>
            db.txns[i].va == db.txns[j].va && db.txns[i].IsExpired(now)
  {
    if db.txns[i].IsExpired(now) {
      assert AnyPending(db.txns, db.txns[i].va) || db.txns[j].va != db.txns[i].va by {
        assert db.txns[j].va == db.txns[i].va ==> Pends(db.txns[j], db.txns[i].va);
      }
    }
  }

  /** The row an inquiry expires is past its own expiry unless the inquiry id belongs to an earlier, already
      expired cycle of the number; in that case, and only then, a bill still valid can be expired. */
  lemma InquiryExpiresTheValidExactlyWhen(db: Db, req: InquiryReq, now: int, j: nat)
    requires Inv(db) && j < |db.txns| && db.txns[j].status == Pending && !IsNoBillVA(db, req.va)
    requires !db.txns[j].PastExpiry(now)
    ensures |Inquiry(db, req, now).db.txns| == |db.txns|
    ensures Inquiry(db, req, now).db.txns[j].status == Expired <==>
            var i := FindKey(db.txns, Vendor(req.inquiryId));
            i.Some? && db.txns[i.value].va == db.txns[j].va && db.txns[i.value].status == Expired
  {
    InquiryExpiresExactlyWhen(db, req, now, j);
    var r := ResolveInquiry(db, req);
    if r.Some? && db.txns[r.value].va == db.txns[j].va {
      BestIsThePendingRow(db.txns, db.txns[j].va, j);
      if db.txns[r.value].status == Pending { OnePendingRow(db.txns, db.txns[j].va, r.value, j); }
    }
  }

  // ---------------------------------------------------------------- inquiry and payment

  /** Ids no earlier call used. */
  predicate FreshIds(db: Db, q: InquiryReq, p: PaymentReq) {
    && FindKey(db.txns, Vendor(q.inquiryId)).None? && q.inquiryId != ""
    && p.paymentId != "" && FindPaid(db.txns, p.paymentId).None?
    && FindInstalment(db.instalments, p.paymentId).None? && !Flagged(db, p)
  }

  /** The payment tenders what row `b` asks for: its total, or any part of a variable bill's remainder. */
  predicate TendersOwed(db: Db, row: Txn, p: PaymentReq) {
    && p.paid > 0
    && if PaymentBilling(db, row) == Variable then p.paid <= row.total - row.Paid()
       else p.paid == row.total && p.total.GetOr(p.paid) == p.paid
  }

  /** The row bills something, and while it can take a payment the payment tenders what it asks for. */
  predicate OwedIfOpen(db: Db, row: Txn, p: PaymentReq, now: int) {
    row.total > 0 && (row.IsPayable() && !row.IsExpired(now) ==> TendersOwed(db, row, p))
  }

  predicate Matches(inquiry: Code, payment: Code) {
    && (inquiry == InquirySuccess <==> payment == PaymentSuccess)
    && (inquiry == InquiryPaidBill <==> payment == PaymentPaidBill)
    && (inquiry == InquiryExpired <==> payment == PaymentExpired)
    && (inquiry == InquiryNotFound <==> payment == PaymentNotFound)
  }

  lemma PayBilledAnswers(db: Db, p: PaymentReq, b: nat, now: int)
    requires b < |db.txns| && OwedIfOpen(db, db.txns[b], p, now)
    requires FindInstalment(db.instalments, p.paymentId).None?
    ensures var row := db.txns[b];
            PayBilled(db, p, b, now).resp.code ==
              if row.IsExpired(now) then PaymentExpired
              else if row.IsPayable() then PaymentSuccess else ClosedCode(row.status)
  {
  }

  /** At one instant, with fresh ids and, while the bill is open, the owed amount, inquiry and payment of a billed
      number agree: both accept, or both answer paid, expired or not found. */
  lemma InquiryAndPaymentAgree(db: Db, q: InquiryReq, p: PaymentReq, now: int)
    requires q.va == p.va && !IsNoBillVA(db, q.va) && FreshIds(db, q, p)
    requires var b := Best(db.txns, q.va);
             b.Some? ==> OwedIfOpen(db, db.txns[b.value], p, now)
    requires p.paid > 0
    ensures Matches(Inquiry(db, q, now).code, Payment(db, p, now).resp.code)
  {
    hide Inquiry, Payment, PayBilled, TendersOwed, OwedIfOpen, Flagged;
    InquiryAnswers(db, q, now);
    PaymentReaches(db, p, now);
    var b := Best(db.txns, q.va);
    if b.Some? {
      PayBilledAnswers(db, p, b.value, now);
    }
  }

  lemma InquiryAnswers(db: Db, q: InquiryReq, now: int)
    requires !IsNoBillVA(db, q.va) && FindKey(db.txns, Vendor(q.inquiryId)).None?
    ensures Inquiry(db, q, now).code ==
            match Best(db.txns, q.va)
            case None => InquiryNotFound
            case Some(b) =>
              var row := db.txns[b];
              if row.IsExpired(now) then InquiryExpired
              else if row.IsPayable() then InquirySuccess
              else if row.status == Settled then InquiryPaidBill else InquiryNotFound
  {
  }

  lemma PaymentReaches(db: Db, p: PaymentReq, now: int)
    requires !IsNoBillVA(db, p.va) && p.paymentId != "" && p.paid > 0 && !Flagged(db, p)
    requires FindPaid(db.txns, p.paymentId).None?
    ensures Payment(db, p, now).resp ==
            match Best(db.txns, p.va)
            case None => RefuseAccount(p, PaymentNotFound)
            case Some(b) => PayBilled(db, p, b, now).resp
  {
    hide PayBilled;
  }

  /** An accepted inquiry changes at most the answering row's key, and it still answers. */
  lemma AcceptedInquiryKeepsBest(db: Db, q: InquiryReq, now: int)
    requires !IsNoBillVA(db, q.va) && FindKey(db.txns, Vendor(q.inquiryId)).None?
    requires Inquiry(db, q, now).code == InquirySuccess
    ensures var b := Best(db.txns, q.va); var after := Inquiry(db, q, now).db;
            && b.Some?
            && after == db.(txns := db.txns[b.value := db.txns[b.value].(key := after.txns[b.value].key)])
            && Best(after.txns, q.va) == b
  {
    var b := Best(db.txns, q.va).value;
    var after := Inquiry(db, q, now).db.txns;
    assert after == db.txns[b := db.txns[b].(key := after[b].key)];
    RekeyKeepsBest(db.txns, b, after[b].key, q.va);
  }

  lemma RekeyKeepsBest(txns: seq<Txn>, b: nat, key: Key, va: string)
    requires Best(txns, va) == Some(b)
    ensures Best(txns[b := txns[b].(key := key)], va) == Some(b)
  {
    var after := txns[b := txns[b].(key := key)];
    assert after[b].IsPayable() == txns[b].IsPayable();
    var r := Best(after, va);
    assert r.Some?;
  }

  /** The payment that follows an accepted inquiry under the inquiry's own id is taken as a first payment. */
  lemma PaymentUnderItsInquiryId(db: Db, q: InquiryReq, p: PaymentReq, now: int)
    requires q.va == p.va && !IsNoBillVA(db, q.va) && FreshIds(db, q, p)
    requires p.paymentId == q.inquiryId
    requires var b := Best(db.txns, q.va);
             b.Some? && db.txns[b.value].total > 0 && TendersOwed(db, db.txns[b.value], p)
    requires Inquiry(db, q, now).code == InquirySuccess
    ensures Payment(Inquiry(db, q, now).db, p, now).resp.code == PaymentSuccess
  {
    var b := Best(db.txns, q.va).value;
    var after := Inquiry(db, q, now).db;
    AcceptedInquiryKeepsBest(db, q, now);
    PayBilledAnswers(after, p, b, now);
    assert FindPaid(after.txns, p.paymentId).None?;
    assert Payment(after, p, now).resp == PayBilled(after, p, b, now).resp;
  }

  /** What an open variable bill accepts: exactly the positive amounts within its remainder. So an inquiry can
      invite a payment that no amount satisfies, precisely when the row already records its total or more. */
  lemma OpenVariableBillAccepts(db: Db, p: PaymentReq, now: int)
    requires !IsNoBillVA(db, p.va) && p.paymentId != "" && !Flagged(db, p) && p.paid > 0
    requires FindPaid(db.txns, p.paymentId).None? && FindInstalment(db.instalments, p.paymentId).None?
    requires var b := Best(db.txns, p.va);
             && b.Some? && db.txns[b.value].IsPayable() && !db.txns[b.value].IsExpired(now)
             && db.txns[b.value].total > 0 && PaymentBilling(db, db.txns[b.value]) == Variable
    ensures var row := db.txns[Best(db.txns, p.va).value];
            Payment(db, p, now).resp.code == PaymentSuccess <==> p.paid <= row.total - row.Paid()
  {
    var b := Best(db.txns, p.va).value;
    assert Payment(db, p, now).resp == PayBilled(db, p, b, now).resp;
  }
}

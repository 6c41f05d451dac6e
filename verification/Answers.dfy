/** What the bank reads in an answer, on the fields of the rows behind it. */
module Answers {
  import opened Domain
  import opened Tables
  import opened Steps
  import opened Invariant
  import opened Callbacks
  import A = Agreement
  import B = VariableBill

  /** The block of an accepted payment. */
  predicate Names(data: Option<PayData>, va: string, paymentId: string, paid: int, total: int) {
    data == Some(PayData(va, paymentId, Some(paid), Some(total), FlagAccepted, ReasonOf(PaymentSuccess)))
  }

  /** The registration's billing class, or the one the row's VA type stands for when the number has none. */
  predicate TakesInstalments(db: Db, row: Txn) {
    if row.va in db.accounts then db.accounts[row.va].billing == Variable else row.vaType in {"02", "05"}
  }

  /** A payment without an id is refused for that field and one of no positive amount for its amount, before anything
      is looked up or written. */
  lemma MalformedPaymentRefused(db: Db, p: PaymentReq, now: int)
    requires p.paymentId == "" || p.paid <= 0
    ensures var out := Payment(db, p, now);
            && out.db == db && out.resp.data.None?
            && out.resp.code == if p.paymentId == "" then PaymentBadField else PaymentInvalidAmt
  {
  }

  // ---------------------------------------------------------------- numbers without a bill

  /** The registration is active and its expiry, if it has one, has not passed. */
  predicate InForce(a: Account, now: int) {
    a.status == Active && (a.expires.Some? ==> now <= a.expires.value)
  }

  /** Nothing is on file under the payment's ids. */
  predicate NewToTheLedger(db: Db, p: PaymentReq) {
    && p.paymentId != "" && p.paid > 0 && !Flagged(db, p)
    && (forall i :: 0 <= i < |db.txns| ==> db.txns[i].paymentId != p.paymentId && db.txns[i].key != Vendor(p.paymentId))
    && (forall k :: 0 <= k < |db.instalments| ==> db.instalments[k].paymentId != p.paymentId)
  }

  /** At one instant, inquiry and payment of a number without a bill both accept exactly while its registration is in
      force; otherwise the inquiry answers expired, and the payment expired or not found. */
  lemma NoBillNumberAnswers(db: Db, q: InquiryReq, p: PaymentReq, now: int)
    requires q.va == p.va && IsNoBillVA(db, p.va) && NewToTheLedger(db, p)
    ensures var a := db.accounts[p.va];
            var inquiry, payment := Inquiry(db, q, now).code, Payment(db, p, now).resp.code;
            && inquiry in {InquirySuccess, InquiryExpired}
            && payment in {PaymentSuccess, PaymentExpired, PaymentNotFound}
            && (inquiry == InquirySuccess <==> InForce(a, now))
            && (payment == PaymentSuccess <==> InForce(a, now))
            && (payment == PaymentExpired <==>
                  a.status == Lapsed || (a.expires.Some? && now > a.expires.value))
  {
  }

  /** An accepted payment of a number without a bill adds one settled row: under the payment's own id, for the amount
      tendered, with what the registration holds, and never expiring. */
  lemma NoBillPaymentAddsItsRow(db: Db, p: PaymentReq, now: int)
    requires IsNoBillVA(db, p.va) && NewToTheLedger(db, p) && Payment(db, p, now).resp.code == PaymentSuccess
    ensures var a, after := db.accounts[p.va], Payment(db, p, now).db.txns;
            && |after| == |db.txns| + 1 && after[..|db.txns|] == db.txns
            && var row := after[|db.txns|];
            && row.va == p.va && row.key == Vendor(p.paymentId) && row.paymentId == p.paymentId
            && row.status == Settled && row.total == p.paid && row.paid == Some(p.paid) && row.expires.None?
            && row.trxId == a.trxId && row.url == a.url && row.vaType == a.vaType
  {
  }

  // ---------------------------------------------------------------- accepted payments

  /** What an accepted payment's answer names: the number and id sent, and the amount tendered; for an instalment the
      sum of the bill's instalments with this one. */
  lemma AcceptedPaymentNames(db: Db, p: PaymentReq, now: int)
    requires Payment(db, p, now).resp.code == PaymentSuccess && !Repeats(db, p) && !InstalmentIdTaken(db, p)
    ensures var data := Payment(db, p, now).resp.data;
            if IsNoBillVA(db, p.va) then Names(data, p.va, p.paymentId, p.paid, p.paid)
            else
              && Best(db.txns, p.va).Some?
              && var b := Best(db.txns, p.va).value;
              Names(data, p.va, p.paymentId,
                    if TakesInstalments(db, db.txns[b]) then InstalmentSum(db.instalments, b) + p.paid else p.paid,
                    p.total.GetOr(p.paid))
  {
    if IsNoBillVA(db, p.va) {
      NoBillPaymentNames(db, p, now);
    } else if Best(db.txns, p.va).Some? {
      BilledPaymentNames(db, p, Best(db.txns, p.va).value, now);
    }
    hide PaymentNoBill, PayBilled, TakesInstalments, Names;
  }

  lemma NoBillPaymentNames(db: Db, p: PaymentReq, now: int)
    requires IsNoBillVA(db, p.va) && FindPaid(db.txns, p.paymentId).None?
    ensures var resp := PaymentNoBill(db, p, now).resp;
            resp.code == PaymentSuccess ==> Names(resp.data, p.va, p.paymentId, p.paid, p.paid)
  {
  }

  lemma BilledPaymentNames(db: Db, p: PaymentReq, b: nat, now: int)
    requires b < |db.txns|
    requires var k := FindInstalment(db.instalments, p.paymentId);
             k.Some? ==> db.instalments[k.value].txn != b && PaymentBilling(db, db.txns[b]) != Variable
    ensures var resp := PayBilled(db, p, b, now).resp;
            resp.code == PaymentSuccess ==>
              Names(resp.data, p.va, p.paymentId,
                    if TakesInstalments(db, db.txns[b]) then InstalmentSum(db.instalments, b) + p.paid else p.paid,
                    p.total.GetOr(p.paid))
  {
    B.SumAppend(db.instalments, Instalment(b, p.paymentId, p.paid), b);
    hide InstalmentSum, SavePayment;
  }

  /** The amount named is the one the credited row then records. */
  lemma AnswerIsWhatTheRowRecords(db: Db, p: PaymentReq, now: int)
    requires Inv(db)
    requires Payment(db, p, now).resp.code == PaymentSuccess && !Repeats(db, p) && !InstalmentIdTaken(db, p)
    ensures var out := Payment(db, p, now);
            && |out.db.credits| == |db.credits| + 1
            && var row := out.db.credits[|db.credits|].row;
            && row < |out.db.txns| && out.resp.data.Some?
            && out.resp.data.value.paid == out.db.txns[row].paid
            && out.db.txns[row].va == p.va
  {
    CreditExactlyWhenAccepted(db, p, now);
    if IsNoBillVA(db, p.va) {
      NoBillRowRecords(db, p, now);
    } else if Best(db.txns, p.va).Some? {
      BilledRowRecords(db, p, Best(db.txns, p.va).value, now);
    }
    hide PaymentNoBill, PayBilled, Inv, PaymentBilling;
  }

  lemma NoBillRowRecords(db: Db, p: PaymentReq, now: int)
    requires IsNoBillVA(db, p.va) && FindPaid(db.txns, p.paymentId).None?
    ensures var out := PaymentNoBill(db, p, now);
            out.resp.code == PaymentSuccess ==>
              && |out.db.credits| == |db.credits| + 1 && |out.db.txns| == |db.txns| + 1
              && out.db.credits[|db.credits|].row == |db.txns| && out.resp.data.Some?
              && out.resp.data.value.paid == out.db.txns[|db.txns|].paid && out.db.txns[|db.txns|].va == p.va
  {
  }

  lemma BilledRowRecords(db: Db, p: PaymentReq, b: nat, now: int)
    requires Inv(db) && Best(db.txns, p.va) == Some(b)
    requires var k := FindInstalment(db.instalments, p.paymentId);
             k.Some? ==> db.instalments[k.value].txn != b && PaymentBilling(db, db.txns[b]) != Variable
    ensures var out := PayBilled(db, p, b, now);
            out.resp.code == PaymentSuccess ==>
              && |out.db.credits| == |db.credits| + 1 && |out.db.txns| == |db.txns|
              && out.db.credits[|db.credits|].row == b && out.resp.data.Some?
              && out.resp.data.value.paid == out.db.txns[b].paid && out.db.txns[b].va == p.va
  {
    hide InstalmentSum, PayInstalment, PaySettlement, MarkExpired, Inv;
    RowsStay(db, p, b);
  }

  lemma RowsStay(db: Db, p: PaymentReq, b: nat)
    requires Inv(db) && b < |db.txns| && db.txns[b].va == p.va
    requires PaymentBilling(db, db.txns[b]) == Variable ==> FindInstalment(db.instalments, p.paymentId).None?
    ensures var out := if PaymentBilling(db, db.txns[b]) == Variable then PayInstalment(db, p, b) else PaySettlement(db, p, b);
            out.resp.code == PaymentSuccess ==>
              && |out.db.credits| == |db.credits| + 1 && |out.db.txns| == |db.txns|
              && out.db.credits[|db.credits|].row == b && out.resp.data.Some?
              && out.resp.data.value.paid == out.db.txns[b].paid && out.db.txns[b].va == p.va
  {
    hide InstalmentSum, FindInstalment, PaymentBilling, OpenBillsNewest, InstalmentsInv, CreditsInv;
    KeyFindsItsRow(db, b);
  }

  lemma KeyFindsItsRow(db: Db, b: nat)
    requires Inv(db) && b < |db.txns|
    ensures FindKey(db.txns, db.txns[b].key) == Some(b)
  {
  }

  /** While the bill is in its cycle, an accepted instalment's answer names what was paid on it before plus this
      payment, and that is within the bill. */
  lemma InstalmentNamesTheRunningTotal(db: Db, p: PaymentReq, now: int, b: nat)
    requires B.InCycle(db, b) && Best(db.txns, p.va) == Some(b) && !IsNoBillVA(db, p.va)
    requires TakesInstalments(db, db.txns[b])
    requires Payment(db, p, now).resp.code == PaymentSuccess && !Repeats(db, p) && !InstalmentIdTaken(db, p)
    ensures var total := db.txns[b].Paid() + p.paid;
            && Names(Payment(db, p, now).resp.data, p.va, p.paymentId, total, p.total.GetOr(p.paid))
            && total <= db.txns[b].total
  {
    AcceptedPaymentNames(db, p, now);
    A.PaymentReaches(db, p, now);
    assert B.InCycle(db, b);
    hide Payment;
  }

  // ---------------------------------------------------------------- repeats

  /** What the answer to a repeat names, when its pair was not flagged: the row settled under the id as it is stored,
      or the stored sum of the bill the instalment belongs to. */
  lemma RepeatNames(db: Db, p: PaymentReq, now: int)
    requires Repeats(db, p) && !Flagged(db, p) && p.paymentId != "" && p.paid > 0
    ensures var data := Payment(db, p, now).resp.data;
            if exists i :: 0 <= i < |db.txns| && db.txns[i].paymentId == p.paymentId then
              exists i :: 0 <= i < |db.txns| && db.txns[i].paymentId == p.paymentId
                          && Names(data, db.txns[i].va, p.paymentId, db.txns[i].paid.GetOr(0), db.txns[i].total)
            else
              Names(data, p.va, p.paymentId, InstalmentSum(db.instalments, Best(db.txns, p.va).value),
                    p.total.GetOr(p.paid))
  {
    var i := FindPaid(db.txns, p.paymentId);
    if i.Some? {
      assert Names(Payment(db, p, now).resp.data, db.txns[i.value].va, p.paymentId, db.txns[i.value].Paid(),
                   db.txns[i.value].total);
    }
  }

  /** An instalment under an id that another bill's instalment uses moves no money: the answer, a repeat's, names the
      stored sum of the bill asked for, and the row then records that sum. */
  lemma TakenIdNamesTheStoredSum(db: Db, p: PaymentReq, now: int)
    requires !Repeats(db, p) && InstalmentIdTaken(db, p) && p.paymentId != "" && p.paid > 0
    requires var row := db.txns[Best(db.txns, p.va).value]; row.IsPayable() && !row.IsExpired(now) && !Overpays(row, p.paid)
    ensures var b, out := Best(db.txns, p.va).value, Payment(db, p, now);
            && out.resp.code == (if p.advice then PaymentSuccess else PaymentInconsistent)
            && Names(out.resp.data, p.va, p.paymentId, InstalmentSum(db.instalments, b), p.total.GetOr(p.paid))
            && out.db.credits == db.credits && out.db.callbacks == db.callbacks
            && out.db.instalments == db.instalments && |out.db.txns| == |db.txns|
            && out.db.txns[b].paid == Some(InstalmentSum(db.instalments, b))
  {
    A.PaymentReaches(db, p, now);
    TakenIdPaysNothing(db, p, Best(db.txns, p.va).value, now);
    hide PayBilled, InstalmentSum;
  }

  lemma TakenIdPaysNothing(db: Db, p: PaymentReq, b: nat, now: int)
    requires b < |db.txns| && PaymentBilling(db, db.txns[b]) == Variable
    requires var k := FindInstalment(db.instalments, p.paymentId); k.Some? && db.instalments[k.value].txn != b
    requires db.txns[b].IsPayable() && !db.txns[b].IsExpired(now) && !Overpays(db.txns[b], p.paid)
    ensures var out := PayBilled(db, p, b, now);
            && out.resp.code == (if p.advice then PaymentSuccess else PaymentInconsistent)
            && Names(out.resp.data, p.va, p.paymentId, InstalmentSum(db.instalments, b), p.total.GetOr(p.paid))
            && out.db.credits == db.credits && out.db.callbacks == db.callbacks
            && out.db.instalments == db.instalments && |out.db.txns| == |db.txns|
            && out.db.txns[b].paid == Some(InstalmentSum(db.instalments, b))
  {
  }

  // ---------------------------------------------------------------- billed numbers, field by field

  /** The bill can no longer be paid because of its date. */
  predicate Overdue(row: Txn, now: int) {
    row.status == Expired || (row.status == Pending && row.expires.Some? && now > row.expires.value)
  }

  /** The bill is paid: '00', and not a variable bill that still owes part of its total. */
  predicate PaidUp(row: Txn) {
    row.status == Settled && !(row.vaType in {"02", "05"} && row.paid.GetOr(0) < row.total)
  }

  /** The amount is not what the bill takes. */
  predicate WrongAmount(db: Db, row: Txn, p: PaymentReq) {
    if TakesInstalments(db, row) then row.total > 0 && row.paid.GetOr(0) + p.paid > row.total
    else p.paid != row.total || (p.total.Some? && p.total.value != p.paid)
  }

  /** The answer to a first payment of a billed number, on the fields of the answering row. */
  lemma BilledPaymentAnswers(db: Db, p: PaymentReq, now: int)
    requires !IsNoBillVA(db, p.va) && NewToTheLedger(db, p)
    ensures var b := Best(db.txns, p.va); var code := Payment(db, p, now).resp.code;
            && code in {PaymentSuccess, PaymentExpired, PaymentPaidBill, PaymentNotFound, PaymentInvalidAmt}
            && (code == PaymentExpired <==> b.Some? && Overdue(db.txns[b.value], now))
            && (code == PaymentPaidBill <==> b.Some? && PaidUp(db.txns[b.value]))
            && (code == PaymentNotFound <==> b.None? || db.txns[b.value].status == Deleted)
            && (code == PaymentInvalidAmt <==>
                  && b.Some? && !Overdue(db.txns[b.value], now) && !PaidUp(db.txns[b.value])
                  && db.txns[b.value].status != Deleted && WrongAmount(db, db.txns[b.value], p))
  {
    A.PaymentReaches(db, p, now);
    if Best(db.txns, p.va).Some? { PayBilledCodes(db, p, Best(db.txns, p.va).value, now); }
    hide PayBilled, Overdue, PaidUp, WrongAmount;
  }

  lemma PayBilledCodes(db: Db, p: PaymentReq, b: nat, now: int)
    requires b < |db.txns| && FindInstalment(db.instalments, p.paymentId).None?
    ensures var row, code := db.txns[b], PayBilled(db, p, b, now).resp.code;
            && code in {PaymentSuccess, PaymentExpired, PaymentPaidBill, PaymentNotFound, PaymentInvalidAmt}
            && (code == PaymentExpired <==> Overdue(row, now)) && (code == PaymentPaidBill <==> PaidUp(row))
            && (code == PaymentNotFound <==> row.status == Deleted)
            && (code == PaymentInvalidAmt <==>
                  !Overdue(row, now) && !PaidUp(row) && row.status != Deleted && WrongAmount(db, row, p))
  {
    hide PayInstalment, PaySettlement, MarkExpired, WrongAmount, FindInstalment, PaymentBilling, InstalmentSum;
    CollectingCodes(db, p, b);
  }

  lemma CollectingCodes(db: Db, p: PaymentReq, b: nat)
    requires b < |db.txns| && FindInstalment(db.instalments, p.paymentId).None?
    ensures var row := db.txns[b];
            var code := if PaymentBilling(db, row) == Variable then PayInstalment(db, p, b).resp.code
                        else PaySettlement(db, p, b).resp.code;
            code == if WrongAmount(db, row, p) then PaymentInvalidAmt else PaymentSuccess
  {
  }

  /** A refusal names the answering row: its number, its total, and the amount paid only when it is paid up. The flag
      is "01" and the reason that of the code; an amount refusal carries no data. */
  lemma BilledRefusalNames(db: Db, p: PaymentReq, now: int)
    requires !IsNoBillVA(db, p.va) && NewToTheLedger(db, p) && Best(db.txns, p.va).Some?
    ensures var row := db.txns[Best(db.txns, p.va).value]; var resp := Payment(db, p, now).resp;
            && (resp.code == PaymentInvalidAmt ==> resp.data.None?)
            && (resp.code !in {PaymentSuccess, PaymentInvalidAmt} ==>
                  resp.data == Some(PayData(p.va, p.paymentId,
                                            if PaidUp(row) && row.paid.GetOr(0) != 0 then row.paid else None,
                                            Some(row.total), FlagRejected, ReasonOf(resp.code))))
  {
    A.PaymentReaches(db, p, now);
  }

  /** A refusal with no row to describe names the request alone. */
  lemma RowlessRefusalNames(db: Db, p: PaymentReq, now: int)
    requires NewToTheLedger(db, p) && (IsNoBillVA(db, p.va) || Best(db.txns, p.va).None?)
    ensures var resp := Payment(db, p, now).resp;
            resp.code != PaymentSuccess ==>
              resp.data == Some(PayData(p.va, p.paymentId, None, None, FlagRejected, ReasonOf(resp.code)))
  {
  }

  /** A first payment is flagged "00" on the wire exactly when it is accepted. */
  lemma FlaggedAcceptedExactlyWhen(db: Db, p: PaymentReq, now: int)
    requires NewToTheLedger(db, p)
    ensures var resp := Payment(db, p, now).resp;
            && WireStatus(resp) == (if resp.code == PaymentSuccess then FlagAccepted else FlagRejected)
            && WireReason(resp) == ReasonOf(resp.code)
  {
    if Payment(db, p, now).resp.code == PaymentSuccess {
      FirstPaymentNames(db, p, now);
    } else if IsNoBillVA(db, p.va) || Best(db.txns, p.va).None? {
      RowlessRefusalNames(db, p, now);
    } else {
      BilledRefusalNames(db, p, now);
    }
    FirstPaymentCodes(db, p, now);
    hide Payment;
  }

  lemma FirstPaymentNames(db: Db, p: PaymentReq, now: int)
    requires NewToTheLedger(db, p) && Payment(db, p, now).resp.code == PaymentSuccess
    ensures var data := Payment(db, p, now).resp.data;
            data.Some? && data.value.flag == FlagAccepted && data.value.reason == ReasonOf(PaymentSuccess)
  {
    AcceptedPaymentNames(db, p, now);
    hide Payment;
  }

  lemma FirstPaymentCodes(db: Db, p: PaymentReq, now: int)
    requires NewToTheLedger(db, p)
    ensures Payment(db, p, now).resp.code
            in {PaymentSuccess, PaymentExpired, PaymentPaidBill, PaymentNotFound, PaymentInvalidAmt}
  {
    if IsNoBillVA(db, p.va) {
      NoBillNumberAnswers(db, InquiryReq(p.va, ""), p, now);
    } else {
      BilledPaymentAnswers(db, p, now);
    }
    hide Payment, Inquiry;
  }

  /** The row an inquiry is about: the one holding its id, else the one answering for the number. */
  predicate Concerns(db: Db, q: InquiryReq, i: nat) {
    && i < |db.txns|
    && (db.txns[i].key == Vendor(q.inquiryId)
        || (Best(db.txns, q.va) == Some(i) && forall j :: 0 <= j < |db.txns| ==> db.txns[j].key != Vendor(q.inquiryId)))
  }

  /** The answer to an inquiry of a billed number, on the fields of the row it concerns. */
  lemma BilledInquiryAnswers(db: Db, q: InquiryReq, now: int, i: nat)
    requires Inv(db) && !IsNoBillVA(db, q.va) && Concerns(db, q, i)
    ensures var row, code := db.txns[i], Inquiry(db, q, now).code;
            && code in {InquirySuccess, InquiryExpired, InquiryPaidBill, InquiryNotFound}
            && (code == InquiryExpired <==> Overdue(row, now)) && (code == InquiryPaidBill <==> PaidUp(row))
            && (code == InquiryNotFound <==> row.status == Deleted)
  {
    assert ResolveInquiry(db, q) == Some(i);
  }

  /** An accepted inquiry of an unclaimed bill puts the vendor's id on it, so that the id finds this row from then on;
      a bill already claimed keeps its key. Nothing else changes. */
  lemma AcceptedInquiryClaims(db: Db, q: InquiryReq, now: int, i: nat)
    requires Inv(db) && !IsNoBillVA(db, q.va) && Concerns(db, q, i) && q.inquiryId != ""
    requires Inquiry(db, q, now).code == InquirySuccess
    ensures var row, after := db.txns[i], Inquiry(db, q, now).db;
            var unclaimed := row.key.Placeholder? || (row.trxId != "" && row.key == Vendor(row.trxId));
            && after == db.(txns := db.txns[i := row.(key := if unclaimed then Vendor(q.inquiryId) else row.key)])
            && FindKey(after.txns, after.txns[i].key) == Some(i)
  {
    assert ResolveInquiry(db, q) == Some(i);
  }
}

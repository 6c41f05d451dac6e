/** The double-flag rule: the first outcome of a (X-EXTERNAL-ID, paymentRequestId) pair is final. */
module Replay {
  import opened Domain
  import opened Tables
  import opened Steps

  predicate Pairs(req: PaymentReq, key: FlagKey) {
    req.externalId == key.externalId && req.paymentId == key.paymentId
  }

  lemma PayBilledKeepsFlags(db: Db, req: PaymentReq, b: nat, now: int)
    requires b < |db.txns|
    ensures PayBilled(db, req, b, now).db.flags == db.flags
  {
  }

  lemma PaymentNoBillKeepsFlags(db: Db, req: PaymentReq, now: int)
    requires req.va in db.accounts
    ensures PaymentNoBill(db, req, now).db.flags == db.flags
  {
  }

  lemma DecideKeepsFlags(db: Db, req: PaymentReq, now: int)
    ensures Decide(db, req, now).db.flags == db.flags
  {
    if IsNoBillVA(db, req.va) { PaymentNoBillKeepsFlags(db, req, now); }
    if Best(db.txns, req.va).Some? { PayBilledKeepsFlags(db, req, Best(db.txns, req.va).value, now); }
    hide PayBilled, PaymentNoBill;
  }

  lemma CreateKeepsFlags(db: Db, c: CreateReq)
    ensures CreateVA(db, c).db.flags == db.flags
  {
  }

  lemma InquiryKeepsFlags(db: Db, q: InquiryReq, now: int)
    ensures Inquiry(db, q, now).db.flags == db.flags
  {
  }

  lemma ReconcileKeepsFlags(db: Db, record: Txn, answer: VendorAnswer)
    ensures ReconcileRecord(db, record, answer).db.flags == db.flags
  {
  }

  /** No call removes a flag or replaces one. */
  lemma StepKeepsFlags(db: Db, e: Event, key: FlagKey)
    requires key in db.flags
    ensures key in Step(db, e).flags && Step(db, e).flags[key] == db.flags[key]
  {
    hide CreateVA, Inquiry, Decide, ReconcileRecord;
    match e
    case Create(c) => CreateKeepsFlags(db, c);
    case Inquire(q, now) => InquiryKeepsFlags(db, q, now);
    case Pay(p, now) => DecideKeepsFlags(db, p, now);
    case Delete(va) =>
    case ReconcileOne(va, answer) =>
      if Best(db.txns, va).Some? { ReconcileKeepsFlags(db, db.txns[Best(db.txns, va).value], answer); }
    case SweepAll(cutoff, now, limit, vendor) =>
      SweepKeepsFlags(db, Candidates(db.txns, cutoff, now, limit), vendor);
  }

  lemma {:induction false} SweepKeepsFlags(db: Db, records: seq<Txn>, vendor: VendorBook)
    ensures SweepRecords(db, records, vendor).db.flags == db.flags
  {
    if |records| > 0 {
      var n := |records| - 1;
      SweepKeepsFlags(db, records[..n], vendor);
      ReconcileKeepsFlags(SweepRecords(db, records[..n], vendor).db, records[n], AnswerFor(vendor, records[n].va));
    }
  }

  lemma {:induction false} RunKeepsFlags(db: Db, run: seq<Event>, key: FlagKey)
    requires key in db.flags
    ensures key in Run(db, run).flags && Run(db, run).flags[key] == db.flags[key]
  {
    if |run| > 0 {
      RunKeepsFlags(db, run[..|run| - 1], key);
      StepKeepsFlags(Run(db, run[..|run| - 1]), run[|run| - 1], key);
    }
  }

  /** Whoever files an outcome second changes nothing. */
  lemma FirstOutcomeStays(flags: map<FlagKey, Flag>, key: FlagKey, first: Flag, second: Flag)
    requires key !in flags
    ensures var filed := RecordPaymentFlag(flags, key, first);
            && filed.Keys == flags.Keys + {key} && filed[key] == first
            && RecordPaymentFlag(filed, key, second) == filed
            && forall k :: k in flags ==> filed[k] == flags[k]
  {
  }

  /** A first payment that gets an answer below 500 leaves that answer on file. */
  lemma AnswerIsFiled(db: Db, req: PaymentReq, now: int)
    requires req.externalId != "" && req.paymentId != "" && req.paid > 0 && !Flagged(db, req)
    ensures var out := Payment(db, req, now);
            var key := FlagKey(req.externalId, req.paymentId);
            if out.resp.code == PaymentInternal then key !in out.db.flags
            else key in out.db.flags && out.db.flags[key] == Flag(out.resp.code, out.resp.data.GetOr(BLANK_DATA))
  {
    DecideKeepsFlags(db, req, now);
  }

  /** Once a pair was answered below 500, every later payment with that pair, after any run, changes nothing
      at all; an advice gets the first code and any other request 4042518, both with the first data. */
  lemma FirstAnswerIsFinal(db: Db, first: PaymentReq, firstNow: int, run: seq<Event>, again: PaymentReq, now: int)
    requires first.externalId != "" && first.paymentId != "" && first.paid > 0 && !Flagged(db, first)
    requires Payment(db, first, firstNow).resp.code != PaymentInternal
    requires Pairs(again, FlagKey(first.externalId, first.paymentId)) && again.paid > 0
    ensures var answer := Payment(db, first, firstNow).resp;
            var later := Run(Step(db, Pay(first, firstNow)), run);
            var out := Payment(later, again, now);
            && out.db == later
            && out.resp.code == (if again.advice then answer.code else PaymentInconsistent)
            && out.resp.data == Some(answer.data.GetOr(BLANK_DATA))
  {
    AnswerIsFiled(db, first, firstNow);
    RunKeepsFlags(Step(db, Pay(first, firstNow)), run, FlagKey(first.externalId, first.paymentId));
  }

  /** Every block of data the use case answers with names its flag. */
  lemma DataNamesItsFlag(db: Db, req: PaymentReq, now: int)
    ensures var resp := Decide(db, req, now).resp;
            resp.data.Some? ==> resp.data.value.flag != FlagUnset
  {
  }

  /** A refusal without data is 4042513 or an internal error. */
  lemma NoDataMeansInvalidAmount(db: Db, req: PaymentReq, now: int)
    ensures var resp := Decide(db, req, now).resp;
            resp.data.None? ==> resp.code in {PaymentInvalidAmt, PaymentInternal}
  {
  }

  /** On the wire a replay shows the first flag status; it shows the first reason as well unless the first
      answer was a 4042513 without data and the replay is not an advice. */
  lemma ReplayOnTheWire(db: Db, first: PaymentReq, now: int, again: PaymentReq)
    requires Decide(db, first, now).resp.code != PaymentInternal
    ensures var answer := Decide(db, first, now).resp;
            var replay := ReplayFlag(again, Flag(answer.code, answer.data.GetOr(BLANK_DATA)));
            && WireStatus(replay) == WireStatus(answer)
            && (WireReason(replay) == WireReason(answer) <==> again.advice || answer.data.Some?)
  {
    DataNamesItsFlag(db, first, now);
    NoDataMeansInvalidAmount(db, first, now);
  }
}

/** The merchant is told once for each credit, and for nothing else. */
module Callbacks {
  import opened Domain
  import opened Tables
  import opened Steps
  import opened Invariant
  import opened Reconciliation

  /** The payment callbacks of `sent`, in order. */
  function PaymentCallbacks(sent: seq<Callback>): seq<Callback> {
    if |sent| == 0 then []
    else
      var n := |sent| - 1;
      PaymentCallbacks(sent[..n]) + if sent[n].PaymentReceived? then [sent[n]] else []
  }

  /** What the credits owe the merchants: one callback for each credit of a row with a notification URL. */
  function Announcements(credits: seq<Credit>): seq<Callback> {
    if |credits| == 0 then []
    else
      var n := |credits| - 1;
      Announcements(credits[..n])
      + if credits[n].url != "" then [PaymentReceived(credits[n].va, credits[n].amount, credits[n].url)] else []
  }

  predicate Conserved(db: Db) {
    PaymentCallbacks(db.callbacks) == Announcements(db.credits)
  }

  lemma CallbackAppend(sent: seq<Callback>, c: Callback)
    ensures PaymentCallbacks(sent + [c]) == PaymentCallbacks(sent) + if c.PaymentReceived? then [c] else []
  {
    assert (sent + [c])[..|sent|] == sent;
  }

  lemma CreditAppend(credits: seq<Credit>, c: Credit)
    ensures Announcements(credits + [c]) ==
            Announcements(credits) + if c.url != "" then [PaymentReceived(c.va, c.amount, c.url)] else []
  {
    assert (credits + [c])[..|credits|] == credits;
  }

  /** Recording a credit and then notifying keeps the two histories in step. */
  lemma CreditAndNotify(db: Db, saved: Db, c: Credit)
    requires Conserved(db) && saved.callbacks == db.callbacks && saved.credits == db.credits + [c]
    ensures Conserved(Notify(saved, c.va, c.amount, c.url))
  {
    CreditAppend(db.credits, c);
    CallbackAppend(db.callbacks, PaymentReceived(c.va, c.amount, c.url));
  }

  lemma AnnounceExpiryConserves(db: Db, va: string, url: string)
    requires Conserved(db)
    ensures Conserved(AnnounceExpiry(db, va, url))
  {
    CallbackAppend(db.callbacks, VAExpired(va, url));
  }

  lemma MarkExpiredConserves(db: Db, i: nat)
    requires Conserved(db) && i < |db.txns|
    ensures Conserved(MarkExpired(db, i))
  {
    var row := db.txns[i];
    AnnounceExpiryConserves(db.(txns := UpdateVAStatus(db.txns, row.va, Expired)), row.va, row.url);
  }

  lemma MarkRegistrationExpiredConserves(db: Db, va: string)
    requires Conserved(db) && va in db.accounts
    ensures Conserved(MarkRegistrationExpired(db, va))
  {
    AnnounceExpiryConserves(db.(accounts := UpdateVAAccountStatus(db.accounts, va, Lapsed)), va,
                            db.accounts[va].url);
  }

  lemma InquiryConserves(db: Db, req: InquiryReq, now: int)
    requires Conserved(db)
    ensures Conserved(Inquiry(db, req, now).db)
  {
    hide MarkExpired, MarkRegistrationExpired;
    if IsNoBillVA(db, req.va) {
      MarkRegistrationExpiredConserves(db, req.va);
    } else if ResolveInquiry(db, req).Some? {
      MarkExpiredConserves(db, ResolveInquiry(db, req).value);
    }
  }

  lemma PaymentNoBillConserves(db: Db, req: PaymentReq, now: int)
    requires Conserved(db) && req.va in db.accounts
    ensures Conserved(PaymentNoBill(db, req, now).db)
  {
    var account := db.accounts[req.va];
    var t := NoBillTxn(req, account);
    if account.IsExpired(now) {
      MarkRegistrationExpiredConserves(db, req.va);
    } else if SaveNoBillPayment(db, t).Some? {
      CreditAndNotify(db, SaveNoBillPayment(db, t).value, Credit(|db.txns|, t.va, t.paymentId, t.total, t.url));
    }
  }

  lemma PayInstalmentConserves(db: Db, req: PaymentReq, b: nat)
    requires Conserved(db) && b < |db.txns| && db.txns[b].va == req.va
    ensures Conserved(PayInstalment(db, req, b).db)
  {
    if FindInstalment(db.instalments, req.paymentId).None? {
      CreditAndNotify(db, SaveVAPayment(db, b, req.paymentId, req.paid),
                      Credit(b, req.va, req.paymentId, req.paid, db.txns[b].url));
    }
  }

  lemma PaySettlementConserves(db: Db, req: PaymentReq, b: nat)
    requires Inv(db) && Conserved(db) && b < |db.txns| && db.txns[b].va == req.va && db.txns[b].IsPayable()
    ensures Conserved(PaySettlement(db, req, b).db)
  {
    var row := db.txns[b];
    var orphan := Txn(req.va, row.key, row.trxId, row.url, "", Settled, req.total.GetOr(req.paid),
                      Some(req.paid), req.paymentId, None);
    assert FindKey(db.txns, row.key) == Some(b);
    CreditAndNotify(db, SavePayment(db, row.key, req.paid, req.paymentId, orphan),
                    Credit(b, req.va, req.paymentId, req.paid, row.url));
  }

  lemma PayBilledConserves(db: Db, req: PaymentReq, b: nat, now: int)
    requires Inv(db) && Conserved(db) && Best(db.txns, req.va) == Some(b)
    ensures Conserved(PayBilled(db, req, b, now).db)
  {
    if db.txns[b].IsExpired(now) {
      MarkExpiredConserves(db, b);
    } else if db.txns[b].IsPayable() {
      PayInstalmentConserves(db, req, b);
      PaySettlementConserves(db, req, b);
    }
  }

  lemma PaymentConserves(db: Db, req: PaymentReq, now: int)
    requires Inv(db) && Conserved(db)
    ensures Conserved(Payment(db, req, now).db)
  {
    if req.paymentId != "" && req.paid > 0 && !Flagged(db, req) {
      if FindPaid(db.txns, req.paymentId).None? {
        if IsNoBillVA(db, req.va) {
          PaymentNoBillConserves(db, req, now);
        } else if Best(db.txns, req.va).Some? {
          PayBilledConserves(db, req, Best(db.txns, req.va).value, now);
        }
      }
      assert Conserved(Decide(db, req, now).db);
    }
  }

  lemma ReconcileConserves(db: Db, i: nat, answer: VendorAnswer)
    requires Inv(db) && Conserved(db) && i < |db.txns|
    ensures Conserved(ReconcileRecord(db, db.txns[i], answer).db)
  {
    var row := db.txns[i];
    var out := ReconcileRecord(db, row, answer);
    SettlesExactlyWhenConfirmed(db, row, answer);
    SettlesOwnRow(db, i, answer);
    if out.outcome == OutSettled {
      var data := answer.data.value;
      var credit := Credit(i, row.va, data.paymentId, data.paid.value, row.url);
      CreditAndNotify(db, db.(credits := db.credits + [credit]), credit);
    }
  }

  lemma {:induction false} SelectionConserves(db: Db, ids: seq<nat>, vendor: VendorBook)
    requires Inv(db) && Conserved(db) && PendingSelection(db, ids)
    ensures Conserved(SweepRecords(db, Selected(db.txns, ids), vendor).db)
  {
    if |ids| > 0 {
      var n := |ids| - 1;
      var records := Selected(db.txns, ids);
      assert records[..n] == Selected(db.txns, ids[..n]);
      SelectionConserves(db, ids[..n], vendor);
      RecordStillFresh(db, ids, vendor);
      ReconcileConserves(SweepRecords(db, records[..n], vendor).db, ids[n], AnswerFor(vendor, records[n].va));
      hide Inv, PendingSelection, Conserved, ReconcileRecord;
    }
  }

  lemma StepConserves(db: Db, e: Event)
    requires Inv(db) && Conserved(db)
    ensures Conserved(Step(db, e))
  {
    match e
    case Create(c) =>
    case Inquire(q, now) => InquiryConserves(db, q, now);
    case Pay(p, now) => PaymentConserves(db, p, now);
    case Delete(va) =>
    case ReconcileOne(va, answer) =>
      if Best(db.txns, va).Some? { ReconcileConserves(db, Best(db.txns, va).value, answer); }
    case SweepAll(cutoff, now, limit, vendor) =>
      SelectionConserves(db, ListStalePending(db.txns, cutoff, now, limit), vendor);
  }

  /** In every run the payment callbacks sent are, in order and in content, those owed for the credits
      recorded: a callback without a credit, a credit told twice or not told cannot happen. */
  lemma {:induction false} EveryCreditAnnouncedOnce(run: seq<Event>)
    ensures PaymentCallbacks(Run(EMPTY_DB, run).callbacks) == Announcements(Run(EMPTY_DB, run).credits)
  {
    if |run| > 0 {
      var n := |run| - 1;
      EveryCreditAnnouncedOnce(run[..n]);
      RunKeepsInv(EMPTY_DB, run[..n]);
      StepConserves(Run(EMPTY_DB, run[..n]), run[n]);
    }
  }

  // ---------------------------------------------------------------- replays

  /** The request repeats a payment on file: its pair was flagged, its id settled a row, or its id is an
      instalment of the row that answers for the number. */
  predicate Repeats(db: Db, req: PaymentReq) {
    || Flagged(db, req)
    || FindPaid(db.txns, req.paymentId).Some?
    || (&& !IsNoBillVA(db, req.va) && Best(db.txns, req.va).Some?
        && var k := FindInstalment(db.instalments, req.paymentId);
        k.Some? && db.instalments[k.value].txn == Best(db.txns, req.va).value)
  }

  /** A repeat changes no row, records no credit and sends no callback; an advice gets a success, or the
      flagged answer, and anything else is 4042518. */
  lemma RepeatMovesNothing(db: Db, req: PaymentReq, now: int)
    requires Repeats(db, req) && req.paymentId != "" && req.paid > 0
    ensures var out := Payment(db, req, now);
            && out.db == db.(flags := out.db.flags)
            && (!req.advice ==> out.resp.code == PaymentInconsistent)
            && (req.advice && !Flagged(db, req) ==> out.resp.code == PaymentSuccess)
  {
  }

  /** An instalment of a variable bill under an id another row's instalment already uses. */
  predicate InstalmentIdTaken(db: Db, req: PaymentReq) {
    && !IsNoBillVA(db, req.va) && Best(db.txns, req.va).Some?
    && PaymentBilling(db, db.txns[Best(db.txns, req.va).value]) == Variable
    && FindInstalment(db.instalments, req.paymentId).Some?
  }

  /** A payment records a credit exactly when it is answered 2002500 without repeating a payment on file; the
      credit is the amount tendered, on the number asked for. */
  lemma CreditExactlyWhenAccepted(db: Db, req: PaymentReq, now: int)
    requires Inv(db)
    ensures var out := Payment(db, req, now);
            if out.resp.code == PaymentSuccess && !Repeats(db, req) && !InstalmentIdTaken(db, req) then
              && |out.db.credits| == |db.credits| + 1
              && out.db.credits[..|db.credits|] == db.credits
              && var c := out.db.credits[|db.credits|];
              c.va == req.va && c.paymentId == req.paymentId && c.amount == req.paid
            else out.db.credits == db.credits
  {
    if req.paymentId != "" && req.paid > 0 && !Flagged(db, req) && FindPaid(db.txns, req.paymentId).None?
       && !IsNoBillVA(db, req.va) && Best(db.txns, req.va).Some? {
      PayBilledCredits(db, req, Best(db.txns, req.va).value, now);
    }
  }

  lemma PayBilledCredits(db: Db, req: PaymentReq, b: nat, now: int)
    requires Inv(db) && Best(db.txns, req.va) == Some(b)
    ensures var out := PayBilled(db, req, b, now);
            var k := FindInstalment(db.instalments, req.paymentId);
            if out.resp.code == PaymentSuccess && !(k.Some? && db.instalments[k.value].txn == b)
               && !(k.Some? && PaymentBilling(db, db.txns[b]) == Variable)
            then out.db.credits == db.credits + [Credit(b, req.va, req.paymentId, req.paid, db.txns[b].url)]
            else out.db.credits == db.credits
  {
    if !db.txns[b].IsExpired(now) && db.txns[b].IsPayable() && PaymentBilling(db, db.txns[b]) != Variable {
      SettlementCredits(db, req, b);
    } else if !db.txns[b].IsExpired(now) && db.txns[b].IsPayable() {
      InstalmentCredits(db, req, b);
    }
    MarkExpiredCreditsNothing(db, b);
    hide Inv, PayInstalment, PaySettlement, MarkExpired, FindInstalment, PaymentBilling;
  }

  lemma MarkExpiredCreditsNothing(db: Db, i: nat)
    requires i < |db.txns|
    ensures MarkExpired(db, i).credits == db.credits
  {
  }

  lemma SettlementCredits(db: Db, req: PaymentReq, b: nat)
    requires Inv(db) && b < |db.txns| && db.txns[b].va == req.va
    ensures var out := PaySettlement(db, req, b);
            out.db.credits ==
              if out.resp.code == PaymentSuccess
              then db.credits + [Credit(b, req.va, req.paymentId, req.paid, db.txns[b].url)] else db.credits
    ensures PaySettlement(db, req, b).resp.code in {PaymentSuccess, PaymentInvalidAmt}
  {
    assert FindKey(db.txns, db.txns[b].key) == Some(b);
  }

  lemma InstalmentCredits(db: Db, req: PaymentReq, b: nat)
    requires b < |db.txns| && db.txns[b].va == req.va
    ensures var out := PayInstalment(db, req, b);
            out.db.credits ==
              if out.resp.code == PaymentSuccess && FindInstalment(db.instalments, req.paymentId).None?
              then db.credits + [Credit(b, req.va, req.paymentId, req.paid, db.txns[b].url)] else db.credits
    ensures PayInstalment(db, req, b).resp.code in {PaymentSuccess, PaymentInvalidAmt, PaymentInconsistent}
  {
  }
}

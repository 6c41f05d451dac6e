/** The use cases as they run: calls on the repository, each proved to be the step function of module Steps. */
module Usecases {
  import opened Domain
  import opened Repository
  import T = Tables
  import S = Steps
  import R = Reconciliation

  class VAUsecase {
    const repo: VARepository

    constructor (repo: VARepository)
      ensures this.repo == repo
    {
      this.repo := repo;
    }

    method Notify(va: string, amount: int, url: string)
      modifies repo
      ensures repo.View() == S.Notify(old(repo.View()), va, amount, url)
    {
      if url == "" { return; }
      repo.RecordCallback(PaymentReceived(va, amount, url));
    }

    method AnnounceExpiry(va: string, url: string)
      modifies repo
      ensures repo.View() == S.AnnounceExpiry(old(repo.View()), va, url)
    {
      if url == "" { return; }
      var known := repo.ExpiryAnnounced(va);
      if known { return; }
      repo.RecordCallback(VAExpired(va, url));
    }

    method MarkExpiredAndNotify(row: nat)
      requires row < |repo.txns|
      modifies repo
      ensures repo.View() == S.MarkExpired(old(repo.View()), row)
    {
      var record := repo.txns[row];
      var updated := repo.UpdateVAStatus(record.va, Expired);
      if !updated { return; }
      AnnounceExpiry(record.va, record.url);
    }

    method MarkRegistrationExpiredAndNotify(va: string, account: Account)
      requires va in repo.accounts && repo.accounts[va] == account
      modifies repo
      ensures repo.View() == S.MarkRegistrationExpired(old(repo.View()), va)
    {
      var updated := repo.UpdateVAAccountStatus(va, Lapsed);
      if !updated { return; }
      AnnounceExpiry(va, account.url);
    }

    method InquiryNoBill(req: InquiryReq, account: Account, now: int) returns (code: Code)
      requires req.va in repo.accounts && repo.accounts[req.va] == account
      modifies repo
      ensures S.InquiryOut(repo.View(), code) == S.InquiryNoBill(old(repo.View()), req.va, now)
    {
      if account.IsExpired(now) {
        MarkRegistrationExpiredAndNotify(req.va, account);
        return InquiryExpired;
      }
      if account.status != Active { return InquiryExpired; }
      return InquirySuccess;
    }

    method Inquiry(req: InquiryReq, now: int) returns (code: Code)
      modifies repo
      ensures S.InquiryOut(repo.View(), code) == S.Inquiry(old(repo.View()), req, now)
    {
      var account := repo.GetVAAccount(req.va);
      if account.Some? && account.value.IsNoBill() {
        code := InquiryNoBill(req, account.value, now);
        return;
      }
      var row := repo.GetInquiry(req.inquiryId);
      if row.None? {
        row := repo.GetVAByVirtualAccountNo(req.va);
      }
      if row.None? { return InquiryNotFound; }
      var record := repo.txns[row.value];
      if record.IsExpired(now) {
        MarkExpiredAndNotify(row.value);
        return InquiryExpired;
      }
      match record.status {
        case Settled => if !record.IsPayable() { return InquiryPaidBill; }
        case Deleted => return InquiryNotFound;
        case Pending =>
        case Expired =>
      }
      if record.IsPlaceholder() && req.inquiryId != "" {
        repo.ClaimInquiryRequestID(row.value, req.inquiryId);
      }
      return InquirySuccess;
    }

    method PaymentNoBill(req: PaymentReq, account: Account, now: int) returns (resp: Resp)
      requires req.va in repo.accounts && repo.accounts[req.va] == account
      modifies repo
      ensures S.PayOut(repo.View(), resp) == S.PaymentNoBill(old(repo.View()), req, now)
    {
      if account.IsExpired(now) {
        MarkRegistrationExpiredAndNotify(req.va, account);
        return S.RefuseAccount(req, PaymentExpired);
      }
      if account.status != Active { return S.RefuseAccount(req, PaymentNotFound); }
      if req.paid <= 0 { return Resp(PaymentInvalidAmt, None); }
      var saved := repo.SaveNoBillPayment(S.NoBillTxn(req, account));
      if !saved {
        var existing := repo.GetPaymentByPaymentRequestID(req.paymentId);
        if existing.Some? {
          return Resp(S.ReplayCode(req), Some(S.RecordedData(repo.txns[existing.value])));
        }
        return Resp(PaymentInternal, None);
      }
      Notify(req.va, req.paid, account.url);
      return Resp(PaymentSuccess, Some(S.AcceptedData(req, req.paid).(total := Some(req.paid))));
    }

    /** The payment against the row answering for the number. */
    method PayBilled(req: PaymentReq, account: Option<Account>, row: nat, now: int) returns (resp: Resp)
      requires row < |repo.txns| && repo.txns[row].va == req.va
      requires account == if req.va in repo.accounts then Some(repo.accounts[req.va]) else None
      modifies repo
      ensures S.PayOut(repo.View(), resp) == S.PayBilled(old(repo.View()), req, row, now)
    {
      var record := repo.txns[row];
      var txn, cumulative, found := repo.FindVAInstalment(req.paymentId);
      if found && txn == row {
        return Resp(S.ReplayCode(req), Some(S.AcceptedData(req, cumulative)));
      }
      if record.IsExpired(now) {
        MarkExpiredAndNotify(row);
        return S.Refuse(req, record, PaymentExpired);
      }
      if !record.IsPayable() {
        return S.Refuse(req, record, S.ClosedCode(record.status));
      }
      var billing := if account.Some? then account.value.billing else BillingForVAType(record.vaType);
      if billing == Variable {
        resp := PayInstalment(req, row);
      } else {
        resp := PaySettlement(req, row);
      }
    }

    method PayInstalment(req: PaymentReq, row: nat) returns (resp: Resp)
      requires row < |repo.txns|
      modifies repo
      ensures S.PayOut(repo.View(), resp) == S.PayInstalment(old(repo.View()), req, row)
    {
      var record := repo.txns[row];
      if S.Overpays(record, req.paid) { return Resp(PaymentInvalidAmt, None); }
      var paid, status, recorded := repo.SaveVAPayment(row, req.paymentId, req.paid);
      var code := PaymentSuccess;
      if recorded {
        Notify(req.va, req.paid, record.url);
      } else if !req.advice {
        code := PaymentInconsistent;
      }
      return Resp(code, Some(S.AcceptedData(req, paid)));
    }

    method PaySettlement(req: PaymentReq, row: nat) returns (resp: Resp)
      requires row < |repo.txns|
      modifies repo
      ensures S.PayOut(repo.View(), resp) == S.PaySettlement(old(repo.View()), req, row)
    {
      var record := repo.txns[row];
      if req.paid != record.total { return Resp(PaymentInvalidAmt, None); }
      if req.total.Some? && req.total.value != req.paid { return Resp(PaymentInvalidAmt, None); }
      var orphan := Txn(req.va, record.key, record.trxId, record.url, "", Settled, req.total.GetOr(req.paid),
                        Some(req.paid), req.paymentId, None);
      repo.SavePayment(record.key, req.paid, req.paymentId, orphan);
      Notify(req.va, req.paid, record.url);
      return Resp(PaymentSuccess, Some(S.AcceptedData(req, req.paid)));
    }

    method Decide(req: PaymentReq, now: int) returns (resp: Resp)
      modifies repo
      ensures S.PayOut(repo.View(), resp) == S.Decide(old(repo.View()), req, now)
    {
      var existing := repo.GetPaymentByPaymentRequestID(req.paymentId);
      if existing.Some? {
        return Resp(S.ReplayCode(req), Some(S.RecordedData(repo.txns[existing.value])));
      }
      var account := repo.GetVAAccount(req.va);
      if account.Some? && account.value.IsNoBill() {
        resp := PaymentNoBill(req, account.value, now);
        return;
      }
      var row := repo.GetVAByVirtualAccountNo(req.va);
      if row.None? { return S.RefuseAccount(req, PaymentNotFound); }
      resp := PayBilled(req, account, row.value, now);
    }

    method RecordPaymentFlag(req: PaymentReq, resp: Resp)
      modifies repo
      ensures repo.View() == S.RecordOutcome(old(repo.View()), req, resp)
    {
      if req.externalId == "" || req.paymentId == "" { return; }
      if resp.code.Is5xx() { return; }
      repo.RecordPaymentFlag(FlagKey(req.externalId, req.paymentId), Flag(resp.code, resp.data.GetOr(BLANK_DATA)));
    }

    /** The payment endpoint: request checks, the double-flag guard, then the decision. */
    method Payment(req: PaymentReq, now: int) returns (resp: Resp)
      modifies repo
      ensures S.PayOut(repo.View(), resp) == S.Payment(old(repo.View()), req, now)
    {
      if req.paymentId == "" { return Resp(PaymentBadField, None); }
      if req.paid <= 0 { return Resp(PaymentInvalidAmt, None); }
      if req.externalId != "" {
        var flag := repo.FindPaymentFlag(FlagKey(req.externalId, req.paymentId));
        if flag.Some? { return S.ReplayFlag(req, flag.value); }
      }
      resp := Decide(req, now);
      RecordPaymentFlag(req, resp);
    }
  }

  class MerchantVAUsecase {
    const repo: VARepository

    constructor (repo: VARepository)
      ensures this.repo == repo
    {
      this.repo := repo;
    }

    method CreateNumbered(c: CreateReq, customerNo: string, va: string) returns (code: CreateCode)
      modifies repo
      ensures S.CreateOut(repo.View(), code) == S.CreateNumbered(old(repo.View()), c, customerNo, va)
    {
      if c.Managed() && !S.IsDynamic(c) && !S.CreatesNoBill(c) {
        var taken := repo.CustomerRegistered(c.partner, customerNo);
        if taken { return CreateDuplicate; }
      }
      if c.Managed() {
        var saved := repo.SaveVAAccount(va, S.NewAccount(c, customerNo));
        if !saved { return CreateFailed; }
      }
      if S.CreatesNoBill(c) { return Created; }
      var existing := repo.GetVAByVirtualAccountNo(va);
      if existing.Some? && repo.txns[existing.value].status == Pending { return CreatePending; }
      var stored := repo.SaveInquiry(c.partner, customerNo, S.NewBill(c, va));
      return if stored then Created else CreateFailed;
    }

    method CreateVA(c: CreateReq) returns (code: CreateCode)
      modifies repo
      ensures S.CreateOut(repo.View(), code) == S.CreateVA(old(repo.View()), c)
    {
      if !S.CreateFieldsValid(c) { return CreateInvalid; }
      match S.Number(c) {
        case NumberInvalid => return CreateInvalid;
        case NumberUnavailable => return CreateFailed;
        case Numbered(customerNo, va) => code := CreateNumbered(c, customerNo, va);
      }
    }

    method DeleteVA(va: string) returns (code: DeleteCode)
      modifies repo
      ensures S.DeleteOut(repo.View(), code) == S.DeleteVA(old(repo.View()), va)
    {
      var account := repo.GetVAAccount(va);
      if account.Some? && account.value.IsNoBill() {
        var _ := repo.UpdateVAAccountStatus(va, Inactive);
        return DeleteOk;
      }
      var row := repo.GetVAByVirtualAccountNo(va);
      if row.None? { return DeleteNotFound; }
      match repo.txns[row.value].status {
        case Pending =>
          var _ := repo.UpdateVAStatus(va, Deleted);
          return DeleteOk;
        case Deleted => return DeleteOk;
        case Settled => return DeleteRefused;
        case Expired => return DeleteRefused;
      }
    }
  }

  class ReconciliationUsecase {
    const repo: VARepository
    const va: VAUsecase

    constructor (repo: VARepository, va: VAUsecase)
      requires va.repo == repo
      ensures this.repo == repo && this.va == va
    {
      this.repo, this.va := repo, va;
    }

    predicate Wired() {
      va.repo == repo
    }

    method Settle(record: Txn, data: VendorData) returns (outcome: Outcome)
      requires Wired()
      modifies repo
      ensures S.ReconcileOut(repo.View(), outcome) == S.Settle(old(repo.View()), record, data)
    {
      if data.paid.None? { return OutError; }
      assert !T.AnyPending(repo.txns, record.va) ==>
          T.SettleCredits(repo.txns, record.va, data.paid.value, data.paymentId) == [] by {
        if !T.AnyPending(repo.txns, record.va) {
          R.SettleCreditsNone(repo.txns, record.va, data.paid.value, data.paymentId);
        }
      }
      var settled := repo.SettlePendingFromVendor(record.va, data.paid.value, data.paymentId);
      if !settled { return OutAlreadySettled; }
      va.Notify(record.va, data.paid.value, record.url);
      return OutSettled;
    }

    method ReconcileRecord(record: Txn, answer: VendorAnswer) returns (outcome: Outcome)
      requires Wired()
      modifies repo
      ensures S.ReconcileOut(repo.View(), outcome) == S.ReconcileRecord(old(repo.View()), record, answer)
    {
      if record.status != Pending {
        outcome := OutAlreadySettled;
      } else if record.IsPlaceholder() {
        outcome := OutNotPaid;
      } else if answer.NoAnswer? || answer.data.None? {
        outcome := OutError;
      } else {
        outcome := S.ClassifyVendorStatus(answer.code, answer.data.value.flag);
        if outcome == OutSettled {
          outcome := Settle(record, answer.data.value);
        }
      }
      repo.CreateStatusInquiryAttempt(Attempt(record.va, outcome));
    }

    method Reconcile(number: string, answer: VendorAnswer) returns (outcome: Option<Outcome>)
      requires Wired()
      modifies repo
      ensures var out := S.Reconcile(old(repo.View()), number, answer);
              if out.None? then outcome == None && repo.View() == old(repo.View())
              else outcome == Some(out.value.outcome) && repo.View() == out.value.db
    {
      var row := repo.GetVAByVirtualAccountNo(number);
      if row.None? { return None; }
      var o := ReconcileRecord(repo.txns[row.value], answer);
      return Some(o);
    }

    /** Selects the stale records once, then works through them; no record's failure stops the run. */
    method Sweep(cutoff: nat, now: int, limit: nat, vendor: S.VendorBook) returns (results: seq<Outcome>, settled: nat)
      requires Wired()
      modifies repo
      ensures S.SweepOut(repo.View(), results) == S.Sweep(old(repo.View()), cutoff, now, limit, vendor)
      ensures settled == |OnlySettled(results)|
    {
      var rows := repo.ListStalePendingTransactions(cutoff, now, limit);
      var stale := S.Selected(repo.txns, rows);
      results, settled := [], 0;
      var k := 0;
      while k < |stale|
        invariant k <= |stale|
        invariant S.SweepOut(repo.View(), results) == S.SweepRecords(old(repo.View()), stale[..k], vendor)
        invariant settled == |OnlySettled(results)|
      {
        var outcome := ReconcileRecord(stale[k], S.AnswerFor(vendor, stale[k].va));
        assert stale[..k + 1][..k] == stale[..k];
        assert (results + [outcome])[..|results|] == results;
        if outcome == OutSettled {
          settled := settled + 1;
        }
        results := results + [outcome];
        k := k + 1;
      }
      assert stale[..k] == stale;
    }
  }

  function OnlySettled(results: seq<Outcome>): seq<Outcome> {
    if |results| == 0 then []
    else
      var n := |results| - 1;
      OnlySettled(results[..n]) + if results[n] == OutSettled then [OutSettled] else []
  }
}

/** The use cases as step functions: what one call answers and the tables it leaves. */
module Steps {
  import opened Domain
  import opened Tables

  const MAX_ISSUED_CUSTOMER_NO := 18
  const MAX_ISSUED_VA_NO := 26

  predicate IsNoBillVA(db: Db, va: string) {
    va in db.accounts && db.accounts[va].IsNoBill()
  }

  function Notify(db: Db, va: string, amount: int, url: string): Db {
    if url == "" then db else db.(callbacks := db.callbacks + [PaymentReceived(va, amount, url)])
  }

  function AnnounceExpiry(db: Db, va: string, url: string): Db {
    if url == "" || ExpiryAnnounced(db.callbacks, va) then db
    else db.(callbacks := db.callbacks + [VAExpired(va, url)])
  }

  /** Expires the pending rows of the number row `i` belongs to; announces it if a row changed. */
  function MarkExpired(db: Db, i: nat): Db
    requires i < |db.txns|
  {
    var row := db.txns[i];
    if !AnyPending(db.txns, row.va) then db
    else AnnounceExpiry(db.(txns := UpdateVAStatus(db.txns, row.va, Expired)), row.va, row.url)
  }

  function MarkRegistrationExpired(db: Db, va: string): Db
    requires va in db.accounts
  {
    var account := db.accounts[va];
    if account.status != Active then db
    else AnnounceExpiry(db.(accounts := UpdateVAAccountStatus(db.accounts, va, Lapsed)), va, account.url)
  }

  // ---------------------------------------------------------------- inquiry

  datatype InquiryOut = InquiryOut(db: Db, code: Code)

  function InquiryNoBill(db: Db, va: string, now: int): InquiryOut
    requires va in db.accounts
  {
    var account := db.accounts[va];
    if account.IsExpired(now) then InquiryOut(MarkRegistrationExpired(db, va), InquiryExpired)
    else if account.status != Active then InquiryOut(db, InquiryExpired)
    else InquiryOut(db, InquirySuccess)
  }

  function ResolveInquiry(db: Db, req: InquiryReq): (r: Option<nat>)
    ensures r.Some? ==> r.value < |db.txns|
  {
    match FindKey(db.txns, Vendor(req.inquiryId))
    case Some(i) => Some(i)
    case None => Best(db.txns, req.va)
  }

  function InquiryBilled(db: Db, req: InquiryReq, i: nat, now: int): InquiryOut
    requires i < |db.txns|
  {
    var row := db.txns[i];
    if row.IsExpired(now) then InquiryOut(MarkExpired(db, i), InquiryExpired)
    else if row.status == Settled && !row.IsPayable() then InquiryOut(db, InquiryPaidBill)
    else if row.status == Deleted then InquiryOut(db, InquiryNotFound)
    else if row.IsPlaceholder() && req.inquiryId != "" then
      InquiryOut(db.(txns := ClaimInquiryRequestID(db.txns, i, req.inquiryId)), InquirySuccess)
    else InquiryOut(db, InquirySuccess)
  }

  function Inquiry(db: Db, req: InquiryReq, now: int): InquiryOut {
    if IsNoBillVA(db, req.va) then InquiryNoBill(db, req.va, now)
    else
      match ResolveInquiry(db, req)
      case Some(i) => InquiryBilled(db, req, i, now)
      case None => InquiryOut(db, InquiryNotFound)
  }

  // ---------------------------------------------------------------- payment

  datatype PayOut = PayOut(db: Db, resp: Resp)

  function RecordedData(row: Txn): PayData {
    PayData(row.va, row.paymentId, Some(row.Paid()), Some(row.total), FlagAccepted, ReasonForCode(PaymentSuccess))
  }

  function AcceptedData(req: PaymentReq, paid: int): PayData {
    PayData(req.va, req.paymentId, Some(paid), Some(req.total.GetOr(req.paid)), FlagAccepted,
            ReasonForCode(PaymentSuccess))
  }

  function RefusedData(req: PaymentReq, paid: Option<int>, total: Option<int>, code: Code): PayData {
    PayData(req.va, req.paymentId, paid, total, FlagStatusForCode(code), ReasonForCode(code))
  }

  /** A replay is a success for an advice request and a double flag otherwise. */
  function ReplayCode(req: PaymentReq): Code {
    if req.advice then PaymentSuccess else PaymentInconsistent
  }

  /** A refusal that describes the stored row; only "Paid Bill" names a settled amount. */
  function Refuse(req: PaymentReq, row: Txn, code: Code): Resp {
    var paid := if code == PaymentPaidBill && row.Paid() != 0 then Some(row.Paid()) else None;
    Resp(code, Some(RefusedData(req, paid, Some(row.total), code).(va := row.va)))
  }

  function RefuseAccount(req: PaymentReq, code: Code): Resp {
    Resp(code, Some(RefusedData(req, None, None, code)))
  }

  function ClosedCode(status: Status): Code {
    match status
    case Settled => PaymentPaidBill
    case Expired => PaymentExpired
    case Deleted => PaymentNotFound
    case Pending => PaymentConflict
  }

  function NoBillTxn(req: PaymentReq, a: Account): Txn {
    Txn(req.va, Vendor(req.paymentId), a.trxId, a.url, a.vaType, Settled, req.paid, Some(req.paid),
        req.paymentId, None)
  }

  function PaymentNoBill(db: Db, req: PaymentReq, now: int): PayOut
    requires req.va in db.accounts
  {
    var account := db.accounts[req.va];
    if account.IsExpired(now) then PayOut(MarkRegistrationExpired(db, req.va), RefuseAccount(req, PaymentExpired))
    else if account.status != Active then PayOut(db, RefuseAccount(req, PaymentNotFound))
    else if req.paid <= 0 then PayOut(db, Resp(PaymentInvalidAmt, None))
    else
      match SaveNoBillPayment(db, NoBillTxn(req, account))
      case Some(saved) =>
        PayOut(Notify(saved, req.va, req.paid, account.url),
               Resp(PaymentSuccess, Some(AcceptedData(req, req.paid).(total := Some(req.paid)))))
      case None =>
        match FindPaid(db.txns, req.paymentId)
        case Some(i) => PayOut(db, Resp(ReplayCode(req), Some(RecordedData(db.txns[i]))))
        case None => PayOut(db, Resp(PaymentInternal, None))
  }

  /** The registration's billing class, else the one the row's VA type implies. */
  function PaymentBilling(db: Db, row: Txn): Billing {
    if row.va in db.accounts then db.accounts[row.va].billing else BillingForVAType(row.vaType)
  }

  predicate Overpays(row: Txn, tendered: int) {
    row.total > 0 && row.Paid() + tendered > row.total
  }

  function PayInstalment(db: Db, req: PaymentReq, b: nat): PayOut
    requires b < |db.txns|
  {
    var row := db.txns[b];
    if Overpays(row, req.paid) then PayOut(db, Resp(PaymentInvalidAmt, None))
    else
      var saved := SaveVAPayment(db, b, req.paymentId, req.paid);
      var data := AcceptedData(req, saved.txns[b].Paid());
      if FindInstalment(db.instalments, req.paymentId).None? then
        PayOut(Notify(saved, req.va, req.paid, row.url), Resp(PaymentSuccess, Some(data)))
      else PayOut(saved, Resp(ReplayCode(req), Some(data)))
  }

  function PaySettlement(db: Db, req: PaymentReq, b: nat): PayOut
    requires b < |db.txns|
  {
    var row := db.txns[b];
    if req.paid != row.total || req.total.GetOr(req.paid) != req.paid then
      PayOut(db, Resp(PaymentInvalidAmt, None))
    else
      var orphan := Txn(req.va, row.key, row.trxId, row.url, "", Settled, req.total.GetOr(req.paid),
                        Some(req.paid), req.paymentId, None);
      var saved := SavePayment(db, row.key, req.paid, req.paymentId, orphan);
      PayOut(Notify(saved, req.va, req.paid, row.url), Resp(PaymentSuccess, Some(AcceptedData(req, req.paid))))
  }

  function PayBilled(db: Db, req: PaymentReq, b: nat, now: int): PayOut
    requires b < |db.txns|
  {
    var row := db.txns[b];
    var onFile := FindInstalment(db.instalments, req.paymentId);
    if onFile.Some? && db.instalments[onFile.value].txn == b then
      PayOut(db, Resp(ReplayCode(req), Some(AcceptedData(req, InstalmentSum(db.instalments, b)))))
    else if row.IsExpired(now) then PayOut(MarkExpired(db, b), Refuse(req, row, PaymentExpired))
    else if !row.IsPayable() then PayOut(db, Refuse(req, row, ClosedCode(row.status)))
    else if PaymentBilling(db, row) == Variable then PayInstalment(db, req, b)
    else PaySettlement(db, req, b)
  }

  /** The payment decision tree, without the double-flag guard. */
  function Decide(db: Db, req: PaymentReq, now: int): PayOut {
    match FindPaid(db.txns, req.paymentId)
    case Some(i) => PayOut(db, Resp(ReplayCode(req), Some(RecordedData(db.txns[i]))))
    case None =>
      if IsNoBillVA(db, req.va) then PaymentNoBill(db, req, now)
      else
        match Best(db.txns, req.va)
        case None => PayOut(db, RefuseAccount(req, PaymentNotFound))
        case Some(b) => PayBilled(db, req, b, now)
  }

  /** The answer to a pair already flagged. */
  function ReplayFlag(req: PaymentReq, flag: Flag): Resp {
    Resp(if req.advice then flag.code else PaymentInconsistent, Some(flag.data))
  }

  function RecordOutcome(db: Db, req: PaymentReq, resp: Resp): Db {
    if req.externalId == "" || req.paymentId == "" || resp.code.Is5xx() then db
    else db.(flags := RecordPaymentFlag(db.flags, FlagKey(req.externalId, req.paymentId),
                                        Flag(resp.code, resp.data.GetOr(BLANK_DATA))))
  }

  predicate Flagged(db: Db, req: PaymentReq) {
    req.externalId != "" && req.paymentId != "" && FlagKey(req.externalId, req.paymentId) in db.flags
  }

  /** Payment, behind the request checks that decide its amount and its id. */
  function Payment(db: Db, req: PaymentReq, now: int): PayOut {
    if req.paymentId == "" then PayOut(db, Resp(PaymentBadField, None))
    else if req.paid <= 0 then PayOut(db, Resp(PaymentInvalidAmt, None))
    else if Flagged(db, req) then PayOut(db, ReplayFlag(req, db.flags[FlagKey(req.externalId, req.paymentId)]))
    else
      var out := Decide(db, req, now);
      PayOut(RecordOutcome(out.db, req, out.resp), out.resp)
  }

  /** paymentFlagStatus and paymentFlagReason as the handler puts them on the wire. */
  function WireStatus(resp: Resp): FlagStatus {
    if resp.data.Some? && resp.data.value.flag != FlagUnset then resp.data.value.flag
    else FlagStatusForCode(resp.code)
  }

  function WireReason(resp: Resp): Reason {
    if resp.data.Some? && resp.data.value.flag != FlagUnset then resp.data.value.reason
    else ReasonForCode(resp.code)
  }

  // ---------------------------------------------------------------- merchant side

  datatype CreateOut = CreateOut(db: Db, code: CreateCode)

  /** The VA number CreateVA uses, or None when the number is refused or cannot be generated. */
  datatype Numbering = Numbered(customerNo: string, vaNo: string) | NumberInvalid | NumberUnavailable

  predicate CreateFieldsValid(c: CreateReq) {
    && c.partner != "" && c.trxId != ""
    && (!c.Managed() ==> c.customerNo != "" && c.vaNo != "")
    && (c.Managed() ==>
          && c.rule.Some?
          && (c.rule.value.dynamic ==> c.customerNo == "")
          && (!c.rule.value.dynamic ==> c.customerNo != "" && c.vaNo != "")
          && (c.rule.value.billing == NoBill <==> c.total.None?))
    && |c.vaNo| <= MAX_ISSUED_VA_NO && |c.customerNo| <= MAX_ISSUED_CUSTOMER_NO
  }

  predicate IsDynamic(c: CreateReq) {
    c.Managed() && c.rule.Some? && c.rule.value.dynamic
  }

  predicate CreatesNoBill(c: CreateReq) {
    c.Managed() && c.rule.Some? && c.rule.value.billing == NoBill
  }

  function Number(c: CreateReq): Numbering {
    if IsDynamic(c) then
      if c.generated.None? then NumberUnavailable
      else if c.vaNo != "" then Numbered(c.generated.value, c.vaNo)
      else if |c.partner + c.generated.value| > MAX_ISSUED_VA_NO then NumberInvalid
      else Numbered(c.generated.value, c.partner + c.generated.value)
    else if c.vaNo != c.partner + c.customerNo then NumberInvalid
    else Numbered(c.customerNo, c.vaNo)
  }

  function NewAccount(c: CreateReq, customerNo: string): Account {
    Account(c.partner, customerNo, c.vaType, if c.rule.Some? then c.rule.value.billing else Unclassified,
            c.trxId, c.url, Active, c.expires)
  }

  function NewBill(c: CreateReq, va: string): Txn {
    Txn(va, Placeholder(va), c.trxId, c.url, c.vaType, Pending, c.total.GetOr(0), None, "", c.expires)
  }

  /** The last part of CreateVA: an open bill blocks the number, otherwise the bill is written. */
  function OpenBill(db: Db, c: CreateReq, customerNo: string, va: string): CreateOut {
    var existing := Best(db.txns, va);
    if existing.Some? && db.txns[existing.value].status == Pending then CreateOut(db, CreatePending)
    else
      match StoreInquiry(db.txns, c.partner, customerNo, NewBill(c, va))
      case Some(txns) => CreateOut(db.(txns := txns), Created)
      case None => CreateOut(db, CreateFailed)
  }

  function CreateNumbered(db: Db, c: CreateReq, customerNo: string, va: string): CreateOut {
    if c.Managed() && !IsDynamic(c) && !CreatesNoBill(c) && CustomerRegistered(db.accounts, c.partner, customerNo)
    then CreateOut(db, CreateDuplicate)
    else
      var registered :=
        if c.Managed() then StoreAccount(db.accounts, va, NewAccount(c, customerNo)) else Some(db.accounts);
      if registered.None? then CreateOut(db, CreateFailed)
      else if CreatesNoBill(c) then CreateOut(db.(accounts := registered.value), Created)
      else OpenBill(db.(accounts := registered.value), c, customerNo, va)
  }

  function CreateVA(db: Db, c: CreateReq): CreateOut {
    if !CreateFieldsValid(c) then CreateOut(db, CreateInvalid)
    else
      match Number(c)
      case NumberInvalid => CreateOut(db, CreateInvalid)
      case NumberUnavailable => CreateOut(db, CreateFailed)
      case Numbered(customerNo, va) => CreateNumbered(db, c, customerNo, va)
  }

  datatype DeleteOut = DeleteOut(db: Db, code: DeleteCode)

  function DeleteVA(db: Db, va: string): DeleteOut {
    if IsNoBillVA(db, va) then
      DeleteOut(db.(accounts := UpdateVAAccountStatus(db.accounts, va, Inactive)), DeleteOk)
    else
      match Best(db.txns, va)
      case None => DeleteOut(db, DeleteNotFound)
      case Some(b) =>
        match db.txns[b].status
        case Pending => DeleteOut(db.(txns := UpdateVAStatus(db.txns, va, Deleted)), DeleteOk)
        case Deleted => DeleteOut(db, DeleteOk)
        case Settled => DeleteOut(db, DeleteRefused)
        case Expired => DeleteOut(db, DeleteRefused)
  }

  // ---------------------------------------------------------------- reconciliation

  datatype ReconcileOut = ReconcileOut(db: Db, outcome: Outcome)

  function ClassifyVendorStatus(code: VendorCode, flag: VendorFlag): Outcome {
    if code == StatusNotFound then OutNotPaid
    else if code != StatusSuccess then OutError
    else
      match flag
      case VFlag00 => OutSettled
      case VFlag02 => OutSettled
      case VFlag03 => OutPending
      case VFlag01 => OutNotPaid
      case VFlagOther => OutNotPaid
  }

  function Audit(db: Db, va: string, outcome: Outcome): Db {
    db.(attempts := db.attempts + [Attempt(va, outcome)])
  }

  /** Applies a settlement the vendor confirmed for `record`. */
  function Settle(db: Db, record: Txn, data: VendorData): ReconcileOut {
    if data.paid.None? then ReconcileOut(db, OutError)
    else if !AnyPending(db.txns, record.va) then ReconcileOut(db, OutAlreadySettled)
    else
      var saved := SettlePendingFromVendor(db, record.va, data.paid.value, data.paymentId);
      ReconcileOut(Notify(saved, record.va, data.paid.value, record.url), OutSettled)
  }

  /** The decision for one transaction as it was read, before the audit row. */
  function ReconcileDecision(db: Db, record: Txn, answer: VendorAnswer): ReconcileOut {
    if record.status != Pending then ReconcileOut(db, OutAlreadySettled)
    else if record.IsPlaceholder() then ReconcileOut(db, OutNotPaid)
    else if answer.NoAnswer? || answer.data.None? then ReconcileOut(db, OutError)
    else
      var outcome := ClassifyVendorStatus(answer.code, answer.data.value.flag);
      if outcome != OutSettled then ReconcileOut(db, outcome)
      else Settle(db, record, answer.data.value)
  }

  function ReconcileRecord(db: Db, record: Txn, answer: VendorAnswer): ReconcileOut {
    var out := ReconcileDecision(db, record, answer);
    out.(db := Audit(out.db, record.va, out.outcome))
  }

  /** Reconcile on demand; None when the number has no row. */
  function Reconcile(db: Db, va: string, answer: VendorAnswer): Option<ReconcileOut> {
    match Best(db.txns, va)
    case None => None
    case Some(b) => Some(ReconcileRecord(db, db.txns[b], answer))
  }

  /** What the vendor answers about each number during one sweep. */
  type VendorBook = map<string, VendorAnswer>

  function AnswerFor(vendor: VendorBook, va: string): VendorAnswer {
    if va in vendor then vendor[va] else NoAnswer
  }

  datatype SweepOut = SweepOut(db: Db, results: seq<Outcome>)

  /** The sweep over the records as they were selected, in order. */
  function SweepRecords(db: Db, records: seq<Txn>, vendor: VendorBook): SweepOut {
    if |records| == 0 then SweepOut(db, [])
    else
      var n := |records| - 1;
      var before := SweepRecords(db, records[..n], vendor);
      var out := ReconcileRecord(before.db, records[n], AnswerFor(vendor, records[n].va));
      SweepOut(out.db, before.results + [out.outcome])
  }

  function Selected(txns: seq<Txn>, ids: seq<nat>): (r: seq<Txn>)
    requires forall k :: 0 <= k < |ids| ==> ids[k] < |txns|
    ensures |r| == |ids|
    ensures forall k :: 0 <= k < |ids| ==> r[k] == txns[ids[k]]
  {
    seq(|ids|, k requires 0 <= k < |ids| => txns[ids[k]])
  }

  function Candidates(txns: seq<Txn>, cutoff: nat, now: int, limit: nat): seq<Txn> {
    Selected(txns, ListStalePending(txns, cutoff, now, limit))
  }

  function Sweep(db: Db, cutoff: nat, now: int, limit: nat, vendor: VendorBook): SweepOut {
    SweepRecords(db, Candidates(db.txns, cutoff, now, limit), vendor)
  }

  // ---------------------------------------------------------------- runs

  datatype Event =
    | Create(c: CreateReq)
    | Inquire(q: InquiryReq, now: int)
    | Pay(p: PaymentReq, now: int)
    | Delete(va: string)
    | ReconcileOne(va: string, answer: VendorAnswer)
    | SweepAll(cutoff: nat, now: int, limit: nat, vendor: VendorBook)

  function Step(db: Db, e: Event): Db {
    match e
    case Create(c) => CreateVA(db, c).db
    case Inquire(q, now) => Inquiry(db, q, now).db
    case Pay(p, now) => Payment(db, p, now).db
    case Delete(va) => DeleteVA(db, va).db
    case ReconcileOne(va, answer) =>
      (match Reconcile(db, va, answer)
       case None => db
       case Some(out) => out.db)
    case SweepAll(cutoff, now, limit, vendor) => Sweep(db, cutoff, now, limit, vendor).db
  }

  /** The tables after the calls of `run`, one after the other. */
  function Run(db: Db, run: seq<Event>): Db {
    if |run| == 0 then db else Step(Run(db, run[..|run| - 1]), run[|run| - 1])
  }
}

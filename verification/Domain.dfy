/** Rows, requests and answers of the virtual-account services.

    Amounts are whole cents: the columns are NUMERIC(16,2), and module Money shows that
    the program's floating-point comparisons decide exactly the comparisons on cents.
    Times are integers. A `string` field that the schema leaves NULL holds "". */
module Domain {

  datatype Option<+T> = None | Some(value: T)
  {
    function GetOr(fallback: T): T {
      if Some? then value else fallback
    }
  }

  /** va_transactions.status: "00", "02", "03" and "04". */
  datatype Status = Settled | Expired | Pending | Deleted

  datatype Billing = NoBill | Variable | Fixed | Unclassified

  /** va_accounts.status: ACTIVE, INACTIVE and EXPIRED. */
  datatype AccountStatus = Active | Inactive | Lapsed

  /** va_transactions.inquiry_request_id. The column is one string; the two constructors
      separate the VA number CreateVA writes from an id the vendor sent, so an id issued by
      the vendor never equals a VA number. */
  datatype Key = Placeholder(va: string) | Vendor(id: string)

  /** One va_transactions row. The row's id is its position in the table, which is also its
      created_at order: rows are only ever appended, and created_at is never updated. */
  datatype Txn = Txn(va: string, key: Key, trxId: string, url: string, vaType: string,
                     status: Status, total: int, paid: Option<int>, paymentId: string,
                     expires: Option<int>)
  {
    /** COALESCE(paid_amount, 0). */
    function Paid(): int {
      paid.GetOr(0)
    }

    predicate IsVariableBill() {
      vaType == "02" || vaType == "05"
    }

    /** Whether the row can still take a payment. */
    predicate IsPayable() {
      if status == Pending then true
      else if status != Settled || !IsVariableBill() then false
      else Paid() < total
    }

    predicate PastExpiry(now: int) {
      expires.Some? && now > expires.value
    }

    predicate IsExpired(now: int) {
      status == Expired || (status == Pending && PastExpiry(now))
    }

    /** Whether the first inquiry that arrives may replace the row's key. */
    predicate IsPlaceholder() {
      match key
      case Placeholder(v) => v == va
      case Vendor(id) => id == "" || (trxId != "" && id == trxId)
    }

    /** The CASE expression of the ORDER BY that picks the row answering for a VA number. */
    function SqlRank(): nat {
      if status == Pending then 0
      else if status == Settled && vaType in ["02", "05"] && Paid() < total then 0
      else 1
    }
  }

  /** One va_accounts row. */
  datatype Account = Account(partner: string, customerNo: string, vaType: string, billing: Billing,
                             trxId: string, url: string, status: AccountStatus, expires: Option<int>)
  {
    predicate IsNoBill() {
      billing == NoBill
    }

    predicate IsExpired(now: int) {
      status == Lapsed || (expires.Some? && now > expires.value)
    }
  }

  /** One va_payments row; `txn` is the row it pays. */
  datatype Instalment = Instalment(txn: nat, paymentId: string, amount: int)

  /** The billing class of a row that has no registration. */
  function BillingForVAType(vaType: string): Billing {
    if vaType == "01" || vaType == "04" then NoBill
    else if vaType == "02" || vaType == "05" then Variable
    else if vaType == "03" || vaType == "06" then Fixed
    else Unclassified
  }

  /** Response codes of the inquiry (24xx) and payment (25xx) services. */
  datatype Code =
    | InquirySuccess      // 2002400
    | InquiryNotFound     // 4042412
    | InquiryPaidBill     // 4042414
    | InquiryExpired      // 4042419
    | PaymentSuccess      // 2002500
    | PaymentNotFound     // 4042512
    | PaymentInvalidAmt   // 4042513
    | PaymentPaidBill     // 4042514
    | PaymentInconsistent // 4042518
    | PaymentExpired      // 4042519
    | PaymentConflict     // 4092500
    | PaymentBadField     // 40025xx, refused before the use case runs
    | PaymentInternal     // 5002500
  {
    predicate Is5xx() {
      PaymentInternal?
    }
  }

  /** paymentFlagStatus: absent, "00" or "01". */
  datatype FlagStatus = FlagUnset | FlagAccepted | FlagRejected

  function FlagStatusForCode(code: Code): FlagStatus {
    if code == InquirySuccess || code == PaymentSuccess then FlagAccepted else FlagRejected
  }

  /** paymentFlagReason, named by the entry of the reason table it is taken from. */
  datatype Reason = NoReason | ReasonOf(code: Code) | GenericRejection

  function ReasonForCode(code: Code): Reason {
    if code in {PaymentInconsistent, PaymentBadField, PaymentInternal} then GenericRejection else ReasonOf(code)
  }

  /** The part of PaymentResponse.virtualAccountData that depends on the ledger. */
  datatype PayData = PayData(va: string, paymentId: string, paid: Option<int>, total: Option<int>,
                             flag: FlagStatus, reason: Reason)

  /** What an empty JSON object decodes to. */
  const BLANK_DATA := PayData("", "", None, None, FlagUnset, NoReason)

  datatype Resp = Resp(code: Code, data: Option<PayData>)

  /** One va_payment_flags row, without its key. */
  datatype Flag = Flag(code: Code, data: PayData)

  datatype FlagKey = FlagKey(externalId: string, paymentId: string)

  datatype PaymentReq = PaymentReq(externalId: string, paymentId: string, va: string, paid: int,
                                   total: Option<int>, advice: bool)

  datatype InquiryReq = InquiryReq(va: string, inquiryId: string)

  /** One row of master_va_type, as far as CreateVA reads it. */
  datatype TypeRule = TypeRule(dynamic: bool, billing: Billing)

  /** A create-va request with the answers of its collaborators: `reserved` and `rule` come from
      the VA-type provider, `generated` from the customer-number generator (None = unavailable). */
  datatype CreateReq = CreateReq(partner: string, customerNo: string, vaNo: string, trxId: string,
                                 url: string, expires: Option<int>, total: Option<int>, vaType: string,
                                 reserved: bool, rule: Option<TypeRule>, generated: Option<string>)
  {
    predicate Managed() {
      vaType != "" || reserved
    }
  }

  datatype CreateCode =
    | Created          // 2002700
    | CreateInvalid    // 40027xx
    | CreateDuplicate  // 4092701, customerNo already registered
    | CreatePending    // 4092700, an open bill blocks the number
    | CreateFailed     // 50027xx

  datatype DeleteCode =
    | DeleteOk         // 2003100
    | DeleteNotFound   // 4043112
    | DeleteRefused    // 4053101

  /** The vendor's answer to a status inquiry. */
  datatype VendorAnswer = NoAnswer | Answer(code: VendorCode, data: Option<VendorData>)
  datatype VendorCode = StatusSuccess /* 2002600 */ | StatusNotFound /* 4042601 */ | StatusOther
  datatype VendorFlag = VFlag00 | VFlag01 | VFlag02 | VFlag03 | VFlagOther
  /** `paid` is None when the amount is missing or empty. */
  datatype VendorData = VendorData(flag: VendorFlag, paid: Option<int>, paymentId: string)

  datatype Outcome = OutSettled | OutPending | OutNotPaid | OutAlreadySettled | OutError

  /** One va_status_inquiry_attempts row. */
  datatype Attempt = Attempt(va: string, outcome: Outcome)

  /** An automatic row of va_notification_deliveries: the callback it dispatched. */
  datatype Callback = PaymentReceived(va: string, amount: int, url: string) | VAExpired(va: string, url: string)

  /** History of the money the repository recorded: one entry per write that settles a bill, adds an
      instalment, inserts a no-bill payment or applies a vendor settlement. `url` is the row's own. */
  datatype Credit = Credit(row: nat, va: string, paymentId: string, amount: int, url: string)

  /** Every table the ledger uses. */
  datatype Db = Db(txns: seq<Txn>, instalments: seq<Instalment>, accounts: map<string, Account>,
                   flags: map<FlagKey, Flag>, callbacks: seq<Callback>, attempts: seq<Attempt>,
                   credits: seq<Credit>)

  const EMPTY_DB := Db([], [], map[], map[], [], [], [])
}

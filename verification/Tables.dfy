/** The SQL statements of the repository as functions on the tables. */
module Tables {
  import opened Domain

  /** The row a pending-guarded statement for `va` touches. */
  predicate Pends(t: Txn, va: string) {
    t.va == va && t.status == Pending
  }

  predicate AnyPending(txns: seq<Txn>, va: string) {
    exists i :: 0 <= i < |txns| && Pends(txns[i], va)
  }

  /** ORDER BY rank, created_at DESC LIMIT 1 among the rows of `va`: the newest payable row, else the newest row. */
  function Best(txns: seq<Txn>, va: string): (r: Option<nat>)
    ensures r.None? <==> forall i :: 0 <= i < |txns| ==> txns[i].va != va
    ensures r.Some? ==> r.value < |txns| && txns[r.value].va == va
    ensures r.Some? ==> forall i :: r.value < i < |txns| && txns[i].va == va ==> !txns[i].IsPayable()
    ensures r.Some? && !txns[r.value].IsPayable() ==>
              forall i :: 0 <= i < |txns| && txns[i].va == va ==> i <= r.value && !txns[i].IsPayable()
  {
    if |txns| == 0 then None
    else
      var n := |txns| - 1;
      var earlier := Best(txns[..n], va);
      if txns[n].va != va then earlier
      else if earlier.None? || txns[n].SqlRank() <= txns[earlier.value].SqlRank() then Some(n)
      else earlier
  }

  /** The row holding `key`, by the unique index on inquiry_request_id. */
  function FindKey(txns: seq<Txn>, key: Key): (r: Option<nat>)
    ensures r.None? <==> forall i :: 0 <= i < |txns| ==> txns[i].key != key
    ensures r.Some? ==> r.value < |txns| && txns[r.value].key == key
  {
    if |txns| == 0 then None
    else if txns[|txns| - 1].key == key then Some(|txns| - 1)
    else FindKey(txns[..|txns| - 1], key)
  }

  /** A row settled under `paymentId`. */
  function FindPaid(txns: seq<Txn>, paymentId: string): (r: Option<nat>)
    ensures r.None? <==> forall i :: 0 <= i < |txns| ==> txns[i].paymentId != paymentId
    ensures r.Some? ==> r.value < |txns| && txns[r.value].paymentId == paymentId
  {
    if |txns| == 0 then None
    else if txns[|txns| - 1].paymentId == paymentId then Some(|txns| - 1)
    else FindPaid(txns[..|txns| - 1], paymentId)
  }

  /** The instalment recorded under `paymentId`. */
  function FindInstalment(rows: seq<Instalment>, paymentId: string): (r: Option<nat>)
    ensures r.None? <==> forall i :: 0 <= i < |rows| ==> rows[i].paymentId != paymentId
    ensures r.Some? ==> r.value < |rows| && rows[r.value].paymentId == paymentId
  {
    if |rows| == 0 then None
    else if rows[|rows| - 1].paymentId == paymentId then Some(|rows| - 1)
    else FindInstalment(rows[..|rows| - 1], paymentId)
  }

  /** SELECT SUM(amount) ... WHERE transaction_id = txn. */
  function InstalmentSum(rows: seq<Instalment>, txn: nat): int {
    if |rows| == 0 then 0
    else
      var last := rows[|rows| - 1];
      InstalmentSum(rows[..|rows| - 1], txn) + if last.txn == txn then last.amount else 0
  }

  /** UPDATE ... SET status WHERE virtual_account_no = va AND status = '03'. */
  function UpdateVAStatus(txns: seq<Txn>, va: string, status: Status): (r: seq<Txn>)
    ensures |r| == |txns|
    ensures forall i :: 0 <= i < |txns| ==>
              r[i] == if Pends(txns[i], va) then txns[i].(status := status) else txns[i]
  {
    seq(|txns|, i requires 0 <= i < |txns| => if Pends(txns[i], va) then txns[i].(status := status) else txns[i])
  }

  function SettledByVendor(t: Txn, paid: int, paymentId: string): Txn {
    t.(status := Settled, paid := Some(paid), paymentId := if paymentId == "" then t.paymentId else paymentId)
  }

  /** The rows SettlePendingFromVendor leaves. */
  function SettlePending(txns: seq<Txn>, va: string, paid: int, paymentId: string): (r: seq<Txn>)
    ensures |r| == |txns|
    ensures forall i :: 0 <= i < |txns| ==>
              r[i] == if Pends(txns[i], va) then SettledByVendor(txns[i], paid, paymentId) else txns[i]
  {
    seq(|txns|, i requires 0 <= i < |txns| =>
      if Pends(txns[i], va) then SettledByVendor(txns[i], paid, paymentId) else txns[i])
  }

  /** One credit for every row the vendor settlement updates. */
  function SettleCredits(txns: seq<Txn>, va: string, paid: int, paymentId: string): seq<Credit> {
    if |txns| == 0 then []
    else
      var n := |txns| - 1;
      SettleCredits(txns[..n], va, paid, paymentId)
      + if Pends(txns[n], va) then [Credit(n, va, paymentId, paid, txns[n].url)] else []
  }

  function SettlePendingFromVendor(db: Db, va: string, paid: int, paymentId: string): Db {
    db.(txns := SettlePending(db.txns, va, paid, paymentId),
        credits := db.credits + SettleCredits(db.txns, va, paid, paymentId))
  }

  /** The conflict arm of SaveInquiry: a new bill on an old row, which keeps its payments. */
  function Reopened(t: Txn, bill: Txn): Txn {
    t.(status := bill.status, url := bill.url, expires := bill.expires, total := bill.total,
       trxId := if bill.trxId == "" then t.trxId else bill.trxId,
       vaType := if bill.vaType == "" then t.vaType else bill.vaType)
  }

  /** INSERT ... ON CONFLICT (inquiry_request_id) DO UPDATE. */
  function SaveInquiry(txns: seq<Txn>, bill: Txn): seq<Txn> {
    match FindKey(txns, bill.key)
    case Some(i) => txns[i := Reopened(txns[i], bill)]
    case None => txns + [bill]
  }

  /** Stamps the vendor's id on row `i` while it is unclaimed. */
  function ClaimInquiryRequestID(txns: seq<Txn>, i: nat, id: string): seq<Txn>
    requires i < |txns|
  {
    if txns[i].IsPlaceholder() then txns[i := txns[i].(key := Vendor(id))] else txns
  }

  function PaidInFull(t: Txn, amount: int, paymentId: string): Txn {
    t.(status := Settled, paid := Some(amount), paymentId := paymentId)
  }

  /** The settlement upsert keyed by inquiry_request_id; the insert arm stores `orphan`. */
  function SavePayment(db: Db, key: Key, amount: int, paymentId: string, orphan: Txn): Db {
    match FindKey(db.txns, key)
    case Some(i) =>
      db.(txns := db.txns[i := PaidInFull(db.txns[i], amount, paymentId)],
          credits := db.credits + [Credit(i, db.txns[i].va, paymentId, amount, db.txns[i].url)])
    case None =>
      db.(txns := db.txns + [orphan],
          credits := db.credits + [Credit(|db.txns|, orphan.va, paymentId, amount, orphan.url)])
  }

  /** Row `t` once its instalments sum to `sum`. */
  function Accumulated(t: Txn, sum: int): Txn {
    t.(paid := Some(sum), status := if sum >= t.total then Settled else Pending)
  }

  /** Adds the instalment unless its id is on file, then recomputes paid_amount and status. */
  function SaveVAPayment(db: Db, txn: nat, paymentId: string, amount: int): Db
    requires txn < |db.txns|
  {
    var row := db.txns[txn];
    var recorded := FindInstalment(db.instalments, paymentId).None?;
    var rows := if recorded then db.instalments + [Instalment(txn, paymentId, amount)] else db.instalments;
    db.(instalments := rows,
        txns := db.txns[txn := Accumulated(row, InstalmentSum(rows, txn))],
        credits := if recorded then db.credits + [Credit(txn, row.va, paymentId, amount, row.url)] else db.credits)
  }

  /** A plain INSERT; None is the unique violation on inquiry_request_id. */
  function SaveNoBillPayment(db: Db, t: Txn): Option<Db> {
    if FindKey(db.txns, t.key).Some? then None
    else Some(db.(txns := db.txns + [t],
                  credits := db.credits + [Credit(|db.txns|, t.va, t.paymentId, t.total, t.url)]))
  }

  // ---------------------------------------------------------------- column widths

  const PARTNER_WIDTH := 8
  const CUSTOMER_NO_WIDTH := 20
  const VA_TYPE_WIDTH := 2
  const TRX_ID_WIDTH := 64
  const URL_WIDTH := 512

  /** One more than the largest NUMERIC(16,2), in cents. */
  const NUMERIC_LIMIT := 10_000_000_000_000_000

  /** Whether a VARCHAR column of this width takes the text: what is too long may only be blanks. */
  predicate Fits(s: string, width: nat) {
    forall i :: width <= i < |s| ==> s[i] == ' '
  }

  /** What the column then holds. */
  function Clip(s: string, width: nat): (r: string)
    ensures |r| <= width
    ensures |s| <= width ==> r == s
  {
    if |s| <= width then s else s[..width]
  }

  predicate AccountFits(a: Account) {
    && Fits(a.partner, PARTNER_WIDTH) && Fits(a.customerNo, CUSTOMER_NO_WIDTH) && Fits(a.vaType, VA_TYPE_WIDTH)
    && Fits(a.trxId, TRX_ID_WIDTH) && Fits(a.url, URL_WIDTH)
  }

  function AccountRow(a: Account): Account {
    a.(partner := Clip(a.partner, PARTNER_WIDTH), customerNo := Clip(a.customerNo, CUSTOMER_NO_WIDTH),
       vaType := Clip(a.vaType, VA_TYPE_WIDTH), trxId := Clip(a.trxId, TRX_ID_WIDTH), url := Clip(a.url, URL_WIDTH))
  }

  predicate BillFits(partner: string, customerNo: string, bill: Txn) {
    && Fits(partner, PARTNER_WIDTH) && Fits(customerNo, CUSTOMER_NO_WIDTH) && Fits(bill.vaType, VA_TYPE_WIDTH)
    && Fits(bill.trxId, TRX_ID_WIDTH) && Fits(bill.url, URL_WIDTH)
    && -NUMERIC_LIMIT < bill.total < NUMERIC_LIMIT
  }

  function BillRow(bill: Txn): Txn {
    bill.(vaType := Clip(bill.vaType, VA_TYPE_WIDTH), trxId := Clip(bill.trxId, TRX_ID_WIDTH),
          url := Clip(bill.url, URL_WIDTH))
  }

  /** SaveInquiry on the columns as they are; None is the storage error of a value that does not fit. */
  function StoreInquiry(txns: seq<Txn>, partner: string, customerNo: string, bill: Txn): Option<seq<Txn>> {
    if BillFits(partner, customerNo, bill) then Some(SaveInquiry(txns, BillRow(bill))) else None
  }

  predicate CustomerRegistered(accounts: map<string, Account>, partner: string, customerNo: string) {
    exists va :: va in accounts && accounts[va].partner == partner && accounts[va].customerNo == customerNo
  }

  /** Registration upsert on the VA number; None is a violation of UNIQUE (partner, customer). */
  function SaveVAAccount(accounts: map<string, Account>, va: string, a: Account): Option<map<string, Account>> {
    if va in accounts then
      Some(accounts[va := accounts[va].(trxId := a.trxId, url := a.url, expires := a.expires, status := a.status)])
    else if CustomerRegistered(accounts, a.partner, a.customerNo) then None
    else Some(accounts[va := a])
  }

  /** SaveVAAccount on the columns as they are; None is a storage error. */
  function StoreAccount(accounts: map<string, Account>, va: string, a: Account): Option<map<string, Account>> {
    if AccountFits(a) then SaveVAAccount(accounts, va, AccountRow(a)) else None
  }

  /** UPDATE va_accounts ... WHERE status = 'ACTIVE'. */
  function UpdateVAAccountStatus(accounts: map<string, Account>, va: string, s: AccountStatus): map<string, Account> {
    if va in accounts && accounts[va].status == Active then accounts[va := accounts[va].(status := s)] else accounts
  }

  /** INSERT ... ON CONFLICT (external_id, payment_request_id) DO NOTHING. */
  function RecordPaymentFlag(flags: map<FlagKey, Flag>, key: FlagKey, flag: Flag): map<FlagKey, Flag> {
    if key in flags then flags else flags[key := flag]
  }

  /** Whether an automatic expiry callback is on file for `va`. */
  predicate ExpiryAnnounced(callbacks: seq<Callback>, va: string) {
    exists c :: c in callbacks && c.VAExpired? && c.va == va
  }

  /** The pending rows created before the cut-off and not yet expired, oldest first. `cutoff` is the
      number of rows created before the cut-off. */
  function StalePending(txns: seq<Txn>, cutoff: nat, now: int): (r: seq<nat>)
    ensures forall k :: 0 <= k < |r| ==> r[k] < cutoff && r[k] < |txns| && txns[r[k]].status == Pending
    ensures forall k, l :: 0 <= k < l < |r| ==> r[k] < r[l]
    decreases cutoff
  {
    if cutoff == 0 then []
    else
      var rest := StalePending(txns, cutoff - 1, now);
      var i := cutoff - 1;
      if i < |txns| && txns[i].status == Pending && (txns[i].expires.None? || txns[i].expires.value > now)
      then rest + [i] else rest
  }

  function ListStalePending(txns: seq<Txn>, cutoff: nat, now: int, limit: nat): (r: seq<nat>)
    ensures |r| <= limit
    ensures forall k :: 0 <= k < |r| ==> r[k] < |txns| && txns[r[k]].status == Pending
    ensures forall k, l :: 0 <= k < l < |r| ==> r[k] < r[l]
  {
    var all := StalePending(txns, cutoff, now);
    if |all| <= limit then all else all[..limit]
  }
}

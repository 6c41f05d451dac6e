/** Expirers, deleters and reconcilers running at once: every SQL statement is one step, and any number
    of callers interleave in any order, on any numbers, while merchants open bills and registrations. */
module Interleaving {
  import opened Domain
  import opened Tables

  /** What a guarded write closes: a bill leaves '03', a registration leaves ACTIVE. */
  datatype Slot = Bill(row: nat) | Registration(va: string)

  datatype Job =
    | ExpireBill
    | DeleteBill
    | Recover(paid: int, paymentId: string)
    | ExpireRegistration
    | DeleteRegistration
  {
    predicate ForBills() {
      ExpireBill? || DeleteBill? || Recover?
    }

    predicate Notifies() {
      !DeleteBill? && !DeleteRegistration?
    }
  }

  /** How far a caller got. `url` is the callback address of the row it read, `won` whether its write changed a row. */
  datatype Phase = Reading | Writing(url: string) | Notifying(url: string) | Finished(won: bool)
  {
    predicate Won() {
      Notifying? || (Finished? && won)
    }
  }

  datatype Caller = Caller(job: Job, va: string, phase: Phase)

  datatype Happening =
    | Entered(slot: Slot)
    | Left(slots: set<Slot>, caller: nat, job: Job)
    | Sent(caller: nat)

  datatype State = State(txns: seq<Txn>, accounts: map<string, Account>, callers: seq<Caller>, log: seq<Happening>)

  const START := State([], map[], [], [])

  /** What the tables hold at a slot. */
  datatype Mark = Absent | BillIs(status: Status) | RegistrationIs(state: AccountStatus)
  {
    predicate Open() {
      this == BillIs(Pending) || this == RegistrationIs(Active)
    }
  }

  function MarkOf(s: State, x: Slot): Mark {
    match x
    case Bill(r) => if r < |s.txns| then BillIs(s.txns[r].status) else Absent
    case Registration(va) => if va in s.accounts then RegistrationIs(s.accounts[va].status) else Absent
  }

  predicate Open(s: State, x: Slot) {
    MarkOf(s, x).Open()
  }

  function Target(job: Job): Mark {
    match job
    case ExpireBill => BillIs(Expired)
    case DeleteBill => BillIs(Deleted)
    case Recover(_, _) => BillIs(Settled)
    case ExpireRegistration => RegistrationIs(Lapsed)
    case DeleteRegistration => RegistrationIs(Inactive)
  }

  // ---------------------------------------------------------------- steps

  datatype Action =
    | Arrive(job: Job, va: string)
    | ReadBill(caller: nat, row: nat, now: int)
    | ReadRegistration(caller: nat, now: int)
    | Write(caller: nat)
    | Announce(caller: nat, known: bool)
    | OpenBill(bill: Txn)
    | Register(va: string, account: Account)
    | Claim(row: nat, id: string)

  /** Whether a caller that read this row goes on to its write. */
  predicate Proceeds(job: Job, row: Txn, now: int) {
    match job
    case ExpireBill => row.IsExpired(now)
    case DeleteBill => row.status == Pending
    case Recover(_, _) => row.status == Pending && !row.IsPlaceholder()
    case _ => false
  }

  /** The rows affected by the caller's UPDATE. */
  function Touched(s: State, c: Caller): set<Slot> {
    if c.job.ForBills() then set r | 0 <= r < |s.txns| && Pends(s.txns[r], c.va) :: Bill(r)
    else if Open(s, Registration(c.va)) then {Registration(c.va)}
    else {}
  }

  function WriteTxns(txns: seq<Txn>, c: Caller): seq<Txn> {
    match c.job
    case ExpireBill => UpdateVAStatus(txns, c.va, Expired)
    case DeleteBill => UpdateVAStatus(txns, c.va, Deleted)
    case Recover(paid, id) => SettlePending(txns, c.va, paid, id)
    case _ => txns
  }

  function WriteAccounts(accounts: map<string, Account>, c: Caller): map<string, Account> {
    match c.job
    case ExpireRegistration => UpdateVAAccountStatus(accounts, c.va, Lapsed)
    case DeleteRegistration => UpdateVAAccountStatus(accounts, c.va, Inactive)
    case _ => accounts
  }

  function Moved(s: State, caller: nat, phase: Phase): State
    requires caller < |s.callers|
  {
    s.(callers := s.callers[caller := s.callers[caller].(phase := phase)])
  }

  function Logged(s: State, h: Happening): State {
    s.(log := s.log + [h])
  }

  function DoWrite(s: State, caller: nat): State
    requires caller < |s.callers| && s.callers[caller].phase.Writing?
  {
    var c := s.callers[caller];
    var after := s.(txns := WriteTxns(s.txns, c), accounts := WriteAccounts(s.accounts, c));
    var touched := Touched(s, c);
    if touched == {} then Moved(after, caller, Finished(false))
    else Logged(Moved(after, caller, Notifying(c.phase.url)), Left(touched, caller, c.job))
  }

  /** `known` is the answer of the duplicate check an expirer makes before it sends. */
  function DoAnnounce(s: State, caller: nat, known: bool): State
    requires caller < |s.callers| && s.callers[caller].phase.Notifying?
  {
    var c := s.callers[caller];
    var done := Moved(s, caller, Finished(true));
    if !c.job.Notifies() || c.phase.url == "" || (known && !c.job.Recover?) then done
    else Logged(done, Sent(caller))
  }

  /** A write that may open slot `x`. */
  function Entering(before: State, after: State, x: Slot): State {
    if !Open(before, x) && Open(after, x) then Logged(after, Entered(x)) else after
  }

  function BillSlot(txns: seq<Txn>, bill: Txn): Slot {
    Bill(FindKey(txns, bill.key).GetOr(|txns|))
  }

  /** CreateVA's write of a new bill. */
  function BillOpened(s: State, bill: Txn): State {
    s.(txns := SaveInquiry(s.txns, bill.(status := Pending)))
  }

  /** CreateVA's write of a registration. */
  function Registered(s: State, va: string, account: Account): State {
    s.(accounts := SaveVAAccount(s.accounts, va, account.(status := Active)).GetOr(s.accounts))
  }

  function Next(s: State, a: Action): State {
    match a
    case Arrive(job, va) => s.(callers := s.callers + [Caller(job, va, Reading)])
    case ReadBill(i, r, now) =>
      if i < |s.callers| && s.callers[i].phase.Reading? && r < |s.txns| && s.txns[r].va == s.callers[i].va then
        Moved(s, i, if Proceeds(s.callers[i].job, s.txns[r], now) then Writing(s.txns[r].url) else Finished(false))
      else s
    case ReadRegistration(i, now) =>
      if i < |s.callers| && s.callers[i].phase.Reading? && s.callers[i].va in s.accounts then
        var account := s.accounts[s.callers[i].va];
        var proceeds := account.IsNoBill() && match s.callers[i].job
          case ExpireRegistration => account.IsExpired(now)
          case DeleteRegistration => true
          case _ => false;
        Moved(s, i, if proceeds then Writing(account.url) else Finished(false))
      else s
    case Write(i) => if i < |s.callers| && s.callers[i].phase.Writing? then DoWrite(s, i) else s
    case Announce(i, known) => if i < |s.callers| && s.callers[i].phase.Notifying? then DoAnnounce(s, i, known) else s
    case OpenBill(bill) => Entering(s, BillOpened(s, bill), BillSlot(s.txns, bill))
    case Register(va, account) => Entering(s, Registered(s, va, account), Registration(va))
    case Claim(r, id) => if r < |s.txns| then s.(txns := ClaimInquiryRequestID(s.txns, r, id)) else s
  }

  function Schedule(actions: seq<Action>): State {
    if |actions| == 0 then START else Next(Schedule(actions[..|actions| - 1]), actions[|actions| - 1])
  }

  // ---------------------------------------------------------------- what the history says

  function Entries(log: seq<Happening>, x: Slot): nat {
    if |log| == 0 then 0
    else Entries(log[..|log| - 1], x) + if log[|log| - 1] == Entered(x) then 1 else 0
  }

  predicate Leaves(h: Happening, x: Slot) {
    h.Left? && x in h.slots
  }

  function Exits(log: seq<Happening>, x: Slot): nat {
    if |log| == 0 then 0
    else Exits(log[..|log| - 1], x) + if Leaves(log[|log| - 1], x) then 1 else 0
  }

  /** The write that closed `x` last. */
  function LastExit(log: seq<Happening>, x: Slot): Option<Job> {
    if |log| == 0 then None
    else if Leaves(log[|log| - 1], x) then Some(log[|log| - 1].job)
    else LastExit(log[..|log| - 1], x)
  }

  function Wins(log: seq<Happening>, caller: nat): nat {
    if |log| == 0 then 0
    else Wins(log[..|log| - 1], caller) + if log[|log| - 1].Left? && log[|log| - 1].caller == caller then 1 else 0
  }

  function Sends(log: seq<Happening>, caller: nat): nat {
    if |log| == 0 then 0
    else Sends(log[..|log| - 1], caller) + if log[|log| - 1] == Sent(caller) then 1 else 0
  }

  datatype Totals = Totals(entered: nat, closed: nat, sent: nat)

  function Tally(log: seq<Happening>): Totals {
    if |log| == 0 then Totals(0, 0, 0)
    else
      var t := Tally(log[..|log| - 1]);
      match log[|log| - 1]
      case Entered(_) => t.(entered := t.entered + 1)
      case Left(slots, _, _) => t.(closed := t.closed + |slots|)
      case Sent(_) => t.(sent := t.sent + 1)
  }

  lemma Appended(log: seq<Happening>, h: Happening)
    ensures forall x :: Entries(log + [h], x) == Entries(log, x) + if h == Entered(x) then 1 else 0
    ensures forall x :: Exits(log + [h], x) == Exits(log, x) + if Leaves(h, x) then 1 else 0
    ensures forall x :: LastExit(log + [h], x) == if Leaves(h, x) then Some(h.job) else LastExit(log, x)
    ensures forall c :: Wins(log + [h], c) == Wins(log, c) + if h.Left? && h.caller == c then 1 else 0
    ensures forall c :: Sends(log + [h], c) == Sends(log, c) + if h == Sent(c) then 1 else 0
  {
    assert (log + [h])[..|log|] == log;
  }

  // ---------------------------------------------------------------- one winner per entry

  /** The slot is left once per entry, and once closed holds the status its last winner wrote. */
  ghost predicate SlotSound(s: State, x: Slot) {
    && Entries(s.log, x) == Exits(s.log, x) + (if Open(s, x) then 1 else 0)
    && (MarkOf(s, x) != Absent && !Open(s, x) ==>
          LastExit(s.log, x).Some? && MarkOf(s, x) == Target(LastExit(s.log, x).value))
  }

  /** A caller won exactly when its write changed a row, and only winners whose job is to tell
      the merchant send, once. */
  ghost predicate CallersSound(s: State) {
    && (forall c :: 0 <= c < |s.callers| ==> Wins(s.log, c) == if s.callers[c].phase.Won() then 1 else 0)
    && (forall c :: 0 <= c < |s.callers| ==>
          Sends(s.log, c) <= if s.callers[c].phase == Finished(true) && s.callers[c].job.Notifies() then 1 else 0)
    && (forall c :: c >= |s.callers| ==> Wins(s.log, c) == 0 && Sends(s.log, c) == 0)
  }

  /** The UPDATE writes its own status on the open slots it touches and leaves every other slot alone. */
  lemma WriteEffect(s: State, i: nat, x: Slot)
    requires i < |s.callers| && s.callers[i].phase.Writing?
    ensures var touched := Touched(s, s.callers[i]);
            && (x in touched ==> Open(s, x) && MarkOf(DoWrite(s, i), x) == Target(s.callers[i].job))
            && (x !in touched ==> MarkOf(DoWrite(s, i), x) == MarkOf(s, x))
  {
  }

  lemma WriteKeepsSlot(s: State, i: nat, x: Slot)
    requires SlotSound(s, x) && i < |s.callers| && s.callers[i].phase.Writing?
    ensures SlotSound(DoWrite(s, i), x)
  {
    hide MarkOf, Touched, WriteTxns, WriteAccounts, Entries, Exits, LastExit;
    WriteEffect(s, i, x);
    var touched := Touched(s, s.callers[i]);
    if touched != {} {
      Appended(s.log, Left(touched, i, s.callers[i].job));
    }
  }

  /** SaveInquiry opens the slot of its key and leaves every other slot alone. */
  lemma OpenBillEffect(s: State, bill: Txn, x: Slot)
    ensures var after := BillOpened(s, bill);
            MarkOf(after, x) == if x == BillSlot(s.txns, bill) then BillIs(Pending) else MarkOf(s, x)
  {
  }

  lemma RegisterEffect(s: State, va: string, account: Account, x: Slot)
    requires SaveVAAccount(s.accounts, va, account.(status := Active)).Some?
    ensures var after := Registered(s, va, account);
            MarkOf(after, x) == if x == Registration(va) then RegistrationIs(Active) else MarkOf(s, x)
  {
  }

  predicate Quiet(a: Action) {
    a.Arrive? || a.ReadBill? || a.ReadRegistration? || a.Claim?
  }

  lemma QuietEffect(s: State, a: Action, x: Slot)
    requires Quiet(a)
    ensures MarkOf(Next(s, a), x) == MarkOf(s, x)
    ensures Next(s, a).log == s.log
  {
  }

  lemma EnteringKeepsSlot(s: State, after: State, entered: Slot, x: Slot)
    requires SlotSound(s, x) && after.log == s.log && Open(after, entered)
    requires x != entered ==> MarkOf(after, x) == MarkOf(s, x)
    ensures SlotSound(Entering(s, after, entered), x)
  {
    Appended(s.log, Entered(entered));
  }

  lemma OpenBillKeepsSlot(s: State, bill: Txn, x: Slot)
    requires SlotSound(s, x)
    ensures SlotSound(Next(s, OpenBill(bill)), x)
  {
    OpenBillEffect(s, bill, x);
    OpenBillEffect(s, bill, BillSlot(s.txns, bill));
    EnteringKeepsSlot(s, BillOpened(s, bill), BillSlot(s.txns, bill), x);
  }

  lemma RegisterKeepsSlot(s: State, va: string, account: Account, x: Slot)
    requires SlotSound(s, x)
    ensures SlotSound(Next(s, Register(va, account)), x)
  {
    var saved := SaveVAAccount(s.accounts, va, account.(status := Active));
    if saved.Some? {
      RegisterEffect(s, va, account, x);
      RegisterEffect(s, va, account, Registration(va));
      EnteringKeepsSlot(s, Registered(s, va, account), Registration(va), x);
    }
  }

  lemma AnnounceKeepsSlot(s: State, i: nat, known: bool, x: Slot)
    requires SlotSound(s, x) && i < |s.callers| && s.callers[i].phase.Notifying?
    ensures SlotSound(DoAnnounce(s, i, known), x)
  {
    Appended(s.log, Sent(i));
  }

  lemma StepKeepsSlot(s: State, a: Action, x: Slot)
    requires SlotSound(s, x)
    ensures SlotSound(Next(s, a), x)
  {
    match a
    case Write(i) =>
      if i < |s.callers| && s.callers[i].phase.Writing? {
        WriteKeepsSlot(s, i, x);
      }
    case Announce(i, known) =>
      if i < |s.callers| && s.callers[i].phase.Notifying? {
        AnnounceKeepsSlot(s, i, known, x);
      }
    case OpenBill(bill) => OpenBillKeepsSlot(s, bill, x);
    case Register(va, account) => RegisterKeepsSlot(s, va, account, x);
    case _ => QuietEffect(s, a, x);
  }

  lemma WriteKeepsCallers(s: State, i: nat)
    requires CallersSound(s) && i < |s.callers| && s.callers[i].phase.Writing?
    ensures CallersSound(DoWrite(s, i))
  {
    var touched := Touched(s, s.callers[i]);
    hide Touched, WriteTxns, WriteAccounts;
    if touched == {} {
      LoserKeepsCallers(s, DoWrite(s, i), i);
    } else {
      WinnerKeepsCallers(s, DoWrite(s, i), i, touched);
    }
  }

  lemma LoserKeepsCallers(s: State, t: State, i: nat)
    requires CallersSound(s) && i < |s.callers| && s.callers[i].phase.Writing?
    requires t.callers == s.callers[i := s.callers[i].(phase := Finished(false))] && t.log == s.log
    ensures CallersSound(t)
  {
  }

  lemma WinnerKeepsCallers(s: State, t: State, i: nat, touched: set<Slot>)
    requires CallersSound(s) && i < |s.callers| && s.callers[i].phase.Writing?
    requires t.callers == s.callers[i := s.callers[i].(phase := Notifying(s.callers[i].phase.url))]
    requires t.log == s.log + [Left(touched, i, s.callers[i].job)]
    ensures CallersSound(t)
  {
    Appended(s.log, Left(touched, i, s.callers[i].job));
  }

  lemma AnnounceKeepsCallers(s: State, i: nat, known: bool)
    requires CallersSound(s) && i < |s.callers| && s.callers[i].phase.Notifying?
    ensures CallersSound(DoAnnounce(s, i, known))
  {
    Appended(s.log, Sent(i));
  }

  lemma EnteringKeepsCallers(s: State, after: State, entered: Slot)
    requires CallersSound(s) && after.log == s.log && after.callers == s.callers
    ensures CallersSound(Entering(s, after, entered))
  {
    Appended(s.log, Entered(entered));
  }

  lemma StepKeepsCallers(s: State, a: Action)
    requires CallersSound(s)
    ensures CallersSound(Next(s, a))
  {
    match a
    case Write(i) =>
      if i < |s.callers| && s.callers[i].phase.Writing? {
        WriteKeepsCallers(s, i);
      }
    case Announce(i, known) =>
      if i < |s.callers| && s.callers[i].phase.Notifying? {
        AnnounceKeepsCallers(s, i, known);
      }
    case OpenBill(bill) =>
      EnteringKeepsCallers(s, BillOpened(s, bill), BillSlot(s.txns, bill));
    case Register(va, account) =>
      EnteringKeepsCallers(s, Registered(s, va, account), Registration(va));
    case _ =>
  }

  /** In every schedule and for every bill and registration: entries and exits alternate, so each entry
      into '03' or ACTIVE is left by one write, and a closed slot holds that write's status. */
  lemma {:induction false} OneWinnerPerEntry(actions: seq<Action>, x: Slot)
    ensures SlotSound(Schedule(actions), x)
  {
    if |actions| > 0 {
      OneWinnerPerEntry(actions[..|actions| - 1], x);
      StepKeepsSlot(Schedule(actions[..|actions| - 1]), actions[|actions| - 1], x);
    }
  }

  /** In every schedule: a caller sends at most one callback, and only if its own write changed a row. */
  lemma {:induction false} OnlyWinnersAnnounce(actions: seq<Action>)
    ensures CallersSound(Schedule(actions))
    ensures forall c :: Sends(Schedule(actions).log, c) <= Wins(Schedule(actions).log, c) <= 1
  {
    if |actions| > 0 {
      OnlyWinnersAnnounce(actions[..|actions| - 1]);
      StepKeepsCallers(Schedule(actions[..|actions| - 1]), actions[|actions| - 1]);
    }
  }

  // ---------------------------------------------------------------- why a caller writes, and when it tells

  /** The bill a caller read gives it a reason to write: an expirer one that is past its date, a deleter an open one, a
      reconciler an open one that an inquiry has claimed. */
  predicate BillWarrants(job: Job, row: Txn, now: int) {
    match job
    case ExpireBill => row.status == Expired || (row.status == Pending && row.expires.Some? && now > row.expires.value)
    case DeleteBill => row.status == Pending
    case Recover(_, _) =>
      && row.status == Pending && row.key != Placeholder(row.va) && row.key != Vendor("")
      && (row.trxId != "" ==> row.key != Vendor(row.trxId))
    case _ => false
  }

  /** The registration a caller read does: one without a bill, past its date unless it is to be deleted. */
  predicate RegistrationWarrants(job: Job, a: Account, now: int) {
    a.billing == NoBill
    && match job
       case ExpireRegistration => a.status == Lapsed || (a.expires.Some? && now > a.expires.value)
       case DeleteRegistration => true
       case _ => false
  }

  /** A caller goes on from its read to its write exactly when what it read warrants it. */
  lemma GoesOnExactlyWhen(s: State, i: nat, r: nat, now: int)
    requires i < |s.callers| && s.callers[i].phase == Reading
    ensures r < |s.txns| && s.txns[r].va == s.callers[i].va ==>
              var after := Next(s, ReadBill(i, r, now));
              && |after.callers| == |s.callers|
              && after.callers[i].phase
                 == if BillWarrants(s.callers[i].job, s.txns[r], now) then Writing(s.txns[r].url) else Finished(false)
    ensures s.callers[i].va in s.accounts ==>
              var a, after := s.accounts[s.callers[i].va], Next(s, ReadRegistration(i, now));
              && |after.callers| == |s.callers|
              && after.callers[i].phase
                 == if RegistrationWarrants(s.callers[i].job, a, now) then Writing(a.url) else Finished(false)
  {
  }

  /** The step is the announcement of caller `i`: it won, has an address to call, and the merchant was not told before,
      unless it tells of a payment. */
  predicate Tells(s: State, a: Action, i: nat) {
    && a.Announce? && a.caller == i && i < |s.callers| && s.callers[i].phase.Notifying? && s.callers[i].phase.url != ""
    && match s.callers[i].job
       case ExpireBill => !a.known
       case ExpireRegistration => !a.known
       case Recover(_, _) => true
       case _ => false
  }

  lemma StepSends(s: State, a: Action, i: nat)
    ensures Sends(Next(s, a).log, i) == Sends(s.log, i) + if Tells(s, a, i) then 1 else 0
  {
    if a.Announce? { Appended(s.log, Sent(a.caller)); }
    if a.Write? && a.caller < |s.callers| {
      Appended(s.log, Left(Touched(s, s.callers[a.caller]), a.caller, s.callers[a.caller].job));
    }
    if a.OpenBill? { Appended(s.log, Entered(BillSlot(s.txns, a.bill))); }
    if a.Register? { Appended(s.log, Entered(Registration(a.va))); }
    hide Sends, Touched, MarkOf, WriteTxns, WriteAccounts, BillSlot, BillOpened, Registered, Proceeds;
  }

  ghost predicate Told(actions: seq<Action>, i: nat) {
    exists k :: 0 <= k < |actions| && Tells(Schedule(actions[..k]), actions[k], i)
  }

  lemma ToldExtends(actions: seq<Action>, i: nat)
    requires |actions| > 0
    ensures var n := |actions| - 1;
            Told(actions, i) <==> Told(actions[..n], i) || Tells(Schedule(actions[..n]), actions[n], i)
  {
    hide Schedule, Tells;
    var n := |actions| - 1;
    assert forall k :: 0 <= k < n ==> actions[..n][..k] == actions[..k] && actions[..n][k] == actions[k];
    if k :| 0 <= k < n && Tells(Schedule(actions[..n][..k]), actions[..n][k], i) {
      assert Tells(Schedule(actions[..k]), actions[k], i);
    }
  }

  /** In every schedule a caller has sent its callback exactly when some step was its announcement. */
  lemma {:induction false} SentExactlyWhen(actions: seq<Action>, i: nat)
    ensures Sends(Schedule(actions).log, i) > 0 <==>
            exists k :: 0 <= k < |actions| && Tells(Schedule(actions[..k]), actions[k], i)
  {
    if |actions| > 0 {
      var n := |actions| - 1;
      SentExactlyWhen(actions[..n], i);
      ToldExtends(actions, i);
      StepSends(Schedule(actions[..n]), actions[n], i);
      hide Tells, Next, Sends;
    }
  }

  // ---------------------------------------------------------------- callbacks against entries

  function OpenSlots(s: State): set<Slot> {
    (set r | 0 <= r < |s.txns| && s.txns[r].status == Pending :: Bill(r))
    + (set va | va in s.accounts && s.accounts[va].status == Active :: Registration(va))
  }

  function Waiting(s: State): set<nat> {
    set c | 0 <= c < |s.callers| && s.callers[c].phase.Notifying?
  }

  /** Every entry is open still or closed once; every callback, sent or about to be, belongs to its own exit. */
  ghost predicate Conserved(s: State) {
    var t := Tally(s.log);
    t.entered == t.closed + |OpenSlots(s)| && t.sent + |Waiting(s)| <= t.closed
  }

  lemma TallyAppended(log: seq<Happening>, h: Happening)
    ensures var t := Tally(log);
            Tally(log + [h]) == match h
              case Entered(_) => t.(entered := t.entered + 1)
              case Left(slots, _, _) => t.(closed := t.closed + |slots|)
              case Sent(_) => t.(sent := t.sent + 1)
  {
    assert (log + [h])[..|log|] == log;
  }

  lemma OpenIsMarked(s: State)
    ensures forall x :: x in OpenSlots(s) <==> Open(s, x)
  {
    forall x ensures x in OpenSlots(s) <==> Open(s, x) {
      match x
      case Bill(r) =>
      case Registration(va) =>
    }
  }

  lemma SlotsRemoved(s: State, t: State, gone: set<Slot>)
    requires forall x :: x in gone ==> Open(s, x)
    requires forall x :: Open(t, x) <==> Open(s, x) && x !in gone
    ensures |OpenSlots(t)| + |gone| == |OpenSlots(s)|
  {
    OpenIsMarked(s);
    OpenIsMarked(t);
    hide Open, OpenSlots;
    assert OpenSlots(s) == OpenSlots(t) + gone;
  }

  lemma SlotAdded(s: State, t: State, x: Slot)
    requires forall y :: Open(t, y) <==> Open(s, y) || y == x
    ensures |OpenSlots(t)| == |OpenSlots(s)| + if Open(s, x) then 0 else 1
  {
    OpenIsMarked(s);
    OpenIsMarked(t);
    hide Open, OpenSlots;
    if Open(s, x) {
      assert OpenSlots(t) == OpenSlots(s);
    } else {
      assert OpenSlots(t) == OpenSlots(s) + {x};
    }
  }

  lemma WriteClosesSlots(s: State, i: nat)
    requires i < |s.callers| && s.callers[i].phase.Writing?
    ensures |OpenSlots(DoWrite(s, i))| + |Touched(s, s.callers[i])| == |OpenSlots(s)|
  {
    forall x
      ensures x in Touched(s, s.callers[i]) ==> Open(s, x)
      ensures Open(DoWrite(s, i), x) <==> Open(s, x) && x !in Touched(s, s.callers[i])
    {
      WriteEffect(s, i, x);
    }
    SlotsRemoved(s, DoWrite(s, i), Touched(s, s.callers[i]));
  }

  lemma WriterWaits(s: State, i: nat)
    requires i < |s.callers| && s.callers[i].phase.Writing?
    ensures |Waiting(DoWrite(s, i))| == |Waiting(s)| + if Touched(s, s.callers[i]) == {} then 0 else 1
  {
    if Touched(s, s.callers[i]) == {} {
      assert Waiting(DoWrite(s, i)) == Waiting(s);
    } else {
      assert Waiting(DoWrite(s, i)) == Waiting(s) + {i};
    }
  }

  lemma WriteConserves(s: State, i: nat)
    requires Conserved(s) && i < |s.callers| && s.callers[i].phase.Writing?
    ensures Conserved(DoWrite(s, i))
  {
    WriteClosesSlots(s, i);
    WriterWaits(s, i);
    TallyAppended(s.log, Left(Touched(s, s.callers[i]), i, s.callers[i].job));
  }

  lemma AnnounceOpensNothing(s: State, i: nat, known: bool)
    requires i < |s.callers| && s.callers[i].phase.Notifying?
    ensures |OpenSlots(DoAnnounce(s, i, known))| == |OpenSlots(s)|
  {
    assert OpenSlots(DoAnnounce(s, i, known)) == OpenSlots(s);
  }

  lemma AnnouncerLeaves(s: State, i: nat, known: bool)
    requires i < |s.callers| && s.callers[i].phase.Notifying?
    ensures |Waiting(s)| == |Waiting(DoAnnounce(s, i, known))| + 1
  {
    assert Waiting(s) == Waiting(DoAnnounce(s, i, known)) + {i};
  }

  lemma AnnounceConserves(s: State, i: nat, known: bool)
    requires Conserved(s) && i < |s.callers| && s.callers[i].phase.Notifying?
    ensures Conserved(DoAnnounce(s, i, known))
  {
    AnnounceOpensNothing(s, i, known);
    AnnouncerLeaves(s, i, known);
    TallyAppended(s.log, Sent(i));
  }

  ghost predicate DiffersAt(s: State, after: State, x: Slot) {
    forall y :: y != x ==> MarkOf(after, y) == MarkOf(s, y)
  }

  lemma EnteringOpensOne(s: State, after: State, x: Slot)
    requires DiffersAt(s, after, x) && Open(after, x)
    ensures |OpenSlots(Entering(s, after, x))| == |OpenSlots(s)| + if Open(s, x) then 0 else 1
  {
    var t := Entering(s, after, x);
    forall y ensures Open(t, y) <==> Open(s, y) || y == x {
      assert MarkOf(t, y) == MarkOf(after, y);
    }
    SlotAdded(s, t, x);
  }

  lemma EnteringConserves(s: State, after: State, x: Slot)
    requires Conserved(s) && after.log == s.log && after.callers == s.callers
    requires DiffersAt(s, after, x) && Open(after, x)
    ensures Conserved(Entering(s, after, x))
  {
    EnteringOpensOne(s, after, x);
    assert Waiting(Entering(s, after, x)) == Waiting(s);
    TallyAppended(s.log, Entered(x));
  }

  lemma OpenBillDiffers(s: State, bill: Txn)
    ensures DiffersAt(s, BillOpened(s, bill), BillSlot(s.txns, bill))
  {
    forall x | x != BillSlot(s.txns, bill)
      ensures MarkOf(BillOpened(s, bill), x) == MarkOf(s, x)
    {
      OpenBillEffect(s, bill, x);
    }
  }

  lemma OpenBillConserves(s: State, bill: Txn)
    requires Conserved(s)
    ensures Conserved(Entering(s, BillOpened(s, bill), BillSlot(s.txns, bill)))
  {
    OpenBillDiffers(s, bill);
    OpenBillEffect(s, bill, BillSlot(s.txns, bill));
    EnteringConserves(s, BillOpened(s, bill), BillSlot(s.txns, bill));
  }

  lemma RegisterDiffers(s: State, va: string, account: Account)
    requires SaveVAAccount(s.accounts, va, account.(status := Active)).Some?
    ensures DiffersAt(s, Registered(s, va, account),
                      Registration(va))
  {
    forall x | x != Registration(va)
      ensures MarkOf(Registered(s, va, account), x) == MarkOf(s, x)
    {
      RegisterEffect(s, va, account, x);
    }
  }

  lemma RegisterConserves(s: State, va: string, account: Account)
    requires Conserved(s)
    ensures Conserved(Entering(s, Registered(s, va, account), Registration(va)))
  {
    if SaveVAAccount(s.accounts, va, account.(status := Active)).Some? {
      RegisterDiffers(s, va, account);
      RegisterEffect(s, va, account, Registration(va));
      EnteringConserves(s, Registered(s, va, account), Registration(va));
    } else {
      assert Entering(s, Registered(s, va, account), Registration(va)) == s;
    }
  }

  lemma QuietKeepsOpenSlots(s: State, a: Action)
    requires Quiet(a)
    ensures |OpenSlots(Next(s, a))| == |OpenSlots(s)|
  {
    forall x ensures Open(Next(s, a), x) <==> Open(s, x) {
      QuietEffect(s, a, x);
    }
    SlotsRemoved(s, Next(s, a), {});
  }

  lemma QuietKeepsWaiting(s: State, a: Action)
    requires Quiet(a)
    ensures Waiting(Next(s, a)) == Waiting(s)
  {
  }

  lemma QuietConserves(s: State, a: Action)
    requires Conserved(s) && Quiet(a)
    ensures Conserved(Next(s, a))
  {
    QuietKeepsOpenSlots(s, a);
    QuietKeepsWaiting(s, a);
    QuietEffect(s, a, Bill(0));
  }

  lemma WriteStepConserves(s: State, i: nat)
    requires Conserved(s)
    ensures Conserved(Next(s, Write(i)))
  {
    hide Conserved, DoWrite;
    if i < |s.callers| && s.callers[i].phase.Writing? {
      WriteConserves(s, i);
    }
  }

  lemma AnnounceStepConserves(s: State, i: nat, known: bool)
    requires Conserved(s)
    ensures Conserved(Next(s, Announce(i, known)))
  {
    hide Conserved, DoAnnounce;
    if i < |s.callers| && s.callers[i].phase.Notifying? {
      AnnounceConserves(s, i, known);
    }
  }

  lemma StepConserves(s: State, a: Action)
    requires Conserved(s)
    ensures Conserved(Next(s, a))
  {
    hide Conserved;
    match a
    case Write(i) => WriteStepConserves(s, i);
    case Announce(i, known) => AnnounceStepConserves(s, i, known);
    case OpenBill(bill) => OpenBillConserves(s, bill);
    case Register(va, account) => RegisterConserves(s, va, account);
    case _ => QuietConserves(s, a);
  }

  /** In every schedule: the entries made are the exits plus the slots still open, and the merchants
      have been told of no more closures than there were. */
  lemma {:induction false} CallbacksNeverExceedEntries(actions: seq<Action>)
    ensures Conserved(Schedule(actions))
    ensures Tally(Schedule(actions).log).sent <= Tally(Schedule(actions).log).entered
  {
    if |actions| > 0 {
      CallbacksNeverExceedEntries(actions[..|actions| - 1]);
      StepConserves(Schedule(actions[..|actions| - 1]), actions[|actions| - 1]);
    } else {
      assert OpenSlots(START) == {} && Waiting(START) == {};
    }
  }
}

/** The customer-number generator: any number of callers, interleaved one Redis or SQL statement at a time. */
module Sequence {
  import opened Domain
  import opened Text

  const SEQUENCE_DIGITS := 16

  /** The generated customer number: the VA type, then the sequence in 16 digits. */
  function CustomerNo(vaType: string, n: nat): string {
    vaType + LowDigits(n, SEQUENCE_DIGITS)
  }

  /** len(fmt.Sprintf("%d", n)) > 16. */
  predicate Exhausted(n: nat) {
    Width(n) > SEQUENCE_DIGITS
  }

  /** How far a caller got.
      - Waiting: polling for the Redis lock, if there is one.
      - Entered: inside the locked section.
      - Read / Updated: inside the transaction, holding the counter's row lock.
      - Leaving / Done: after commit or rollback, before and after releasing the Redis lock. */
  datatype Phase =
    | Waiting
    | Entered
    | Read(n: nat)
    | Updated(n: nat, next: nat)
    | Leaving(taken: Option<nat>)
    | Done(taken: Option<nat>)
  {
    predicate InTransaction() {
      Read? || Updated?
    }

    /** The sequence the caller was given. */
    function Taken(): Option<nat> {
      if Leaving? || Done? then taken else None
    }
  }

  datatype Caller = Caller(vaType: string, phase: Phase)

  /** `locks` are the Redis keys set, `rows` the counter rows locked and by which caller. */
  datatype State = State(counters: map<string, nat>, locks: set<string>, rows: map<string, nat>, callers: seq<Caller>)

  datatype Action =
    | Call(vaType: string)
    | AcquireLock(c: nat)
    | EnterUnlocked(c: nat)
    | GiveUp(c: nat)
    | LockExpires(vaType: string)
    | SelectForUpdate(c: nat)
    | UpdateCounter(c: nat)
    | Commit(c: nat, acknowledged: bool)
    | Rollback(c: nat)
    | ReleaseLock(c: nat)

  predicate At(s: State, c: nat) {
    c < |s.callers|
  }

  function Moved(s: State, c: nat, phase: Phase): State
    requires At(s, c)
  {
    s.(callers := s.callers[c := s.callers[c].(phase := phase)])
  }

  /** SELECT ... FOR UPDATE blocks while another transaction holds the row; a missing or exhausted counter fails. */
  function DoSelect(s: State, c: nat): State
    requires At(s, c) && s.callers[c].phase.Entered?
  {
    var v := s.callers[c].vaType;
    if v !in s.counters then Moved(s, c, Leaving(None))
    else if v in s.rows then s
    else if Exhausted(s.counters[v]) then Moved(s, c, Leaving(None))
    else Moved(s, c, Read(s.counters[v])).(rows := s.rows[v := c])
  }

  /** The commit may succeed without the caller hearing of it. */
  function DoCommit(s: State, c: nat, acknowledged: bool): State
    requires At(s, c) && s.callers[c].phase.Updated?
  {
    var v, p := s.callers[c].vaType, s.callers[c].phase;
    Moved(s, c, Leaving(if acknowledged then Some(p.n) else None))
      .(counters := s.counters[v := p.next], rows := s.rows - {v})
  }

  function Next(s: State, a: Action): State {
    match a
    case Call(v) => s.(callers := s.callers + [Caller(v, Waiting)])
    case AcquireLock(c) =>
      if At(s, c) && s.callers[c].phase.Waiting? && s.callers[c].vaType !in s.locks
      then Moved(s, c, Entered).(locks := s.locks + {s.callers[c].vaType}) else s
    case EnterUnlocked(c) => if At(s, c) && s.callers[c].phase.Waiting? then Moved(s, c, Entered) else s
    case GiveUp(c) => if At(s, c) && s.callers[c].phase.Waiting? then Moved(s, c, Done(None)) else s
    case LockExpires(v) => s.(locks := s.locks - {v})
    case SelectForUpdate(c) => if At(s, c) && s.callers[c].phase.Entered? then DoSelect(s, c) else s
    case UpdateCounter(c) =>
      if At(s, c) && s.callers[c].phase.Read? && s.callers[c].vaType in s.counters
      then Moved(s, c, Updated(s.callers[c].phase.n, s.counters[s.callers[c].vaType] + 1)) else s
    case Commit(c, acknowledged) =>
      if At(s, c) && s.callers[c].phase.Updated? then DoCommit(s, c, acknowledged) else s
    case Rollback(c) =>
      if At(s, c) && s.callers[c].phase.InTransaction()
      then Moved(s, c, Leaving(None)).(rows := s.rows - {s.callers[c].vaType}) else s
    case ReleaseLock(c) =>
      if At(s, c) && s.callers[c].phase.Leaving?
      then Moved(s, c, Done(s.callers[c].phase.taken)).(locks := s.locks - {s.callers[c].vaType}) else s
  }

  function Schedule(counters: map<string, nat>, actions: seq<Action>): State {
    if |actions| == 0 then State(counters, {}, map[], [])
    else Next(Schedule(counters, actions[..|actions| - 1]), actions[|actions| - 1])
  }

  // ---------------------------------------------------------------- what every schedule keeps

  /** A caller in its transaction owns the row, and works from the value the counter still has. */
  ghost predicate RowsSound(s: State) {
    forall c :: 0 <= c < |s.callers| && s.callers[c].phase.InTransaction() ==>
      var v, p := s.callers[c].vaType, s.callers[c].phase;
      && v in s.rows && s.rows[v] == c
      && v in s.counters && p.n == s.counters[v] && !Exhausted(p.n)
      && (p.Updated? ==> p.next == p.n + 1)
  }

  /** Every number given out lies below its counter, and no two callers of a type were given the same. */
  ghost predicate NumbersSound(s: State) {
    && (forall c :: 0 <= c < |s.callers| && s.callers[c].phase.Taken().Some? ==>
          var v, n := s.callers[c].vaType, s.callers[c].phase.Taken().value;
          v in s.counters && n < s.counters[v] && !Exhausted(n))
    && (forall c, d ::
          0 <= c < d < |s.callers| && s.callers[c].vaType == s.callers[d].vaType && s.callers[c].phase.Taken().Some?
          ==> s.callers[c].phase.Taken() != s.callers[d].phase.Taken())
  }

  ghost predicate Sound(s: State) {
    RowsSound(s) && NumbersSound(s)
  }

  lemma SelectKeepsSound(s: State, c: nat)
    requires Sound(s) && At(s, c) && s.callers[c].phase.Entered?
    ensures Sound(DoSelect(s, c))
  {
  }

  lemma CommitKeepsSound(s: State, c: nat, acknowledged: bool)
    requires Sound(s) && At(s, c) && s.callers[c].phase.Updated?
    ensures Sound(DoCommit(s, c, acknowledged))
  {
    var t := DoCommit(s, c, acknowledged);
    var v := s.callers[c].vaType;
    assert t.counters[v] == s.counters[v] + 1;
    forall d | 0 <= d < |s.callers| && d != c ensures t.callers[d] == s.callers[d] {
    }
  }

  lemma RollbackKeepsSound(s: State, c: nat)
    requires Sound(s) && At(s, c) && s.callers[c].phase.InTransaction()
    ensures Sound(Next(s, Rollback(c)))
  {
    var t := Next(s, Rollback(c));
    forall d | 0 <= d < |s.callers| && d != c ensures t.callers[d] == s.callers[d] {
    }
  }

  lemma UpdateKeepsSound(s: State, c: nat)
    requires Sound(s) && At(s, c) && s.callers[c].phase.Read?
    ensures Sound(Next(s, UpdateCounter(c)))
  {
  }

  lemma ReleaseKeepsSound(s: State, c: nat)
    requires Sound(s) && At(s, c) && s.callers[c].phase.Leaving?
    ensures Sound(Next(s, ReleaseLock(c)))
  {
  }

  /** A step that moves a caller between phases without a row lock or a number. */
  lemma OutsideKeepsSound(s: State, a: Action)
    requires Sound(s) && (a.Call? || a.AcquireLock? || a.EnterUnlocked? || a.GiveUp? || a.LockExpires?)
    ensures Sound(Next(s, a))
  {
  }

  lemma StepKeepsSound(s: State, a: Action)
    requires Sound(s)
    ensures Sound(Next(s, a))
  {
    match a
    case SelectForUpdate(c) =>
      if At(s, c) && s.callers[c].phase.Entered? {
        SelectKeepsSound(s, c);
      }
    case UpdateCounter(c) =>
      if At(s, c) && s.callers[c].phase.Read? {
        UpdateKeepsSound(s, c);
      }
    case Commit(c, acknowledged) =>
      if At(s, c) && s.callers[c].phase.Updated? {
        CommitKeepsSound(s, c, acknowledged);
      }
    case Rollback(c) =>
      if At(s, c) && s.callers[c].phase.InTransaction() {
        RollbackKeepsSound(s, c);
      }
    case ReleaseLock(c) =>
      if At(s, c) && s.callers[c].phase.Leaving? {
        ReleaseKeepsSound(s, c);
      }
    case _ => OutsideKeepsSound(s, a);
  }

  lemma {:induction false} ScheduleIsSound(counters: map<string, nat>, actions: seq<Action>)
    ensures Sound(Schedule(counters, actions))
  {
    if |actions| > 0 {
      ScheduleIsSound(counters, actions[..|actions| - 1]);
      StepKeepsSound(Schedule(counters, actions[..|actions| - 1]), actions[|actions| - 1]);
    }
  }

  // ---------------------------------------------------------------- the numbers

  /** The number a caller got, if it got one. */
  function Result(caller: Caller): Option<string> {
    match caller.phase.Taken()
    case None => None
    case Some(n) => Some(CustomerNo(caller.vaType, n))
  }

  lemma PowFits(n: nat)
    requires !Exhausted(n)
    ensures n < Pow10(SEQUENCE_DIGITS)
  {
    PowGrows(Width(n), SEQUENCE_DIGITS);
  }

  /** Sixteen digits hold every number below ten to the sixteenth, and no other. */
  lemma ExhaustedExactlyWhen(n: nat)
    ensures Exhausted(n) <==> n >= 10_000_000_000_000_000
  {
    PowSixteen();
    if n < Pow10(16) { WidthIsLeast(n, 16); }
    if !Exhausted(n) { PowFits(n); }
  }

  lemma PowSixteen()
    ensures Pow10(16) == 10_000_000_000_000_000
  {
    assert Pow10(4) == 10_000;
    assert Pow10(8) == 100_000_000;
    assert Pow10(12) == 1_000_000_000_000;
  }

  /** Inside the section a caller reads the counter's value exactly when its type has a counter, no other transaction
      holds the row, and the value has at most 16 digits; it waits while the row is held, and otherwise gives up. */
  lemma ReadsExactlyWhen(s: State, c: nat)
    requires At(s, c) && s.callers[c].phase.Entered?
    ensures var v, after := s.callers[c].vaType, Next(s, SelectForUpdate(c));
            && |after.callers| == |s.callers| && after.counters == s.counters
            && (if v in s.counters && v in s.rows then after == s
                else if v in s.counters && s.counters[v] < 10_000_000_000_000_000 then
                  after.callers[c].phase == Read(s.counters[v]) && after.rows == s.rows[v := c]
                else after.callers[c].phase == Leaving(None) && after.rows == s.rows)
  {
    var v := s.callers[c].vaType;
    if v in s.counters { ExhaustedExactlyWhen(s.counters[v]); }
  }

  /** Different types or different sequences give different customer numbers. */
  lemma CustomerNoInjective(v: string, m: nat, w: string, n: nat)
    requires !Exhausted(m) && !Exhausted(n) && CustomerNo(v, m) == CustomerNo(w, n)
    ensures v == w && m == n
  {
    PowFits(m);
    PowFits(n);
    LowDigitsReadBack(m, SEQUENCE_DIGITS);
    LowDigitsReadBack(n, SEQUENCE_DIGITS);
    assert |v| == |w|;
    assert v == CustomerNo(v, m)[..|v|] && w == CustomerNo(w, n)[..|v|];
    assert LowDigits(m, SEQUENCE_DIGITS) == CustomerNo(v, m)[|v|..];
    assert LowDigits(n, SEQUENCE_DIGITS) == CustomerNo(w, n)[|v|..];
  }

  /** In every interleaving, with or without the Redis lock and whenever it expires: no two callers are given
      the same customer number, and every number is two characters longer than the sequence for a
      two-character type. */
  lemma GeneratedNumbersDistinct(counters: map<string, nat>, actions: seq<Action>, c: nat, d: nat)
    requires c < |Schedule(counters, actions).callers| && d < |Schedule(counters, actions).callers|
    ensures var callers := Schedule(counters, actions).callers;
            Result(callers[c]).Some? ==>
              && (c != d ==> Result(callers[c]) != Result(callers[d]))
              && (|callers[c].vaType| == 2 ==> |Result(callers[c]).value| == 18)
  {
    ScheduleIsSound(counters, actions);
    var callers := Schedule(counters, actions).callers;
    if c != d && Result(callers[c]).Some? && Result(callers[c]) == Result(callers[d]) {
      CustomerNoInjective(callers[c].vaType, callers[c].phase.Taken().value,
                          callers[d].vaType, callers[d].phase.Taken().value);
    }
  }

  lemma Appended(counters: map<string, nat>, actions: seq<Action>, a: Action)
    ensures Schedule(counters, actions + [a]) == Next(Schedule(counters, actions), a)
  {
    assert (actions + [a])[..|actions|] == actions;
  }

  /** The Redis lock alone does not serialise the sections: once it expires, two callers of a type are inside. */
  lemma ExpiredLockAdmitsTwo(v: string)
    ensures Schedule(map[v := 1], [Call(v), Call(v), AcquireLock(0), LockExpires(v), AcquireLock(1)])
            == State(map[v := 1], {v}, map[], [Caller(v, Entered), Caller(v, Entered)])
  {
    var start := map[v := 1];
    var s0 := Schedule(start, []);
    var a1 := [Call(v)];
    var s1 := Next(s0, Call(v));
    var a2 := a1 + [Call(v)];
    var s2 := Next(s1, Call(v));
    var a3 := a2 + [AcquireLock(0)];
    var s3 := Next(s2, AcquireLock(0));
    var a4 := a3 + [LockExpires(v)];
    var s4 := Next(s3, LockExpires(v));
    assert [] + [Call(v)] == a1;
    Appended(start, [], Call(v));
    Appended(start, a1, Call(v));
    Appended(start, a2, AcquireLock(0));
    Appended(start, a3, LockExpires(v));
    Appended(start, a4, AcquireLock(1));
    assert s2 == State(start, {}, map[], [Caller(v, Waiting), Caller(v, Waiting)]);
    assert s3 == State(start, {v}, map[], [Caller(v, Entered), Caller(v, Waiting)]);
    assert s4 == State(start, {}, map[], [Caller(v, Entered), Caller(v, Waiting)]);
    assert a4 + [AcquireLock(1)] == [Call(v), Call(v), AcquireLock(0), LockExpires(v), AcquireLock(1)];
  }
}

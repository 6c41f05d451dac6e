/** The idempotency middleware: which requests reach the handler, one after the other and interleaved. */
module Idempotency {
  import opened Domain

  /** `payment` is the double-flag predicate of the route; `bodyId` is the body's paymentRequestId, empty when the
      body does not parse. */
  datatype Request = Request(verb: string, day: string, externalId: string, payment: bool, bodyId: string)

  datatype Answer = Handled(status: int) | MissingHeader | Conflict

  /** The part of a stored record the middleware reads back. */
  datatype Record = Record(status: int, paymentId: string)

  predicate Bypasses(req: Request) {
    req.verb in {"GET", "OPTIONS", "HEAD"}
  }

  function KeyOf(req: Request): string {
    req.day + ":" + req.externalId
  }

  function PaymentIdOf(req: Request): string {
    if req.payment then req.bodyId else ""
  }

  predicate IsDoubleFlag(req: Request, record: Record) {
    req.payment && PaymentIdOf(req) != "" && record.paymentId == PaymentIdOf(req)
  }

  /** Two requests of the same calendar day share a key exactly when they carry the same external id. */
  lemma KeysAreDayScoped(a: Request, b: Request)
    requires |a.day| == |b.day| == 8
    ensures KeyOf(a) == KeyOf(b) <==> a.day == b.day && a.externalId == b.externalId
  {
    assert KeyOf(a)[..8] == a.day && KeyOf(b)[..8] == b.day;
    assert KeyOf(a)[9..] == a.externalId && KeyOf(b)[9..] == b.externalId;
  }

  // ---------------------------------------------------------------- one request

  /** What the store holds: answered keys, and keys in flight. */
  datatype Kept = Kept(records: map<string, Record>, locks: set<string>)

  datatype Served = Served(kept: Kept, answer: Answer)

  /** One request, when the handler would answer with `status`. */
  function Serve(kept: Kept, req: Request, status: int): Served {
    var key := KeyOf(req);
    if Bypasses(req) then Served(kept, Handled(status))
    else if req.externalId == "" then Served(kept, MissingHeader)
    else if key in kept.records && !IsDoubleFlag(req, kept.records[key]) then Served(kept, Conflict)
    else if key in kept.locks then Served(kept, Conflict)
    else if status >= 500 then Served(kept, Handled(status))
    else Served(kept.(records := kept.records[key := Record(status, PaymentIdOf(req))]), Handled(status))
  }

  /** A request goes through whatever is stored, and leaves the store alone, exactly when its verb reads only. */
  lemma PassesThroughExactlyWhen(req: Request)
    ensures req.verb in {"GET", "HEAD", "OPTIONS"} <==>
            forall kept, status :: Serve(kept, req, status) == Served(kept, Handled(status))
  {
    var held := Kept(map[], {KeyOf(req)});
    assert req.verb !in {"GET", "HEAD", "OPTIONS"} ==> Serve(held, req, 0) != Served(held, Handled(0));
  }

  /** The header is missed exactly when a request that writes comes without an external id; nothing is stored then. */
  lemma MissingHeaderExactlyWhen(kept: Kept, req: Request, status: int)
    ensures var out := Serve(kept, req, status);
            && (out.answer == MissingHeader <==> req.verb !in {"GET", "HEAD", "OPTIONS"} && |req.externalId| == 0)
            && (out.answer == MissingHeader ==> out.kept == kept)
  {
  }

  /** A request that writes reaches the handler exactly when nobody holds its key and the key is not on record, or is on
      record from a payment with this payment's own id; a payment's id is what a record keeps. */
  lemma ServedExactlyWhen(kept: Kept, req: Request, status: int)
    requires req.verb !in {"GET", "HEAD", "OPTIONS"} && req.externalId != ""
    ensures var out, key := Serve(kept, req, status), req.day + ":" + req.externalId;
            && out.answer in {Handled(status), Conflict} && out.kept.locks == kept.locks
            && (out.answer == Handled(status) <==>
                  && key !in kept.locks
                  && (key in kept.records ==>
                        req.payment && req.bodyId != "" && kept.records[key].paymentId == req.bodyId))
            && out.kept.records
               == if out.answer == Conflict || status > 499 then kept.records
                  else kept.records[key := Record(status, if req.payment then req.bodyId else "")]
  {
  }

  /** The Redis client, as far as the middleware uses it. */
  class Store {
    var records: map<string, Record>
    var locks: set<string>

    constructor ()
      ensures View() == Kept(map[], {})
    {
      records := map[];
      locks := {};
    }

    ghost function View(): Kept
      reads this
    {
      Kept(records, locks)
    }

    method GetResponseCache(key: string) returns (record: Option<Record>)
      ensures record == if key in records then Some(records[key]) else None
    {
      if key in records { return Some(records[key]); }
      return None;
    }

    method SetResponseCache(key: string, record: Record)
      modifies this`records
      ensures records == old(records)[key := record]
    {
      records := records[key := record];
    }

    method AcquireLock(key: string) returns (locked: bool)
      modifies this`locks
      ensures locked == (key !in old(locks))
      ensures locks == old(locks) + {key}
    {
      locked := key !in locks;
      locks := locks + {key};
    }

    method ReleaseLock(key: string)
      modifies this`locks
      ensures locks == old(locks) - {key}
    {
      locks := locks - {key};
    }
  }

  class Middleware {
    const store: Store

    constructor (store: Store)
      ensures this.store == store
    {
      this.store := store;
    }

    /** The wrapped request; `status` is what the handler answers if it is reached. */
    method Handle(req: Request, status: int) returns (answer: Answer)
      modifies store
      ensures Served(store.View(), answer) == Serve(old(store.View()), req, status)
    {
      if Bypasses(req) { return Handled(status); }
      var key := KeyOf(req);
      if req.externalId == "" { return MissingHeader; }
      var id := PaymentIdOf(req);
      var cached := store.GetResponseCache(key);
      if cached.Some? && !IsDoubleFlag(req, cached.value) { return Conflict; }
      var locked := store.AcquireLock(key);
      if !locked {
        assert store.locks == old(store.locks);
        return Conflict;
      }
      if status < 500 {
        store.SetResponseCache(key, Record(status, id));
      }
      store.ReleaseLock(key);
      assert store.locks == old(store.locks);
      return Handled(status);
    }
  }

  // ---------------------------------------------------------------- a day of requests, one after the other

  datatype Arrival = Arrival(req: Request, status: int)

  function KeptAfter(run: seq<Arrival>): Kept {
    if |run| == 0 then Kept(map[], {})
    else Serve(KeptAfter(run[..|run| - 1]), run[|run| - 1].req, run[|run| - 1].status).kept
  }

  /** The answer to the `i`-th request. */
  function AnswerTo(run: seq<Arrival>, i: nat): Answer
    requires i < |run|
  {
    Serve(KeptAfter(run[..i]), run[i].req, run[i].status).answer
  }

  /** Whether a request, served from `k`, consumes `key`. */
  predicate Consumes(k: Kept, req: Request, status: int, key: string) {
    && !Bypasses(req) && req.externalId != "" && KeyOf(req) == key
    && Serve(k, req, status).answer.Handled? && status < 500
  }

  /** Whether request `i` consumed `key`: it reached the handler and was answered below 500. */
  predicate Answered(run: seq<Arrival>, i: nat, key: string)
    requires i < |run|
  {
    Consumes(KeptAfter(run[..i]), run[i].req, run[i].status, key)
  }

  lemma PrefixAnswers(run: seq<Arrival>, n: nat, i: nat)
    requires i < n <= |run|
    ensures AnswerTo(run[..n], i) == AnswerTo(run, i)
  {
    assert run[..n][..i] == run[..i];
  }

  lemma PrefixAnswered(run: seq<Arrival>, n: nat, key: string)
    requires n <= |run|
    ensures forall i :: 0 <= i < n ==> Answered(run[..n], i, key) == Answered(run, i, key)
  {
    forall i | 0 <= i < n ensures Answered(run[..n], i, key) == Answered(run, i, key) {
      assert run[..n][..i] == run[..i];
    }
  }

  lemma ServeRecords(k: Kept, req: Request, status: int, key: string)
    requires k.locks == {}
    ensures var after, consumed := Serve(k, req, status).kept, Consumes(k, req, status, key);
            && after.locks == {}
            && (key in after.records <==> key in k.records || consumed)
            && (consumed ==> after.records[key].paymentId == PaymentIdOf(req))
            && (key in k.records ==> after.records[key].paymentId == k.records[key].paymentId)
  {
  }

  /** No lock outlives its request, a key is on record exactly when a request consumed it, and the recorded
      payment id is that of every request that did. */
  lemma {:induction false} RecordsAreAnswers(run: seq<Arrival>, key: string)
    ensures KeptAfter(run).locks == {}
    ensures key in KeptAfter(run).records <==> exists i :: 0 <= i < |run| && Answered(run, i, key)
    ensures forall i :: 0 <= i < |run| && Answered(run, i, key) ==>
              key in KeptAfter(run).records && KeptAfter(run).records[key].paymentId == PaymentIdOf(run[i].req)
  {
    hide Serve, Consumes, PaymentIdOf;
    if |run| > 0 {
      var n := |run| - 1;
      RecordsAreAnswers(run[..n], key);
      PrefixAnswered(run, n, key);
      ServeRecords(KeptAfter(run[..n]), run[n].req, run[n].status, key);
      if key in KeptAfter(run).records {
        if !Answered(run, n, key) {
          var i :| 0 <= i < n && Answered(run[..n], i, key);
          assert Answered(run, i, key);
        }
      }
    }
  }

  /** A mutating request reaches the handler exactly when it is the double flag of every request that consumed
      its key earlier that day; in particular, the first one always does and other endpoints' repeats never do. */
  lemma HandledExactlyWhen(run: seq<Arrival>, j: nat)
    requires j < |run| && !Bypasses(run[j].req) && run[j].req.externalId != ""
    ensures AnswerTo(run, j) ==
            if forall i :: 0 <= i < j && Answered(run, i, KeyOf(run[j].req)) ==>
                 && run[j].req.payment && run[j].req.bodyId != ""
                 && run[i].req.payment && run[i].req.bodyId == run[j].req.bodyId
            then Handled(run[j].status) else Conflict
  {
    var key := KeyOf(run[j].req);
    RecordsAreAnswers(run[..j], key);
    PrefixAnswered(run, j, key);
    if key in KeptAfter(run[..j]).records {
      var i :| 0 <= i < j && Answered(run[..j], i, key);
      assert Answered(run, i, key);
    }
  }

  /** The payment id recorded for a key never changes again. */
  lemma RecordedIdIsFinal(run: seq<Arrival>, n: nat, key: string)
    requires n <= |run| && key in KeptAfter(run[..n]).records
    ensures key in KeptAfter(run).records
    ensures KeptAfter(run).records[key].paymentId == KeptAfter(run[..n]).records[key].paymentId
  {
    var i := ConsumerOf(run[..n], key);
    PrefixAnswers(run, n, i);
    assert Answered(run, i, key);
    RecordsAreAnswers(run, key);
  }

  lemma ConsumerOf(run: seq<Arrival>, key: string) returns (i: nat)
    requires key in KeptAfter(run).records
    ensures i < |run| && Answered(run, i, key)
    ensures KeptAfter(run).records[key].paymentId == PaymentIdOf(run[i].req)
  {
    RecordsAreAnswers(run, key);
    i :| 0 <= i < |run| && Answered(run, i, key);
  }

  // ---------------------------------------------------------------- concurrent requests

  /** Phases of a mutating request on its way through the middleware. `since` is when it took the lock. */
  datatype Phase = Arrived | Checked | InHandler(since: int) | Finished(since: int) | Gone

  datatype Flight = Flight(key: string, req: Request, phase: Phase)
  {
    /** Between taking the lock and releasing it. */
    predicate Inside() {
      InHandler() || phase.Finished?
    }

    predicate InHandler() {
      phase.InHandler?
    }
  }

  /** `locks` maps a key to the time its lock expires. */
  datatype State = State(now: int, locks: map<string, int>, records: map<string, Record>, flights: seq<Flight>)

  datatype Action =
    | Tick(to: int)
    | Arrive(req: Request)
    | Check(f: nat)
    | Acquire(f: nat)
    | Finish(f: nat, status: int)
    | Release(f: nat)
    | Abandon(f: nat)

  predicate At(s: State, f: nat) {
    f < |s.flights|
  }

  function Moved(s: State, f: nat, phase: Phase): State
    requires At(s, f)
  {
    s.(flights := s.flights[f := s.flights[f].(phase := phase)])
  }

  predicate Locked(s: State, key: string) {
    key in s.locks && s.now < s.locks[key]
  }

  function Next(s: State, a: Action, ttl: int): State {
    match a
    case Tick(to) => if to > s.now then s.(now := to) else s
    case Arrive(req) =>
      if Bypasses(req) || req.externalId == "" then s
      else s.(flights := s.flights + [Flight(KeyOf(req), req, Arrived)])
    case Check(f) =>
      if At(s, f) && s.flights[f].phase.Arrived? then
        var key := s.flights[f].key;
        Moved(s, f, if key in s.records && !IsDoubleFlag(s.flights[f].req, s.records[key]) then Gone else Checked)
      else s
    case Acquire(f) =>
      if At(s, f) && s.flights[f].phase.Checked? then
        if Locked(s, s.flights[f].key) then Moved(s, f, Gone)
        else Moved(s, f, InHandler(s.now)).(locks := s.locks[s.flights[f].key := s.now + ttl])
      else s
    case Finish(f, status) =>
      if At(s, f) && s.flights[f].phase.InHandler? then
        var done := Moved(s, f, Finished(s.flights[f].phase.since));
        if status < 500 then done.(records := s.records[s.flights[f].key := Record(status, PaymentIdOf(s.flights[f].req))])
        else done
      else s
    // DEL removes whatever lock the key has, its own or not.
    case Release(f) =>
      if At(s, f) && s.flights[f].phase.Finished? then Moved(s, f, Gone).(locks := s.locks - {s.flights[f].key}) else s
    // The process dies: the lock stays until it expires.
    case Abandon(f) => if At(s, f) then Moved(s, f, Gone) else s
  }

  const START := State(0, map[], map[], [])

  function Schedule(actions: seq<Action>, ttl: int): State {
    if |actions| == 0 then START else Next(Schedule(actions[..|actions| - 1], ttl), actions[|actions| - 1], ttl)
  }

  /** Every request on its way through the middleware writes and has an external id, and its key is the day's and that
      id's. */
  lemma {:induction false} FlightsAreGuarded(actions: seq<Action>, ttl: int)
    ensures forall f :: 0 <= f < |Schedule(actions, ttl).flights| ==>
              var flight := Schedule(actions, ttl).flights[f];
              && flight.req.verb !in {"GET", "HEAD", "OPTIONS"} && flight.req.externalId != ""
              && flight.key == flight.req.day + ":" + flight.req.externalId
  {
    if |actions| > 0 { FlightsAreGuarded(actions[..|actions| - 1], ttl); }
  }

  /** Flight `f` holds the key for longer than its lock lives. */
  predicate Overstays(s: State, f: nat, key: string, ttl: int) {
    At(s, f) && s.flights[f].key == key && s.flights[f].Inside() && s.now >= s.flights[f].phase.since + ttl
  }

  ghost predicate Timely(s: State, key: string, ttl: int) {
    forall f :: 0 <= f < |s.flights| ==> !Overstays(s, f, key, ttl)
  }

  ghost predicate AlwaysTimely(actions: seq<Action>, key: string, ttl: int) {
    forall n :: 0 <= n <= |actions| ==> Timely(Schedule(actions[..n], ttl), key, ttl)
  }

  ghost predicate Exclusive(s: State, key: string, ttl: int) {
    && (forall f :: 0 <= f < |s.flights| && s.flights[f].key == key && s.flights[f].Inside() ==>
          key in s.locks && s.locks[key] == s.flights[f].phase.since + ttl)
    && (forall f, g :: 0 <= f < g < |s.flights| && s.flights[f].key == s.flights[g].key == key ==>
          !(s.flights[f].Inside() && s.flights[g].Inside()))
  }

  lemma AcquireKeepsExclusive(s: State, f: nat, key: string, ttl: int)
    requires Exclusive(s, key, ttl) && Timely(s, key, ttl) && At(s, f) && s.flights[f].phase.Checked?
    ensures Exclusive(Next(s, Acquire(f), ttl), key, ttl)
  {
    var t := Next(s, Acquire(f), ttl);
    forall g | 0 <= g < |s.flights| && g != f ensures t.flights[g] == s.flights[g] {
    }
    if s.flights[f].key == key && !Locked(s, key) {
      forall g | 0 <= g < |s.flights| && s.flights[g].key == key ensures !s.flights[g].Inside() {
        assert !Overstays(s, g, key, ttl);
      }
    }
  }

  lemma LeaveKeepsExclusive(s: State, a: Action, f: nat, key: string, ttl: int)
    requires Exclusive(s, key, ttl) && (a == Release(f) || a == Abandon(f) || (a.Finish? && a.f == f)) && At(s, f)
    ensures Exclusive(Next(s, a, ttl), key, ttl)
  {
    var t := Next(s, a, ttl);
    forall g | 0 <= g < |s.flights| && g != f ensures t.flights[g] == s.flights[g] {
    }
  }

  lemma StepKeepsExclusive(s: State, a: Action, key: string, ttl: int)
    requires Exclusive(s, key, ttl) && Timely(s, key, ttl)
    ensures Exclusive(Next(s, a, ttl), key, ttl)
  {
    match a
    case Acquire(f) =>
      if At(s, f) && s.flights[f].phase.Checked? {
        AcquireKeepsExclusive(s, f, key, ttl);
      }
    case Finish(f, _) => if At(s, f) { LeaveKeepsExclusive(s, a, f, key, ttl); }
    case Release(f) => if At(s, f) { LeaveKeepsExclusive(s, a, f, key, ttl); }
    case Abandon(f) => if At(s, f) { LeaveKeepsExclusive(s, a, f, key, ttl); }
    case _ =>
  }

  lemma {:induction false} ScheduleExclusive(actions: seq<Action>, key: string, ttl: int)
    requires AlwaysTimely(actions, key, ttl)
    ensures Exclusive(Schedule(actions, ttl), key, ttl)
  {
    if |actions| > 0 {
      var n := |actions| - 1;
      forall k | 0 <= k <= n ensures Timely(Schedule(actions[..n][..k], ttl), key, ttl) {
        assert actions[..n][..k] == actions[..k];
      }
      ScheduleExclusive(actions[..n], key, ttl);
      assert actions[..n][..n] == actions[..n];
      StepKeepsExclusive(Schedule(actions[..n], ttl), actions[n], key, ttl);
    }
  }

  /** In every schedule: two requests with one key are in the handler together only if, at some moment before, a
      request with that key was inside for longer than its lock lives. */
  lemma NeverTwoInTheHandler(actions: seq<Action>, ttl: int, f: nat, g: nat)
    requires f < g < |Schedule(actions, ttl).flights|
    requires var flights := Schedule(actions, ttl).flights;
             flights[f].key == flights[g].key && flights[f].InHandler() && flights[g].InHandler()
    ensures exists m, e :: 0 <= m <= |actions| && 0 <= e < |Schedule(actions[..m], ttl).flights|
                           && Overstays(Schedule(actions[..m], ttl), e, Schedule(actions, ttl).flights[f].key, ttl)
  {
    var key := Schedule(actions, ttl).flights[f].key;
    if AlwaysTimely(actions, key, ttl) {
      ScheduleExclusive(actions, key, ttl);
      assert false;
    } else {
      var m :| 0 <= m <= |actions| && !Timely(Schedule(actions[..m], ttl), key, ttl);
      var e :| 0 <= e < |Schedule(actions[..m], ttl).flights| && Overstays(Schedule(actions[..m], ttl), e, key, ttl);
    }
  }

  lemma Appended(actions: seq<Action>, a: Action, ttl: int)
    ensures Schedule(actions + [a], ttl) == Next(Schedule(actions, ttl), a, ttl)
  {
    assert (actions + [a])[..|actions|] == actions;
  }

  /** Two requests with one key, both past the record check. */
  function BothChecked(req: Request): seq<Action> {
    [Arrive(req), Arrive(req), Check(0), Check(1)]
  }

  lemma AfterArrivals(req: Request, ttl: int)
    requires !Bypasses(req) && req.externalId != ""
    ensures Schedule([Arrive(req), Arrive(req)], ttl)
            == State(0, map[], map[], [Flight(KeyOf(req), req, Arrived), Flight(KeyOf(req), req, Arrived)])
  {
    Appended([], Arrive(req), ttl);
    assert [] + [Arrive(req)] == [Arrive(req)];
    Appended([Arrive(req)], Arrive(req), ttl);
    assert [Arrive(req)] + [Arrive(req)] == [Arrive(req), Arrive(req)];
  }

  lemma AfterBothChecked(req: Request, ttl: int)
    requires !Bypasses(req) && req.externalId != ""
    ensures Schedule(BothChecked(req), ttl)
            == State(0, map[], map[], [Flight(KeyOf(req), req, Checked), Flight(KeyOf(req), req, Checked)])
  {
    AfterArrivals(req, ttl);
    var k := KeyOf(req);
    var a2 := [Arrive(req), Arrive(req)];
    Appended(a2, Check(0), ttl);
    assert Schedule(a2 + [Check(0)], ttl) == State(0, map[], map[], [Flight(k, req, Checked), Flight(k, req, Arrived)]);
    Appended(a2 + [Check(0)], Check(1), ttl);
    assert a2 + [Check(0)] + [Check(1)] == BothChecked(req);
  }

  /** The condition is needed: a handler that outlives the lock is joined by a second one. */
  lemma SlowHandlerIsJoined(req: Request, ttl: int)
    requires !Bypasses(req) && req.externalId != "" && ttl > 0
    ensures Schedule(BothChecked(req) + [Acquire(0)] + [Tick(ttl)] + [Acquire(1)], ttl).flights
            == [Flight(KeyOf(req), req, InHandler(0)), Flight(KeyOf(req), req, InHandler(ttl))]
  {
    var k := KeyOf(req);
    AfterBothChecked(req, ttl);
    var a5 := BothChecked(req) + [Acquire(0)];
    Appended(BothChecked(req), Acquire(0), ttl);
    Appended(a5, Tick(ttl), ttl);
    Appended(a5 + [Tick(ttl)], Acquire(1), ttl);
    assert Schedule(a5, ttl) == State(0, map[k := ttl], map[], [Flight(k, req, InHandler(0)), Flight(k, req, Checked)]);
  }

  /** The record is read before the lock is taken, so two requests that both read it early run one after the
      other, each answered by the handler. */
  lemma EarlyChecksRunInTurn(req: Request, ttl: int)
    requires !Bypasses(req) && req.externalId != "" && ttl > 0
    ensures var s := Schedule(BothChecked(req) + [Acquire(0)] + [Finish(0, 200)] + [Release(0)] + [Acquire(1)], ttl);
            && s.flights == [Flight(KeyOf(req), req, Gone), Flight(KeyOf(req), req, InHandler(0))]
            && s.records == map[KeyOf(req) := Record(200, PaymentIdOf(req))]
  {
    var k, r := KeyOf(req), Record(200, PaymentIdOf(req));
    AfterBothChecked(req, ttl);
    var a5 := BothChecked(req) + [Acquire(0)];
    var a6 := a5 + [Finish(0, 200)];
    var a7 := a6 + [Release(0)];
    Appended(BothChecked(req), Acquire(0), ttl);
    Appended(a5, Finish(0, 200), ttl);
    Appended(a6, Release(0), ttl);
    Appended(a7, Acquire(1), ttl);
    assert Schedule(a5, ttl) == State(0, map[k := ttl], map[], [Flight(k, req, InHandler(0)), Flight(k, req, Checked)]);
    assert Schedule(a6, ttl)
        == State(0, map[k := ttl], map[k := r], [Flight(k, req, Finished(0)), Flight(k, req, Checked)]);
    assert Schedule(a7, ttl) == State(0, map[], map[k := r], [Flight(k, req, Gone), Flight(k, req, Checked)]);
  }
}

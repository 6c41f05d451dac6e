/** Callback deliveries: the audit row, the dispatcher, the worker that retries, and the bulk resend. */
module Delivery {
  import opened Domain

  datatype Trigger = Auto | Manual
  datatype DeliveryStatus = Queued | Retrying | Succeeded | Failed | Duplicated

  /** The stored payload; `content` stands for everything but the address. */
  datatype Payload = Payload(url: string, content: string)

  /** One va_notification_deliveries row; `at` is attempted_at. */
  datatype Row = Row(id: nat, va: string, event: string, trigger: Trigger, status: DeliveryStatus, at: int,
                     payload: Option<Payload>, attempts: nat)

  datatype Result = Result(status: DeliveryStatus, attempts: nat)

  function Max(a: nat, b: nat): nat {
    if a >= b then a else b
  }

  /** UPDATE ... SET status, attempt_count = GREATEST(...) WHERE status <> 'success', on one row. */
  function Updated(row: Row, r: Result): Row {
    if row.status == Succeeded then row else row.(status := r.status, attempts := Max(row.attempts, r.attempts))
  }

  function UpdateDeliveryResult(rows: seq<Row>, id: nat, r: Result): (after: seq<Row>)
    ensures |after| == |rows|
    ensures forall i :: 0 <= i < |rows| ==> after[i] == if rows[i].id == id then Updated(rows[i], r) else rows[i]
  {
    seq(|rows|, i requires 0 <= i < |rows| => if rows[i].id == id then Updated(rows[i], r) else rows[i])
  }

  /** What the worker records after an attempt: `retried` counts the attempts before it. */
  function AttemptResult(retried: nat, maxRetry: nat, ok: bool): Result {
    Result(if ok then Succeeded else if retried < maxRetry then Retrying else Failed, retried + 1)
  }

  // ---------------------------------------------------------------- writes on one row, in any order

  function AfterWrites(row: Row, writes: seq<Result>): Row {
    if |writes| == 0 then row else Updated(AfterWrites(row, writes[..|writes| - 1]), writes[|writes| - 1])
  }

  function MaxAttempts(start: nat, writes: seq<Result>): nat {
    if |writes| == 0 then start else Max(MaxAttempts(start, writes[..|writes| - 1]), writes[|writes| - 1].attempts)
  }

  /** In whatever order the outcomes arrive: the row ends "success" exactly when one of them says so; until then it
      shows the last one written and the largest attempt count. */
  lemma {:induction false} WritesInAnyOrder(row: Row, writes: seq<Result>)
    requires row.status != Succeeded
    ensures var after := AfterWrites(row, writes);
            && (after.status == Succeeded <==> exists k :: 0 <= k < |writes| && writes[k].status == Succeeded)
            && (after.status != Succeeded ==>
                  && after.status == (if |writes| == 0 then row.status else writes[|writes| - 1].status)
                  && after.attempts == MaxAttempts(row.attempts, writes))
  {
    if |writes| > 0 {
      var before := writes[..|writes| - 1];
      WritesInAnyOrder(row, before);
      if AfterWrites(row, before).status == Succeeded {
        var k :| 0 <= k < |before| && before[k].status == Succeeded;
        assert writes[k].status == Succeeded;
      }
    }
  }

  /** "success" is final, and the attempt count never goes down. */
  lemma {:induction false} SuccessAbsorbs(row: Row, writes: seq<Result>)
    ensures row.status == Succeeded ==> AfterWrites(row, writes) == row
    ensures AfterWrites(row, writes).attempts >= row.attempts
  {
    if |writes| > 0 {
      SuccessAbsorbs(row, writes[..|writes| - 1]);
    }
  }

  /** The row of a task that fails every time, from its `retried`-th retry on. */
  function FailingFrom(row: Row, retried: nat, maxRetry: nat): Row
    requires retried <= maxRetry
    decreases maxRetry - retried
  {
    var after := Updated(row, AttemptResult(retried, maxRetry, false));
    if retried == maxRetry then after else FailingFrom(after, retried + 1, maxRetry)
  }

  /** A task that always fails ends "failed" after maxRetry + 1 attempts. */
  lemma {:induction false} AlwaysFailingEndsFailed(row: Row, retried: nat, maxRetry: nat)
    requires retried <= maxRetry && row.status != Succeeded && row.attempts <= retried
    ensures FailingFrom(row, retried, maxRetry) == row.(status := Failed, attempts := maxRetry + 1)
    decreases maxRetry - retried
  {
    if retried < maxRetry {
      AlwaysFailingEndsFailed(Updated(row, AttemptResult(retried, maxRetry, false)), retried + 1, maxRetry);
    }
  }

  /** Out of order the last word can be wrong: a late "retrying" hides the final failure, at the full count. */
  lemma LateRetryHidesFailure(row: Row, maxRetry: nat)
    requires row.status == Queued && row.attempts == 0 && maxRetry > 0
    ensures AfterWrites(row, [AttemptResult(maxRetry, maxRetry, false), AttemptResult(maxRetry - 1, maxRetry, false)])
            == row.(status := Retrying, attempts := maxRetry + 1)
  {
    var writes := [AttemptResult(maxRetry, maxRetry, false), AttemptResult(maxRetry - 1, maxRetry, false)];
    assert writes[..1] == [writes[0]] && writes[..1][..0] == [];
    assert AfterWrites(row, writes[..1]) == Updated(AfterWrites(row, []), writes[0]);
  }

  // ---------------------------------------------------------------- dispatchers and workers, interleaved

  /** Where a dispatcher stands with the row it created. */
  datatype Stage = Inserted | Refused(status: DeliveryStatus)

  /** `reached` tells whether some attempt got a good answer from the merchant. */
  datatype Task = Task(retried: nat, finished: bool, reached: bool)

  /** `writes` are outcomes the worker has still to write; each may be written late, or never. */
  datatype World = World(rows: seq<Row>, nextId: nat, dispatching: map<nat, Stage>, tasks: map<nat, Task>,
                         writes: seq<(nat, Result)>)

  datatype Action =
    | Insert(va: string, event: string, trigger: Trigger, at: int, payload: Payload, fails: bool)
    | Enqueue(id: nat)
    | EnqueueRefused(id: nat, duplicate: bool)
    | Settle(id: nat)
    | RunTask(id: nat, ok: bool, acknowledged: bool)
    | RecordWrite(k: nat)
    | LoseWrite(k: nat)

  const START := World([], 0, map[], map[], [])

  function Without<T>(s: seq<T>, k: nat): seq<T>
    requires k < |s|
  {
    s[..k] + s[k + 1..]
  }

  /** Asynq's view of a task after one attempt; a good attempt it could not acknowledge is run again. */
  function AfterAttempt(t: Task, maxRetry: nat, ok: bool, acknowledged: bool): Task {
    if ok && acknowledged then Task(t.retried, true, true)
    else Task(if t.retried < maxRetry then t.retried + 1 else t.retried, t.retried >= maxRetry, t.reached || ok)
  }

  function Next(w: World, a: Action, maxRetry: nat): World {
    match a
    case Insert(va, event, trigger, at, payload, fails) =>
      var row := Row(w.nextId, va, event, trigger, Queued, at, Some(payload), 0);
      w.(rows := if fails then w.rows else w.rows + [row], nextId := w.nextId + 1,
         dispatching := w.dispatching[w.nextId := Inserted])
    case Enqueue(id) =>
      if id in w.dispatching && w.dispatching[id] == Inserted
      then w.(dispatching := w.dispatching - {id}, tasks := w.tasks[id := Task(0, false, false)]) else w
    case EnqueueRefused(id, duplicate) =>
      if id in w.dispatching && w.dispatching[id] == Inserted
      then w.(dispatching := w.dispatching[id := Refused(if duplicate then Duplicated else Failed)]) else w
    case Settle(id) =>
      if id in w.dispatching && w.dispatching[id].Refused?
      then w.(rows := UpdateDeliveryResult(w.rows, id, Result(w.dispatching[id].status, 0)),
              dispatching := w.dispatching - {id}) else w
    case RunTask(id, ok, acknowledged) =>
      if id in w.tasks && !w.tasks[id].finished
      then w.(tasks := w.tasks[id := AfterAttempt(w.tasks[id], maxRetry, ok, acknowledged)],
              writes := w.writes + [(id, AttemptResult(w.tasks[id].retried, maxRetry, ok))]) else w
    case RecordWrite(k) =>
      if k < |w.writes|
      then w.(rows := UpdateDeliveryResult(w.rows, w.writes[k].0, w.writes[k].1), writes := Without(w.writes, k)) else w
    case LoseWrite(k) => if k < |w.writes| then w.(writes := Without(w.writes, k)) else w
  }

  function Schedule(actions: seq<Action>, maxRetry: nat): World {
    if |actions| == 0 then START
    else Next(Schedule(actions[..|actions| - 1], maxRetry), actions[|actions| - 1], maxRetry)
  }

  /** What a status says about a row. */
  ghost predicate Truthful(w: World, row: Row, maxRetry: nat) {
    && row.id < w.nextId && row.attempts <= maxRetry + 1
    && (row.id in w.dispatching ==> row.status == Queued && row.attempts == 0)
    && match row.status
       case Queued => row.attempts == 0
       case Retrying => row.id in w.tasks
       case Succeeded => row.id in w.tasks && w.tasks[row.id].reached
       case Failed => row.id in w.tasks ==> row.attempts == maxRetry + 1
       case Duplicated => row.id !in w.tasks
  }

  /** What an outcome still to be written says. */
  ghost predicate Reports(w: World, id: nat, r: Result, maxRetry: nat) {
    && id in w.tasks && 1 <= r.attempts <= maxRetry + 1
    && (r.status == Retrying
        || (r.status == Succeeded && w.tasks[id].reached)
        || (r.status == Failed && r.attempts == maxRetry + 1))
  }

  ghost predicate Sound(w: World, maxRetry: nat) {
    && (forall i, j :: 0 <= i < j < |w.rows| ==> w.rows[i].id != w.rows[j].id)
    && (forall id :: id in w.dispatching ==>
          && id < w.nextId && id !in w.tasks
          && (w.dispatching[id].Refused? ==> w.dispatching[id].status in {Failed, Duplicated}))
    && (forall id :: id in w.tasks ==> id < w.nextId && w.tasks[id].retried <= maxRetry)
    && (forall i :: 0 <= i < |w.rows| ==> Truthful(w, w.rows[i], maxRetry))
    && (forall k :: 0 <= k < |w.writes| ==> Reports(w, w.writes[k].0, w.writes[k].1, maxRetry))
  }

  lemma AttemptKeepsSound(w: World, id: nat, ok: bool, acknowledged: bool, maxRetry: nat)
    requires Sound(w, maxRetry) && id in w.tasks && !w.tasks[id].finished
    ensures Sound(Next(w, RunTask(id, ok, acknowledged), maxRetry), maxRetry)
  {
    var v := Next(w, RunTask(id, ok, acknowledged), maxRetry);
    forall k | 0 <= k < |v.writes| ensures Reports(v, v.writes[k].0, v.writes[k].1, maxRetry) {
      if k < |w.writes| {
        assert Reports(w, w.writes[k].0, w.writes[k].1, maxRetry);
      }
    }
    forall i | 0 <= i < |v.rows| ensures Truthful(v, v.rows[i], maxRetry) {
      assert Truthful(w, w.rows[i], maxRetry);
    }
  }

  lemma RecordKeepsSound(w: World, k: nat, maxRetry: nat)
    requires Sound(w, maxRetry) && k < |w.writes|
    ensures Sound(Next(w, RecordWrite(k), maxRetry), maxRetry)
  {
    var v := Next(w, RecordWrite(k), maxRetry);
    assert Reports(w, w.writes[k].0, w.writes[k].1, maxRetry);
    forall i | 0 <= i < |v.rows| ensures Truthful(v, v.rows[i], maxRetry) {
      assert Truthful(w, w.rows[i], maxRetry);
    }
    forall j | 0 <= j < |v.writes| ensures Reports(v, v.writes[j].0, v.writes[j].1, maxRetry) {
      var from := if j < k then j else j + 1;
      assert v.writes[j] == w.writes[from];
      assert Reports(w, w.writes[from].0, w.writes[from].1, maxRetry);
    }
  }

  lemma LoseKeepsSound(w: World, k: nat, maxRetry: nat)
    requires Sound(w, maxRetry) && k < |w.writes|
    ensures Sound(Next(w, LoseWrite(k), maxRetry), maxRetry)
  {
    var v := Next(w, LoseWrite(k), maxRetry);
    forall j | 0 <= j < |v.writes| ensures Reports(v, v.writes[j].0, v.writes[j].1, maxRetry) {
      var from := if j < k then j else j + 1;
      assert v.writes[j] == w.writes[from];
      assert Reports(w, w.writes[from].0, w.writes[from].1, maxRetry);
    }
    forall i | 0 <= i < |v.rows| ensures Truthful(v, v.rows[i], maxRetry) {
      assert Truthful(w, w.rows[i], maxRetry);
    }
  }

  lemma DispatchKeepsSound(w: World, a: Action, maxRetry: nat)
    requires Sound(w, maxRetry) && (a.Insert? || a.Enqueue? || a.EnqueueRefused? || a.Settle?)
    ensures Sound(Next(w, a, maxRetry), maxRetry)
  {
    var v := Next(w, a, maxRetry);
    forall i | 0 <= i < |v.rows| ensures Truthful(v, v.rows[i], maxRetry) {
      if i < |w.rows| {
        assert Truthful(w, w.rows[i], maxRetry);
      }
    }
    forall j | 0 <= j < |v.writes| ensures Reports(v, v.writes[j].0, v.writes[j].1, maxRetry) {
      assert Reports(w, w.writes[j].0, w.writes[j].1, maxRetry);
    }
  }

  lemma StepKeepsSound(w: World, a: Action, maxRetry: nat)
    requires Sound(w, maxRetry)
    ensures Sound(Next(w, a, maxRetry), maxRetry)
  {
    match a
    case RunTask(id, ok, acknowledged) =>
      if id in w.tasks && !w.tasks[id].finished {
        AttemptKeepsSound(w, id, ok, acknowledged, maxRetry);
      }
    case RecordWrite(k) => if k < |w.writes| { RecordKeepsSound(w, k, maxRetry); }
    case LoseWrite(k) => if k < |w.writes| { LoseKeepsSound(w, k, maxRetry); }
    case _ => DispatchKeepsSound(w, a, maxRetry);
  }

  /** In every schedule of dispatchers and worker attempts, with writes late, lost or out of order: a row reads
      "success" only if the merchant was reached, "failed" only after the last permitted attempt or when its task
      was never enqueued, "duplicate" only in the latter case; and the attempt count never passes maxRetry + 1. */
  lemma {:induction false} RowsTellTheTruth(actions: seq<Action>, maxRetry: nat)
    ensures Sound(Schedule(actions, maxRetry), maxRetry)
  {
    if |actions| > 0 {
      RowsTellTheTruth(actions[..|actions| - 1], maxRetry);
      StepKeepsSound(Schedule(actions[..|actions| - 1], maxRetry), actions[|actions| - 1], maxRetry);
    }
  }

  /** When the dispatcher settles a row, that row's task was never enqueued and nothing else has written it. */
  lemma DispatcherSettlesItsOwn(actions: seq<Action>, maxRetry: nat, id: nat)
    ensures var w := Schedule(actions, maxRetry);
            id in w.dispatching ==>
              && id !in w.tasks && (forall k :: 0 <= k < |w.writes| ==> w.writes[k].0 != id)
              && (forall i :: 0 <= i < |w.rows| && w.rows[i].id == id ==>
                    w.rows[i].status == Queued && w.rows[i].attempts == 0)
  {
    RowsTellTheTruth(actions, maxRetry);
    var w := Schedule(actions, maxRetry);
    if id in w.dispatching {
      forall k | 0 <= k < |w.writes| ensures w.writes[k].0 != id {
        assert Reports(w, w.writes[k].0, w.writes[k].1, maxRetry);
      }
      forall i | 0 <= i < |w.rows| && w.rows[i].id == id ensures w.rows[i].status == Queued && w.rows[i].attempts == 0 {
        assert Truthful(w, w.rows[i], maxRetry);
      }
    }
  }

  /** Rows are never removed; a "success" row never changes again and no attempt count goes down. */
  ghost predicate Advances(before: seq<Row>, after: seq<Row>) {
    && |before| <= |after|
    && forall i :: 0 <= i < |before| ==>
         && after[i].attempts >= before[i].attempts && after[i].id == before[i].id
         && (before[i].status == Succeeded ==> after[i] == before[i])
  }

  lemma {:induction false} SuccessIsFinal(actions: seq<Action>, n: nat, maxRetry: nat)
    requires n <= |actions|
    ensures Advances(Schedule(actions[..n], maxRetry).rows, Schedule(actions, maxRetry).rows)
  {
    if n == |actions| {
      assert actions[..n] == actions;
    } else {
      var before := actions[..|actions| - 1];
      assert before[..n] == actions[..n];
      SuccessIsFinal(before, n, maxRetry);
      assert Advances(Schedule(before, maxRetry).rows, Schedule(actions, maxRetry).rows);
    }
  }

  // ---------------------------------------------------------------- the attempts behind the rows

  /** One attempt: the `number`-th of its task, and whether the merchant gave a good answer. */
  datatype Try = Try(id: nat, number: nat, ok: bool)

  /** History of a schedule: every attempt made, those whose outcome waits to be written, and those whose outcome was
      written, in the order of the writes. */
  datatype Journal = Journal(made: seq<Try>, waiting: seq<Try>, recorded: seq<Try>)

  function CountOf(attempts: seq<Try>, id: nat): nat {
    if |attempts| == 0 then 0
    else CountOf(attempts[..|attempts| - 1], id) + if attempts[|attempts| - 1].id == id then 1 else 0
  }

  function JournalNext(j: Journal, w: World, a: Action): Journal {
    match a
    case RunTask(id, ok, _) =>
      if id in w.tasks && !w.tasks[id].finished then
        var x := Try(id, CountOf(j.made, id) + 1, ok);
        j.(made := j.made + [x], waiting := j.waiting + [x])
      else j
    case RecordWrite(k) =>
      if k < |j.waiting| then j.(waiting := Without(j.waiting, k), recorded := j.recorded + [j.waiting[k]]) else j
    case LoseWrite(k) => if k < |j.waiting| then j.(waiting := Without(j.waiting, k)) else j
    case _ => j
  }

  function JournalOf(actions: seq<Action>, maxRetry: nat): Journal {
    if |actions| == 0 then Journal([], [], [])
    else
      var before := actions[..|actions| - 1];
      JournalNext(JournalOf(before, maxRetry), Schedule(before, maxRetry), actions[|actions| - 1])
  }

  /** The outcome says of the attempt: good, bad with retries left, or bad and the last permitted one. */
  predicate Says(r: Result, a: Try, maxRetry: nat) {
    && r.attempts == a.number
    && (r.status == Succeeded <==> a.ok)
    && (r.status == Retrying <==> !a.ok && a.number <= maxRetry)
    && (r.status == Failed <==> !a.ok && a.number == maxRetry + 1)
  }

  ghost predicate GoodRecorded(recorded: seq<Try>, id: nat) {
    exists k :: 0 <= k < |recorded| && recorded[k].id == id && recorded[k].ok
  }

  /** The last outcome written for a row. */
  function LastRecorded(recorded: seq<Try>, id: nat): Option<Try> {
    if |recorded| == 0 then None
    else if recorded[|recorded| - 1].id == id then Some(recorded[|recorded| - 1])
    else LastRecorded(recorded[..|recorded| - 1], id)
  }

  /** The row reads "success" exactly when a good attempt of its task has been recorded; until then it shows the
      attempt recorded last, and has not been written by the worker when there is none. */
  ghost predicate Shows(row: Row, recorded: seq<Try>, maxRetry: nat) {
    var last := LastRecorded(recorded, row.id);
    && (row.status == Succeeded <==> GoodRecorded(recorded, row.id))
    && (row.status != Succeeded && last.Some? ==>
          row.attempts >= last.value.number && row.status == if last.value.number <= maxRetry then Retrying else Failed)
    && (last.None? ==> row.attempts == 0 && row.status in {Queued, Failed, Duplicated})
  }

  ghost predicate Kept(w: World, j: Journal, maxRetry: nat) {
    && |j.waiting| == |w.writes|
    && (forall k :: 0 <= k < |w.writes| ==>
          w.writes[k].0 == j.waiting[k].id && Says(w.writes[k].1, j.waiting[k], maxRetry))
    && (forall id :: id in w.tasks && !w.tasks[id].finished ==> CountOf(j.made, id) == w.tasks[id].retried)
    && (forall id :: id !in w.tasks ==> CountOf(j.made, id) == 0)
    && (forall k :: 0 <= k < |j.waiting| ==> j.waiting[k].id in w.tasks)
    && (forall k :: 0 <= k < |j.recorded| ==> j.recorded[k].id in w.tasks)
    && (forall i :: 0 <= i < |w.rows| ==> Shows(w.rows[i], j.recorded, maxRetry))
  }

  lemma {:induction false} NothingRecorded(recorded: seq<Try>, id: nat)
    requires forall k :: 0 <= k < |recorded| ==> recorded[k].id != id
    ensures LastRecorded(recorded, id).None? && !GoodRecorded(recorded, id)
  {
    if |recorded| > 0 { NothingRecorded(recorded[..|recorded| - 1], id); }
  }

  lemma RecordedExtends(recorded: seq<Try>, a: Try, id: nat)
    ensures LastRecorded(recorded + [a], id) == if a.id == id then Some(a) else LastRecorded(recorded, id)
    ensures GoodRecorded(recorded + [a], id) <==> GoodRecorded(recorded, id) || (a.id == id && a.ok)
  {
    var more := recorded + [a];
    assert more[..|recorded|] == recorded && more[|recorded|] == a;
    if GoodRecorded(recorded, id) {
      var k :| 0 <= k < |recorded| && recorded[k].id == id && recorded[k].ok;
      assert more[k] == recorded[k];
    }
  }

  lemma CountExtends(made: seq<Try>, a: Try)
    ensures forall id :: CountOf(made + [a], id) == CountOf(made, id) + if a.id == id then 1 else 0
  {
    assert (made + [a])[..|made|] == made;
  }

  lemma AttemptIsJournalled(w: World, j: Journal, id: nat, ok: bool, acknowledged: bool, maxRetry: nat)
    requires Sound(w, maxRetry) && Kept(w, j, maxRetry) && id in w.tasks && !w.tasks[id].finished
    ensures var a := RunTask(id, ok, acknowledged); Kept(Next(w, a, maxRetry), JournalNext(j, w, a), maxRetry)
  {
    hide Shows, Truthful, Reports, CountOf, Says, AttemptResult;
    CountExtends(j.made, Try(id, CountOf(j.made, id) + 1, ok));
    ResultSays(id, w.tasks[id].retried, maxRetry, ok);
    var a := RunTask(id, ok, acknowledged);
    var v, after := Next(w, a, maxRetry), JournalNext(j, w, a);
    forall k | 0 <= k < |v.writes|
      ensures v.writes[k].0 == after.waiting[k].id && Says(v.writes[k].1, after.waiting[k], maxRetry)
    {
      if k < |w.writes| { assert v.writes[k] == w.writes[k] && after.waiting[k] == j.waiting[k]; }
    }
  }

  lemma ResultSays(id: nat, retried: nat, maxRetry: nat, ok: bool)
    requires retried <= maxRetry
    ensures Says(AttemptResult(retried, maxRetry, ok), Try(id, retried + 1, ok), maxRetry)
  {
  }

  lemma RecordedRowShows(row: Row, recorded: seq<Try>, r: Result, a: Try, maxRetry: nat)
    requires Shows(row, recorded, maxRetry) && row.id == a.id && Says(r, a, maxRetry) && 1 <= a.number <= maxRetry + 1
    ensures Shows(Updated(row, r), recorded + [a], maxRetry)
  {
    RecordedExtends(recorded, a, row.id);
    hide GoodRecorded, LastRecorded;
  }

  lemma OtherRowShows(row: Row, recorded: seq<Try>, a: Try, maxRetry: nat)
    requires Shows(row, recorded, maxRetry) && row.id != a.id
    ensures Shows(row, recorded + [a], maxRetry)
  {
    RecordedExtends(recorded, a, row.id);
    hide GoodRecorded, LastRecorded;
  }

  lemma RecordIsJournalled(w: World, j: Journal, k: nat, maxRetry: nat)
    requires Sound(w, maxRetry) && Kept(w, j, maxRetry) && k < |w.writes|
    ensures Kept(Next(w, RecordWrite(k), maxRetry), JournalNext(j, w, RecordWrite(k)), maxRetry)
  {
    var v, after := Next(w, RecordWrite(k), maxRetry), JournalNext(j, w, RecordWrite(k));
    var a := j.waiting[k];
    assert Reports(w, w.writes[k].0, w.writes[k].1, maxRetry);
    forall i | 0 <= i < |v.rows| ensures Shows(v.rows[i], after.recorded, maxRetry) {
      if w.rows[i].id == a.id {
        RecordedRowShows(w.rows[i], j.recorded, w.writes[k].1, a, maxRetry);
      } else {
        OtherRowShows(w.rows[i], j.recorded, a, maxRetry);
      }
    }
    hide Shows, Truthful, Sound, CountOf;
    forall m | 0 <= m < |v.writes|
      ensures v.writes[m].0 == after.waiting[m].id && Says(v.writes[m].1, after.waiting[m], maxRetry)
    {
      var from := if m < k then m else m + 1;
      assert v.writes[m] == w.writes[from] && after.waiting[m] == j.waiting[from];
    }
  }

  lemma LossIsJournalled(w: World, j: Journal, k: nat, maxRetry: nat)
    requires Kept(w, j, maxRetry) && k < |w.writes|
    ensures Kept(Next(w, LoseWrite(k), maxRetry), JournalNext(j, w, LoseWrite(k)), maxRetry)
  {
    var v, after := Next(w, LoseWrite(k), maxRetry), JournalNext(j, w, LoseWrite(k));
    hide Shows, CountOf;
    forall m | 0 <= m < |v.writes|
      ensures v.writes[m].0 == after.waiting[m].id && Says(v.writes[m].1, after.waiting[m], maxRetry)
    {
      var from := if m < k then m else m + 1;
      assert v.writes[m] == w.writes[from] && after.waiting[m] == j.waiting[from];
    }
  }

  lemma DispatchIsJournalled(w: World, j: Journal, a: Action, maxRetry: nat)
    requires Sound(w, maxRetry) && Kept(w, j, maxRetry)
    requires a.Insert? || a.Enqueue? || a.EnqueueRefused? || a.Settle?
    ensures Kept(Next(w, a, maxRetry), j, maxRetry)
  {
    var v := Next(w, a, maxRetry);
    forall i | 0 <= i < |v.rows| ensures Shows(v.rows[i], j.recorded, maxRetry) {
      if i < |w.rows| {
        assert Truthful(w, w.rows[i], maxRetry);
        if a.Settle? && w.rows[i].id == a.id && a.id in w.dispatching { NothingRecorded(j.recorded, a.id); }
      } else {
        NothingRecorded(j.recorded, w.nextId);
      }
    }
  }

  lemma StepIsJournalled(w: World, j: Journal, a: Action, maxRetry: nat)
    requires Sound(w, maxRetry) && Kept(w, j, maxRetry)
    ensures Kept(Next(w, a, maxRetry), JournalNext(j, w, a), maxRetry)
  {
    hide Sound;
    match a
    case RunTask(id, ok, acknowledged) =>
      if id in w.tasks && !w.tasks[id].finished { AttemptIsJournalled(w, j, id, ok, acknowledged, maxRetry); }
    case RecordWrite(k) => if k < |w.writes| { RecordIsJournalled(w, j, k, maxRetry); }
    case LoseWrite(k) => if k < |w.writes| { LossIsJournalled(w, j, k, maxRetry); }
    case _ => DispatchIsJournalled(w, j, a, maxRetry);
  }

  lemma {:induction false} ScheduleIsJournalled(actions: seq<Action>, maxRetry: nat)
    ensures Kept(Schedule(actions, maxRetry), JournalOf(actions, maxRetry), maxRetry)
  {
    if |actions| > 0 {
      var before := actions[..|actions| - 1];
      RowsTellTheTruth(before, maxRetry);
      ScheduleIsJournalled(before, maxRetry);
      StepIsJournalled(Schedule(before, maxRetry), JournalOf(before, maxRetry), actions[|actions| - 1], maxRetry);
    }
  }

  /** In every schedule each outcome waiting to be written is that of one attempt, and says exactly how it went:
      "success" when it was good, "retrying" when it failed with retries left, "failed" when it failed as the last. */
  lemma OutcomesReportTheirAttempts(actions: seq<Action>, maxRetry: nat, k: nat)
    ensures |JournalOf(actions, maxRetry).waiting| == |Schedule(actions, maxRetry).writes|
    ensures k < |Schedule(actions, maxRetry).writes| ==>
              var write, attempt := Schedule(actions, maxRetry).writes[k], JournalOf(actions, maxRetry).waiting[k];
              && write.0 == attempt.id && write.1.attempts == attempt.number
              && (write.1.status == Succeeded <==> attempt.ok)
              && (write.1.status == Retrying <==> !attempt.ok && attempt.number <= maxRetry)
              && (write.1.status == Failed <==> !attempt.ok && attempt.number == maxRetry + 1)
  {
    ScheduleIsJournalled(actions, maxRetry);
    hide Schedule, JournalOf;
  }

  /** In every schedule a row reads "success" exactly when a good attempt of its task has been recorded; otherwise it
      shows the attempt recorded last. */
  lemma SucceededExactlyWhen(actions: seq<Action>, maxRetry: nat, i: nat)
    requires i < |Schedule(actions, maxRetry).rows|
    ensures var row, recorded := Schedule(actions, maxRetry).rows[i], JournalOf(actions, maxRetry).recorded;
            && (row.status == Succeeded <==> exists k :: 0 <= k < |recorded| && recorded[k].id == row.id && recorded[k].ok)
            && (row.status != Succeeded && LastRecorded(recorded, row.id).Some? ==>
                  row.status == if LastRecorded(recorded, row.id).value.number <= maxRetry then Retrying else Failed)
  {
    ScheduleIsJournalled(actions, maxRetry);
    hide Schedule, JournalOf, LastRecorded;
  }

  // ---------------------------------------------------------------- what a row was inserted with, and refusals

  ghost predicate WasInserted(actions: seq<Action>, row: Row) {
    row.payload.Some?
    && exists k :: 0 <= k < |actions|
                   && actions[k] == Insert(row.va, row.event, row.trigger, row.at, row.payload.value, false)
  }

  lemma WasInsertedEarlier(actions: seq<Action>, row: Row, now: Row)
    requires |actions| > 0 && WasInserted(actions[..|actions| - 1], row)
    requires now.va == row.va && now.event == row.event && now.trigger == row.trigger && now.at == row.at
             && now.payload == row.payload
    ensures WasInserted(actions, now)
  {
    var before := actions[..|actions| - 1];
    var k :| 0 <= k < |before| && before[k] == Insert(row.va, row.event, row.trigger, row.at, row.payload.value, false);
    assert actions[k] == before[k];
  }

  /** In every schedule a row holds the number, event, trigger, time and payload it was inserted with. */
  lemma {:induction false} RowsHoldWhatWasInserted(actions: seq<Action>, maxRetry: nat, i: nat)
    requires i < |Schedule(actions, maxRetry).rows|
    ensures WasInserted(actions, Schedule(actions, maxRetry).rows[i])
  {
    if |actions| > 0 {
      var n := |actions| - 1;
      var w, v := Schedule(actions[..n], maxRetry), Schedule(actions, maxRetry);
      hide Schedule;
      if i < |w.rows| {
        RowsHoldWhatWasInserted(actions[..n], maxRetry, i);
        StepKeepsContent(w, actions[n], maxRetry, i);
        hide WasInserted;
        WasInsertedEarlier(actions, w.rows[i], v.rows[i]);
      } else {
        assert actions[n].Insert? && !actions[n].fails;
      }
    }
  }

  lemma StepKeepsContent(w: World, a: Action, maxRetry: nat, i: nat)
    requires i < |w.rows|
    ensures var v := Next(w, a, maxRetry);
            && i < |v.rows| && v.rows[i] == w.rows[i].(status := v.rows[i].status, attempts := v.rows[i].attempts)
  {
  }

  /** How the queue refused the task, if it did: as a duplicate, or otherwise. */
  function RefusedAs(actions: seq<Action>, maxRetry: nat, id: nat): Option<bool> {
    if |actions| == 0 then None
    else
      var before, a := actions[..|actions| - 1], actions[|actions| - 1];
      var w := Schedule(before, maxRetry);
      if a.EnqueueRefused? && a.id == id && id in w.dispatching && w.dispatching[id] == Inserted then Some(a.duplicate)
      else RefusedAs(before, maxRetry, id)
  }

  /** What the refusal of task `id` left: the dispatcher about to settle its row, or the row as settled. */
  ghost predicate RefusalKept(w: World, refused: Option<bool>, id: nat) {
    && (id in w.dispatching && w.dispatching[id].Refused? ==>
          && w.dispatching[id].status in {Failed, Duplicated}
          && refused == Some(w.dispatching[id].status == Duplicated))
    && (id !in w.tasks ==>
          forall i :: 0 <= i < |w.rows| && w.rows[i].id == id ==>
            && w.rows[i].status in {Queued, Failed, Duplicated}
            && (w.rows[i].status != Queued ==> refused == Some(w.rows[i].status == Duplicated)))
  }

  lemma StepKeepsRefusal(w: World, a: Action, maxRetry: nat, refused: Option<bool>, id: nat)
    requires Sound(w, maxRetry) && RefusalKept(w, refused, id)
    ensures var now := if a.EnqueueRefused? && a.id == id && id in w.dispatching && w.dispatching[id] == Inserted
                       then Some(a.duplicate) else refused;
            RefusalKept(Next(w, a, maxRetry), now, id)
  {
    forall i | 0 <= i < |w.rows| ensures Truthful(w, w.rows[i], maxRetry) {
    }
    if a.RecordWrite? && a.k < |w.writes| { assert Reports(w, w.writes[a.k].0, w.writes[a.k].1, maxRetry); }
    hide Reports;
  }

  lemma {:induction false} RefusalsKept(actions: seq<Action>, maxRetry: nat, id: nat)
    ensures RefusalKept(Schedule(actions, maxRetry), RefusedAs(actions, maxRetry, id), id)
  {
    if |actions| > 0 {
      var before := actions[..|actions| - 1];
      RowsTellTheTruth(before, maxRetry);
      RefusalsKept(before, maxRetry, id);
      StepKeepsRefusal(Schedule(before, maxRetry), actions[|actions| - 1], maxRetry, RefusedAs(before, maxRetry, id), id);
      hide RefusalKept, Sound, Next;
    }
  }

  /** In every schedule the row of a task that was never enqueued is still queued, or reads "duplicate" or "failed" as
      the queue refused it. */
  lemma RefusedRowReadsAsRefused(actions: seq<Action>, maxRetry: nat, i: nat)
    requires var w := Schedule(actions, maxRetry); i < |w.rows| && w.rows[i].id !in w.tasks
    ensures var row := Schedule(actions, maxRetry).rows[i];
            && row.status in {Queued, Failed, Duplicated}
            && (row.status == Duplicated ==> RefusedAs(actions, maxRetry, row.id) == Some(true))
            && (row.status == Failed ==> RefusedAs(actions, maxRetry, row.id) == Some(false))
  {
    RefusalsKept(actions, maxRetry, Schedule(actions, maxRetry).rows[i].id);
    hide Schedule, RefusedAs;
  }
}

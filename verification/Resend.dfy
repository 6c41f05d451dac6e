/** The bulk resend: every original callback of a range goes out once more, or none does. */
module Resend {
  import opened Domain
  import opened Delivery

  const MAX_BULK_RESEND := 500

  /** `va` is "" and `statuses` is [] when not filtered on. */
  datatype Filter = Filter(start: int, end: int, va: string, statuses: seq<DeliveryStatus>)

  datatype Enqueued = Accepted | DuplicateTask | Unavailable

  /** The answer of ReconstructPayload for a row that stored no payload. */
  datatype Rebuild = Rebuilt(payload: Payload) | Unrecoverable | RebuildError

  /** How the calls around one original go. */
  datatype Luck = Luck(createFails: bool, enqueue: Enqueued, updateFails: bool, rebuild: Rebuild)

  datatype ItemStatus = Skipped | Left(status: DeliveryStatus)

  datatype Item = Item(source: nat, va: string, event: string, reconstructed: bool, delivery: Option<nat>,
                       status: ItemStatus)

  /** The delivery rows, the next id uuid.New would give, and everything enqueued. */
  datatype Store = Store(rows: seq<Row>, nextId: nat, queue: seq<(nat, Payload)>)

  function LTrim(s: string): string {
    if s != "" && s[0] == ' ' then LTrim(s[1..]) else s
  }

  predicate Matches(row: Row, f: Filter) {
    && row.trigger == Auto && f.start <= row.at < f.end
    && (f.va == "" || LTrim(row.va) == LTrim(f.va))
    && (f.statuses == [] || row.status in f.statuses)
  }

  function Matching(rows: seq<Row>, f: Filter): (r: seq<Row>)
    ensures |r| <= |rows|
    ensures forall i :: 0 <= i < |r| ==> Matches(r[i], f) && r[i] in rows
  {
    if |rows| == 0 then []
    else Matching(rows[..|rows| - 1], f) + if Matches(rows[|rows| - 1], f) then [rows[|rows| - 1]] else []
  }

  /** `row` before the first later one of a list in the order of attempted_at. */
  function InsertByTime(row: Row, rows: seq<Row>): (r: seq<Row>)
    ensures |r| == |rows| + 1
  {
    if rows == [] || row.at < rows[|rows| - 1].at then
      if rows == [] then [row] else InsertByTime(row, rows[..|rows| - 1]) + [rows[|rows| - 1]]
    else rows + [row]
  }

  /** ORDER BY attempted_at ASC; rows of one instant stay in the order they were stored. */
  function ByTime(rows: seq<Row>): (r: seq<Row>)
    ensures |r| == |rows|
  {
    if rows == [] then [] else InsertByTime(rows[|rows| - 1], ByTime(rows[..|rows| - 1]))
  }

  predicate InOrder(rows: seq<Row>) {
    forall i, j :: 0 <= i < j < |rows| ==> rows[i].at <= rows[j].at
  }

  lemma {:induction false} InsertAddsOne(row: Row, rows: seq<Row>)
    ensures multiset(InsertByTime(row, rows)) == multiset(rows) + multiset{row}
  {
    if rows != [] && row.at < rows[|rows| - 1].at {
      var n := |rows| - 1;
      InsertAddsOne(row, rows[..n]);
      assert rows == rows[..n] + [rows[n]];
    }
  }

  lemma AppendKeepsOrder(rows: seq<Row>, last: Row)
    requires InOrder(rows) && forall i :: 0 <= i < |rows| ==> rows[i].at <= last.at
    ensures InOrder(rows + [last])
  {
  }

  lemma {:induction false} InsertKeepsOrder(row: Row, rows: seq<Row>)
    requires InOrder(rows)
    ensures InOrder(InsertByTime(row, rows))
  {
    if rows != [] && row.at < rows[|rows| - 1].at {
      var n := |rows| - 1;
      var before := InsertByTime(row, rows[..n]);
      InsertKeepsOrder(row, rows[..n]);
      InsertAddsOne(row, rows[..n]);
      hide InsertByTime;
      forall i | 0 <= i < |before| ensures before[i].at <= rows[n].at {
        assert before[i] in multiset(before);
        assert before[i] in rows[..n] || before[i] == row;
      }
      AppendKeepsOrder(before, rows[n]);
    }
  }

  /** The selection is sorted by time and holds exactly the matching rows. */
  lemma {:induction false} ByTimeSorts(rows: seq<Row>)
    ensures InOrder(ByTime(rows)) && multiset(ByTime(rows)) == multiset(rows)
  {
    if rows != [] {
      var n := |rows| - 1;
      ByTimeSorts(rows[..n]);
      InsertKeepsOrder(rows[n], ByTime(rows[..n]));
      InsertAddsOne(rows[n], ByTime(rows[..n]));
      assert rows == rows[..n] + [rows[n]];
    }
  }

  /** The originals in the range, oldest first. */
  function ListForResend(rows: seq<Row>, f: Filter, limit: nat): (r: seq<Row>)
    ensures |r| <= limit
  {
    var all := ByTime(Matching(rows, f));
    if |all| <= limit then all else all[..limit]
  }

  predicate Blank(s: string) {
    forall i :: 0 <= i < |s| ==> s[i] == ' '
  }

  /** The two numbers are the same once some leading blanks of each are dropped. */
  predicate SameNumber(a: string, b: string) {
    exists i, j :: 0 <= i <= |a| && 0 <= j <= |b| && Blank(a[..i]) && Blank(b[..j]) && a[i..] == b[j..]
  }

  lemma {:induction false} LTrimDropsBlanks(s: string) returns (i: nat)
    ensures i <= |s| && Blank(s[..i]) && LTrim(s) == s[i..] && (i < |s| ==> s[i] != ' ')
  {
    i := 0;
    if s != "" && s[0] == ' ' {
      var k := LTrimDropsBlanks(s[1..]);
      assert s[1..][..k] == s[1..k + 1] && s[1..][k..] == s[k + 1..];
      i := k + 1;
      forall m | 0 <= m < i ensures s[..i][m] == ' ' {
        if m > 0 { assert s[1..][..k][m - 1] == ' '; }
      }
    } else {
      assert s[..0] == "";
    }
  }

  lemma BlankTail(s: string)
    requires s != "" && Blank(s)
    ensures Blank(s[1..])
  {
  }

  lemma {:induction false} LTrimSkips(s: string, i: nat)
    requires i <= |s| && Blank(s[..i])
    ensures LTrim(s) == LTrim(s[i..])
  {
    if i > 0 {
      assert s[..i][0] == ' ';
      assert s[1..][..i - 1] == s[..i][1..];
      BlankTail(s[..i]);
      LTrimSkips(s[1..], i - 1);
      assert s[1..][i - 1..] == s[i..];
    }
  }

  lemma LTrimAgreesExactlyWhen(a: string, b: string)
    ensures LTrim(a) == LTrim(b) <==> SameNumber(a, b)
  {
    var i := LTrimDropsBlanks(a);
    var j := LTrimDropsBlanks(b);
    if m, n :| 0 <= m <= |a| && 0 <= n <= |b| && Blank(a[..m]) && Blank(b[..n]) && a[m..] == b[n..] {
      LTrimSkips(a, m);
      LTrimSkips(b, n);
    }
  }

  /** The filter asks for this row: an automatic one of the window, of this number if one is named, padding aside, and
      in one of the statuses if any are. */
  predicate AskedFor(row: Row, f: Filter) {
    && row.trigger != Manual && f.start <= row.at && row.at < f.end
    && (f.va != "" ==> SameNumber(row.va, f.va)) && (|f.statuses| > 0 ==> row.status in f.statuses)
  }

  /** Every row is selected as often as it is stored if the filter asks for it, and not at all otherwise. */
  lemma SelectsExactlyTheAskedFor(rows: seq<Row>, f: Filter, row: Row)
    ensures multiset(ByTime(Matching(rows, f)))[row] == if AskedFor(row, f) then multiset(rows)[row] else 0
  {
    ByTimeSorts(Matching(rows, f));
    LTrimAgreesExactlyWhen(row.va, f.va);
    MatchingKeepsEach(rows, f, row);
  }

  lemma {:induction false} MatchingKeepsEach(rows: seq<Row>, f: Filter, row: Row)
    ensures multiset(Matching(rows, f))[row] == if Matches(row, f) then multiset(rows)[row] else 0
  {
    if |rows| > 0 {
      var n := |rows| - 1;
      MatchingKeepsEach(rows[..n], f, row);
      assert rows == rows[..n] + [rows[n]];
    }
  }

  datatype Dispatched = Dispatched(store: Store, id: nat, status: DeliveryStatus)

  /** Row first, then the enqueue; only a refused enqueue is settled here. */
  function Dispatch(s: Store, va: string, event: string, trigger: Trigger, payload: Payload, at: int,
                    luck: Luck): Dispatched {
    var id := s.nextId;
    var row := Row(id, va, event, trigger, Queued, at, Some(payload), 0);
    var created := s.(rows := if luck.createFails then s.rows else s.rows + [row], nextId := id + 1);
    if luck.enqueue == Accepted then Dispatched(created.(queue := s.queue + [(id, payload)]), id, Queued)
    else
      var status := if luck.enqueue == DuplicateTask then Duplicated else Failed;
      var settled := if luck.updateFails then created.rows else UpdateDeliveryResult(created.rows, id, Result(status, 0));
      Dispatched(created.(rows := settled), id, status)
  }

  datatype ResentOne = ResentOne(store: Store, item: Item)

  /** The payload a resend of `original` carries. */
  function SourcePayload(original: Row, luck: Luck): Option<Payload> {
    if original.payload.Some? then original.payload
    else if luck.rebuild.Rebuilt? then Some(luck.rebuild.payload)
    else None
  }

  function ResendOne(s: Store, original: Row, luck: Luck, now: int): ResentOne {
    var rebuilt := original.payload.None?;
    var item := Item(original.id, original.va, original.event, rebuilt, None, Skipped);
    match SourcePayload(original, luck)
    case None =>
      ResentOne(s, item.(reconstructed := false, status := if luck.rebuild.RebuildError? then Left(Failed) else Skipped))
    case Some(payload) =>
      if payload.url == "" then ResentOne(s, item)
      else
        var out := Dispatch(s, original.va, original.event, Manual, payload, now, luck);
        ResentOne(out.store, item.(delivery := Some(out.id), status := Left(out.status)))
  }

  datatype Resent = Resent(store: Store, items: seq<Item>)

  function ResendEach(s: Store, originals: seq<Row>, luck: nat -> Luck, now: int): Resent {
    if |originals| == 0 then Resent(s, [])
    else
      var n := |originals| - 1;
      var before := ResendEach(s, originals[..n], luck, now);
      var out := ResendOne(before.store, originals[n], luck(n), now);
      Resent(out.store, before.items + [out.item])
  }

  /** None is the refusal of a range that matches too many. */
  function ResendRange(s: Store, f: Filter, luck: nat -> Luck, now: int): (Store, Option<seq<Item>>) {
    var originals := ListForResend(s.rows, f, MAX_BULK_RESEND + 1);
    if |originals| > MAX_BULK_RESEND then (s, None)
    else
      var out := ResendEach(s, originals, luck, now);
      (out.store, Some(out.items))
  }

  // ---------------------------------------------------------------- as it runs

  class Deliveries {
    var rows: seq<Row>
    var nextId: nat
    var queue: seq<(nat, Payload)>

    ghost function View(): Store
      reads this
    {
      Store(rows, nextId, queue)
    }

    constructor ()
      ensures View() == Store([], 0, [])
    {
      rows, nextId, queue := [], 0, [];
    }

    method NewId() returns (id: nat)
      modifies this`nextId
      ensures id == old(nextId) && nextId == id + 1
    {
      id := nextId;
      nextId := nextId + 1;
    }

    method Create(row: Row, fails: bool)
      modifies this`rows
      ensures rows == if fails then old(rows) else old(rows) + [row]
    {
      if !fails { rows := rows + [row]; }
    }

    method Update(id: nat, r: Result, fails: bool)
      modifies this`rows
      ensures rows == if fails then old(rows) else UpdateDeliveryResult(old(rows), id, r)
    {
      if !fails { rows := UpdateDeliveryResult(rows, id, r); }
    }

    method Enqueue(id: nat, payload: Payload, outcome: Enqueued)
      modifies this`queue
      ensures queue == if outcome == Accepted then old(queue) + [(id, payload)] else old(queue)
    {
      if outcome == Accepted { queue := queue + [(id, payload)]; }
    }

    method DispatchNotification(va: string, event: string, trigger: Trigger, payload: Payload, at: int, luck: Luck)
      returns (id: nat, status: DeliveryStatus)
      modifies this
      ensures Dispatched(View(), id, status) == Dispatch(old(View()), va, event, trigger, payload, at, luck)
    {
      id := NewId();
      Create(Row(id, va, event, trigger, Queued, at, Some(payload), 0), luck.createFails);
      status := Queued;
      Enqueue(id, payload, luck.enqueue);
      if luck.enqueue == Accepted { return; }
      status := Failed;
      if luck.enqueue == DuplicateTask { status := Duplicated; }
      Update(id, Result(status, 0), luck.updateFails);
    }
  }

  class ResendCallbackUsecase {
    const store: Deliveries

    constructor (store: Deliveries)
      ensures this.store == store
    {
      this.store := store;
    }

    /** The body of the loop. */
    method One(original: Row, luck: Luck, now: int) returns (item: Item)
      modifies store
      ensures ResentOne(store.View(), item) == ResendOne(old(store.View()), original, luck, now)
    {
      item := Item(original.id, original.va, original.event, false, None, Skipped);
      var source := original.payload;
      if source.None? {
        match luck.rebuild {
          case Rebuilt(payload) =>
            source := Some(payload);
            item := item.(reconstructed := true);
          case Unrecoverable =>
          case RebuildError => item := item.(status := Left(Failed));
        }
      }
      if source.Some? && source.value.url != "" {
        var id, status := store.DispatchNotification(original.va, original.event, Manual, source.value, now, luck);
        item := item.(delivery := Some(id), status := Left(status));
      }
    }

    method Range(f: Filter, luck: nat -> Luck, now: int) returns (items: Option<seq<Item>>)
      modifies store
      ensures (store.View(), items) == ResendRange(old(store.View()), f, luck, now)
    {
      var originals := ListForResend(store.rows, f, MAX_BULK_RESEND + 1);
      if |originals| > MAX_BULK_RESEND { return None; }
      var done := [];
      var i := 0;
      while i < |originals|
        invariant i <= |originals|
        invariant Resent(store.View(), done) == ResendEach(old(store.View()), originals[..i], luck, now)
      {
        var item := One(originals[i], luck(i), now);
        done := done + [item];
        assert originals[..i + 1][..i] == originals[..i];
        i := i + 1;
      }
      assert originals[..i] == originals;
      return Some(done);
    }
  }

  // ---------------------------------------------------------------- what a resend does and leaves alone

  /** Ids are handed out once. */
  ghost predicate FreshIds(s: Store) {
    forall i :: 0 <= i < |s.rows| ==> s.rows[i].id < s.nextId
  }

  /** The store only gained manual rows. */
  ghost predicate AddsManualRows(before: Store, after: Store) {
    && FreshIds(after) && before.rows <= after.rows && before.queue <= after.queue
    && forall i :: |before.rows| <= i < |after.rows| ==> after.rows[i].trigger == Manual
  }

  lemma AddingGrows(before: Store, after: Store)
    requires AddsManualRows(before, after)
    ensures before.queue <= after.queue && before.rows <= after.rows
  {
  }

  lemma ResendOneAddsManualRows(s: Store, original: Row, luck: Luck, now: int)
    requires FreshIds(s)
    ensures AddsManualRows(s, ResendOne(s, original, luck, now).store)
  {
  }

  lemma {:induction false} ResendEachAddsManualRows(s: Store, originals: seq<Row>, luck: nat -> Luck, now: int)
    requires FreshIds(s)
    ensures AddsManualRows(s, ResendEach(s, originals, luck, now).store)
  {
    if |originals| > 0 {
      var n := |originals| - 1;
      ResendEachAddsManualRows(s, originals[..n], luck, now);
      ResendOneAddsManualRows(ResendEach(s, originals[..n], luck, now).store, originals[n], luck(n), now);
    }
  }

  lemma {:induction false} ManualRowsNeverMatch(rows: seq<Row>, more: seq<Row>, f: Filter)
    requires rows <= more && forall i :: |rows| <= i < |more| ==> more[i].trigger == Manual
    ensures Matching(more, f) == Matching(rows, f)
  {
    if |more| == |rows| {
      assert more == rows;
    } else {
      ManualRowsNeverMatch(rows, more[..|more| - 1], f);
    }
  }

  /** A resend changes the candidates of no later resend, whatever that one filters on: the same rows, in the
      same order, with the same contents. */
  lemma ResendKeepsCandidates(s: Store, f: Filter, luck: nat -> Luck, now: int, g: Filter, limit: nat)
    requires FreshIds(s)
    ensures var after := ResendRange(s, f, luck, now).0;
            FreshIds(after) && ListForResend(after.rows, g, limit) == ListForResend(s.rows, g, limit)
  {
    var originals := ListForResend(s.rows, f, MAX_BULK_RESEND + 1);
    if |originals| <= MAX_BULK_RESEND {
      ResendEachAddsManualRows(s, originals, luck, now);
      ManualRowsNeverMatch(s.rows, ResendEach(s, originals, luck, now).store.rows, g);
    }
  }

  /** One request for a resend. */
  datatype Request = Request(f: Filter, luck: nat -> Luck, now: int)

  function ResendRun(s: Store, requests: seq<Request>): Store {
    if |requests| == 0 then s
    else
      var r := requests[|requests| - 1];
      ResendRange(ResendRun(s, requests[..|requests| - 1]), r.f, r.luck, r.now).0
  }

  /** Any number of resends later, a range still selects exactly the originals it selected at first. */
  lemma {:induction false} ResendsNeverFeedResends(s: Store, requests: seq<Request>, g: Filter, limit: nat)
    requires FreshIds(s)
    ensures FreshIds(ResendRun(s, requests))
    ensures ListForResend(ResendRun(s, requests).rows, g, limit) == ListForResend(s.rows, g, limit)
  {
    if |requests| > 0 {
      var before := requests[..|requests| - 1];
      var r := requests[|requests| - 1];
      ResendsNeverFeedResends(s, before, g, limit);
      ResendKeepsCandidates(ResendRun(s, before), r.f, r.luck, r.now, g, limit);
    }
  }

  /** The resend of `original` carries this payload: the stored one, whatever a rebuild would give, or else the rebuilt
      one. */
  predicate Carries(original: Row, luck: Luck, payload: Payload) {
    original.payload == Some(payload) || (original.payload.None? && luck.rebuild == Rebuilt(payload))
  }

  /** There is something to send, and somewhere to send it. */
  predicate CanBeSent(original: Row, luck: Luck) {
    if original.payload.Some? then original.payload.value.url != ""
    else luck.rebuild.Rebuilt? && luck.rebuild.payload.url != ""
  }

  /** What the item for `original` must say, given the rows and everything enqueued by the end. */
  predicate Answers(item: Item, original: Row, luck: Luck, now: int, s: Store) {
    && item.source == original.id && item.va == original.va && item.event == original.event
    && (item.reconstructed <==> original.payload.None? && luck.rebuild.Rebuilt?)
    && (item.delivery.Some? <==> CanBeSent(original, luck))
    && (item.status == Skipped <==>
          !CanBeSent(original, luck) && !(original.payload.None? && luck.rebuild.RebuildError?))
    && (item.status == Left(Queued) <==> CanBeSent(original, luck) && luck.enqueue == Accepted)
    && (item.status == Left(Duplicated) <==> CanBeSent(original, luck) && luck.enqueue == DuplicateTask)
    && (item.status.Left? ==> item.status.status in {Queued, Duplicated, Failed})
    && (item.status == Left(Queued) ==>
          exists k :: 0 <= k < |s.queue| && s.queue[k].0 == item.delivery.value && Carries(original, luck, s.queue[k].1))
    && (item.delivery.Some? && !luck.createFails ==>
          exists k :: 0 <= k < |s.rows| && ResentRow(s.rows[k], item, original, luck, now))
  }

  /** The row the resend of `original` leaves. */
  predicate ResentRow(row: Row, item: Item, original: Row, luck: Luck, now: int) {
    && item.delivery == Some(row.id) && row.va == original.va && row.event == original.event && row.trigger == Manual
    && row.at == now && row.attempts == 0 && row.payload.Some? && Carries(original, luck, row.payload.value)
    && (if luck.updateFails then row.status == Queued else item.status == Left(row.status))
  }

  lemma AnswersLater(item: Item, original: Row, luck: Luck, now: int, s: Store, more: Store)
    requires Answers(item, original, luck, now, s) && s.queue <= more.queue && s.rows <= more.rows
    ensures Answers(item, original, luck, now, more)
  {
    if item.delivery.Some? && !luck.createFails {
      var k :| 0 <= k < |s.rows| && ResentRow(s.rows[k], item, original, luck, now);
      assert more.rows[k] == s.rows[k];
    }
    if item.status == Left(Queued) {
      var k :| 0 <= k < |s.queue| && s.queue[k].0 == item.delivery.value && Carries(original, luck, s.queue[k].1);
      assert more.queue[k] == s.queue[k];
    }
  }

  lemma {:induction false} ItemsAnswerOriginals(s: Store, originals: seq<Row>, luck: nat -> Luck, now: int)
    requires FreshIds(s)
    ensures var out := ResendEach(s, originals, luck, now);
            && |out.items| == |originals|
            && forall i :: 0 <= i < |originals| ==> Answers(out.items[i], originals[i], luck(i), now, out.store)
  {
    hide ResendOne, Answers, AddsManualRows, FreshIds;
    if |originals| > 0 {
      var n := |originals| - 1;
      var before := ResendEach(s, originals[..n], luck, now);
      var last := ResendOne(before.store, originals[n], luck(n), now);
      ItemsAnswerOriginals(s, originals[..n], luck, now);
      ResendEachAddsManualRows(s, originals[..n], luck, now);
      ResendOneAddsManualRows(before.store, originals[n], luck(n), now);
      LastItemAnswers(before.store, originals[n], luck(n), now);
      AddingGrows(before.store, last.store);
      assert ResendEach(s, originals, luck, now) == Resent(last.store, before.items + [last.item]);
      hide ResendEach;
      forall i | 0 <= i < n ensures Answers(before.items[i], originals[i], luck(i), now, last.store) {
        assert originals[..n][i] == originals[i];
        AnswersLater(before.items[i], originals[i], luck(i), now, before.store, last.store);
      }
    }
  }

  lemma LastItemAnswers(s: Store, original: Row, luck: Luck, now: int)
    requires FreshIds(s)
    ensures var out := ResendOne(s, original, luck, now);
            Answers(out.item, original, luck, now, out.store)
  {
    if CanBeSent(original, luck) {
      var payload := SourcePayload(original, luck).value;
      var out := ResendOne(s, original, luck, now);
      if luck.enqueue == Accepted { assert out.store.queue[|s.queue|] == (s.nextId, payload); }
      if !luck.createFails { assert ResentRow(out.store.rows[|s.rows|], out.item, original, luck, now); }
    }
  }

  function TaskOf(item: Item, original: Row, luck: Luck): seq<(nat, Payload)> {
    var payload := SourcePayload(original, luck);
    if item.status == Left(Queued) && item.delivery.Some? && payload.Some?
    then [(item.delivery.value, payload.value)] else []
  }

  /** The queue entries the items account for: one per item left "queued", carrying its original's payload. */
  function Tasks(items: seq<Item>, originals: seq<Row>, luck: nat -> Luck): seq<(nat, Payload)>
    requires |items| == |originals|
  {
    if |items| == 0 then []
    else
      var n := |items| - 1;
      Tasks(items[..n], originals[..n], luck) + TaskOf(items[n], originals[n], luck(n))
  }

  /** Nothing else is enqueued, and the order is the originals'. */
  lemma {:induction false} EnqueuesExactlyTheTasks(s: Store, originals: seq<Row>, luck: nat -> Luck, now: int)
    ensures var out := ResendEach(s, originals, luck, now);
            |out.items| == |originals| && out.store.queue == s.queue + Tasks(out.items, originals, luck)
  {
    if |originals| > 0 {
      var n := |originals| - 1;
      EnqueuesExactlyTheTasks(s, originals[..n], luck, now);
      var before := ResendEach(s, originals[..n], luck, now);
      var last := ResendOne(before.store, originals[n], luck(n), now);
      OneEnqueues(before.store, originals[n], luck(n), now);
      TasksExtend(before.items, last.item, originals, luck);
    }
  }

  lemma OneEnqueues(s: Store, original: Row, luck: Luck, now: int)
    ensures var out := ResendOne(s, original, luck, now);
            out.store.queue == s.queue + TaskOf(out.item, original, luck)
  {
  }

  lemma TasksExtend(items: seq<Item>, item: Item, originals: seq<Row>, luck: nat -> Luck)
    requires |originals| == |items| + 1
    ensures var n := |items|;
            Tasks(items + [item], originals, luck)
            == Tasks(items, originals[..n], luck) + TaskOf(item, originals[n], luck(n))
  {
    assert (items + [item])[..|items|] == items;
  }

  /** All or nothing: a range with more than 500 originals is refused and leaves everything alone; any other answers
      every original, in order, and enqueues for each the payload the original carried, and nothing else. */
  lemma AllOrRefused(s: Store, f: Filter, luck: nat -> Luck, now: int)
    requires FreshIds(s)
    ensures var out := ResendRange(s, f, luck, now);
            var originals := ByTime(Matching(s.rows, f));
            && (out.1.None? <==> |Matching(s.rows, f)| > 500)
            && (out.1.None? ==> out.0 == s)
            && (out.1.Some? ==>
                  && |out.1.value| == |originals|
                  && out.0.queue == s.queue + Tasks(out.1.value, originals, luck)
                  && forall i :: 0 <= i < |originals| ==>
                       Answers(out.1.value[i], originals[i], luck(i), now, out.0))
  {
    EnqueuesExactlyTheTasks(s, ByTime(Matching(s.rows, f)), luck, now);
    ItemsAnswerOriginals(s, ByTime(Matching(s.rows, f)), luck, now);
  }
}

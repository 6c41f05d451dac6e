/** Asking the vendor: when it moves money, and what a whole sweep amounts to. */
module Reconciliation {
  import opened Domain
  import opened Tables
  import opened Steps
  import opened Invariant

  /** The answer that settles: 2002600, flag "00" or "02", and an amount. */
  predicate ConfirmsPayment(answer: VendorAnswer) {
    && answer.Answer? && answer.code == StatusSuccess && answer.data.Some?
    && answer.data.value.flag in {VFlag00, VFlag02} && answer.data.value.paid.Some?
  }

  /** A reconciliation settles exactly when the row was read pending and inquired, the answer confirms a
      payment, and a row is still pending; otherwise it leaves everything but the audit trail alone. */
  lemma SettlesExactlyWhenConfirmed(db: Db, record: Txn, answer: VendorAnswer)
    ensures var out := ReconcileRecord(db, record, answer);
            && (out.outcome == OutSettled <==>
                  && record.status == Pending && !record.IsPlaceholder()
                  && ConfirmsPayment(answer) && AnyPending(db.txns, record.va))
            && (out.outcome != OutSettled ==> out.db == Audit(db, record.va, out.outcome))
            && out.db.attempts == db.attempts + [Attempt(record.va, out.outcome)]
  {
  }

  /** Why a reconciliation settles nothing. */
  lemma OutcomeExactlyWhen(db: Db, record: Txn, answer: VendorAnswer)
    ensures var outcome := ReconcileRecord(db, record, answer).outcome;
            var asked := record.status == Pending && !record.IsPlaceholder();
            var answered := asked && answer.Answer? && answer.data.Some?;
            var flagged := answered && answer.code == StatusSuccess;
            && (outcome == OutAlreadySettled <==>
                  record.status != Pending || (asked && ConfirmsPayment(answer) && !AnyPending(db.txns, record.va)))
            && (outcome == OutPending <==> flagged && answer.data.value.flag == VFlag03)
            && (outcome == OutNotPaid <==>
                  || (record.status == Pending && record.IsPlaceholder())
                  || (answered && answer.code == StatusNotFound)
                  || (flagged && answer.data.value.flag in {VFlag01, VFlagOther}))
            && (outcome == OutError <==>
                  && asked
                  && (!answered || answer.code == StatusOther
                      || (flagged && answer.data.value.flag in {VFlag00, VFlag02} && answer.data.value.paid.None?)))
  {
  }

  /** A settlement of the number's one pending row is one credit. */
  lemma {:induction false} SettleCreditsOne(txns: seq<Txn>, va: string, paid: int, id: string, i: nat)
    requires i < |txns| && Pends(txns[i], va)
    requires forall j :: 0 <= j < |txns| && Pends(txns[j], va) ==> j == i
    ensures SettleCredits(txns, va, paid, id) == [Credit(i, va, id, paid, txns[i].url)]
  {
    var n := |txns| - 1;
    if i == n {
      SettleCreditsNone(txns[..n], va, paid, id);
    } else {
      SettleCreditsOne(txns[..n], va, paid, id, i);
    }
  }

  lemma {:induction false} SettleCreditsNone(txns: seq<Txn>, va: string, paid: int, id: string)
    requires !AnyPending(txns, va)
    ensures SettleCredits(txns, va, paid, id) == []
    ensures SettlePending(txns, va, paid, id) == txns
  {
    assert forall i :: 0 <= i < |txns| ==> !Pends(txns[i], va);
    if |txns| > 0 {
      var n := |txns| - 1;
      assert forall i :: 0 <= i < |txns| ==> !Pends(txns[i], va);
      assert !AnyPending(txns[..n], va);
      SettleCreditsNone(txns[..n], va, paid, id);
    }
  }

  /** A settled record: exactly its own row changes, one credit is recorded and one callback sent. */
  lemma SettlesOwnRow(db: Db, i: nat, answer: VendorAnswer)
    requires Inv(db) && i < |db.txns|
    ensures var row := db.txns[i];
            var out := ReconcileRecord(db, row, answer);
            out.outcome == OutSettled ==>
              var data := answer.data.value;
              && out.db.txns == db.txns[i := row.(status := Settled, paid := data.paid,
                                                  paymentId := if data.paymentId != "" then data.paymentId
                                                               else row.paymentId)]
              && out.db.credits == db.credits + [Credit(i, row.va, data.paymentId, data.paid.value, row.url)]
              && out.db.callbacks == db.callbacks
                   + if row.url != "" then [PaymentReceived(row.va, data.paid.value, row.url)] else []
  {
    var row := db.txns[i];
    if ReconcileRecord(db, row, answer).outcome == OutSettled {
      forall j | 0 <= j < |db.txns| && Pends(db.txns[j], row.va) ensures j == i {
        OnePendingRow(db.txns, row.va, i, j);
      }
      SettleCreditsOne(db.txns, row.va, answer.data.value.paid.value, answer.data.value.paymentId, i);
    }
  }

  /** Reconciling a record leaves the rows of every other number alone. */
  lemma OtherNumbersUntouched(db: Db, record: Txn, answer: VendorAnswer, i: nat)
    requires i < |db.txns| && db.txns[i].va != record.va
    ensures |ReconcileRecord(db, record, answer).db.txns| == |db.txns|
    ensures ReconcileRecord(db, record, answer).db.txns[i] == db.txns[i]
  {
  }

  lemma {:induction false} SweepLeavesOthers(db: Db, records: seq<Txn>, vendor: VendorBook, i: nat)
    requires i < |db.txns| && forall k :: 0 <= k < |records| ==> records[k].va != db.txns[i].va
    ensures |SweepRecords(db, records, vendor).db.txns| == |db.txns|
    ensures SweepRecords(db, records, vendor).db.txns[i] == db.txns[i]
  {
    if |records| > 0 {
      var n := |records| - 1;
      SweepLeavesOthers(db, records[..n], vendor, i);
      OtherNumbersUntouched(SweepRecords(db, records[..n], vendor).db, records[n],
                            AnswerFor(vendor, records[n].va), i);
    }
  }

  /** A selection of pending rows of `db`, no row twice. */
  ghost predicate PendingSelection(db: Db, ids: seq<nat>) {
    && (forall k :: 0 <= k < |ids| ==> ids[k] < |db.txns| && db.txns[ids[k]].status == Pending)
    && (forall k, l :: 0 <= k < l < |ids| ==> ids[k] < ids[l])
  }

  /** When its turn comes, a selected record still is the row of the table: the sweep acted on other numbers. */
  lemma RecordStillFresh(db: Db, ids: seq<nat>, vendor: VendorBook)
    requires Inv(db) && PendingSelection(db, ids) && |ids| > 0
    ensures var n := |ids| - 1;
            var mid := SweepRecords(db, Selected(db.txns, ids[..n]), vendor).db;
            && Inv(mid) && |mid.txns| == |db.txns| && mid.txns[ids[n]] == db.txns[ids[n]]
            && Best(mid.txns, db.txns[ids[n]].va) == Some(ids[n])
  {
    var n := |ids| - 1;
    var records := Selected(db.txns, ids[..n]);
    forall k | 0 <= k < n ensures records[k].va != db.txns[ids[n]].va {
      if records[k].va == db.txns[ids[n]].va { OnePendingRow(db.txns, records[k].va, ids[k], ids[n]); }
    }
    SweepKeepsInv(db, records, vendor);
    SweepLeavesOthers(db, records, vendor, ids[n]);
    BestIsThePendingRow(SweepRecords(db, records, vendor).db.txns, db.txns[ids[n]].va, ids[n]);
  }

  /** Reconciling the numbers of `vas` on demand, one after the other. */
  function ReconcileEach(db: Db, vas: seq<string>, vendor: VendorBook): Db {
    if |vas| == 0 then db
    else
      var n := |vas| - 1;
      var mid := ReconcileEach(db, vas[..n], vendor);
      Step(mid, ReconcileOne(vas[n], AnswerFor(vendor, vas[n])))
  }

  function Numbers(records: seq<Txn>): (r: seq<string>)
    ensures |r| == |records| && forall k :: 0 <= k < |r| ==> r[k] == records[k].va
  {
    seq(|records|, k requires 0 <= k < |records| => records[k].va)
  }

  lemma FreshRecordIsReconcile(db: Db, i: nat, answer: VendorAnswer)
    requires i < |db.txns| && Best(db.txns, db.txns[i].va) == Some(i)
    ensures ReconcileRecord(db, db.txns[i], answer).db == Step(db, ReconcileOne(db.txns[i].va, answer))
  {
  }

  /** The last record of the sweep is reconciled as it would be on demand. */
  lemma LastRecordIsReconcile(db: Db, ids: seq<nat>, vendor: VendorBook)
    requires Inv(db) && PendingSelection(db, ids) && |ids| > 0
    ensures var n, records := |ids| - 1, Selected(db.txns, ids);
            SweepRecords(db, records, vendor).db
            == Step(SweepRecords(db, records[..n], vendor).db,
                    ReconcileOne(records[n].va, AnswerFor(vendor, records[n].va)))
  {
    var n, records := |ids| - 1, Selected(db.txns, ids);
    assert records[..n] == Selected(db.txns, ids[..n]);
    RecordStillFresh(db, ids, vendor);
    FreshRecordIsReconcile(SweepRecords(db, records[..n], vendor).db, ids[n], AnswerFor(vendor, records[n].va));
    hide Inv, PendingSelection, ReconcileRecord, Step;
  }

  lemma {:induction false} SelectionIsReconcileEach(db: Db, ids: seq<nat>, vendor: VendorBook)
    requires Inv(db) && PendingSelection(db, ids)
    ensures var records := Selected(db.txns, ids);
            SweepRecords(db, records, vendor).db == ReconcileEach(db, Numbers(records), vendor)
  {
    hide Inv, Step;
    if |ids| > 0 {
      var n, records := |ids| - 1, Selected(db.txns, ids);
      PendingPrefix(db, ids, n);
      hide PendingSelection;
      SelectionIsReconcileEach(db, ids[..n], vendor);
      LastRecordIsReconcile(db, ids, vendor);
      SelectedPrefix(db.txns, ids, n);
      hide SweepRecords, Selected;
      NumbersPrefix(records, n);
    }
  }

  lemma PendingPrefix(db: Db, ids: seq<nat>, n: nat)
    requires PendingSelection(db, ids) && n <= |ids|
    ensures PendingSelection(db, ids[..n])
    ensures forall k :: 0 <= k < |ids| ==> ids[k] < |db.txns|
  {
  }

  lemma SelectedPrefix(txns: seq<Txn>, ids: seq<nat>, n: nat)
    requires n <= |ids| && forall k :: 0 <= k < |ids| ==> ids[k] < |txns|
    ensures Selected(txns, ids)[..n] == Selected(txns, ids[..n])
  {
  }

  lemma NumbersPrefix(records: seq<Txn>, n: nat)
    requires n <= |records|
    ensures Numbers(records)[..n] == Numbers(records[..n])
  {
  }

  /** A sweep over records read up front does what reconciling each number afresh would do. */
  lemma SweepIsReconcileEach(db: Db, cutoff: nat, now: int, limit: nat, vendor: VendorBook)
    requires Inv(db)
    ensures Sweep(db, cutoff, now, limit, vendor).db ==
            ReconcileEach(db, Numbers(Candidates(db.txns, cutoff, now, limit)), vendor)
  {
    SelectionIsReconcileEach(db, ListStalePending(db.txns, cutoff, now, limit), vendor);
  }

  /** One result and one audit row per candidate, in order. */
  lemma {:induction false} SweepAuditsEach(db: Db, records: seq<Txn>, vendor: VendorBook)
    ensures var out := SweepRecords(db, records, vendor);
            && |out.results| == |records|
            && |out.db.attempts| == |db.attempts| + |records|
            && out.db.attempts[..|db.attempts|] == db.attempts
            && forall k :: 0 <= k < |records| ==>
                 out.db.attempts[|db.attempts| + k] == Attempt(records[k].va, out.results[k])
  {
    if |records| > 0 {
      var n := |records| - 1;
      SweepAuditsEach(db, records[..n], vendor);
      SettlesExactlyWhenConfirmed(SweepRecords(db, records[..n], vendor).db, records[n],
                                  AnswerFor(vendor, records[n].va));
    }
  }

  /** The candidates are exactly the pending, unexpired rows created before the cut-off. */
  lemma {:induction false} StalePendingComplete(txns: seq<Txn>, cutoff: nat, now: int, i: nat)
    requires i < |txns|
    ensures i in StalePending(txns, cutoff, now) <==>
            && i < cutoff && txns[i].status == Pending
            && (txns[i].expires.None? || txns[i].expires.value > now)
  {
    if cutoff > 0 { StalePendingComplete(txns, cutoff - 1, now, i); }
  }

  /** Row `i` is pending, was created before the cut-off and has no expiry that has come. */
  predicate Stale(txns: seq<Txn>, cutoff: nat, now: int, i: nat) {
    && i < |txns| && i < cutoff && txns[i].status == Pending
    && (txns[i].expires.Some? ==> now < txns[i].expires.value)
  }

  /** The stale rows older than row `i`. */
  ghost function OlderStale(txns: seq<Txn>, cutoff: nat, now: int, i: nat): set<nat> {
    set j: nat | j < i && Stale(txns, cutoff, now, j)
  }

  /** The rows below `n` stale at any cut-off from `n` on are as many as StalePending lists at `n`. */
  lemma {:induction false} StaleCounted(txns: seq<Txn>, cutoff: nat, now: int, n: nat)
    requires n <= cutoff
    ensures |OlderStale(txns, cutoff, now, n)| == |StalePending(txns, n, now)|
  {
    if n == 0 {
      assert OlderStale(txns, cutoff, now, 0) == {};
    } else {
      StaleCounted(txns, cutoff, now, n - 1);
      var before := OlderStale(txns, cutoff, now, n - 1);
      assert OlderStale(txns, cutoff, now, n) == if Stale(txns, cutoff, now, n - 1) then before + {n - 1} else before;
    }
  }

  /** StalePending lists each row after the stale rows older than it. */
  lemma {:induction false} ListedAfterOlder(txns: seq<Txn>, cutoff: nat, now: int, k: nat)
    requires k < |StalePending(txns, cutoff, now)|
    ensures |OlderStale(txns, cutoff, now, StalePending(txns, cutoff, now)[k])| == k
  {
    var i := StalePending(txns, cutoff, now)[k];
    StaleCounted(txns, cutoff, now, i);
    PrefixListed(txns, cutoff, now, k);
  }

  lemma {:induction false} PrefixListed(txns: seq<Txn>, cutoff: nat, now: int, k: nat)
    requires k < |StalePending(txns, cutoff, now)|
    ensures |StalePending(txns, StalePending(txns, cutoff, now)[k], now)| == k
  {
    if k < |StalePending(txns, cutoff - 1, now)| { PrefixListed(txns, cutoff - 1, now, k); }
  }

  /** A sweep selects a row exactly when it is pending, unexpired and before the cut-off, and fewer than `limit` such
      rows are older. */
  lemma SelectedExactlyWhen(txns: seq<Txn>, cutoff: nat, now: int, limit: nat, i: nat)
    requires i < |txns|
    ensures i in ListStalePending(txns, cutoff, now, limit) <==>
            Stale(txns, cutoff, now, i) && |OlderStale(txns, cutoff, now, i)| < limit
  {
    var all := StalePending(txns, cutoff, now);
    StalePendingComplete(txns, cutoff, now, i);
    if i in all {
      var k :| 0 <= k < |all| && all[k] == i;
      ListedAfterOlder(txns, cutoff, now, k);
      if k < limit { assert ListStalePending(txns, cutoff, now, limit)[k] == i; }
    }
    if m :| 0 <= m < |ListStalePending(txns, cutoff, now, limit)| && ListStalePending(txns, cutoff, now, limit)[m] == i {
      assert all[m] == i;
      ListedAfterOlder(txns, cutoff, now, m);
    }
  }

  /** A sweep starts with the oldest stale row. */
  lemma OldestFirst(txns: seq<Txn>, cutoff: nat, now: int, limit: nat, i: nat)
    requires limit > 0 && Stale(txns, cutoff, now, i) && forall j :: 0 <= j < i ==> !Stale(txns, cutoff, now, j)
    ensures |ListStalePending(txns, cutoff, now, limit)| > 0 && ListStalePending(txns, cutoff, now, limit)[0] == i
  {
    assert OlderStale(txns, cutoff, now, i) == {};
    SelectedExactlyWhen(txns, cutoff, now, limit, i);
    var first := ListStalePending(txns, cutoff, now, limit)[0];
    SelectedExactlyWhen(txns, cutoff, now, limit, first);
  }

  // ---------------------------------------------------------------- settled at most once

  predicate AsksVendor(e: Event) {
    e.ReconcileOne? || e.SweepAll?
  }

  /** Every credit recorded since `from` is of a row no longer pending, and no row has two. */
  ghost predicate EachRowOnce(db: Db, from: nat) {
    && (forall k :: from <= k < |db.credits| ==>
          db.credits[k].row < |db.txns| && db.txns[db.credits[k].row].status != Pending)
    && (forall k, l :: from <= k < l < |db.credits| ==> db.credits[k].row != db.credits[l].row)
  }

  lemma ReconcileKeepsOnce(db: Db, i: nat, answer: VendorAnswer, from: nat)
    requires Inv(db) && i < |db.txns| && EachRowOnce(db, from)
    ensures EachRowOnce(ReconcileRecord(db, db.txns[i], answer).db, from)
  {
    SettlesOwnRow(db, i, answer);
    SettlesExactlyWhenConfirmed(db, db.txns[i], answer);
  }

  lemma {:induction false} SweepKeepsOnce(db: Db, ids: seq<nat>, vendor: VendorBook, from: nat)
    requires Inv(db) && PendingSelection(db, ids) && EachRowOnce(db, from)
    ensures EachRowOnce(SweepRecords(db, Selected(db.txns, ids), vendor).db, from)
  {
    if |ids| > 0 {
      var n := |ids| - 1;
      var records := Selected(db.txns, ids);
      assert records[..n] == Selected(db.txns, ids[..n]);
      SweepKeepsOnce(db, ids[..n], vendor, from);
      RecordStillFresh(db, ids, vendor);
      ReconcileKeepsOnce(SweepRecords(db, records[..n], vendor).db, ids[n],
                         AnswerFor(vendor, records[n].va), from);
    }
  }

  /** Over any number of sweeps and on-demand reconciliations, no row is settled twice. */
  lemma {:induction false} SettledAtMostOnce(db: Db, run: seq<Event>)
    requires Inv(db) && forall k :: 0 <= k < |run| ==> AsksVendor(run[k])
    ensures EachRowOnce(Run(db, run), |db.credits|)
  {
    if |run| > 0 {
      var n := |run| - 1;
      SettledAtMostOnce(db, run[..n]);
      RunKeepsInv(db, run[..n]);
      AskingKeepsOnce(Run(db, run[..n]), run[n], |db.credits|);
      hide Inv, EachRowOnce, Step;
    }
  }

  lemma AskingKeepsOnce(db: Db, e: Event, from: nat)
    requires Inv(db) && EachRowOnce(db, from) && AsksVendor(e)
    ensures EachRowOnce(Step(db, e), from)
  {
    hide EachRowOnce;
    match e
    case ReconcileOne(va, answer) =>
      if Best(db.txns, va).Some? { ReconcileKeepsOnce(db, Best(db.txns, va).value, answer, from); }
    case SweepAll(cutoff, now, limit, vendor) =>
      SweepKeepsOnce(db, ListStalePending(db.txns, cutoff, now, limit), vendor, from);
  }
}

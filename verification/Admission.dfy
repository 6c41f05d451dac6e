/** Which interleaved requests the idempotency middleware lets into the handler, exactly, over every schedule. */
module Admission {
  import opened Idempotency

  /** Step `m` of the schedule is the record check of `f`, and it passes: the key was not on record then, or the
      request is the double flag of what was. */
  predicate PassesAt(actions: seq<Action>, ttl: int, m: nat, f: nat) {
    && m < |actions| && actions[m] == Check(f)
    && var s := Schedule(actions[..m], ttl);
    && At(s, f) && s.flights[f].phase.Arrived?
    && (s.flights[f].key !in s.records || IsDoubleFlag(s.flights[f].req, s.records[s.flights[f].key]))
  }

  /** The check of `f` passed at step `m` and `f` has neither tried the lock nor died since. */
  ghost predicate PassedAt(actions: seq<Action>, ttl: int, m: nat, f: nat) {
    PassesAt(actions, ttl, m, f) && forall k :: m < k < |actions| ==> actions[k] != Acquire(f) && actions[k] != Abandon(f)
  }

  predicate IsChecked(s: State, f: nat) {
    At(s, f) && s.flights[f].phase.Checked?
  }

  lemma PassedEarlier(actions: seq<Action>, ttl: int, m: nat, f: nat)
    requires |actions| > 0
    ensures var n := |actions| - 1;
            m < n && actions[n] != Acquire(f) && actions[n] != Abandon(f) ==>
              (PassedAt(actions[..n], ttl, m, f) <==> PassedAt(actions, ttl, m, f))
  {
    var n := |actions| - 1;
    if m < n {
      assert actions[..n][..m] == actions[..m] && actions[..n][m] == actions[m];
      if actions[n] != Acquire(f) && actions[n] != Abandon(f) && PassedAt(actions[..n], ttl, m, f) {
        forall k | m < k < |actions| ensures actions[k] != Acquire(f) && actions[k] != Abandon(f) {
          if k < n { assert actions[..n][k] == actions[k]; }
        }
      }
    }
  }

  lemma CheckStep(s: State, a: Action, ttl: int, f: nat)
    ensures var t := Next(s, a, ttl);
            IsChecked(t, f) <==>
              (IsChecked(s, f) && a != Acquire(f) && a != Abandon(f))
              || (a == Check(f) && At(s, f) && s.flights[f].phase.Arrived?
                  && (s.flights[f].key !in s.records || IsDoubleFlag(s.flights[f].req, s.records[s.flights[f].key])))
  {
  }

  /** A flight waits for the lock exactly when its check passed and it has not tried since. */
  lemma {:induction false} CheckedExactlyWhen(actions: seq<Action>, ttl: int, f: nat)
    ensures IsChecked(Schedule(actions, ttl), f) <==> exists m :: 0 <= m < |actions| && PassedAt(actions, ttl, m, f)
  {
    if |actions| > 0 {
      var n := |actions| - 1;
      var s := Schedule(actions[..n], ttl);
      CheckedExactlyWhen(actions[..n], ttl, f);
      CheckStep(s, actions[n], ttl, f);
      forall m ensures 0 <= m < n && actions[n] != Acquire(f) && actions[n] != Abandon(f) ==>
                         (PassedAt(actions[..n], ttl, m, f) <==> PassedAt(actions, ttl, m, f)) {
        if 0 <= m < n { PassedEarlier(actions, ttl, m, f); }
      }
      hide Next, IsChecked;
      if IsChecked(Schedule(actions, ttl), f) {
        if IsChecked(s, f) && actions[n] != Acquire(f) && actions[n] != Abandon(f) {
          var m :| 0 <= m < |actions[..n]| && PassedAt(actions[..n], ttl, m, f);
          assert PassedAt(actions, ttl, m, f);
        } else {
          assert PassedAt(actions, ttl, n, f);
        }
      }
      if m :| 0 <= m < |actions| && PassedAt(actions, ttl, m, f) {
        if m < n {
          assert actions[n] != Acquire(f) && actions[n] != Abandon(f);
          assert PassedAt(actions[..n], ttl, m, f);
        }
      }
    }
  }

  // ---------------------------------------------------------------- the lock

  /** The step lets a flight of `key` into the handler. */
  predicate Admits(s: State, a: Action, key: string) {
    a.Acquire? && IsChecked(s, a.f) && s.flights[a.f].key == key && !Locked(s, key)
  }

  /** The step deletes the lock of `key`. */
  predicate Releases(s: State, a: Action, key: string) {
    a.Release? && At(s, a.f) && s.flights[a.f].phase.Finished? && s.flights[a.f].key == key
  }

  predicate AdmitsAt(actions: seq<Action>, ttl: int, a: nat, key: string) {
    a < |actions| && Admits(Schedule(actions[..a], ttl), actions[a], key)
  }

  predicate ReleasesAt(actions: seq<Action>, ttl: int, r: nat, key: string) {
    r < |actions| && Releases(Schedule(actions[..r], ttl), actions[r], key)
  }

  /** The lock of the admission at step `a` has not been deleted. */
  ghost predicate StandsSince(actions: seq<Action>, ttl: int, a: nat, key: string) {
    AdmitsAt(actions, ttl, a, key) && forall r :: a < r < |actions| ==> !ReleasesAt(actions, ttl, r, key)
  }

  lemma SamePast(actions: seq<Action>, ttl: int, k: nat, key: string)
    requires |actions| > 0 && k < |actions| - 1
    ensures var n := |actions| - 1;
            && actions[..n][..k] == actions[..k] && actions[..n][k] == actions[k]
            && (AdmitsAt(actions[..n], ttl, k, key) <==> AdmitsAt(actions, ttl, k, key))
            && (ReleasesAt(actions[..n], ttl, k, key) <==> ReleasesAt(actions, ttl, k, key))
  {
    assert actions[..|actions| - 1][..k] == actions[..k];
  }

  lemma StandsEarlier(actions: seq<Action>, ttl: int, a: nat, key: string)
    requires |actions| > 0 && a < |actions| - 1
    ensures var n := |actions| - 1;
            StandsSince(actions, ttl, a, key) <==> StandsSince(actions[..n], ttl, a, key) && !ReleasesAt(actions, ttl, n, key)
  {
    var n := |actions| - 1;
    SamePast(actions, ttl, a, key);
    forall r | a < r < n ensures ReleasesAt(actions[..n], ttl, r, key) <==> ReleasesAt(actions, ttl, r, key) {
      SamePast(actions, ttl, r, key);
    }
    hide AdmitsAt, ReleasesAt;
  }

  /** How one step changes the lock of `key`. */
  lemma StepOnLock(s: State, a: Action, ttl: int, key: string)
    ensures var t := Next(s, a, ttl);
            && s.now <= t.now
            && (Admits(s, a, key) ==> key in t.locks && t.locks[key] == s.now + ttl)
            && (Releases(s, a, key) ==> key !in t.locks)
            && (!Admits(s, a, key) && !Releases(s, a, key) ==>
                  (key in t.locks <==> key in s.locks) && (key in s.locks ==> t.locks[key] == s.locks[key]))
  {
  }

  lemma LockStep(actions: seq<Action>, ttl: int, key: string)
    requires |actions| > 0
    ensures var n := |actions| - 1; var s, t := Schedule(actions[..n], ttl), Schedule(actions, ttl);
            && s.now <= t.now
            && (AdmitsAt(actions, ttl, n, key) ==> key in t.locks && t.locks[key] == s.now + ttl)
            && (ReleasesAt(actions, ttl, n, key) ==> key !in t.locks)
            && (!AdmitsAt(actions, ttl, n, key) && !ReleasesAt(actions, ttl, n, key) ==>
                  (key in t.locks <==> key in s.locks) && (key in s.locks ==> t.locks[key] == s.locks[key]))
  {
    StepOnLock(Schedule(actions[..|actions| - 1], ttl), actions[|actions| - 1], ttl, key);
    hide Next, Admits, Releases;
  }

  /** A lock comes from an admission that no release has followed. */
  lemma {:induction false} LockHasAdmission(actions: seq<Action>, ttl: int, key: string) returns (a: nat)
    requires key in Schedule(actions, ttl).locks
    ensures StandsSince(actions, ttl, a, key)
    ensures Schedule(actions, ttl).locks[key] == Schedule(actions[..a], ttl).now + ttl
  {
    var n := |actions| - 1;
    LockStep(actions, ttl, key);
    if AdmitsAt(actions, ttl, n, key) {
      a := n;
    } else {
      a := LockHasAdmission(actions[..n], ttl, key);
      StandsEarlier(actions, ttl, a, key);
      assert actions[..n][..a] == actions[..a];
    }
  }

  /** The lock of an admission stands until it expires or is deleted: nobody of the key is admitted in between. */
  lemma {:induction false} AdmissionLocks(actions: seq<Action>, ttl: int, key: string, a: nat)
    requires StandsSince(actions, ttl, a, key) && Schedule(actions, ttl).now < Schedule(actions[..a], ttl).now + ttl
    ensures var s := Schedule(actions, ttl); key in s.locks && s.locks[key] == Schedule(actions[..a], ttl).now + ttl
  {
    var n := |actions| - 1;
    LockStep(actions, ttl, key);
    if a < n {
      StandsEarlier(actions, ttl, a, key);
      assert actions[..n][..a] == actions[..a];
      AdmissionLocks(actions[..n], ttl, key, a);
      assert Locked(Schedule(actions[..n], ttl), key);
      assert !AdmitsAt(actions, ttl, n, key);
    }
  }

  /** A key is locked exactly while some admission's lock has neither expired nor been deleted, by whomever. */
  lemma LockedExactlyWhen(actions: seq<Action>, ttl: int, key: string)
    ensures Locked(Schedule(actions, ttl), key) <==>
            exists a :: 0 <= a < |actions| && StandsSince(actions, ttl, a, key)
                        && Schedule(actions, ttl).now < Schedule(actions[..a], ttl).now + ttl
  {
    var s := Schedule(actions, ttl);
    if Locked(s, key) {
      var a := LockHasAdmission(actions, ttl, key);
      assert a < |actions|;
    }
    if a :| 0 <= a < |actions| && StandsSince(actions, ttl, a, key) && s.now < Schedule(actions[..a], ttl).now + ttl {
      AdmissionLocks(actions, ttl, key, a);
    }
  }

  // ---------------------------------------------------------------- main results

  /** An attempt on the lock lets the flight into the handler exactly when its record check passed, however long
      ago, and every lock taken for the key since has expired or been deleted. What is on record by now plays no
      part: a key answered in the meantime is handled again if the check was earlier or found a double flag. */
  lemma AdmittedExactlyWhen(actions: seq<Action>, ttl: int, f: nat)
    requires At(Schedule(actions, ttl), f)
    ensures var s := Schedule(actions, ttl); var key := s.flights[f].key;
            Next(s, Acquire(f), ttl) != s && Next(s, Acquire(f), ttl).flights[f].InHandler() <==>
              && (exists m :: 0 <= m < |actions| && PassedAt(actions, ttl, m, f))
              && (forall a :: 0 <= a < |actions| && StandsSince(actions, ttl, a, key) ==>
                    s.now >= Schedule(actions[..a], ttl).now + ttl)
  {
    var s := Schedule(actions, ttl);
    var key := s.flights[f].key;
    CheckedExactlyWhen(actions, ttl, f);
    LockedExactlyWhen(actions, ttl, key);
    AttemptOutcome(s, f, ttl);
    hide Next, IsChecked, Locked, Schedule, StandsSince, PassedAt;
  }

  lemma AttemptOutcome(s: State, f: nat, ttl: int)
    requires At(s, f)
    ensures Next(s, Acquire(f), ttl) != s && Next(s, Acquire(f), ttl).flights[f].InHandler()
            <==> IsChecked(s, f) && !Locked(s, s.flights[f].key)
  {
  }

  /** A flight inside took the lock at its admission. */
  lemma {:induction false} InsideWasAdmitted(actions: seq<Action>, ttl: int, f: nat) returns (a: nat)
    requires At(Schedule(actions, ttl), f) && Schedule(actions, ttl).flights[f].Inside()
    ensures AdmitsAt(actions, ttl, a, Schedule(actions, ttl).flights[f].key) && actions[a] == Acquire(f)
    ensures Schedule(actions[..a], ttl).now == Schedule(actions, ttl).flights[f].phase.since
  {
    var n := |actions| - 1;
    var s := Schedule(actions[..n], ttl);
    StepInside(s, actions[n], ttl, f);
    hide Next, Admits, Locked;
    if At(s, f) && s.flights[f].Inside() {
      a := InsideWasAdmitted(actions[..n], ttl, f);
      SamePast(actions, ttl, a, s.flights[f].key);
    } else {
      a := n;
    }
  }

  lemma StepInside(s: State, a: Action, ttl: int, f: nat)
    requires At(Next(s, a, ttl), f) && Next(s, a, ttl).flights[f].Inside()
    ensures At(s, f) && s.flights[f].key == Next(s, a, ttl).flights[f].key
    ensures if s.flights[f].Inside() then Next(s, a, ttl).flights[f].phase.since == s.flights[f].phase.since
            else a == Acquire(f) && Admits(s, a, s.flights[f].key) && Next(s, a, ttl).flights[f].phase.since == s.now
  {
  }

  /** A second flight of the key enters while `f` is inside only when the lock of `f` has expired, or a release of
      the key has deleted it since `f` was admitted. */
  lemma JoinedOnlyWhen(actions: seq<Action>, ttl: int, f: nat, g: nat) returns (a: nat)
    requires var s := Schedule(actions, ttl);
             && At(s, f) && At(s, g) && s.flights[f].key == s.flights[g].key && s.flights[f].Inside()
             && IsChecked(s, g) && Next(s, Acquire(g), ttl).flights[g].InHandler()
    ensures var s := Schedule(actions, ttl);
            && AdmitsAt(actions, ttl, a, s.flights[f].key) && actions[a] == Acquire(f)
            && (s.now >= s.flights[f].phase.since + ttl
                || exists r :: a < r < |actions| && ReleasesAt(actions, ttl, r, s.flights[f].key))
  {
    var s := Schedule(actions, ttl);
    var key := s.flights[f].key;
    a := InsideWasAdmitted(actions, ttl, f);
    if s.now < s.flights[f].phase.since + ttl && StandsSince(actions, ttl, a, key) {
      AdmissionLocks(actions, ttl, key, a);
      assert Locked(s, key);
    }
  }

  // ---------------------------------------------------------------- the record

  /** The step answers a flight of `key` below 500. */
  predicate Files(s: State, a: Action, key: string) {
    a.Finish? && At(s, a.f) && s.flights[a.f].phase.InHandler? && s.flights[a.f].key == key && a.status <= 499
  }

  ghost predicate Filed(actions: seq<Action>, ttl: int, key: string) {
    exists m :: 0 <= m < |actions| && Files(Schedule(actions[..m], ttl), actions[m], key)
  }

  lemma FiledExtends(actions: seq<Action>, ttl: int, key: string)
    requires |actions| > 0
    ensures var n := |actions| - 1;
            Filed(actions, ttl, key) <==>
            Filed(actions[..n], ttl, key) || Files(Schedule(actions[..n], ttl), actions[n], key)
  {
    hide Schedule, Files;
    var n := |actions| - 1;
    assert forall m :: 0 <= m < n ==> actions[..n][..m] == actions[..m] && actions[..n][m] == actions[m];
    if m :| 0 <= m < n && Files(Schedule(actions[..n][..m], ttl), actions[..n][m], key) {
      assert Files(Schedule(actions[..m], ttl), actions[m], key);
    }
  }

  lemma StepFiles(s: State, a: Action, ttl: int, key: string)
    ensures key in Next(s, a, ttl).records <==> key in s.records || Files(s, a, key)
  {
  }

  /** In every schedule a key is on record exactly when some request with it was answered below 500. */
  lemma {:induction false} RecordedExactlyWhen(actions: seq<Action>, ttl: int, key: string)
    ensures key in Schedule(actions, ttl).records <==>
            exists m :: 0 <= m < |actions| && Files(Schedule(actions[..m], ttl), actions[m], key)
  {
    if |actions| > 0 {
      var n := |actions| - 1;
      RecordedExactlyWhen(actions[..n], ttl, key);
      FiledExtends(actions, ttl, key);
      StepFiles(Schedule(actions[..n], ttl), actions[n], ttl, key);
      hide Files, Next;
    }
  }
}

/**
 Who holds which lock, in every reachable state of the limiter.
 */
module LimiterLocks {
  import opened FixedWindow
  import opened LimiterProtocol

  /** Every reference to a counter is to an existing counter of the right key. */
  ghost predicate RefsOk(s: State) {
    && (forall t :: 0 <= t < |s.threads| && UsesCounter(s.threads[t].pc) ==>
          && s.threads[t].counter < |s.counters|
          && s.counters[s.threads[t].counter].key == s.threads[t].key)
    && (forall key :: key in s.table ==> s.table[key] < |s.counters| && s.counters[s.table[key]].key == key)
  }

  /** The mutex of a counter names exactly the agent that is past its Lock and before its Unlock. */
  ghost predicate MutexesOk(s: State) {
    && (forall c :: 0 <= c < |s.counters| && s.counters[c].holder.Request? ==>
          && s.counters[c].holder.t < |s.threads|
          && HoldsCounter(s.threads[s.counters[c].holder.t].pc)
          && s.threads[s.counters[c].holder.t].counter == c)
    && (forall c :: 0 <= c < |s.counters| && s.counters[c].holder.Cleanup? ==>
          s.sweep.Visiting? && s.sweep.key in s.table && s.table[s.sweep.key] == c)
    && (forall t :: 0 <= t < |s.threads| && HoldsCounter(s.threads[t].pc) && s.threads[t].counter < |s.counters| ==>
          s.counters[s.threads[t].counter].holder == Request(t))
    && (s.sweep.Visiting? && Mapped(s, s.sweep.key) ==> s.counters[s.table[s.sweep.key]].holder.Cleanup?)
  }

  /** rl.mu has at most one announced writer, its readers are the requests in getLimit, and no
      reader is present while a writer is inside. */
  ghost predicate TableLockOk(s: State) {
    && (s.writer.Request? ==>
          s.writer.t < |s.threads| && (s.threads[s.writer.t].pc.Announced? || s.threads[s.writer.t].pc.Fetching?))
    && (forall t :: 0 <= t < |s.threads| && (s.threads[t].pc.Announced? || s.threads[t].pc.Fetching?) ==>
          s.writer == Request(t))
    && (s.writer.Cleanup? <==> !s.sweep.Idle?)
    && (forall t :: t in s.readers ==> t < |s.threads| && s.threads[t].pc.Reading?)
    && (forall t :: 0 <= t < |s.threads| && s.threads[t].pc.Reading? ==> t in s.readers)
    && (forall t :: 0 <= t < |s.threads| && s.threads[t].pc.Fetching? ==> s.readers == {})
    && (Inside(s.sweep) ==> s.readers == {})
  }

  /** Cleanup still has to visit mapped counters only. */
  ghost predicate SweepOk(s: State) {
    && (Inside(s.sweep) ==> s.sweep.pending <= s.table.Keys)
    && (s.sweep.Waiting? || s.sweep.Visiting? ==> s.sweep.key in s.table && s.sweep.key !in s.sweep.pending)
  }

  ghost predicate LocksOk(s: State) {
    RefsOk(s) && MutexesOk(s) && TableLockOk(s) && SweepOk(s)
  }

  // ---------- What requests do ----------

  /** Request `t` moves on; it keeps its key and its counter, and no counter changes its key. */
  ghost predicate Moves(s: State, s': State, t: nat) {
    && t < |s.threads| == |s'.threads|
    && s'.threads[t].key == s.threads[t].key && s'.threads[t].counter == s.threads[t].counter
    && (UsesCounter(s'.threads[t].pc) ==> UsesCounter(s.threads[t].pc))
    && (forall u :: 0 <= u < |s.threads| && u != t ==> s'.threads[u] == s.threads[u])
    && SameKeys(s, s') && s'.table == s.table && s'.sweep == s.sweep
  }

  ghost predicate SameKeys(s: State, s': State) {
    |s'.counters| == |s.counters| && forall c :: 0 <= c < |s.counters| ==> s'.counters[c].key == s.counters[c].key
  }

  /** Apart from counter `c`, if that is one. */
  ghost predicate SameHolders(s: State, s': State, c: int) {
    && |s'.counters| == |s.counters|
    && forall k :: 0 <= k < |s.counters| && k != c ==> s'.counters[k].holder == s.counters[k].holder
  }

  predicate UsesTableLock(pc: Pc) {
    pc.Announced? || pc.Fetching? || pc.Reading?
  }

  ghost predicate SameTableLock(s: State, s': State, t: nat) {
    && s'.writer == s.writer && s'.readers == s.readers
    && t < |s.threads| == |s'.threads| && !UsesTableLock(s.threads[t].pc) && !UsesTableLock(s'.threads[t].pc)
  }

  lemma StepMoves(cfg: Settings, s: State, a: Action, t: nat)
    requires Enabled(s, a) && StepOf(a, t) && !a.Fetch?
    ensures Moves(s, Step(cfg, s, a), t)
  {
  }

  lemma MovesKeepRefs(s: State, s': State, t: nat)
    requires RefsOk(s) && Moves(s, s', t)
    ensures RefsOk(s')
  {
  }

  lemma MovesKeepSweep(s: State, s': State, t: nat)
    requires SweepOk(s) && Moves(s, s', t)
    ensures SweepOk(s')
  {
  }

  /** A step that neither takes nor gives up the mutex of a counter. */
  lemma MovesKeepMutexes(s: State, s': State, t: nat)
    requires RefsOk(s) && MutexesOk(s) && Moves(s, s', t) && SameHolders(s, s', -1)
    requires HoldsCounter(s'.threads[t].pc) == HoldsCounter(s.threads[t].pc)
    ensures MutexesOk(s')
  {
  }

  lemma LockingKeepsMutexes(s: State, s': State, t: nat)
    requires RefsOk(s) && MutexesOk(s) && Moves(s, s', t) && SameHolders(s, s', s.threads[t].counter)
    requires s.threads[t].pc.Fetched? && HoldsCounter(s'.threads[t].pc)
    requires s.counters[s.threads[t].counter].holder.Free?
    requires s'.counters[s.threads[t].counter].holder == Request(t)
    ensures MutexesOk(s')
  {
  }

  lemma UnlockingKeepsMutexes(s: State, s': State, t: nat)
    requires RefsOk(s) && MutexesOk(s) && Moves(s, s', t) && SameHolders(s, s', s.threads[t].counter)
    requires HoldsCounter(s.threads[t].pc) && !HoldsCounter(s'.threads[t].pc)
    requires s'.counters[s.threads[t].counter].holder.Free?
    ensures MutexesOk(s')
  {
    assert s.counters[s.threads[t].counter].holder == Request(t);
  }

  lemma RequestKeepsMutexes(cfg: Settings, s: State, a: Action, t: nat)
    requires RefsOk(s) && MutexesOk(s) && Enabled(s, a) && StepOf(a, t) && !a.Fetch?
    ensures MutexesOk(Step(cfg, s, a))
  {
    StepMoves(cfg, s, a, t);
    if a.LockCounter? {
      LockingKeepsMutexes(s, Step(cfg, s, a), t);
    } else if a.Unlock? {
      UnlockingKeepsMutexes(s, Step(cfg, s, a), t);
    } else {
      HoldersStay(cfg, s, a, t);
      MovesKeepMutexes(s, Step(cfg, s, a), t);
    }
  }

  lemma HoldersStay(cfg: Settings, s: State, a: Action, t: nat)
    requires Enabled(s, a) && StepOf(a, t) && !a.Fetch? && !a.LockCounter? && !a.Unlock?
    ensures SameHolders(s, Step(cfg, s, a), -1)
    ensures HoldsCounter(Step(cfg, s, a).threads[t].pc) == HoldsCounter(s.threads[t].pc)
  {
  }

  lemma MovesKeepTableLock(s: State, s': State, t: nat)
    requires TableLockOk(s) && Moves(s, s', t) && SameTableLock(s, s', t)
    ensures TableLockOk(s')
  {
  }

  lemma AnnounceKeepsTableLock(cfg: Settings, s: State, t: nat)
    requires TableLockOk(s) && Enabled(s, Announce(t))
    ensures TableLockOk(Step(cfg, s, Announce(t)))
  {
  }

  lemma EnterKeepsTableLock(cfg: Settings, s: State, t: nat)
    requires TableLockOk(s) && Enabled(s, Enter(t))
    ensures TableLockOk(Step(cfg, s, Enter(t)))
  {
  }

  lemma ReadLockKeepsTableLock(cfg: Settings, s: State, t: nat)
    requires TableLockOk(s) && Enabled(s, ReadLock(t))
    ensures TableLockOk(Step(cfg, s, ReadLock(t)))
  {
  }

  lemma ReadUnlockKeepsTableLock(cfg: Settings, s: State, t: nat)
    requires TableLockOk(s) && Enabled(s, ReadUnlock(t))
    ensures TableLockOk(Step(cfg, s, ReadUnlock(t)))
  {
  }

  lemma TableLockStays(cfg: Settings, s: State, a: Action, t: nat)
    requires Enabled(s, a) && (a == LockCounter(t) || a == Stamp(t) || a == Decide(t) || a == Unlock(t))
    ensures SameTableLock(s, Step(cfg, s, a), t)
  {
  }

  lemma RequestKeepsTableLock(cfg: Settings, s: State, a: Action, t: nat)
    requires TableLockOk(s) && Enabled(s, a) && StepOf(a, t) && !a.Fetch?
    ensures TableLockOk(Step(cfg, s, a))
  {
    if a == Announce(t) {
      AnnounceKeepsTableLock(cfg, s, t);
    } else if a == Enter(t) {
      EnterKeepsTableLock(cfg, s, t);
    } else if a == ReadLock(t) {
      ReadLockKeepsTableLock(cfg, s, t);
    } else if a == ReadUnlock(t) {
      ReadUnlockKeepsTableLock(cfg, s, t);
    } else {
      StepMoves(cfg, s, a, t);
      TableLockStays(cfg, s, a, t);
      MovesKeepTableLock(s, Step(cfg, s, a), t);
    }
  }

  lemma RequestKeepsLocks(cfg: Settings, s: State, a: Action, t: nat)
    requires LocksOk(s) && Enabled(s, a) && StepOf(a, t) && !a.Fetch?
    ensures LocksOk(Step(cfg, s, a))
  {
    StepMoves(cfg, s, a, t);
    MovesKeepRefs(s, Step(cfg, s, a), t);
    MovesKeepSweep(s, Step(cfg, s, a), t);
    RequestKeepsMutexes(cfg, s, a, t);
    RequestKeepsTableLock(cfg, s, a, t);
  }

  // ---------- Fetching, arriving and the clock ----------

  lemma FetchKeepsRefs(cfg: Settings, s: State, t: nat)
    requires RefsOk(s) && Enabled(s, Fetch(t))
    ensures RefsOk(Step(cfg, s, Fetch(t)))
  {
  }

  /** What fetching leaves as it was: other requests, existing counters, and where keys are mapped. */
  ghost predicate Fetches(s: State, s': State, t: nat) {
    && t < |s.threads| == |s'.threads| && !HoldsCounter(s.threads[t].pc) && s'.threads[t].pc.Fetched?
    && (forall u :: 0 <= u < |s.threads| && u != t ==> s'.threads[u] == s.threads[u])
    && |s.counters| <= |s'.counters|
    && (forall c :: 0 <= c < |s.counters| ==> s'.counters[c] == s.counters[c])
    && (forall c :: |s.counters| <= c < |s'.counters| ==> s'.counters[c].holder.Free?)
    && (forall key :: key in s.table ==> key in s'.table && s'.table[key] == s.table[key])
    && s'.sweep == s.sweep
  }

  lemma StepFetches(cfg: Settings, s: State, t: nat)
    requires Enabled(s, Fetch(t))
    ensures Fetches(s, Step(cfg, s, Fetch(t)), t)
  {
  }

  /** Nobody holds a counter that has just been made, and the request has not locked what it fetched. */
  lemma FetchesKeepMutexes(s: State, s': State, t: nat)
    requires RefsOk(s) && MutexesOk(s) && SweepOk(s) && Fetches(s, s', t)
    ensures MutexesOk(s')
  {
  }

  lemma FetchKeepsSweep(cfg: Settings, s: State, t: nat)
    requires SweepOk(s) && Enabled(s, Fetch(t))
    ensures SweepOk(Step(cfg, s, Fetch(t)))
  {
  }

  lemma FetchKeepsTableLock(cfg: Settings, s: State, t: nat)
    requires TableLockOk(s) && Enabled(s, Fetch(t))
    ensures TableLockOk(Step(cfg, s, Fetch(t)))
  {
  }

  lemma FetchKeepsLocks(cfg: Settings, s: State, t: nat)
    requires LocksOk(s) && Enabled(s, Fetch(t))
    ensures LocksOk(Step(cfg, s, Fetch(t)))
  {
    FetchKeepsRefs(cfg, s, t);
    StepFetches(cfg, s, t);
    FetchesKeepMutexes(s, Step(cfg, s, Fetch(t)), t);
    FetchKeepsSweep(cfg, s, t);
    FetchKeepsTableLock(cfg, s, t);
  }

  lemma ArriveKeepsMutexes(cfg: Settings, s: State, key: Key)
    requires MutexesOk(s)
    ensures MutexesOk(Step(cfg, s, Arrive(key)))
  {
  }

  lemma ArriveKeepsTableLock(cfg: Settings, s: State, key: Key)
    requires TableLockOk(s)
    ensures TableLockOk(Step(cfg, s, Arrive(key)))
  {
  }

  lemma ArriveKeepsRefs(cfg: Settings, s: State, key: Key)
    requires RefsOk(s) && SweepOk(s)
    ensures RefsOk(Step(cfg, s, Arrive(key))) && SweepOk(Step(cfg, s, Arrive(key)))
  {
  }

  lemma ArriveKeepsLocks(cfg: Settings, s: State, key: Key)
    requires LocksOk(s)
    ensures LocksOk(Step(cfg, s, Arrive(key)))
  {
    ArriveKeepsMutexes(cfg, s, key);
    ArriveKeepsTableLock(cfg, s, key);
    ArriveKeepsRefs(cfg, s, key);
  }

  lemma TickKeepsLocks(cfg: Settings, s: State, elapsed: nat)
    requires LocksOk(s)
    ensures LocksOk(Step(cfg, s, Tick(elapsed)))
  {
  }

  // ---------- What cleanup does ----------

  lemma SweepKeepsRefs(cfg: Settings, s: State, a: Action)
    requires RefsOk(s) && Enabled(s, a) && Sweeps(a)
    ensures RefsOk(Step(cfg, s, a))
  {
  }

  lemma SweepKeepsSweep(cfg: Settings, s: State, a: Action)
    requires SweepOk(s) && Enabled(s, a) && Sweeps(a)
    ensures SweepOk(Step(cfg, s, a))
  {
  }

  lemma SweepKeepsTableLock(cfg: Settings, s: State, a: Action)
    requires TableLockOk(s) && Enabled(s, a) && Sweeps(a)
    ensures TableLockOk(Step(cfg, s, a))
  {
  }

  lemma SweepKeepsMutexes(cfg: Settings, s: State, a: Action)
    requires RefsOk(s) && MutexesOk(s) && Enabled(s, a) && Sweeps(a)
    ensures MutexesOk(Step(cfg, s, a))
  {
  }

  lemma SweepKeepsLocks(cfg: Settings, s: State, a: Action)
    requires LocksOk(s) && Enabled(s, a) && Sweeps(a)
    ensures LocksOk(Step(cfg, s, a))
  {
    SweepKeepsRefs(cfg, s, a);
    SweepKeepsSweep(cfg, s, a);
    SweepKeepsTableLock(cfg, s, a);
    SweepKeepsMutexes(cfg, s, a);
  }

  // ---------- Together ----------

  lemma LocksKept(cfg: Settings, s: State, a: Action)
    requires LocksOk(s)
    ensures LocksOk(Next(cfg, s, a))
  {
    if Enabled(s, a) {
      if Sweeps(a) {
        SweepKeepsLocks(cfg, s, a);
      } else if a.Tick? {
        TickKeepsLocks(cfg, s, a.elapsed);
      } else if a.Arrive? {
        ArriveKeepsLocks(cfg, s, a.key);
      } else if a.Fetch? {
        FetchKeepsLocks(cfg, s, a.t);
      } else {
        RequestKeepsLocks(cfg, s, a, a.t);
      }
    }
  }

  /** Whatever the interleaving, every lock is held by exactly who the program counters say. */
  lemma {:induction false} LocksAlways(cfg: Settings, clock: int, run: seq<Action>)
    ensures LocksOk(Exec(cfg, Init(clock), run))
    decreases |run|
  {
    if run != [] {
      LocksAlways(cfg, clock, run[..|run| - 1]);
      LocksKept(cfg, Exec(cfg, Init(clock), run[..|run| - 1]), run[|run| - 1]);
    }
  }
}

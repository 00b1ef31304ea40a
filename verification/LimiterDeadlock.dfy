/**
 When the limiter can get stuck. A request read-locks rl.mu in getLimit while it holds its
 counter; cleanup locks that counter while it holds rl.mu. That cycle is the only way to
 get stuck, and a state can still be drained unless cleanup is already bound to close it.
 */
module LimiterDeadlock {
  import opened FixedWindow
  import opened LimiterProtocol
  import opened LimiterLocks

  /** A step that finishes work already begun: no clock tick, no new request, no new cleanup. */
  predicate Internal(a: Action) {
    !a.Tick? && !a.Arrive? && !a.SweepAnnounce?
  }

  ghost predicate Finished(s: State) {
    s.sweep.Idle? && forall t :: 0 <= t < |s.threads| ==> s.threads[t].pc.Done?
  }

  ghost predicate CanStep(s: State) {
    exists a :: Internal(a) && Enabled(s, a)
  }

  /** Cleanup, inside rl.mu, waits for the counter of a request that waits for rl.mu. */
  ghost predicate Embraced(s: State, t: nat) {
    && s.sweep.Waiting? && Mapped(s, s.sweep.key)
    && At(s, t, Stamped) && s.threads[t].counter == s.table[s.sweep.key]
  }

  ghost predicate Deadlocked(s: State) {
    exists t: nat :: Embraced(s, t)
  }

  /** Cleanup has still to lock the counter of this key before it gives up rl.mu. */
  predicate Ahead(s: State, key: Key) {
    match s.sweep
    case Idle => false
    case Entering => key in s.table
    case Sweeping(_, pending) => key in pending
    case Waiting(_, pending, current) => key in pending || key == current
    case Visiting(_, pending, _) => key in pending
  }

  /** A request holds a counter ahead of cleanup and has not yet been through getLimit. */
  ghost predicate DoomedBy(s: State, t: nat, key: Key) {
    && Ahead(s, key) && key in s.table
    && t < |s.threads| && (s.threads[t].pc.Locked? || s.threads[t].pc.Stamped?)
    && s.threads[t].counter == s.table[key]
  }

  ghost predicate Doomed(s: State) {
    exists t: nat, key: Key :: DoomedBy(s, t, key)
  }

  // ---------- The cycle is permanent ----------

  lemma EmbraceKept(cfg: Settings, s: State, t: nat, a: Action)
    requires LocksOk(s) && Embraced(s, t)
    ensures Embraced(Next(cfg, s, a), t)
  {
    assert s.counters[s.threads[t].counter].holder == Request(t);
  }

  /** Cleanup has announced itself, so the request itself can at most read the clock. */
  lemma DoomKeptByRequest(cfg: Settings, s: State, t: nat, key: Key, a: Action, u: nat)
    requires LocksOk(s) && DoomedBy(s, t, key) && Enabled(s, a) && StepOf(a, u)
    ensures DoomedBy(Step(cfg, s, a), t, key)
  {
    assert s.writer.Cleanup?;
    StepMoves(cfg, s, a, u);
    if u == t {
      assert a == Stamp(t);
    }
  }

  /** The request has its counter locked, so cleanup does not get past it. */
  lemma DoomKeptByCleanup(cfg: Settings, s: State, t: nat, key: Key, a: Action)
    requires LocksOk(s) && DoomedBy(s, t, key) && Enabled(s, a) && Sweeps(a)
    ensures DoomedBy(Step(cfg, s, a), t, key)
  {
    assert s.counters[s.threads[t].counter].holder == Request(t);
  }

  lemma DoomKept(cfg: Settings, s: State, t: nat, key: Key, a: Action)
    requires LocksOk(s) && DoomedBy(s, t, key)
    ensures DoomedBy(Next(cfg, s, a), t, key)
  {
    if Enabled(s, a) {
      if Sweeps(a) {
        DoomKeptByCleanup(cfg, s, t, key, a);
      } else if !a.Tick? && !a.Arrive? {
        DoomKeptByRequest(cfg, s, t, key, a, a.t);
      }
    }
  }

  lemma {:induction false} DoomForever(cfg: Settings, s: State, t: nat, key: Key, run: seq<Action>)
    requires LocksOk(s) && DoomedBy(s, t, key)
    ensures LocksOk(Exec(cfg, s, run)) && DoomedBy(Exec(cfg, s, run), t, key)
    decreases |run|
  {
    if run != [] {
      DoomForever(cfg, s, t, key, run[..|run| - 1]);
      var s' := Exec(cfg, s, run[..|run| - 1]);
      DoomKept(cfg, s', t, key, run[|run| - 1]);
      LocksKept(cfg, s', run[|run| - 1]);
    }
  }

  // ---------- Otherwise somebody can step ----------

  /** The one thing an unfinished request can try next. */
  function OwnStep(s: State, t: nat): Action
    requires t < |s.threads|
  {
    match s.threads[t].pc
    case Arrived => Announce(t)
    case Announced => Enter(t)
    case Fetching => Fetch(t)
    case Fetched => LockCounter(t)
    case Locked => Stamp(t)
    case Stamped => ReadLock(t)
    case Reading => ReadUnlock(t)
    case Limited => Decide(t)
    case Refused => Unlock(t)
    case Running => Unlock(t)
    case Done(_) => Tick(0)
  }

  /** With rl.mu free, the request itself or the one that holds its counter. */
  lemma StepWhenFree(s: State, t: nat) returns (a: Action)
    requires LocksOk(s) && s.writer.Free?
    requires t < |s.threads| && !s.threads[t].pc.Done?
    ensures Internal(a) && Enabled(s, a)
  {
    a := OwnStep(s, t);
    if s.threads[t].pc.Fetched? && !Enabled(s, a) {
      a := OwnStep(s, s.counters[s.threads[t].counter].holder.t);
    }
  }

  /** A request is the writer: it steps, or a reader it waits for does. */
  lemma StepWhenRequestWrites(s: State) returns (a: Action)
    requires LocksOk(s) && s.writer.Request?
    ensures Internal(a) && Enabled(s, a)
  {
    if s.threads[s.writer.t].pc.Announced? && s.readers != {} {
      var r :| r in s.readers;
      a := ReadUnlock(r);
    } else {
      a := OwnStep(s, s.writer.t);
    }
  }

  /** Cleanup is the writer: it steps, or a reader or counter holder it waits for does. */
  lemma StepWhenCleanupWrites(s: State) returns (a: Action)
    requires LocksOk(s) && s.writer.Cleanup? && !Deadlocked(s)
    ensures Internal(a) && Enabled(s, a) && !a.LockCounter?
  {
    match s.sweep {
      case Entering =>
        if s.readers != {} {
          var r :| r in s.readers;
          a := ReadUnlock(r);
        } else {
          a := SweepEnter;
        }
      case Sweeping(_, pending) =>
        if pending != {} {
          var key :| key in pending;
          a := SweepPick(key);
        } else {
          a := SweepLeave;
        }
      case Waiting(_, _, key) =>
        var holder := s.counters[s.table[key]].holder;
        if holder.Request? {
          assert s.threads[holder.t].pc.Stamped? ==> Embraced(s, holder.t);
          a := OwnStep(s, holder.t);
        } else {
          a := SweepLock;
        }
      case Visiting(_, _, _) =>
        a := SweepVisit;
    }
  }

  lemma DoomedBeforeRequest(cfg: Settings, s: State, a: Action, u: nat, t: nat, key: Key)
    requires LocksOk(s) && Enabled(s, a) && StepOf(a, u) && (a.LockCounter? ==> s.sweep.Idle?)
    requires DoomedBy(Step(cfg, s, a), t, key)
    ensures DoomedBy(s, t, key)
  {
    assert Step(cfg, s, a).sweep == s.sweep;
    if !a.Fetch? {
      StepMoves(cfg, s, a, u);
    }
  }

  lemma DoomedBeforeCleanup(cfg: Settings, s: State, a: Action, t: nat, key: Key)
    requires LocksOk(s) && Enabled(s, a) && Sweeps(a) && !a.SweepAnnounce?
    requires DoomedBy(Step(cfg, s, a), t, key)
    ensures DoomedBy(s, t, key)
  {
  }

  /** Only taking a counter's mutex ahead of cleanup can doom a state. */
  lemma StaysUndoomed(cfg: Settings, s: State, a: Action)
    requires LocksOk(s) && !Doomed(s)
    requires Internal(a) && Enabled(s, a) && (a.LockCounter? ==> s.sweep.Idle?)
    ensures !Doomed(Step(cfg, s, a))
  {
    var s' := Step(cfg, s, a);
    forall t: nat, key: Key | DoomedBy(s', t, key)
      ensures DoomedBy(s, t, key)
    {
      if Sweeps(a) {
        DoomedBeforeCleanup(cfg, s, a, t, key);
      } else {
        DoomedBeforeRequest(cfg, s, a, a.t, t, key);
      }
    }
  }

  lemma SomeStep(cfg: Settings, s: State) returns (a: Action)
    requires LocksOk(s) && !Finished(s) && !Deadlocked(s)
    ensures Internal(a) && Enabled(s, a)
    ensures !Doomed(s) ==> !Doomed(Step(cfg, s, a))
  {
    match s.writer {
      case Free =>
        var t :| 0 <= t < |s.threads| && !s.threads[t].pc.Done?;
        a := StepWhenFree(s, t);
      case Request(_) => a := StepWhenRequestWrites(s);
      case Cleanup => a := StepWhenCleanupWrites(s);
    }
    if !Doomed(s) {
      StaysUndoomed(cfg, s, a);
    }
  }

  // ---------- Every internal step uses up work ----------

  function Rank(pc: Pc): nat {
    match pc
    case Arrived => 9
    case Announced => 8
    case Fetching => 7
    case Fetched => 6
    case Locked => 5
    case Stamped => 4
    case Reading => 3
    case Limited => 2
    case Refused => 1
    case Running => 1
    case Done(_) => 0
  }

  function Work(threads: seq<Thread>): nat {
    if threads == [] then 0 else Work(threads[..|threads| - 1]) + Rank(threads[|threads| - 1].pc)
  }

  function SweepWork(s: State): nat {
    match s.sweep
    case Idle => 0
    case Entering => 3 * |s.table| + 2
    case Sweeping(_, pending) => 3 * |pending| + 1
    case Waiting(_, pending, _) => 3 * |pending| + 3
    case Visiting(_, pending, _) => 3 * |pending| + 2
  }

  lemma {:induction false} WorkUpdate(threads: seq<Thread>, t: nat, th: Thread)
    requires t < |threads|
    ensures Work(threads[t := th]) == Work(threads) - Rank(threads[t].pc) + Rank(th.pc)
  {
    var last := |threads| - 1;
    if t == last {
      assert threads[t := th][..last] == threads[..last];
    } else {
      assert threads[t := th][..last] == threads[..last][t := th];
      WorkUpdate(threads[..last], t, th);
    }
  }

  lemma RequestRankDrops(cfg: Settings, s: State, a: Action, t: nat)
    requires Enabled(s, a) && StepOf(a, t)
    ensures var s' := Step(cfg, s, a);
            && t < |s.threads| == |s'.threads|
            && s'.threads == s.threads[t := s'.threads[t]]
            && Rank(s'.threads[t].pc) < Rank(s.threads[t].pc)
            && s'.sweep == s.sweep
            && (s'.table == s.table || a.Fetch?)
  {
  }

  lemma PickWorkDrops(cfg: Settings, s: State, key: Key)
    requires Enabled(s, SweepPick(key))
    ensures Step(cfg, s, SweepPick(key)).threads == s.threads
    ensures SweepWork(Step(cfg, s, SweepPick(key))) < SweepWork(s)
  {
    assert |s.sweep.pending - {key}| == |s.sweep.pending| - 1;
  }

  lemma SweepWorkDrops(cfg: Settings, s: State, a: Action)
    requires Enabled(s, a)
    requires a.SweepEnter? || a.SweepPick? || a.SweepLock? || a.SweepVisit? || a.SweepLeave?
    ensures Step(cfg, s, a).threads == s.threads && SweepWork(Step(cfg, s, a)) < SweepWork(s)
  {
    if a.SweepPick? {
      PickWorkDrops(cfg, s, a.key);
    } else if a.SweepEnter? {
      assert |s.table.Keys| == |s.table|;
    }
  }

  lemma WorkShrinks(cfg: Settings, s: State, a: Action)
    requires LocksOk(s) && Internal(a) && Enabled(s, a)
    ensures Work(Step(cfg, s, a).threads) + SweepWork(Step(cfg, s, a)) < Work(s.threads) + SweepWork(s)
  {
    if a.SweepEnter? || a.SweepPick? || a.SweepLock? || a.SweepVisit? || a.SweepLeave? {
      SweepWorkDrops(cfg, s, a);
    } else {
      assert StepOf(a, a.t);
      RequestRankDrops(cfg, s, a, a.t);
      WorkUpdate(s.threads, a.t, Step(cfg, s, a).threads[a.t]);
    }
  }

  // ---------- Main results ----------

  /** In every reachable state with unfinished work, somebody can step or cleanup and a request
      are in each other's way; there is no other way to be stuck. */
  lemma ProgressOrEmbrace(cfg: Settings, clock: int, run: seq<Action>)
    ensures var s := Exec(cfg, Init(clock), run); Finished(s) || CanStep(s) || Deadlocked(s)
  {
    LocksAlways(cfg, clock, run);
    var s := Exec(cfg, Init(clock), run);
    if !Finished(s) && !Deadlocked(s) {
      var a := SomeStep(cfg, s);
    }
  }

  /** Once they are, they stay so: no later run finishes. */
  lemma {:induction false} EmbraceForever(cfg: Settings, s: State, t: nat, run: seq<Action>)
    requires LocksOk(s) && Embraced(s, t)
    ensures LocksOk(Exec(cfg, s, run)) && Embraced(Exec(cfg, s, run), t)
    decreases |run|
  {
    if run != [] {
      EmbraceForever(cfg, s, t, run[..|run| - 1]);
      var s' := Exec(cfg, s, run[..|run| - 1]);
      EmbraceKept(cfg, s', t, run[|run| - 1]);
      LocksKept(cfg, s', run[|run| - 1]);
    }
  }

  /** A state that is not doomed has a run of internal steps that finishes everything. */
  lemma {:induction false} DrainRun(cfg: Settings, s: State) returns (run: seq<Action>)
    requires LocksOk(s) && !Doomed(s)
    ensures forall a :: a in run ==> Internal(a)
    ensures Finished(Exec(cfg, s, run))
    decreases Work(s.threads) + SweepWork(s)
  {
    if Finished(s) {
      run := [];
    } else {
      if Deadlocked(s) {
        var t: nat :| Embraced(s, t);
        assert DoomedBy(s, t, s.sweep.key);
      }
      var a := SomeStep(cfg, s);
      LocksKept(cfg, s, a);
      WorkShrinks(cfg, s, a);
      var rest := DrainRun(cfg, Step(cfg, s, a));
      ExecCons(cfg, s, a, rest);
      run := [a] + rest;
    }
  }

  /** Some continuation finishes all work; it may even let new requests in. */
  ghost predicate Drainable(cfg: Settings, s: State) {
    exists run :: Finished(Exec(cfg, s, run))
  }

  /** The exact line: a reachable state can still finish all its work if and only if cleanup has not
      announced itself while a request holds one of the counters ahead of it short of getLimit. */
  lemma DrainableIffNotDoomed(cfg: Settings, clock: int, past: seq<Action>)
    ensures Drainable(cfg, Exec(cfg, Init(clock), past)) <==> !Doomed(Exec(cfg, Init(clock), past))
  {
    LocksAlways(cfg, clock, past);
    var s := Exec(cfg, Init(clock), past);
    if Doomed(s) {
      var t: nat, key: Key :| DoomedBy(s, t, key);
      forall run
        ensures !Finished(Exec(cfg, s, run))
      {
        DoomForever(cfg, s, t, key, run);
        assert !Exec(cfg, s, run).threads[t].pc.Done?;
      }
    } else {
      var run := DrainRun(cfg, s);
    }
  }

  /** One request with its one counter, the request having read the clock at `now`. */
  function Scene(clock: int, key: Key, pc: Pc, now: int, holder: Owner, writer: Owner, sweep: Sweep): State {
    State(clock, [Counter(key, Window(0, clock), holder, 0)], map[key := 0],
          [Thread(key, pc, 0, now, 0)], writer, {}, sweep, [])
  }

  lemma RequestSceneSteps(cfg: Settings, clock: int, key: Key)
    ensures Opened(Init(clock), key) == Scene(clock, key, Fetched, 0, Free, Free, Idle)
    ensures Next(cfg, Scene(clock, key, Fetched, 0, Free, Free, Idle), LockCounter(0))
         == Scene(clock, key, Locked, 0, Request(0), Free, Idle)
    ensures Next(cfg, Scene(clock, key, Locked, 0, Request(0), Free, Idle), Stamp(0))
         == Scene(clock, key, Stamped, clock, Request(0), Free, Idle)
  {
  }

  lemma CleanupSceneSteps(cfg: Settings, clock: int, key: Key)
    ensures Next(cfg, Scene(clock, key, Stamped, clock, Request(0), Free, Idle), SweepAnnounce)
         == Scene(clock, key, Stamped, clock, Request(0), Cleanup, Entering)
    ensures Next(cfg, Scene(clock, key, Stamped, clock, Request(0), Cleanup, Entering), SweepEnter)
         == Scene(clock, key, Stamped, clock, Request(0), Cleanup, Sweeping(clock, {key}))
    ensures Next(cfg, Scene(clock, key, Stamped, clock, Request(0), Cleanup, Sweeping(clock, {key})), SweepPick(key))
         == Scene(clock, key, Stamped, clock, Request(0), Cleanup, Waiting(clock, {}, key))
  {
    assert map[key := 0].Keys == {key};
    assert {key} - {key} == {};
  }

  lemma StuckScene(s: State)
    requires |s.threads| == 1 && |s.counters| == 1 && s.threads[0].pc.Stamped? && s.counters[0].holder == Request(0)
    requires s.threads[0].counter == 0
    requires s.writer.Cleanup? && s.sweep.Waiting? && s.sweep.key in s.table && s.table[s.sweep.key] == 0
    ensures Deadlocked(s) && !Finished(s) && !CanStep(s)
  {
    assert Embraced(s, 0);
  }

  /** The cycle does occur: one request and one cleanup, nine steps, nobody can move. */
  lemma DeadlockReachable(cfg: Settings, clock: int, key: Key) returns (run: seq<Action>)
    ensures var s := Exec(cfg, Init(clock), run); Deadlocked(s) && !Finished(s) && !CanStep(s)
  {
    var s := Init(clock);
    RequestSceneSteps(cfg, clock, key);
    run := OpenRun(cfg, s, key);
    run := Then(cfg, s, run, Scene(clock, key, Fetched, 0, Free, Free, Idle), LockCounter(0));
    run := Then(cfg, s, run, Scene(clock, key, Locked, 0, Request(0), Free, Idle), Stamp(0));
    CleanupSceneSteps(cfg, clock, key);
    run := Then(cfg, s, run, Scene(clock, key, Stamped, clock, Request(0), Free, Idle), SweepAnnounce);
    run := Then(cfg, s, run, Scene(clock, key, Stamped, clock, Request(0), Cleanup, Entering), SweepEnter);
    var sweeping := Sweeping(clock, {key});
    run := Then(cfg, s, run, Scene(clock, key, Stamped, clock, Request(0), Cleanup, sweeping), SweepPick(key));
    StuckScene(Scene(clock, key, Stamped, clock, Request(0), Cleanup, Waiting(clock, {}, key)));
  }
}

/**
 The rate limiter as a step system: unboundedly many requests, one background
 cleanup and a clock that never runs backwards.

 `rl.mu` is a Go RWMutex. A writer first announces itself, which shuts out new readers
 and other writers, and enters once the readers present have left. Each counter has a
 mutex of its own. A request takes `counter.mu` and then `rl.mu` (for reading) while
 cleanup takes `rl.mu` and then `counter.mu`; the handler runs with `counter.mu` held.

 A step is an `Action`. An action that its agent cannot take leaves the state alone, so
 every sequence of actions is a run.
 */
module LimiterProtocol {
  import opened AcceptLog
  import opened FixedWindow

  /** Who holds a lock. */
  datatype Owner = Free | Request(t: nat) | Cleanup

  /** A counter object. `key` is the key it was made for and `since` the length the log
      had when its window was opened; both are history, the code has no such fields. */
  datatype Counter = Counter(key: Key, window: Window, holder: Owner, since: nat)

  datatype Pc =
    | Arrived          // about to call getCounter
    | Announced        // getCounter has announced itself on rl.mu and waits for readers to leave
    | Fetching         // inside getCounter, holding rl.mu
    | Fetched          // has its counter, waits for counter.mu
    | Locked           // holds counter.mu from here to Done
    | Stamped          // has read the clock; waits to read-lock rl.mu in getLimit
    | Reading          // inside getLimit, holding rl.mu for reading
    | Limited          // knows its limit
    | Refused          // over the limit, about to return
    | Running          // the handler runs
    | Done(accepted: bool)

  datatype Thread = Thread(key: Key, pc: Pc, counter: nat, now: int, limit: int)

  datatype Sweep =
    | Idle
    | Entering
    | Sweeping(now: int, pending: set<Key>)
    | Waiting(now: int, pending: set<Key>, key: Key)   // waits for counter.mu
    | Visiting(now: int, pending: set<Key>, key: Key)  // holds counter.mu

  /** `counters` lists every counter object ever made, by address; `table` is
      `requestCounts`, its two levels of maps flattened to one. */
  datatype State = State(
    clock: int,
    counters: seq<Counter>,
    table: map<Key, nat>,
    threads: seq<Thread>,
    writer: Owner,
    readers: set<nat>,
    sweep: Sweep,
    log: seq<Accept>)

  datatype Action =
    | Tick(elapsed: nat)
    | Arrive(key: Key)
    | Announce(t: nat)
    | Enter(t: nat)
    | Fetch(t: nat)
    | LockCounter(t: nat)
    | Stamp(t: nat)
    | ReadLock(t: nat)
    | ReadUnlock(t: nat)
    | Decide(t: nat)
    | Unlock(t: nat)
    | SweepAnnounce
    | SweepEnter
    | SweepPick(key: Key)
    | SweepLock
    | SweepVisit
    | SweepLeave

  /** The request still has a use for its counter object. */
  predicate UsesCounter(pc: Pc) {
    pc.Fetched? || HoldsCounter(pc)
  }

  predicate HoldsCounter(pc: Pc) {
    pc.Locked? || pc.Stamped? || pc.Reading? || pc.Limited? || pc.Refused? || pc.Running?
  }

  /** Cleanup has entered rl.mu. */
  predicate Inside(sweep: Sweep) {
    sweep.Sweeping? || sweep.Waiting? || sweep.Visiting?
  }

  predicate At(s: State, t: nat, pc: Pc) {
    t < |s.threads| && s.threads[t].pc == pc && (UsesCounter(pc) ==> s.threads[t].counter < |s.counters|)
  }

  predicate Mapped(s: State, key: Key) {
    key in s.table && s.table[key] < |s.counters|
  }

  predicate Enabled(s: State, a: Action) {
    match a
    case Tick(_) => true
    case Arrive(_) => true
    case Announce(t) => At(s, t, Arrived) && s.writer.Free?
    case Enter(t) => At(s, t, Announced) && s.readers == {}
    case Fetch(t) => At(s, t, Fetching)
    case LockCounter(t) => At(s, t, Fetched) && s.counters[s.threads[t].counter].holder.Free?
    case Stamp(t) => At(s, t, Locked)
    case ReadLock(t) => At(s, t, Stamped) && s.writer.Free?
    case ReadUnlock(t) => At(s, t, Reading)
    case Decide(t) => At(s, t, Limited)
    case Unlock(t) => At(s, t, Refused) || At(s, t, Running)
    case SweepAnnounce => s.sweep.Idle? && s.writer.Free?
    case SweepEnter => s.sweep.Entering? && s.readers == {}
    case SweepPick(key) => s.sweep.Sweeping? && key in s.sweep.pending
    case SweepLock => s.sweep.Waiting? && Mapped(s, s.sweep.key) && s.counters[s.table[s.sweep.key]].holder.Free?
    case SweepVisit => s.sweep.Visiting? && Mapped(s, s.sweep.key)
    case SweepLeave => s.sweep.Sweeping? && s.sweep.pending == {}
  }

  /** The step itself, for an enabled action. */
  function Step(cfg: Settings, s: State, a: Action): State
    requires Enabled(s, a)
  {
    match a
    case Tick(elapsed) => s.(clock := s.clock + elapsed)
    case Arrive(key) => s.(threads := s.threads + [Thread(key, Arrived, 0, 0, 0)])
    case Announce(t) => Goto(s, t, Announced).(writer := Request(t))
    case Enter(t) => Goto(s, t, Fetching)
    case Fetch(t) => FetchCounter(s, t)
    case LockCounter(t) =>
      SetCounter(Goto(s, t, Locked), s.threads[t].counter,
                 s.counters[s.threads[t].counter].(holder := Request(t)))
    case Stamp(t) => StampRequest(cfg, s, t)
    case ReadLock(t) => Goto(s, t, Reading).(readers := s.readers + {t})
    case ReadUnlock(t) =>
      s.(threads := s.threads[t := s.threads[t].(pc := Limited, limit := cfg.Limit(s.threads[t].key.tool))],
         readers := s.readers - {t})
    case Decide(t) => DecideRequest(s, t)
    case Unlock(t) =>
      SetCounter(Goto(s, t, Done(s.threads[t].pc.Running?)), s.threads[t].counter,
                 s.counters[s.threads[t].counter].(holder := Free))
    case SweepAnnounce => s.(sweep := Entering, writer := Cleanup)
    case SweepEnter => s.(sweep := Sweeping(s.clock, s.table.Keys))
    case SweepPick(key) => s.(sweep := Waiting(s.sweep.now, s.sweep.pending - {key}, key))
    case SweepLock =>
      SetCounter(s, s.table[s.sweep.key], s.counters[s.table[s.sweep.key]].(holder := Cleanup))
      .(sweep := Visiting(s.sweep.now, s.sweep.pending, s.sweep.key))
    case SweepVisit =>
      var c := s.table[s.sweep.key];
      SetCounter(s, c, s.counters[c].(holder := Free))
      .(sweep := Sweeping(s.sweep.now, s.sweep.pending),
        table := if Evicts(cfg, s) then s.table - {s.sweep.key} else s.table)
    case SweepLeave => s.(sweep := Idle, writer := Free)
  }

  function Goto(s: State, t: nat, pc: Pc): State
    requires t < |s.threads|
  {
    s.(threads := s.threads[t := s.threads[t].(pc := pc)])
  }

  function SetCounter(s: State, c: nat, counter: Counter): State
    requires c < |s.counters|
  {
    s.(counters := s.counters[c := counter])
  }

  /** getCounter: look the key up, making a counter that starts now if there is none, and release rl.mu. */
  function FetchCounter(s: State, t: nat): State
    requires t < |s.threads|
  {
    var th := s.threads[t];
    if th.key in s.table then
      s.(threads := s.threads[t := th.(pc := Fetched, counter := s.table[th.key])], writer := Free)
    else
      s.(counters := s.counters + [Counter(th.key, Window(0, s.clock), Free, |s.log|)],
         table := s.table[th.key := |s.counters|],
         threads := s.threads[t := th.(pc := Fetched, counter := |s.counters|)],
         writer := Free)
  }

  /** Read the clock under counter.mu and reopen the window if it has expired. */
  function StampRequest(cfg: Settings, s: State, t: nat): State
    requires At(s, t, Locked)
  {
    var th := s.threads[t];
    var counter := s.counters[th.counter];
    var rolled := Roll(counter.window, s.clock, cfg.windowSize);
    var since := if s.clock - counter.window.start >= cfg.windowSize then |s.log| else counter.since;
    SetCounter(s, th.counter, counter.(window := rolled, since := since))
    .(threads := s.threads[t := th.(pc := Stamped, now := s.clock)])
  }

  /** Refuse at the limit, otherwise count the request and start its handler. */
  function DecideRequest(s: State, t: nat): State
    requires At(s, t, Limited)
  {
    var th := s.threads[t];
    var counter := s.counters[th.counter];
    if counter.window.count >= th.limit then
      Goto(s, t, Refused)
    else
      SetCounter(Goto(s, t, Running), th.counter,
                 counter.(window := counter.window.(count := counter.window.count + 1)))
      .(log := s.log + [Accept(th.key, th.counter, counter.window.start, th.now)])
  }

  /** The visit in progress removes its counter from the table. */
  predicate Evicts(cfg: Settings, s: State) {
    s.sweep.Visiting? && Mapped(s, s.sweep.key) &&
    Stale(s.counters[s.table[s.sweep.key]].window, s.sweep.now, cfg.cleanupInterval)
  }

  function Next(cfg: Settings, s: State, a: Action): State {
    if Enabled(s, a) then Step(cfg, s, a) else s
  }

  /** The state after a run. */
  function Exec(cfg: Settings, s: State, run: seq<Action>): State
    decreases |run|
  {
    if run == [] then s else Next(cfg, Exec(cfg, s, run[..|run| - 1]), run[|run| - 1])
  }

  function Init(clock: int): State {
    State(clock, [], map[], [], Free, {}, Idle, [])
  }

  // ---------- Building runs ----------

  lemma {:induction false} ExecCons(cfg: Settings, s: State, a: Action, run: seq<Action>)
    ensures Exec(cfg, s, [a] + run) == Exec(cfg, Next(cfg, s, a), run)
    decreases |run|
  {
    if run == [] {
      assert [a] + run == [a];
      assert Exec(cfg, s, [a][..0]) == s;
    } else {
      var n := |run| - 1;
      assert ([a] + run)[..|[a] + run| - 1] == [a] + run[..n];
      ExecCons(cfg, s, a, run[..n]);
    }
  }

  lemma {:induction false} ExecAppend(cfg: Settings, s: State, run: seq<Action>, more: seq<Action>)
    ensures Exec(cfg, s, run + more) == Exec(cfg, Exec(cfg, s, run), more)
    decreases |more|
  {
    if more == [] {
      assert run + more == run;
    } else {
      var n := |more| - 1;
      ExecAppend(cfg, s, run, more[..n]);
      assert (run + more)[..|run + more| - 1] == run + more[..n];
    }
  }

  /** The steps of one request. */
  predicate StepOf(a: Action, t: nat) {
    match a
    case Announce(u) => u == t
    case Enter(u) => u == t
    case Fetch(u) => u == t
    case LockCounter(u) => u == t
    case Stamp(u) => u == t
    case ReadLock(u) => u == t
    case ReadUnlock(u) => u == t
    case Decide(u) => u == t
    case Unlock(u) => u == t
    case _ => false
  }

  /** The steps of cleanup. */
  predicate Sweeps(a: Action) {
    a.SweepAnnounce? || a.SweepEnter? || a.SweepPick? || a.SweepLock? || a.SweepVisit? || a.SweepLeave?
  }

  predicate OnlySweeps(run: seq<Action>) {
    forall i :: 0 <= i < |run| ==> Sweeps(run[i])
  }

  predicate NoSweeps(run: seq<Action>) {
    forall i :: 0 <= i < |run| ==> !Sweeps(run[i])
  }

  /** Append one action to a run that leads from `s` to `mid`. */
  lemma Then(cfg: Settings, s: State, run: seq<Action>, mid: State, a: Action) returns (longer: seq<Action>)
    requires Exec(cfg, s, run) == mid
    ensures longer == run + [a] && Exec(cfg, s, longer) == Next(cfg, mid, a)
    ensures NoSweeps(run) && !Sweeps(a) ==> NoSweeps(longer)
    ensures OnlySweeps(run) && Sweeps(a) ==> OnlySweeps(longer)
  {
    longer := run + [a];
    assert longer[..|run|] == run;
  }

  /** The state after a new request has gone through getCounter undisturbed. */
  function Opened(s: State, key: Key): State {
    FetchCounter(s.(threads := s.threads + [Thread(key, Fetching, 0, 0, 0)]), |s.threads|)
  }

  lemma ExecNil(cfg: Settings, s: State)
    ensures Exec(cfg, s, []) == s
  {
  }

  lemma ArriveLast(cfg: Settings, s: State, key: Key)
    ensures Next(cfg, s, Arrive(key)) == s.(threads := s.threads + [Thread(key, Arrived, 0, 0, 0)])
  {
  }

  lemma AnnounceLast(cfg: Settings, s: State, key: Key)
    requires s.writer.Free?
    ensures Next(cfg, s.(threads := s.threads + [Thread(key, Arrived, 0, 0, 0)]), Announce(|s.threads|))
         == s.(threads := s.threads + [Thread(key, Announced, 0, 0, 0)], writer := Request(|s.threads|))
  {
    var s1 := s.(threads := s.threads + [Thread(key, Arrived, 0, 0, 0)]);
    GotoLast(s1, s.threads, s1.threads[|s.threads|], Announced);
    assert Enabled(s1, Announce(|s.threads|));
  }

  lemma AnnounceRun(cfg: Settings, s: State, key: Key) returns (run: seq<Action>)
    requires s.writer.Free?
    ensures Exec(cfg, s, run)
         == s.(threads := s.threads + [Thread(key, Announced, 0, 0, 0)], writer := Request(|s.threads|))
    ensures NoSweeps(run)
  {
    ExecNil(cfg, s);
    ArriveLast(cfg, s, key);
    run := Then(cfg, s, [], s, Arrive(key));
    run := Then(cfg, s, run, s.(threads := s.threads + [Thread(key, Arrived, 0, 0, 0)]), Announce(|s.threads|));
    AnnounceLast(cfg, s, key);
  }

  lemma OpenRun(cfg: Settings, s: State, key: Key) returns (run: seq<Action>)
    requires s.writer.Free? && s.readers == {}
    ensures Exec(cfg, s, run) == Opened(s, key) && NoSweeps(run)
  {
    var t := |s.threads|;
    run := AnnounceRun(cfg, s, key);
    var s1 := s.(threads := s.threads + [Thread(key, Announced, 0, 0, 0)], writer := Request(t));
    GotoLast(s1, s.threads, s1.threads[t], Fetching);
    run := Then(cfg, s, run, s1, Enter(t));
    run := Then(cfg, s, run, s1.(threads := s.threads + [Thread(key, Fetching, 0, 0, 0)]), Fetch(t));
  }

  lemma GotoLast(s: State, threads: seq<Thread>, th: Thread, pc: Pc)
    requires s.threads == threads + [th]
    ensures Goto(s, |threads|, pc) == s.(threads := threads + [th.(pc := pc)])
  {
  }
}

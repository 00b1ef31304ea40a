/**
 A request or a cleanup alone: whatever steps it takes, in whatever order the clock and cleanup's
 choice of keys allow, it does to the table what AtomicLimiter says, with its own clock readings.
 */
module LimiterAlone {
  import opened FixedWindow
  import opened AtomicLimiter
  import opened LimiterProtocol
  import opened LimiterLocks
  import opened LimiterSerial

  // ---------- One request and the clock ----------

  /** Nothing but steps of request `t` and ticks of the clock; blocked steps and steps out of turn, which
      change nothing, may be among them. */
  predicate OnlyRequest(run: seq<Action>, t: nat) {
    forall i :: 0 <= i < |run| ==> run[i].Tick? || StepOf(run[i], t)
  }

  /** The state in which a new request is about to call getCounter. */
  function Asked(s: State, key: Key): State {
    s.(threads := s.threads + [Thread(key, Arrived, 0, 0, 0)])
  }

  /** What the request has made of its counter's window so far. */
  function Progress(cfg: Settings, w: Window, th: Thread): Window {
    match th.pc
    case Fetched => w
    case Locked => w
    case Stamped => Roll(w, th.now, cfg.windowSize)
    case Reading => Roll(w, th.now, cfg.windowSize)
    case Limited => Roll(w, th.now, cfg.windowSize)
    case _ => Admit(cfg, w, th.key.tool, th.now).window
  }

  /** What the request's own record says of how it has got on. */
  ghost predicate RecordOk(cfg: Settings, w: Window, th: Thread, fetched: int, clock: int) {
    && fetched <= clock
    && (!th.pc.Fetched? && !th.pc.Locked? ==> fetched <= th.now <= clock)
    && (th.pc.Limited? ==> th.limit == cfg.Limit(th.key.tool))
    && (th.pc.Refused? ==> !Admit(cfg, w, th.key.tool, th.now).accepted)
    && (th.pc.Running? ==> Admit(cfg, w, th.key.tool, th.now).accepted)
    && (th.pc.Done? ==> th.pc.accepted == Admit(cfg, w, th.key.tool, th.now).accepted)
  }

  predicate BeforeFetch(pc: Pc) {
    pc.Arrived? || pc.Announced? || pc.Fetching?
  }

  /** How the locks stand, given where the request is. */
  ghost predicate LocksAlone(s: State, t: nat) {
    && t < |s.threads|
    && s.sweep.Idle?
    && s.writer == (if s.threads[t].pc.Announced? || s.threads[t].pc.Fetching? then Request(t) else Free)
    && s.readers == (if s.threads[t].pc.Reading? then {t} else {})
  }

  /** Apart from its window, which the request works on, and its mutex, nothing is other than when the
      counter had just been fetched. */
  ghost predicate FetchedAlone(cfg: Settings, o: State, s: State, t: nat, fetched: int) {
    && t < |o.threads| && t < |s.threads| && o.threads[t].counter < |o.counters| == |s.counters|
    && s.table == o.table && s.threads[t].counter == o.threads[t].counter
    && (forall c :: 0 <= c < |o.counters| && c != o.threads[t].counter ==> s.counters[c].window == o.counters[c].window)
    && (var w := o.counters[o.threads[t].counter].window;
        && s.counters[o.threads[t].counter].window == Progress(cfg, w, s.threads[t])
        && RecordOk(cfg, w, s.threads[t], fetched, s.clock))
  }

  ghost predicate Alone(cfg: Settings, s: State, key: Key, fetched: int, s': State) {
    var t := |s.threads|;
    && LocksAlone(s', t) && s'.threads[t].key == key && s.clock <= s'.clock
    && if BeforeFetch(s'.threads[t].pc) then s'.counters == s.counters && s'.table == s.table
       else s.clock <= fetched && FetchedAlone(cfg, Opened(s.(clock := fetched), key), s', t, fetched)
  }

  lemma AskedAlone(cfg: Settings, s: State, key: Key)
    requires Calm(s)
    ensures Alone(cfg, s, key, 0, Asked(s, key))
  {
  }

  lemma LocksAloneKept(cfg: Settings, s: State, t: nat, a: Action)
    requires LocksAlone(s, t) && Enabled(s, a) && StepOf(a, t)
    ensures LocksAlone(Step(cfg, s, a), t)
  {
  }

  lemma BeforeFetchKept(cfg: Settings, s: State, t: nat, a: Action)
    requires t < |s.threads| && Enabled(s, a) && (a == Announce(t) || a == Enter(t))
    ensures var s' := Step(cfg, s, a);
            && s'.counters == s.counters && s'.table == s.table && s'.clock == s.clock
            && s'.threads[t].key == s.threads[t].key && BeforeFetch(s'.threads[t].pc)
  {
  }

  /** Fetching leaves the counters and the table as Opened says. */
  lemma FetchAlone(cfg: Settings, s: State, key: Key, s': State)
    requires RefsOk(s)
    requires var t := |s.threads|; t < |s'.threads| && s'.threads[t].key == key && Enabled(s', Fetch(t))
    requires s'.counters == s.counters && s'.table == s.table && s.clock <= s'.clock
    ensures var s'', t := Step(cfg, s', Fetch(|s.threads|)), |s.threads|;
            && s''.threads[t].key == key && s''.threads[t].pc.Fetched? && s''.clock == s'.clock
            && FetchedAlone(cfg, Opened(s.(clock := s'.clock), key), s'', t, s'.clock)
  {
  }

  lemma StampAlone(cfg: Settings, o: State, s: State, t: nat, fetched: int)
    requires t < |s.threads| && FetchedAlone(cfg, o, s, t, fetched) && Enabled(s, Stamp(t))
    ensures FetchedAlone(cfg, o, Step(cfg, s, Stamp(t)), t, fetched)
  {
  }

  lemma DecideAlone(cfg: Settings, o: State, s: State, t: nat, fetched: int)
    requires t < |s.threads| && FetchedAlone(cfg, o, s, t, fetched) && Enabled(s, Decide(t))
    ensures FetchedAlone(cfg, o, Step(cfg, s, Decide(t)), t, fetched)
  {
  }

  lemma OtherAlone(cfg: Settings, o: State, s: State, t: nat, fetched: int, a: Action)
    requires t < |s.threads| && FetchedAlone(cfg, o, s, t, fetched) && Enabled(s, a)
    requires a == LockCounter(t) || a == ReadLock(t) || a == ReadUnlock(t) || a == Unlock(t)
    ensures FetchedAlone(cfg, o, Step(cfg, s, a), t, fetched)
  {
  }

  lemma AfterFetchKept(cfg: Settings, o: State, s: State, t: nat, fetched: int, a: Action)
    requires t < |s.threads| && !BeforeFetch(s.threads[t].pc) && FetchedAlone(cfg, o, s, t, fetched)
    requires Enabled(s, a) && StepOf(a, t)
    ensures var s' := Step(cfg, s, a);
            && FetchedAlone(cfg, o, s', t, fetched) && !BeforeFetch(s'.threads[t].pc)
            && s'.threads[t].key == s.threads[t].key && s'.clock == s.clock
  {
    if a == Stamp(t) {
      StampAlone(cfg, o, s, t, fetched);
    } else if a == Decide(t) {
      DecideAlone(cfg, o, s, t, fetched);
    } else {
      OtherAlone(cfg, o, s, t, fetched, a);
    }
    StepMoves(cfg, s, a, t);
  }

  lemma StepAlone(cfg: Settings, s: State, key: Key, fetched: int, s': State, a: Action) returns (fetched': int)
    requires Calm(s) && Alone(cfg, s, key, fetched, s') && Enabled(s', a) && StepOf(a, |s.threads|)
    ensures Alone(cfg, s, key, fetched', Step(cfg, s', a))
  {
    var t := |s.threads|;
    LocksAloneKept(cfg, s', t, a);
    fetched' := if a == Fetch(t) then s'.clock else fetched;
    if a == Fetch(t) {
      FetchAlone(cfg, s, key, s');
    } else if BeforeFetch(s'.threads[t].pc) {
      BeforeFetchKept(cfg, s', t, a);
    } else {
      AfterFetchKept(cfg, Opened(s.(clock := fetched), key), s', t, fetched, a);
    }
  }

  lemma TickAlone(cfg: Settings, s: State, key: Key, fetched: int, s': State, elapsed: nat)
    requires Alone(cfg, s, key, fetched, s')
    ensures Alone(cfg, s, key, fetched, Step(cfg, s', Tick(elapsed)))
  {
  }

  lemma {:induction false} AloneAlways(cfg: Settings, s: State, key: Key, run: seq<Action>) returns (fetched: int)
    requires Calm(s) && OnlyRequest(run, |s.threads|)
    ensures Alone(cfg, s, key, fetched, Exec(cfg, Asked(s, key), run))
    decreases |run|
  {
    if run == [] {
      fetched := 0;
      ExecNil(cfg, Asked(s, key));
      AskedAlone(cfg, s, key);
    } else {
      var n := |run| - 1;
      var s' := Exec(cfg, Asked(s, key), run[..n]);
      fetched := AloneAlways(cfg, s, key, run[..n]);
      if Enabled(s', run[n]) {
        if run[n].Tick? {
          TickAlone(cfg, s, key, fetched, s', run[n].elapsed);
        } else {
          fetched := StepAlone(cfg, s, key, fetched, s', run[n]);
        }
      }
    }
  }

  /** Every run of one request and the clock that finishes the request is a call of the atomic limiter: for
      the reading at which it fetched its counter and the one it made with the counter locked, it gives
      the atomic limiter's answer and leaves the atomic limiter's table. */
  lemma RequestAloneIsAtomic(cfg: Settings, s: State, key: Key, run: seq<Action>) returns (fetched: int)
    requires Calm(s) && OnlyRequest(run, |s.threads|)
    requires var t := |s.threads|;
             t < |Exec(cfg, Asked(s, key), run).threads| && Exec(cfg, Asked(s, key), run).threads[t].pc.Done?
    ensures var s' := Exec(cfg, Asked(s, key), run);
            var th := s'.threads[|s.threads|];
            && s.clock <= fetched <= th.now <= s'.clock
            && th.pc == Done(Accepts(cfg, View(s), key, fetched, th.now))
            && View(s') == AfterCall(cfg, View(s), key, fetched, th.now)
  {
    fetched := AloneAlways(cfg, s, key, run);
    FinishedAlone(cfg, s, key, fetched, Exec(cfg, Asked(s, key), run));
  }

  lemma FinishedAlone(cfg: Settings, s: State, key: Key, fetched: int, s': State)
    requires Calm(s) && Alone(cfg, s, key, fetched, s') && s'.threads[|s.threads|].pc.Done?
    ensures var th := s'.threads[|s.threads|];
            && s.clock <= fetched <= th.now <= s'.clock
            && th.pc == Done(Accepts(cfg, View(s), key, fetched, th.now))
            && View(s') == AfterCall(cfg, View(s), key, fetched, th.now)
  {
    var o, th, found := Opened(s.(clock := fetched), key), s'.threads[|s.threads|], Lookup(View(s), key, fetched);
    OpenedAlone(s, key, fetched);
    OneWindowChanged(o, s', key, Admit(cfg, found, key.tool, th.now).window);
    UpdatedTwice(View(s), key, found, Admit(cfg, found, key.tool, th.now).window);
  }

  lemma OpenedAlone(s: State, key: Key, fetched: int)
    requires Calm(s)
    ensures var o, t := Opened(s.(clock := fetched), key), |s.threads|;
            && RefsOk(o) && Mapped(o, key) && t < |o.threads| && o.table[key] == o.threads[t].counter
            && o.counters[o.table[key]].window == Lookup(View(s), key, fetched)
            && View(o) == View(s)[key := Lookup(View(s), key, fetched)]
  {
    var o := Opened(s.(clock := fetched), key);
    LateAt(s, key, fetched, fetched);
    LateCalm(s, key, fetched, fetched);
    LateView(s, key, fetched, fetched);
    assert Late(s, key, fetched, fetched) == o;
    assert View(o)[key] == o.counters[o.table[key]].window;
  }

  lemma OneWindowChanged(o: State, s': State, key: Key, w: Window)
    requires RefsOk(o) && Mapped(o, key) && s'.table == o.table && |s'.counters| == |o.counters|
    requires s'.counters[o.table[key]].window == w
    requires forall c :: 0 <= c < |o.counters| && c != o.table[key] ==> s'.counters[c].window == o.counters[c].window
    ensures View(s') == View(o)[key := w]
  {
    forall k | k in o.table && k != key
      ensures o.table[k] != o.table[key]
    {
      assert o.counters[o.table[k]].key == k && o.counters[o.table[key]].key == key;
    }
  }

  // ---------- One cleanup and the clock ----------

  predicate OnlyCleanup(run: seq<Action>) {
    && (forall i :: 0 <= i < |run| ==> run[i].Tick? || Sweeps(run[i]))
    && (forall i, j :: 0 <= i < j < |run| ==> !(run[i].SweepAnnounce? && run[j].SweepAnnounce?))
  }

  predicate NotYet(run: seq<Action>) {
    forall i :: 0 <= i < |run| ==> !run[i].SweepAnnounce?
  }

  /** The keys cleanup has still to visit, or is visiting. */
  function Left(sweep: Sweep): set<Key> {
    match sweep
    case Sweeping(_, pending) => pending
    case Waiting(_, pending, key) => pending + {key}
    case Visiting(_, pending, key) => pending + {key}
    case _ => {}
  }

  ghost predicate SameWindows(s: State, s': State) {
    && |s'.counters| == |s.counters|
    && forall c :: 0 <= c < |s.counters| ==> s'.counters[c].window == s.counters[c].window
  }

  /** Of the table, what cleanup at `now` keeps, and what it has still to look at. */
  ghost predicate SweptBut(cfg: Settings, s: State, s': State, now: int, left: set<Key>) {
    && (forall key :: key in s'.table ==> key in s.table && s'.table[key] == s.table[key])
    && (forall key :: key in s.table && Mapped(s, key) ==>
          (key in s'.table <==> key in left || !Stale(s.counters[s.table[key]].window, now, cfg.cleanupInterval)))
  }

  /** Cleanup has not begun, is under way with the clock read at `now`, or is done. */
  ghost predicate Cleaning(cfg: Settings, s: State, s': State, now: int, begun: bool) {
    && SameWindows(s, s') && s.clock <= s'.clock
    && SweepOk(s') && (s'.sweep.Idle? ==> s'.writer.Free?)
    && (!begun ==> s'.sweep.Idle?)
    && (if s'.sweep.Entering? || !begun then s'.table == s.table
        else s.clock <= now <= s'.clock && SweptBut(cfg, s, s', now, Left(s'.sweep)))
    && (Inside(s'.sweep) ==> s'.sweep.now == now)
  }

  lemma CleaningEnter(cfg: Settings, s: State, s': State, now: int)
    requires RefsOk(s) && Cleaning(cfg, s, s', now, true) && Enabled(s', SweepEnter)
    ensures Cleaning(cfg, s, Step(cfg, s', SweepEnter), s'.clock, true)
  {
  }

  lemma CleaningVisit(cfg: Settings, s: State, s': State, now: int)
    requires RefsOk(s) && Cleaning(cfg, s, s', now, true) && Enabled(s', SweepVisit)
    ensures Cleaning(cfg, s, Step(cfg, s', SweepVisit), now, true)
  {
  }

  lemma CleaningPick(cfg: Settings, s: State, s': State, now: int, key: Key)
    requires RefsOk(s) && Cleaning(cfg, s, s', now, true) && Enabled(s', SweepPick(key))
    ensures Cleaning(cfg, s, Step(cfg, s', SweepPick(key)), now, true)
  {
    assert Left(Step(cfg, s', SweepPick(key)).sweep) == Left(s'.sweep);
  }

  lemma CleaningLock(cfg: Settings, s: State, s': State, now: int)
    requires RefsOk(s) && Cleaning(cfg, s, s', now, true) && Enabled(s', SweepLock)
    ensures Cleaning(cfg, s, Step(cfg, s', SweepLock), now, true)
  {
    assert Left(Step(cfg, s', SweepLock).sweep) == Left(s'.sweep);
  }

  lemma CleaningLeave(cfg: Settings, s: State, s': State, now: int)
    requires Cleaning(cfg, s, s', now, true) && Enabled(s', SweepLeave)
    ensures Cleaning(cfg, s, Step(cfg, s', SweepLeave), now, true)
  {
  }

  lemma CleaningTick(cfg: Settings, s: State, s': State, now: int, begun: bool, elapsed: nat)
    requires Cleaning(cfg, s, s', now, begun)
    ensures Cleaning(cfg, s, Step(cfg, s', Tick(elapsed)), now, begun)
  {
  }

  lemma CleaningAnnounce(cfg: Settings, s: State, s': State, now: int)
    requires RefsOk(s) && Cleaning(cfg, s, s', now, false) && Enabled(s', SweepAnnounce)
    ensures Cleaning(cfg, s, Step(cfg, s', SweepAnnounce), now, true)
  {
  }

  lemma CleaningStep(cfg: Settings, s: State, s': State, now: int, begun: bool, a: Action) returns (now': int)
    requires RefsOk(s) && Cleaning(cfg, s, s', now, begun) && Enabled(s', a)
    requires a.Tick? || Sweeps(a)
    requires a.SweepAnnounce? ==> !begun
    ensures Cleaning(cfg, s, Step(cfg, s', a), now', begun || a.SweepAnnounce?)
  {
    now' := if a.SweepEnter? then s'.clock else now;
    if a.SweepAnnounce? {
      CleaningAnnounce(cfg, s, s', now);
    } else if a.SweepEnter? {
      CleaningEnter(cfg, s, s', now);
    } else if a.SweepVisit? {
      CleaningVisit(cfg, s, s', now);
    } else if a.SweepPick? {
      CleaningPick(cfg, s, s', now, a.key);
    } else if a.SweepLock? {
      CleaningLock(cfg, s, s', now);
    } else if a.SweepLeave? {
      CleaningLeave(cfg, s, s', now);
    } else {
      CleaningTick(cfg, s, s', now, begun, a.elapsed);
    }
  }

  lemma {:induction false} CleaningAlways(cfg: Settings, s: State, run: seq<Action>) returns (now: int)
    requires Calm(s) && OnlyCleanup(run)
    ensures Cleaning(cfg, s, Exec(cfg, s, run), now, !NotYet(run))
    decreases |run|
  {
    if run == [] {
      now := s.clock;
      ExecNil(cfg, s);
    } else {
      var n := |run| - 1;
      var s' := Exec(cfg, s, run[..n]);
      now := CleaningAlways(cfg, s, run[..n]);
      assert NotYet(run) <==> NotYet(run[..n]) && !run[n].SweepAnnounce?;
      assert run[n].SweepAnnounce? ==> NotYet(run[..n]) && Enabled(s', SweepAnnounce);
      if Enabled(s', run[n]) {
        now := CleaningStep(cfg, s, s', now, !NotYet(run[..n]), run[n]);
      }
    }
  }

  /** Every run of one cleanup and the clock that leaves cleanup idle has the effect of the atomic limiter's
      cleanup, at the one reading cleanup made of the clock and whatever the order of its visits; none if
      cleanup has not begun. */
  lemma CleanupAloneIsAtomic(cfg: Settings, s: State, run: seq<Action>) returns (now: int)
    requires Calm(s) && OnlyCleanup(run) && Exec(cfg, s, run).sweep.Idle?
    ensures var s' := Exec(cfg, s, run);
            if NotYet(run) then View(s') == View(s)
            else s.clock <= now <= s'.clock && View(s') == AfterCleanup(cfg, View(s), now)
  {
    now := CleaningAlways(cfg, s, run);
    CleanedView(cfg, s, Exec(cfg, s, run), now, !NotYet(run));
  }

  lemma CleanedView(cfg: Settings, s: State, s': State, now: int, begun: bool)
    requires RefsOk(s) && Cleaning(cfg, s, s', now, begun) && s'.sweep.Idle?
    ensures View(s') == if begun then AfterCleanup(cfg, View(s), now) else View(s)
  {
  }
}

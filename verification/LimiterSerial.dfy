/**
 The interleaved limiter, one operation at a time, is the atomic limiter: a request or a
 cleanup that meets no interference does to the table what AtomicLimiter says.
 */
module LimiterSerial {
  import opened AcceptLog
  import opened FixedWindow
  import opened AtomicLimiter
  import opened LimiterProtocol
  import opened LimiterLocks
  import opened LimiterHistory

  /** The windows of the mapped counters. */
  function View(s: State): Table {
    map key | key in s.table && s.table[key] < |s.counters| :: s.counters[s.table[key]].window
  }

  /** The state after request `t`, which has fetched its counter, has been served undisturbed. */
  function Served(cfg: Settings, s: State, t: nat): State
    requires At(s, t, Fetched)
  {
    var th := s.threads[t];
    var counter := s.counters[th.counter];
    var answer := Admit(cfg, counter.window, th.key.tool, s.clock);
    var since := if s.clock - counter.window.start >= cfg.windowSize then |s.log| else counter.since;
    s.(threads := s.threads[t := Thread(th.key, Done(answer.accepted), th.counter, s.clock, cfg.Limit(th.key.tool))],
       counters := s.counters[th.counter := counter.(window := answer.window, since := since)],
       log := if answer.accepted then s.log + [Accept(th.key, th.counter, answer.window.start, s.clock)] else s.log)
  }

  /** The state while it is being served: it holds its counter and is at `pc`. */
  function Serving(s: State, t: nat, th: Thread, counter: Counter): State
    requires At(s, t, Fetched)
  {
    s.(threads := s.threads[t := th],
       counters := s.counters[s.threads[t].counter := counter.(holder := Request(t))])
  }

  /** A counter as a request that locks it now finds it after looking at the clock. */
  function Rolled(cfg: Settings, s: State, counter: Counter): Counter {
    counter.(window := Roll(counter.window, s.clock, cfg.windowSize),
             since := if s.clock - counter.window.start >= cfg.windowSize then |s.log| else counter.since)
  }

  lemma LockNext(cfg: Settings, s: State, t: nat)
    requires At(s, t, Fetched) && s.counters[s.threads[t].counter].holder.Free?
    ensures Next(cfg, s, LockCounter(t))
         == Serving(s, t, s.threads[t].(pc := Locked), s.counters[s.threads[t].counter])
  {
  }

  lemma StampNext(cfg: Settings, s: State, t: nat)
    requires At(s, t, Fetched)
    ensures var th, counter := s.threads[t], s.counters[s.threads[t].counter];
            Next(cfg, Serving(s, t, th.(pc := Locked), counter), Stamp(t)) ==
            Serving(s, t, th.(pc := Stamped, now := s.clock), Rolled(cfg, s, counter))
  {
    var th, c := s.threads[t], s.threads[t].counter;
    var s1 := Serving(s, t, th.(pc := Locked), s.counters[c]);
    var s2 := Serving(s, t, th.(pc := Stamped, now := s.clock), Rolled(cfg, s, s.counters[c]));
    assert Enabled(s1, Stamp(t));
    assert s1.threads[t := s2.threads[t]] == s2.threads;
    assert s1.counters[c := s2.counters[c]] == s2.counters;
  }

  lemma ReadLockNext(cfg: Settings, s: State, t: nat, th: Thread, counter: Counter)
    requires s.writer.Free? && s.readers == {} && At(s, t, Fetched)
    requires th.pc.Stamped? && th.counter == s.threads[t].counter
    ensures Next(cfg, Serving(s, t, th, counter), ReadLock(t))
         == Serving(s, t, th.(pc := Reading), counter).(readers := {t})
  {
    var s1, s2 := Serving(s, t, th, counter), Serving(s, t, th.(pc := Reading), counter);
    assert s1.threads[t := s2.threads[t]] == s2.threads;
    assert {} + {t} == {t};
  }

  lemma ReadUnlockNext(cfg: Settings, s: State, t: nat, th: Thread, counter: Counter)
    requires s.readers == {} && At(s, t, Fetched)
    requires th.pc.Reading? && th.counter == s.threads[t].counter
    ensures Next(cfg, Serving(s, t, th, counter).(readers := {t}), ReadUnlock(t))
         == Serving(s, t, th.(pc := Limited, limit := cfg.Limit(th.key.tool)), counter)
  {
    var s1 := Serving(s, t, th, counter);
    var s2 := Serving(s, t, th.(pc := Limited, limit := cfg.Limit(th.key.tool)), counter);
    assert s1.threads[t := s2.threads[t]] == s2.threads;
    assert {t} - {t} == {};
  }

  lemma ServeUpToLimit(cfg: Settings, s: State, t: nat) returns (run: seq<Action>)
    requires s.writer.Free? && s.readers == {}
    requires At(s, t, Fetched) && s.counters[s.threads[t].counter].holder.Free?
    ensures Exec(cfg, s, run)
         == Serving(s, t, s.threads[t].(pc := Limited, now := s.clock, limit := cfg.Limit(s.threads[t].key.tool)),
                    Rolled(cfg, s, s.counters[s.threads[t].counter]))
    ensures NoSweeps(run)
  {
    var th, counter := s.threads[t], s.counters[s.threads[t].counter];
    var stamped, rolled := th.(pc := Stamped, now := s.clock), Rolled(cfg, s, counter);
    LockNext(cfg, s, t);
    StampNext(cfg, s, t);
    ReadLockNext(cfg, s, t, stamped, rolled);
    ReadUnlockNext(cfg, s, t, stamped.(pc := Reading), rolled);
    run := Then(cfg, s, [], s, LockCounter(t));
    run := Then(cfg, s, run, Serving(s, t, th.(pc := Locked), counter), Stamp(t));
    run := Then(cfg, s, run, Serving(s, t, stamped, rolled), ReadLock(t));
    run := Then(cfg, s, run, Serving(s, t, stamped.(pc := Reading), rolled).(readers := {t}), ReadUnlock(t));
  }

  /** The request has decided and is about to unlock its counter. */
  function Deciding(cfg: Settings, s: State, t: nat): State
    requires At(s, t, Fetched)
  {
    var s', c := Served(cfg, s, t), s.threads[t].counter;
    var pc := if s'.threads[t].pc.accepted then Running else Refused;
    s'.(threads := s'.threads[t := s'.threads[t].(pc := pc)],
        counters := s'.counters[c := s'.counters[c].(holder := Request(t))])
  }

  lemma DecideNext(cfg: Settings, s: State, t: nat)
    requires At(s, t, Fetched)
    ensures var th := s.threads[t].(pc := Limited, now := s.clock, limit := cfg.Limit(s.threads[t].key.tool));
            Next(cfg, Serving(s, t, th, Rolled(cfg, s, s.counters[th.counter])), Decide(t)) == Deciding(cfg, s, t)
  {
    var th := s.threads[t].(pc := Limited, now := s.clock, limit := cfg.Limit(s.threads[t].key.tool));
    var s1, s2 := Serving(s, t, th, Rolled(cfg, s, s.counters[th.counter])), Deciding(cfg, s, t);
    assert Enabled(s1, Decide(t));
    assert s1.threads[t := s2.threads[t]] == s2.threads;
    assert s1.counters[th.counter := s2.counters[th.counter]] == s2.counters;
  }

  lemma UnlockNext(cfg: Settings, s: State, t: nat)
    requires At(s, t, Fetched) && s.counters[s.threads[t].counter].holder.Free?
    ensures Next(cfg, Deciding(cfg, s, t), Unlock(t)) == Served(cfg, s, t)
  {
    var s1, s2, c := Deciding(cfg, s, t), Served(cfg, s, t), s.threads[t].counter;
    assert At(s1, t, Refused) || At(s1, t, Running);
    assert s1.threads[t := s2.threads[t]] == s2.threads;
    assert s1.counters[c := s2.counters[c]] == s2.counters;
  }

  lemma ServeRun(cfg: Settings, s: State, t: nat) returns (run: seq<Action>)
    requires s.writer.Free? && s.readers == {}
    requires At(s, t, Fetched) && s.counters[s.threads[t].counter].holder.Free?
    ensures Exec(cfg, s, run) == Served(cfg, s, t) && NoSweeps(run)
  {
    var th := s.threads[t].(pc := Limited, now := s.clock, limit := cfg.Limit(s.threads[t].key.tool));
    DecideNext(cfg, s, t);
    UnlockNext(cfg, s, t);
    run := ServeUpToLimit(cfg, s, t);
    run := Then(cfg, s, run, Serving(s, t, th, Rolled(cfg, s, s.counters[th.counter])), Decide(t));
    run := Then(cfg, s, run, Deciding(cfg, s, t), Unlock(t));
  }

  // ---------- Cleanup undisturbed ----------

  /** The keys among these whose counters cleanup at `now` drops. */
  function StaleKeys(cfg: Settings, s: State, now: int, keys: set<Key>): set<Key> {
    set key | key in keys && Mapped(s, key) && Stale(s.counters[s.table[key]].window, now, cfg.cleanupInterval)
  }

  ghost predicate AllFree(s: State) {
    forall c :: 0 <= c < |s.counters| ==> s.counters[c].holder.Free?
  }

  /** One visit: pick a key, lock its counter, drop it if stale, unlock. */
  lemma VisitRun(cfg: Settings, s: State, key: Key) returns (run: seq<Action>)
    requires s.sweep.Sweeping? && key in s.sweep.pending && Mapped(s, key) && s.counters[s.table[key]].holder.Free?
    ensures Exec(cfg, s, run)
         == s.(sweep := Sweeping(s.sweep.now, s.sweep.pending - {key}),
               table := s.table - StaleKeys(cfg, s, s.sweep.now, {key}))
    ensures OnlySweeps(run)
  {
    var now, rest, c := s.sweep.now, s.sweep.pending - {key}, s.table[key];
    run := Then(cfg, s, [], s, SweepPick(key));
    var s1 := s.(sweep := Waiting(now, rest, key));
    run := Then(cfg, s, run, s1, SweepLock);
    var s2 := s.(sweep := Visiting(now, rest, key), counters := s.counters[c := s.counters[c].(holder := Cleanup)]);
    assert Next(cfg, s1, SweepLock) == s2;
    run := Then(cfg, s, run, s2, SweepVisit);
    assert s2.counters[c := s2.counters[c].(holder := Free)] == s.counters;
    assert Evicts(cfg, s2) ==> StaleKeys(cfg, s, now, {key}) == {key};
    assert !Evicts(cfg, s2) ==> StaleKeys(cfg, s, now, {key}) == {} && s.table - {} == s.table;
  }

  /** The state after the visit of `key`. */
  function Visited(cfg: Settings, s: State, key: Key): State
    requires s.sweep.Sweeping?
  {
    s.(sweep := Sweeping(s.sweep.now, s.sweep.pending - {key}),
       table := s.table - StaleKeys(cfg, s, s.sweep.now, {key}))
  }

  lemma VisitedStale(cfg: Settings, s: State, key: Key)
    requires s.sweep.Sweeping? && RefsOk(s) && key in s.sweep.pending && s.sweep.pending <= s.table.Keys
    ensures var s1, now := Visited(cfg, s, key), s.sweep.now;
            && RefsOk(s1) && s1.sweep.pending <= s1.table.Keys
            && s1.table - StaleKeys(cfg, s1, now, s1.sweep.pending) == s.table - StaleKeys(cfg, s, now, s.sweep.pending)
  {
    var s1, now, pending := Visited(cfg, s, key), s.sweep.now, s.sweep.pending;
    assert StaleKeys(cfg, s1, now, pending - {key}) == StaleKeys(cfg, s, now, pending - {key});
    assert StaleKeys(cfg, s, now, pending) == StaleKeys(cfg, s, now, {key}) + StaleKeys(cfg, s, now, pending - {key});
  }

  lemma {:induction false} VisitsRun(cfg: Settings, s: State) returns (run: seq<Action>)
    requires s.sweep.Sweeping? && RefsOk(s) && AllFree(s) && s.sweep.pending <= s.table.Keys
    ensures Exec(cfg, s, run)
         == s.(sweep := Sweeping(s.sweep.now, {}),
               table := s.table - StaleKeys(cfg, s, s.sweep.now, s.sweep.pending))
    ensures OnlySweeps(run)
    decreases |s.sweep.pending|
  {
    if s.sweep.pending == {} {
      assert StaleKeys(cfg, s, s.sweep.now, {}) == {} && s.table - {} == s.table;
      run := [];
    } else {
      var key :| key in s.sweep.pending;
      var visit := VisitRun(cfg, s, key);
      VisitedStale(cfg, s, key);
      var rest := VisitsRun(cfg, Visited(cfg, s, key));
      ExecAppend(cfg, s, visit, rest);
      run := visit + rest;
    }
  }

  lemma EnterNext(cfg: Settings, s: State)
    requires s.readers == {}
    ensures Next(cfg, s.(sweep := Entering, writer := Cleanup), SweepEnter)
         == s.(sweep := Sweeping(s.clock, s.table.Keys), writer := Cleanup)
  {
  }

  lemma AnnounceNext(cfg: Settings, s: State)
    requires s.writer.Free? && s.sweep.Idle?
    ensures Next(cfg, s, SweepAnnounce) == s.(sweep := Entering, writer := Cleanup)
  {
  }

  lemma LeaveNext(cfg: Settings, s: State)
    requires s.sweep.Sweeping? && s.sweep.pending == {}
    ensures Next(cfg, s, SweepLeave) == s.(sweep := Idle, writer := Free)
  {
  }

  lemma EnterRun(cfg: Settings, s: State) returns (run: seq<Action>)
    requires s.writer.Free? && s.readers == {} && s.sweep.Idle?
    ensures Exec(cfg, s, run) == s.(sweep := Sweeping(s.clock, s.table.Keys), writer := Cleanup)
    ensures OnlySweeps(run)
  {
    AnnounceNext(cfg, s);
    EnterNext(cfg, s);
    run := Then(cfg, s, [], s, SweepAnnounce);
    run := Then(cfg, s, run, s.(sweep := Entering, writer := Cleanup), SweepEnter);
  }

  lemma CleanupRun(cfg: Settings, s: State) returns (run: seq<Action>)
    requires s.writer.Free? && s.readers == {} && s.sweep.Idle? && RefsOk(s) && AllFree(s)
    ensures Exec(cfg, s, run) == s.(table := s.table - StaleKeys(cfg, s, s.clock, s.table.Keys))
    ensures OnlySweeps(run)
  {
    run := EnterRun(cfg, s);
    var s1 := s.(sweep := Sweeping(s.clock, s.table.Keys), writer := Cleanup);
    var visits := VisitsRun(cfg, s1);
    var gone := StaleKeys(cfg, s, s.clock, s.table.Keys);
    assert StaleKeys(cfg, s1, s.clock, s.table.Keys) == gone;
    ExecAppend(cfg, s, run, visits);
    var s2 := s1.(sweep := Sweeping(s.clock, {}), table := s.table - gone);
    LeaveNext(cfg, s2);
    run := Then(cfg, s, run + visits, s2, SweepLeave);
  }

  // ---------- What the atomic limiter does can be done ----------

  /** No request is under way that matters to others, and no cleanup. */
  ghost predicate Calm(s: State) {
    s.writer.Free? && s.readers == {} && s.sweep.Idle? && RefsOk(s) && AllFree(s)
  }

  /** A new request has fetched its counter at `fetched`, and it is now `now`. */
  function Late(s: State, key: Key, fetched: int, now: int): State {
    Opened(s.(clock := fetched), key).(clock := now)
  }

  lemma LateAt(s: State, key: Key, fetched: int, now: int)
    requires RefsOk(s) && AllFree(s)
    ensures var s1, t := Late(s, key, fetched, now), |s.threads|;
            && At(s1, t, Fetched) && s1.counters[s1.threads[t].counter].holder.Free?
            && s1.threads[t].key == key && Mapped(s1, key) && s1.table[key] == s1.threads[t].counter
            && |s1.threads| == t + 1 && s1.threads[..t] == s.threads
  {
  }

  lemma LateCalm(s: State, key: Key, fetched: int, now: int)
    requires Calm(s)
    ensures Calm(Late(s, key, fetched, now))
  {
  }

  lemma LateView(s: State, key: Key, fetched: int, now: int)
    requires RefsOk(s)
    ensures View(Late(s, key, fetched, now)) == View(s)[key := Lookup(View(s), key, fetched)]
  {
    var s1 := Late(s, key, fetched, now);
    if key in s.table {
      assert s1.counters == s.counters && s1.table == s.table;
      assert View(s)[key := View(s)[key]] == View(s);
    } else {
      NewView(s, s1, key, Counter(key, Window(0, fetched), Free, |s.log|));
    }
  }

  lemma NewView(s: State, s1: State, key: Key, counter: Counter)
    requires RefsOk(s) && key !in s.table
    requires s1.counters == s.counters + [counter] && s1.table == s.table[key := |s.counters|]
    ensures View(s1) == View(s)[key := counter.window]
  {
  }

  lemma ServedView(cfg: Settings, s: State, t: nat)
    requires RefsOk(s) && At(s, t, Fetched) && Mapped(s, s.threads[t].key)
    requires s.table[s.threads[t].key] == s.threads[t].counter
    ensures View(Served(cfg, s, t))
         == View(s)[s.threads[t].key := Admit(cfg, View(s)[s.threads[t].key], s.threads[t].key.tool, s.clock).window]
  {
  }

  lemma ServedCalm(cfg: Settings, s: State, t: nat)
    requires Calm(s) && At(s, t, Fetched)
    ensures Calm(Served(cfg, s, t))
  {
  }

  lemma TickNext(cfg: Settings, s: State, now: int)
    requires s.clock <= now
    ensures Next(cfg, s, Tick(now - s.clock)) == s.(clock := now)
  {
  }

  lemma LateRun(cfg: Settings, s: State, key: Key, fetched: int, now: int) returns (run: seq<Action>)
    requires s.writer.Free? && s.readers == {} && s.clock <= fetched <= now
    ensures Exec(cfg, s, run) == Late(s, key, fetched, now) && NoSweeps(run)
  {
    var s0, s1 := s.(clock := fetched), Opened(s.(clock := fetched), key);
    TickNext(cfg, s, fetched);
    TickNext(cfg, s1, now);
    var first := Then(cfg, s, [], s, Tick(fetched - s.clock));
    var opening := OpenRun(cfg, s0, key);
    ExecAppend(cfg, s, first, opening);
    run := Then(cfg, s, first + opening, s1, Tick(now - s1.clock));
  }

  lemma RequestRun(cfg: Settings, s: State, key: Key, fetched: int, now: int) returns (run: seq<Action>)
    requires Calm(s) && s.clock <= fetched <= now
    ensures At(Late(s, key, fetched, now), |s.threads|, Fetched)
    ensures Exec(cfg, s, run) == Served(cfg, Late(s, key, fetched, now), |s.threads|) && NoSweeps(run)
  {
    LateAt(s, key, fetched, now);
    LateCalm(s, key, fetched, now);
    var first := LateRun(cfg, s, key, fetched, now);
    var serve := ServeRun(cfg, Late(s, key, fetched, now), |s.threads|);
    ExecAppend(cfg, s, first, serve);
    run := first + serve;
  }

  lemma RequestView(cfg: Settings, s: State, key: Key, fetched: int, now: int)
    requires Calm(s) && At(Late(s, key, fetched, now), |s.threads|, Fetched)
    ensures View(Served(cfg, Late(s, key, fetched, now), |s.threads|)) == AfterCall(cfg, View(s), key, fetched, now)
  {
    var late, found := Late(s, key, fetched, now), Lookup(View(s), key, fetched);
    LateAt(s, key, fetched, now);
    LateCalm(s, key, fetched, now);
    LateView(s, key, fetched, now);
    assert View(late)[key] == found;
    ServedView(cfg, late, |s.threads|);
    UpdatedTwice(View(s), key, found, Admit(cfg, found, key.tool, now).window);
  }

  lemma UpdatedTwice(table: Table, key: Key, w: Window, w': Window)
    ensures table[key := w][key := w'] == table[key := w']
  {
  }

  lemma RequestAnswer(cfg: Settings, s: State, key: Key, fetched: int, now: int)
    requires RefsOk(s) && At(Late(s, key, fetched, now), |s.threads|, Fetched)
    ensures var s', t := Served(cfg, Late(s, key, fetched, now), |s.threads|), |s.threads|;
            && |s'.threads| == t + 1 && s'.threads[..t] == s.threads && s'.threads[t].key == key
            && s'.threads[t].pc == Done(Accepts(cfg, View(s), key, fetched, now))
            && s'.clock == now
  {
  }

  lemma RequestAnswered(cfg: Settings, s: State, key: Key, fetched: int, now: int)
    requires Calm(s) && At(Late(s, key, fetched, now), |s.threads|, Fetched)
    ensures var s', t := Served(cfg, Late(s, key, fetched, now), |s.threads|), |s.threads|;
            && |s'.threads| == t + 1 && s'.threads[..t] == s.threads && s'.threads[t].key == key
            && s'.threads[t].pc == Done(Accepts(cfg, View(s), key, fetched, now))
            && View(s') == AfterCall(cfg, View(s), key, fetched, now)
            && Calm(s') && s'.clock == now
  {
    RequestView(cfg, s, key, fetched, now);
    RequestAnswer(cfg, s, key, fetched, now);
    LateCalm(s, key, fetched, now);
    ServedCalm(cfg, Late(s, key, fetched, now), |s.threads|);
  }

  /** For any two clock readings a call may have, there is a run in which a request has them, and it
      answers and changes the table as the atomic limiter does. */
  lemma SerialRequestIsAtomic(cfg: Settings, s: State, key: Key, fetched: int, now: int) returns (run: seq<Action>)
    requires Calm(s) && s.clock <= fetched <= now
    ensures var s', t := Exec(cfg, s, run), |s.threads|;
            && |s'.threads| == t + 1 && s'.threads[..t] == s.threads && s'.threads[t].key == key
            && s'.threads[t].pc == Done(Accepts(cfg, View(s), key, fetched, now))
            && View(s') == AfterCall(cfg, View(s), key, fetched, now)
            && Calm(s') && s'.clock == now
    ensures NoSweeps(run)
  {
    run := RequestRun(cfg, s, key, fetched, now);
    RequestAnswered(cfg, s, key, fetched, now);
  }

  lemma SweptView(cfg: Settings, s: State)
    requires Calm(s)
    ensures var s' := s.(table := s.table - StaleKeys(cfg, s, s.clock, s.table.Keys));
            Calm(s') && View(s') == AfterCleanup(cfg, View(s), s.clock)
  {
  }

  /** And one in which a cleanup does what the atomic limiter's does. */
  lemma SerialCleanupIsAtomic(cfg: Settings, s: State, now: int) returns (run: seq<Action>)
    requires Calm(s) && s.clock <= now
    ensures var s' := Exec(cfg, s, run);
            && View(s') == AfterCleanup(cfg, View(s), now) && s'.threads == s.threads
            && Calm(s') && s'.clock == now
    ensures forall i :: 0 <= i < |run| ==> Sweeps(run[i]) || run[i].Tick?
  {
    TickNext(cfg, s, now);
    var wait := Then(cfg, s, [], s, Tick(now - s.clock));
    var s1 := s.(clock := now);
    assert View(s1) == View(s);
    var sweep := CleanupRun(cfg, s1);
    SweptView(cfg, s1);
    ExecAppend(cfg, s, wait, sweep);
    run := wait + sweep;
  }

  /** The requests of these threads, and whether they were let through. */
  ghost predicate Answered(threads: seq<Thread>, answers: seq<Answer>) {
    |threads| == |answers| &&
    forall i :: 0 <= i < |threads| ==>
      threads[i].key == answers[i].key && threads[i].pc == Done(answers[i].accepted)
  }

  /** Every history of the atomic limiter is one of the step system: for all calls and cleanups in the
      order of their clock readings, there is a run that gives just these answers. */
  lemma {:induction false} SerialHistory(cfg: Settings, s: State, events: seq<Event>) returns (run: seq<Action>)
    requires Calm(s) && Timely(s.clock, events)
    ensures var s' := Exec(cfg, s, run);
            && |s.threads| <= |s'.threads| && s'.threads[..|s.threads|] == s.threads
            && Answered(s'.threads[|s.threads|..], Answers(cfg, View(s), events))
    decreases |events|
  {
    if events == [] {
      run := [];
    } else {
      var e, first := events[0], [];
      if e.Call? {
        first := SerialRequestIsAtomic(cfg, s, e.key, e.fetched, e.now);
      } else {
        first := SerialCleanupIsAtomic(cfg, s, e.now);
      }
      var s1 := Exec(cfg, s, first);
      var rest := SerialHistory(cfg, s1, events[1..]);
      ExecAppend(cfg, s, first, rest);
      run := first + rest;
      AnswersJoined(cfg, s, e, s1, Exec(cfg, s1, rest), events);
    }
  }

  lemma AnswersJoined(cfg: Settings, s: State, e: Event, s1: State, s2: State, events: seq<Event>)
    requires events != [] && events[0] == e
    requires View(s1) == After(cfg, View(s), e)
    requires if e.Call? then |s1.threads| == |s.threads| + 1 && s1.threads[..|s.threads|] == s.threads
                             && s1.threads[|s.threads|].key == e.key
                             && s1.threads[|s.threads|].pc == Done(Accepts(cfg, View(s), e.key, e.fetched, e.now))
             else s1.threads == s.threads
    requires |s1.threads| <= |s2.threads| && s2.threads[..|s1.threads|] == s1.threads
    requires Answered(s2.threads[|s1.threads|..], Answers(cfg, View(s1), events[1..]))
    ensures s2.threads[..|s.threads|] == s.threads
    ensures Answered(s2.threads[|s.threads|..], Answers(cfg, View(s), events))
  {
    var rest := s2.threads[|s1.threads|..];
    if e.Call? {
      assert s2.threads[|s.threads|] == s1.threads[|s.threads|];
      assert s2.threads[|s.threads|..] == [s1.threads[|s.threads|]] + rest;
    }
  }

  // ---------- When counting by stamps is exact ----------

  ghost predicate AlwaysCountsStamps(cfg: Settings) {
    forall clock, run, c :: 0 <= c < |Exec(cfg, Init(clock), run).counters| ==>
      CountsStamps(Exec(cfg, Init(clock), run), c)
  }

  /** With an empty window two requests at one instant both open a window there. */
  lemma EmptyWindowMiscounts(cfg: Settings, key: Key) returns (run: seq<Action>)
    requires cfg.windowSize <= 0 && cfg.Limit(key.tool) > 0
    ensures var s := Exec(cfg, Init(0), run); |s.counters| == 1 && !CountsStamps(s, 0)
  {
    var open0 := OpenRun(cfg, Init(0), key);
    var s1 := Opened(Init(0), key);
    var serve0 := ServeRun(cfg, s1, 0);
    var s2 := Served(cfg, s1, 0);
    var open1 := OpenRun(cfg, s2, key);
    var s3 := Opened(s2, key);
    var serve1 := ServeRun(cfg, s3, 1);
    var s4 := Served(cfg, s3, 1);
    ExecAppend(cfg, Init(0), open0, serve0);
    ExecAppend(cfg, Init(0), open0 + serve0, open1);
    ExecAppend(cfg, Init(0), open0 + serve0 + open1, serve1);
    run := open0 + serve0 + open1 + serve1;
    var e := Accept(key, 0, 0, 0);
    assert s2.log == [] + [e] && s4.log == [e] + [e];
    CountAppend([], e, OnCounterSince(0, 0));
    CountAppend([e], e, OnCounterSince(0, 0));
  }

  /** In every reachable state every counter's `count` is the number of its stamps from `windowStart` on,
      exactly when the window size is positive, or no tool is ever let through. */
  lemma CountsStampsIff(cfg: Settings)
    ensures AlwaysCountsStamps(cfg) <==> cfg.windowSize > 0 || !AcceptsSomething(cfg)
  {
    if cfg.windowSize > 0 {
      forall clock, run, c | 0 <= c < |Exec(cfg, Init(clock), run).counters|
        ensures CountsStamps(Exec(cfg, Init(clock), run), c)
      {
        CountIsStampCount(cfg, clock, run, c);
      }
    } else if AcceptsSomething(cfg) {
      var tool :| cfg.Limit(tool) > 0;
      var run := EmptyWindowMiscounts(cfg, Key("", tool));
    } else {
      forall clock, run, c | 0 <= c < |Exec(cfg, Init(clock), run).counters|
        ensures CountsStamps(Exec(cfg, Init(clock), run), c)
      {
        NothingCounted(cfg, clock, run, c);
      }
    }
  }

  lemma NothingCounted(cfg: Settings, clock: int, run: seq<Action>, c: nat)
    requires !AcceptsSomething(cfg) && c < |Exec(cfg, Init(clock), run).counters|
    ensures CountsStamps(Exec(cfg, Init(clock), run), c)
  {
    HistoryAlways(cfg, clock, run);
    var s := Exec(cfg, Init(clock), run);
    assert cfg.Limit(s.counters[c].key.tool) <= 0;
    LoggedMeansLetThrough(cfg, s);
  }

  lemma LoggedMeansLetThrough(cfg: Settings, s: State)
    requires EntriesOk(cfg, s)
    ensures s.log != [] ==> AcceptsSomething(cfg)
  {
    if s.log != [] {
      assert cfg.Limit(s.log[0].key.tool) > 0;
    }
  }
}

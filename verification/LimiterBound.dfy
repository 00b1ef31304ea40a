/**
 The promise of the limiter over whole concurrent runs: how many requests of one session
 and tool any stretch of time can see accepted, across counters that cleanup removes and
 later requests make anew.
 */
module LimiterBound {
  import opened AcceptLog
  import opened FixedWindow
  import opened LimiterProtocol
  import opened LimiterLocks
  import opened LimiterHistory

  /** This step removes from the table a counter that some request has fetched but not yet locked. */
  ghost predicate Strands(cfg: Settings, s: State, a: Action) {
    && a.SweepVisit? && Evicts(cfg, s)
    && exists t :: 0 <= t < |s.threads| && s.threads[t].pc.Fetched? && s.threads[t].counter == s.table[s.sweep.key]
  }

  /** No step of the run does. */
  ghost predicate NeverStrands(cfg: Settings, s: State, run: seq<Action>)
    decreases |run|
  {
    run == [] ||
    var n := |run| - 1;
    NeverStrands(cfg, s, run[..n]) && !Strands(cfg, Exec(cfg, s, run[..n]), run[n])
  }

  /** A request uses the counter its key is mapped to. */
  ghost predicate PointersOk(s: State) {
    forall t :: 0 <= t < |s.threads| && UsesCounter(s.threads[t].pc) ==>
      s.threads[t].key in s.table && s.table[s.threads[t].key] == s.threads[t].counter
  }

  /** The windows of a key that accepted anything never overlap, and accepted at most the quota. */
  ghost predicate KeyOk(cfg: Settings, log: seq<Accept>, key: Key) {
    ApartIn(log, OfKey(key), cfg.windowSize) && WithinIn(log, OfKey(key), cfg.Quota(key.tool))
  }

  ghost predicate KeysOk(cfg: Settings, log: seq<Accept>) {
    forall key :: KeyOk(cfg, log, key)
  }

  /** For a mapped key they are the mapped counter's present window and windows that had expired
      when it was opened; for an unmapped key all of them have expired. */
  ghost predicate LastOk(cfg: Settings, s: State) {
    forall i :: 0 <= i < |s.log| ==>
      if s.log[i].key in s.table && s.table[s.log[i].key] < |s.counters| then
        var start := s.counters[s.table[s.log[i].key]].window.start;
        s.log[i].window == start || s.log[i].window + cfg.windowSize <= start
      else
        s.log[i].window + cfg.windowSize <= s.clock
  }

  /** A mapped counter counts all that its window accepted, on whatever counter object. */
  ghost predicate TalliesOk(s: State) {
    forall key :: key in s.table && s.table[key] < |s.counters| ==>
      Count(s.log, InWindow(OfKey(key), s.counters[s.table[key]].window.start)) == s.counters[s.table[key]].window.count
  }

  predicate SweepClockOk(s: State) {
    Inside(s.sweep) ==> s.sweep.now <= s.clock
  }

  ghost predicate BoundOk(cfg: Settings, s: State) {
    && PointersOk(s) && SweepClockOk(s)
    && KeysOk(cfg, s.log) && LastOk(cfg, s) && TalliesOk(s)
  }

  // ---------- BoundOk is kept by every step that strands nobody ----------

  lemma MovesKeepPointers(s: State, s': State, t: nat)
    requires PointersOk(s) && Moves(s, s', t)
    ensures PointersOk(s')
  {
  }

  lemma FetchKeepsPointers(cfg: Settings, s: State, t: nat)
    requires RefsOk(s) && PointersOk(s) && Enabled(s, Fetch(t))
    ensures PointersOk(Step(cfg, s, Fetch(t)))
  {
  }

  /** Apart from visits of cleanup, a step keeps every pointer in use on its mapped counter. */
  lemma PointersKept(cfg: Settings, s: State, a: Action)
    requires RefsOk(s) && PointersOk(s) && Enabled(s, a) && !a.SweepVisit?
    ensures PointersOk(Step(cfg, s, a))
  {
    if a.Fetch? {
      FetchKeepsPointers(cfg, s, a.t);
    } else if !Sweeps(a) && !a.Tick? && !a.Arrive? {
      StepMoves(cfg, s, a, a.t);
      MovesKeepPointers(s, Step(cfg, s, a), a.t);
    }
  }

  lemma VisitKeepsPointers(cfg: Settings, s: State)
    requires LocksOk(s) && PointersOk(s) && Enabled(s, SweepVisit) && !Strands(cfg, s, SweepVisit)
    ensures PointersOk(Step(cfg, s, SweepVisit))
  {
    forall t | 0 <= t < |s.threads| && HoldsCounter(s.threads[t].pc)
      ensures s.threads[t].counter != s.table[s.sweep.key]
    {
      assert s.counters[s.threads[t].counter].holder == Request(t);
    }
  }

  lemma SweepClockKept(cfg: Settings, s: State, a: Action)
    requires SweepClockOk(s) && Enabled(s, a)
    ensures SweepClockOk(Step(cfg, s, a))
  {
  }

  lemma QuietKeepsBound(cfg: Settings, s: State, s': State)
    requires RefsOk(s) && LastOk(cfg, s) && TalliesOk(s)
    requires SameHistory(s, s') && s'.table == s.table
    ensures LastOk(cfg, s') && TalliesOk(s')
  {
  }

  /** An evicted window has expired, since it is older than the cleanup interval. */
  lemma VisitKeepsBound(cfg: Settings, s: State)
    requires 0 < cfg.windowSize <= cfg.cleanupInterval + 1
    requires SweepClockOk(s) && LastOk(cfg, s) && TalliesOk(s) && Enabled(s, SweepVisit)
    requires RefsOk(s)
    ensures LastOk(cfg, Step(cfg, s, SweepVisit)) && TalliesOk(Step(cfg, s, SweepVisit))
  {
  }

  lemma FetchKeepsBound(cfg: Settings, s: State, t: nat)
    requires cfg.windowSize > 0
    requires RefsOk(s) && LastOk(cfg, s) && TalliesOk(s) && Enabled(s, Fetch(t))
    ensures LastOk(cfg, Step(cfg, s, Fetch(t))) && TalliesOk(Step(cfg, s, Fetch(t)))
  {
    var key := s.threads[t].key;
    if key !in s.table {
      CountNone(s.log, InWindow(OfKey(key), s.clock));
    }
  }

  lemma StampKeepsBound(cfg: Settings, s: State, t: nat)
    requires cfg.windowSize > 0
    requires RefsOk(s) && PointersOk(s) && LastOk(cfg, s) && TalliesOk(s) && Enabled(s, Stamp(t))
    ensures LastOk(cfg, Step(cfg, s, Stamp(t))) && TalliesOk(Step(cfg, s, Stamp(t)))
  {
    var key, counter := s.threads[t].key, s.counters[s.threads[t].counter];
    if s.clock - counter.window.start >= cfg.windowSize {
      CountNone(s.log, InWindow(OfKey(key), s.clock));
    }
  }

  /** What a request that is let through adds to the log. */
  lemma AcceptedInKey(cfg: Settings, s: State, t: nat)
    requires RefsOk(s) && PointersOk(s) && StampsOk(cfg, s) && LastOk(cfg, s) && TalliesOk(s)
    requires Enabled(s, Decide(t))
    ensures var log' := Step(cfg, s, Decide(t)).log;
            log' == s.log ||
            var e := Accept(s.threads[t].key, s.threads[t].counter, s.counters[s.threads[t].counter].window.start,
                            s.threads[t].now);
            && log' == s.log + [e]
            && Count(s.log, InWindow(OfKey(e.key), e.window)) < cfg.Quota(e.key.tool)
            && (forall i :: 0 <= i < |s.log| && s.log[i].key == e.key ==>
                  s.log[i].window == e.window || s.log[i].window + cfg.windowSize <= e.window)
  {
  }

  lemma DecideKeepsKeys(cfg: Settings, s: State, t: nat)
    requires RefsOk(s) && PointersOk(s) && StampsOk(cfg, s) && LastOk(cfg, s) && TalliesOk(s)
    requires KeysOk(cfg, s.log) && Enabled(s, Decide(t))
    ensures KeysOk(cfg, Step(cfg, s, Decide(t)).log)
  {
    var log' := Step(cfg, s, Decide(t)).log;
    AcceptedInKey(cfg, s, t);
    if log' != s.log {
      var e := log'[|s.log|];
      assert log' == s.log + [e];
      forall key
        ensures KeyOk(cfg, log', key)
      {
        assert KeyOk(cfg, s.log, key);
        if key != e.key {
          AppendElsewhere(s.log, e, OfKey(key), cfg.windowSize, cfg.Quota(key.tool));
        } else {
          AppendApart(s.log, e, OfKey(key), cfg.windowSize);
          AppendWithin(s.log, e, OfKey(key), cfg.Quota(key.tool));
        }
      }
    }
  }

  lemma DecideKeepsLast(cfg: Settings, s: State, t: nat)
    requires cfg.windowSize > 0
    requires RefsOk(s) && PointersOk(s) && LastOk(cfg, s) && Enabled(s, Decide(t))
    ensures LastOk(cfg, Step(cfg, s, Decide(t)))
  {
  }

  lemma DecideKeepsTallies(cfg: Settings, s: State, t: nat)
    requires RefsOk(s) && PointersOk(s) && TalliesOk(s)
    requires Enabled(s, Decide(t))
    ensures TalliesOk(Step(cfg, s, Decide(t)))
  {
    var s' := Step(cfg, s, Decide(t));
    if s'.log != s.log {
      forall key | key in s.table && s.table[key] < |s.counters|
        ensures Count(s'.log, InWindow(OfKey(key), s.counters[s.table[key]].window.start))
             == s.counters[s.table[key]].window.count + if key == s.threads[t].key then 1 else 0
      {
        CountAppend(s.log, s'.log[|s.log|], InWindow(OfKey(key), s.counters[s.table[key]].window.start));
      }
    }
  }

  lemma ReadUnlockKeepsBound(cfg: Settings, s: State, t: nat)
    requires LastOk(cfg, s) && TalliesOk(s) && Enabled(s, ReadUnlock(t))
    ensures Step(cfg, s, ReadUnlock(t)).log == s.log
    ensures LastOk(cfg, Step(cfg, s, ReadUnlock(t))) && TalliesOk(Step(cfg, s, ReadUnlock(t)))
  {
  }

  /** Accepted requests are logged by Decide alone. */
  lemma LogKept(cfg: Settings, s: State, a: Action)
    requires Enabled(s, a) && !a.Decide?
    ensures Step(cfg, s, a).log == s.log
  {
  }

  lemma PointersAndLogKept(cfg: Settings, s: State, a: Action)
    requires LocksOk(s) && PointersOk(s) && Enabled(s, a) && !Strands(cfg, s, a)
    ensures PointersOk(Step(cfg, s, a)) && (a.Decide? || Step(cfg, s, a).log == s.log)
  {
    if a.SweepVisit? {
      VisitKeepsPointers(cfg, s);
    } else {
      PointersKept(cfg, s, a);
    }
    if !a.Decide? {
      LogKept(cfg, s, a);
    }
  }

  lemma BoundKept(cfg: Settings, s: State, a: Action)
    requires 0 < cfg.windowSize <= cfg.cleanupInterval + 1
    requires HistoryOk(cfg, s) && BoundOk(cfg, s) && !Strands(cfg, s, a)
    ensures BoundOk(cfg, Next(cfg, s, a))
  {
    if Enabled(s, a) {
      SweepClockKept(cfg, s, a);
      PointersAndLogKept(cfg, s, a);
      if a.SweepVisit? {
        VisitKeepsBound(cfg, s);
      } else if a.Fetch? {
        FetchKeepsBound(cfg, s, a.t);
      } else if a.Stamp? {
        StampKeepsBound(cfg, s, a.t);
      } else if a.ReadUnlock? {
        ReadUnlockKeepsBound(cfg, s, a.t);
      } else if a.Decide? {
        DecideKeepsKeys(cfg, s, a.t);
        DecideKeepsLast(cfg, s, a.t);
        DecideKeepsTallies(cfg, s, a.t);
      } else {
        QuietStep(cfg, s, a);
        QuietKeepsBound(cfg, s, Step(cfg, s, a));
      }
    }
  }

  lemma {:induction false} BoundAlways(cfg: Settings, clock: int, run: seq<Action>)
    requires 0 < cfg.windowSize <= cfg.cleanupInterval + 1
    requires NeverStrands(cfg, Init(clock), run)
    ensures BoundOk(cfg, Exec(cfg, Init(clock), run))
    decreases |run|
  {
    if run != [] {
      var n := |run| - 1;
      BoundAlways(cfg, clock, run[..n]);
      HistoryAlways(cfg, clock, run[..n]);
      BoundKept(cfg, Exec(cfg, Init(clock), run[..n]), run[n]);
    }
  }

  // ---------- Main result ----------

  lemma WindowsOfKey(cfg: Settings, clock: int, run: seq<Action>, key: Key)
    requires 0 < cfg.windowSize <= cfg.cleanupInterval + 1
    requires NeverStrands(cfg, Init(clock), run)
    ensures var log := Exec(cfg, Init(clock), run).log;
            && ApartIn(log, OfKey(key), cfg.windowSize) && WithinIn(log, OfKey(key), cfg.Quota(key.tool))
            && (forall i :: 0 <= i < |log| ==> log[i].window <= log[i].stamp < log[i].window + cfg.windowSize)
  {
    HistoryAlways(cfg, clock, run);
    BoundAlways(cfg, clock, run);
    assert KeyOk(cfg, Exec(cfg, Init(clock), run).log, key);
  }

  /** The sliding bound: if cleanup strands no request, any half-open interval k windows long sees at
      most k + 1 quotas of one key accepted, however requests, cleanup and the clock interleave and
      however often the key's counter is removed and made anew. */
  lemma SlidingBound(cfg: Settings, clock: int, run: seq<Action>, key: Key, from: int, before: int, k: nat)
    requires DropsOnlyExpired(cfg)
    requires NeverStrands(cfg, Init(clock), run)
    requires before == from + k * cfg.windowSize
    ensures Count(Exec(cfg, Init(clock), run).log, StampsIn(OfKey(key), from, before)) <= (k + 1) * cfg.Quota(key.tool)
  {
    if cfg.windowSize > 0 {
      WindowsOfKey(cfg, clock, run, key);
    }
    var log := Exec(cfg, Init(clock), run).log;
    SlidingStamps(log, OfKey(key), cfg.windowSize, cfg.Quota(key.tool), from, before, k);
  }
}

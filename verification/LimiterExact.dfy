/**
 Exactly which settings make the sliding bound hold in every run: those that let cleanup
 drop only expired windows, as long as it strands nobody; and if it may strand requests,
 none that bound anything. The runs that break the bound are put together from requests
 and cleanups that meet no interference.
 */
module LimiterExact {
  import opened AcceptLog
  import opened FixedWindow
  import opened AtomicLimiter
  import opened LimiterProtocol
  import opened LimiterHistory
  import opened LimiterBound
  import opened LimiterSerial

  /** An interval k windows long has seen at most k + 1 quotas. */
  ghost predicate Holds(cfg: Settings, log: seq<Accept>, key: Key, from: int, k: nat) {
    Count(log, StampsIn(OfKey(key), from, from + k * cfg.windowSize)) <= (k + 1) * cfg.Quota(key.tool)
  }

  ghost predicate HoldsEverywhere(cfg: Settings, log: seq<Accept>) {
    forall key, from, k: nat :: Holds(cfg, log, key, from, k)
  }

  /** A clock reading, so far as one is needed, at which a window made at 0 is stale. */
  function Age(cfg: Settings): nat {
    if cfg.cleanupInterval < 0 then 0 else cfg.cleanupInterval + 1
  }

  // ---------- Requests stranded, one counter each ----------

  /** `n` times over: a request fetches a new counter and waits, and cleanup drops the counter. */
  function Stranded(cfg: Settings, key: Key, n: nat): State {
    if n == 0 then Init(0)
    else
      var s := Stranded(cfg, key, n - 1);
      s.(clock := s.clock + Age(cfg),
         counters := s.counters + [Counter(key, Window(0, s.clock), Free, 0)],
         threads := s.threads + [Thread(key, Fetched, n - 1, 0, 0)])
  }

  /** From `m` on, every request waits for a counter of its own that has counted nothing. */
  ghost predicate Waits(s: State, key: Key, m: nat) {
    && s.writer.Free? && s.readers == {} && s.sweep.Idle?
    && m <= |s.threads| == |s.counters|
    && forall i :: m <= i < |s.threads| ==>
         && s.threads[i].key == key && s.threads[i].pc.Fetched? && s.threads[i].counter == i
         && s.counters[i].holder.Free? && s.counters[i].key == key && s.counters[i].window.count == 0
  }

  lemma {:induction false} StrandedWaits(cfg: Settings, key: Key, n: nat)
    ensures var s := Stranded(cfg, key, n);
            Waits(s, key, 0) && |s.threads| == n && s.table == map[] && s.log == []
  {
    if n > 0 {
      StrandedWaits(cfg, key, n - 1);
    }
  }

  /** The last of `n` counters still mapped. */
  lemma FetchOne(cfg: Settings, key: Key, n: nat) returns (run: seq<Action>)
    ensures Exec(cfg, Stranded(cfg, key, n), run) == Stranded(cfg, key, n + 1).(table := map[key := n])
  {
    var s := Stranded(cfg, key, n);
    StrandedWaits(cfg, key, n);
    run := OpenRun(cfg, s, key);
    var s1 := s.(counters := s.counters + [Counter(key, Window(0, s.clock), Free, 0)], table := map[key := n],
                 threads := s.threads + [Thread(key, Fetched, n, 0, 0)]);
    assert Opened(s, key) == s1;
    run := Then(cfg, s, run, s1, Tick(Age(cfg)));
  }

  lemma SweepOne(cfg: Settings, key: Key, n: nat) returns (run: seq<Action>)
    ensures Exec(cfg, Stranded(cfg, key, n + 1).(table := map[key := n]), run) == Stranded(cfg, key, n + 1)
  {
    StrandedWaits(cfg, key, n);
    StrandedWaits(cfg, key, n + 1);
    var s := Stranded(cfg, key, n + 1).(table := map[key := n]);
    run := CleanupRun(cfg, s);
    assert s.table.Keys == {key};
    assert Stale(s.counters[n].window, s.clock, cfg.cleanupInterval);
    assert StaleKeys(cfg, s, s.clock, {key}) == {key};
    assert s.table - {key} == map[];
  }

  lemma StrandOne(cfg: Settings, key: Key, n: nat) returns (run: seq<Action>)
    ensures Exec(cfg, Stranded(cfg, key, n), run) == Stranded(cfg, key, n + 1)
  {
    var fetch := FetchOne(cfg, key, n);
    var sweep := SweepOne(cfg, key, n);
    ExecAppend(cfg, Stranded(cfg, key, n), fetch, sweep);
    run := fetch + sweep;
  }

  lemma {:induction false} StrandRun(cfg: Settings, key: Key, n: nat) returns (run: seq<Action>)
    ensures Exec(cfg, Init(0), run) == Stranded(cfg, key, n)
  {
    if n == 0 {
      run := [];
    } else {
      var front := StrandRun(cfg, key, n - 1);
      var last := StrandOne(cfg, key, n - 1);
      ExecAppend(cfg, Init(0), front, last);
      run := front + last;
    }
  }

  /** Then all of them are let through at one instant. */
  lemma {:induction false} ServeWaiting(cfg: Settings, s: State, key: Key, m: nat, q: Query) returns (run: seq<Action>)
    requires Waits(s, key, m) && cfg.Limit(key.tool) > 0
    requires q.StampsIn? && q.scope == OfKey(key) && q.from <= s.clock < q.before
    ensures Count(Exec(cfg, s, run).log, q) == Count(s.log, q) + |s.threads| - m
    decreases |s.threads| - m
  {
    if m == |s.threads| {
      run := [];
    } else {
      var serve := ServeRun(cfg, s, m);
      var s1 := Served(cfg, s, m);
      CountAppend(s.log, s1.log[|s.log|], q);
      var rest := ServeWaiting(cfg, s1, key, m + 1, q);
      ExecAppend(cfg, s, serve, rest);
      run := serve + rest;
    }
  }

  lemma StrandingBreaksBound(cfg: Settings, key: Key) returns (run: seq<Action>, from: int)
    requires cfg.windowSize > 0 && cfg.Limit(key.tool) > 0
    ensures !Holds(cfg, Exec(cfg, Init(0), run).log, key, from, 1)
  {
    var n := 2 * cfg.Limit(key.tool) + 1;
    var first := StrandRun(cfg, key, n);
    var s := Stranded(cfg, key, n);
    StrandedWaits(cfg, key, n);
    from := s.clock;
    var last := ServeWaiting(cfg, s, key, 0, StampsIn(OfKey(key), from, from + 1 * cfg.windowSize));
    ExecAppend(cfg, Init(0), first, last);
    run := first + last;
  }

  // ---------- Windows dropped while open, nobody stranded ----------

  lemma {:induction false} NeverStrandsAppend(cfg: Settings, s: State, run: seq<Action>, more: seq<Action>)
    requires NeverStrands(cfg, s, run) && NeverStrands(cfg, Exec(cfg, s, run), more)
    ensures NeverStrands(cfg, s, run + more)
    decreases |more|
  {
    if more == [] {
      assert run + more == run;
    } else {
      var n := |more| - 1;
      NeverStrandsAppend(cfg, s, run, more[..n]);
      ExecAppend(cfg, s, run, more[..n]);
      assert (run + more)[..|run + more| - 1] == run + more[..n];
    }
  }

  lemma {:induction false} RequestsNeverStrand(cfg: Settings, s: State, run: seq<Action>)
    requires NoSweeps(run)
    ensures NeverStrands(cfg, s, run)
    decreases |run|
  {
    if run != [] {
      RequestsNeverStrand(cfg, s, run[..|run| - 1]);
    }
  }

  lemma Chain(cfg: Settings, s: State, run: seq<Action>, more: seq<Action>) returns (both: seq<Action>)
    requires NeverStrands(cfg, s, run) && NeverStrands(cfg, Exec(cfg, s, run), more)
    ensures NeverStrands(cfg, s, both) && Exec(cfg, s, both) == Exec(cfg, Exec(cfg, s, run), more)
  {
    ExecAppend(cfg, s, run, more);
    NeverStrandsAppend(cfg, s, run, more);
    both := run + more;
  }

  ghost predicate AllDone(s: State) {
    forall t :: 0 <= t < |s.threads| ==> s.threads[t].pc.Done?
  }

  lemma SweepKeepsThreads(cfg: Settings, s: State, a: Action)
    requires Sweeps(a)
    ensures Next(cfg, s, a).threads == s.threads
  {
  }

  lemma NoneFetched(cfg: Settings, s: State, a: Action)
    requires AllDone(s)
    ensures !Strands(cfg, s, a)
  {
  }

  lemma {:induction false} NobodyToStrand(cfg: Settings, s: State, run: seq<Action>)
    requires OnlySweeps(run) && AllDone(s)
    ensures NeverStrands(cfg, s, run) && Exec(cfg, s, run).threads == s.threads
    decreases |run|
  {
    if run == [] {
      ExecNil(cfg, s);
    } else {
      var n := |run| - 1;
      NobodyToStrand(cfg, s, run[..n]);
      NoneFetched(cfg, Exec(cfg, s, run[..n]), run[n]);
      SweepKeepsThreads(cfg, Exec(cfg, s, run[..n]), run[n]);
    }
  }

  /** Nothing is going on. */
  ghost predicate Quiet(s: State) {
    Calm(s) && AllDone(s)
  }

  /** One key's window, opened now and holding `count`; no window if that is nothing. */
  function Only(key: Key, count: nat, start: int): Table {
    if count == 0 then map[] else map[key := Window(count, start)]
  }

  lemma ServedLog(cfg: Settings, s: State, key: Key, q: Query)
    requires At(Late(s, key, s.clock, s.clock), |s.threads|, Fetched)
    requires Served(cfg, Late(s, key, s.clock, s.clock), |s.threads|).threads[|s.threads|].pc == Done(true)
    requires q.StampsIn? && q.scope == OfKey(key) && q.from <= s.clock < q.before
    ensures Count(Served(cfg, Late(s, key, s.clock, s.clock), |s.threads|).log, q) == Count(s.log, q) + 1
  {
    var s' := Served(cfg, Late(s, key, s.clock, s.clock), |s.threads|);
    CountAppend(s.log, s'.log[|s.log|], q);
  }

  lemma OnlyFills(cfg: Settings, key: Key, count: nat, now: int)
    requires cfg.windowSize > 0 && count < cfg.Limit(key.tool)
    ensures Accepts(cfg, Only(key, count, now), key, now, now)
    ensures AfterCall(cfg, Only(key, count, now), key, now, now) == Only(key, count + 1, now)
  {
  }

  lemma ServeOne(cfg: Settings, s: State, key: Key, count: nat, q: Query) returns (run: seq<Action>)
    requires Quiet(s) && View(s) == Only(key, count, s.clock)
    requires cfg.windowSize > 0 && count < cfg.Limit(key.tool)
    requires q.StampsIn? && q.scope == OfKey(key) && q.from <= s.clock < q.before
    ensures var s' := Exec(cfg, s, run);
            && Quiet(s') && s'.clock == s.clock && View(s') == Only(key, count + 1, s.clock)
            && Count(s'.log, q) == Count(s.log, q) + 1
    ensures NeverStrands(cfg, s, run)
  {
    run := RequestRun(cfg, s, key, s.clock, s.clock);
    RequestsNeverStrand(cfg, s, run);
    OnlyFills(cfg, key, count, s.clock);
    RequestAnswered(cfg, s, key, s.clock, s.clock);
    ServedLog(cfg, s, key, q);
    StillDone(s, Served(cfg, Late(s, key, s.clock, s.clock), |s.threads|));
  }

  lemma StillDone(s: State, s': State)
    requires AllDone(s) && |s'.threads| == |s.threads| + 1 && s'.threads[..|s.threads|] == s.threads
    requires s'.threads[|s.threads|].pc.Done?
    ensures AllDone(s')
  {
    assert forall t :: 0 <= t < |s.threads| ==> s'.threads[t] == s'.threads[..|s.threads|][t];
  }

  lemma {:induction false} Fill(cfg: Settings, s: State, key: Key, n: nat, q: Query) returns (run: seq<Action>)
    requires Quiet(s) && View(s) == map[] && cfg.windowSize > 0 && n <= cfg.Limit(key.tool)
    requires q.StampsIn? && q.scope == OfKey(key) && q.from <= s.clock < q.before
    ensures Filled(s, Exec(cfg, s, run), key, n, q)
    ensures NeverStrands(cfg, s, run)
    decreases n
  {
    if n == 0 {
      run := [];
      ExecNil(cfg, s);
    } else {
      var front := Fill(cfg, s, key, n - 1, q);
      run := FillOne(cfg, s, front, key, n - 1, q);
    }
  }

  /** `n` requests of the key have been let through since `s`, all at one instant. */
  ghost predicate Filled(s: State, s': State, key: Key, n: nat, q: Query) {
    && Quiet(s') && s'.clock == s.clock && View(s') == Only(key, n, s.clock)
    && Count(s'.log, q) == Count(s.log, q) + n
  }

  lemma FillOne(
    cfg: Settings, s: State, front: seq<Action>, key: Key, n: nat, q: Query) returns (run: seq<Action>)
    requires Filled(s, Exec(cfg, s, front), key, n, q) && NeverStrands(cfg, s, front)
    requires cfg.windowSize > 0 && n < cfg.Limit(key.tool)
    requires q.StampsIn? && q.scope == OfKey(key) && q.from <= s.clock < q.before
    ensures Filled(s, Exec(cfg, s, run), key, n + 1, q) && NeverStrands(cfg, s, run)
  {
    var last := ServeOne(cfg, Exec(cfg, s, front), key, n, q);
    run := Chain(cfg, s, front, last);
  }

  lemma SweptEmpty(cfg: Settings, s: State, key: Key, count: nat, start: int)
    requires Quiet(s) && View(s) == Only(key, count, start) && s.clock - start > cfg.cleanupInterval
    ensures var s' := s.(table := s.table - StaleKeys(cfg, s, s.clock, s.table.Keys)); Quiet(s') && View(s') == map[]
  {
    forall other | other in s.table
      ensures other in StaleKeys(cfg, s, s.clock, s.table.Keys)
    {
      assert other in View(s);
    }
  }

  /** Once the window is stale, cleanup drops it. */
  lemma Drop(cfg: Settings, s: State, key: Key, count: nat) returns (run: seq<Action>)
    requires Quiet(s) && View(s) == Only(key, count, s.clock)
    ensures var s' := Exec(cfg, s, run);
            && Quiet(s') && s'.clock == s.clock + Age(cfg) && View(s') == map[] && s'.log == s.log
    ensures NeverStrands(cfg, s, run)
  {
    var wait := Then(cfg, s, [], s, Tick(Age(cfg)));
    RequestsNeverStrand(cfg, s, wait);
    var s1 := s.(clock := s.clock + Age(cfg));
    var sweep := CleanupRun(cfg, s1);
    NobodyToStrand(cfg, s1, sweep);
    SweptEmpty(cfg, s1, key, count, s.clock);
    run := Chain(cfg, s, wait, sweep);
  }

  /** A full quota let through, swept away once it is stale. */
  lemma Round(cfg: Settings, s: State, key: Key, q: Query) returns (run: seq<Action>)
    requires Quiet(s) && View(s) == map[] && cfg.windowSize > 0 && cfg.Limit(key.tool) > 0
    requires q.StampsIn? && q.scope == OfKey(key) && q.from <= s.clock < q.before
    ensures var s' := Exec(cfg, s, run);
            && Quiet(s') && View(s') == map[] && s'.clock == s.clock + Age(cfg)
            && Count(s'.log, q) == Count(s.log, q) + cfg.Limit(key.tool)
    ensures NeverStrands(cfg, s, run)
  {
    var fill := Fill(cfg, s, key, cfg.Limit(key.tool), q);
    var drop := Drop(cfg, Exec(cfg, s, fill), key, cfg.Limit(key.tool));
    run := Chain(cfg, s, fill, drop);
  }

  /** Rounds one after the other, the windows still open if they are longer than Age. */
  lemma {:induction false} Rounds(cfg: Settings, s: State, key: Key, n: nat, q: Query) returns (run: seq<Action>)
    requires Quiet(s) && View(s) == map[] && cfg.windowSize > 0 && cfg.Limit(key.tool) > 0
    requires q.StampsIn? && q.scope == OfKey(key) && q.from <= s.clock
    requires n > 0 ==> s.clock + (n - 1) * Age(cfg) < q.before
    ensures Count(Exec(cfg, s, run).log, q) == Count(s.log, q) + Times(n, cfg.Limit(key.tool))
    ensures NeverStrands(cfg, s, run)
    decreases n
  {
    if n == 0 {
      run := [];
      ExecNil(cfg, s);
    } else {
      RoundsLeft(s.clock, n, Age(cfg), q.before);
      var first := Round(cfg, s, key, q);
      var rest := Rounds(cfg, Exec(cfg, s, first), key, n - 1, q);
      run := Chain(cfg, s, first, rest);
    }
  }

  function Times(n: nat, quota: int): int {
    if n == 0 then 0 else quota + Times(n - 1, quota)
  }

  lemma {:induction false} TimesIsProduct(n: nat, quota: int)
    ensures Times(n, quota) == n * quota
  {
    if n > 0 {
      TimesIsProduct(n - 1, quota);
      OneMore(n - 1, quota);
    }
  }

  lemma RoundsLeft(clock: int, n: nat, age: nat, before: int)
    requires n > 0 && clock + (n - 1) * age < before
    ensures clock < before
    ensures n - 1 > 0 ==> clock + age + (n - 1 - 1) * age < before
  {
    OneMore(n - 1, age);
    if n > 1 {
      OneMore(n - 2, age);
    }
  }

  /** Rounds come faster than windows, so in the long run there is a round too many. */
  lemma RoundTooMany(age: nat, w: int)
    requires w > age
    ensures (age + 1 + 1) * age < (age + 1) * w
  {
    assert (age + 1) * w >= (age + 1) * (age + 1);
  }

  lemma DroppingBreaksBound(cfg: Settings, key: Key) returns (run: seq<Action>)
    requires !DropsOnlyExpired(cfg) && cfg.Limit(key.tool) > 0
    ensures NeverStrands(cfg, Init(0), run)
    ensures !Holds(cfg, Exec(cfg, Init(0), run).log, key, 0, Age(cfg) + 1)
  {
    var k := Age(cfg) + 1;
    RoundTooMany(Age(cfg), cfg.windowSize);
    run := Rounds(cfg, Init(0), key, k + 2, StampsIn(OfKey(key), 0, 0 + k * cfg.windowSize));
    TimesIsProduct(k + 2, cfg.Limit(key.tool));
    OneMore(k + 1, cfg.Limit(key.tool));
  }

  // ---------- Main results ----------

  lemma NothingLogged(cfg: Settings, clock: int, run: seq<Action>)
    requires !AcceptsSomething(cfg)
    ensures HoldsEverywhere(cfg, Exec(cfg, Init(clock), run).log)
  {
    HistoryAlways(cfg, clock, run);
    LoggedMeansLetThrough(cfg, Exec(cfg, Init(clock), run));
    forall key, from, k: nat
      ensures Holds(cfg, [], key, from, k)
    {
      OneMore(k + 1, cfg.Quota(key.tool));
    }
  }

  ghost predicate AlwaysHolds(cfg: Settings) {
    forall clock, run :: NeverStrands(cfg, Init(clock), run) ==> HoldsEverywhere(cfg, Exec(cfg, Init(clock), run).log)
  }

  /** The sliding bound holds in every run that strands no request, exactly if cleanup can drop only
      expired windows, or no tool is ever let through. */
  lemma SlidingBoundIff(cfg: Settings)
    ensures AlwaysHolds(cfg) <==> DropsOnlyExpired(cfg) || !AcceptsSomething(cfg)
  {
    if !AcceptsSomething(cfg) {
      forall clock, run
        ensures HoldsEverywhere(cfg, Exec(cfg, Init(clock), run).log)
      {
        NothingLogged(cfg, clock, run);
      }
    } else if DropsOnlyExpired(cfg) {
      forall clock, run, key, from, k: nat | NeverStrands(cfg, Init(clock), run)
        ensures Holds(cfg, Exec(cfg, Init(clock), run).log, key, from, k)
      {
        SlidingBound(cfg, clock, run, key, from, from + k * cfg.windowSize, k);
      }
    } else {
      var tool :| cfg.Limit(tool) > 0;
      var run := DroppingBreaksBound(cfg, Key("", tool));
    }
  }

  ghost predicate HoldsAnyway(cfg: Settings) {
    forall clock, run :: HoldsEverywhere(cfg, Exec(cfg, Init(clock), run).log)
  }

  /** If cleanup may strand requests, there is no such bound: no positive window with a tool that is let
      through keeps it in every run. */
  lemma StrandedBoundIff(cfg: Settings)
    ensures HoldsAnyway(cfg) <==> cfg.windowSize <= 0 || !AcceptsSomething(cfg)
  {
    if !AcceptsSomething(cfg) {
      forall clock, run
        ensures HoldsEverywhere(cfg, Exec(cfg, Init(clock), run).log)
      {
        NothingLogged(cfg, clock, run);
      }
    } else if cfg.windowSize <= 0 {
      forall clock, run, key, from, k: nat
        ensures Holds(cfg, Exec(cfg, Init(clock), run).log, key, from, k)
      {
        var log := Exec(cfg, Init(clock), run).log;
        SlidingStamps(log, OfKey(key), cfg.windowSize, cfg.Quota(key.tool), from, from + k * cfg.windowSize, k);
      }
    } else {
      var tool :| cfg.Limit(tool) > 0;
      var run, from := StrandingBreaksBound(cfg, Key("", tool));
    }
  }
}

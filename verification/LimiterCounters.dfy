/**
 What holds in every run, whatever cleanup strands: a bound for each counter object, and so one
 for each key by the number of its counter objects that accepted anything.
 */
module LimiterCounters {
  import opened AcceptLog
  import opened FixedWindow
  import opened LimiterProtocol
  import opened LimiterHistory
  import opened LimiterBound

  /** The windows of a counter object that accepted anything never overlap, and accepted at most the quota. */
  ghost predicate ObjectOk(cfg: Settings, log: seq<Accept>, c: nat, quota: nat) {
    ApartIn(log, OnObject(c), cfg.windowSize) && WithinIn(log, OnObject(c), quota)
  }

  ghost predicate ObjectsOk(cfg: Settings, s: State) {
    forall c :: 0 <= c < |s.counters| ==> ObjectOk(cfg, s.log, c, cfg.Quota(s.counters[c].key.tool))
  }

  /** A counter counts what its object accepted in its window. */
  lemma TallyOfObject(cfg: Settings, s: State, c: nat)
    requires cfg.windowSize > 0 && c < |s.counters| && CountersOk(cfg, s) && EntriesOk(cfg, s)
    ensures Count(s.log, InWindow(OnObject(c), s.counters[c].window.start)) == s.counters[c].window.count
  {
    var q, since := InWindow(OnObject(c), s.counters[c].window.start), s.counters[c].since;
    CountSplit(s.log, since, q);
    CountNone(s.log[..since], q);
    CountSame(s.log[since..], q, OnCounter(c));
  }

  /** What a request that is let through adds to the log. */
  lemma AcceptedInWindow(cfg: Settings, s: State, t: nat)
    requires cfg.windowSize > 0 && HistoryOk(cfg, s) && Enabled(s, Decide(t))
    ensures var log' := Step(cfg, s, Decide(t)).log;
            log' == s.log ||
            var e := Accept(s.threads[t].key, s.threads[t].counter, s.counters[s.threads[t].counter].window.start,
                            s.threads[t].now);
            && log' == s.log + [e]
            && Count(s.log, InWindow(OnObject(e.counter), e.window)) < cfg.Quota(e.key.tool)
            && (forall i :: 0 <= i < |s.log| && s.log[i].counter == e.counter ==>
                  && s.log[i].key == e.key
                  && (s.log[i].window == e.window || s.log[i].window + cfg.windowSize <= e.window))
  {
    TallyOfObject(cfg, s, s.threads[t].counter);
  }

  /** Counters are only ever added, and keep their keys. */
  lemma KeysStay(cfg: Settings, s: State, a: Action)
    requires Enabled(s, a)
    ensures var s' := Step(cfg, s, a);
            && |s.counters| <= |s'.counters|
            && (forall c :: 0 <= c < |s.counters| ==> s'.counters[c].key == s.counters[c].key)
            && (a.Decide? ==> |s'.counters| == |s.counters|)
  {
  }

  lemma DecideKeepsObject(cfg: Settings, s: State, t: nat, c: nat)
    requires cfg.windowSize > 0 && HistoryOk(cfg, s) && Enabled(s, Decide(t)) && c < |s.counters|
    requires ObjectOk(cfg, s.log, c, cfg.Quota(s.counters[c].key.tool))
    ensures ObjectOk(cfg, Step(cfg, s, Decide(t)).log, c, cfg.Quota(s.counters[c].key.tool))
  {
    var log', quota := Step(cfg, s, Decide(t)).log, cfg.Quota(s.counters[c].key.tool);
    AcceptedInWindow(cfg, s, t);
    if log' != s.log {
      var e := log'[|s.log|];
      assert log' == s.log + [e];
      if c != e.counter {
        AppendElsewhere(s.log, e, OnObject(c), cfg.windowSize, quota);
      } else {
        AppendApart(s.log, e, OnObject(c), cfg.windowSize);
        AppendWithin(s.log, e, OnObject(c), quota);
      }
    }
  }

  lemma ObjectsKept(cfg: Settings, s: State, a: Action)
    requires cfg.windowSize > 0 && HistoryOk(cfg, s) && ObjectsOk(cfg, s) && Enabled(s, a)
    ensures ObjectsOk(cfg, Step(cfg, s, a))
  {
    var s' := Step(cfg, s, a);
    KeysStay(cfg, s, a);
    if !a.Decide? {
      LogKept(cfg, s, a);
    }
    forall c | 0 <= c < |s'.counters|
      ensures ObjectOk(cfg, s'.log, c, cfg.Quota(s'.counters[c].key.tool))
    {
      if a.Decide? {
        DecideKeepsObject(cfg, s, a.t, c);
      }
    }
  }

  lemma {:induction false} ObjectsAlways(cfg: Settings, clock: int, run: seq<Action>)
    requires cfg.windowSize > 0
    ensures ObjectsOk(cfg, Exec(cfg, Init(clock), run))
    decreases |run|
  {
    if run != [] {
      var s, a := Exec(cfg, Init(clock), run[..|run| - 1]), run[|run| - 1];
      ObjectsAlways(cfg, clock, run[..|run| - 1]);
      HistoryAlways(cfg, clock, run[..|run| - 1]);
      if Enabled(s, a) {
        ObjectsKept(cfg, s, a);
      }
    }
  }

  lemma WindowsOfObject(cfg: Settings, clock: int, run: seq<Action>, c: nat)
    requires cfg.windowSize > 0 && c < |Exec(cfg, Init(clock), run).counters|
    ensures var s := Exec(cfg, Init(clock), run);
            && ApartIn(s.log, OnObject(c), cfg.windowSize)
            && WithinIn(s.log, OnObject(c), cfg.Quota(s.counters[c].key.tool))
            && (forall i :: 0 <= i < |s.log| ==> s.log[i].window <= s.log[i].stamp < s.log[i].window + cfg.windowSize)
  {
    HistoryAlways(cfg, clock, run);
    ObjectsAlways(cfg, clock, run);
    var s := Exec(cfg, Init(clock), run);
    assert ObjectOk(cfg, s.log, c, cfg.Quota(s.counters[c].key.tool));
  }

  // ---------- Main results ----------

  /** In every run, for all settings: any half-open interval k windows long sees at most k + 1 quotas
      accepted by one counter object. */
  lemma CounterBound(cfg: Settings, clock: int, run: seq<Action>, c: nat, from: int, before: int, k: nat)
    requires c < |Exec(cfg, Init(clock), run).counters| && before == from + k * cfg.windowSize
    ensures var s := Exec(cfg, Init(clock), run);
            Count(s.log, StampsIn(OnObject(c), from, before)) <= (k + 1) * cfg.Quota(s.counters[c].key.tool)
  {
    if cfg.windowSize > 0 {
      WindowsOfObject(cfg, clock, run, c);
    }
    var s := Exec(cfg, Init(clock), run);
    SlidingStamps(s.log, OnObject(c), cfg.windowSize, cfg.Quota(s.counters[c].key.tool), from, before, k);
  }

  /** How many of a key's first `n` counter objects accepted anything in a stretch of time. */
  function Used(s: State, key: Key, n: nat, from: int, before: int): nat
    requires n <= |s.counters|
  {
    if n == 0 then 0
    else if s.counters[n - 1].key == key && Count(s.log, StampsIn(OnObject(n - 1), from, before)) > 0
    then Used(s, key, n - 1, from, before) + 1
    else Used(s, key, n - 1, from, before)
  }

  lemma {:induction false} FirstObjects(s: State, key: Key, n: nat, from: int, before: int, bound: nat)
    requires n <= |s.counters|
    requires forall i :: 0 <= i < |s.log| ==>
               s.log[i].counter < |s.counters| && s.counters[s.log[i].counter].key == s.log[i].key
    requires forall c :: 0 <= c < n && s.counters[c].key == key ==>
               Count(s.log, StampsIn(OnObject(c), from, before)) <= bound
    ensures Count(s.log, StampsIn(OnFirst(key, n), from, before)) <= Used(s, key, n, from, before) * bound
  {
    var q := StampsIn(OnFirst(key, n), from, before);
    if n == 0 {
      CountNone(s.log, q);
    } else {
      FirstObjects(s, key, n - 1, from, before, bound);
      OneMore(Used(s, key, n - 1, from, before), bound);
      LastObject(s, key, n, from, before);
    }
  }

  lemma LastObject(s: State, key: Key, n: nat, from: int, before: int)
    requires 0 < n <= |s.counters|
    requires forall i :: 0 <= i < |s.log| ==>
               s.log[i].counter < |s.counters| && s.counters[s.log[i].counter].key == s.log[i].key
    ensures Count(s.log, StampsIn(OnFirst(key, n), from, before))
         <= Count(s.log, StampsIn(OnFirst(key, n - 1), from, before))
            + if s.counters[n - 1].key == key then Count(s.log, StampsIn(OnObject(n - 1), from, before)) else 0
  {
    var q, q' := StampsIn(OnFirst(key, n), from, before), StampsIn(OnFirst(key, n - 1), from, before);
    if s.counters[n - 1].key == key {
      CountCover(s.log, q, q', StampsIn(OnObject(n - 1), from, before));
    } else {
      CountWithin(s.log, q, q');
    }
  }

  lemma EntriesOfCounters(cfg: Settings, clock: int, run: seq<Action>)
    ensures var s := Exec(cfg, Init(clock), run);
            forall i :: 0 <= i < |s.log| ==>
              s.log[i].counter < |s.counters| && s.counters[s.log[i].counter].key == s.log[i].key
  {
    HistoryAlways(cfg, clock, run);
  }

  /** So a key sees at most that many for each of its counter objects that accepted anything in the interval. */
  lemma KeyBound(
    cfg: Settings, clock: int, run: seq<Action>, key: Key, from: int, before: int, k: nat, bound: nat)
    requires before == from + k * cfg.windowSize && bound == (k + 1) * cfg.Quota(key.tool)
    ensures var s := Exec(cfg, Init(clock), run);
            Count(s.log, StampsIn(OfKey(key), from, before)) <= Used(s, key, |s.counters|, from, before) * bound
  {
    EntriesOfCounters(cfg, clock, run);
    var s := Exec(cfg, Init(clock), run);
    forall c | 0 <= c < |s.counters| && s.counters[c].key == key
      ensures Count(s.log, StampsIn(OnObject(c), from, before)) <= bound
    {
      CounterBound(cfg, clock, run, c, from, before, k);
    }
    FirstObjects(s, key, |s.counters|, from, before, bound);
    CountWithin(s.log, StampsIn(OfKey(key), from, before), StampsIn(OnFirst(key, |s.counters|), from, before));
  }
}

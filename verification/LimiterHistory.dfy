/**
 What the counters mean: in every reachable state a counter's `count` is the number of
 requests it has accepted since its window was opened, whoever else is running.
 */
module LimiterHistory {
  import opened AcceptLog
  import opened FixedWindow
  import opened LimiterProtocol
  import opened LimiterLocks

  /** Each counter counts the log entries it has made since its window was opened, and stays within quota. */
  ghost predicate CountersOk(cfg: Settings, s: State) {
    forall c :: 0 <= c < |s.counters| ==>
      && s.counters[c].window.start <= s.clock
      && 0 <= s.counters[c].window.count <= cfg.Quota(s.counters[c].key.tool)
      && s.counters[c].since <= |s.log|
      && s.counters[c].window.count == Count(s.log[s.counters[c].since..], OnCounter(c))
  }

  predicate HasStamp(pc: Pc) {
    pc.Stamped? || pc.Reading? || pc.Limited?
  }

  /** A request that has read the clock falls in its counter's window. */
  ghost predicate StampsOk(cfg: Settings, s: State) {
    forall t :: 0 <= t < |s.threads| && HasStamp(s.threads[t].pc) && s.threads[t].counter < |s.counters| ==>
      && s.threads[t].now <= s.clock
      && s.counters[s.threads[t].counter].window.start <= s.threads[t].now
      && (s.threads[t].now - s.counters[s.threads[t].counter].window.start < cfg.windowSize
          || s.threads[t].now == s.counters[s.threads[t].counter].window.start)
      && (s.threads[t].pc.Limited? ==> s.threads[t].limit == cfg.Limit(s.threads[t].key.tool))
  }

  /** With a positive window size, a log entry lies in the window it names, which is its counter's
      present window or one that had expired when the present one was opened. */
  ghost predicate EntriesOk(cfg: Settings, s: State) {
    forall i :: 0 <= i < |s.log| ==>
      && s.log[i].counter < |s.counters|
      && s.counters[s.log[i].counter].key == s.log[i].key
      && cfg.Quota(s.log[i].key.tool) > 0
      && s.log[i].stamp <= s.clock
      && (cfg.windowSize > 0 ==>
            && s.log[i].window <= s.log[i].stamp < s.log[i].window + cfg.windowSize
            && (if i < s.counters[s.log[i].counter].since
                then s.log[i].window + cfg.windowSize <= s.counters[s.log[i].counter].window.start
                else s.log[i].window == s.counters[s.log[i].counter].window.start))
  }

  ghost predicate HistoryOk(cfg: Settings, s: State) {
    LocksOk(s) && CountersOk(cfg, s) && StampsOk(cfg, s) && EntriesOk(cfg, s)
  }

  // ---------- HistoryOk is kept by every step ----------

  /** Nothing the history depends on has changed, but for time having passed. */
  ghost predicate SameHistory(s: State, s': State) {
    && s.clock <= s'.clock && s'.log == s.log
    && |s'.counters| == |s.counters|
    && (forall c :: 0 <= c < |s.counters| ==>
          s'.counters[c] == s.counters[c].(holder := s'.counters[c].holder))
    && (forall t :: 0 <= t < |s'.threads| && HasStamp(s'.threads[t].pc) ==>
          && t < |s.threads| && HasStamp(s.threads[t].pc)
          && s'.threads[t] == s.threads[t].(pc := s'.threads[t].pc)
          && (s'.threads[t].pc.Limited? ==> s.threads[t].pc.Limited?))
  }

  /** Steps that leave every window, every stamp and the log alone. */
  lemma QuietStep(cfg: Settings, s: State, a: Action)
    requires Enabled(s, a) && !a.Fetch? && !a.Stamp? && !a.ReadUnlock? && !a.Decide?
    ensures SameHistory(s, Step(cfg, s, a))
    ensures a.SweepVisit? || Step(cfg, s, a).table == s.table
  {
    if !Sweeps(a) && !a.Tick? && !a.Arrive? {
      QuietRequest(cfg, s, a, a.t);
    }
  }

  lemma QuietRequest(cfg: Settings, s: State, a: Action, t: nat)
    requires a == Announce(t) || a == Enter(t) || a == LockCounter(t) || a == ReadLock(t) || a == Unlock(t)
    requires Enabled(s, a)
    ensures SameHistory(s, Step(cfg, s, a)) && Step(cfg, s, a).table == s.table
  {
  }

  lemma QuietKeeps(cfg: Settings, s: State, s': State)
    requires CountersOk(cfg, s) && StampsOk(cfg, s) && EntriesOk(cfg, s) && SameHistory(s, s')
    ensures CountersOk(cfg, s') && StampsOk(cfg, s') && EntriesOk(cfg, s')
  {
  }

  lemma FetchKeeps(cfg: Settings, s: State, t: nat)
    requires CountersOk(cfg, s) && EntriesOk(cfg, s) && Enabled(s, Fetch(t))
    ensures CountersOk(cfg, Step(cfg, s, Fetch(t))) && EntriesOk(cfg, Step(cfg, s, Fetch(t)))
  {
  }

  lemma FetchKeepsStamps(cfg: Settings, s: State, t: nat)
    requires RefsOk(s) && StampsOk(cfg, s) && Enabled(s, Fetch(t))
    ensures StampsOk(cfg, Step(cfg, s, Fetch(t)))
  {
  }

  lemma StampKeepsCounters(cfg: Settings, s: State, t: nat)
    requires CountersOk(cfg, s) && EntriesOk(cfg, s) && Enabled(s, Stamp(t))
    ensures CountersOk(cfg, Step(cfg, s, Stamp(t))) && EntriesOk(cfg, Step(cfg, s, Stamp(t)))
  {
  }

  lemma StampKeepsStamps(cfg: Settings, s: State, t: nat)
    requires HistoryOk(cfg, s) && Enabled(s, Stamp(t))
    ensures StampsOk(cfg, Step(cfg, s, Stamp(t)))
  {
    SoleHolder(s, t);
  }

  /** No other request is past the Lock of the same counter. */
  lemma SoleHolder(s: State, t: nat)
    requires RefsOk(s) && MutexesOk(s) && t < |s.threads| && HoldsCounter(s.threads[t].pc)
    ensures forall u :: 0 <= u < |s.threads| && u != t && HoldsCounter(s.threads[u].pc) ==>
              s.threads[u].counter != s.threads[t].counter
  {
    assert s.counters[s.threads[t].counter].holder == Request(t);
  }

  lemma ReadUnlockKeeps(cfg: Settings, s: State, t: nat)
    requires CountersOk(cfg, s) && StampsOk(cfg, s) && EntriesOk(cfg, s) && Enabled(s, ReadUnlock(t))
    ensures var s' := Step(cfg, s, ReadUnlock(t)); CountersOk(cfg, s') && StampsOk(cfg, s') && EntriesOk(cfg, s')
  {
  }

  lemma DecideKeepsCounters(cfg: Settings, s: State, t: nat)
    requires RefsOk(s) && CountersOk(cfg, s) && StampsOk(cfg, s) && Enabled(s, Decide(t))
    ensures CountersOk(cfg, Step(cfg, s, Decide(t)))
  {
    var log' := Step(cfg, s, Decide(t)).log;
    if log' != s.log {
      forall c | 0 <= c < |s.counters|
        ensures Count(log'[s.counters[c].since..], OnCounter(c))
             == Count(s.log[s.counters[c].since..], OnCounter(c)) + if c == s.threads[t].counter then 1 else 0
      {
        assert log'[s.counters[c].since..] == s.log[s.counters[c].since..] + [log'[|s.log|]];
        CountAppend(s.log[s.counters[c].since..], log'[|s.log|], OnCounter(c));
      }
    }
  }

  lemma DecideKeepsStamps(cfg: Settings, s: State, t: nat)
    requires StampsOk(cfg, s) && Enabled(s, Decide(t))
    ensures StampsOk(cfg, Step(cfg, s, Decide(t)))
  {
  }

  lemma DecideKeepsEntries(cfg: Settings, s: State, t: nat)
    requires RefsOk(s) && CountersOk(cfg, s) && StampsOk(cfg, s) && EntriesOk(cfg, s) && Enabled(s, Decide(t))
    ensures EntriesOk(cfg, Step(cfg, s, Decide(t)))
  {
  }

  lemma HistoryKept(cfg: Settings, s: State, a: Action)
    requires HistoryOk(cfg, s)
    ensures HistoryOk(cfg, Next(cfg, s, a))
  {
    LocksKept(cfg, s, a);
    if Enabled(s, a) {
      if a.Fetch? {
        FetchKeeps(cfg, s, a.t);
        FetchKeepsStamps(cfg, s, a.t);
      } else if a.Stamp? {
        StampKeepsCounters(cfg, s, a.t);
        StampKeepsStamps(cfg, s, a.t);
      } else if a.ReadUnlock? {
        ReadUnlockKeeps(cfg, s, a.t);
      } else if a.Decide? {
        DecideKeepsCounters(cfg, s, a.t);
        DecideKeepsStamps(cfg, s, a.t);
        DecideKeepsEntries(cfg, s, a.t);
      } else {
        QuietStep(cfg, s, a);
        QuietKeeps(cfg, s, Step(cfg, s, a));
      }
    }
  }

  lemma {:induction false} HistoryAlways(cfg: Settings, clock: int, run: seq<Action>)
    ensures HistoryOk(cfg, Exec(cfg, Init(clock), run))
    decreases |run|
  {
    if run != [] {
      HistoryAlways(cfg, clock, run[..|run| - 1]);
      HistoryKept(cfg, Exec(cfg, Init(clock), run[..|run| - 1]), run[|run| - 1]);
    }
  }

  // ---------- Main results ----------

  /** In every interleaving, every counter object counts exactly the requests it accepted since its
      window was opened, that window was not opened in the future, and the quota is never passed. */
  lemma CountIsHistory(cfg: Settings, clock: int, run: seq<Action>, c: nat)
    requires c < |Exec(cfg, Init(clock), run).counters|
    ensures var s := Exec(cfg, Init(clock), run);
            var counter := s.counters[c];
            && counter.since <= |s.log|
            && counter.window.count == Count(s.log[counter.since..], OnCounter(c))
            && counter.window.start <= s.clock
            && 0 <= counter.window.count <= cfg.Quota(counter.key.tool)
  {
    HistoryAlways(cfg, clock, run);
  }

  /** The same by clock readings alone: `count` is the number of stamps not before `windowStart`. */
  ghost predicate CountsStamps(s: State, c: nat)
    requires c < |s.counters|
  {
    s.counters[c].window.count == Count(s.log, OnCounterSince(c, s.counters[c].window.start))
  }

  lemma CountIsStampCount(cfg: Settings, clock: int, run: seq<Action>, c: nat)
    requires cfg.windowSize > 0
    requires c < |Exec(cfg, Init(clock), run).counters|
    ensures CountsStamps(Exec(cfg, Init(clock), run), c)
  {
    HistoryAlways(cfg, clock, run);
    var s := Exec(cfg, Init(clock), run);
    var since, q, q' := s.counters[c].since, OnCounterSince(c, s.counters[c].window.start), OnCounter(c);
    CountSplit(s.log, since, q);
    CountNone(s.log[..since], q);
    CountSame(s.log[since..], q, q');
  }

  lemma RefusedIffFull(cfg: Settings, s: State, t: nat)
    requires CountersOk(cfg, s) && StampsOk(cfg, s) && At(s, t, Limited)
    ensures var c := s.threads[t].counter;
            Next(cfg, s, Decide(t)).threads[t].pc.Refused? <==>
            Count(s.log[s.counters[c].since..], OnCounter(c)) >= cfg.Limit(s.threads[t].key.tool)
  {
  }

  /** A request about to decide is refused exactly when the current window of its counter already
      holds as many accepted requests as the tool's limit. */
  lemma RefusedIffWindowFull(cfg: Settings, clock: int, run: seq<Action>, t: nat)
    requires At(Exec(cfg, Init(clock), run), t, Limited)
    ensures var s := Exec(cfg, Init(clock), run);
            var c := s.threads[t].counter;
            && s.counters[c].since <= |s.log|
            && (Next(cfg, s, Decide(t)).threads[t].pc.Refused? <==>
                Count(s.log[s.counters[c].since..], OnCounter(c)) >= cfg.Limit(s.threads[t].key.tool))
  {
    HistoryAlways(cfg, clock, run);
    RefusedIffFull(cfg, Exec(cfg, Init(clock), run), t);
  }

  /** Handlers of one counter object never overlap. */
  lemma HandlersExclude(cfg: Settings, clock: int, run: seq<Action>, t: nat, u: nat)
    requires At(Exec(cfg, Init(clock), run), t, Running) && At(Exec(cfg, Init(clock), run), u, Running) && t != u
    ensures var s := Exec(cfg, Init(clock), run); s.threads[t].counter != s.threads[u].counter
  {
    LocksAlways(cfg, clock, run);
    SoleHolder(Exec(cfg, Init(clock), run), t);
  }
}

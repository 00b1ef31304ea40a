/**
 The interleaved limiter refines the atomic one, key by key: in a run that strands nobody, the
 answers a key's requests are given, in the order in which they are decided, are those of the
 atomic limiter to calls with the same clock readings, with cleanup where it visited the key.
 */
module LimiterRefinement {
  import opened FixedWindow
  import opened AtomicLimiter
  import opened LimiterProtocol
  import opened LimiterLocks
  import opened LimiterHistory
  import opened LimiterBound

  // ---------- What a run has to say of one key ----------

  /** The clock reading at which counter `c` was made. */
  function Made(cfg: Settings, s: State, run: seq<Action>, c: nat): int
    decreases |run|
  {
    if run == [] then s.clock
    else
      var s' := Exec(cfg, s, run[..|run| - 1]);
      if c < |s'.counters| then Made(cfg, s, run[..|run| - 1], c) else s'.clock
  }

  predicate Decides(s: State, a: Action, key: Key) {
    a.Decide? && Enabled(s, a) && s.threads[a.t].key == key
  }

  predicate Visits(s: State, a: Action, key: Key) {
    a.SweepVisit? && Enabled(s, a) && s.sweep.key == key
  }

  /** The answers given to the requests of a key, in the order in which they are decided. */
  function Decisions(cfg: Settings, s: State, run: seq<Action>, key: Key): seq<Answer>
    decreases |run|
  {
    if run == [] then []
    else
      var n := |run| - 1;
      var s' := Exec(cfg, s, run[..n]);
      if Decides(s', run[n], key) then
        Decisions(cfg, s, run[..n], key) + [Answer(key, Step(cfg, s', run[n]).threads[run[n].t].pc.Running?)]
      else Decisions(cfg, s, run[..n], key)
  }

  /** The calls and cleanups behind them: each call with the reading at which its counter was made and the
      one the request made with its counter locked, each cleanup with the reading of that cleanup. */
  function Events(cfg: Settings, s: State, run: seq<Action>, key: Key): seq<Event>
    decreases |run|
  {
    if run == [] then []
    else
      var n := |run| - 1;
      var s', events := Exec(cfg, s, run[..n]), Events(cfg, s, run[..n], key);
      if Decides(s', run[n], key) then
        var th := s'.threads[run[n].t];
        events + [Call(key, Made(cfg, s, run[..n], th.counter), th.now)]
      else if Visits(s', run[n], key) then events + [CleanupAt(s'.sweep.now)]
      else events
  }

  // ---------- What relates the two limiters ----------

  /** The window a counter would have if the request that holds it had not looked at the clock yet, as
      long as that request is undecided, is `w`. */
  ghost predicate Holding(cfg: Settings, s: State, c: nat, w: Window)
    requires c < |s.counters|
  {
    var owner := s.counters[c].holder;
    s.counters[c].window ==
    if owner.Request? && owner.t < |s.threads| && HasStamp(s.threads[owner.t].pc)
    then Roll(w, s.threads[owner.t].now, cfg.windowSize)
    else w
  }

  /** The atomic limiter has the window of the key's mapped counter; it may lack the key while that counter,
      made at `made`, has decided nothing, and lacks it when the key is unmapped. */
  ghost predicate Tracks(cfg: Settings, s: State, key: Key, table: Table, made: int) {
    if Mapped(s, key) then Holding(cfg, s, s.table[key], Lookup(table, key, made))
    else key !in table
  }

  /** A step that leaves the mapped counter of a key, its holder and that holder's reading alone. */
  ghost predicate Untouched(s: State, s': State, key: Key) {
    && (Mapped(s, key) <==> Mapped(s', key))
    && (Mapped(s, key) ==>
          && s'.table[key] == s.table[key]
          && s'.counters[s.table[key]].window == s.counters[s.table[key]].window
          && SameReading(s, s', s.table[key]))
  }

  /** The counter has no undecided holder with a reading before or after, or the same with the same reading. */
  ghost predicate SameReading(s: State, s': State, c: nat)
    requires c < |s.counters| && c < |s'.counters|
  {
    && Undecided(s, c) == Undecided(s', c)
    && (Undecided(s, c) ==> Reading(s, c) == Reading(s', c))
  }

  predicate Undecided(s: State, c: nat)
    requires c < |s.counters|
  {
    var owner := s.counters[c].holder;
    owner.Request? && owner.t < |s.threads| && HasStamp(s.threads[owner.t].pc)
  }

  function Reading(s: State, c: nat): int
    requires c < |s.counters| && Undecided(s, c)
  {
    s.threads[s.counters[c].holder.t].now
  }

  lemma UntouchedTracks(cfg: Settings, s: State, s': State, key: Key, table: Table, made: int)
    requires Tracks(cfg, s, key, table, made) && Untouched(s, s', key)
    ensures Tracks(cfg, s', key, table, made)
  {
  }

  // ---------- One kind of step at a time ----------

  lemma QuietRequestKeeps(cfg: Settings, s: State, a: Action, t: nat)
    requires LocksOk(s) && Enabled(s, a)
    requires a == Announce(t) || a == Enter(t) || a == LockCounter(t) || a == ReadLock(t)
          || a == ReadUnlock(t) || a == Unlock(t)
    ensures var s' := Step(cfg, s, a);
            && s'.table == s.table && |s'.counters| == |s.counters| && |s'.threads| == |s.threads|
            && (forall c :: 0 <= c < |s.counters| ==> s'.counters[c].window == s.counters[c].window)
            && (HasStamp(s'.threads[t].pc) <==> HasStamp(s.threads[t].pc))
            && s'.threads[t].now == s.threads[t].now
  {
  }

  /** A request that neither looks at the clock nor decides. */
  lemma QuietRequestUntouched(cfg: Settings, s: State, a: Action, t: nat, key: Key)
    requires LocksOk(s) && Enabled(s, a)
    requires a == Announce(t) || a == Enter(t) || a == LockCounter(t) || a == ReadLock(t)
          || a == ReadUnlock(t) || a == Unlock(t)
    ensures Untouched(s, Step(cfg, s, a), key)
  {
    QuietRequestKeeps(cfg, s, a, t);
    StepMoves(cfg, s, a, t);
    if Mapped(s, key) {
      QuietReading(cfg, s, a, t, s.table[key]);
    }
  }

  lemma QuietReading(cfg: Settings, s: State, a: Action, t: nat, c: nat)
    requires LocksOk(s) && Enabled(s, a) && c < |s.counters| == |Step(cfg, s, a).counters|
    requires a == Announce(t) || a == Enter(t) || a == LockCounter(t) || a == ReadLock(t)
          || a == ReadUnlock(t) || a == Unlock(t)
    ensures SameReading(s, Step(cfg, s, a), c)
  {
    QuietRequestKeeps(cfg, s, a, t);
    StepMoves(cfg, s, a, t);
    if !a.LockCounter? && !a.Unlock? {
      HoldersStay(cfg, s, a, t);
    }
  }

  lemma EnvironmentUntouched(cfg: Settings, s: State, a: Action, key: Key)
    requires LocksOk(s) && Enabled(s, a) && (a.Tick? || a.Arrive?)
    ensures Untouched(s, Step(cfg, s, a), key)
  {
  }

  lemma SweepUntouched(cfg: Settings, s: State, a: Action, key: Key)
    requires LocksOk(s) && Enabled(s, a) && Sweeps(a) && !Visits(s, a, key)
    ensures Untouched(s, Step(cfg, s, a), key)
  {
  }

  /** Fetching makes a counter if the key has none, and then it has been made just now. */
  lemma FetchTracks(cfg: Settings, s: State, t: nat, key: Key, table: Table, made: int)
    requires LocksOk(s) && Enabled(s, Fetch(t)) && Tracks(cfg, s, key, table, made)
    ensures Tracks(cfg, Step(cfg, s, Fetch(t)), key, table, if Mapped(s, key) then made else s.clock)
  {
  }

  /** Looking at the clock rolls the window, as the call that is to come will. */
  lemma StampTracks(cfg: Settings, s: State, t: nat, key: Key, table: Table, made: int)
    requires LocksOk(s) && Enabled(s, Stamp(t)) && Tracks(cfg, s, key, table, made)
    ensures Tracks(cfg, Step(cfg, s, Stamp(t)), key, table, made)
  {
    assert s.counters[s.threads[t].counter].holder == Request(t);
  }

  lemma DecideElsewhere(cfg: Settings, s: State, t: nat, key: Key)
    requires LocksOk(s) && Enabled(s, Decide(t)) && s.threads[t].key != key
    ensures Untouched(s, Step(cfg, s, Decide(t)), key)
  {
  }

  /** Deciding is the call. */
  lemma DecideTracks(cfg: Settings, s: State, t: nat, key: Key, table: Table, made: int)
    requires LocksOk(s) && StampsOk(cfg, s) && PointersOk(s) && Enabled(s, Decide(t)) && s.threads[t].key == key
    requires Tracks(cfg, s, key, table, made)
    ensures var s', now := Step(cfg, s, Decide(t)), s.threads[t].now;
            && Tracks(cfg, s', key, AfterCall(cfg, table, key, made, now), made)
            && s'.threads[t].pc.Running? == Accepts(cfg, table, key, made, now)
  {
    assert s.counters[s.threads[t].counter].holder == Request(t);
  }

  /** A visit of the key is the cleanup. */
  lemma VisitTracks(cfg: Settings, s: State, key: Key, table: Table, made: int)
    requires LocksOk(s) && Visits(s, SweepVisit, key) && Tracks(cfg, s, key, table, made)
    ensures Tracks(cfg, Step(cfg, s, SweepVisit), key, AfterCleanup(cfg, table, s.sweep.now), made)
  {
  }

  /** A step other than the two that count. */
  lemma OtherTracks(cfg: Settings, s: State, a: Action, key: Key, table: Table, made: int)
    requires LocksOk(s) && Enabled(s, a) && !Decides(s, a, key) && !Visits(s, a, key)
    requires Tracks(cfg, s, key, table, made)
    ensures Tracks(cfg, Step(cfg, s, a), key, table, if a.Fetch? && !Mapped(s, key) then s.clock else made)
  {
    if a.Fetch? {
      FetchTracks(cfg, s, a.t, key, table, made);
    } else if a.Stamp? {
      StampTracks(cfg, s, a.t, key, table, made);
    } else {
      if Sweeps(a) {
        SweepUntouched(cfg, s, a, key);
      } else if a.Tick? || a.Arrive? {
        EnvironmentUntouched(cfg, s, a, key);
      } else if a.Decide? {
        DecideElsewhere(cfg, s, a.t, key);
      } else {
        QuietRequestUntouched(cfg, s, a, a.t, key);
      }
      UntouchedTracks(cfg, s, Step(cfg, s, a), key, table, made);
    }
  }

  // ---------- Whole runs ----------

  lemma {:induction false} PointersAlways(cfg: Settings, clock: int, run: seq<Action>)
    requires NeverStrands(cfg, Init(clock), run)
    ensures PointersOk(Exec(cfg, Init(clock), run))
    decreases |run|
  {
    if run != [] {
      var s, a := Exec(cfg, Init(clock), run[..|run| - 1]), run[|run| - 1];
      PointersAlways(cfg, clock, run[..|run| - 1]);
      LocksAlways(cfg, clock, run[..|run| - 1]);
      if Enabled(s, a) {
        PointersAndLogKept(cfg, s, a);
      }
    }
  }

  /** Where a key is mapped after a step: where it was, or if it was not, to a counter made in the step. */
  lemma MappedAfter(cfg: Settings, s: State, a: Action, key: Key)
    requires LocksOk(s) && Enabled(s, a) && Mapped(Step(cfg, s, a), key)
    ensures if Mapped(s, key) then Step(cfg, s, a).table[key] == s.table[key]
            else a.Fetch? && Step(cfg, s, a).table[key] == |s.counters|
  {
  }

  /** The reading at which the key's mapped counter was made. */
  function MadeFor(cfg: Settings, s: State, run: seq<Action>, key: Key): int {
    var s' := Exec(cfg, s, run);
    if Mapped(s', key) then Made(cfg, s, run, s'.table[key]) else s.clock
  }

  lemma MadeStep(cfg: Settings, clock: int, run: seq<Action>, key: Key)
    requires run != [] && Enabled(Exec(cfg, Init(clock), run[..|run| - 1]), run[|run| - 1])
    requires Mapped(Exec(cfg, Init(clock), run), key)
    ensures var n := |run| - 1;
            var s := Exec(cfg, Init(clock), run[..n]);
            MadeFor(cfg, Init(clock), run, key) ==
            if run[n].Fetch? && !Mapped(s, key) then s.clock else MadeFor(cfg, Init(clock), run[..n], key)
  {
    var n := |run| - 1;
    LocksAlways(cfg, clock, run[..n]);
    MappedAfter(cfg, Exec(cfg, Init(clock), run[..n]), run[n], key);
  }

  /** While the key is unmapped it does not matter when a counter was made. */
  lemma TracksAnyway(cfg: Settings, s: State, key: Key, table: Table, made: int, made': int)
    requires Tracks(cfg, s, key, table, made) && (Mapped(s, key) ==> made' == made)
    ensures Tracks(cfg, s, key, table, made')
  {
  }

  /** The atomic limiter after the events of a key, as against the interleaved one after the run. */
  ghost predicate Refines(cfg: Settings, clock: int, run: seq<Action>, key: Key) {
    var events := Events(cfg, Init(clock), run, key);
    && Tracks(cfg, Exec(cfg, Init(clock), run), key, AfterAll(cfg, map[], events), MadeFor(cfg, Init(clock), run, key))
    && Answers(cfg, map[], events) == Decisions(cfg, Init(clock), run, key)
  }

  lemma RefinesStep(cfg: Settings, clock: int, run: seq<Action>, key: Key)
    requires run != [] && NeverStrands(cfg, Init(clock), run)
    requires Enabled(Exec(cfg, Init(clock), run[..|run| - 1]), run[|run| - 1])
    requires Refines(cfg, clock, run[..|run| - 1], key)
    ensures Refines(cfg, clock, run, key)
  {
    var n := |run| - 1;
    var s, a := Exec(cfg, Init(clock), run[..n]), run[n];
    var events, made := Events(cfg, Init(clock), run[..n], key), MadeFor(cfg, Init(clock), run[..n], key);
    var table := AfterAll(cfg, map[], events);
    HistoryAlways(cfg, clock, run[..n]);
    PointersAlways(cfg, clock, run[..n]);
    var table', made' := table, made;
    if Decides(s, a, key) {
      AnswersAppend(cfg, map[], events, Call(key, made, s.threads[a.t].now));
      DecideTracks(cfg, s, a.t, key, table, made);
      table' := AfterCall(cfg, table, key, made, s.threads[a.t].now);
    } else if Visits(s, a, key) {
      AnswersAppend(cfg, map[], events, CleanupAt(s.sweep.now));
      VisitTracks(cfg, s, key, table, made);
      table' := AfterCleanup(cfg, table, s.sweep.now);
    } else {
      OtherTracks(cfg, s, a, key, table, made);
      made' := if a.Fetch? && !Mapped(s, key) then s.clock else made;
    }
    if Mapped(Exec(cfg, Init(clock), run), key) {
      MadeStep(cfg, clock, run, key);
    }
    TracksAnyway(cfg, Exec(cfg, Init(clock), run), key, table', made', MadeFor(cfg, Init(clock), run, key));
  }

  lemma Stutter(cfg: Settings, clock: int, run: seq<Action>, key: Key)
    requires run != [] && !Enabled(Exec(cfg, Init(clock), run[..|run| - 1]), run[|run| - 1])
    requires Refines(cfg, clock, run[..|run| - 1], key)
    ensures Refines(cfg, clock, run, key)
  {
    var s := Exec(cfg, Init(clock), run[..|run| - 1]);
    assert Exec(cfg, Init(clock), run) == s;
    if Mapped(s, key) {
      assert Made(cfg, Init(clock), run, s.table[key]) == Made(cfg, Init(clock), run[..|run| - 1], s.table[key]);
    }
  }

  lemma {:induction false} RefinesAlways(cfg: Settings, clock: int, run: seq<Action>, key: Key)
    requires NeverStrands(cfg, Init(clock), run)
    ensures Refines(cfg, clock, run, key)
    decreases |run|
  {
    if run != [] {
      RefinesAlways(cfg, clock, run[..|run| - 1], key);
      if Enabled(Exec(cfg, Init(clock), run[..|run| - 1]), run[|run| - 1]) {
        RefinesStep(cfg, clock, run, key);
      } else {
        Stutter(cfg, clock, run, key);
      }
    }
  }

  /** In every interleaving that strands nobody, the answers given to a key's requests, in the order in which
      they are decided, are the atomic limiter's to the calls and cleanups behind them; nothing about other
      keys comes in. */
  lemma KeyRefinesAtomic(cfg: Settings, clock: int, run: seq<Action>, key: Key)
    requires NeverStrands(cfg, Init(clock), run)
    ensures Decisions(cfg, Init(clock), run, key) == Answers(cfg, map[], Events(cfg, Init(clock), run, key))
  {
    RefinesAlways(cfg, clock, run, key);
  }

  // ---------- No answer is left out ----------

  /** Whether a request of the key has been given this answer. */
  predicate Given(th: Thread, key: Key, accepted: bool) {
    th.key == key && (th.pc == Done(accepted) || (if accepted then th.pc.Running? else th.pc.Refused?))
  }

  function GivenCount(threads: seq<Thread>, key: Key, accepted: bool): nat {
    if threads == [] then 0
    else GivenCount(threads[..|threads| - 1], key, accepted)
         + if Given(threads[|threads| - 1], key, accepted) then 1 else 0
  }

  function AnswerCount(answers: seq<Answer>, key: Key, accepted: bool): nat {
    if answers == [] then 0
    else AnswerCount(answers[..|answers| - 1], key, accepted)
         + if answers[|answers| - 1] == Answer(key, accepted) then 1 else 0
  }

  lemma AnswerCountAppend(answers: seq<Answer>, answer: Answer, key: Key, accepted: bool)
    ensures AnswerCount(answers + [answer], key, accepted)
         == AnswerCount(answers, key, accepted) + if answer == Answer(key, accepted) then 1 else 0
  {
    assert (answers + [answer])[..|answers|] == answers;
  }

  lemma {:induction false} GivenUpdate(threads: seq<Thread>, t: nat, th: Thread, key: Key, accepted: bool)
    requires t < |threads|
    ensures GivenCount(threads[t := th], key, accepted) + (if Given(threads[t], key, accepted) then 1 else 0)
         == GivenCount(threads, key, accepted) + (if Given(th, key, accepted) then 1 else 0)
  {
    var last := |threads| - 1;
    if t == last {
      assert threads[t := th][..last] == threads[..last];
    } else {
      assert threads[t := th][..last] == threads[..last][t := th];
      GivenUpdate(threads[..last], t, th, key, accepted);
    }
  }

  lemma GivenKept(cfg: Settings, s: State, a: Action, t: nat, key: Key, accepted: bool)
    requires Enabled(s, a) && StepOf(a, t) && !a.Decide?
    ensures t < |s.threads| == |Step(cfg, s, a).threads|
    ensures Step(cfg, s, a).threads == s.threads[t := Step(cfg, s, a).threads[t]]
    ensures Given(Step(cfg, s, a).threads[t], key, accepted) == Given(s.threads[t], key, accepted)
  {
  }

  lemma GivenDecided(cfg: Settings, s: State, t: nat, key: Key, accepted: bool)
    requires Enabled(s, Decide(t))
    ensures Step(cfg, s, Decide(t)).threads == s.threads[t := Step(cfg, s, Decide(t)).threads[t]]
    ensures !Given(s.threads[t], key, accepted)
    ensures Given(Step(cfg, s, Decide(t)).threads[t], key, accepted) <==>
            s.threads[t].key == key && Step(cfg, s, Decide(t)).threads[t].pc.Running? == accepted
  {
  }

  lemma OthersGiveNothing(cfg: Settings, s: State, a: Action, key: Key, accepted: bool)
    requires Enabled(s, a) && (Sweeps(a) || a.Tick? || a.Arrive?)
    ensures GivenCount(Step(cfg, s, a).threads, key, accepted) == GivenCount(s.threads, key, accepted)
  {
    if a.Arrive? {
      assert Step(cfg, s, a).threads[..|s.threads|] == s.threads;
    }
  }

  lemma GivenStep(cfg: Settings, s: State, a: Action, key: Key, accepted: bool)
    requires Enabled(s, a)
    ensures GivenCount(Step(cfg, s, a).threads, key, accepted)
         == GivenCount(s.threads, key, accepted)
            + if Decides(s, a, key) && Step(cfg, s, a).threads[a.t].pc.Running? == accepted then 1 else 0
  {
    if Sweeps(a) || a.Tick? || a.Arrive? {
      OthersGiveNothing(cfg, s, a, key, accepted);
    } else {
      if a.Decide? {
        GivenDecided(cfg, s, a.t, key, accepted);
      } else {
        GivenKept(cfg, s, a, a.t, key, accepted);
      }
      GivenUpdate(s.threads, a.t, Step(cfg, s, a).threads[a.t], key, accepted);
    }
  }

  /** The decisions of a run are all there are: as many acceptances and refusals of a key as there are
      requests of it that run or have run, and that are or were refused. */
  lemma {:induction false} DecisionsComplete(cfg: Settings, clock: int, run: seq<Action>, key: Key, accepted: bool)
    ensures AnswerCount(Decisions(cfg, Init(clock), run, key), key, accepted)
         == GivenCount(Exec(cfg, Init(clock), run).threads, key, accepted)
    decreases |run|
  {
    if run != [] {
      var n := |run| - 1;
      var s, a := Exec(cfg, Init(clock), run[..n]), run[n];
      DecisionsComplete(cfg, clock, run[..n], key, accepted);
      if Enabled(s, a) {
        GivenStep(cfg, s, a, key, accepted);
        if Decides(s, a, key) {
          var answer := Answer(key, Step(cfg, s, a).threads[a.t].pc.Running?);
          AnswerCountAppend(Decisions(cfg, Init(clock), run[..n], key), answer, key, accepted);
        }
      }
    }
  }
}

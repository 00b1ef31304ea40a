/**
 The order in which configurations come into force. A refresh reads its configuration before
 it takes the lock, so one that read earlier may install later.
 */
module RefreshOrder {
  import opened ClientRefresh
  import opened Wrappers

  predicate Unfinished(s: State, w: nat) {
    w < |s.refreshes| && !s.refreshes[w].pc.Finished?
  }

  /** A refresh that read an older configuration than the one in force is still under way. */
  ghost predicate OlderUnderWay(s: State) {
    exists w: nat :: Unfinished(s, w) && s.refreshes[w].generation < s.current
  }

  ghost predicate CanFallBack(s: State) {
    exists run :: Exec(s, run).current < s.current
  }

  // ---------- Otherwise nothing older comes ----------

  /** Nothing older than `g` is in force, under way or still to be read. */
  ghost predicate NothingOlder(s: State, g: nat) {
    && g <= s.current < s.generations
    && (forall w: nat :: Unfinished(s, w) ==> g <= s.refreshes[w].generation < s.generations)
  }

  lemma NothingOlderKept(s: State, g: nat, a: Action)
    requires NothingOlder(s, g) && Enabled(s, a)
    ensures NothingOlder(Step(s, a), g)
  {
    forall w: nat | Unfinished(Step(s, a), w)
      ensures g <= Step(s, a).refreshes[w].generation < Step(s, a).generations
    {
      assert Unfinished(s, w) || w == |s.refreshes|;
    }
  }

  lemma {:induction false} NothingOlderAlways(s: State, g: nat, run: seq<Action>)
    requires NothingOlder(s, g)
    ensures NothingOlder(Exec(s, run), g)
    decreases |run|
  {
    if run != [] {
      var s' := Exec(s, run[..|run| - 1]);
      NothingOlderAlways(s, g, run[..|run| - 1]);
      if Enabled(s', run[|run| - 1]) {
        NothingOlderKept(s', g, run[|run| - 1]);
      }
    }
  }

  // ---------- Bringing a refresh to its end ----------

  lemma {:induction false} ExecCons(s: State, a: Action, run: seq<Action>)
    requires Enabled(s, a)
    ensures Exec(s, [a] + run) == Exec(Step(s, a), run)
    decreases |run|
  {
    if run == [] {
      assert [a] + run == [a] && [a][..0] == [];
      assert Exec(s, []) == s;
    } else {
      var n := |run| - 1;
      assert ([a] + run)[..|[a] + run| - 1] == [a] + run[..n];
      ExecCons(s, a, run[..n]);
    }
  }

  lemma {:induction false} ExecAppend(s: State, run: seq<Action>, more: seq<Action>)
    ensures Exec(s, run + more) == Exec(Exec(s, run), more)
    decreases |more|
  {
    if more == [] {
      assert run + more == run;
    } else {
      var n := |more| - 1;
      ExecAppend(s, run, more[..n]);
      assert (run + more)[..|run + more| - 1] == run + more[..n];
    }
  }

  function Todo(pc: RefreshPc): nat {
    match pc
    case Built => 7
    case Announced => 6
    case Writing(written) => if written < 4 then 5 - written else 1
    case Finished => 0
  }

  /** The one thing the writer, or a reader it waits for, can do next. */
  function WriterStep(s: State, r: nat): Action
    requires s.writer.Some? && s.writer.value < |s.refreshes|
  {
    var w := s.writer.value;
    match s.refreshes[w].pc
    case Writing(written) => if written < 4 then Assign(w) else Unlock(w)
    case _ => if s.readers == {} then Enter(w) else ReadUnlock(r)
  }

  lemma WriterSteps(s: State, r: nat)
    requires LockOk(s) && PartsOk(s) && s.writer.Some? && (s.readers != {} ==> r in s.readers)
    ensures var a, w := WriterStep(s, r), s.writer.value;
            && Enabled(s, a)
            && (if a.Unlock? then Step(s, a).writer.None? && Step(s, a).current == s.refreshes[w].generation
                else Step(s, a).writer == s.writer
                     && Step(s, a).refreshes[w].generation == s.refreshes[w].generation
                     && |Step(s, a).readers| + Todo(Step(s, a).refreshes[w].pc) < |s.readers| + Todo(s.refreshes[w].pc))
            && |Step(s, a).refreshes| == |s.refreshes|
            && (forall v :: 0 <= v < |s.refreshes| && v != w ==> Step(s, a).refreshes[v] == s.refreshes[v])
  {
  }

  /** Whoever has announced itself can go through with it. */
  lemma {:induction false} FinishWriter(s: State) returns (run: seq<Action>)
    requires LockOk(s) && PartsOk(s) && s.writer.Some?
    ensures var s', w := Exec(s, run), s.writer.value;
            && LockOk(s') && PartsOk(s') && s'.writer.None? && s'.current == s.refreshes[w].generation
            && |s'.refreshes| == |s.refreshes|
            && (forall v :: 0 <= v < |s.refreshes| && v != w ==> s'.refreshes[v] == s.refreshes[v])
    decreases |s.readers| + Todo(s.refreshes[s.writer.value].pc)
  {
    var r: nat := 0;
    if s.readers != {} {
      r :| r in s.readers;
    }
    var a := WriterStep(s, r);
    WriterSteps(s, r);
    LockKept(s, a);
    PartsKept(s, a);
    if a.Unlock? {
      ExecCons(s, a, []);
      run := [a] + [];
    } else {
      var rest := FinishWriter(Step(s, a));
      ExecCons(s, a, rest);
      run := [a] + rest;
    }
  }

  /** So every refresh under way can come to install what it read. */
  lemma Install(s: State, w: nat) returns (run: seq<Action>)
    requires LockOk(s) && PartsOk(s) && Unfinished(s, w)
    ensures Exec(s, run).current == s.refreshes[w].generation
  {
    var first: seq<Action> := [];
    if s.writer.Some? {
      first := FinishWriter(s);
    }
    if s.writer == Some(w) {
      return first;
    }
    var s1 := Exec(s, first);
    assert s1.refreshes[w] == s.refreshes[w] && s.refreshes[w].pc.Built?;
    LockKept(s1, Announce(w));
    PartsKept(s1, Announce(w));
    var rest := FinishWriter(Step(s1, Announce(w)));
    ExecCons(s1, Announce(w), rest);
    ExecAppend(s, first, [Announce(w)] + rest);
    run := first + ([Announce(w)] + rest);
  }

  // ---------- Main result ----------

  /** A client can fall back to an older configuration than the one in force exactly while a refresh that
      read an older one is under way. */
  lemma FallsBackIff(past: seq<Action>)
    ensures CanFallBack(Exec(INIT, past)) <==> OlderUnderWay(Exec(INIT, past))
  {
    var s := Exec(INIT, past);
    Always(past);
    NothingOlderAlways(INIT, 0, past);
    if OlderUnderWay(s) {
      var w: nat :| Unfinished(s, w) && s.refreshes[w].generation < s.current;
      var run := Install(s, w);
    } else {
      forall run
        ensures Exec(s, run).current >= s.current
      {
        NothingOlderAlways(s, s.current, run);
      }
    }
  }

  /** It happens: two refreshes read, the second installs, and the first after it. */
  lemma OlderOverNewer() returns (run: seq<Action>, more: seq<Action>)
    ensures Exec(INIT, run).current == 2 && Exec(INIT, run + more).current == 1
  {
    var loads := Then([], INIT, Load);
    var s1 := INIT.(generations := 2, refreshes := [Refresh(1, Built)]);
    loads := Then(loads, s1, Load);
    var s2 := INIT.(generations := 3, refreshes := [Refresh(1, Built), Refresh(2, Built)]);
    var announced := Then(loads, s2, Announce(1));
    Always(announced);
    var rest := FinishWriter(Exec(INIT, announced));
    ExecAppend(INIT, announced, rest);
    run := announced + rest;
    Always(run);
    more := Install(Exec(INIT, run), 0);
    ExecAppend(INIT, run, more);
  }
}

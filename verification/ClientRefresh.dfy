/**
 Replacing a client's four components while others use them. A refresh builds the new
 components from one reading of the configuration, outside any lock, and then assigns them
 one by one under the write lock; operations read them under the read lock. Components
 are identified by the configuration reading, the generation, they were built from.
 */
module ClientRefresh {
  import opened Wrappers

  datatype Component = Discovery | Dynamic | Clientset | RestConfig

  datatype Parts = Parts(discovery: nat, dynamic: nat, clientset: nat, restConfig: nat)

  function Get(parts: Parts, component: Component): nat {
    match component
    case Discovery => parts.discovery
    case Dynamic => parts.dynamic
    case Clientset => parts.clientset
    case RestConfig => parts.restConfig
  }

  function Uniform(generation: nat): Parts {
    Parts(generation, generation, generation, generation)
  }

  /** A call of RefreshClient that has read the configuration as `generation`. */
  datatype RefreshPc = Built | Announced | Writing(written: nat) | Finished
  datatype Refresh = Refresh(generation: nat, pc: RefreshPc)

  /** An operation that read-locks the client: what it has seen of it, in order. `start` is history:
      the generation in force when it got the lock. */
  datatype Seen = Seen(component: Component, generation: nat)
  datatype SessionPc = Arrived | Inside | Left
  datatype Session = Session(pc: SessionPc, start: nat, seen: seq<Seen>)

  /** `current` is history: the generation of the last refresh to release the lock. */
  datatype State = State(
    parts: Parts,
    current: nat,
    generations: nat,
    refreshes: seq<Refresh>,
    sessions: seq<Session>,
    writer: Option<nat>,
    readers: set<nat>)

  datatype Action =
    | Load               // getConfig and the three client constructors succeed
    | Announce(w: nat)   // Lock: shut out new readers and writers
    | Enter(w: nat)      // Lock: the last reader has left
    | Assign(w: nat)     // assign the next component
    | Unlock(w: nat)
    | Begin
    | ReadLock(r: nat)
    | Read(r: nat, component: Component)
    | ReadUnlock(r: nat)

  predicate RefreshAt(s: State, w: nat, pc: RefreshPc) {
    w < |s.refreshes| && s.refreshes[w].pc == pc
  }

  predicate SessionAt(s: State, r: nat, pc: SessionPc) {
    r < |s.sessions| && s.sessions[r].pc == pc
  }

  predicate Enabled(s: State, a: Action) {
    match a
    case Load => true
    case Announce(w) => RefreshAt(s, w, Built) && s.writer.None?
    case Enter(w) => RefreshAt(s, w, Announced) && s.readers == {}
    case Assign(w) => w < |s.refreshes| && s.refreshes[w].pc.Writing? && s.refreshes[w].pc.written < 4
    case Unlock(w) => RefreshAt(s, w, Writing(4))
    case Begin => true
    case ReadLock(r) => SessionAt(s, r, Arrived) && s.writer.None?
    case Read(r, _) => SessionAt(s, r, Inside)
    case ReadUnlock(r) => SessionAt(s, r, Inside)
  }

  /** The assignments of RefreshClient, in order. */
  function AssignPart(parts: Parts, n: nat, generation: nat): Parts
    requires n < 4
  {
    match n
    case 0 => parts.(discovery := generation)
    case 1 => parts.(dynamic := generation)
    case 2 => parts.(clientset := generation)
    case 3 => parts.(restConfig := generation)
  }

  function Goto(s: State, w: nat, pc: RefreshPc): State
    requires w < |s.refreshes|
  {
    s.(refreshes := s.refreshes[w := s.refreshes[w].(pc := pc)])
  }

  function SetSession(s: State, r: nat, session: Session): State
    requires r < |s.sessions|
  {
    s.(sessions := s.sessions[r := session])
  }

  function Step(s: State, a: Action): State
    requires Enabled(s, a)
  {
    match a
    case Load => s.(generations := s.generations + 1, refreshes := s.refreshes + [Refresh(s.generations, Built)])
    case Announce(w) => Goto(s, w, Announced).(writer := Some(w))
    case Enter(w) => Goto(s, w, Writing(0))
    case Assign(w) =>
      var n := s.refreshes[w].pc.written;
      Goto(s, w, Writing(n + 1)).(parts := AssignPart(s.parts, n, s.refreshes[w].generation))
    case Unlock(w) => Goto(s, w, Finished).(writer := None, current := s.refreshes[w].generation)
    case Begin => s.(sessions := s.sessions + [Session(Arrived, 0, [])])
    case ReadLock(r) => SetSession(s, r, Session(Inside, s.current, [])).(readers := s.readers + {r})
    case Read(r, component) =>
      SetSession(s, r, s.sessions[r].(seen := s.sessions[r].seen + [Seen(component, Get(s.parts, component))]))
    case ReadUnlock(r) => SetSession(s, r, s.sessions[r].(pc := Left)).(readers := s.readers - {r})
  }

  /** A blocked action leaves the state alone, so every sequence of actions is a run. */
  function Exec(s: State, run: seq<Action>): State
    decreases |run|
  {
    if run == [] then s
    else
      var s' := Exec(s, run[..|run| - 1]);
      if Enabled(s', run[|run| - 1]) then Step(s', run[|run| - 1]) else s'
  }

  /** NewClient builds all components from the first reading of the configuration. */
  const INIT := State(Uniform(0), 0, 1, [], [], None, {})

  // ---------- What every step keeps ----------

  /** One writer at a time, and no reader while it is inside. */
  ghost predicate LockOk(s: State) {
    && (forall w :: 0 <= w < |s.refreshes| && (s.refreshes[w].pc.Announced? || s.refreshes[w].pc.Writing?) ==>
          s.writer == Some(w))
    && (s.writer.Some? ==>
          && s.writer.value < |s.refreshes|
          && (s.refreshes[s.writer.value].pc.Announced? || s.refreshes[s.writer.value].pc.Writing?))
    && (forall w :: 0 <= w < |s.refreshes| && s.refreshes[w].pc.Writing? ==> s.readers == {})
    && (forall r :: r in s.readers ==> r < |s.sessions| && s.sessions[r].pc.Inside?)
    && (forall r :: 0 <= r < |s.sessions| && s.sessions[r].pc.Inside? ==> r in s.readers)
  }

  predicate WriterInside(s: State) {
    s.writer.Some? && s.writer.value < |s.refreshes| && s.refreshes[s.writer.value].pc.Writing?
  }

  /** The first `n` assignments of a refresh on top of a uniform client. */
  function PartlyAssigned(current: nat, n: nat, generation: nat): Parts {
    Parts(if n > 0 then generation else current,
          if n > 1 then generation else current,
          if n > 2 then generation else current,
          if n > 3 then generation else current)
  }

  /** Outside the write lock the components are all of the current generation. */
  ghost predicate PartsOk(s: State) {
    if WriterInside(s) then
      var refresh := s.refreshes[s.writer.value];
      refresh.pc.written <= 4 && s.parts == PartlyAssigned(s.current, refresh.pc.written, refresh.generation)
    else
      s.parts == Uniform(s.current)
  }

  /** A session has seen one generation only: the one in force when it got the lock, and still in force
      while it has the lock. */
  ghost predicate SessionsOk(s: State) {
    forall r :: 0 <= r < |s.sessions| ==>
      && (forall i :: 0 <= i < |s.sessions[r].seen| ==> s.sessions[r].seen[i].generation == s.sessions[r].start)
      && (s.sessions[r].pc.Inside? ==> s.sessions[r].start == s.current)
  }

  lemma LockKept(s: State, a: Action)
    requires LockOk(s) && Enabled(s, a)
    ensures LockOk(Step(s, a))
  {
  }

  lemma PartsKept(s: State, a: Action)
    requires LockOk(s) && PartsOk(s) && Enabled(s, a)
    ensures PartsOk(Step(s, a))
  {
  }

  lemma SessionsKept(s: State, a: Action)
    requires LockOk(s) && PartsOk(s) && SessionsOk(s) && Enabled(s, a)
    ensures SessionsOk(Step(s, a))
  {
  }

  lemma {:induction false} Always(run: seq<Action>)
    ensures var s := Exec(INIT, run); LockOk(s) && PartsOk(s) && SessionsOk(s)
    decreases |run|
  {
    if run != [] {
      Always(run[..|run| - 1]);
      var s, a := Exec(INIT, run[..|run| - 1]), run[|run| - 1];
      if Enabled(s, a) {
        LockKept(s, a);
        PartsKept(s, a);
        SessionsKept(s, a);
      }
    }
  }

  // ---------- Main results ----------

  /** No torn client: however refreshes and operations interleave, everything an operation sees between
      its RLock and its RUnlock is of the one generation in force at its RLock, and until its RUnlock
      all four components stay of that generation. */
  lemma NoTornClient(run: seq<Action>, r: nat)
    requires r < |Exec(INIT, run).sessions|
    ensures var s := Exec(INIT, run);
            && (forall i :: 0 <= i < |s.sessions[r].seen| ==>
                  s.sessions[r].seen[i].generation == s.sessions[r].start)
            && (s.sessions[r].pc.Inside? ==> s.parts == Uniform(s.sessions[r].start))
  {
    Always(run);
  }

  /** An operation that begins has seen nothing; the one at hand is one more. */
  lemma SessionBegins(s: State)
    ensures Enabled(s, Begin) && Step(s, Begin) == s.(sessions := s.sessions + [Session(Arrived, 0, [])])
  {
  }

  /** An operation that arrives while no refresh has announced itself gets the lock, and then what it reads, of
      whatever component and however often, is of the generation in force; and it can always leave. */
  lemma SessionsProceed(run: seq<Action>, r: nat, component: Component)
    requires r < |Exec(INIT, run).sessions|
    ensures var s := Exec(INIT, run);
            && (s.sessions[r].pc.Arrived? && s.writer.None? ==>
                  Enabled(s, ReadLock(r))
                  && Step(s, ReadLock(r)).sessions[r] == Session(Inside, s.current, []))
            && (s.sessions[r].pc.Inside? ==>
                  Enabled(s, Read(r, component)) && Enabled(s, ReadUnlock(r))
                  && Step(s, Read(r, component)).sessions[r].seen
                     == s.sessions[r].seen + [Seen(component, s.sessions[r].start)])
  {
    Always(run);
  }

  /** ExecInPod: the clientset that gives the request URL and the config that gives the executor. */
  datatype ExecRequest = ExecRequest(url: nat, executor: nat)

  function ExecOf(session: Session): Option<ExecRequest> {
    if |session.seen| == 2 && session.seen[0].component.Clientset? && session.seen[1].component.RestConfig?
    then Some(ExecRequest(session.seen[0].generation, session.seen[1].generation))
    else None
  }

  /** WithImpersonation: all components of the new client are built from the one config it read. */
  function ImpersonatedOf(session: Session): Option<Parts> {
    if |session.seen| == 1 && session.seen[0].component.RestConfig?
    then Some(Uniform(session.seen[0].generation))
    else None
  }

  lemma ExecAndImpersonationOfOneGeneration(run: seq<Action>, r: nat)
    requires r < |Exec(INIT, run).sessions|
    ensures var session := Exec(INIT, run).sessions[r];
            && (ExecOf(session).Some? ==> ExecOf(session).value == ExecRequest(session.start, session.start))
            && (ImpersonatedOf(session).Some? ==> ImpersonatedOf(session).value == Uniform(session.start))
  {
    NoTornClient(run, r);
  }

  lemma Then(run: seq<Action>, mid: State, a: Action) returns (longer: seq<Action>)
    requires Exec(INIT, run) == mid && Enabled(mid, a)
    ensures longer == run + [a] && Exec(INIT, longer) == Step(mid, a)
  {
    longer := run + [a];
    assert longer[..|run|] == run;
  }

  /** A refresh under way with `n` of its assignments done. */
  function Midway(n: nat): State {
    INIT.(generations := 2, writer := Some(0), refreshes := [Refresh(1, Writing(n))], parts := PartlyAssigned(0, n, 1))
  }

  lemma {:induction false} MidwayRun(n: nat) returns (run: seq<Action>)
    requires n <= 4
    ensures Exec(INIT, run) == Midway(n)
  {
    if n == 0 {
      run := Then([], INIT, Load);
      var s1 := INIT.(generations := 2, refreshes := [Refresh(1, Built)]);
      run := Then(run, s1, Announce(0));
      run := Then(run, s1.(writer := Some(0), refreshes := [Refresh(1, Announced)]), Enter(0));
    } else {
      run := MidwayRun(n - 1);
      run := Then(run, Midway(n - 1), Assign(0));
    }
  }

  /** The read lock is what does it: without it, an operation could meet any number of the components already
      replaced, in the order of the assignments, and the others not. */
  lemma TornWithoutLock(n: nat) returns (run: seq<Action>)
    requires n <= 4
    ensures var parts := Exec(INIT, run).parts;
            && Get(parts, Discovery) == (if n >= 1 then 1 else 0) && Get(parts, Dynamic) == (if n >= 2 then 1 else 0)
            && Get(parts, Clientset) == (if n >= 3 then 1 else 0) && Get(parts, RestConfig) == (if n >= 4 then 1 else 0)
  {
    run := MidwayRun(n);
  }
}

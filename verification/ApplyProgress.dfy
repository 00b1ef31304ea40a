/**
 When an apply gets through: exactly when the apiserver does not refuse it and nobody has got in
 between its get and its write.
 */
module ApplyProgress {
  import opened Wrappers
  import opened ApplyResource

  /** Neither the get nor the write of call `c` is in the run. */
  predicate LeavesOut(run: seq<Action>, c: nat) {
    forall i :: 0 <= i < |run| ==> run[i] != Get(c, true) && run[i] != Get(c, false) && NoSend(run[i], c)
  }

  predicate NoSend(a: Action, c: nat) {
    a.Send? ==> a.c != c
  }

  lemma CallKept(s: State, a: Action, c: nat)
    requires c < |s.calls| && a != Get(c, true) && a != Get(c, false) && NoSend(a, c)
    ensures c < |Step(s, a).calls| && Step(s, a).calls[c] == s.calls[c]
  {
  }

  /** Others leave a call alone. */
  lemma {:induction false} CallStays(s: State, run: seq<Action>, c: nat)
    requires c < |s.calls| && LeavesOut(run, c)
    ensures c < |Exec(s, run).calls| && Exec(s, run).calls[c] == s.calls[c]
    decreases |run|
  {
    if run != [] {
      var n := |run| - 1;
      CallStays(s, run[..n], c);
      CallKept(Exec(s, run[..n]), run[n], c);
    }
  }

  /** An apply is of the name and the body it was called with, until its get is answered. */
  lemma BeginRecords(s: State, name: string, body: string, wait: seq<Action>)
    requires LeavesOut(wait, |s.calls|)
    ensures var s', c := Exec(Step(s, Begin(name, body)), wait), |s.calls|;
            c < |s'.calls| && s'.calls[c].pc.Started? && s'.calls[c].name == name && s'.calls[c].body == body
  {
    CallStays(Step(s, Begin(name, body)), wait, |s.calls|);
  }

  /** While nothing happens to an object it keeps its version. */
  lemma {:induction false} QuietSameVersion(log: seq<Event>, from: nat, n: nat, name: string)
    requires from <= n <= |log| && Quiet(log, from, n, name)
    ensures VersionAfter(log, from, name) == VersionAfter(log, n, name)
    decreases n
  {
    if from < n {
      QuietSameVersion(log, from, n - 1, name);
    }
  }

  /** What became of a write: it replaced or created the object, or it changed nothing. */
  ghost predicate Written(s: State, s': State, c: nat, basis: Basis)
    requires c < |s.calls|
  {
    var call := s.calls[c];
    && call.name in s'.store && s'.store[call.name].body == call.body
    && (forall other :: other != call.name ==>
          (other in s'.store <==> other in s.store) && (other in s.store ==> s'.store[other] == s.store[other]))
    && s'.log == s.log + [Wrote(call.name, s'.store[call.name].version, call.body, basis, Some(c))]
  }

  /** What a call that has its get's answer writes if it gets through. */
  function BasisOf(pc: Pc): Basis {
    if pc.Found? then Replaced(pc.version) else Created
  }

  /** The write of call `c` gets through, or nothing happens but that it fails. */
  ghost predicate Outcome(s: State, s': State, c: nat, through: bool, answerLost: bool)
    requires c < |s.calls|
  {
    if through then
      Written(s, s', c, BasisOf(s.calls[c].pc)) && c < |s'.calls|
      && (if answerLost then s'.calls[c].pc.Failed? else s'.calls[c].pc.Succeeded?)
    else
      s'.store == s.store && s'.log == s.log && c < |s'.calls| && s'.calls[c].pc.Failed?
  }

  lemma SendOutcome(s: State, c: nat, refused: bool, answerLost: bool)
    requires c < |s.calls| && (s.calls[c].pc.Found? || s.calls[c].pc.NotFound?)
    requires s.calls[c].pc.Found? ==> s.calls[c].pc.version > 0
    ensures var through := !refused &&
              if s.calls[c].pc.Found? then UpdateAllowed(s, s.calls[c].name, s.calls[c].pc.version)
              else s.calls[c].name !in s.store;
            Outcome(s, Step(s, Send(c, refused, answerLost)), c, through, answerLost)
  {
  }

  /** Nothing has happened to the object since the call's get found it; or if it did not find it, there is none. */
  ghost predicate Undisturbed(s: State, c: nat)
    requires c < |s.calls|
  {
    if s.calls[c].pc.Found? then s.calls[c].at <= |s.log| && Quiet(s.log, s.calls[c].at, |s.log|, s.calls[c].name)
    else s.calls[c].name !in s.store
  }

  lemma SendIff(s: State, c: nat, refused: bool, answerLost: bool)
    requires StoreOk(s) && CallsOk(s) && c < |s.calls| && (s.calls[c].pc.Found? || s.calls[c].pc.NotFound?)
    ensures Outcome(s, Step(s, Send(c, refused, answerLost)), c, !refused && Undisturbed(s, c), answerLost)
  {
    if s.calls[c].pc.Found? {
      VersionKeptIff(s, c);
    }
    SendOutcome(s, c, refused, answerLost);
  }

  /** The state in which the get of a call has been answered and others have done what they have. */
  lemma GetAnswered(s: State, c: nat, error: bool, mid: seq<Action>)
    requires c < |s.calls| && s.calls[c].pc.Started? && LeavesOut(mid, c)
    ensures var s' := Exec(Step(s, Get(c, error)), mid);
            && c < |s'.calls| && s'.calls[c].name == s.calls[c].name && s'.calls[c].body == s.calls[c].body
            && s'.calls[c].at == |s.log|
            && s'.calls[c].pc == (if !error && s.calls[c].name in s.store
                                  then Found(s.store[s.calls[c].name].version) else NotFound)
  {
    CallStays(Step(s, Get(c, error)), mid, c);
  }

  /** In every interleaving, an apply whose get found the object gets its write through exactly if the
      apiserver does not refuse it and nothing has happened to the object since the get; one whose get did
      not find it, or failed, exactly if it is not refused and there is no object. The write then replaces
      the version read, or creates the object, with the body the apply was called with, and touches nothing
      else; and the apply reports success unless the answer is lost. Otherwise nothing is written, and the
      apply fails. */
  lemma AppliedIff(
    past: seq<Action>, c: nat, error: bool, mid: seq<Action>, refused: bool, answerLost: bool)
    requires c < |Exec(INIT, past).calls| && Exec(INIT, past).calls[c].pc.Started? && LeavesOut(mid, c)
    ensures var s := Exec(INIT, past);
            var s1 := Exec(Step(s, Get(c, error)), mid);
            && c < |s1.calls| && s1.calls[c].name == s.calls[c].name && s1.calls[c].body == s.calls[c].body
            && s1.calls[c].at == |s.log|
            && s1.calls[c].pc == (if !error && s.calls[c].name in s.store
                                  then Found(s.store[s.calls[c].name].version) else NotFound)
            && Outcome(s1, Step(s1, Send(c, refused, answerLost)), c, !refused && Undisturbed(s1, c), answerLost)
  {
    var s := Exec(INIT, past);
    GetAnswered(s, c, error, mid);
    Always(past);
    StepKept(s, Get(c, error));
    AlwaysFrom(Step(s, Get(c, error)), mid);
    SendIff(Exec(Step(s, Get(c, error)), mid), c, refused, answerLost);
  }

  lemma VersionKeptIff(s: State, c: nat)
    requires StoreOk(s) && CallsOk(s) && c < |s.calls| && s.calls[c].pc.Found?
    ensures s.calls[c].at <= |s.log|
    ensures UpdateAllowed(s, s.calls[c].name, s.calls[c].pc.version) <==>
            Quiet(s.log, s.calls[c].at, |s.log|, s.calls[c].name)
  {
    var name, at := s.calls[c].name, s.calls[c].at;
    if UpdateAllowed(s, name, s.calls[c].pc.version) {
      SameVersionQuiet(s.log, at, |s.log|, name);
    }
    if Quiet(s.log, at, |s.log|, name) {
      QuietSameVersion(s.log, at, |s.log|, name);
    }
  }
}

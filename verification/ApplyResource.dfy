/**
 Applying a resource: get it, then update it at the version read, or create it if the get
 did not find it. Any number of applies run at once, among outside writers and deletes.

 The apiserver is modelled by the rules assumed of it: it rejects an update whose non-empty
 resourceVersion is not the current one and a create of an existing object, gives every
 write a version never used before, and may refuse a request, or carry it out and lose the
 answer. Clustered and namespaced resources go the same way; a name stands for
 resource, namespace and name.
 */
module ApplyResource {
  import opened Wrappers

  datatype Stored = Stored(version: nat, body: string)

  /** What a write of an apply was conditioned on. */
  datatype Basis = Created | Replaced(version: nat)

  /** What happened to the objects, in order. `call` is the apply that did it, if one did. */
  datatype Event =
    | Wrote(name: string, version: nat, body: string, basis: Basis, call: Option<nat>)
    | Deleted(name: string)

  datatype Pc =
    | Started
    | Found(version: nat)     // the get found it: about to update
    | NotFound                // the get failed, for whatever reason: about to create
    | Succeeded(event: nat)
    | Failed

  /** `at` is history: how many events there had been when the get was answered. */
  datatype Call = Call(name: string, body: string, pc: Pc, at: nat)

  /** Version 0 stands for the empty resourceVersion, which no stored object has. */
  datatype State = State(store: map<string, Stored>, revision: nat, log: seq<Event>, calls: seq<Call>)

  datatype Action =
    | Begin(name: string, body: string)
    | Get(c: nat, error: bool)
    | Send(c: nat, refused: bool, answerLost: bool)   // the update or the create
    | OutsideWrite(name: string, body: string)
    | OutsideDelete(name: string)

  const INIT := State(map[], 0, [], [])

  function Goto(s: State, c: nat, pc: Pc): State
    requires c < |s.calls|
  {
    s.(calls := s.calls[c := s.calls[c].(pc := pc)])
  }

  function Write(s: State, name: string, body: string, basis: Basis, call: Option<nat>): State {
    var version := s.revision + 1;
    s.(store := s.store[name := Stored(version, body)], revision := version,
       log := s.log + [Wrote(name, version, body, basis, call)])
  }

  /** The apiserver's answer to an update with this resourceVersion; an empty one would always do. */
  predicate UpdateAllowed(s: State, name: string, version: nat) {
    name in s.store && (version == 0 || s.store[name].version == version)
  }

  function Commit(s: State, c: nat, basis: Basis, answerLost: bool): State
    requires c < |s.calls|
  {
    var call := s.calls[c];
    Goto(Write(s, call.name, call.body, basis, Some(c)), c, if answerLost then Failed else Succeeded(|s.log|))
  }

  function SendRequest(s: State, c: nat, refused: bool, answerLost: bool): State
    requires c < |s.calls|
  {
    var call := s.calls[c];
    match call.pc
    case Found(version) =>
      if !refused && UpdateAllowed(s, call.name, version)
      then Commit(s, c, Replaced(s.store[call.name].version), answerLost)
      else Goto(s, c, Failed)
    case NotFound =>
      if !refused && call.name !in s.store then Commit(s, c, Created, answerLost)
      else Goto(s, c, Failed)
    case _ => s
  }

  /** An action that cannot be taken leaves the state alone, so every sequence of actions is a run. */
  function Step(s: State, a: Action): State {
    match a
    case Begin(name, body) => s.(calls := s.calls + [Call(name, body, Started, 0)])
    case Get(c, error) =>
      if c < |s.calls| && s.calls[c].pc.Started? then
        var call := s.calls[c];
        var pc := if !error && call.name in s.store then Found(s.store[call.name].version) else NotFound;
        s.(calls := s.calls[c := call.(pc := pc, at := |s.log|)])
      else s
    case Send(c, refused, answerLost) => if c < |s.calls| then SendRequest(s, c, refused, answerLost) else s
    case OutsideWrite(name, body) =>
      Write(s, name, body, if name in s.store then Replaced(s.store[name].version) else Created, None)
    case OutsideDelete(name) =>
      if name in s.store then s.(store := s.store - {name}, log := s.log + [Deleted(name)]) else s
  }

  function Exec(s: State, run: seq<Action>): State
    decreases |run|
  {
    if run == [] then s else Step(Exec(s, run[..|run| - 1]), run[|run| - 1])
  }

  // ---------- The history of one name ----------

  /** The version of an object after the first `n` events, 0 if there is none. */
  function VersionAfter(log: seq<Event>, n: nat, name: string): nat
    requires n <= |log|
  {
    if n == 0 then 0
    else if log[n - 1].name != name then VersionAfter(log, n - 1, name)
    else if log[n - 1].Wrote? then log[n - 1].version
    else 0
  }

  /** No event between the two points concerns the name. */
  predicate Quiet(log: seq<Event>, from: nat, to: nat, name: string)
    requires to <= |log|
  {
    forall i :: from <= i < to ==> log[i].name != name
  }

  predicate VersionsGrow(log: seq<Event>) {
    && (forall i :: 0 <= i < |log| && log[i].Wrote? ==> log[i].version > 0)
    && (forall i, j :: 0 <= i < j < |log| && log[i].Wrote? && log[j].Wrote? ==> log[i].version < log[j].version)
  }

  lemma {:induction false} VersionAfterAppend(log: seq<Event>, e: Event, n: nat, name: string)
    requires n <= |log|
    ensures VersionAfter(log + [e], n, name) == VersionAfter(log, n, name)
  {
    if n > 0 {
      VersionAfterAppend(log, e, n - 1, name);
    }
  }

  /** The version of an object was given to it by one of the events. */
  lemma {:induction false} VersionSource(log: seq<Event>, n: nat, name: string) returns (i: nat)
    requires n <= |log| && VersionAfter(log, n, name) > 0
    ensures i < n && log[i].Wrote? && log[i].name == name && log[i].version == VersionAfter(log, n, name)
    ensures Quiet(log, i + 1, n, name)
  {
    if log[n - 1].name != name {
      i := VersionSource(log, n - 1, name);
    } else {
      i := n - 1;
    }
  }

  /** If an object has the version it had before, nothing has happened to it in between. */
  lemma SameVersionQuiet(log: seq<Event>, from: nat, to: nat, name: string)
    requires VersionsGrow(log) && from <= to <= |log|
    requires VersionAfter(log, from, name) == VersionAfter(log, to, name) > 0
    ensures Quiet(log, from, to, name)
  {
    var i := VersionSource(log, from, name);
    var j := VersionSource(log, to, name);
    assert i == j;
  }

  // ---------- What every step keeps ----------

  ghost predicate StoreOk(s: State) {
    && VersionsGrow(s.log)
    && (forall i :: 0 <= i < |s.log| && s.log[i].Wrote? ==> s.log[i].version <= s.revision)
    && (forall name :: name in s.store ==> 0 < s.store[name].version == VersionAfter(s.log, |s.log|, name))
    && (forall name :: name !in s.store ==> VersionAfter(s.log, |s.log|, name) == 0)
  }

  /** A call about to update holds the version the object had when the get was answered. */
  ghost predicate CallsOk(s: State) {
    forall c :: 0 <= c < |s.calls| ==>
      && s.calls[c].at <= |s.log|
      && (s.calls[c].pc.Found? ==>
            VersionAfter(s.log, s.calls[c].at, s.calls[c].name) == s.calls[c].pc.version > 0)
      && (s.calls[c].pc.Succeeded? ==>
            && s.calls[c].pc.event < |s.log|
            && s.log[s.calls[c].pc.event].Wrote? && s.log[s.calls[c].pc.event].call == Some(c))
  }

  /** The event is the write of call `c`: it replaces the version the call read, nothing having
      happened to the object since, or creates the object where there was none. */
  ghost predicate Conditioned(s: State, i: nat, c: nat)
    requires i < |s.log| && s.log[i].Wrote? && c < |s.calls|
  {
    && s.log[i].name == s.calls[c].name && s.log[i].body == s.calls[c].body && s.calls[c].at <= i
    && match s.log[i].basis
       case Replaced(version) =>
         && VersionAfter(s.log, s.calls[c].at, s.log[i].name) == version == VersionAfter(s.log, i, s.log[i].name)
         && version > 0 && Quiet(s.log, s.calls[c].at, i, s.log[i].name)
       case Created => VersionAfter(s.log, i, s.log[i].name) == 0
  }

  ghost predicate EventsOk(s: State) {
    forall i {:trigger s.log[i]} :: 0 <= i < |s.log| && s.log[i].Wrote? && s.log[i].call.Some? ==>
      && s.log[i].call.value < |s.calls|
      && !s.calls[s.log[i].call.value].pc.Started?
      && Conditioned(s, i, s.log[i].call.value)
  }

  lemma WriteKeepsStore(s: State, name: string, body: string, basis: Basis, call: Option<nat>)
    requires StoreOk(s)
    ensures StoreOk(Write(s, name, body, basis, call))
  {
    var e := Wrote(name, s.revision + 1, body, basis, call);
    forall other: string { VersionAfterAppend(s.log, e, |s.log|, other); }
  }

  lemma DeleteKeepsStore(s: State, name: string)
    requires StoreOk(s)
    ensures StoreOk(Step(s, OutsideDelete(name)))
  {
    forall other: string { VersionAfterAppend(s.log, Deleted(name), |s.log|, other); }
  }

  /** What an update or create does to the objects, if anything, is one write. */
  lemma SendKeepsStore(s: State, c: nat, refused: bool, answerLost: bool)
    requires StoreOk(s) && c < |s.calls|
    ensures StoreOk(SendRequest(s, c, refused, answerLost))
  {
    var call := s.calls[c];
    if call.name in s.store {
      WriteKeepsStore(s, call.name, call.body, Replaced(s.store[call.name].version), Some(c));
    } else {
      WriteKeepsStore(s, call.name, call.body, Created, Some(c));
    }
  }

  lemma StoreKept(s: State, a: Action)
    requires StoreOk(s)
    ensures StoreOk(Step(s, a))
  {
    match a {
      case Begin(_, _) =>
      case Get(_, _) =>
      case OutsideDelete(name) => DeleteKeepsStore(s, name);
      case OutsideWrite(name, body) =>
        WriteKeepsStore(s, name, body, if name in s.store then Replaced(s.store[name].version) else Created, None);
      case Send(c, refused, answerLost) =>
        if c < |s.calls| {
          SendKeepsStore(s, c, refused, answerLost);
        }
    }
  }

  /** A longer log tells the same about the past. */
  lemma PastKept(log: seq<Event>, e: Event)
    ensures forall n, name :: 0 <= n <= |log| ==> VersionAfter(log + [e], n, name) == VersionAfter(log, n, name)
  {
    forall n: nat, name: string | n <= |log|
      ensures VersionAfter(log + [e], n, name) == VersionAfter(log, n, name)
    {
      VersionAfterAppend(log, e, n, name);
    }
  }

  /** An outside event leaves what is known of calls and earlier events as it was. */
  lemma OutsideKeeps(s: State, s': State, e: Event)
    requires CallsOk(s) && EventsOk(s)
    requires s'.calls == s.calls && s'.log == s.log + [e] && (e.Wrote? ==> e.call.None?)
    ensures CallsOk(s') && EventsOk(s')
  {
    PastKept(s.log, e);
  }

  lemma BeginKeeps(s: State, name: string, body: string)
    requires CallsOk(s) && EventsOk(s)
    ensures CallsOk(Step(s, Begin(name, body))) && EventsOk(Step(s, Begin(name, body)))
  {
  }

  lemma GetKeeps(s: State, c: nat, error: bool)
    requires StoreOk(s) && CallsOk(s) && EventsOk(s)
    ensures CallsOk(Step(s, Get(c, error))) && EventsOk(Step(s, Get(c, error)))
  {
  }

  lemma FailKeeps(s: State, c: nat)
    requires CallsOk(s) && EventsOk(s) && c < |s.calls|
    ensures CallsOk(Goto(s, c, Failed)) && EventsOk(Goto(s, c, Failed))
  {
  }

  lemma CommitKeeps(s: State, c: nat, basis: Basis, answerLost: bool)
    requires CallsOk(s) && EventsOk(s) && c < |s.calls|
    requires match basis
             case Replaced(version) =>
               VersionAfter(s.log, s.calls[c].at, s.calls[c].name) == version
               == VersionAfter(s.log, |s.log|, s.calls[c].name)
               && version > 0 && Quiet(s.log, s.calls[c].at, |s.log|, s.calls[c].name)
             case Created => VersionAfter(s.log, |s.log|, s.calls[c].name) == 0
    ensures CallsOk(Commit(s, c, basis, answerLost)) && EventsOk(Commit(s, c, basis, answerLost))
  {
    var s' := Commit(s, c, basis, answerLost);
    var e := s'.log[|s.log|];
    PastKept(s.log, e);
    assert Conditioned(s', |s.log|, c);
  }

  lemma SendKeeps(s: State, c: nat, refused: bool, answerLost: bool)
    requires StoreOk(s) && CallsOk(s) && EventsOk(s) && c < |s.calls|
    ensures CallsOk(SendRequest(s, c, refused, answerLost)) && EventsOk(SendRequest(s, c, refused, answerLost))
  {
    var call := s.calls[c];
    FailKeeps(s, c);
    if call.pc.Found? && !refused && UpdateAllowed(s, call.name, call.pc.version) {
      SameVersionQuiet(s.log, call.at, |s.log|, call.name);
      CommitKeeps(s, c, Replaced(s.store[call.name].version), answerLost);
    } else if call.pc.NotFound? && !refused && call.name !in s.store {
      CommitKeeps(s, c, Created, answerLost);
    }
  }

  lemma StepKept(s: State, a: Action)
    requires StoreOk(s) && CallsOk(s) && EventsOk(s)
    ensures StoreOk(Step(s, a)) && CallsOk(Step(s, a)) && EventsOk(Step(s, a))
  {
    StoreKept(s, a);
    match a {
      case Begin(name, body) => BeginKeeps(s, name, body);
      case Get(c, error) => GetKeeps(s, c, error);
      case Send(c, refused, answerLost) =>
        if c < |s.calls| {
          SendKeeps(s, c, refused, answerLost);
        }
      case OutsideWrite(_, _) => OutsideKeeps(s, Step(s, a), Step(s, a).log[|s.log|]);
      case OutsideDelete(name) =>
        if name in s.store {
          OutsideKeeps(s, Step(s, a), Deleted(name));
        }
    }
  }

  lemma {:induction false} AlwaysFrom(s: State, run: seq<Action>)
    requires StoreOk(s) && CallsOk(s) && EventsOk(s)
    ensures var s' := Exec(s, run); StoreOk(s') && CallsOk(s') && EventsOk(s')
    decreases |run|
  {
    if run != [] {
      AlwaysFrom(s, run[..|run| - 1]);
      StepKept(Exec(s, run[..|run| - 1]), run[|run| - 1]);
    }
  }

  lemma Always(run: seq<Action>)
    ensures var s := Exec(INIT, run); StoreOk(s) && CallsOk(s) && EventsOk(s)
  {
    AlwaysFrom(INIT, run);
  }

  // ---------- Main result ----------

  /** Apply is a compare-and-swap: in every interleaving, every write an apply gets through, and so every
      apply that reports success, either replaces exactly the version it read, nobody having touched the
      object in between, or creates the object where there was none. No write of another is lost unseen. */
  lemma ApplyIsCompareAndSwap(run: seq<Action>)
    ensures var s := Exec(INIT, run);
            forall i {:trigger s.log[i]} :: 0 <= i < |s.log| && s.log[i].Wrote? && s.log[i].call.Some? ==>
              s.log[i].call.value < |s.calls| && Conditioned(s, i, s.log[i].call.value)
    ensures var s := Exec(INIT, run);
            forall c :: 0 <= c < |s.calls| && s.calls[c].pc.Succeeded? ==>
              var i := s.calls[c].pc.event;
              i < |s.log| && s.log[i].Wrote? && s.log[i].call == Some(c) && Conditioned(s, i, c)
  {
    Always(run);
  }
}

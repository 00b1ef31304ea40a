/**
 The memory budget of pod-log reads: any number of clients, impersonated from one another
 without end, share the semaphore of the client they descend from, and every read holds a
 slot of it from before its first byte until its return, by whatever way it returns.
 */
module PodLogBudget {
  import opened Wrappers
  import opened PodLogOptions
  import opened PodLogReader

  const MAX_CONCURRENT_READS: nat := 8

  datatype Phase =
    | Waiting                             // in the select on the semaphore and the context
    | Opening(limit: nat)                 // holds a slot, asks the apiserver for the stream
    | Reading(limit: nat, held: nat)      // copies the stream; `held` bytes are in the buffer
    | Returned

  /** A call of defaultGetPodLogs; `sem` is the semaphore of the client it was made on. */
  datatype Read = Read(sem: nat, parameters: Parameters, phase: Phase)

  /** `clients` gives each client's semaphore, `slots` how many slots of each semaphore are taken. */
  datatype State = State(clients: seq<nat>, slots: seq<nat>, calls: seq<Read>)

  datatype Action =
    | NewClient
    | WithImpersonation(client: nat)
    | Call(client: nat, parameters: Parameters)
    | Acquire(r: nat)
    | Cancel(r: nat)
    | Open(r: nat, ok: bool)
    | Copy(r: nat, bytes: nat)
    | Finish(r: nat)        // end of stream, read error or overrun: all return through the deferred release

  predicate In(s: State, r: nat) {
    r < |s.calls| && s.calls[r].sem < |s.slots|
  }

  predicate Enabled(s: State, a: Action) {
    match a
    case NewClient => true
    case WithImpersonation(client) => client < |s.clients|
    case Call(client, _) => client < |s.clients|
    case Acquire(r) => In(s, r) && s.calls[r].phase.Waiting? && s.slots[s.calls[r].sem] < MAX_CONCURRENT_READS
    case Cancel(r) => In(s, r) && s.calls[r].phase.Waiting?
    case Open(r, _) => In(s, r) && s.calls[r].phase.Opening? && s.slots[s.calls[r].sem] > 0
    case Copy(r, bytes) =>
      In(s, r) && s.calls[r].phase.Reading? && s.calls[r].phase.held + bytes <= s.calls[r].phase.limit + 1
    case Finish(r) => In(s, r) && s.calls[r].phase.Reading? && s.slots[s.calls[r].sem] > 0
  }

  function Goto(s: State, r: nat, phase: Phase): State
    requires r < |s.calls|
  {
    s.(calls := s.calls[r := s.calls[r].(phase := phase)])
  }

  function Release(s: State, r: nat): State
    requires In(s, r) && s.slots[s.calls[r].sem] > 0
  {
    Goto(s, r, Returned).(slots := s.slots[s.calls[r].sem := s.slots[s.calls[r].sem] - 1])
  }

  /** The limit a read enforces. */
  function LimitOf(parameters: Parameters): nat {
    LimitSentIsLimitEnforced(parameters);
    EffectiveLimit(SentLimit(parameters))
  }

  function Step(s: State, a: Action): State
    requires Enabled(s, a)
  {
    match a
    case NewClient => s.(clients := s.clients + [|s.slots|], slots := s.slots + [0])
    case WithImpersonation(client) => s.(clients := s.clients + [s.clients[client]])
    case Call(client, parameters) => s.(calls := s.calls + [Read(s.clients[client], parameters, Waiting)])
    case Acquire(r) =>
      Goto(s, r, Opening(LimitOf(s.calls[r].parameters)))
      .(slots := s.slots[s.calls[r].sem := s.slots[s.calls[r].sem] + 1])
    case Cancel(r) => Goto(s, r, Returned)
    case Open(r, ok) => if ok then Goto(s, r, Reading(s.calls[r].phase.limit, 0)) else Release(s, r)
    case Copy(r, bytes) => Goto(s, r, s.calls[r].phase.(held := s.calls[r].phase.held + bytes))
    case Finish(r) => Release(s, r)
  }

  /** A blocked action leaves the state alone, so every sequence of actions is a run. */
  function Exec(s: State, run: seq<Action>): State
    decreases |run|
  {
    if run == [] then s
    else
      var s' := Exec(s, run[..|run| - 1]);
      if Enabled(s', run[|run| - 1]) then Step(s', run[|run| - 1]) else s'
  }

  const INIT := State([], [], [])

  // ---------- What reads hold ----------

  predicate InFlight(read: Read, sem: nat) {
    read.sem == sem && (read.phase.Opening? || read.phase.Reading?)
  }

  function Bytes(read: Read, sem: nat): nat {
    if read.sem == sem && read.phase.Reading? then read.phase.held else 0
  }

  function InFlightCount(calls: seq<Read>, sem: nat): nat {
    if calls == [] then 0
    else InFlightCount(calls[..|calls| - 1], sem) + if InFlight(calls[|calls| - 1], sem) then 1 else 0
  }

  function HeldBytes(calls: seq<Read>, sem: nat): nat {
    if calls == [] then 0 else HeldBytes(calls[..|calls| - 1], sem) + Bytes(calls[|calls| - 1], sem)
  }

  lemma CountAppend(calls: seq<Read>, read: Read, sem: nat)
    ensures InFlightCount(calls + [read], sem) == InFlightCount(calls, sem) + if InFlight(read, sem) then 1 else 0
  {
    assert (calls + [read])[..|calls|] == calls;
  }

  lemma {:induction false} CountUpdate(calls: seq<Read>, r: nat, read: Read, sem: nat)
    requires r < |calls|
    ensures InFlightCount(calls[r := read], sem)
         == InFlightCount(calls, sem) - (if InFlight(calls[r], sem) then 1 else 0)
            + if InFlight(read, sem) then 1 else 0
  {
    var last := |calls| - 1;
    if r == last {
      assert calls[r := read][..last] == calls[..last];
    } else {
      assert calls[r := read][..last] == calls[..last][r := read];
      CountUpdate(calls[..last], r, read, sem);
    }
  }

  /** Reads that hold at most `cap` bytes each, at most `n` of them in flight, hold `n * cap` together. */
  lemma {:induction false} HeldWithinSlots(calls: seq<Read>, sem: nat, n: nat, cap: nat)
    requires forall r :: 0 <= r < |calls| ==> Bytes(calls[r], sem) <= cap
    requires InFlightCount(calls, sem) <= n
    ensures HeldBytes(calls, sem) <= n * cap
  {
    if calls != [] {
      var last := |calls| - 1;
      if InFlight(calls[last], sem) {
        assert Bytes(calls[last], sem) <= cap;
        HeldWithinSlots(calls[..last], sem, n - 1, cap);
        assert (n - 1) * cap + cap == n * cap;
      } else {
        HeldWithinSlots(calls[..last], sem, n, cap);
      }
    }
  }

  // ---------- The budget is kept by every step ----------

  ghost predicate SlotsOk(s: State) {
    && (forall client :: 0 <= client < |s.clients| ==> s.clients[client] < |s.slots|)
    && (forall sem :: 0 <= sem < |s.slots| ==>
          s.slots[sem] == InFlightCount(s.calls, sem) && s.slots[sem] <= MAX_CONCURRENT_READS)
    && (forall sem :: sem >= |s.slots| ==> InFlightCount(s.calls, sem) == 0)
    && (forall r :: 0 <= r < |s.calls| ==> s.calls[r].sem < |s.slots|)
  }

  ghost predicate LimitsOk(s: State) {
    forall r :: 0 <= r < |s.calls| ==>
      && (s.calls[r].phase.Opening? ==>
            0 < s.calls[r].phase.limit <= MAX_LIMIT_BYTES
            && SentLimit(s.calls[r].parameters) == Some(s.calls[r].phase.limit))
      && (s.calls[r].phase.Reading? ==>
            s.calls[r].phase.held <= s.calls[r].phase.limit + 1 <= MAX_LIMIT_BYTES + 1
            && SentLimit(s.calls[r].parameters) == Some(s.calls[r].phase.limit))
  }

  /** A read moves on, and its semaphore's slot is taken or given back if that is what moving on means. */
  lemma SlotsMoved(s: State, s': State, r: nat)
    requires SlotsOk(s) && r < |s.calls| == |s'.calls| && s'.clients == s.clients
    requires s'.calls == s.calls[r := s'.calls[r]] && s'.calls[r].sem == s.calls[r].sem
    requires |s'.slots| == |s.slots|
    requires forall sem :: 0 <= sem < |s.slots| && sem != s.calls[r].sem ==> s'.slots[sem] == s.slots[sem]
    requires var sem := s.calls[r].sem;
             && s'.slots[sem] <= MAX_CONCURRENT_READS
             && s'.slots[sem] + (if InFlight(s.calls[r], sem) then 1 else 0)
             == s.slots[sem] + (if InFlight(s'.calls[r], sem) then 1 else 0)
    ensures SlotsOk(s')
  {
    forall sem: nat
      ensures InFlightCount(s'.calls, sem)
           == InFlightCount(s.calls, sem) - (if InFlight(s.calls[r], sem) then 1 else 0)
              + if InFlight(s'.calls[r], sem) then 1 else 0
    {
      CountUpdate(s.calls, r, s'.calls[r], sem);
    }
  }

  lemma CallKeepsSlots(s: State, client: nat, parameters: Parameters)
    requires SlotsOk(s) && client < |s.clients|
    ensures SlotsOk(Step(s, Call(client, parameters)))
  {
    forall sem: nat { CountAppend(s.calls, Read(s.clients[client], parameters, Waiting), sem); }
  }

  lemma ClientsKeepSlots(s: State, a: Action)
    requires SlotsOk(s) && Enabled(s, a) && (a.NewClient? || a.WithImpersonation?)
    ensures SlotsOk(Step(s, a))
  {
  }

  lemma SlotsKept(s: State, a: Action)
    requires SlotsOk(s) && Enabled(s, a)
    ensures SlotsOk(Step(s, a))
  {
    if a.NewClient? || a.WithImpersonation? {
      ClientsKeepSlots(s, a);
    } else if a.Call? {
      CallKeepsSlots(s, a.client, a.parameters);
    } else {
      SlotsMoved(s, Step(s, a), a.r);
    }
  }

  lemma LimitsKept(s: State, a: Action)
    requires LimitsOk(s) && Enabled(s, a)
    ensures LimitsOk(Step(s, a))
  {
    if a.Acquire? {
      LimitSentIsLimitEnforced(s.calls[a.r].parameters);
    }
  }

  lemma {:induction false} BudgetAlways(run: seq<Action>)
    ensures SlotsOk(Exec(INIT, run)) && LimitsOk(Exec(INIT, run))
    decreases |run|
  {
    if run != [] {
      BudgetAlways(run[..|run| - 1]);
      var s := Exec(INIT, run[..|run| - 1]);
      if Enabled(s, run[|run| - 1]) {
        SlotsKept(s, run[|run| - 1]);
        LimitsKept(s, run[|run| - 1]);
      }
    }
  }

  /** A new client has a semaphore of its own, of which nobody has a slot. */
  lemma NewClientAlone(run: seq<Action>)
    ensures var s := Exec(INIT, run);
            var s', client := Step(s, NewClient), |s.clients|;
            && |s'.clients| == client + 1 && s'.clients[..client] == s.clients && s'.calls == s.calls
            && s'.clients[client] !in s.clients && InFlightCount(s'.calls, s'.clients[client]) == 0
  {
    BudgetAlways(run);
  }

  /** A client impersonated from another has its semaphore, and a read is counted by the semaphore of the
      client it is made on. */
  lemma SemaphoresShared(run: seq<Action>, client: nat, parameters: Parameters)
    requires client < |Exec(INIT, run).clients|
    ensures var s := Exec(INIT, run);
            var s1, s2 := Step(s, WithImpersonation(client)), Step(s, Call(client, parameters));
            && s1.clients == s.clients + [s.clients[client]] && s1.slots == s.slots
            && s2.calls == s.calls + [Read(s.clients[client], parameters, Waiting)]
  {
    BudgetAlways(run);
  }

  // ---------- No step of a read in flight is blocked ----------

  lemma {:induction false} CountPositive(calls: seq<Read>, r: nat, sem: nat)
    requires r < |calls| && InFlight(calls[r], sem)
    ensures InFlightCount(calls, sem) > 0
  {
    if r < |calls| - 1 {
      CountPositive(calls[..|calls| - 1], r, sem);
    }
  }

  /** The deferred receive from the semaphore never waits: a read in flight can always return. */
  lemma ReleaseNeverBlocks(run: seq<Action>, r: nat)
    requires r < |Exec(INIT, run).calls|
    ensures var s := Exec(INIT, run);
            && (s.calls[r].phase.Opening? ==> forall ok :: Enabled(s, Open(r, ok)))
            && (s.calls[r].phase.Reading? ==> Enabled(s, Finish(r)))
  {
    BudgetAlways(run);
    var s := Exec(INIT, run);
    if InFlight(s.calls[r], s.calls[r].sem) {
      CountPositive(s.calls, r, s.calls[r].sem);
    }
  }

  /** The way of a read: admitted, it takes a slot and the limit it sent; with a stream it starts with nothing
      read and keeps the slot; without one, or at the end, it gives the slot back and returns. */
  lemma ReadProceeds(run: seq<Action>, r: nat)
    requires r < |Exec(INIT, run).calls|
    ensures var s := Exec(INIT, run);
            var phase, sem := s.calls[r].phase, s.calls[r].sem;
            && sem < |s.slots|
            && (Enabled(s, Acquire(r)) ==>
                  Step(s, Acquire(r)).slots[sem] == s.slots[sem] + 1
                  && SentLimit(s.calls[r].parameters).Some?
                  && SentLimit(s.calls[r].parameters).value >= 0
                  && Step(s, Acquire(r)).calls[r].phase == Opening(SentLimit(s.calls[r].parameters).value))
            && (phase.Opening? ==>
                  Enabled(s, Open(r, true)) && Enabled(s, Open(r, false))
                  && Step(s, Open(r, true)).calls[r].phase == Reading(phase.limit, 0)
                  && Step(s, Open(r, true)).slots == s.slots
                  && Step(s, Open(r, false)).calls[r].phase == Returned
                  && Step(s, Open(r, false)).slots[sem] == s.slots[sem] - 1)
            && (phase.Reading? ==>
                  Enabled(s, Finish(r)) && Step(s, Finish(r)).calls[r].phase == Returned
                  && Step(s, Finish(r)).slots[sem] == s.slots[sem] - 1)
  {
    BudgetAlways(run);
    ReleaseNeverBlocks(run, r);
    LimitSentIsLimitEnforced(Exec(INIT, run).calls[r].parameters);
  }

  /** A waiting read can always give up, and takes no slot with it. */
  lemma WaitingCanGiveUp(run: seq<Action>, r: nat)
    requires r < |Exec(INIT, run).calls| && Exec(INIT, run).calls[r].phase.Waiting?
    ensures var s := Exec(INIT, run);
            && Enabled(s, Cancel(r)) && Step(s, Cancel(r)).slots == s.slots
            && Step(s, Cancel(r)).calls == s.calls[r := s.calls[r].(phase := Returned)]
  {
    BudgetAlways(run);
  }

  function Copies(r: nat, copies: seq<nat>): seq<Action> {
    if copies == [] then [] else Copies(r, copies[..|copies| - 1]) + [Copy(r, copies[|copies| - 1])]
  }

  /** What ReadBounded copies in its turns is a run here, no step of which is blocked: the buffer grows
      by all of it, and stays within the limit and a byte. */
  lemma {:induction false} CopiesRun(s: State, r: nat, limit: nat, copies: seq<nat>)
    requires In(s, r) && s.calls[r].phase == Reading(limit, 0) && Total(copies) <= limit + 1
    ensures Exec(s, Copies(r, copies)) == Goto(s, r, Reading(limit, Total(copies)))
    decreases |copies|
  {
    if copies == [] {
      assert s.calls[r := s.calls[r].(phase := Reading(limit, 0))] == s.calls;
    } else {
      var front, last := copies[..|copies| - 1], copies[|copies| - 1];
      CopiesRun(s, r, limit, front);
      assert Copies(r, copies)[..|Copies(r, copies)| - 1] == Copies(r, front);
      assert Enabled(Goto(s, r, Reading(limit, Total(front))), Copy(r, last));
    }
  }

  // ---------- Main results ----------

  /** In every run, a semaphore has exactly as many slots taken as reads are in flight on the clients
      that share it: none leaks, whichever way reads end. There are at most eight, and together they
      hold at most eight times the largest limit and a byte. */
  lemma AggregateBudget(run: seq<Action>, sem: nat)
    ensures var s := Exec(INIT, run);
            && sem < |s.slots| ==> s.slots[sem] == InFlightCount(s.calls, sem)
    ensures InFlightCount(Exec(INIT, run).calls, sem) <= 8
    ensures HeldBytes(Exec(INIT, run).calls, sem) <= 8 * (64 * 1024 * 1024 + 1)
  {
    BudgetAlways(run);
    HeldWithinSlots(Exec(INIT, run).calls, sem, MAX_CONCURRENT_READS, MAX_LIMIT_BYTES + 1);
  }

  /** A read in flight stops at the limit that its own parameters sent, and holds at most a byte more. */
  lemma LimitIsSent(run: seq<Action>, r: nat)
    requires r < |Exec(INIT, run).calls|
    ensures var read := Exec(INIT, run).calls[r];
            && (read.phase.Opening? ==> SentLimit(read.parameters) == Some(read.phase.limit))
            && (read.phase.Reading? ==>
                  SentLimit(read.parameters) == Some(read.phase.limit) && read.phase.held <= read.phase.limit + 1)
  {
    BudgetAlways(run);
  }

  /** A waiting read is kept out exactly while eight others are in flight. */
  lemma AcquireIffFewer(run: seq<Action>, r: nat)
    requires r < |Exec(INIT, run).calls| && Exec(INIT, run).calls[r].phase.Waiting?
    ensures var s := Exec(INIT, run);
            Enabled(s, Acquire(r)) <==> InFlightCount(s.calls, s.calls[r].sem) < 8
  {
    BudgetAlways(run);
  }

  function AllBytes(calls: seq<Read>): nat {
    if calls == [] then 0
    else AllBytes(calls[..|calls| - 1]) + Bytes(calls[|calls| - 1], calls[|calls| - 1].sem)
  }

  lemma {:induction false} AllBytesOfOne(calls: seq<Read>, sem: nat)
    requires forall r :: 0 <= r < |calls| ==> calls[r].sem == sem
    ensures AllBytes(calls) == HeldBytes(calls, sem)
  {
    if calls != [] {
      AllBytesOfOne(calls[..|calls| - 1], sem);
    }
  }

  /** One base client; every other client is impersonated from it or from one that is. */
  predicate OneBase(run: seq<Action>) {
    run != [] && run[0].NewClient? && forall n :: 0 < n < |run| ==> !run[n].NewClient?
  }

  ghost predicate OneSemaphore(s: State) {
    && (forall client :: 0 <= client < |s.clients| ==> s.clients[client] == 0)
    && (forall r :: 0 <= r < |s.calls| ==> s.calls[r].sem == 0)
  }

  lemma OneSemaphoreKept(s: State, a: Action)
    requires OneSemaphore(s) && Enabled(s, a) && (a.NewClient? ==> s.slots == [])
    ensures OneSemaphore(Step(s, a))
  {
  }

  lemma {:induction false} OneBaseOneSemaphore(run: seq<Action>)
    requires OneBase(run)
    ensures OneSemaphore(Exec(INIT, run))
    decreases |run|
  {
    var n := |run| - 1;
    if n > 0 {
      OneBaseOneSemaphore(run[..n]);
    } else {
      assert Exec(INIT, run[..n]) == INIT;
    }
    if Enabled(Exec(INIT, run[..n]), run[n]) {
      OneSemaphoreKept(Exec(INIT, run[..n]), run[n]);
    }
  }

  /** The budget is per process: with one base client, all reads on all its impersonated clients
      together hold at most eight times the largest limit and a byte. */
  lemma ProcessBudget(run: seq<Action>)
    requires OneBase(run)
    ensures AllBytes(Exec(INIT, run).calls) <= 8 * (64 * 1024 * 1024 + 1)
  {
    OneBaseOneSemaphore(run);
    AllBytesOfOne(Exec(INIT, run).calls, 0);
    AggregateBudget(run, 0);
  }
}

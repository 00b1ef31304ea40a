/**
 Starting and stopping the periodic refresh of a client. Each start spawns a goroutine with
 a context of its own; a stopped one may run on, and refresh the client, so several can be
 alive at once, but only one of them has a context that is not cancelled.
 */
module RefreshLifecycle {
  import opened ClientRefresh

  // ---------- As a state machine ----------

  /** A refresh goroutine: the interval it was started with, whether its context is cancelled,
      whether it has returned. */
  datatype Worker = Worker(interval: int, cancelled: bool, exited: bool)

  /** `cancel` is the worker whose context refreshCancel cancels. */
  datatype Lifecycle = Lifecycle(refreshing: bool, interval: int, cancel: nat, workers: seq<Worker>, components: Parts)

  /** In a tick, `ok` says whether configuration `config` could be read and all clients built from it. */
  datatype Event = Start(interval: int) | Stop | Tick(worker: nat, config: nat, ok: bool) | Exit(worker: nat)

  function Created(config: nat): Lifecycle {
    Lifecycle(false, 0, 0, [], Uniform(config))
  }

  function StartStep(s: Lifecycle, interval: int): Lifecycle {
    if s.refreshing then s
    else s.(refreshing := true, interval := interval, cancel := |s.workers|,
            workers := s.workers + [Worker(interval, false, false)])
  }

  function StopStep(s: Lifecycle): Lifecycle {
    if !s.refreshing || s.cancel >= |s.workers| then s
    else s.(refreshing := false, workers := s.workers[s.cancel := s.workers[s.cancel].(cancelled := true)])
  }

  predicate Running(s: Lifecycle, worker: nat) {
    worker < |s.workers| && !s.workers[worker].exited
  }

  /** The select of a running worker may take a tick, even if the context is cancelled too. */
  function TickStep(s: Lifecycle, worker: nat, config: nat, ok: bool): Lifecycle {
    if Running(s, worker) && ok then s.(components := Uniform(config)) else s
  }

  /** A worker returns only when it finds its context cancelled. */
  function ExitStep(s: Lifecycle, worker: nat): Lifecycle {
    if worker < |s.workers| && s.workers[worker].cancelled
    then s.(workers := s.workers[worker := s.workers[worker].(exited := true)])
    else s
  }

  function After(s: Lifecycle, e: Event): Lifecycle {
    match e
    case Start(interval) => StartStep(s, interval)
    case Stop => StopStep(s)
    case Tick(worker, config, ok) => TickStep(s, worker, config, ok)
    case Exit(worker) => ExitStep(s, worker)
  }

  function Run(s: Lifecycle, events: seq<Event>): Lifecycle {
    if events == [] then s else After(Run(s, events[..|events| - 1]), events[|events| - 1])
  }

  predicate Live(s: Lifecycle, worker: nat) {
    worker < |s.workers| && !s.workers[worker].cancelled
  }

  function RefreshInterval(s: Lifecycle): int {
    if s.refreshing then s.interval else 0
  }

  /** If refreshing, the one live worker is the one refreshCancel refers to, it has not returned, and it
      was started with the interval reported; if not, no worker is live. */
  ghost predicate Tidy(s: Lifecycle) {
    && (s.refreshing ==> Live(s, s.cancel) && Running(s, s.cancel) && s.workers[s.cancel].interval == s.interval)
    && (forall worker: nat :: Live(s, worker) ==> s.refreshing && worker == s.cancel)
  }

  lemma {:induction false} TidyAlways(config: nat, events: seq<Event>)
    ensures Tidy(Run(Created(config), events))
    decreases |events|
  {
    if events != [] {
      TidyAlways(config, events[..|events| - 1]);
      TidyKept(Run(Created(config), events[..|events| - 1]), events[|events| - 1]);
    }
  }

  lemma TidyKept(s: Lifecycle, e: Event)
    requires Tidy(s)
    ensures Tidy(After(s, e))
  {
    forall worker: nat | Live(After(s, e), worker)
      ensures After(s, e).refreshing && worker == After(s, e).cancel
    {
      assert Live(s, worker) || worker == |s.workers|;
    }
  }

  /** Over every sequence of starts, stops, ticks and returns: at most one worker has an uncancelled
      context; there is one exactly when refreshing is reported; and the interval reported is the one that
      worker was started with, or 0 when there is none. */
  lemma OneLiveWorker(config: nat, events: seq<Event>)
    ensures var s := Run(Created(config), events);
            && (forall a: nat, b: nat :: Live(s, a) && Live(s, b) ==> a == b)
            && (s.refreshing <==> exists worker: nat :: Live(s, worker))
            && (forall worker: nat :: Live(s, worker) ==> RefreshInterval(s) == s.workers[worker].interval)
            && (!s.refreshing ==> RefreshInterval(s) == 0)
  {
    TidyAlways(config, events);
    var s := Run(Created(config), events);
    assert s.refreshing ==> Live(s, s.cancel);
  }

  // ---------- What each event does ----------

  /** A start when no refresh is on, be it the first or after a stop, sets one going with the interval given;
      when one is on it changes nothing. */
  lemma StartsIff(config: nat, events: seq<Event>, interval: int)
    ensures var s := Run(Created(config), events);
            var s' := After(s, Start(interval));
            if exists worker: nat :: Live(s, worker) then s' == s
            else s'.refreshing && RefreshInterval(s') == interval && |s'.workers| == |s.workers| + 1
                 && s'.workers[..|s.workers|] == s.workers && s'.components == s.components
                 && Live(s', |s.workers|) && Running(s', |s.workers|) && s'.workers[|s.workers|].interval == interval
  {
    OneLiveWorker(config, events);
  }

  /** After a stop no goroutine is live and none is reported, whatever was before; the one that was live is
      cancelled and still runs, and no other has changed. */
  lemma StopsAll(config: nat, events: seq<Event>)
    ensures var s := Run(Created(config), events);
            var s' := After(s, Stop);
            && !s'.refreshing && RefreshInterval(s') == 0 && (forall worker: nat :: !Live(s', worker))
            && |s'.workers| == |s.workers| && s'.components == s.components
            && (forall worker: nat :: Running(s', worker) <==> Running(s, worker))
            && (forall worker: nat :: worker < |s.workers| && !Live(s, worker) ==>
                  s'.workers[worker] == s.workers[worker])
  {
    TidyAlways(config, events);
    StopsLive(Run(Created(config), events));
  }

  lemma StopsLive(s: Lifecycle)
    requires Tidy(s)
    ensures !After(s, Stop).refreshing
    ensures forall worker: nat :: !Live(After(s, Stop), worker)
    ensures forall worker: nat :: Running(After(s, Stop), worker) <==> Running(s, worker)
  {
    var s' := After(s, Stop);
    forall worker: nat
      ensures !Live(s', worker)
    {
      assert Live(s', worker) ==> Live(s, worker);
    }
  }

  /** A goroutine returns exactly when it is cancelled; others run on, and nothing else changes. */
  lemma ReturnsIff(s: Lifecycle, worker: nat)
    requires Running(s, worker)
    ensures var s' := After(s, Exit(worker));
            && (Running(s', worker) <==> !s.workers[worker].cancelled)
            && (forall other: nat :: other != worker ==> (Running(s', other) <==> Running(s, other)))
            && (forall other: nat :: Live(s', other) <==> Live(s, other))
            && s'.components == s.components && s'.refreshing == s.refreshing && s'.interval == s.interval
  {
  }

  // ---------- Who can still refresh the client ----------

  ghost predicate OneGeneration(s: Lifecycle) {
    exists g: nat :: s.components == Uniform(g)
  }

  lemma {:induction false} OneGenerationAlways(config: nat, events: seq<Event>)
    ensures OneGeneration(Run(Created(config), events))
    decreases |events|
  {
    if events != [] {
      OneGenerationAlways(config, events[..|events| - 1]);
    }
  }

  ghost predicate AllReturned(s: Lifecycle) {
    forall worker: nat :: !Running(s, worker)
  }

  predicate NoStart(events: seq<Event>) {
    forall i :: 0 <= i < |events| ==> !events[i].Start?
  }

  /** Without another start the components stay what they are, whatever else happens. */
  ghost predicate Settled(s: Lifecycle) {
    forall more :: NoStart(more) ==> Run(s, more).components == s.components
  }

  lemma {:induction false} ReturnedSettles(s: Lifecycle, more: seq<Event>)
    requires AllReturned(s) && NoStart(more)
    ensures AllReturned(Run(s, more)) && Run(s, more).components == s.components
    decreases |more|
  {
    if more != [] {
      var s' := Run(s, more[..|more| - 1]);
      ReturnedSettles(s, more[..|more| - 1]);
      forall worker: nat
        ensures !Running(Run(s, more), worker)
      {
        assert !Running(s', worker);
      }
    }
  }

  /** A tick brings a new configuration in if and only if its goroutine was started and has not returned,
      and the configuration can be read and used; whether it was stopped does not matter. */
  lemma TickRefreshesIff(s: Lifecycle, worker: nat, config: nat, ok: bool)
    requires s.components != Uniform(config)
    ensures After(s, Tick(worker, config, ok)).components != s.components <==>
            worker < |s.workers| && !s.workers[worker].exited && ok
  {
  }

  /** A client is settled exactly when every refresh goroutine ever started for it has returned; that its
      refresh has been stopped is not enough. */
  lemma SettledIffAllReturned(config: nat, events: seq<Event>)
    ensures var s := Run(Created(config), events); Settled(s) <==> AllReturned(s)
  {
    var s := Run(Created(config), events);
    OneGenerationAlways(config, events);
    var g: nat :| s.components == Uniform(g);
    if AllReturned(s) {
      forall more | NoStart(more)
        ensures Run(s, more).components == s.components
      {
        ReturnedSettles(s, more);
      }
    } else {
      var worker: nat :| Running(s, worker);
      var more := [Tick(worker, g + 1, true)];
      assert more[..0] == [] && Run(s, []) == s;
      TickRefreshesIff(s, worker, g + 1, true);
      assert NoStart(more) && Run(s, more) == After(s, Tick(worker, g + 1, true));
    }
  }

  /** The ticks of worker 0 that install configurations 1 to `n`. */
  function Ticks(n: nat): seq<Event> {
    if n == 0 then [] else Ticks(n - 1) + [Tick(0, n, true)]
  }

  /** A stopped goroutine can refresh the client any number of times before it notices. */
  lemma {:induction false} RefreshesAfterStop(interval: int, n: nat)
    ensures var s := Run(Created(0), [Start(interval), Stop] + Ticks(n));
            s == Lifecycle(false, interval, 0, [Worker(interval, true, false)], Uniform(n))
  {
    var events := [Start(interval), Stop] + Ticks(n);
    if n == 0 {
      assert events == [Start(interval), Stop];
      assert events[..1] == [Start(interval)] && events[..1][..0] == [];
      assert Run(Created(0), []) == Created(0);
      assert Run(Created(0), [Start(interval)]) == StartStep(Created(0), interval);
    } else {
      RefreshesAfterStop(interval, n - 1);
      assert events[..|events| - 1] == [Start(interval), Stop] + Ticks(n - 1);
    }
  }

  // ---------- As the code has it ----------

  class Context {
    var cancelled: bool
    constructor ()
      ensures !cancelled
    {
      cancelled := false;
    }
  }

  class Goroutine {
    const interval: int
    const ctx: Context
    var exited: bool

    constructor (interval: int, ctx: Context)
      ensures this.interval == interval && this.ctx == ctx && !exited
    {
      this.interval, this.ctx, exited := interval, ctx, false;
    }
  }

  class Client {
    var discovery: nat
    var dynamic: nat
    var clientset: nat
    var restConfig: nat

    var refreshing: bool
    var refreshInterval: int
    var refreshCtx: Context?
    var spawned: seq<Goroutine>  // every goroutine started for this client; it is the runtime that knows them
    ghost var cancel: nat        // the one refreshCtx belongs to

    constructor (config: nat)
      ensures Valid() && View() == Created(config) && spawned == []
    {
      discovery, dynamic, clientset, restConfig := config, config, config, config;
      refreshing, refreshInterval, refreshCtx := false, 0, null;
      spawned, cancel := [], 0;
    }

    /** The fields agree with each other and with the goroutines there are: at most one of these has a
        context that is not cancelled, namely refreshCtx, and exactly while refreshing. */
    ghost predicate Valid()
      reads this, spawned, Contexts()
    {
      Linked() && Tidy(View())
    }

    ghost predicate Linked()
      reads this
    {
      && (refreshing ==> cancel < |spawned| && refreshCtx == spawned[cancel].ctx)
      && Distinct()
    }

    ghost predicate Distinct()
      reads this
    {
      forall i, j :: 0 <= i < |spawned| && 0 <= j < |spawned| && i != j ==>
        spawned[i] != spawned[j] && spawned[i].ctx != spawned[j].ctx
    }

    ghost function Contexts(): set<Context>
      reads this
    {
      set i | 0 <= i < |spawned| :: spawned[i].ctx
    }

    ghost function Workers(): seq<Worker>
      reads this, spawned, Contexts()
    {
      seq(|spawned|, i requires 0 <= i < |spawned| reads this, spawned, Contexts() =>
            Worker(spawned[i].interval, spawned[i].ctx.cancelled, spawned[i].exited))
    }

    ghost function View(): Lifecycle
      reads this, spawned, Contexts()
    {
      Lifecycle(refreshing, refreshInterval, cancel, Workers(), Components())
    }

    ghost function Components(): Parts
      reads this
    {
      Parts(discovery, dynamic, clientset, restConfig)
    }

    /** Replace all components if the configuration can be read and all clients built from it, else none. */
    method RefreshClient(config: nat, readable: bool, buildable: bool) returns (ok: bool)
      modifies this`discovery, this`dynamic, this`clientset, this`restConfig
      ensures ok == (readable && buildable)
      ensures Components() == if ok then Uniform(config) else old(Components())
    {
      if !readable || !buildable {
        return false;
      }
      discovery := config;
      dynamic := config;
      clientset := config;
      restConfig := config;
      return true;
    }

    /** The go statement: one more goroutine, with this context. */
    method Go(interval: int, ctx: Context)
      requires Distinct() && ctx !in Contexts()
      modifies this`spawned, this`cancel
      ensures Distinct() && |spawned| == |old(spawned)| + 1 && spawned[..|old(spawned)|] == old(spawned)
      ensures cancel == |old(spawned)| && fresh(spawned[cancel])
      ensures spawned[cancel].ctx == ctx && spawned[cancel].interval == interval && !spawned[cancel].exited
      ensures Contexts() <= old(Contexts()) + {ctx}
    {
      var worker := new Goroutine(interval, ctx);
      cancel := |spawned|;
      forall i | 0 <= i < |spawned|
        ensures spawned[i].ctx != ctx
      {
        assert spawned[i].ctx in Contexts();
      }
      spawned := spawned + [worker];
    }

    method StartPeriodicRefresh(interval: int) returns (ok: bool)
      requires Valid()
      modifies this
      ensures Valid()
      ensures old(spawned) <= spawned && fresh(Contexts() - old(Contexts()))
      ensures forall i :: |old(spawned)| <= i < |spawned| ==> fresh(spawned[i])
      ensures ok == !old(refreshing)
      ensures View() == StartStep(old(View()), interval)
    {
      if refreshing {
        return false;
      }
      ghost var before := View();
      var ctx := new Context();
      refreshCtx := ctx;
      refreshInterval := interval;
      refreshing := true;
      Go(interval, ctx);
      assert forall i :: |old(spawned)| <= i < |spawned| ==> spawned[i] == spawned[cancel];
      assert Workers() == before.workers + [Worker(interval, false, false)];
      assert View() == StartStep(before, interval);
      TidyKept(before, Start(interval));
      return true;
    }

    method StopPeriodicRefresh() returns (ok: bool)
      requires Valid()
      modifies this, Contexts()
      ensures Valid() && spawned == old(spawned)
      ensures ok == old(refreshing)
      ensures View() == StopStep(old(View()))
    {
      if !refreshing {
        return false;
      }
      ghost var before := View();
      refreshCtx.cancelled := true;
      refreshing := false;
      assert Workers() == before.workers[cancel := before.workers[cancel].(cancelled := true)];
      assert View() == StopStep(before);
      TidyKept(before, Stop);
      return true;
    }

    /** One turn of a goroutine's loop. The select may take a tick although the context is cancelled. */
    method WorkerTurn(worker: Goroutine, ghost n: nat, ticked: bool, config: nat, readable: bool, buildable: bool)
      requires Valid() && n < |spawned| && spawned[n] == worker
      requires !worker.exited && (ticked || worker.ctx.cancelled)
      modifies this`discovery, this`dynamic, this`clientset, this`restConfig, worker
      ensures Valid() && spawned == old(spawned)
      ensures View() == if ticked then TickStep(old(View()), n, config, readable && buildable)
                        else ExitStep(old(View()), n)
    {
      ghost var before := View();
      if ticked {
        var _ := RefreshClient(config, readable, buildable);
        assert Workers() == before.workers;
        assert View() == TickStep(before, n, config, readable && buildable);
        TidyKept(before, Tick(n, config, readable && buildable));
      } else {
        worker.exited := true;
        assert Workers() == before.workers[n := before.workers[n].(exited := true)];
        TidyKept(before, Exit(n));
      }
    }

    /** One event in the life of the client and its goroutines; nothing if it cannot happen now. */
    method Happen(e: Event)
      requires Valid()
      modifies this, spawned, Contexts()
      ensures Valid() && View() == After(old(View()), e)
      ensures old(spawned) <= spawned && fresh(Contexts() - old(Contexts()))
      ensures forall i :: |old(spawned)| <= i < |spawned| ==> fresh(spawned[i])
    {
      match e
      case Start(interval) =>
        var _ := StartPeriodicRefresh(interval);
      case Stop =>
        var _ := StopPeriodicRefresh();
      case Tick(worker, config, ok) =>
        if worker < |spawned| && !spawned[worker].exited {
          WorkerTurn(spawned[worker], worker, true, config, ok, true);
        }
      case Exit(worker) =>
        if worker < |spawned| && spawned[worker].ctx.cancelled {
          if !spawned[worker].exited {
            WorkerTurn(spawned[worker], worker, false, 0, false, false);
          } else {
            assert View().workers[worker] == View().workers[worker].(exited := true);
          }
        }
    }

    method IsRefreshing() returns (r: bool)
      requires Valid()
      ensures Valid()
      ensures r <==> exists worker: nat :: Live(View(), worker)
    {
      assert refreshing ==> Live(View(), cancel);
      return refreshing;
    }

    /** The interval of the goroutine that is live, or 0 if none is. */
    method GetRefreshInterval() returns (interval: int)
      requires Valid()
      ensures Valid()
      ensures forall worker: nat :: Live(View(), worker) ==> interval == spawned[worker].interval
      ensures interval == 0 || exists worker: nat :: Live(View(), worker)
    {
      assert refreshing ==> Live(View(), cancel);
      return if refreshing then refreshInterval else 0;
    }
  }

  /** A new client and its goroutines through any starts, stops, ticks and returns: the objects go the way
      of the state machine, whatever the order. */
  method Follow(config: nat, events: seq<Event>) returns (client: Client)
    ensures fresh(client) && client.Valid() && client.View() == Run(Created(config), events)
  {
    client := new Client(config);
    for i := 0 to |events|
      invariant fresh(client) && fresh(client.Contexts())
      invariant forall k :: 0 <= k < |client.spawned| ==> fresh(client.spawned[k])
      invariant client.Valid() && client.View() == Run(Created(config), events[..i])
    {
      assert events[..i + 1][..i] == events[..i];
      client.Happen(events[i]);
    }
    assert events[..|events|] == events;
  }
}

/**
 The limiter as the code has it: counter objects on the heap, reached through nested
 maps that are updated in place. One operation runs at a time here; LimiterProtocol.dfy
 has the interleavings.
 */
module RateLimiters {
  import opened FixedWindow
  import opened AtomicLimiter

  class WindowCounter {
    var count: int
    var windowStart: int
    ghost const key: Key  // the key it was made for

    constructor (start: int, ghost key: Key)
      ensures count == 0 && windowStart == start && this.key == key
    {
      count, windowStart := 0, start;
      this.key := key;
    }

    function View(): Window
      reads this
    {
      Window(count, windowStart)
    }
  }

  // ---------- The nested maps as values ----------

  type Counts = map<string, map<string, WindowCounter>>

  ghost predicate Has(counts: Counts, key: Key) {
    key.session in counts && key.tool in counts[key.session]
  }

  ghost function CounterAt(counts: Counts, key: Key): WindowCounter
    requires Has(counts, key)
  {
    counts[key.session][key.tool]
  }

  ghost function Keys(counts: Counts): (keys: set<Key>)
    ensures forall key :: key in keys <==> Has(counts, key)
  {
    set session, tool | session in counts && tool in counts[session] :: Key(session, tool)
  }

  ghost function Counters(counts: Counts): (objects: set<WindowCounter>)
    ensures forall key :: Has(counts, key) ==> CounterAt(counts, key) in objects
  {
    set key | key in Keys(counts) :: CounterAt(counts, key)
  }

  ghost predicate NoneEmpty(counts: Counts) {
    forall session :: session in counts ==> exists tool :: tool in counts[session]
  }

  /** Every counter is mapped under the key it was made for. */
  ghost predicate Labelled(counts: Counts) {
    forall key :: Has(counts, key) ==> CounterAt(counts, key).key == key
  }

  /** so distinct keys have distinct counter objects. */
  lemma DistinctCounters(counts: Counts, k: Key, k': Key)
    requires Labelled(counts) && Has(counts, k) && Has(counts, k') && k != k'
    ensures CounterAt(counts, k) != CounterAt(counts, k')
  {
  }

  /** The windows behind the maps, as AtomicLimiter sees them. */
  ghost function TableOf(counts: Counts): Table
    reads Counters(counts)
  {
    map key | key in Keys(counts) :: CounterAt(counts, key).View()
  }

  function Insert(counts: Counts, session: string, tool: string, counter: WindowCounter): Counts {
    var tools: map<string, WindowCounter> := if session in counts then counts[session] else map[];
    counts[session := tools[tool := counter]]
  }

  lemma InsertHas(counts: Counts, session: string, tool: string, counter: WindowCounter)
    ensures var counts' := Insert(counts, session, tool, counter);
            && Has(counts', Key(session, tool)) && CounterAt(counts', Key(session, tool)) == counter
            && (forall key :: key != Key(session, tool) ==> (Has(counts', key) <==> Has(counts, key)))
            && (forall key :: key != Key(session, tool) && Has(counts, key) ==>
                  CounterAt(counts', key) == CounterAt(counts, key))
  {
  }

  lemma InsertCounters(counts: Counts, session: string, tool: string, counter: WindowCounter)
    ensures Counters(Insert(counts, session, tool, counter)) <= Counters(counts) + {counter}
  {
    InsertHas(counts, session, tool, counter);
  }

  lemma InsertKeeps(counts: Counts, session: string, tool: string, counter: WindowCounter)
    requires NoneEmpty(counts) && Labelled(counts) && counter.key == Key(session, tool)
    ensures NoneEmpty(Insert(counts, session, tool, counter)) && Labelled(Insert(counts, session, tool, counter))
  {
    InsertHas(counts, session, tool, counter);
  }

  lemma InsertTable(counts: Counts, session: string, tool: string, counter: WindowCounter)
    ensures TableOf(Insert(counts, session, tool, counter))
         == TableOf(counts)[Key(session, tool) := counter.View()]
  {
    InsertHas(counts, session, tool, counter);
  }

  /** Looking a counter up, or making and inserting it, shows in the table as Lookup. */
  lemma FetchedTable(before: Counts, after: Counts, counter: WindowCounter, key: Key, fetched: int)
    requires Has(after, key) && CounterAt(after, key) == counter
    requires if Has(before, key) then after == before
             else counter.View() == Window(0, fetched) && after == Insert(before, key.session, key.tool, counter)
    ensures counter.View() == Lookup(TableOf(before), key, fetched)
    ensures TableOf(after) == TableOf(before)[key := counter.View()]
  {
    if !Has(before, key) {
      InsertTable(before, key.session, key.tool, counter);
    }
  }

  /** A call first makes sure of its window, and then works on it. */
  lemma CallInTwo(cfg: Settings, table: Table, key: Key, fetched: int, now: int)
    ensures var found := Lookup(table, key, fetched);
            var worked := Admit(cfg, found, key.tool, now).window;
            table[key := found][key := worked] == AfterCall(cfg, table, key, fetched, now)
  {
  }

  /** What cleanup leaves of one session's counters. */
  ghost function Unstale(counters: map<string, WindowCounter>, now: int, interval: int): map<string, WindowCounter>
    reads counters.Values
  {
    map tool | tool in counters && !Stale(counters[tool].View(), now, interval) :: counters[tool]
  }

  lemma ValuesMapped(counts: Counts, session: string)
    requires session in counts
    ensures counts[session].Values <= Counters(counts)
  {
    forall counter | counter in counts[session].Values
      ensures counter in Counters(counts)
    {
      var tool :| tool in counts[session] && counts[session][tool] == counter;
      assert CounterAt(counts, Key(session, tool)) == counter;
    }
  }

  ghost function UnstaleAll(counts: Counts, now: int, interval: int): (target: Counts)
    reads Counters(counts)
    ensures target.Keys == counts.Keys
    ensures forall session :: session in counts ==> target[session] == Unstale(counts[session], now, interval)
  {
    map session | session in counts :: ValuesMapped(counts, session); Unstale(counts[session], now, interval)
  }

  /** Every counter of `after` is the same object under the same key in `before`. */
  ghost predicate Within(before: Counts, after: Counts) {
    forall key :: Has(after, key) ==> Has(before, key) && CounterAt(after, key) == CounterAt(before, key)
  }

  /** `target` has, of the counters of `before`, exactly those whose window in `table` is not stale. */
  ghost predicate KeepsUnstale(before: Counts, target: Counts, table: Table, now: int, interval: int) {
    && Within(before, target)
    && (forall key :: Has(before, key) ==>
          key in table && (Has(target, key) <==> !Stale(table[key], now, interval)))
  }

  lemma UnstaleKeys(counts: Counts, now: int, interval: int)
    ensures KeepsUnstale(counts, UnstaleAll(counts, now, interval), TableOf(counts), now, interval)
  {
  }

  /** Cleanup has dealt with all sessions but those listed, leaving of each what `target` says, or nothing. */
  ghost predicate Partway(before: Counts, target: Counts, counts: Counts, sessions: set<string>) {
    && sessions <= counts.Keys <= before.Keys == target.Keys
    && (forall s :: s in sessions ==> counts[s] == before[s])
    && (forall s :: s in counts && s !in sessions ==> counts[s] == target[s])
    && (forall s :: s in before && s !in sessions ==> (s in counts <==> |target[s]| != 0))
  }

  lemma PartwayStep(before: Counts, target: Counts, counts: Counts, sessions: set<string>, session: string)
    requires Partway(before, target, counts, sessions) && session in sessions
    ensures Partway(before, target,
                    if |target[session]| == 0 then counts - {session} else counts[session := target[session]],
                    sessions - {session})
  {
  }

  lemma PartwayDone(before: Counts, target: Counts, after: Counts)
    requires Partway(before, target, after, {})
    ensures forall key :: Has(after, key) <==> Has(target, key)
    ensures forall key :: Has(after, key) ==> CounterAt(after, key) == CounterAt(target, key)
    ensures NoneEmpty(after)
  {
  }

  lemma WithinCounters(before: Counts, after: Counts)
    requires Within(before, after)
    ensures Counters(after) <= Counters(before)
  {
  }

  lemma WithinLabelled(before: Counts, after: Counts)
    requires Labelled(before) && Within(before, after)
    ensures Labelled(after)
  {
  }

  lemma SweptTable(cfg: Settings, before: Counts, target: Counts, after: Counts, table: Table, now: int)
    requires table == TableOf(before) && KeepsUnstale(before, target, table, now, cfg.cleanupInterval)
    requires Partway(before, target, after, {})
    ensures Within(before, after) && NoneEmpty(after)
    ensures TableOf(after) == AfterCleanup(cfg, table, now)
  {
    PartwayDone(before, target, after);
  }

  class RateLimiter {
    const cfg: Settings
    var requestCounts: Counts

    constructor (cfg: Settings)
      ensures this.cfg == cfg && Valid() && Table() == map[] && Counters(requestCounts) == {}
    {
      this.cfg := cfg;
      requestCounts := map[];
      new;
      assert Keys(requestCounts) == {};
    }

    /** Every mapped session has at least one counter, and distinct keys have distinct counters. */
    ghost predicate Valid()
      reads this
    {
      NoneEmpty(requestCounts) && Labelled(requestCounts)
    }

    ghost function Table(): Table
      reads this, Counters(requestCounts)
    {
      TableOf(requestCounts)
    }

    /** Get the counter of a key, or make one that starts now. */
    method GetCounter(session: string, tool: string, now: int) returns (counter: WindowCounter)
      requires Valid()
      modifies this
      ensures Valid()
      ensures Has(requestCounts, Key(session, tool)) && CounterAt(requestCounts, Key(session, tool)) == counter
      ensures if old(Has(requestCounts, Key(session, tool))) then requestCounts == old(requestCounts)
              else fresh(counter) && counter.View() == Window(0, now)
                   && requestCounts == Insert(old(requestCounts), session, tool, counter)
    {
      ghost var before := requestCounts;
      if session !in requestCounts {
        requestCounts := requestCounts[session := map[]];
      }
      if tool !in requestCounts[session] {
        var made := new WindowCounter(now, Key(session, tool));
        requestCounts := requestCounts[session := requestCounts[session][tool := made]];
        assert requestCounts == Insert(before, session, tool, made);
        InsertKeeps(before, session, tool, made);
      } else {
        assert requestCounts == before;
      }
      counter := requestCounts[session][tool];
    }

    function GetLimit(tool: string): int {
      cfg.Limit(tool)
    }

    /** The rest of a request once its counter is locked: reopen an expired window, then count or refuse. */
    method CountRequest(counter: WindowCounter, tool: string, now: int, ghost key: Key) returns (accepted: bool)
      requires Valid() && Has(requestCounts, key) && CounterAt(requestCounts, key) == counter && key.tool == tool
      modifies counter
      ensures Table() == old(Table())[key := Admit(cfg, old(counter.View()), tool, now).window]
      ensures accepted == Admit(cfg, old(counter.View()), tool, now).accepted
    {
      if now - counter.windowStart >= cfg.windowSize {
        counter.count := 0;
        counter.windowStart := now;
      }
      var limit := GetLimit(tool);
      if counter.count >= limit {
        accepted := false;
      } else {
        counter.count := counter.count + 1;
        accepted := true;
      }
    }

    /** One request; `fetched` and `now` are its two clock readings. */
    method Handle(session: string, tool: string, fetched: int, now: int) returns (accepted: bool)
      requires Valid()
      modifies this, Counters(requestCounts)
      ensures Valid() && fresh(Counters(requestCounts) - old(Counters(requestCounts)))
      ensures Table() == AfterCall(cfg, old(Table()), Key(session, tool), fetched, now)
      ensures accepted == Accepts(cfg, old(Table()), Key(session, tool), fetched, now)
    {
      ghost var before, table := requestCounts, Table();
      ghost var key := Key(session, tool);
      var counter := GetCounter(session, tool, fetched);
      FetchedTable(before, requestCounts, counter, key, fetched);
      InsertCounters(before, session, tool, counter);
      CallInTwo(cfg, table, key, fetched, now);
      assert Table() == table[key := Lookup(table, key, fetched)];
      accepted := CountRequest(counter, tool, now, key);
    }

    /** Drop every stale counter, and every session left without one; it does not matter whether one was there. */
    method Cleanup(now: int)
      requires Labelled(requestCounts)
      modifies this
      ensures Valid() && Within(old(requestCounts), requestCounts)
      ensures Counters(requestCounts) <= old(Counters(requestCounts))
      ensures Table() == AfterCleanup(cfg, old(Table()), now)
    {
      ghost var before, table := requestCounts, Table();
      ghost var target := UnstaleAll(requestCounts, now, cfg.cleanupInterval);
      UnstaleKeys(requestCounts, now, cfg.cleanupInterval);
      CleanSessions(now, target);
      SweptTable(cfg, before, target, requestCounts, table, now);
      WithinLabelled(before, requestCounts);
      WithinCounters(before, requestCounts);
    }

    /** A call or a cleanup. */
    method Take(e: Event) returns (answer: seq<Answer>)
      requires Valid()
      modifies this, Counters(requestCounts)
      ensures Valid() && fresh(Counters(requestCounts) - old(Counters(requestCounts)))
      ensures Table() == After(cfg, old(Table()), e)
      ensures answer == AnswerTo(cfg, old(Table()), e)
    {
      match e
      case Call(key, fetched, now) =>
        var accepted := Handle(key.session, key.tool, fetched, now);
        answer := [Answer(key, accepted)];
      case CleanupAt(now) =>
        Cleanup(now);
        answer := [];
    }

    /** The outer loop. `target` is what the inner loop will make of each session. */
    method CleanSessions(now: int, ghost target: Counts)
      requires target == UnstaleAll(requestCounts, now, cfg.cleanupInterval)
      modifies this
      ensures Partway(old(requestCounts), target, requestCounts, {})
    {
      ghost var before := requestCounts;
      var sessions := requestCounts.Keys;
      while sessions != {}
        invariant Partway(before, target, requestCounts, sessions)
        decreases |sessions|
      {
        var session :| session in sessions;
        var counters := CleanSession(requestCounts[session], now);
        assert counters == target[session];
        PartwayStep(before, target, requestCounts, sessions, session);
        requestCounts := if |counters| == 0 then requestCounts - {session} else requestCounts[session := counters];
        sessions := sessions - {session};
      }
    }

    /** The inner loop: drop the stale counters of one session. */
    method CleanSession(counters: map<string, WindowCounter>, now: int) returns (left: map<string, WindowCounter>)
      ensures left == Unstale(counters, now, cfg.cleanupInterval)
    {
      left := counters;
      var tools := counters.Keys;
      while tools != {}
        invariant tools <= left.Keys <= counters.Keys
        invariant forall tool :: tool in left ==> left[tool] == counters[tool]
        invariant forall tool :: tool in counters && tool !in tools ==>
                    (tool in left <==> tool in Unstale(counters, now, cfg.cleanupInterval))
        decreases |tools|
      {
        var tool :| tool in tools;
        if now - counters[tool].windowStart > cfg.cleanupInterval {
          left := left - {tool};
        }
        tools := tools - {tool};
      }
    }
  }

  /** A new limiter through any calls and cleanups, one after the other: it answers as the atomic limiter. */
  method Serve(cfg: Settings, events: seq<Event>) returns (answers: seq<Answer>)
    ensures answers == Answers(cfg, map[], events)
  {
    var limiter := new RateLimiter(cfg);
    answers := [];
    for i := 0 to |events|
      invariant fresh(limiter) && fresh(Counters(limiter.requestCounts))
      invariant limiter.Valid() && limiter.cfg == cfg
      invariant answers + Answers(cfg, limiter.Table(), events[i..]) == Answers(cfg, map[], events)
    {
      NextAnswer(cfg, limiter.Table(), events, i);
      var answer := limiter.Take(events[i]);
      answers := answers + answer;
    }
  }

  lemma NextAnswer(cfg: Settings, table: Table, events: seq<Event>, i: nat)
    requires i < |events|
    ensures Answers(cfg, table, events[i..])
         == AnswerTo(cfg, table, events[i]) + Answers(cfg, After(cfg, table, events[i]), events[i + 1..])
  {
    assert events[i..][1..] == events[i + 1..];
  }
}

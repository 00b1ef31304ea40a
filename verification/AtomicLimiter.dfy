/**
 The limiter with requests and cleanups taken one at a time, as a function of the table
 of windows. The class in RateLimiter.dfy is proved against these functions.
 */
module AtomicLimiter {
  import opened FixedWindow

  /** The windows kept, by key; the two levels of `requestCounts` flattened to one. */
  type Table = map<Key, Window>

  /** A call reads the clock twice: in getCounter (used only to make a new counter) and after locking it. */
  datatype Event = Call(key: Key, fetched: int, now: int) | CleanupAt(now: int)

  datatype Answer = Answer(key: Key, accepted: bool)

  /** The window a call works on before it looks at the clock. */
  function Lookup(table: Table, key: Key, fetched: int): Window {
    if key in table then table[key] else Window(0, fetched)
  }

  function Admit(cfg: Settings, w: Window, tool: string, now: int): Answered {
    var rolled := Roll(w, now, cfg.windowSize);
    if rolled.count >= cfg.Limit(tool) then Answered(rolled, false)
    else Answered(rolled.(count := rolled.count + 1), true)
  }

  datatype Answered = Answered(window: Window, accepted: bool)

  function AfterCall(cfg: Settings, table: Table, key: Key, fetched: int, now: int): Table {
    table[key := Admit(cfg, Lookup(table, key, fetched), key.tool, now).window]
  }

  function Accepts(cfg: Settings, table: Table, key: Key, fetched: int, now: int): bool {
    Admit(cfg, Lookup(table, key, fetched), key.tool, now).accepted
  }

  function AfterCleanup(cfg: Settings, table: Table, now: int): Table {
    map key | key in table && !Stale(table[key], now, cfg.cleanupInterval) :: table[key]
  }

  function After(cfg: Settings, table: Table, e: Event): Table {
    match e
    case Call(key, fetched, now) => AfterCall(cfg, table, key, fetched, now)
    case CleanupAt(now) => AfterCleanup(cfg, table, now)
  }

  /** The answer an event gets, if it is a call. */
  function AnswerTo(cfg: Settings, table: Table, e: Event): seq<Answer> {
    match e
    case Call(key, fetched, now) => [Answer(key, Accepts(cfg, table, key, fetched, now))]
    case CleanupAt(_) => []
  }

  /** The answers given to the calls of a run, in order. */
  function Answers(cfg: Settings, table: Table, events: seq<Event>): seq<Answer>
    decreases |events|
  {
    if events == [] then []
    else
      var e := events[0];
      var rest := Answers(cfg, After(cfg, table, e), events[1..]);
      if e.Call? then [Answer(e.key, Accepts(cfg, table, e.key, e.fetched, e.now))] + rest else rest
  }

  /** The table after a run. */
  function AfterAll(cfg: Settings, table: Table, events: seq<Event>): Table
    decreases |events|
  {
    if events == [] then table else AfterAll(cfg, After(cfg, table, events[0]), events[1..])
  }

  /** One more event: one more answer, if it is a call. */
  lemma {:induction false} AnswersAppend(cfg: Settings, table: Table, events: seq<Event>, e: Event)
    ensures AfterAll(cfg, table, events + [e]) == After(cfg, AfterAll(cfg, table, events), e)
    ensures Answers(cfg, table, events + [e])
         == Answers(cfg, table, events) + AnswerTo(cfg, AfterAll(cfg, table, events), e)
    decreases |events|
  {
    if events == [] {
      assert [e][1..] == [] && [] + [e] == [e];
    } else {
      AnswersAppend(cfg, After(cfg, table, events[0]), events[1..], e);
      assert (events + [e])[1..] == events[1..] + [e];
    }
  }

  // ---------- Keys do not influence each other ----------

  /** The calls on one key, and all cleanups. */
  function Project(events: seq<Event>, key: Key): seq<Event> {
    if events == [] then []
    else if events[0].Call? && events[0].key != key then Project(events[1..], key)
    else [events[0]] + Project(events[1..], key)
  }

  function AnswersOn(answers: seq<Answer>, key: Key): seq<Answer> {
    if answers == [] then []
    else if answers[0].key == key then [answers[0]] + AnswersOn(answers[1..], key)
    else AnswersOn(answers[1..], key)
  }

  /** Projecting and picking go event by event and answer by answer, and drop what is of other keys alone. */
  lemma {:induction false} ProjectAppend(events: seq<Event>, e: Event, key: Key)
    ensures Project(events + [e], key)
         == Project(events, key) + if e.Call? && e.key != key then [] else [e]
  {
    if events == [] {
      assert [e][1..] == [] && [] + [e] == [e];
    } else {
      ProjectAppend(events[1..], e, key);
      assert (events + [e])[1..] == events[1..] + [e];
    }
  }

  lemma {:induction false} AnswersOnAppend(answers: seq<Answer>, answer: Answer, key: Key)
    ensures AnswersOn(answers + [answer], key) == AnswersOn(answers, key) + if answer.key == key then [answer] else []
  {
    if answers == [] {
      assert [answer][1..] == [] && [] + [answer] == [answer];
    } else {
      AnswersOnAppend(answers[1..], answer, key);
      assert (answers + [answer])[1..] == answers[1..] + [answer];
    }
  }

  predicate AgreeOn(a: Table, b: Table, key: Key) {
    (key in a <==> key in b) && (key in a ==> a[key] == b[key])
  }

  /** The answers on a key are those of the run cut down to that key and the cleanups. */
  lemma {:induction false} KeyIsolation(cfg: Settings, a: Table, b: Table, events: seq<Event>, key: Key)
    requires AgreeOn(a, b, key)
    ensures AnswersOn(Answers(cfg, a, events), key) == Answers(cfg, b, Project(events, key))
    decreases |events|
  {
    if events != [] {
      var e := events[0];
      var rest := Answers(cfg, After(cfg, a, e), events[1..]);
      if e.Call? && e.key != key {
        KeyIsolation(cfg, After(cfg, a, e), b, events[1..], key);
        assert Answers(cfg, a, events)[1..] == rest;
      } else {
        KeyIsolation(cfg, After(cfg, a, e), After(cfg, b, e), events[1..], key);
        assert Project(events, key)[1..] == Project(events[1..], key);
        if e.Call? {
          assert Answers(cfg, a, events)[1..] == rest;
        } else {
          assert Answers(cfg, a, events) == rest;
        }
      }
    }
  }

  // ---------- Cleanup does not show ----------

  function WithoutCleanups(events: seq<Event>): seq<Event> {
    if events == [] then []
    else if events[0].Call? then [events[0]] + WithoutCleanups(events[1..])
    else WithoutCleanups(events[1..])
  }

  /** The clock never runs backwards. */
  predicate Timely(from: int, events: seq<Event>)
    decreases |events|
  {
    events == [] ||
    match events[0]
    case Call(_, fetched, now) => from <= fetched <= now && Timely(now, events[1..])
    case CleanupAt(now) => from <= now && Timely(now, events[1..])
  }

  /** Between its two clock readings no call lets a positive time shorter than the window pass. */
  predicate NoPartialGap(cfg: Settings, events: seq<Event>) {
    forall i :: 0 <= i < |events| && events[i].Call? ==>
      events[i].now == events[i].fetched || events[i].now - events[i].fetched >= cfg.windowSize
  }

  /** `kept` is the table of a limiter that never cleans up: a window it has and `swept` lacks has expired. */
  ghost predicate Simulates(cfg: Settings, swept: Table, kept: Table, now: int) {
    && (forall key :: key in swept ==> key in kept && swept[key] == kept[key])
    && (forall key :: key in kept ==> kept[key].start <= now)
    && (forall key :: key in kept && key !in swept ==> kept[key].start + cfg.windowSize <= now)
  }

  lemma CallSimulates(cfg: Settings, swept: Table, kept: Table, from: int, e: Event)
    requires Simulates(cfg, swept, kept, from) && e.Call? && from <= e.fetched <= e.now
    requires e.now == e.fetched || e.now - e.fetched >= cfg.windowSize
    ensures Accepts(cfg, swept, e.key, e.fetched, e.now) == Accepts(cfg, kept, e.key, e.fetched, e.now)
    ensures Simulates(cfg, After(cfg, swept, e), After(cfg, kept, e), e.now)
  {
    if e.key in kept && e.key !in swept {
      assert Roll(kept[e.key], e.now, cfg.windowSize) == Window(0, e.now);
    }
  }

  lemma CleanupSimulates(cfg: Settings, swept: Table, kept: Table, from: int, now: int)
    requires Simulates(cfg, swept, kept, from) && from <= now
    requires DropsOnlyExpired(cfg)
    ensures Simulates(cfg, AfterCleanup(cfg, swept, now), kept, now)
  {
  }

  lemma {:induction false} CleanupInvisibleFrom(
    cfg: Settings, swept: Table, kept: Table, from: int, events: seq<Event>)
    requires Simulates(cfg, swept, kept, from)
    requires Timely(from, events) && NoPartialGap(cfg, events) && DropsOnlyExpired(cfg)
    ensures Answers(cfg, swept, events) == Answers(cfg, kept, WithoutCleanups(events))
    decreases |events|
  {
    if events != [] {
      var e := events[0];
      if e.Call? {
        CallSimulates(cfg, swept, kept, from, e);
        CleanupInvisibleFrom(cfg, After(cfg, swept, e), After(cfg, kept, e), e.now, events[1..]);
        assert WithoutCleanups(events)[1..] == WithoutCleanups(events[1..]);
      } else {
        CleanupSimulates(cfg, swept, kept, from, e.now);
        CleanupInvisibleFrom(cfg, After(cfg, swept, e), kept, e.now, events[1..]);
        assert WithoutCleanups(events) == WithoutCleanups(events[1..]);
      }
    }
  }

  /** Inserting cleanups anywhere in a run changes no answer. */
  ghost predicate Invisible(cfg: Settings, events: seq<Event>) {
    Answers(cfg, map[], events) == Answers(cfg, map[], WithoutCleanups(events))
  }

  lemma CleanupInvisible(cfg: Settings, from: int, events: seq<Event>)
    requires DropsOnlyExpired(cfg)
    requires Timely(from, events) && NoPartialGap(cfg, events)
    ensures Invisible(cfg, events)
  {
    CleanupInvisibleFrom(cfg, map[], map[], from, events);
  }

  // ---------- and where it does ----------

  /** Calls that take no time. */
  predicate Instant(events: seq<Event>) {
    forall i :: 0 <= i < |events| && events[i].Call? ==> events[i].now == events[i].fetched
  }

  function Calls(key: Key, now: int, n: nat): seq<Event> {
    if n == 0 then [] else [Call(key, now, now)] + Calls(key, now, n - 1)
  }

  lemma {:induction false} CallsShape(key: Key, now: int, n: nat, tail: seq<Event>)
    ensures forall i :: 0 <= i < |Calls(key, now, n)| ==> Calls(key, now, n)[i] == Call(key, now, now)
    ensures WithoutCleanups(Calls(key, now, n) + tail) == Calls(key, now, n) + WithoutCleanups(tail)
    ensures Timely(now, tail) ==> Timely(now, Calls(key, now, n) + tail)
  {
    if n == 0 {
      assert [] + tail == tail;
      assert [] + WithoutCleanups(tail) == WithoutCleanups(tail);
    } else {
      CallsShape(key, now, n - 1, tail);
      assert (Calls(key, now, n) + tail)[1..] == Calls(key, now, n - 1) + tail;
      assert [Call(key, now, now)] + (Calls(key, now, n - 1) + WithoutCleanups(tail))
          == Calls(key, now, n) + WithoutCleanups(tail);
    }
  }

  function Acceptances(key: Key, n: nat): (answers: seq<Answer>)
    ensures |answers| == n
  {
    if n == 0 then [] else [Answer(key, true)] + Acceptances(key, n - 1)
  }

  lemma OneCallFills(cfg: Settings, table: Table, key: Key, now: int, events: seq<Event>)
    requires key in table && now - table[key].start < cfg.windowSize && table[key].count < cfg.Limit(key.tool)
    ensures Answers(cfg, table, [Call(key, now, now)] + events)
         == [Answer(key, true)] + Answers(cfg, table[key := Window(table[key].count + 1, table[key].start)], events)
  {
    assert ([Call(key, now, now)] + events)[1..] == events;
    assert AfterCall(cfg, table, key, now, now) == table[key := Window(table[key].count + 1, table[key].start)];
  }

  lemma CallsJoin(key: Key, now: int, n: nat, tail: seq<Event>, answers: seq<Answer>)
    requires n > 0
    ensures Calls(key, now, n) + tail == [Call(key, now, now)] + (Calls(key, now, n - 1) + tail)
    ensures Acceptances(key, n) + answers == [Answer(key, true)] + (Acceptances(key, n - 1) + answers)
  {
  }

  /** The table with `n` more requests of the key counted. */
  function Filled(table: Table, key: Key, n: nat): Table
    requires key in table
  {
    table[key := Window(table[key].count + n, table[key].start)]
  }

  lemma FilledTwice(table: Table, key: Key, n: nat)
    requires key in table && n > 0
    ensures Filled(Filled(table, key, 1), key, n - 1) == Filled(table, key, n)
    ensures Filled(table, key, 0) == table
  {
  }

  /** Calls within an open window that still has room for all of them are all accepted. */
  lemma {:induction false} CallsFill(cfg: Settings, table: Table, key: Key, now: int, n: nat, tail: seq<Event>)
    requires key in table && now - table[key].start < cfg.windowSize
    requires table[key].count + n <= cfg.Limit(key.tool)
    ensures Answers(cfg, table, Calls(key, now, n) + tail)
         == Acceptances(key, n) + Answers(cfg, Filled(table, key, n), tail)
    decreases n
  {
    if n == 0 {
      assert Calls(key, now, n) + tail == tail && Filled(table, key, 0) == table;
      assert Acceptances(key, n) + Answers(cfg, table, tail) == Answers(cfg, table, tail);
    } else {
      FilledTwice(table, key, n);
      CallsFill(cfg, Filled(table, key, 1), key, now, n - 1, tail);
      OneCallFills(cfg, table, key, now, Calls(key, now, n - 1) + tail);
      CallsJoin(key, now, n, tail, Answers(cfg, Filled(table, key, n), tail));
    }
  }

  ghost predicate AcceptsSomething(cfg: Settings) {
    exists tool :: cfg.Limit(tool) > 0
  }

  predicate CountsNonNegative(table: Table) {
    forall key :: key in table ==> table[key].count >= 0
  }

  lemma {:induction false} NothingAccepted(cfg: Settings, a: Table, b: Table, events: seq<Event>)
    requires !AcceptsSomething(cfg) && CountsNonNegative(a) && CountsNonNegative(b)
    ensures Answers(cfg, a, events) == Answers(cfg, b, WithoutCleanups(events))
    decreases |events|
  {
    if events != [] {
      var e := events[0];
      if e.Call? {
        assert cfg.Limit(e.key.tool) <= 0;
        NothingAccepted(cfg, After(cfg, a, e), After(cfg, b, e), events[1..]);
        assert WithoutCleanups(events)[1..] == WithoutCleanups(events[1..]);
      } else {
        NothingAccepted(cfg, After(cfg, a, e), b, events[1..]);
        assert WithoutCleanups(events) == WithoutCleanups(events[1..]);
      }
    }
  }

  /** Fill a window, clean it up while it is open, and call once more. */
  function FillSweepCall(key: Key, limit: int, age: nat): seq<Event>
    requires limit > 0
  {
    [Call(key, 0, 0)] + (Calls(key, 0, limit - 1) + [CleanupAt(age), Call(key, age, age)])
  }

  lemma FillSweepCallShape(key: Key, limit: int, age: nat)
    requires limit > 0
    ensures Timely(0, FillSweepCall(key, limit, age)) && Instant(FillSweepCall(key, limit, age))
    ensures WithoutCleanups(FillSweepCall(key, limit, age))
         == [Call(key, 0, 0)] + (Calls(key, 0, limit - 1) + [Call(key, age, age)])
  {
    var last := [Call(key, age, age)];
    var tail := [CleanupAt(age), Call(key, age, age)];
    var events := FillSweepCall(key, limit, age);
    assert tail[1..] == last && last[1..] == [];
    assert WithoutCleanups(tail) == WithoutCleanups(last) == last;
    assert Timely(0, tail);
    CallsShape(key, 0, limit - 1, tail);
    assert events[1..] == Calls(key, 0, limit - 1) + tail;
  }

  /** After the first call at 0 and `limit - 1` more, the answers are those to the tail with the window full. */
  lemma FilledAnswers(cfg: Settings, key: Key, tail: seq<Event>)
    requires cfg.Limit(key.tool) > 0 && cfg.windowSize > 0
    ensures var limit := cfg.Limit(key.tool);
            Answers(cfg, map[], [Call(key, 0, 0)] + (Calls(key, 0, limit - 1) + tail)) ==
            [Answer(key, true)] + (Acceptances(key, limit - 1) + Answers(cfg, map[key := Window(limit, 0)], tail))
  {
    var limit, one: Table := cfg.Limit(key.tool), map[key := Window(1, 0)];
    var rest := Calls(key, 0, limit - 1) + tail;
    assert AfterCall(cfg, map[], key, 0, 0) == one;
    assert ([Call(key, 0, 0)] + rest)[1..] == rest;
    assert one[key := Window(limit, 0)] == map[key := Window(limit, 0)];
    CallsFill(cfg, one, key, 0, limit - 1, tail);
  }

  /** A full window refuses a call that comes while it is open, and cannot if it has been swept away. */
  lemma LastAnswers(cfg: Settings, key: Key, age: nat)
    requires cfg.Limit(key.tool) > 0 && cfg.cleanupInterval < age < cfg.windowSize
    ensures var full: Table := map[key := Window(cfg.Limit(key.tool), 0)];
            && Answers(cfg, full, [Call(key, age, age)]) == [Answer(key, false)]
            && Answers(cfg, full, [CleanupAt(age), Call(key, age, age)]) == [Answer(key, true)]
  {
    var full: Table := map[key := Window(cfg.Limit(key.tool), 0)];
    var last, tail := [Call(key, age, age)], [CleanupAt(age), Call(key, age, age)];
    assert tail[1..] == last && last[1..] == [];
    assert AfterCleanup(cfg, full, age) == map[];
    assert Answers(cfg, full, tail) == Answers(cfg, map[], last);
    assert Accepts(cfg, map[], key, age, age);
  }

  lemma OpenWindowSweptShows(cfg: Settings, key: Key, age: nat)
    requires cfg.Limit(key.tool) > 0 && cfg.cleanupInterval < age < cfg.windowSize
    ensures !Invisible(cfg, FillSweepCall(key, cfg.Limit(key.tool), age))
  {
    var events := FillSweepCall(key, cfg.Limit(key.tool), age);
    FillSweepCallShape(key, cfg.Limit(key.tool), age);
    FilledAnswers(cfg, key, [CleanupAt(age), Call(key, age, age)]);
    FilledAnswers(cfg, key, [Call(key, age, age)]);
    LastAnswers(cfg, key, age);
    var a, b := Answers(cfg, map[], events), Answers(cfg, map[], WithoutCleanups(events));
    assert a[|a| - 1] == Answer(key, true) && b[|b| - 1] == Answer(key, false);
  }

  lemma OpenWindowSwept(cfg: Settings) returns (events: seq<Event>)
    requires !DropsOnlyExpired(cfg) && AcceptsSomething(cfg)
    ensures Timely(0, events) && Instant(events) && !Invisible(cfg, events)
  {
    var tool :| cfg.Limit(tool) > 0;
    var age := if cfg.cleanupInterval < 0 then 0 else cfg.cleanupInterval + 1;
    events := FillSweepCall(Key("", tool), cfg.Limit(tool), age);
    FillSweepCallShape(Key("", tool), cfg.Limit(tool), age);
    OpenWindowSweptShows(cfg, Key("", tool), age);
  }

  ghost predicate AlwaysInvisible(cfg: Settings) {
    forall from, events :: Timely(from, events) && Instant(events) ==> Invisible(cfg, events)
  }

  /** For calls that take no time: cleanups never show, whatever the run, exactly when cleanup cannot
      drop a window that is still open, or no tool is ever let through. */
  lemma CleanupInvisibleIff(cfg: Settings)
    ensures AlwaysInvisible(cfg) <==> DropsOnlyExpired(cfg) || !AcceptsSomething(cfg)
  {
    if !DropsOnlyExpired(cfg) && AcceptsSomething(cfg) {
      var events := OpenWindowSwept(cfg);
      assert Timely(0, events) && Instant(events) && !Invisible(cfg, events);
    } else {
      forall from, events | Timely(from, events) && Instant(events)
        ensures Invisible(cfg, events)
      {
        if AcceptsSomething(cfg) {
          CleanupInvisibleFrom(cfg, map[], map[], from, events);
        } else {
          NothingAccepted(cfg, map[], map[], events);
        }
      }
    }
  }

  /** Fill a window opened at `now` but for one call, and call once more at `late`. */
  function FillAndCall(key: Key, now: int, limit: int, late: int): seq<Event>
    requires limit > 0
  {
    Calls(key, now, limit - 1) + [Call(key, late, late)]
  }

  /** The last answer depends on when the window was opened. */
  lemma FillAndCallAnswers(cfg: Settings, key: Key, start: int, now: int, late: int)
    requires cfg.Limit(key.tool) > 0 && start <= now < start + cfg.windowSize
    ensures Answers(cfg, map[key := Window(1, start)], FillAndCall(key, now, cfg.Limit(key.tool), late))
         == Acceptances(key, cfg.Limit(key.tool) - 1) + [Answer(key, late - start >= cfg.windowSize)]
  {
    var limit, last := cfg.Limit(key.tool), [Call(key, late, late)];
    var table: Table := map[key := Window(1, start)];
    CallsFill(cfg, table, key, now, limit - 1, last);
    assert table[key := Window(1 + (limit - 1), start)] == map[key := Window(limit, start)];
    assert last[1..] == [];
  }

  /** Make a counter, let cleanup drop it, make it anew with a call that takes `gap` to lock it, fill the
      new window, and call once the counter made in getCounter is a full window old. */
  function RemakeSlowly(cfg: Settings, key: Key, gap: nat): seq<Event>
    requires cfg.Limit(key.tool) > 0
  {
    var made := cfg.cleanupInterval + 1;
    [Call(key, 0, 0)] + ([CleanupAt(made)] + ([Call(key, made, made + gap)]
      + FillAndCall(key, made + gap, cfg.Limit(key.tool), made + cfg.windowSize)))
  }

  lemma RemakeSlowlyShape(cfg: Settings, key: Key, gap: nat)
    requires 0 < gap < cfg.windowSize <= cfg.cleanupInterval + 1 && cfg.Limit(key.tool) > 0
    ensures Timely(0, RemakeSlowly(cfg, key, gap))
    ensures WithoutCleanups(RemakeSlowly(cfg, key, gap))
         == [Call(key, 0, 0)] + RemakeSlowly(cfg, key, gap)[2..]
  {
    var made := cfg.cleanupInterval + 1;
    var fill := FillAndCall(key, made + gap, cfg.Limit(key.tool), made + cfg.windowSize);
    var last := [Call(key, made + cfg.windowSize, made + cfg.windowSize)];
    assert last[1..] == [];
    assert WithoutCleanups(last) == [last[0]] + WithoutCleanups(last[1..]);
    assert Timely(made + gap, last);
    CallsShape(key, made + gap, cfg.Limit(key.tool) - 1, last);
    assert WithoutCleanups(fill) == fill && Timely(made + gap, fill);
    var third := [Call(key, made, made + gap)] + fill;
    assert third[1..] == fill;
    assert WithoutCleanups(third) == third && Timely(made, third);
    var second := [CleanupAt(made)] + third;
    assert second[1..] == third;
    assert WithoutCleanups(second) == third && Timely(0, second);
    assert RemakeSlowly(cfg, key, gap)[1..] == second && second[1..] == RemakeSlowly(cfg, key, gap)[2..];
  }

  /** A call that lets part of a window pass between its two clock readings makes cleanup show: the
      counter it makes is dated from the first reading, the one kept would be dated from the second. */
  lemma PartialGapShows(cfg: Settings, key: Key, gap: nat)
    requires 0 < gap < cfg.windowSize <= cfg.cleanupInterval + 1 && cfg.Limit(key.tool) > 0
    ensures Timely(0, RemakeSlowly(cfg, key, gap)) && !Invisible(cfg, RemakeSlowly(cfg, key, gap))
  {
    var limit, made := cfg.Limit(key.tool), cfg.cleanupInterval + 1;
    var locked, late := made + gap, made + cfg.windowSize;
    var fill := FillAndCall(key, locked, limit, late);
    var third := [Call(key, made, locked)] + fill;
    var second := [CleanupAt(made)] + third;
    RemakeSlowlyShape(cfg, key, gap);
    FillAndCallAnswers(cfg, key, made, locked, late);
    FillAndCallAnswers(cfg, key, locked, locked, late);
    assert third[1..] == fill && second[1..] == third;
    var first: Table := map[key := Window(1, 0)];
    assert AfterCall(cfg, map[], key, 0, 0) == first;
    assert AfterCleanup(cfg, first, made) == map[];
    assert AfterCall(cfg, map[], key, made, locked) == map[key := Window(1, made)];
    assert AfterCall(cfg, first, key, made, locked) == map[key := Window(1, locked)];
    assert Answers(cfg, first, second) == Answers(cfg, map[], third);
    var a, b := Answers(cfg, map[], third), Answers(cfg, first, third);
    assert a[limit] == Answer(key, true) && b[limit] == Answer(key, false);
    var events := RemakeSlowly(cfg, key, gap);
    assert events[1..] == second && events[2..] == third;
    assert WithoutCleanups(events)[1..] == third;
    assert Answers(cfg, map[], events)[1..] == a;
    assert Answers(cfg, map[], WithoutCleanups(events))[1..] == b;
  }

  ghost predicate AlwaysInvisibleSlow(cfg: Settings) {
    forall from, events :: Timely(from, events) ==> Invisible(cfg, events)
  }

  /** For calls that may take any time, that leaves only windows of at most a nanosecond. */
  lemma CleanupInvisibleSlowIff(cfg: Settings)
    ensures AlwaysInvisibleSlow(cfg) <==> (DropsOnlyExpired(cfg) && cfg.windowSize <= 1) || !AcceptsSomething(cfg)
  {
    if !AcceptsSomething(cfg) {
      forall from, events | Timely(from, events)
        ensures Invisible(cfg, events)
      {
        NothingAccepted(cfg, map[], map[], events);
      }
    } else if !DropsOnlyExpired(cfg) {
      var events := OpenWindowSwept(cfg);
      assert Timely(0, events) && !Invisible(cfg, events);
    } else if cfg.windowSize > 1 {
      var tool :| cfg.Limit(tool) > 0;
      PartialGapShows(cfg, Key("", tool), 1);
      var events := RemakeSlowly(cfg, Key("", tool), 1);
      assert Timely(0, events) && !Invisible(cfg, events);
    } else {
      forall from, events | Timely(from, events)
        ensures Invisible(cfg, events)
      {
        TimelyCalls(from, events);
        CleanupInvisible(cfg, from, events);
      }
    }
  }

  lemma {:induction false} TimelyCalls(from: int, events: seq<Event>)
    requires Timely(from, events)
    ensures forall i :: 0 <= i < |events| && events[i].Call? ==> events[i].fetched <= events[i].now
    decreases |events|
  {
    if events != [] {
      TimelyCalls(events[0].now, events[1..]);
    }
  }
}

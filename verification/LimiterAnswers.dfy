/**
 What a caller of the limiter sees, in terms of what the limiter was configured with: how many
 of the calls of one session and tool are let through, at one instant and at two.
 */
module LimiterAnswers {
  import opened FixedWindow
  import opened AtomicLimiter

  /** A tool's own limit if it has one, whatever the default, and else the default; none if that is negative. */
  predicate Configured(cfg: Settings, tool: string, quota: nat) {
    if tool in cfg.limits then quota == (if cfg.limits[tool] < 0 then 0 else cfg.limits[tool])
    else quota == (if cfg.defaultLimit < 0 then 0 else cfg.defaultLimit)
  }

  /** `n` answers, the first `quota` of them acceptances and the others refusals. */
  function Upto(key: Key, n: nat, quota: int): seq<Answer> {
    if n == 0 then [] else [Answer(key, quota > 0)] + Upto(key, n - 1, quota - 1)
  }

  lemma {:induction false} UptoExact(key: Key, n: nat, quota: int)
    ensures |Upto(key, n, quota)| == n
    ensures forall i :: 0 <= i < n ==> Upto(key, n, quota)[i] == Answer(key, i < quota)
  {
    if n > 0 {
      UptoExact(key, n - 1, quota - 1);
    }
  }

  lemma ConfiguredQuota(cfg: Settings, tool: string, quota: nat)
    requires Configured(cfg, tool, quota)
    ensures quota == cfg.Quota(tool)
    ensures cfg.Limit(tool) <= 0 ==> quota == 0
    ensures cfg.Limit(tool) > 0 ==> quota == cfg.Limit(tool)
  {
  }

  /** The table after `n` calls within the window open there. */
  function Worked(cfg: Settings, table: Table, key: Key, n: nat): Table
    requires key in table
  {
    var w, quota := table[key], cfg.Quota(key.tool);
    var count := if w.count + n <= quota then w.count + n else if w.count >= quota then w.count else quota;
    table[key := Window(count, w.start)]
  }

  lemma OneCall(cfg: Settings, table: Table, key: Key, now: int)
    requires key in table && now - table[key].start < cfg.windowSize && table[key].count >= 0
    ensures AfterCall(cfg, table, key, now, now) == Worked(cfg, table, key, 1)
    ensures Accepts(cfg, table, key, now, now) == (cfg.Quota(key.tool) - table[key].count > 0)
  {
  }

  lemma WorkedTwice(cfg: Settings, table: Table, key: Key, n: nat)
    requires key in table && n > 0 && table[key].count >= 0
    ensures Worked(cfg, Worked(cfg, table, key, 1), key, n - 1) == Worked(cfg, table, key, n)
    ensures Worked(cfg, table, key, 0) == table
  {
  }

  /** Calls within an open window are let through as long as there is room. */
  lemma {:induction false} WithinWindow(
    cfg: Settings, table: Table, key: Key, now: int, n: nat, tail: seq<Event>)
    requires key in table && now - table[key].start < cfg.windowSize && table[key].count >= 0
    ensures Answers(cfg, table, Calls(key, now, n) + tail)
         == Upto(key, n, cfg.Quota(key.tool) - table[key].count) + Answers(cfg, Worked(cfg, table, key, n), tail)
    decreases n
  {
    var room, last := cfg.Quota(key.tool) - table[key].count, Answers(cfg, Worked(cfg, table, key, n), tail);
    if n == 0 {
      assert Calls(key, now, 0) + tail == tail && Upto(key, 0, room) + last == last;
      assert Worked(cfg, table, key, 0) == table;
    } else {
      OneCall(cfg, table, key, now);
      WorkedTwice(cfg, table, key, n);
      var table' := Worked(cfg, table, key, 1);
      WithinWindow(cfg, table', key, now, n - 1, tail);
      assert cfg.Quota(key.tool) - table'[key].count == if room > 0 then room - 1 else room;
      if room <= 0 {
        NoRoom(key, n - 1, room - 1, room);
      }
      FirstCall(cfg, table, key, now, n, tail);
      UptoJoin(key, n, room, last);
    }
  }

  lemma UptoJoin(key: Key, n: nat, room: int, last: seq<Answer>)
    requires n > 0
    ensures Upto(key, n, room) + last == [Answer(key, room > 0)] + (Upto(key, n - 1, room - 1) + last)
  {
  }

  lemma FirstCall(cfg: Settings, table: Table, key: Key, now: int, n: nat, tail: seq<Event>)
    requires n > 0
    ensures Answers(cfg, table, Calls(key, now, n) + tail)
         == [Answer(key, Accepts(cfg, table, key, now, now))]
            + Answers(cfg, AfterCall(cfg, table, key, now, now), Calls(key, now, n - 1) + tail)
  {
    var rest := Calls(key, now, n - 1) + tail;
    assert Calls(key, now, n) + tail == [Call(key, now, now)] + rest;
    assert ([Call(key, now, now)] + rest)[1..] == rest;
  }

  lemma {:induction false} NoRoom(key: Key, n: nat, a: int, b: int)
    requires a <= 0 && b <= 0
    ensures Upto(key, n, a) == Upto(key, n, b)
  {
    if n > 0 {
      NoRoom(key, n - 1, a - 1, b - 1);
    }
  }

  /** A call that finds no window, or an expired one, works on a new one. */
  lemma NewWindow(cfg: Settings, table: Table, key: Key, now: int, n: nat, tail: seq<Event>)
    requires n > 0 && (key in table ==> now - table[key].start >= cfg.windowSize)
    ensures Answers(cfg, table, Calls(key, now, n) + tail)
         == Answers(cfg, table[key := Window(0, now)], Calls(key, now, n) + tail)
  {
    var fresh0 := table[key := Window(0, now)];
    assert AfterCall(cfg, table, key, now, now) == AfterCall(cfg, fresh0, key, now, now);
    FirstCall(cfg, table, key, now, n, tail);
    FirstCall(cfg, fresh0, key, now, n, tail);
  }

  // ---------- Main results ----------

  /** Of any number of calls of one session and tool at one instant, on a limiter that has not seen the pair
      before, exactly the first so many are let through as the tool's own limit says if it has one, and
      else the default. */
  lemma OneBurst(cfg: Settings, key: Key, now: int, n: nat, quota: nat)
    requires cfg.windowSize > 0 && Configured(cfg, key.tool, quota)
    ensures Answers(cfg, map[], Calls(key, now, n)) == Upto(key, n, quota)
  {
    ConfiguredQuota(cfg, key.tool, quota);
    assert Calls(key, now, n) + [] == Calls(key, now, n);
    if n > 0 {
      NewWindow(cfg, map[], key, now, n, []);
      WithinWindow(cfg, map[key := Window(0, now)], key, now, n, []);
      assert Upto(key, n, quota) + [] == Upto(key, n, quota);
    }
  }

  /** If more calls follow, the window's room is what the first calls have left of it, until the window size
      has passed since the first; from then on all of it is there again. */
  lemma TwoBursts(cfg: Settings, key: Key, now: int, n: nat, later: int, m: nat, quota: nat)
    requires cfg.windowSize > 0 && Configured(cfg, key.tool, quota) && n > 0 && now <= later
    ensures Answers(cfg, map[], Calls(key, now, n) + Calls(key, later, m))
         == Upto(key, n, quota)
            + Upto(key, m, if later - now >= cfg.windowSize then quota else if n <= quota then quota - n else 0)
  {
    ConfiguredQuota(cfg, key.tool, quota);
    var second := Calls(key, later, m);
    var table := Worked(cfg, map[key := Window(0, now)], key, n);
    NewWindow(cfg, map[], key, now, n, second);
    WithinWindow(cfg, map[key := Window(0, now)], key, now, n, second);
    SecondBurst(cfg, table, key, later, m);
    assert table[key] == Window(if n <= quota then n else quota, now);
  }

  lemma SecondBurst(cfg: Settings, table: Table, key: Key, later: int, m: nat)
    requires cfg.windowSize > 0 && key in table && table[key].count >= 0
    ensures Answers(cfg, table, Calls(key, later, m))
         == Upto(key, m, if later - table[key].start >= cfg.windowSize then cfg.Quota(key.tool)
                         else cfg.Quota(key.tool) - table[key].count)
  {
    var calls := Calls(key, later, m);
    assert calls + [] == calls;
    if m > 0 {
      if later - table[key].start >= cfg.windowSize {
        NewWindow(cfg, table, key, later, m, []);
        WithinWindow(cfg, table[key := Window(0, later)], key, later, m, []);
        assert Upto(key, m, cfg.Quota(key.tool)) + [] == Upto(key, m, cfg.Quota(key.tool));
      } else {
        WithinWindow(cfg, table, key, later, m, []);
        var room := cfg.Quota(key.tool) - table[key].count;
        assert Upto(key, m, room) + [] == Upto(key, m, room);
      }
    }
  }
}

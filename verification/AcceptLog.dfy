/**
 The accepted requests of a run, how many of them match a query, and how a bound on windows
 becomes one on stretches of time.
 */
module AcceptLog {
  import opened FixedWindow

  /** One accepted request: which counter object took it, in the window opened when, at what clock reading. */
  datatype Accept = Accept(key: Key, counter: nat, window: int, stamp: int)

  /** Which requests are meant: those of a key, on a counter object, or of a key on the first so many objects. */
  datatype Scope = OfKey(key: Key) | OnObject(counter: nat) | OnFirst(key: Key, objects: nat)

  predicate In(scope: Scope, e: Accept) {
    match scope
    case OfKey(key) => e.key == key
    case OnObject(counter) => e.counter == counter
    case OnFirst(key, objects) => e.key == key && e.counter < objects
  }

  datatype Query =
    | OnCounter(counter: nat)
    | OnCounterSince(counter: nat, from: int)
    | InWindow(scope: Scope, window: int)
    | WindowsIn(scope: Scope, after: int, upTo: int)
    | StampsIn(scope: Scope, from: int, before: int)

  predicate Matches(q: Query, e: Accept) {
    match q
    case OnCounter(counter) => e.counter == counter
    case OnCounterSince(counter, from) => e.counter == counter && from <= e.stamp
    case InWindow(scope, window) => In(scope, e) && e.window == window
    case WindowsIn(scope, after, upTo) => In(scope, e) && after < e.window <= upTo
    case StampsIn(scope, from, before) => In(scope, e) && from <= e.stamp < before
  }

  function Count(log: seq<Accept>, q: Query): nat {
    if log == [] then 0
    else Count(log[..|log| - 1], q) + if Matches(q, log[|log| - 1]) then 1 else 0
  }

  lemma CountAppend(log: seq<Accept>, e: Accept, q: Query)
    ensures Count(log + [e], q) == Count(log, q) + if Matches(q, e) then 1 else 0
  {
    assert (log + [e])[..|log|] == log;
  }

  /** Entries that match one query match one of two others: the counts add up. */
  lemma {:induction false} CountCover(log: seq<Accept>, q: Query, q1: Query, q2: Query)
    requires forall e :: e in log && Matches(q, e) ==> Matches(q1, e) || Matches(q2, e)
    ensures Count(log, q) <= Count(log, q1) + Count(log, q2)
  {
    if log != [] {
      CountCover(log[..|log| - 1], q, q1, q2);
    }
  }

  lemma {:induction false} CountWithin(log: seq<Accept>, q: Query, q': Query)
    requires forall e :: e in log && Matches(q, e) ==> Matches(q', e)
    ensures Count(log, q) <= Count(log, q')
  {
    if log != [] {
      CountWithin(log[..|log| - 1], q, q');
    }
  }

  lemma {:induction false} CountSplit(log: seq<Accept>, n: nat, q: Query)
    requires n <= |log|
    ensures Count(log, q) == Count(log[..n], q) + Count(log[n..], q)
    decreases |log|
  {
    if n == |log| {
      assert log[..n] == log;
    } else {
      var last := |log| - 1;
      CountSplit(log[..last], n, q);
      assert log[..last][..n] == log[..n];
      assert log[..last][n..] == log[n..][..last - n];
    }
  }

  lemma {:induction false} CountNone(log: seq<Accept>, q: Query)
    requires forall e :: e in log ==> !Matches(q, e)
    ensures Count(log, q) == 0
  {
    if log != [] {
      CountNone(log[..|log| - 1], q);
    }
  }

  lemma {:induction false} CountSome(log: seq<Accept>, q: Query) returns (e: Accept)
    requires Count(log, q) > 0
    ensures e in log && Matches(q, e)
  {
    if Matches(q, log[|log| - 1]) {
      e := log[|log| - 1];
    } else {
      e := CountSome(log[..|log| - 1], q);
    }
  }

  lemma {:induction false} CountSame(log: seq<Accept>, q: Query, q': Query)
    requires forall i :: 0 <= i < |log| ==> (Matches(q, log[i]) <==> Matches(q', log[i]))
    ensures Count(log, q) == Count(log, q')
  {
    if log != [] {
      CountSame(log[..|log| - 1], q, q');
    }
  }

  // ---------- From windows to intervals ----------

  /** Windows of `w` in scope that accepted anything never overlap. */
  ghost predicate ApartIn(log: seq<Accept>, scope: Scope, w: int) {
    forall i, j :: 0 <= i < |log| && 0 <= j < |log| && In(scope, log[i]) && In(scope, log[j]) ==>
      || log[i].window == log[j].window
      || log[i].window + w <= log[j].window
      || log[j].window + w <= log[i].window
  }

  /** and accepted at most `quota` each. */
  ghost predicate WithinIn(log: seq<Accept>, scope: Scope, quota: nat) {
    forall i :: 0 <= i < |log| && In(scope, log[i]) ==> Count(log, InWindow(scope, log[i].window)) <= quota
  }

  lemma AppendElsewhere(log: seq<Accept>, e: Accept, scope: Scope, w: int, quota: nat)
    requires ApartIn(log, scope, w) && WithinIn(log, scope, quota) && !In(scope, e)
    ensures ApartIn(log + [e], scope, w) && WithinIn(log + [e], scope, quota)
  {
    forall i | 0 <= i < |log| && In(scope, log[i])
      ensures Count(log + [e], InWindow(scope, log[i].window)) <= quota
    {
      CountAppend(log, e, InWindow(scope, log[i].window));
    }
  }

  lemma AppendWithin(log: seq<Accept>, e: Accept, scope: Scope, quota: nat)
    requires WithinIn(log, scope, quota) && Count(log, InWindow(scope, e.window)) < quota
    ensures WithinIn(log + [e], scope, quota)
  {
    forall i | 0 <= i < |log + [e]| && In(scope, (log + [e])[i])
      ensures Count(log + [e], InWindow(scope, (log + [e])[i].window)) <= quota
    {
      CountAppend(log, e, InWindow(scope, (log + [e])[i].window));
    }
  }

  lemma AppendApart(log: seq<Accept>, e: Accept, scope: Scope, w: int)
    requires ApartIn(log, scope, w)
    requires In(scope, e) ==> forall i :: 0 <= i < |log| && In(scope, log[i]) ==>
               log[i].window == e.window || log[i].window + w <= e.window
    ensures ApartIn(log + [e], scope, w)
  {
  }

  /** A half-open stretch one window long contains the start of at most one window. */
  lemma OneWindow(log: seq<Accept>, scope: Scope, w: int, quota: nat, after: int, upTo: int)
    requires ApartIn(log, scope, w) && WithinIn(log, scope, quota) && upTo == after + w
    ensures Count(log, WindowsIn(scope, after, upTo)) <= quota
  {
    var q := WindowsIn(scope, after, upTo);
    if Count(log, q) > 0 {
      var e := CountSome(log, q);
      CountWithin(log, q, InWindow(scope, e.window));
    }
  }

  /** So a stretch `n` windows long contains windows with at most `n` quotas between them. */
  lemma {:induction false} ManyWindows(
    log: seq<Accept>, scope: Scope, w: int, quota: nat, after: int, upTo: int, n: nat)
    requires ApartIn(log, scope, w) && WithinIn(log, scope, quota) && upTo == after + n * w
    ensures Count(log, WindowsIn(scope, after, upTo)) <= n * quota
    decreases n
  {
    if n == 0 {
      CountNone(log, WindowsIn(scope, after, upTo));
    } else {
      var mid := upTo - w;
      OneMore(n - 1, w);
      OneMore(n - 1, quota);
      ManyWindows(log, scope, w, quota, after, mid, n - 1);
      OneWindow(log, scope, w, quota, mid, upTo);
      CountCover(log, WindowsIn(scope, after, upTo), WindowsIn(scope, after, mid), WindowsIn(scope, mid, upTo));
    }
  }

  lemma OneMore(k: nat, w: int)
    ensures (k + 1) * w == k * w + w
    ensures w <= 0 ==> k * w <= 0
    ensures w >= 0 ==> k * w >= 0
  {
  }

  /** An entry stamped in an interval lies in a window that starts less than one window before it. */
  lemma StampsInWindows(log: seq<Accept>, scope: Scope, after: int, from: int, before: int, w: int)
    requires forall i :: 0 <= i < |log| ==> log[i].window <= log[i].stamp < log[i].window + w
    requires from == after + w
    ensures Count(log, StampsIn(scope, from, before)) <= Count(log, WindowsIn(scope, after, before))
  {
    CountWithin(log, StampsIn(scope, from, before), WindowsIn(scope, after, before));
  }

  /** An interval `k` windows long sees at most `k + 1` quotas; the window size may be anything. */
  lemma SlidingStamps(log: seq<Accept>, scope: Scope, w: int, quota: nat, from: int, before: int, k: nat)
    requires w > 0 ==> ApartIn(log, scope, w) && WithinIn(log, scope, quota)
    requires w > 0 ==> forall i :: 0 <= i < |log| ==> log[i].window <= log[i].stamp < log[i].window + w
    requires before == from + k * w
    ensures Count(log, StampsIn(scope, from, before)) <= (k + 1) * quota
  {
    OneMore(k, w);
    OneMore(k + 1, quota);
    if w <= 0 {
      CountNone(log, StampsIn(scope, from, before));
    } else {
      StampsInWindows(log, scope, from - w, from, before, w);
      ManyWindows(log, scope, w, quota, from - w, before, k + 1);
    }
  }
}

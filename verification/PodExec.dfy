/**
 Bounds on a pod exec: the output buffer that keeps a prefix of what is written to it, and
 the timeout that is bounded whatever number a caller sends, int64 wrap-around included.
 */
module PodExec {

  import opened GoLibrary

  // ---------- The bounded buffer ----------

  function Concat(writes: seq<seq<byte>>): seq<byte> {
    if writes == [] then [] else Concat(writes[..|writes| - 1]) + writes[|writes| - 1]
  }

  /** The first `max` bytes, or all if there are fewer; none if `max` is negative. */
  function Prefix(s: seq<byte>, max: int): seq<byte> {
    if max <= 0 then [] else if |s| <= max then s else s[..max]
  }

  /** Some write found the buffer full, or did not fit. */
  predicate Overflows(writes: seq<seq<byte>>, max: int) {
    writes != [] &&
    var front := writes[..|writes| - 1];
    Overflows(front, max) || |Concat(front)| >= max || |Concat(writes)| > max
  }

  class BoundedBuffer {
    var buf: seq<byte>
    var remaining: int
    var truncated: bool
    ghost const max: int
    ghost var writes: seq<seq<byte>>  // everything ever written

    constructor (maxBytes: int)
      ensures Valid() && max == maxBytes && writes == []
    {
      buf, remaining, truncated := [], maxBytes, false;
      max, writes := maxBytes, [];
    }

    /** The buffer holds exactly the first `max` bytes written, and `truncated` says whether a write overflowed. */
    ghost predicate Valid()
      reads this
    {
      && buf == Prefix(Concat(writes), max)
      && |buf| + remaining == max
      && (truncated <==> Overflows(writes, max))
    }

    /** Reports all of `p` written, whatever becomes of it. */
    method Write(p: seq<byte>) returns (n: int)
      requires Valid()
      modifies this
      ensures Valid() && n == |p|
      ensures writes == old(writes) + [p]
      ensures buf == Prefix(Concat(old(writes)) + p, max) && |buf| + remaining == max
      ensures truncated == (old(truncated) || |Concat(old(writes))| >= max || |Concat(old(writes)) + p| > max)
    {
      ghost var before := writes;
      writes := writes + [p];
      ConcatAppend(before, p);
      assert writes[..|before|] == before;
      if remaining <= 0 {
        truncated := true;
        return |p|;
      }
      if |p| > remaining {
        buf := buf + p[..remaining];
        remaining := 0;
        truncated := true;
        return |p|;
      }
      buf := buf + p;
      remaining := remaining - |p|;
      return |p|;
    }
  }

  lemma ConcatAppend(writes: seq<seq<byte>>, p: seq<byte>)
    ensures Concat(writes + [p]) == Concat(writes) + p
  {
    assert (writes + [p])[..|writes|] == writes;
  }

  predicate FullAfter(writes: seq<seq<byte>>, n: nat, max: int)
    requires n <= |writes|
  {
    |Concat(writes[..n])| >= max
  }

  /** The buffer reports truncation exactly if more was written than fits, or an empty write came when it
      was already full; so when no write is empty, exactly if more was written than fits. */
  lemma {:induction false} TruncatedIff(writes: seq<seq<byte>>, max: int)
    ensures Overflows(writes, max) <==>
            (|Concat(writes)| > max && writes != []) ||
            exists i :: 0 <= i < |writes| && writes[i] == [] && FullAfter(writes, i, max)
    ensures max >= 0 && (forall i :: 0 <= i < |writes| ==> writes[i] != []) ==>
              (Overflows(writes, max) <==> |Concat(writes)| > max)
  {
    if writes != [] {
      var n := |writes| - 1;
      var front, p := writes[..n], writes[n];
      assert front + [p] == writes;
      TruncatedIff(front, max);
      assert forall i :: 0 <= i <= n ==> front[..i] == writes[..i];
      assert forall i :: 0 <= i <= n ==> (FullAfter(front, i, max) <==> FullAfter(writes, i, max));
    }
  }

  // ---------- The timeout ----------

  const SECOND: int := 1_000_000_000
  const DEFAULT_TIMEOUT: int := 15 * SECOND
  const MAX_TIMEOUT: int := 60 * SECOND

  const TWO_TO_THE_64: int := 0x1_0000_0000_0000_0000
  const TWO_TO_THE_63: int := 0x8000_0000_0000_0000
  const TWO_TO_THE_55: int := 0x80_0000_0000_0000

  /** What is left of an integer in 64 bits, two's complement. */
  function Wrap(x: int): (w: int)
    ensures IsInt64(w) && (x - w) % TWO_TO_THE_64 == 0
  {
    (x + TWO_TO_THE_63) % TWO_TO_THE_64 - TWO_TO_THE_63
  }

  /** The `timeout` field of a request body. A float is given by the int64 it converts to; a string by the
      duration it parses as, if it does; anything else is ignored. */
  datatype TimeoutField =
    | Absent
    | Seconds(t: int)
    | Duration(nanoseconds: int)
    | Ignored

  predicate WellTyped(field: TimeoutField) {
    match field
    case Seconds(t) => IsInt64(t)
    case Duration(nanoseconds) => IsInt64(nanoseconds)
    case _ => true
  }

  /** What a body asks for. */
  function Requested(field: TimeoutField): int {
    match field
    case Seconds(t) => Wrap(t * SECOND)
    case Duration(nanoseconds) => nanoseconds
    case _ => DEFAULT_TIMEOUT
  }

  /** What it gets: the default if it asks for nothing, or for less, and at most the maximum. */
  function Effective(requested: int): int {
    if requested <= 0 then DEFAULT_TIMEOUT
    else if requested > MAX_TIMEOUT then MAX_TIMEOUT
    else requested
  }

  /** What a caller who asks for `t` seconds means to get. */
  function Meant(t: int): int {
    if t <= 0 then DEFAULT_TIMEOUT
    else if t >= 60 then MAX_TIMEOUT
    else t * SECOND
  }

  /** The nanoseconds in `t` seconds, modulo two to the 64. */
  function Residue(t: int): int {
    (t * SECOND) % TWO_TO_THE_64
  }

  /** The numbers of seconds that are taken as meant. From a minute up, the residue has to be a minute at
      least and a positive int64. Up to zero, it has to be no positive int64, but for one stray case: when
      it is the default itself. In between all of them are. */
  predicate TakenAsMeant(t: int) {
    if t >= 60 then MAX_TIMEOUT <= Residue(t) < TWO_TO_THE_63
    else t > 0 || t % TWO_TO_THE_55 == 0 || Residue(t) >= TWO_TO_THE_63 || (15 - t) % TWO_TO_THE_55 == 0
  }

  /** handlePodExec: seconds are converted by an int64 multiplication. */
  method RequestedTimeout(field: TimeoutField) returns (timeout: int)
    requires WellTyped(field)
    ensures timeout == Requested(field) && IsInt64(timeout)
  {
    timeout := 15 * SECOND;
    match field {
      case Seconds(t) => timeout := Wrap(t * SECOND);
      case Duration(nanoseconds) => timeout := nanoseconds;
      case _ =>
    }
  }

  /** defaultExecInPod: the default if not positive, at most the maximum. */
  method EffectiveTimeout(requested: int) returns (timeout: int)
    ensures timeout == Effective(requested)
  {
    timeout := requested;
    if timeout <= 0 {
      timeout := 15 * SECOND;
    }
    if timeout > MAX_TIMEOUT {
      timeout := MAX_TIMEOUT;
    }
  }

  /** The whole way from a request body to the time its command may run: more than nothing, at most a
      minute, and what was meant exactly for the numbers of seconds that are taken as meant. */
  method ExecTimeout(field: TimeoutField) returns (timeout: int)
    requires WellTyped(field)
    ensures 0 < timeout <= MAX_TIMEOUT
    ensures field.Seconds? ==> (timeout == Meant(field.t) <==> TakenAsMeant(field.t))
    ensures field.Seconds? && 0 < Residue(field.t) <= MAX_TIMEOUT ==> timeout == Residue(field.t)
    ensures field.Duration? && 0 < field.nanoseconds ==>
              timeout <= field.nanoseconds && (timeout == field.nanoseconds || timeout == MAX_TIMEOUT)
    ensures field.Absent? || field.Ignored? || (field.Duration? && field.nanoseconds <= 0) ==> timeout == 15 * SECOND
  {
    var requested := RequestedTimeout(field);
    timeout := EffectiveTimeout(requested);
    if field.Seconds? {
      AsMeantIff(field.t);
    }
  }

  /** Whatever a body says, its command runs for more than nothing and at most a minute. */
  lemma TimeoutBounded(field: TimeoutField)
    requires WellTyped(field)
    ensures 0 < Effective(Requested(field)) <= MAX_TIMEOUT
  {
  }

  lemma ModIs(x: int, q: int, r: int, n: int)
    requires n > 0 && x == q * n + r && 0 <= r < n
    ensures x % n == r
  {
    var d := q - x / n;
    assert d * n == x % n - r;
    Multiples(d, n);
  }

  lemma Multiples(d: int, n: int)
    requires n > 0
    ensures d > 0 ==> d * n >= n
    ensures d < 0 ==> d * n <= -n
  {
  }

  /** A second has 2^9 times an odd number of nanoseconds, so whole seconds are a multiple of 2^64
      nanoseconds only if they are a multiple of 2^55 themselves. */
  lemma WholeTurns(m: int)
    ensures (m * SECOND) % TWO_TO_THE_64 == 0 <==> m % TWO_TO_THE_55 == 0
  {
    if (m * SECOND) % TWO_TO_THE_64 == 0 {
      var q := (m * SECOND) / TWO_TO_THE_64;
      assert m * 1953125 == q * TWO_TO_THE_55;
      assert 1953125 * 20211507185753197 == 1 + 1095668 * TWO_TO_THE_55;
      ModIs(m, q * 20211507185753197 - m * 1095668, 0, TWO_TO_THE_55);
    }
    if m % TWO_TO_THE_55 == 0 {
      ModIs(m * SECOND, m / TWO_TO_THE_55 * 1953125, 0, TWO_TO_THE_64);
    }
  }

  lemma SameResidue(x: int, d: int, n: int)
    requires 0 <= d < n
    ensures x % n == d <==> (d - x) % n == 0
  {
    if x % n == d {
      ModIs(d - x, -(x / n), 0, n);
    }
    if (d - x) % n == 0 {
      ModIs(x, -((d - x) / n), d, n);
    }
  }

  /** The stray case: the residue is the default exactly at every 2^55th second from 15 on, and back. */
  lemma DefaultResidue(t: int)
    ensures Residue(t) == DEFAULT_TIMEOUT <==> (15 - t) % TWO_TO_THE_55 == 0
  {
    SameResidue(t * SECOND, DEFAULT_TIMEOUT, TWO_TO_THE_64);
    WholeTurns(15 - t);
    assert (15 - t) * SECOND == DEFAULT_TIMEOUT - t * SECOND;
  }

  lemma WrapMod(x: int)
    ensures var r := x % TWO_TO_THE_64; Wrap(x) == if r < TWO_TO_THE_63 then r else r - TWO_TO_THE_64
  {
    var q, r := x / TWO_TO_THE_64, x % TWO_TO_THE_64;
    if r < TWO_TO_THE_63 {
      ModIs(x + TWO_TO_THE_63, q, r + TWO_TO_THE_63, TWO_TO_THE_64);
    } else {
      ModIs(x + TWO_TO_THE_63, q + 1, r - TWO_TO_THE_63, TWO_TO_THE_64);
    }
  }

  lemma WrapResidue(t: int)
    ensures Wrap(t * SECOND) == if Residue(t) < TWO_TO_THE_63 then Residue(t) else Residue(t) - TWO_TO_THE_64
    ensures 0 < t < 60 ==> Residue(t) == t * SECOND
  {
    WrapMod(t * SECOND);
    if 0 < t < 60 {
      ModIs(t * SECOND, 0, t * SECOND, TWO_TO_THE_64);
    }
  }

  /** For every number of seconds: it is taken as meant if and only if TakenAsMeant says so. */
  lemma AsMeantIff(t: int)
    ensures Effective(Requested(Seconds(t))) == Meant(t) <==> TakenAsMeant(t)
    ensures 0 < Residue(t) <= MAX_TIMEOUT ==> Effective(Requested(Seconds(t))) == Residue(t)
  {
    WholeTurns(t);
    DefaultResidue(t);
    WrapResidue(t);
  }

  /** In particular all whose nanoseconds fit in an int64 are taken as meant. */
  lemma SecondsAsMeant(t: int)
    requires -9223372036 <= t <= 9223372036
    ensures TakenAsMeant(t) && Effective(Requested(Seconds(t))) == Meant(t)
  {
    assert IsInt64(t * SECOND);
    AsMeantIff(t);
  }

  /** The next ones on either side are not, nor is every number further out given the default or a minute. */
  lemma SecondsThatWrap()
    ensures !TakenAsMeant(9223372037) && Effective(Requested(Seconds(9223372037))) == DEFAULT_TIMEOUT
    ensures !TakenAsMeant(-9223372037) && Effective(Requested(Seconds(-9223372037))) == MAX_TIMEOUT
    ensures !TakenAsMeant(18446744074) && Effective(Requested(Seconds(18446744074))) == 290448384
  {
  }
}

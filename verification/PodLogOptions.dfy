/**
 How a pod-log request's string parameters become the options sent to the apiserver, and
 why the byte limit sent is the byte limit enforced.
 */
module PodLogOptions {
  import opened GoLibrary
  import opened Wrappers

  const MAX_TAIL_LINES: int := 10_000
  const MAX_LIMIT_BYTES: int := 64 * 1024 * 1024
  const DEFAULT_TAIL_LINES: int := 100
  const DEFAULT_LIMIT_BYTES: int := 32 * 1024

  type Parameters = map<string, string>

  // ---------- strconv ----------

  predicate IsDigit(c: char) {
    '0' as int <= c as int <= '9' as int
  }

  function Digit(c: char): nat
    requires IsDigit(c)
  {
    c as int - '0' as int
  }

  predicate AllDigits(s: string) {
    forall i :: 0 <= i < |s| ==> IsDigit(s[i])
  }

  function Value(digits: string): nat
    requires AllDigits(digits)
  {
    if digits == "" then 0
    else
      var last := |digits| - 1;
      assert IsDigit(digits[last]);
      10 * Value(digits[..last]) + Digit(digits[last])
  }

  /** `strconv.ParseInt(s, 10, 64)`: an optional sign, at least one digit and nothing else, in range. */
  function ParseInt64(s: string): Option<int> {
    var signed := s != "" && (s[0] == '+' || s[0] == '-');
    var digits := if signed then s[1..] else s;
    if digits == "" || !AllDigits(digits) then None
    else
      var magnitude: int := Value(digits);
      var v := if s[0] == '-' then -magnitude else magnitude;
      if IsInt64(v) then Some(v) else None
  }

  /** `strconv.ParseBool`, its error ignored. */
  function ParseBool(s: string): bool {
    s in ["1", "t", "T", "TRUE", "true", "True"]
  }

  // ---------- Clamping ----------

  /** A parameter clamped to (0, max]; None if it is absent or malformed. */
  function ParsePositive(parameters: Parameters, key: string, max: int): Option<int> {
    if key !in parameters then None
    else
      match ParseInt64(parameters[key])
      case None => None
      case Some(v) => Some(if v <= 0 || v > max then max else v)
  }

  /** The cap used when reading: the requested limit if it is a sensible one, else the maximum. */
  function EffectiveLimit(requested: Option<int>): int {
    if requested.Some? && 0 < requested.value < MAX_LIMIT_BYTES then requested.value else MAX_LIMIT_BYTES
  }

  class Options {
    var container: string
    var previous: bool
    var sinceSeconds: Option<int>
    var sinceTime: Option<int>
    var timestamps: bool
    var limitBytes: Option<int>
    var tailLines: Option<int>

    /** The defaults a request starts from. */
    constructor ()
      ensures container == "" && !previous && sinceSeconds == None && sinceTime == None && !timestamps
      ensures limitBytes == Some(32 * 1024) && tailLines == Some(100)
    {
      container, previous, sinceSeconds, sinceTime, timestamps := "", false, None, None, false;
      limitBytes, tailLines := Some(DEFAULT_LIMIT_BYTES), Some(DEFAULT_TAIL_LINES);
    }

    /** Apply the parameters to options that already hold defaults. `parseTime` stands for parsing a time
        by RFC 3339. */
    method Build(parameters: Parameters, parseTime: string -> Option<int>)
      modifies this
      ensures container == if "container" in parameters then parameters["container"] else old(container)
      ensures previous == if "previous" in parameters then ParseBool(parameters["previous"]) else old(previous)
      ensures timestamps == if "timestamps" in parameters then ParseBool(parameters["timestamps"]) else old(timestamps)
      ensures if "sinceSeconds" in parameters && ParseInt64(parameters["sinceSeconds"]).Some?
              then sinceSeconds == ParseInt64(parameters["sinceSeconds"]) else sinceSeconds == old(sinceSeconds)
      ensures if "sinceTime" in parameters && parseTime(parameters["sinceTime"]).Some?
              then sinceTime == parseTime(parameters["sinceTime"]) else sinceTime == old(sinceTime)
      ensures if "limitBytes" in parameters && ParseInt64(parameters["limitBytes"]).Some? then
                var v := ParseInt64(parameters["limitBytes"]).value;
                limitBytes == Some(if 0 < v <= 64 * 1024 * 1024 then v else 64 * 1024 * 1024)
              else limitBytes == old(limitBytes)
      ensures if "tailLines" in parameters && ParseInt64(parameters["tailLines"]).Some? then
                var v := ParseInt64(parameters["tailLines"]).value;
                tailLines == Some(if 0 < v <= 10_000 then v else 10_000)
              else if "sinceSeconds" in parameters && ParseInt64(parameters["sinceSeconds"]).Some? then
                tailLines == None
              else tailLines == old(tailLines)
    {
      SetPlain(parameters);
      SetAge(parameters, parseTime);
      Clamp(parameters);
    }

    method SetPlain(parameters: Parameters)
      modifies this`container, this`previous, this`timestamps
      ensures container == if "container" in parameters then parameters["container"] else old(container)
      ensures previous == if "previous" in parameters then ParseBool(parameters["previous"]) else old(previous)
      ensures timestamps == if "timestamps" in parameters then ParseBool(parameters["timestamps"]) else old(timestamps)
    {
      if "container" in parameters {
        container := parameters["container"];
      }
      if "previous" in parameters {
        previous := ParseBool(parameters["previous"]);
      }
      if "timestamps" in parameters {
        timestamps := ParseBool(parameters["timestamps"]);
      }
    }

    /** How far back to go, in seconds or to a time; seconds lift the default number of lines. */
    method SetAge(parameters: Parameters, parseTime: string -> Option<int>)
      modifies this`sinceSeconds, this`sinceTime, this`tailLines
      ensures if "sinceSeconds" in parameters && ParseInt64(parameters["sinceSeconds"]).Some?
              then sinceSeconds == ParseInt64(parameters["sinceSeconds"]) && tailLines == None
              else sinceSeconds == old(sinceSeconds) && tailLines == old(tailLines)
      ensures if "sinceTime" in parameters && parseTime(parameters["sinceTime"]).Some?
              then sinceTime == parseTime(parameters["sinceTime"]) else sinceTime == old(sinceTime)
    {
      if "sinceSeconds" in parameters {
        var seconds := ParseInt64(parameters["sinceSeconds"]);
        if seconds.Some? {
          sinceSeconds := seconds;
          tailLines := None;
        }
      }
      if "sinceTime" in parameters {
        var time := parseTime(parameters["sinceTime"]);
        if time.Some? {
          sinceTime := time;
        }
      }
    }

    /** Bound what the caller asks for in bytes and lines. */
    method Clamp(parameters: Parameters)
      modifies this`limitBytes, this`tailLines
      ensures limitBytes
           == var limit := ParsePositive(parameters, "limitBytes", MAX_LIMIT_BYTES);
              if limit.Some? then limit else old(limitBytes)
      ensures tailLines
           == var lines := ParsePositive(parameters, "tailLines", MAX_TAIL_LINES);
              if lines.Some? then lines else old(tailLines)
    {
      var limit := ParsePositive(parameters, "limitBytes", MAX_LIMIT_BYTES);
      if limit.Some? {
        limitBytes := limit;
      }
      var lines := ParsePositive(parameters, "tailLines", MAX_TAIL_LINES);
      if lines.Some? {
        tailLines := lines;
      }
    }
  }

  // ---------- What is sent, and what is enforced ----------

  /** The byte limit a request with these parameters sends to the apiserver. */
  function SentLimit(parameters: Parameters): Option<int> {
    var limit := ParsePositive(parameters, "limitBytes", MAX_LIMIT_BYTES);
    if limit.Some? then limit else Some(DEFAULT_LIMIT_BYTES)
  }

  /** The number of lines it sends: an explicit number wins; otherwise a valid age lifts the default. */
  function SentLines(parameters: Parameters): Option<int> {
    var lines := ParsePositive(parameters, "tailLines", MAX_TAIL_LINES);
    if lines.Some? then lines
    else if "sinceSeconds" in parameters && ParseInt64(parameters["sinceSeconds"]).Some? then None
    else Some(DEFAULT_TAIL_LINES)
  }

  /** The options of a request: the defaults, and the parameters applied to them if there are any. */
  method Request(parameters: Option<Parameters>, parseTime: string -> Option<int>) returns (options: Options)
    ensures fresh(options)
    ensures options.limitBytes == SentLimit(if parameters.Some? then parameters.value else map[])
    ensures options.tailLines == SentLines(if parameters.Some? then parameters.value else map[])
  {
    options := new Options();
    if parameters.Some? {
      options.Build(parameters.value, parseTime);
    }
  }

  /** Whatever the parameters, a limit is sent and lies in (0, 64 MiB], and it is the limit enforced on
      reading. It is the caller's number if that is within these bounds, 64 MiB if it is a number outside
      them, and 32 KiB if no number is given. */
  lemma LimitSentIsLimitEnforced(parameters: Parameters)
    ensures SentLimit(parameters).Some?
    ensures 0 < SentLimit(parameters).value <= 64 * 1024 * 1024
    ensures EffectiveLimit(SentLimit(parameters)) == SentLimit(parameters).value
    ensures if "limitBytes" in parameters && ParseInt64(parameters["limitBytes"]).Some? then
              var v := ParseInt64(parameters["limitBytes"]).value;
              SentLimit(parameters).value == if 0 < v <= 64 * 1024 * 1024 then v else 64 * 1024 * 1024
            else SentLimit(parameters).value == 32 * 1024
  {
  }

  /** A limit that is missing or out of bounds is enforced as 64 MiB, whatever was sent. */
  lemma EnforcedAnyway(requested: Option<int>)
    ensures 0 < EffectiveLimit(requested) <= 64 * 1024 * 1024
    ensures EffectiveLimit(requested) != 64 * 1024 * 1024 ==> requested == Some(EffectiveLimit(requested))
    ensures requested.Some? && 0 < requested.value <= 64 * 1024 * 1024 ==> EffectiveLimit(requested) == requested.value
  {
  }

  /** The number of lines asked for is the caller's within (0, 10000], 10000 if the caller's number is outside
      it, unbounded if the caller gave no number but a valid age, and else 100. */
  lemma LinesBounded(parameters: Parameters)
    ensures var lines := SentLines(parameters);
            if "tailLines" in parameters && ParseInt64(parameters["tailLines"]).Some? then
              var v := ParseInt64(parameters["tailLines"]).value;
              lines == Some(if 0 < v <= 10_000 then v else 10_000)
            else if "sinceSeconds" in parameters && ParseInt64(parameters["sinceSeconds"]).Some? then lines == None
            else lines == Some(100)
  {
  }

  // ---------- Numbers read are the numbers printed ----------

  /** A number in decimal digits. */
  function Decimal(n: nat): string {
    if n < 10 then [(n + 48) as char] else Decimal(n / 10) + [(n % 10 + 48) as char]
  }

  function Print(v: int): string {
    if v < 0 then "-" + Decimal(-v) else Decimal(v)
  }

  lemma {:induction false} DecimalValue(n: nat)
    ensures Decimal(n) != "" && AllDigits(Decimal(n)) && Value(Decimal(n)) == n
  {
    if n < 10 {
      assert Decimal(n)[..0] == "" && Value("") == 0;
    } else {
      DecimalValue(n / 10);
      assert Decimal(n)[..|Decimal(n)| - 1] == Decimal(n / 10);
    }
  }

  lemma DecimalUnsigned(n: nat)
    ensures Decimal(n) != "" && IsDigit(Decimal(n)[0])
  {
    DecimalValue(n);
  }

  /** Every int64, printed, is read back, also with a plus sign; a larger number is refused, not cut. */
  lemma ParsePrinted(v: int)
    ensures ParseInt64(Print(v)) == if IsInt64(v) then Some(v) else None
    ensures v >= 0 ==> ParseInt64("+" + Print(v)) == if IsInt64(v) then Some(v) else None
  {
    var n: nat := if v < 0 then -v else v;
    DecimalValue(n);
    DecimalUnsigned(n);
    assert ("-" + Decimal(n))[1..] == Decimal(n) && ("+" + Decimal(n))[1..] == Decimal(n);
  }

  /** Nothing is read from a text without digits, or with anything but digits after an optional sign. */
  lemma RefusedText(s: string)
    ensures s in ["", "+", "-"] ==> ParseInt64(s) == None
    ensures (exists i :: 0 < i < |s| && !('0' <= s[i] <= '9')) ==> ParseInt64(s) == None
    ensures s != "" && !('0' <= s[0] <= '9') && s[0] != '+' && s[0] != '-' ==> ParseInt64(s) == None
  {
    if i :| 0 < i < |s| && !('0' <= s[i] <= '9') {
      assert !IsDigit(s[1..][i - 1]) && !IsDigit(s[i]);
    }
  }

  /** The spellings of true; those of false and anything unreadable give false. */
  lemma ParseBoolSpellings()
    ensures ParseBool("1") && ParseBool("t") && ParseBool("T")
    ensures ParseBool("true") && ParseBool("True") && ParseBool("TRUE")
    ensures !ParseBool("0") && !ParseBool("f") && !ParseBool("F")
    ensures !ParseBool("false") && !ParseBool("False") && !ParseBool("FALSE")
    ensures !ParseBool("") && !ParseBool("yes") && !ParseBool("tRUE") && !ParseBool(" true")
  {
  }
}

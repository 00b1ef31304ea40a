/**
 Resource URIs: printed as `k8s://clustered/{group}/{version}/{resource}/{name}` and
 `k8s://namespaced/{namespace}/{group}/{version}/{resource}/{name}`, and read back by
 splitting at slashes and ignoring empty parts.
 */
module ResourceUri {
  import opened GoLibrary
  import opened Wrappers

  datatype Components = Components(namespace: string, group: string, version: string, resource: string, name: string)

  datatype UriError = MissingPrefix | TooFewParts(parts: nat)

  // ---------- Splitting ----------

  predicate NoSlash(s: string) {
    '/' !in s
  }

  /** `strings.Split(s, "/")`. */
  function Split(s: string): seq<string>
    ensures |Split(s)| > 0
  {
    if s == "" then [""]
    else
      var rest := Split(s[1..]);
      if s[0] == '/' then [""] + rest else [[s[0]] + rest[0]] + rest[1..]
  }

  function NonEmpty(parts: seq<string>): seq<string> {
    if parts == [] then []
    else if parts[|parts| - 1] == "" then NonEmpty(parts[..|parts| - 1])
    else NonEmpty(parts[..|parts| - 1]) + [parts[|parts| - 1]]
  }

  /** The non-empty parts of a path. */
  function Parts(path: string): seq<string> {
    NonEmpty(Split(path))
  }

  method ParseUri(uri: string, prefix: string) returns (r: Result<seq<string>, UriError>)
    ensures r == if HasPrefix(uri, prefix) then Ok(Parts(uri[|prefix|..])) else Err(MissingPrefix)
  {
    if !HasPrefix(uri, prefix) {
      return Err(MissingPrefix);
    }
    var parts := Split(uri[|prefix|..]);
    var filtered: seq<string> := [];
    for i := 0 to |parts|
      invariant filtered == NonEmpty(parts[..i])
    {
      assert parts[..i + 1][..i] == parts[..i];
      if parts[i] != "" {
        filtered := filtered + [parts[i]];
      }
    }
    assert parts[..|parts|] == parts;
    return Ok(filtered);
  }

  // ---------- The two parsers ----------

  const CLUSTERED := "k8s://clustered/"
  const NAMESPACED := "k8s://namespaced/"

  /** What both parsers make of the parts after an optional namespace; parts beyond the name are ignored. */
  function FromParts(namespace: string, parts: seq<string>): Components
    requires |parts| >= 3
  {
    if |parts| == 3 then Components(namespace, "", parts[0], parts[1], parts[2])
    else Components(namespace, parts[0], parts[1], parts[2], parts[3])
  }

  function ParseClustered(uri: string): Result<Components, UriError> {
    if !HasPrefix(uri, CLUSTERED) then Err(MissingPrefix)
    else
      var parts := Parts(uri[|CLUSTERED|..]);
      if |parts| < 3 then Err(TooFewParts(|parts|)) else Ok(FromParts("", parts))
  }

  function ParseNamespaced(uri: string): Result<Components, UriError> {
    if !HasPrefix(uri, NAMESPACED) then Err(MissingPrefix)
    else
      var parts := Parts(uri[|NAMESPACED|..]);
      if |parts| < 4 then Err(TooFewParts(|parts|)) else Ok(FromParts(parts[0], parts[1..]))
  }

  // ---------- Printing ----------

  function Join(parts: seq<string>): string {
    if parts == [] then ""
    else if |parts| == 1 then parts[0]
    else parts[0] + "/" + Join(parts[1..])
  }

  function PrintClustered(c: Components): string {
    CLUSTERED + Join([c.group, c.version, c.resource, c.name])
  }

  function PrintNamespaced(c: Components): string {
    NAMESPACED + Join([c.namespace, c.group, c.version, c.resource, c.name])
  }

  /** Components that survive: free of slashes, and none empty but the group. */
  predicate WellFormed(c: Components) {
    && NoSlash(c.group)
    && NoSlash(c.version) && c.version != ""
    && NoSlash(c.resource) && c.resource != ""
    && NoSlash(c.name) && c.name != ""
  }

  // ---------- Splitting and joining ----------

  lemma {:induction false} SplitNoSlash(s: string)
    requires NoSlash(s)
    ensures Split(s) == [s]
  {
    if s != "" {
      SplitNoSlash(s[1..]);
      assert s == [s[0]] + s[1..];
    }
  }

  /** Split, one character at a time. */
  lemma SplitFirst(c: char, s: string)
    ensures Split([c] + s)
         == if c == '/' then [""] + Split(s) else [[c] + Split(s)[0]] + Split(s)[1..]
  {
    assert ([c] + s)[1..] == s;
  }

  lemma {:induction false} SplitSlash(a: string, b: string)
    ensures Split(a + "/" + b) == Split(a) + Split(b)
  {
    if a == "" {
      SplitFirst('/', b);
      assert "" + "/" + b == ['/'] + b;
    } else {
      SplitSlash(a[1..], b);
      assert a + "/" + b == [a[0]] + (a[1..] + "/" + b) && a == [a[0]] + a[1..];
      SplitFirst(a[0], a[1..] + "/" + b);
      SplitFirst(a[0], a[1..]);
      FirstApart(Split(a[1..]), Split(b), a[0]);
    }
  }

  lemma FirstApart(front: seq<string>, back: seq<string>, c: char)
    requires front != []
    ensures [""] + (front + back) == ([""] + front) + back
    ensures [[c] + (front + back)[0]] + (front + back)[1..] == ([[c] + front[0]] + front[1..]) + back
  {
  }

  lemma {:induction false} SplitJoin(parts: seq<string>)
    requires parts != [] && forall i :: 0 <= i < |parts| ==> NoSlash(parts[i])
    ensures Split(Join(parts)) == parts
  {
    if |parts| == 1 {
      SplitNoSlash(parts[0]);
    } else {
      SplitJoin(parts[1..]);
      SplitNoSlash(parts[0]);
      SplitSlash(parts[0], Join(parts[1..]));
    }
  }

  lemma {:induction false} SplitPartsNoSlash(s: string)
    ensures forall i :: 0 <= i < |Split(s)| ==> NoSlash(Split(s)[i])
  {
    if s != "" {
      SplitPartsNoSlash(s[1..]);
    }
  }

  lemma {:induction false} NonEmptyAppend(a: seq<string>, b: seq<string>)
    ensures NonEmpty(a + b) == NonEmpty(a) + NonEmpty(b)
  {
    if b == [] {
      assert a + b == a;
    } else {
      var n := |b| - 1;
      assert (a + b)[..|a + b| - 1] == a + b[..n];
      NonEmptyAppend(a, b[..n]);
    }
  }

  lemma {:induction false} NonEmptyAll(parts: seq<string>)
    requires forall i :: 0 <= i < |parts| ==> parts[i] != ""
    ensures NonEmpty(parts) == parts
  {
    if parts != [] {
      NonEmptyAll(parts[..|parts| - 1]);
    }
  }

  lemma {:induction false} NonEmptyFrom(parts: seq<string>)
    ensures forall p :: p in NonEmpty(parts) ==> p in parts && p != ""
  {
    if parts != [] {
      NonEmptyFrom(parts[..|parts| - 1]);
    }
  }

  /** Parts never contain a slash and are never empty. */
  lemma PartsClean(path: string)
    ensures forall p :: p in Parts(path) ==> NoSlash(p) && p != ""
  {
    SplitPartsNoSlash(path);
    NonEmptyFrom(Split(path));
  }

  lemma JoinParts(parts: seq<string>)
    requires parts != [] && forall i :: 0 <= i < |parts| ==> NoSlash(parts[i])
    ensures Parts(Join(parts)) == NonEmpty(parts)
  {
    SplitJoin(parts);
  }

  lemma AfterPrefix(prefix: string, rest: string)
    ensures HasPrefix(prefix + rest, prefix) && (prefix + rest)[|prefix|..] == rest
  {
  }

  // ---------- Main results ----------

  /** What the parts of a printed path are, if only the group may be empty. */
  lemma ClusteredParts(c: Components)
    requires WellFormed(c)
    ensures Parts(Join([c.group] + [c.version, c.resource, c.name]))
         == (if c.group == "" then [] else [c.group]) + [c.version, c.resource, c.name]
  {
    JoinParts([c.group] + [c.version, c.resource, c.name]);
    GroupFirst(c.group, [c.version, c.resource, c.name]);
  }

  /** Printing and parsing a clustered URI gives back the components exactly if they are well-formed. */
  lemma ClusteredRoundTrip(c: Components)
    ensures ParseClustered(PrintClustered(c)) == Ok(c) <==> WellFormed(c) && c.namespace == ""
  {
    var path := Join([c.group] + [c.version, c.resource, c.name]);
    assert [c.group, c.version, c.resource, c.name] == [c.group] + [c.version, c.resource, c.name];
    ReadClustered(path);
    assert Parts(path)[0..] == Parts(path);
    if WellFormed(c) {
      ClusteredParts(c);
    }
    if |Parts(path)| >= 3 {
      FromPartsWellFormed("", path, 0);
    }
  }

  /** What follows the prefix decides. */
  lemma ReadClustered(path: string)
    ensures ParseClustered(CLUSTERED + path)
         == if |Parts(path)| < 3 then Err(TooFewParts(|Parts(path)|)) else Ok(FromParts("", Parts(path)[0..]))
  {
    AfterPrefix(CLUSTERED, path);
    assert Parts(path)[0..] == Parts(path);
  }

  lemma ReadNamespaced(path: string)
    ensures ParseNamespaced(NAMESPACED + path)
         == if |Parts(path)| < 4 then Err(TooFewParts(|Parts(path)|))
            else Ok(FromParts(Parts(path)[0], Parts(path)[1..]))
  {
    AfterPrefix(NAMESPACED, path);
  }

  lemma OneNonEmpty(part: string)
    ensures NonEmpty([part]) == if part == "" then [] else [part]
  {
    assert [part][..0] == [];
  }

  lemma GroupFirst(group: string, rest: seq<string>)
    requires forall i :: 0 <= i < |rest| ==> rest[i] != ""
    ensures NonEmpty([group] + rest) == (if group == "" then [] else [group]) + rest
  {
    NonEmptyAppend([group], rest);
    NonEmptyAll(rest);
    OneNonEmpty(group);
  }

  /** What the parts of a printed path are, if only the group may be empty. */
  lemma NamespacedParts(c: Components)
    requires WellFormed(c) && NoSlash(c.namespace) && c.namespace != ""
    ensures Parts(Join([c.namespace] + ([c.group] + [c.version, c.resource, c.name])))
         == [c.namespace] + ((if c.group == "" then [] else [c.group]) + [c.version, c.resource, c.name])
  {
    var rest := [c.version, c.resource, c.name];
    JoinParts([c.namespace] + ([c.group] + rest));
    NonEmptyAppend([c.namespace], [c.group] + rest);
    NonEmptyAll([c.namespace]);
    GroupFirst(c.group, rest);
  }

  lemma NamespacedRoundTrip(c: Components)
    ensures ParseNamespaced(PrintNamespaced(c)) == Ok(c) <==>
            WellFormed(c) && NoSlash(c.namespace) && c.namespace != ""
  {
    var path := Join([c.namespace] + ([c.group] + [c.version, c.resource, c.name]));
    assert [c.namespace, c.group, c.version, c.resource, c.name]
        == [c.namespace] + ([c.group] + [c.version, c.resource, c.name]);
    ReadNamespaced(path);
    if WellFormed(c) && NoSlash(c.namespace) && c.namespace != "" {
      NamespacedParts(c);
      assert Parts(path)[1..] == (if c.group == "" then [] else [c.group]) + [c.version, c.resource, c.name];
    }
    if |Parts(path)| >= 4 {
      FromPartsWellFormed(Parts(path)[0], path, 1);
    }
  }

  lemma OnePrefixAtMost(uri: string)
    ensures !(HasPrefix(uri, CLUSTERED) && HasPrefix(uri, NAMESPACED))
  {
    assert HasPrefix(uri, CLUSTERED) ==> uri[..|CLUSTERED|][6] == 'c';
    assert HasPrefix(uri, NAMESPACED) ==> uri[..|NAMESPACED|][6] == 'n';
  }

  /** No URI is accepted by both parsers. */
  lemma OneParserAtMost(uri: string)
    ensures ParseClustered(uri).Err? || ParseNamespaced(uri).Err?
  {
    OnePrefixAtMost(uri);
  }

  lemma FromPartsWellFormed(namespace: string, path: string, skip: nat)
    requires |Parts(path)| >= skip + 3
    ensures WellFormed(FromParts(namespace, Parts(path)[skip..]))
    ensures forall i :: 0 <= i < |Parts(path)| ==> NoSlash(Parts(path)[i]) && Parts(path)[i] != ""
  {
    PartsClean(path);
    var parts := Parts(path);
    assert forall i :: 0 <= i < |parts| ==> parts[i] in parts;
  }

  /** Parsing is a retraction: what either parser accepts, printed again, parses to the same. */
  lemma ParseIsRetraction(uri: string)
    ensures ParseClustered(uri).Ok? ==>
              ParseClustered(PrintClustered(ParseClustered(uri).value)) == ParseClustered(uri)
    ensures ParseNamespaced(uri).Ok? ==>
              ParseNamespaced(PrintNamespaced(ParseNamespaced(uri).value)) == ParseNamespaced(uri)
  {
    if ParseClustered(uri).Ok? {
      FromPartsWellFormed("", uri[|CLUSTERED|..], 0);
      ClusteredRoundTrip(ParseClustered(uri).value);
    }
    if ParseNamespaced(uri).Ok? {
      FromPartsWellFormed(Parts(uri[|NAMESPACED|..])[0], uri[|NAMESPACED|..], 1);
      NamespacedRoundTrip(ParseNamespaced(uri).value);
    }
  }

  predicate Clean(parts: seq<string>) {
    parts != [] && forall i :: 0 <= i < |parts| ==> NoSlash(parts[i]) && parts[i] != ""
  }

  lemma CleanParts(parts: seq<string>)
    requires Clean(parts)
    ensures Parts(Join(parts)) == parts
  {
    JoinParts(parts);
    NonEmptyAll(parts);
  }

  /** Which part is which: of three parts, version, resource and name; of more, group, version, resource and
      name in this order, whatever follows. */
  lemma ClusteredByPosition(parts: seq<string>)
    requires Clean(parts)
    ensures ParseClustered("k8s://clustered/" + Join(parts))
         == if |parts| < 3 then Err(TooFewParts(|parts|))
            else if |parts| == 3 then Ok(Components("", "", parts[0], parts[1], parts[2]))
            else Ok(Components("", parts[0], parts[1], parts[2], parts[3]))
  {
    CleanParts(parts);
    ReadClustered(Join(parts));
    assert parts[0..] == parts;
  }

  /** The same with a namespace before them. */
  lemma NamespacedByPosition(parts: seq<string>)
    requires Clean(parts)
    ensures ParseNamespaced("k8s://namespaced/" + Join(parts))
         == if |parts| < 4 then Err(TooFewParts(|parts|))
            else if |parts| == 4 then Ok(Components(parts[0], "", parts[1], parts[2], parts[3]))
            else Ok(Components(parts[0], parts[1], parts[2], parts[3], parts[4]))
  {
    CleanParts(parts);
    ReadNamespaced(Join(parts));
  }

  function Slashes(n: nat): string {
    if n == 0 then "" else "/" + Slashes(n - 1)
  }

  lemma PartsSlash(a: string, b: string)
    ensures Parts(a + "/" + b) == Parts(a) + Parts(b)
  {
    SplitSlash(a, b);
    NonEmptyAppend(Split(a), Split(b));
  }

  lemma NoParts()
    ensures Parts("") == []
  {
    assert Split("") == [""] && [""][..0] == [];
  }

  lemma PartsAfterSlash(b: string)
    ensures Parts("/" + b) == Parts(b)
  {
    NoParts();
    PartsSlash("", b);
    assert "" + "/" + b == "/" + b;
  }

  lemma {:induction false} LeadingSlashes(n: nat, b: string)
    ensures Parts(Slashes(n) + b) == Parts(b)
  {
    if n == 0 {
      assert Slashes(n) + b == b;
    } else {
      LeadingSlashes(n - 1, b);
      PartsAfterSlash(Slashes(n - 1) + b);
      SlashesFirst(n, b);
    }
  }

  lemma SlashesFirst(n: nat, b: string)
    requires n > 0
    ensures Slashes(n) + b == "/" + (Slashes(n - 1) + b)
  {
  }

  lemma {:induction false} SlashesNoParts(n: nat)
    ensures Parts(Slashes(n)) == []
  {
    if n == 0 {
      NoParts();
    } else {
      SlashesNoParts(n - 1);
      PartsAfterSlash(Slashes(n - 1));
    }
  }

  /** One slash or several between two stretches of path make no difference, nor at either end. */
  lemma SlashesCollapse(a: string, b: string, n: nat)
    ensures Parts(a + "/" + Slashes(n) + b) == Parts(a + "/" + b) == Parts(a) + Parts(b)
    ensures Parts(Slashes(n) + b) == Parts(b)
    ensures Parts(a + Slashes(n)) == Parts(a)
  {
    LeadingSlashes(n, b);
    PartsSlash(a, b);
    assert a + "/" + Slashes(n) + b == a + "/" + (Slashes(n) + b);
    PartsSlash(a, Slashes(n) + b);
    TrailingSlashes(a, n);
  }

  lemma TrailingSlashes(a: string, n: nat)
    ensures Parts(a + Slashes(n)) == Parts(a)
  {
    if n == 0 {
      assert a + Slashes(n) == a;
    } else {
      assert a + Slashes(n) == a + "/" + Slashes(n - 1);
      PartsSlash(a, Slashes(n - 1));
      SlashesNoParts(n - 1);
    }
  }

  /** So slashes inserted after the prefix next to a slash that is there, the prefix's own included, or at
      the end, never change what either parser says. */
  lemma ExtraSlashesIgnored(x: string, y: string, n: nat)
    requires x == "" || y == "" || x[|x| - 1] == '/' || y[0] == '/'
    ensures ParseClustered(CLUSTERED + (x + Slashes(n) + y)) == ParseClustered(CLUSTERED + (x + y))
    ensures ParseNamespaced(NAMESPACED + (x + Slashes(n) + y)) == ParseNamespaced(NAMESPACED + (x + y))
  {
    PartsUnchanged(x, y, n);
    ReadClustered(x + Slashes(n) + y);
    ReadClustered(x + y);
    ReadNamespaced(x + Slashes(n) + y);
    ReadNamespaced(x + y);
  }

  lemma PartsUnchanged(x: string, y: string, n: nat)
    requires x == "" || y == "" || x[|x| - 1] == '/' || y[0] == '/'
    ensures Parts(x + Slashes(n) + y) == Parts(x + y)
  {
    if x == "" {
      assert x + Slashes(n) + y == Slashes(n) + y && x + y == y;
      SlashesCollapse("", y, n);
    } else if y == "" {
      assert x + Slashes(n) + y == x + Slashes(n) && x + y == x;
      SlashesCollapse(x, "", n);
    } else if x[|x| - 1] == '/' {
      var a := x[..|x| - 1];
      assert x == a + "/";
      assert x + Slashes(n) + y == a + "/" + Slashes(n) + y && x + y == a + "/" + y;
      SlashesCollapse(a, y, n);
    } else {
      var b := y[1..];
      assert y == "/" + b;
      SlashesTurn(n);
      assert x + Slashes(n) + y == x + (Slashes(n) + "/") + b == x + "/" + Slashes(n) + b;
      assert x + y == x + "/" + b;
      SlashesCollapse(x, b, n);
    }
  }

  lemma {:induction false} SlashesTurn(n: nat)
    ensures Slashes(n) + "/" == "/" + Slashes(n)
  {
    if n > 0 {
      SlashesTurn(n - 1);
    }
  }
}

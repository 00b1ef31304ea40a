/**
 From a bearer token's claims to the Kubernetes client that acts for its user: extraction,
 the context it travels in, and the choice of client.

 A string is a sequence of bytes here, one `char` each, as `len` counts them. Control
 characters are single bytes in UTF-8, so scanning bytes and scanning runes find the same.
 */
module Identity {
  import opened GoLibrary
  import opened Wrappers

  // ---------- Claims ----------

  datatype Json = JString(s: string) | JArray(items: seq<Json>) | JOther

  type Claims = map<string, Json>

  datatype Id = Id(user: string, groups: seq<string>)

  datatype Config = Config(userClaim: string, groupsClaim: string)

  const DEFAULT_CONFIG := Config("email", "groups")

  datatype Reason =
    | NotBearer | EmptyToken | BadToken
    | UserMissing | UserNotString | UserEmpty
    | TooLong | ControlCharacter | SystemPrefix
    | TooManyGroups
    | NoIdentity | NoConfig | BuildFailed

  const MAX_LENGTH: nat := 256
  const MAX_GROUPS: nat := 64
  const SYSTEM := "system:"

  predicate IsControl(c: char) {
    c as int < 0x20 || c as int == 0x7f
  }

  ghost predicate HasControl(s: string) {
    exists i :: 0 <= i < |s| && IsControl(s[i])
  }

  method ContainsControlCharacters(s: string) returns (found: bool)
    ensures found <==> HasControl(s)
  {
    for i := 0 to |s|
      invariant forall j :: 0 <= j < i ==> !IsControl(s[j])
    {
      if IsControl(s[i]) {
        return true;
      }
    }
    return false;
  }

  /** A user or group name that may be impersonated: not too long, without control characters, and not one
      of the system's. */
  ghost predicate Safe(name: string) {
    && |name| <= 256
    && (forall i :: 0 <= i < |name| ==> 0x20 <= name[i] as int && name[i] as int != 0x7f)
    && !("system:" <= name)
  }

  /** What is wrong with a name, in the order in which it is checked. */
  ghost function Fault(name: string): Option<Reason> {
    if |name| > MAX_LENGTH then Some(TooLong)
    else if HasControl(name) then Some(ControlCharacter)
    else if HasPrefix(name, SYSTEM) then Some(SystemPrefix)
    else None
  }

  lemma FaultExact(name: string)
    ensures Fault(name).None? <==> Safe(name)
  {
  }

  /** validateIdentity and validateGroup, which differ only in their messages. */
  method Validate(name: string) returns (fault: Option<Reason>)
    ensures fault == Fault(name)
    ensures fault.None? <==> Safe(name)
  {
    if |name| > MAX_LENGTH {
      return Some(TooLong);
    }
    var control := ContainsControlCharacters(name);
    if control {
      return Some(ControlCharacter);
    }
    return if HasPrefix(name, SYSTEM) then Some(SystemPrefix) else None;
  }

  predicate IsGroup(item: Json) {
    item.JString? && item.s != ""
  }

  /** The non-empty strings of an array, in order. */
  function GroupNames(items: seq<Json>): seq<string> {
    if items == [] then []
    else
      var front := GroupNames(items[..|items| - 1]);
      var last := items[|items| - 1];
      if IsGroup(last) then front + [last.s] else front
  }

  function GroupsOf(claims: Claims, key: string): seq<string> {
    if key in claims && claims[key].JArray? then GroupNames(claims[key].items) else []
  }

  /** The groups are the non-empty strings of the array, all of them and in order: `at` says where each is. */
  ghost predicate Picks(items: seq<Json>, groups: seq<string>, at: seq<nat>) {
    && |at| == |groups|
    && (forall j :: 0 <= j < |at| ==> at[j] < |items| && groups[j] != "" && items[at[j]] == JString(groups[j]))
    && (forall j, k :: 0 <= j < k < |at| ==> at[j] < at[k])
    && (forall i :: 0 <= i < |items| && items[i].JString? && items[i].s != "" ==> i in at)
  }

  /** What a claim says of groups: nothing if it is absent or no array. */
  ghost predicate Claimed(claims: Claims, key: string, groups: seq<string>) {
    if key in claims && claims[key].JArray? then exists at :: Picks(claims[key].items, groups, at)
    else groups == []
  }

  lemma PickNext(items: seq<Json>, n: nat, groups: seq<string>, at: seq<nat>)
    requires n == |items| - 1 && Picks(items[..n], groups, at)
    ensures IsGroup(items[n]) ==> Picks(items, groups + [items[n].s], at + [n])
    ensures !IsGroup(items[n]) ==> Picks(items, groups, at)
  {
    forall i | 0 <= i < n && items[i].JString? && items[i].s != ""
      ensures i in at && i in at + [n]
    {
      assert items[..n][i] == items[i];
    }
    assert (at + [n])[|at|] == n;
  }

  lemma {:induction false} NamesPicked(items: seq<Json>) returns (at: seq<nat>)
    ensures Picks(items, GroupNames(items), at)
  {
    if items == [] {
      at := [];
    } else {
      var n := |items| - 1;
      at := NamesPicked(items[..n]);
      PickNext(items, n, GroupNames(items[..n]), at);
      if IsGroup(items[n]) {
        at := at + [n];
      }
    }
  }

  /** There is no other way to pick them. */
  lemma {:induction false} PickedNames(items: seq<Json>, groups: seq<string>, at: seq<nat>)
    requires Picks(items, groups, at)
    ensures groups == GroupNames(items)
  {
    if items != [] {
      var n, m := |items| - 1, |at| - 1;
      if IsGroup(items[n]) {
        var j :| 0 <= j < |at| && at[j] == n;
        assert at[m] <= n;
        assert j == m;
        LastPicked(items, groups, at);
        PickedNames(items[..n], groups[..m], at[..m]);
        assert groups == groups[..m] + [items[n].s];
      } else {
        assert forall i :: 0 <= i < n ==> items[..n][i] == items[i];
        assert forall j :: 0 <= j < |at| ==> at[j] != n;
        PickedNames(items[..n], groups, at);
      }
    }
  }

  lemma LastPicked(items: seq<Json>, groups: seq<string>, at: seq<nat>)
    requires Picks(items, groups, at) && at != [] && at[|at| - 1] == |items| - 1
    ensures Picks(items[..|items| - 1], groups[..|at| - 1], at[..|at| - 1])
  {
    var n, m := |items| - 1, |at| - 1;
    forall i | 0 <= i < n && items[i].JString? && items[i].s != ""
      ensures i in at[..m]
    {
      var j :| 0 <= j < |at| && at[j] == i;
      assert at[..m][j] == i;
    }
  }

  lemma ClaimedIff(claims: Claims, key: string, groups: seq<string>)
    ensures Claimed(claims, key, groups) <==> groups == GroupsOf(claims, key)
  {
    if key in claims && claims[key].JArray? {
      var at := NamesPicked(claims[key].items);
      if at' :| Picks(claims[key].items, groups, at') {
        PickedNames(claims[key].items, groups, at');
      }
    }
  }

  method ExtractGroupsClaim(claims: Claims, key: string) returns (groups: seq<string>)
    ensures groups == GroupsOf(claims, key) && Claimed(claims, key, groups)
  {
    ClaimedIff(claims, key, GroupsOf(claims, key));
    if key !in claims || !claims[key].JArray? {
      return [];
    }
    var items := claims[key].items;
    groups := [];
    for i := 0 to |items|
      invariant groups == GroupNames(items[..i])
    {
      assert items[..i + 1][..i] == items[..i];
      if IsGroup(items[i]) {
        groups := groups + [items[i].s];
      }
    }
    assert items[..|items|] == items;
  }

  /** How many groups an array has before position `k`. */
  function Rank(items: seq<Json>, k: nat): nat
    requires k <= |items|
  {
    if k == 0 then 0 else Rank(items, k - 1) + if IsGroup(items[k - 1]) then 1 else 0
  }

  /** Nothing is lost, invented or reordered: the group at position `k` of the array is at position
      Rank(k) of the result, and the result has no others. */
  lemma {:induction false} GroupNamesExact(items: seq<Json>, n: nat)
    requires n <= |items|
    ensures |GroupNames(items[..n])| == Rank(items, n)
    ensures forall k :: 0 <= k < n && IsGroup(items[k]) ==>
              Rank(items, k) < Rank(items, n) && GroupNames(items[..n])[Rank(items, k)] == items[k].s
  {
    if n > 0 {
      assert items[..n][..n - 1] == items[..n - 1];
      GroupNamesExact(items, n - 1);
    }
  }

  // ---------- Extraction ----------

  /** The first group that may not be impersonated, if any. */
  ghost function GroupFault(groups: seq<string>): Option<Reason> {
    if groups == [] then None
    else if Fault(groups[0]).Some? then Fault(groups[0])
    else GroupFault(groups[1..])
  }

  ghost function FromClaims(claims: Claims, cfg: Config): Result<Id, Reason> {
    if cfg.userClaim !in claims then Err(UserMissing)
    else if !claims[cfg.userClaim].JString? then Err(UserNotString)
    else
      var user, groups := claims[cfg.userClaim].s, GroupsOf(claims, cfg.groupsClaim);
      if user == "" then Err(UserEmpty)
      else if Fault(user).Some? then Err(Fault(user).value)
      else if |groups| > MAX_GROUPS then Err(TooManyGroups)
      else if GroupFault(groups).Some? then Err(GroupFault(groups).value)
      else Ok(Id(user, groups))
  }

  method ExtractFromClaims(claims: Claims, cfg: Config) returns (r: Result<Id, Reason>)
    ensures r == FromClaims(claims, cfg)
  {
    if cfg.userClaim !in claims {
      return Err(UserMissing);
    }
    if !claims[cfg.userClaim].JString? {
      return Err(UserNotString);
    }
    var user := claims[cfg.userClaim].s;
    if user == "" {
      return Err(UserEmpty);
    }
    var fault := Validate(user);
    if fault.Some? {
      return Err(fault.value);
    }
    var groups := ExtractGroupsClaim(claims, cfg.groupsClaim);
    if |groups| > MAX_GROUPS {
      return Err(TooManyGroups);
    }
    for i := 0 to |groups|
      invariant GroupFault(groups) == GroupFault(groups[i..])
    {
      fault := Validate(groups[i]);
      if fault.Some? {
        return Err(fault.value);
      }
    }
    return Ok(Id(user, groups));
  }

  lemma {:induction false} GroupFaultExact(groups: seq<string>)
    ensures GroupFault(groups).None? <==> forall i :: 0 <= i < |groups| ==> Safe(groups[i])
  {
    if groups != [] {
      FaultExact(groups[0]);
      GroupFaultExact(groups[1..]);
      assert forall i :: 0 < i < |groups| ==> groups[i] == groups[1..][i - 1];
    }
  }

  /** The identity the claims speak for, and one that may be impersonated. */
  ghost predicate Speaks(claims: Claims, cfg: Config, id: Id) {
    && cfg.userClaim in claims && claims[cfg.userClaim] == JString(id.user) && id.user != "" && Safe(id.user)
    && Claimed(claims, cfg.groupsClaim, id.groups) && |id.groups| <= 64
    && (forall i :: 0 <= i < |id.groups| ==> Safe(id.groups[i]))
  }

  /** Extraction succeeds with exactly the identities that pass every check, and with no other. */
  lemma ExtractionExact(claims: Claims, cfg: Config, id: Id)
    ensures FromClaims(claims, cfg) == Ok(id) <==> Speaks(claims, cfg, id)
  {
    GroupFaultExact(GroupsOf(claims, cfg.groupsClaim));
    ClaimedIff(claims, cfg.groupsClaim, id.groups);
    if cfg.userClaim in claims && claims[cfg.userClaim].JString? {
      FaultExact(claims[cfg.userClaim].s);
    }
  }

  /** `decode` stands for parsing the token, with or without checking its signature. A missing header
      is no error. */
  ghost function ExtractFromRequest(
    header: string, decode: string -> Option<Claims>, cfg: Config): Result<Option<Id>, Reason>
  {
    if header == "" then Ok(None)
    else if !HasPrefix(header, "Bearer ") then Err(NotBearer)
    else if header[|"Bearer "|..] == "" then Err(EmptyToken)
    else
      match decode(header[|"Bearer "|..])
      case None => Err(BadToken)
      case Some(claims) =>
        match FromClaims(claims, cfg)
        case Err(reason) => Err(reason)
        case Ok(id) => Ok(Some(id))
  }

  // ---------- Contexts ----------

  datatype Key = IdentityKey | SessionIdKey | ClientSessionKey

  datatype Value = IdentityValue(id: Id) | SessionIdValue(sessionId: string) | ClientSessionValue(sessionId: string)

  datatype Context = Background | WithTimeout(parent: Context) | WithValue(parent: Context, key: Key, value: Value)

  function Lookup(ctx: Context, key: Key): Option<Value> {
    match ctx
    case Background => None
    case WithTimeout(parent) => Lookup(parent, key)
    case WithValue(parent, k, value) => if k == key then Some(value) else Lookup(parent, key)
  }

  function FromContext(ctx: Context): Option<Id> {
    match Lookup(ctx, IdentityKey)
    case Some(IdentityValue(id)) => Some(id)
    case _ => None
  }

  function ClientSession(ctx: Context): Option<string> {
    match Lookup(ctx, ClientSessionKey)
    case Some(ClientSessionValue(sessionId)) => Some(sessionId)
    case _ => None
  }

  /** The context of an HTTP request: the identity is added if there is one and it can be extracted. */
  ghost function HttpContext(
    cfg: Option<Config>, ctx: Context, header: string, decode: string -> Option<Claims>): Context
  {
    match ExtractFromRequest(header, decode, if cfg.Some? then cfg.value else DEFAULT_CONFIG)
    case Ok(Some(id)) => WithValue(ctx, IdentityKey, IdentityValue(id))
    case _ => ctx
  }

  /** The fresh context handed to tool handlers: nothing of the old one but session and identity. */
  function TimeoutContext(ctx: Context): Context {
    var sessionId := if ClientSession(ctx).Some? then ClientSession(ctx).value else "";
    var fresh0 := WithTimeout(Background);
    var fresh1 := if sessionId != "" then WithValue(fresh0, SessionIdKey, SessionIdValue(sessionId)) else fresh0;
    if FromContext(ctx).Some? then WithValue(fresh1, IdentityKey, IdentityValue(FromContext(ctx).value)) else fresh1
  }

  /** The session a rate-limited call is counted under. */
  function SessionOf(ctx: Context, tool: string): string {
    match Lookup(ctx, SessionIdKey)
    case Some(SessionIdValue(sessionId)) =>
      if sessionId != "" then sessionId else ClientSessionOr(ctx, tool)
    case _ => ClientSessionOr(ctx, tool)
  }

  function ClientSessionOr(ctx: Context, tool: string): string {
    if ClientSession(ctx).Some? then ClientSession(ctx).value else "tool:" + tool
  }

  // ---------- Clients ----------

  /** A client's configuration, as far as it matters: where it points, and whom it impersonates. */
  datatype RestConfig = RestConfig(host: string, impersonate: Option<Id>)

  datatype Client = Client(restConfig: Option<RestConfig>)

  /** `buildable` says whether the three component clients can be built from the copied configuration. */
  function WithImpersonation(base: Client, id: Id, buildable: bool): Result<Client, Reason> {
    if base.restConfig.None? then Err(NoConfig)
    else if !buildable then Err(BuildFailed)
    else Ok(Client(Some(base.restConfig.value.(impersonate := Some(id)))))
  }

  function ClientForContext(enabled: bool, base: Client, ctx: Context, buildable: bool): Result<Client, Reason> {
    if !enabled then Ok(base)
    else
      match FromContext(ctx)
      case None => Err(NoIdentity)
      case Some(id) => WithImpersonation(base, id, buildable)
  }

  // ---------- Main results ----------

  /** The client a tool handler gets for a request, through both context functions. */
  ghost function HandlerClient(
    cfg: Option<Config>, base: Client, ctx: Context, header: string, decode: string -> Option<Claims>, buildable: bool)
    : Result<Client, Reason>
  {
    ClientForContext(true, base, TimeoutContext(HttpContext(cfg, ctx, header, decode)), buildable)
  }

  /** The request carries a bearer token whose claims speak for this identity. */
  ghost predicate Authenticates(cfg: Config, header: string, decode: string -> Option<Claims>, id: Id) {
    && "Bearer " < header
    && decode(header[7..]).Some?
    && Speaks(decode(header[7..]).value, cfg, id)
  }

  lemma ExtractIffAuthenticates(cfg: Config, header: string, decode: string -> Option<Claims>, id: Id)
    ensures ExtractFromRequest(header, decode, cfg) == Ok(Some(id)) <==> Authenticates(cfg, header, decode, id)
  {
    if HasPrefix(header, "Bearer ") && decode(header[|"Bearer "|..]).Some? {
      ExtractionExact(decode(header[|"Bearer "|..]).value, cfg, id);
    }
  }

  /** Whom a request acts for: whoever its own token speaks for, or if that is nobody, whoever the context it
      came in was for already. */
  ghost predicate ActsFor(config: Config, ctx: Context, header: string, decode: string -> Option<Claims>, id: Id) {
    || Authenticates(config, header, decode, id)
    || ((forall other :: !Authenticates(config, header, decode, other)) && FromContext(ctx) == Some(id))
  }

  /** Carried exactly or refused: with impersonation on, a handler is given a client impersonating an
      identity exactly if the request acts for that identity and the client can be built; in all other
      cases it is given none. So if the incoming context is for nobody, the identity is that of the request's
      own token, and has passed every check. */
  lemma IdentityCarried(
    cfg: Option<Config>, base: Client, ctx: Context, header: string, decode: string -> Option<Claims>, buildable: bool)
    ensures var config := if cfg.Some? then cfg.value else Config("email", "groups");
            forall client: Client ::
              HandlerClient(cfg, base, ctx, header, decode, buildable) == Ok(client) <==>
              (base.restConfig.Some? && buildable
               && client.restConfig.Some? && client.restConfig.value.impersonate.Some?
               && client.restConfig.value.host == base.restConfig.value.host
               && ActsFor(config, ctx, header, decode, client.restConfig.value.impersonate.value))
  {
    var config := if cfg.Some? then cfg.value else DEFAULT_CONFIG;
    forall id: Id
      ensures ExtractFromRequest(header, decode, config) == Ok(Some(id)) <==> Authenticates(config, header, decode, id)
    {
      ExtractIffAuthenticates(config, header, decode, id);
    }
    var passed := TimeoutContext(HttpContext(cfg, ctx, header, decode));
    TimeoutKeepsIdentity(HttpContext(cfg, ctx, header, decode));
  }

  /** With impersonation off every handler gets the shared client itself, whatever the context. */
  lemma ImpersonationOff(base: Client, ctx: Context, buildable: bool)
    ensures ClientForContext(false, base, ctx, buildable) == Ok(base)
  {
  }

  /** The replaced context has the identity of the one it replaces, and no other. */
  lemma TimeoutKeepsIdentity(ctx: Context)
    ensures FromContext(TimeoutContext(ctx)) == FromContext(ctx)
  {
    FreshLookups();
  }

  lemma FreshLookups()
    ensures forall key :: Lookup(WithTimeout(Background), key) == None
    ensures forall k, value :: Lookup(WithValue(WithTimeout(Background), k, value), k) == Some(value)
    ensures forall k, value, key :: k != key ==> Lookup(WithValue(WithTimeout(Background), k, value), key) == None
  {
    forall key
      ensures Lookup(WithTimeout(Background), key) == None
    {
      assert Lookup(Background, key) == None;
    }
  }

  /** The replaced context carries the client's session, unless it is empty, and no other. */
  lemma TimeoutSession(ctx: Context)
    ensures ClientSession(TimeoutContext(ctx)) == None
    ensures Lookup(TimeoutContext(ctx), SessionIdKey) ==
            if ClientSession(ctx).Some? && ClientSession(ctx).value != ""
            then Some(SessionIdValue(ClientSession(ctx).value)) else None
  {
    FreshLookups();
    var inner := TimeoutContext(ctx);
    if FromContext(ctx).Some? {
      inner := inner.parent;
      assert Lookup(TimeoutContext(ctx), SessionIdKey) == Lookup(inner, SessionIdKey);
      assert Lookup(TimeoutContext(ctx), ClientSessionKey) == Lookup(inner, ClientSessionKey);
    }
    assert Lookup(inner, ClientSessionKey) == None;
  }

  /** When the replaced context counts a call under the same session: the custom session key is not itself
      carried over, and an empty client session is dropped. */
  lemma TimeoutKeepsSessionIff(ctx: Context, tool: string)
    ensures var custom := match Lookup(ctx, SessionIdKey) case Some(SessionIdValue(id)) => id case _ => "";
            var kept := if ClientSession(ctx).Some? && ClientSession(ctx).value != ""
                        then ClientSession(ctx).value else "tool:" + tool;
            && SessionOf(TimeoutContext(ctx), tool) == kept
            && (SessionOf(TimeoutContext(ctx), tool) == SessionOf(ctx, tool) <==>
                if custom == "" then ClientSession(ctx) != Some("") else custom == kept)
  {
    TimeoutSession(ctx);
    assert "tool:" + tool != "";
  }
}

/** The routing decision: which exit a request leaves through, under which session
    identity, or why it is refused.  The decision reads immutable snapshots, the salt
    store twice, and the outcome of the target checks. */
module Routing {
  import opened Text
  import opened Injectors
  import opened Platforms
  import opened Egress
  import T = Tables
  import SaltHistory

  datatype Snapshot = Snapshot(policy: string, salt: string, sidLen: int, blockPrivate: bool,
                               ttlMin: int, defaultUpstream: string)

  /** mapped: a row of acct_map matched the request's credential. */
  datatype Identity = Identity(key: string, mapped: bool, platform: string, account: string)

  datatype TargetCheck = Public | Private | Unresolved

  /** looksPrivate: the literal target is private; check: the outcome of resolving it. */
  datatype Target = Target(looksPrivate: bool, check: TargetCheck)

  datatype RouteError = PrivateTargetBlocked | TargetUnresolved | UpstreamConfig

  /** No URL and no error means: connect directly. */
  datatype Route = Route(url: Option<Url>, account: string, name: string, reason: string, error: Option<RouteError>)

  const NOBODY := Identity("", false, "", "")

  const DIRECT := "direct"
  const CLIENT_IP_SESSION := "client_ip_session"
  const DEFAULT_SESSION := "default_session"

  // ---------- The session identity ----------

  const NO_MARKER_DEFAULT := "\0no-marker/default"
  const NO_MARKER_CLIENT_IP := "\0no-marker/client-ip/"

  /** The key under which the identity's salt rotates; "" for none. */
  function SaltKey(policy: string, marker: string, ident: Identity, clientIp: string): string {
    var own := if ident.mapped then ident.key else marker;
    if own != "" then own
    else if policy == DEFAULT_SESSION then NO_MARKER_DEFAULT
    else if policy == CLIENT_IP_SESSION then NO_MARKER_CLIENT_IP + clientIp
    else ""
  }

  function SaltFor(snap: Snapshot, marker: string, ident: Identity, n: int): string {
    SaltHistory.CombineSalt(snap.salt, n) + (if marker != "" && ident.mapped then "#a" else "")
  }

  /** The text whose SHA-256 is the identity. */
  function IdentityPreimage(snap: Snapshot, marker: string, ident: Identity, clientIp: string, n: int): string {
    SaltFor(snap, marker, ident, n)
    + if marker != "" then (if ident.mapped then ident.key else marker)
      else if snap.policy == CLIENT_IP_SESSION then "#ip" + clientIp
      else "#default" + "default"
  }

  function SidLen(n: int): int { if n <= 0 then 16 else if n > 64 then 64 else n }

  /** The hexadecimal SHA-256 of a text. */
  ghost predicate IsHash(hex: string -> string) {
    forall s: string :: |hex(s)| == 64 && forall c :: c in hex(s) ==> c in "0123456789abcdef"
  }

  /** The identity a request travels under.  The fixed identity of default_session reads the
      salt a second time to see whether it was ever rotated. */
  function SessionAccount(snap: Snapshot, marker: string, ident: Identity, clientIp: string,
                          n: int, again: int, hex: string -> string): string
    requires IsHash(hex)
  {
    if marker == "" && snap.policy == DIRECT then "-"
    else if marker == "" && snap.policy != CLIENT_IP_SESSION && again == 0 then "default"
    else hex(IdentityPreimage(snap, marker, ident, clientIp, n))[..SidLen(snap.sidLen)]
  }

  // ---------- Selecting an exit ----------

  /** The first entry with the name. */
  function FirstNamed(items: seq<Exit>, name: string): Option<Exit> {
    if |items| == 0 then None else if items[0].name == name then Some(items[0]) else FirstNamed(items[1..], name)
  }

  /** Select: the first entry with the name, if it is enabled. */
  method Select(items: seq<Exit>, name: string) returns (r: Option<Exit>)
    ensures r == if FirstNamed(items, name).Some? && FirstNamed(items, name).value.enabled
      then FirstNamed(items, name) else None
  {
    for i := 0 to |items|
      invariant FirstNamed(items, name) == FirstNamed(items[i..], name)
    {
      assert items[i..][1..] == items[i + 1..];
      if items[i].name == name {
        return if items[i].enabled then Some(items[i]) else None;
      }
    }
    return None;
  }

  /** The enabled default exit, if any. */
  function DefaultExit(items: seq<Exit>, name: string): Option<Exit> {
    if FirstNamed(items, name).Some? && FirstNamed(items, name).value.enabled then FirstNamed(items, name) else None
  }

  /** With unique names, the default exit is the enabled entry of that name. */
  lemma {:induction false} DefaultExitIsNamed(items: seq<Exit>, name: string, u: Exit)
    requires forall i, j :: 0 <= i < j < |items| ==> items[i].name != items[j].name
    ensures DefaultExit(items, name) == Some(u) <==> u in items && u.name == name && u.enabled
  {
    if |items| > 0 {
      var tail := items[1..];
      DefaultExitIsNamed(tail, name, u);
      assert u in items <==> u == items[0] || u in tail;
      if items[0].name == name && u in tail {
        var j :| 0 <= j < |tail| && tail[j] == u;
        assert items[j + 1] == u && items[0].name != items[j + 1].name;
      }
    }
  }

  // ---------- socks5h ----------

  /** Simple case folding, as far as a letter of "socks5h" can be its result. */
  function Fold(c: char): char {
    if 'A' <= c <= 'Z' then c - 'A' + 'a'
    else if c == '\U{17F}' then 's'
    else if c == '\U{212A}' then 'k'
    else c
  }

  predicate IsSocks5h(scheme: string) {
    |scheme| == 7 && forall i :: 0 <= i < 7 ==> Fold(scheme[i]) == "socks5h"[i]
  }

  /** One of the letters that fold to the one of "socks5h" at this place. */
  predicate Spells(scheme: string) {
    && |scheme| == 7 && scheme[0] in {'s', 'S', '\U{17F}'} && scheme[1] in {'o', 'O'} && scheme[2] in {'c', 'C'}
    && scheme[3] in {'k', 'K', '\U{212A}'} && scheme[4] in {'s', 'S', '\U{17F}'} && scheme[5] == '5'
    && scheme[6] in {'h', 'H'}
  }

  /** socks5h in any spelling becomes socks5; every other scheme, and the rest of the URL, stays. */
  lemma {:induction false} DialableMeaning(u: Url)
    ensures Dialable(u) == u.(scheme := if Spells(u.scheme) then "socks5" else u.scheme)
  {
    var name := "socks5h";
    assert name[0] == 's' && name[1] == 'o' && name[2] == 'c' && name[3] == 'k' && name[4] == 's' && name[5] == '5'
           && name[6] == 'h';
    assert IsSocks5h(u.scheme) <==> Spells(u.scheme);
  }

  function Dialable(u: Url): Url { if IsSocks5h(u.scheme) then u.(scheme := "socks5") else u }

  // ---------- The decision ----------

  function BindingFor(bindings: Option<map<Account, Binding>>, ident: Identity): Option<Binding> {
    if !ident.mapped || bindings.None? then None
    else LookupIn(bindings.value, Account(ident.platform, ident.account))
  }

  predicate IsBound(bindings: Option<map<Account, Binding>>, ident: Identity) {
    BindingFor(bindings, ident).Some? && BindingFor(bindings, ident).value.egressIds != []
  }

  predicate TargetPasses(snap: Snapshot, target: Target) {
    if snap.blockPrivate then target.check == Public else !target.looksPrivate
  }

  /** When a request may connect directly. */
  predicate MayGoDirect(snap: Snapshot, marker: string, ident: Identity, target: Target,
                        items: seq<Exit>, bindings: Option<map<Account, Binding>>) {
    || (!snap.blockPrivate && target.looksPrivate)
    || (TargetPasses(snap, target) && marker == "" && snap.policy == DIRECT)
    || (TargetPasses(snap, target) && !IsBound(bindings, ident) && snap.defaultUpstream == ""
       && DefaultExit(items, "").None?)
  }

  /** The request has passed the target check and is not sent directly by policy. */
  predicate NeedsExit(snap: Snapshot, marker: string, target: Target) {
    TargetPasses(snap, target) && !(marker == "" && snap.policy == DIRECT)
  }

  method Through(u: Exit, p: InjectParams, reason: string) returns (r: Route)
    ensures r.account == p.account && r.name == u.name
    ensures r.url.Some? <==> r.error.None?
    ensures r.url.Some? <==> Inject(u, p).Some? && Inject(u, p).value.Ok?
    ensures r.url.Some? ==> r.url.value == Dialable(Inject(u, p).value.value) && r.reason == reason
    ensures r.error.Some? ==> r.error.value == UpstreamConfig
    ensures r.error.Some? ==> r.reason == if Inject(u, p).None? then "injector_missing" else "injection_failed"
  {
    var injected := Inject(u, p);
    if injected.None? {
      return Route(None, p.account, u.name, "injector_missing", Some(UpstreamConfig));
    }
    if injected.value.Err? {
      return Route(None, p.account, u.name, "injection_failed", Some(UpstreamConfig));
    }
    var purl := injected.value.value;
    if IsSocks5h(purl.scheme) {
      purl := purl.(scheme := "socks5");
    }
    return Route(Some(purl), p.account, u.name, reason, None);
  }

  function Scores(hash: string -> nat, salt: string, identKey: string): int -> nat {
    id => hash(ScorePreimage(salt, identKey, id))
  }

  /** The route leaves through u unchanged, and u is the sticky winner unless the mode is random. */
  ghost predicate LeavesBy(r: Route, u: Exit, b: Binding, score: int -> nat, items: seq<Exit>) {
    && r.url == Some(Dialable(u.base)) && r.name == u.name
    && (if b.mode == T.RANDOM then r.reason == "egress_random"
        else r.reason == "egress_sticky" && Winner(Allowed(items, b.egressIds), u, score))
  }

  /** A bound account leaves through one of its enabled plain exits, or not at all. */
  ghost predicate BoundRoute(r: Route, b: Binding, score: int -> nat, items: seq<Exit>) {
    if Allowed(items, b.egressIds) == {} then
      r.url.None? && r.error == Some(UpstreamConfig) && r.name == "direct" && r.reason == "egress_none_enabled"
    else r.error.None? && exists u :: u in Allowed(items, b.egressIds) && LeavesBy(r, u, b, score, items)
  }

  /** Anybody else leaves through the default exit with the identity written into it; without
      a configured default exit directly; otherwise not at all. */
  ghost predicate DefaultRoute(r: Route, name: string, p: InjectParams, items: seq<Exit>) {
    var u := DefaultExit(items, name);
    if u.None? then
      && r.url.None? && r.error == (if name == "" then None else Some(UpstreamConfig))
      && r.name == (if name == "" then "direct" else name) && r.reason == "no_upstream"
    else
      var injected := Inject(u.value, p);
      r.name == u.value.name
      && if injected.Some? && injected.value.Ok? then
           r.url == Some(Dialable(injected.value.value)) && r.error.None? && r.reason == "upstream"
         else
           && r.url.None? && r.error == Some(UpstreamConfig)
           && r.reason == if injected.None? then "injector_missing" else "injection_failed"
  }

  /** The route of a request that needs an exit. */
  ghost predicate Routed(r: Route, snap: Snapshot, ident: Identity, items: seq<Exit>,
                         bindings: Option<map<Account, Binding>>, score: int -> nat) {
    if IsBound(bindings, ident) then BoundRoute(r, BindingFor(bindings, ident).value, score, items)
    else DefaultRoute(r, snap.defaultUpstream, InjectParams(r.account, snap.ttlMin, ""), items)
  }

  method ResolveExit(items: seq<Exit>, binding: Option<Binding>, score: int -> nat, draw: nat,
                     defaultUpstream: string, p: InjectParams) returns (r: Route)
    ensures r.account == p.account
    ensures binding.Some? && binding.value.egressIds != [] ==> BoundRoute(r, binding.value, score, items)
    ensures !(binding.Some? && binding.value.egressIds != []) ==> DefaultRoute(r, defaultUpstream, p, items)
  {
    var choice := SelectBound(items, binding, score, draw);
    if choice.NoneEnabled? {
      return Route(None, p.account, "direct", "egress_none_enabled", Some(UpstreamConfig));
    }
    if choice.Chosen? {
      r := Through(choice.exit, p, if choice.mode == T.RANDOM then "egress_random" else "egress_sticky");
      assert LeavesBy(r, choice.exit, binding.value, score, items);
      return;
    }
    var up := Select(items, defaultUpstream);
    if up.None? {
      if defaultUpstream == "" {
        return Route(None, p.account, "direct", "no_upstream", None);
      }
      return Route(None, p.account, defaultUpstream, "no_upstream", Some(UpstreamConfig));
    }
    r := Through(up.value, p, "upstream");
  }

  method Resolve(snap: Snapshot, marker: string, ident: Identity, clientIp: string, target: Target,
                 items: seq<Exit>, bindings: Option<map<Account, Binding>>,
                 n: int, again: int, hex: string -> string, hash: string -> nat, draw: nat)
    returns (r: Route)
    requires IsHash(hex)
    ensures r.account == SessionAccount(snap, marker, ident, clientIp, n, again, hex)
    ensures r.account == "-" <==> marker == "" && snap.policy == DIRECT
    ensures r.account == "default"
            <==> marker == "" && snap.policy != DIRECT && snap.policy != CLIENT_IP_SESSION && again == 0
    ensures r.account != "-" && r.account != "default" ==>
      r.account == hex(IdentityPreimage(snap, marker, ident, clientIp, n))
                     [..if snap.sidLen <= 0 then 16 else if snap.sidLen > 64 then 64 else snap.sidLen]
    ensures (r.url.None? && r.error.None?) <==> MayGoDirect(snap, marker, ident, target, items, bindings)
    ensures r.url.Some? ==> r.error.None? && NeedsExit(snap, marker, target)
    ensures snap.blockPrivate && target.check == Private ==>
      r.error == Some(PrivateTargetBlocked) && r.reason == "private_target_blocked"
    ensures snap.blockPrivate && target.check == Unresolved ==>
      r.error == Some(TargetUnresolved) && r.reason == "target_resolution_failed"
    ensures !snap.blockPrivate && target.looksPrivate ==> r.reason == "private_target_allowed"
    ensures TargetPasses(snap, target) && marker == "" && snap.policy == DIRECT ==> r.reason == "policy_direct"
    ensures !NeedsExit(snap, marker, target) ==> r.url.None? && r.name == "direct"
    ensures NeedsExit(snap, marker, target) ==>
      Routed(r, snap, ident, items, bindings, Scores(hash, SaltFor(snap, marker, ident, n), ident.key))
    ensures NeedsExit(snap, marker, target) && (!ident.mapped || bindings.None?) ==>
      DefaultRoute(r, snap.defaultUpstream, InjectParams(r.account, snap.ttlMin, ""), items)
  {
    AccountOfRequest(snap, marker, ident, clientIp, n, again, hex);
    var account := SessionAccount(snap, marker, ident, clientIp, n, again, hex);
    var salt := SaltFor(snap, marker, ident, n);
    if snap.blockPrivate {
      if target.check == Private {
        return Route(None, account, "direct", "private_target_blocked", Some(PrivateTargetBlocked));
      }
      if target.check == Unresolved {
        return Route(None, account, "direct", "target_resolution_failed", Some(TargetUnresolved));
      }
    } else if target.looksPrivate {
      return Route(None, account, "direct", "private_target_allowed", None);
    }
    if marker == "" && snap.policy == DIRECT {
      return Route(None, account, "direct", "policy_direct", None);
    }
    r := ResolveExit(items, BindingFor(bindings, ident), Scores(hash, salt, ident.key), draw,
                     snap.defaultUpstream, InjectParams(account, snap.ttlMin, ""));
  }

  // ---------- The identity of a request ----------

  lemma HexIsNoWord(a: string)
    requires forall c :: c in a ==> c in "0123456789abcdef"
    ensures a != "-" && a != "default"
  {
    assert "-"[0] in "-" && "default"[4] in "default";
    assert "-"[0] == '-' && "default"[4] == 'u';
  }

  /** The fixed words stand for the two unmarked cases only; every other request travels under
      the head of a hash, as long as configured, of what identifies it. */
  lemma {:induction false} AccountOfRequest(snap: Snapshot, marker: string, ident: Identity, clientIp: string,
                                            n: int, again: int, hex: string -> string)
    requires IsHash(hex)
    ensures var account := SessionAccount(snap, marker, ident, clientIp, n, again, hex);
      && (account == "-" <==> marker == "" && snap.policy == "direct")
      && (account == "default"
          <==> marker == "" && snap.policy != "direct" && snap.policy != "client_ip_session" && again == 0)
      && (account != "-" && account != "default" ==>
            account == hex(IdentityPreimage(snap, marker, ident, clientIp, n))
                         [..if snap.sidLen <= 0 then 16 else if snap.sidLen > 64 then 64 else snap.sidLen])
  {
    var h := hex(IdentityPreimage(snap, marker, ident, clientIp, n));
    assert forall c :: c in h[..SidLen(snap.sidLen)] ==> c in h;
    HexIsNoWord(h[..SidLen(snap.sidLen)]);
    assert |"-"| != |"default"|;
  }

  /** What is hashed: the system salt, the identity's own salt once it was rotated, and behind it
      the marker, the mapped account, the address, or the fixed word, each but the marker behind
      a mark of its kind. */
  lemma {:induction false} PreimageOfRequest(snap: Snapshot, marker: string, ident: Identity, clientIp: string, n: int)
    ensures IdentityPreimage(snap, marker, ident, clientIp, n)
         == (snap.salt + if n == 0 then "" else "#k" + Itoa(n))
            + if marker != "" && !ident.mapped then marker
              else if marker != "" then "#a" + ident.key
              else if snap.policy == "client_ip_session" then "#ip" + clientIp
              else "#defaultdefault"
  {
    IdentityStartsWithSalt(snap, marker, ident, clientIp, n);
    SaltText(snap.salt, n);
    TextBehindSalt(snap, marker, ident, clientIp);
  }

  lemma SaltText(salt: string, n: int)
    ensures SaltHistory.CombineSalt(salt, n) == salt + if n == 0 then "" else "#k" + Itoa(n)
  {
    assert salt + "" == salt;
    Assoc(salt, "#k", Itoa(n));
  }

  lemma TextBehindSalt(snap: Snapshot, marker: string, ident: Identity, clientIp: string)
    ensures AfterSalt(snap, marker, ident, clientIp)
         == if marker != "" && !ident.mapped then marker
            else if marker != "" then "#a" + ident.key
            else if snap.policy == "client_ip_session" then "#ip" + clientIp
            else "#defaultdefault"
  {
    FixedWord();
  }

  lemma FixedWord()
    ensures "#default" + "default" == "#defaultdefault"
  {
  }

  /** Two requests of one kind under one snapshot and salt number are hashed from the same text
      exactly if they are of the same marker, mapped account or address. */
  lemma {:induction false} KindsSeparate(snap: Snapshot, n: int, marker1: string, ident1: Identity, ip1: string,
                                         marker2: string, ident2: Identity, ip2: string)
    requires (marker1 == "" <==> marker2 == "") && (marker1 != "" ==> (ident1.mapped <==> ident2.mapped))
    ensures IdentityPreimage(snap, marker1, ident1, ip1, n) == IdentityPreimage(snap, marker2, ident2, ip2, n)
            <==> if marker1 != "" then (if ident1.mapped then ident1.key == ident2.key else marker1 == marker2)
                 else snap.policy == "client_ip_session" ==> ip1 == ip2
  {
    IdentityStartsWithSalt(snap, marker1, ident1, ip1, n);
    IdentityStartsWithSalt(snap, marker2, ident2, ip2, n);
    SamePrefix(SaltHistory.CombineSalt(snap.salt, n), AfterSalt(snap, marker1, ident1, ip1),
               AfterSalt(snap, marker2, ident2, ip2));
    SamePrefix("#a", ident1.key, ident2.key);
    SamePrefix("#ip", ip1, ip2);
  }

  /** An exit's score is the hash of salt, identity and ID, with NULs between. */
  lemma ScoreOfExit(hash: string -> nat, salt: string, identKey: string, id: int)
    ensures Scores(hash, salt, identKey)(id) == hash(salt + "\0" + identKey + "\0" + Itoa(id))
  {
    assert ScorePreimage(salt, identKey, id) == salt + "\0" + identKey + "\0" + Itoa(id);
  }

  // ---------- Rotation and the identity ----------

  function AfterSalt(snap: Snapshot, marker: string, ident: Identity, clientIp: string): string {
    if marker != "" then (if ident.mapped then "#a" + ident.key else marker)
    else if snap.policy == CLIENT_IP_SESSION then "#ip" + clientIp
    else "#default" + "default"
  }

  lemma {:induction false} IdentityStartsWithSalt(snap: Snapshot, marker: string, ident: Identity, clientIp: string,
                                                  n: int)
    ensures IdentityPreimage(snap, marker, ident, clientIp, n)
         == SaltHistory.CombineSalt(snap.salt, n) + AfterSalt(snap, marker, ident, clientIp)
  {
    var c := SaltHistory.CombineSalt(snap.salt, n);
    assert (c + "#a") + ident.key == c + ("#a" + ident.key);
    assert c + "" == c;
  }

  lemma {:induction false} ScoreStartsWithSalt(snap: Snapshot, marker: string, ident: Identity, id: int, n: int)
    ensures ScorePreimage(SaltFor(snap, marker, ident, n), ident.key, id)
         == SaltHistory.CombineSalt(snap.salt, n)
            + ((if marker != "" && ident.mapped then "#a" else "") + "\0" + ident.key + "\0" + Itoa(id))
  {
  }

  /** Every rotation changes what the identity is hashed from, and what each exit's score is
      hashed from, for every kind of identity. */
  lemma {:induction false} RotationChangesPreimages(snap: Snapshot, marker: string, ident: Identity, clientIp: string,
                                                    n1: nat, n2: nat, id: int)
    ensures IdentityPreimage(snap, marker, ident, clientIp, n1) == IdentityPreimage(snap, marker, ident, clientIp, n2)
            <==> n1 == n2
    ensures var salt1, salt2 := SaltFor(snap, marker, ident, n1), SaltFor(snap, marker, ident, n2);
      ScorePreimage(salt1, ident.key, id) == ScorePreimage(salt2, ident.key, id) <==> n1 == n2
  {
    IdentityStartsWithSalt(snap, marker, ident, clientIp, n1);
    IdentityStartsWithSalt(snap, marker, ident, clientIp, n2);
    SaltHistory.PreimagesDiffer(snap.salt, n1, n2, AfterSalt(snap, marker, ident, clientIp));
    ScoreStartsWithSalt(snap, marker, ident, id, n1);
    ScoreStartsWithSalt(snap, marker, ident, id, n2);
    SaltHistory.PreimagesDiffer(snap.salt, n1, n2,
      (if marker != "" && ident.mapped then "#a" else "") + "\0" + ident.key + "\0" + Itoa(id));
  }

  /** Requests without a key of their own have a salt key exactly under a session policy, and
      share one exactly if they are under the same policy and, for client_ip_session, come from
      one address. */
  lemma {:induction false} FallbackKeysSeparate(policy1: string, marker1: string, ident1: Identity, ip1: string,
                                                policy2: string, marker2: string, ident2: Identity, ip2: string)
    requires (if ident1.mapped then ident1.key else marker1) == ""
    requires (if ident2.mapped then ident2.key else marker2) == ""
    ensures SaltKey(policy1, marker1, ident1, ip1) == "" <==> policy1 !in {DEFAULT_SESSION, CLIENT_IP_SESSION}
    ensures SaltKey(policy1, marker1, ident1, ip1) != "" ==>
      (SaltKey(policy1, marker1, ident1, ip1) == SaltKey(policy2, marker2, ident2, ip2)
       <==> policy1 == policy2 && (policy1 == CLIENT_IP_SESSION ==> ip1 == ip2))
  {
    var k1, k2 := NO_MARKER_CLIENT_IP + ip1, NO_MARKER_CLIENT_IP + ip2;
    assert k1[|NO_MARKER_CLIENT_IP|..] == ip1 && k2[|NO_MARKER_CLIENT_IP|..] == ip2;
    assert k1[11] == 'c' && k2[11] == 'c' && NO_MARKER_DEFAULT[11] == 'd';
  }

  /** A request with a key of its own shares its salt with requests that have none exactly if
      that key is the reserved one, and with another of its kind exactly if the keys are equal. */
  lemma {:induction false} SaltKeysSeparate(policy: string, marker: string, ident: Identity, ip: string,
                                            marker2: string, ident2: Identity, ip2: string)
    requires (if ident.mapped then ident.key else marker) != ""
    ensures SaltKey(policy, marker, ident, ip) == SaltKey(DEFAULT_SESSION, "", NOBODY, ip2)
            <==> (if ident.mapped then ident.key else marker) == NO_MARKER_DEFAULT
    ensures SaltKey(policy, marker, ident, ip) == SaltKey(CLIENT_IP_SESSION, "", NOBODY, ip2)
            <==> (if ident.mapped then ident.key else marker) == NO_MARKER_CLIENT_IP + ip2
    ensures (if ident2.mapped then ident2.key else marker2) != "" ==>
      (SaltKey(policy, marker, ident, ip) == SaltKey(policy, marker2, ident2, ip2)
       <==> (if ident.mapped then ident.key else marker) == (if ident2.mapped then ident2.key else marker2))
  {
  }

  /** The separation fails for a marker that spells a reserved key: it shares its salt with
      every request that has none. */
  lemma ReservedMarkerShares(policy: string, ip: string, ip2: string)
    ensures SaltKey(policy, NO_MARKER_DEFAULT, NOBODY, ip) == SaltKey(DEFAULT_SESSION, "", NOBODY, ip2)
  {
  }

  // ---------- From the decision to the exit ----------

  lemma HexIsPlain(a: string)
    requires a != "" && forall c :: c in a ==> c in "0123456789abcdef"
    ensures PlainId(a)
  {
    assert a[0] in a;
    assert a[0] != 's';
    forall c | c in a ensures 'a' <= c <= 'z' || '0' <= c <= '9' {
      assert c in "0123456789abcdef";
    }
  }

  lemma {:induction false} SessionAccountIsPlain(snap: Snapshot, marker: string, ident: Identity, clientIp: string,
                                                 n: int, again: int, hex: string -> string)
    requires IsHash(hex) && !(marker == "" && snap.policy == DIRECT)
    ensures PlainId(SessionAccount(snap, marker, ident, clientIp, n, again, hex))
  {
    var h := hex(IdentityPreimage(snap, marker, ident, clientIp, n));
    HexIsPlain(h[..SidLen(snap.sidLen)]);
  }

  /** End to end: for a request that needs an exit and is not bound, the default exit of a session
      platform reads back exactly the identity the router derived, unless the exit's own user
      name hides it. */
  lemma {:induction false} ExitReadsDerivedIdentity(snap: Snapshot, marker: string, ident: Identity, clientIp: string,
                                                    items: seq<Exit>, n: int, again: int, hex: string -> string,
                                                    r: Route, rule: Rule)
    requires IsHash(hex)
    ensures var u := DefaultExit(items, snap.defaultUpstream);
      && !(marker == "" && snap.policy == DIRECT)
      && r.account == SessionAccount(snap, marker, ident, clientIp, n, again, hex) && r.url.Some?
      && DefaultRoute(r, snap.defaultUpstream, InjectParams(r.account, snap.ttlMin, ""), items)
      && u.Some? && u.value.platform in SESSION_PLATFORMS
      ==> (ReadSession(u.value.platform, Username(r.url.value), rule) == Some(r.account)
           <==> !Hides(u.value.platform, Username(u.value.base)))
  {
    var u := DefaultExit(items, snap.defaultUpstream);
    if && !(marker == "" && snap.policy == DIRECT)
       && r.account == SessionAccount(snap, marker, ident, clientIp, n, again, hex) && r.url.Some?
       && DefaultRoute(r, snap.defaultUpstream, InjectParams(r.account, snap.ttlMin, ""), items)
       && u.Some? && u.value.platform in SESSION_PLATFORMS {
      SessionAccountIsPlain(snap, marker, ident, clientIp, n, again, hex);
      SessionReadsBack(u.value, InjectParams(r.account, snap.ttlMin, ""), rule);
    }
  }
}

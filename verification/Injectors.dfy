/** The injectors that write a session identity into an exit's credentials.
    An exit URL is kept as its parsed parts; injectors change the user info only. */
module Injectors {
  import opened Text
  import opened FlatUsername

  datatype UserInfo = UserInfo(name: string, password: Option<string>)

  /** `rest` stands for the path, query and fragment. */
  datatype Url = Url(scheme: string, host: string, rest: string, user: Option<UserInfo>)

  /** account: the sticky identity; ttlMin: 0 leaves the platform's TTL alone. */
  datatype InjectParams = InjectParams(account: string, ttlMin: int, country: string)

  datatype InjectError =
    | AccountEmpty
    | BadUsername(cause: FlatError)
    | NotUserPrefix
    | ResinUserEmpty
    | TemplateMissing
    | TemplateInvalid

  function Username(u: Url): string {
    if u.user.Some? then u.user.value.name else ""
  }

  /** Everything of a URL an injector must not touch. */
  predicate SameExit(a: Url, b: Url) {
    a.scheme == b.scheme && a.host == b.host && a.rest == b.rest
  }

  function Password(u: Url): Option<string> {
    if u.user.Some? then u.user.value.password else None
  }

  /** A copy of the URL with a new user name; the password stays unless overridden. */
  function RewriteUser(base: Url, newUser: string, overridePass: Option<string>): Url {
    base.(user := Some(UserInfo(newUser, if overridePass.Some? then overridePass else Password(base))))
  }

  function ClampInt(v: int, lo: int, hi: int): int {
    if v < lo then lo else if v > hi then hi else v
  }

  // ---------- 1024proxy and decodo: two chained rewrites ----------

  const C1024_KEYS := {"region", "st", "city", "asn", "sid", "t"}

  const DECODO_KEYS := {"country", "city", "st", "state", "asn", "session", "sessionduration", "session_iplock"}

  /** Set the session, then, when a TTL is configured, the duration. */
  function TwoRewrites(u: string, known: set<string>, sessionKey: string, account: string,
                       ttlKey: string, ttlMin: int, maxTtl: int): Result<string, FlatError> {
    var r := Rewrite(u, known, sessionKey, account);
    if r.Err? || ttlMin <= 0 then r
    else Rewrite(r.value, known, ttlKey, Itoa(ClampInt(ttlMin, 1, maxTtl)))
  }

  function C1024(base: Url, p: InjectParams): Result<Url, InjectError> {
    if p.account == "" then Err(AccountEmpty)
    else
      var r := TwoRewrites(Username(base), C1024_KEYS, "sid", p.account, "t", p.ttlMin, 120);
      if r.Err? then Err(BadUsername(r.error)) else Ok(RewriteUser(base, r.value, None))
  }

  function Decodo(base: Url, p: InjectParams): Result<Url, InjectError> {
    if p.account == "" then Err(AccountEmpty)
    else if !("user-" <= Username(base)) then Err(NotUserPrefix)
    else
      var r := TwoRewrites(Username(base), DECODO_KEYS, "session", p.account, "sessionduration", p.ttlMin, 1440);
      if r.Err? then Err(BadUsername(r.error)) else Ok(RewriteUser(base, r.value, None))
  }

  lemma Regroup(x: seq<string>, a: seq<string>, m: seq<string>, b: seq<string>)
    ensures x + (a + m + b) == (x + a) + m + b
  {
  }

  lemma {:induction false} RewrittenHoldsPair(items: seq<Item>, key: string, v: string)
    returns (a: seq<string>, b: seq<string>)
    ensures Flatten(Rewritten(items, key, v)) == a + [key, v] + b
  {
    var out := Rewritten(items, key, v);
    if |items| == 0 {
      a, b := [], [];
      assert out == [Pair(key, v)];
    } else {
      HasTail(items, key);
      if items[0].Pair? && (items[0].key == key || !Has(items, key)) {
        a, b := [], Flatten(out[1..]);
        assert out[0] == Pair(key, v);
        assert Flatten(out) == [key, v] + b;
      } else {
        var rest := Rewritten(items[1..], key, v);
        var a';
        a', b := RewrittenHoldsPair(items[1..], key, v);
        a := Tokens(items[0]) + a';
        assert out == [items[0]] + rest;
        assert out[1..] == rest;
        Regroup(Tokens(items[0]), a', [key, v], b);
      }
    }
  }

  /** A rewritten user name has the key in front of another token, so a second
      rewrite cannot meet a dangling tail. */
  lemma {:induction false} RewrittenNeverDangles(u: string, known: set<string>, key: string, v: string)
    requires u != "" && key in known && HYPHEN !in key
    ensures Rewrite(u, known, key, v).Ok? && Rewrite(u, known, key, v).value != ""
    ensures !DanglingTail(Rewrite(u, known, key, v).value, known)
  {
    var r := Rewrite(u, known, key, v).value;
    var a, b := RewrittenHoldsPair(Items(u, known), key, v);
    assert a + [key, v] + b == (a + [key]) + ([v] + b);
    JoinAppend(a + [key], [v] + b, HYPHEN);
    SplitAppend(Join(a + [key], HYPHEN), Join([v] + b, HYPHEN), HYPHEN);
    var left := Split(Join(a + [key], HYPHEN), HYPHEN);
    SplitCons(key, "", HYPHEN);
    if |a| > 0 {
      JoinAppend(a, [key], HYPHEN);
      SplitAppend(Join(a, HYPHEN), key, HYPHEN);
    } else {
      assert a + [key] == [key];
    }
    assert left[|left| - 1] == key;
    assert Split(r, HYPHEN)[|left| - 1] == key;
  }

  /** The second rewrite sets its own parameter and disturbs nothing of the first. */
  lemma {:induction false} SecondRewriteKeepsFirst(u: string, known: set<string>, k1: string, v1: string, k2: string,
                                                   v2: string)
    requires u != "" && k1 in known && k2 in known && k1 != k2
    requires HYPHEN !in k1 && HYPHEN !in k2 && HYPHEN !in v2 && v2 != ""
    ensures var r1 := Rewrite(u, known, k1, v1);
      r1.Ok? &&
      var r2 := Rewrite(r1.value, known, k2, v2);
      r2.Ok?
      && StickyId(r2.value, known, k1) == StickyId(r1.value, known, k1)
      && StickyId(r2.value, known, k2) == Ok(v2)
      && Strip(Items(r2.value, known), k2) == Strip(Items(r1.value, known), k2)
  {
    RewrittenNeverDangles(u, known, k1, v1);
    var r1 := Rewrite(u, known, k1, v1).value;
    RewriteReadsBack(r1, known, k2, v2);
    RewrittenLaws(Items(r1, known), k2, v2, v2);
    ParseAfterPrint(r1, known, k2, v2);
    var r2 := Rewrite(r1, known, k2, v2).value;
    ValuesOfOther(Items(r1, known), k2, k1);
    ValuesOfOther(Items(r2, known), k2, k1);
  }

  /** What an exit reads back from two chained rewrites, for every TTL. */
  lemma {:induction false} TwoRewritesReadBack(u: string, known: set<string>, sessionKey: string, account: string,
                                               ttlKey: string, ttlMin: int, maxTtl: nat)
    requires sessionKey in known && ttlKey in known && sessionKey != ttlKey
    requires HYPHEN !in sessionKey && HYPHEN !in ttlKey && account != "" && maxTtl >= 1
    ensures var r := TwoRewrites(u, known, sessionKey, account, ttlKey, ttlMin, maxTtl);
      (r.Ok? <==> u != "")
      && (r.Ok? ==>
          (StickyId(r.value, known, sessionKey) == Ok(account)
           <==> HYPHEN !in account
                && (!DanglingTail(u, known) || (TailIsKey(u, sessionKey) && account == sessionKey))))
      && (r.Ok? && ttlMin > 0 ==>
          StickyId(r.value, known, ttlKey) == Ok(Itoa(ClampInt(ttlMin, 1, maxTtl)))
          && 1 <= ClampInt(ttlMin, 1, maxTtl) <= maxTtl)
  {
    if u != "" {
      ParseAfterPrint(u, known, sessionKey, account);
      RewrittenNeverDangles(u, known, sessionKey, account);
      if ttlMin > 0 {
        var t := ClampInt(ttlMin, 1, maxTtl);
        ItoaHyphenFree(t);
        SecondRewriteKeepsFirst(u, known, sessionKey, account, ttlKey, Itoa(t));
      }
    }
  }

  /** 1024proxy: the exit reads the account back exactly unless the user name
      dangles; a configured TTL reads back clamped to 1..120; only the user name changes. */
  lemma {:induction false} C1024RoundTrip(base: Url, p: InjectParams)
    ensures C1024(base, p).Ok? <==> p.account != "" && Username(base) != ""
    ensures C1024(base, p).Ok? ==>
      var out := C1024(base, p).value;
      SameExit(out, base) && Password(out) == Password(base)
      && (StickyId(Username(out), C1024_KEYS, "sid") == Ok(p.account)
          <==> HYPHEN !in p.account
               && (!DanglingTail(Username(base), C1024_KEYS)
                  || (TailIsKey(Username(base), "sid") && p.account == "sid")))
      && (p.ttlMin > 0 ==>
            StickyId(Username(out), C1024_KEYS, "t") == Ok(Itoa(if p.ttlMin > 120 then 120 else p.ttlMin)))
      && (p.ttlMin <= 0 ==> Rewrite(Username(base), C1024_KEYS, "sid", p.account) == Ok(Username(out)))
  {
    if p.account != "" {
      TwoRewritesReadBack(Username(base), C1024_KEYS, "sid", p.account, "t", p.ttlMin, 120);
    }
  }

  // ---------- decodo ----------

  /** A leading plain token survives a rewrite in front position. */
  lemma {:induction false} RewriteKeepsHead(u: string, known: set<string>, key: string, v: string, head: string)
    requires head + "-" <= u && HYPHEN !in head && head !in known
    ensures Rewrite(u, known, key, v).Ok? && head + "-" <= Rewrite(u, known, key, v).value
  {
    var tail := u[|head| + 1..];
    assert u == head + [HYPHEN] + tail;
    SplitCons(head, tail, HYPHEN);
    var items := Items(u, known);
    var out := Rewritten(items, key, v);
    assert items[0] == Plain(head);
    HasTail(items, key);
    assert out[0] == Plain(head);
    RewrittenTokens(items, key, v);
    var toks := Flatten(out);
    assert toks[0] == head && |toks| >= 2;
    assert Join(toks, HYPHEN) == head + [HYPHEN] + Join(toks[1..], HYPHEN);
  }

  /** decodo: the "user-" prefix survives both rewrites, and the session reads back
      exactly unless the user name dangles; the duration is clamped to 1..1440. */
  lemma {:induction false} DecodoRoundTrip(base: Url, p: InjectParams)
    ensures Decodo(base, p).Ok? <==> p.account != "" && "user-" <= Username(base)
    ensures Decodo(base, p).Ok? ==>
      var out := Decodo(base, p).value;
      SameExit(out, base) && Password(out) == Password(base) && "user-" <= Username(out)
      && (StickyId(Username(out), DECODO_KEYS, "session") == Ok(p.account)
          <==> HYPHEN !in p.account
               && (!DanglingTail(Username(base), DECODO_KEYS)
                   || (TailIsKey(Username(base), "session") && p.account == "session")))
      && (p.ttlMin > 0 ==>
            StickyId(Username(out), DECODO_KEYS, "sessionduration")
            == Ok(Itoa(if p.ttlMin > 1440 then 1440 else p.ttlMin)))
      && (p.ttlMin <= 0 ==> Rewrite(Username(base), DECODO_KEYS, "session", p.account) == Ok(Username(out)))
  {
    if p.account != "" && "user-" <= Username(base) {
      var u := Username(base);
      TwoRewritesReadBack(u, DECODO_KEYS, "session", p.account, "sessionduration", p.ttlMin, 1440);
      RewriteKeepsHead(u, DECODO_KEYS, "session", p.account, "user");
      var r1 := Rewrite(u, DECODO_KEYS, "session", p.account).value;
      if p.ttlMin > 0 {
        RewriteKeepsHead(r1, DECODO_KEYS, "sessionduration", Itoa(ClampInt(p.ttlMin, 1, 1440)), "user");
      }
    }
  }

  // ---------- Inputs that do not read back ----------

  lemma {:induction false} SplitTwo(a: string, b: string)
    requires HYPHEN !in a && HYPHEN !in b
    ensures Split(a + "-" + b, HYPHEN) == [a, b]
  {
    assert a + "-" + b == a + [HYPHEN] + b;
    SplitCons(a, b, HYPHEN);
    SplitCons(b, "", HYPHEN);
  }

  lemma {:induction false} TwoTokensDangle(a: string, b: string, known: set<string>)
    requires HYPHEN !in a && HYPHEN !in b && a !in known && b in known
    ensures DanglingTail(a + "-" + b, known) && Parts(a + "-" + b).1 == b
  {
    SplitTwo(a, b);
  }

  /** 1024proxy: behind the stored user name "key-sid" the exit cannot read the account. */
  lemma {:induction false} C1024Dangles(base: Url, p: InjectParams)
    requires Username(base) == "key-sid" && p.account != "" && p.account != "sid"
    ensures C1024(base, p).Ok?
      && StickyId(Username(C1024(base, p).value), C1024_KEYS, "sid") != Ok(p.account)
  {
    assert "key" + "-" + "sid" == "key-sid";
    TwoTokensDangle("key", "sid", C1024_KEYS);
    C1024RoundTrip(base, p);
  }

  /** decodo: the same behind "user-session". */
  lemma {:induction false} DecodoDangles(base: Url, p: InjectParams)
    requires Username(base) == "user-session" && p.account != "" && p.account != "session"
    ensures Decodo(base, p).Ok?
      && StickyId(Username(Decodo(base, p).value), DECODO_KEYS, "session") != Ok(p.account)
  {
    assert "user" + "-" + "session" == "user-session";
    TwoTokensDangle("user", "session", DECODO_KEYS);
    assert "user-" <= Username(base);
    DecodoRoundTrip(base, p);
  }
}

/** The dataimpulse user name `<login>__<key>.<value>[;<key>.<value>...]`: the
    injector that appends a session and the exit's parser for it. */
module DataImpulse {
  import opened Text

  datatype SessionError = NoParameters | SessionEmpty | SessionRepeated | SessionMissing

  const MARK := "__"
  const SEMI := ';'
  const SESSION := "sessid"
  const SESSION_DOT := "sessid."

  predicate MarkAt(s: string, j: int) { 0 <= j < |s| - 1 && s[j] == '_' && s[j + 1] == '_' }

  /** The first position of the parameter mark, or -1. */
  function IndexMark(s: string): (i: int)
    ensures i == -1 || MarkAt(s, i)
  {
    if |s| < 2 then -1
    else if MarkAt(s, 0) then 0
    else var r := IndexMark(s[1..]); if r < 0 then -1 else r + 1
  }

  lemma {:induction false} IndexMarkIsFirst(s: string, j: int)
    requires MarkAt(s, j)
    ensures 0 <= IndexMark(s) <= j
  {
    if j > 0 && !MarkAt(s, 0) {
      IndexMarkIsFirst(s[1..], j - 1);
    }
  }

  function Login(u: string): string {
    var i := IndexMark(u);
    if i < 0 then u else u[..i]
  }

  function Params(u: string): string {
    var i := IndexMark(u);
    if i < 0 then "" else u[i + 2..]
  }

  /** The trimmed, non-empty segments of a list of raw segments. */
  function Segments(raw: seq<string>): seq<string> {
    if |raw| == 0 then []
    else
      var seg := TrimSpace(raw[0]);
      if seg == "" then Segments(raw[1..]) else [seg] + Segments(raw[1..])
  }

  /** The segments a new session does not replace. */
  function Kept(segs: seq<string>): seq<string> {
    if |segs| == 0 then []
    else if SESSION_DOT <= segs[0] then Kept(segs[1..])
    else [segs[0]] + Kept(segs[1..])
  }

  /** The parameters of a user name that survive an injection. */
  function KeptOf(u: string): seq<string> { Kept(Segments(Split(Params(u), SEMI))) }

  function SessionUser(u: string, account: string): string {
    Login(u) + MARK + Join(KeptOf(u) + [SESSION_DOT + account], SEMI)
  }

  lemma {:induction false} KeptStep(raw: seq<string>, n: nat)
    requires n < |raw|
    ensures var seg := TrimSpace(raw[n]);
      Kept(Segments(raw[n..])) == (if seg == "" || SESSION_DOT <= seg then [] else [seg]) + Kept(Segments(raw[n + 1..]))
  {
    assert raw[n..][1..] == raw[n + 1..];
    var seg := TrimSpace(raw[n]);
    if seg != "" {
      AppendTail([seg], Segments(raw[n + 1..]));
    }
  }

  method InjectUser(u: string, account: string) returns (r: string)
    ensures r == SessionUser(u, account)
  {
    var login, params := u, "";
    var i := IndexMark(u);
    if i >= 0 {
      login, params := u[..i], u[i + 2..];
    }
    var raw := Split(params, SEMI);
    var kept: seq<string> := [];
    var n := 0;
    while n < |raw|
      invariant 0 <= n <= |raw|
      invariant kept + Kept(Segments(raw[n..])) == KeptOf(u)
    {
      var seg := TrimSpace(raw[n]);
      KeptStep(raw, n);
      n := n + 1;
      if seg == "" || SESSION_DOT <= seg {
        continue;
      }
      Assoc(kept, [seg], Kept(Segments(raw[n..])));
      kept := kept + [seg];
    }
    assert kept == KeptOf(u);
    kept := kept + [SESSION_DOT + account];
    r := login + MARK + Join(kept, SEMI);
  }

  // ---------- The exit's parser ----------

  /** The key before the first dot, and the value behind it ("" without a dot). */
  function Cut(seg: string): (string, string) {
    var i := IndexChar(seg, '.');
    if i < 0 then (seg, "") else (seg[..i], seg[i + 1..])
  }

  /** The session values among raw segments; a bare key counts as an empty value. */
  function Sessions(raw: seq<string>): seq<string> {
    if |raw| == 0 then []
    else
      var (key, value) := Cut(TrimSpace(raw[0]));
      if key == SESSION then [value] + Sessions(raw[1..]) else Sessions(raw[1..])
  }

  function Verdict(values: seq<string>): Result<string, SessionError> {
    if |values| == 0 then Err(SessionMissing)
    else if values[0] == "" then Err(SessionEmpty)
    else if |values| == 1 then Ok(values[0])
    else if values[1] == "" then Err(SessionEmpty)
    else Err(SessionRepeated)
  }

  function StickyId(username: string): Result<string, SessionError> {
    if IndexMark(username) < 0 then Err(NoParameters)
    else Verdict(Sessions(Split(Params(username), SEMI)))
  }

  /** The parser accepts exactly a user name whose parameters hold one session value, a non-empty
      one; otherwise the error is that of the first problem in order. */
  lemma {:induction false} StickyIdAccepts(username: string, v: string)
    ensures var r, some := StickyId(username), IndexMark(username) >= 0;
      && (r == Err(NoParameters) <==> !some)
      && (some ==>
            var vs := Sessions(Split(Params(username), SEMI));
            && (r == Ok(v) <==> v != "" && vs == [v])
            && (r == Err(SessionMissing) <==> vs == [])
            && (r == Err(SessionEmpty) <==> [""] <= vs || (|vs| > 1 && vs[1] == ""))
            && (r == Err(SessionRepeated) <==> |vs| > 1 && vs[0] != "" && vs[1] != ""))
  {
    if IndexMark(username) >= 0 {
      var vs := Sessions(Split(Params(username), SEMI));
      assert |vs| == 1 ==> vs == [vs[0]];
    }
  }

  method DataImpulseStickyId(username: string) returns (r: Result<string, SessionError>)
    ensures r == StickyId(username)
  {
    var at := IndexMark(username);
    if at < 0 {
      return Err(NoParameters);
    }
    var raw := Split(username[at + 2..], SEMI);
    var id := "";
    var n := 0;
    while n < |raw|
      invariant 0 <= n <= |raw|
      invariant Sessions(raw) == (if id == "" then [] else [id]) + Sessions(raw[n..])
    {
      var (key, value) := Cut(TrimSpace(raw[n]));
      assert raw[n..][1..] == raw[n + 1..];
      n := n + 1;
      if key != SESSION {
        continue;
      }
      if value == "" {
        return Err(SessionEmpty);
      }
      if id != "" {
        return Err(SessionRepeated);
      }
      id := value;
    }
    if id == "" {
      return Err(SessionMissing);
    }
    return Ok(id);
  }

  // ---------- Where the parameters of the printed name start ----------

  /** A login that, without a parameter section, would lend an underscore to the mark. */
  predicate LendsUnderscore(u: string) {
    IndexMark(u) < 0 && u != "" && u[|u| - 1] == '_'
  }

  lemma {:induction false} MarkPosition(u: string, tail: string)
    ensures !LendsUnderscore(u) ==> IndexMark(Login(u) + MARK + tail) == |Login(u)|
    ensures LendsUnderscore(u) ==> IndexMark(Login(u) + MARK + tail) == |u| - 1
  {
    var login := Login(u);
    var out := login + MARK + tail;
    var i := IndexMark(out);
    var at := if LendsUnderscore(u) then |u| - 1 else |login|;
    assert MarkAt(out, at);
    IndexMarkIsFirst(out, at);
    if i < at {
      assert u[i] == out[i];
      assert i + 1 < |login| ==> u[i + 1] == out[i + 1];
      if MarkAt(u, i) {
        IndexMarkIsFirst(u, i);
      }
    }
  }

  lemma {:induction false} PrintedParams(u: string, account: string)
    requires !LendsUnderscore(u)
    ensures IndexMark(SessionUser(u, account)) >= 0
    ensures Login(SessionUser(u, account)) == Login(u)
    ensures Params(SessionUser(u, account)) == Join(KeptOf(u) + [SESSION_DOT + account], SEMI)
  {
    var tail := Join(KeptOf(u) + [SESSION_DOT + account], SEMI);
    MarkPosition(u, tail);
    var out := Login(u) + MARK + tail;
    assert out[|Login(u)| + 2..] == tail;
  }

  // ---------- The segments ----------

  predicate CleanSegment(seg: string) {
    seg != "" && TrimSpace(seg) == seg && SEMI !in seg && !(SESSION_DOT <= seg)
  }

  lemma {:induction false} KeptAreClean(raw: seq<string>)
    requires forall i :: 0 <= i < |raw| ==> SEMI !in raw[i]
    ensures forall s :: s in Kept(Segments(raw)) ==> CleanSegment(s)
  {
    if |raw| > 0 {
      KeptAreClean(raw[1..]);
      TrimSpaceFacts(raw[0]);
      TrimSpaceFacts(TrimSpace(raw[0]));
    }
  }

  /** A clean segment holds a session only as the bare word. */
  lemma CleanCut(seg: string)
    requires CleanSegment(seg)
    ensures Cut(seg).0 == SESSION <==> seg == SESSION
    ensures seg == SESSION ==> Cut(seg).1 == ""
  {
    var i := IndexChar(seg, '.');
    if i >= 0 {
      assert seg[..i + 1] == seg[..i] + ".";
      assert SESSION + "." == SESSION_DOT;
    } else {
      assert '.' !in seg;
    }
    assert '.' !in SESSION;
  }

  lemma {:induction false} CleanSessions(kept: seq<string>, tail: seq<string>)
    requires forall s :: s in kept ==> CleanSegment(s)
    ensures SESSION !in kept ==> Sessions(kept + tail) == Sessions(tail)
    ensures SESSION in kept ==> |Sessions(kept + tail)| > 0 && Sessions(kept + tail)[0] == ""
  {
    if |kept| == 0 {
      assert kept + tail == tail;
    } else {
      assert kept[0] in kept;
      CleanCut(kept[0]);
      CleanSessions(kept[1..], tail);
      assert (kept + tail)[1..] == kept[1..] + tail;
    }
  }

  lemma {:induction false} SegmentsOfClean(kept: seq<string>, tail: seq<string>)
    requires forall s :: s in kept ==> CleanSegment(s)
    ensures Segments(kept + tail) == kept + Segments(tail)
  {
    if |kept| == 0 {
      assert kept + tail == tail;
    } else {
      assert kept[0] in kept;
      SegmentsOfClean(kept[1..], tail);
      assert (kept + tail)[1..] == kept[1..] + tail;
    }
  }

  predicate EndsBlank(s: string) { s != "" && IsSpace(s[|s| - 1]) }

  /** Trimming a written session takes nothing off exactly if the account ends in no blank. */
  lemma {:induction false} TrimmedSession(account: string)
    requires account != ""
    ensures TrimSpace(SESSION_DOT + account) <= SESSION_DOT + account
    ensures TrimSpace(SESSION_DOT + account) == SESSION_DOT + account <==> !EndsBlank(account)
  {
    var seg := SESSION_DOT + account;
    assert TrimLeft(seg) == seg;
    TrimRightFacts(seg);
    TrimSpaceFacts(seg);
    assert seg[|seg| - 1] == account[|account| - 1];
    if !EndsBlank(account) {
      assert Trimmed(seg);
    }
  }

  lemma {:induction false} SessionSegment(account: string)
    requires account != ""
    ensures Cut(TrimSpace(SESSION_DOT + account)).0 == SESSION
    ensures Cut(TrimSpace(SESSION_DOT + account)).1 == account <==> !EndsBlank(account)
    ensures !EndsBlank(account) ==> TrimSpace(SESSION_DOT + account) == SESSION_DOT + account
  {
    TrimmedSession(account);
    KeepsSessionDot(account);
    var t := TrimSpace(SESSION_DOT + account);
    assert t == SESSION_DOT + t[7..];
    CutSession(t[7..]);
    SamePrefix(SESSION_DOT, t[7..], account);
  }

  lemma {:induction false} CutSession(value: string)
    ensures Cut(SESSION_DOT + value) == (SESSION, value)
  {
    var t := SESSION_DOT + value;
    assert t[..6] == SESSION && '.' !in SESSION;
    IndexCharIs(t, '.', 6);
    assert t[..6] == SESSION && t[7..] == value;
  }

  lemma {:induction false} KeepsSessionDot(account: string)
    ensures SESSION_DOT <= TrimRight(SESSION_DOT + account)
  {
    var seg := SESSION_DOT + account;
    if account != "" {
      var shorter := account[..|account| - 1];
      assert seg[..|seg| - 1] == SESSION_DOT + shorter;
      KeepsSessionDot(shorter);
    }
  }

  /** A session value the parser returns never contains a separator. */
  lemma {:induction false} SessionsAreClean(raw: seq<string>)
    requires forall i :: 0 <= i < |raw| ==> SEMI !in raw[i]
    ensures forall v :: v in Sessions(raw) ==> SEMI !in v
  {
    if |raw| > 0 {
      SessionsAreClean(raw[1..]);
      TrimSpaceFacts(raw[0]);
    }
  }

  lemma {:induction false} StickyIdHasNoSeparator(username: string)
    ensures StickyId(username).Ok? ==> SEMI !in StickyId(username).value
  {
    SessionsAreClean(Split(Params(username), SEMI));
    var vs := Sessions(Split(Params(username), SEMI));
    assert |vs| > 0 ==> vs[0] in vs;
  }

  // ---------- Main results ----------

  lemma {:induction false} PrintedSegments(u: string, account: string)
    requires account != "" && SEMI !in account && !LendsUnderscore(u)
    ensures Split(Params(SessionUser(u, account)), SEMI) == KeptOf(u) + [SESSION_DOT + account]
    ensures forall s :: s in KeptOf(u) ==> CleanSegment(s)
  {
    PrintedParams(u, account);
    KeptAreClean(Split(Params(u), SEMI));
    var segs := KeptOf(u) + [SESSION_DOT + account];
    forall i | 0 <= i < |segs| ensures SEMI !in segs[i] {
      if i < |KeptOf(u)| {
        assert segs[i] in KeptOf(u);
      }
    }
    SplitJoin(segs, SEMI);
  }

  lemma {:induction false} LentUnderscoreHidesSession(u: string, account: string)
    requires account != "" && SEMI !in account && LendsUnderscore(u)
    ensures StickyId(SessionUser(u, account)) == Err(SessionMissing)
  {
    var out := SessionUser(u, account);
    assert Split("", SEMI) == [""];
    assert Segments([""]) == [];
    assert KeptOf(u) == [];
    var seg := SESSION_DOT + account;
    assert Join([] + [seg], SEMI) == seg;
    MarkPosition(u, seg);
    assert Params(out) == "_" + seg;
    SplitCons("_" + seg, "", SEMI);
    var t := TrimSpace("_" + seg);
    assert TrimLeft("_" + seg) == "_" + seg;
    TrimRightFacts("_" + seg);
    assert t == "" || t[0] == '_';
    assert Cut(t).0 != SESSION;
    assert Sessions(["_" + seg]) == [];
  }

  /** The round trip, exactly: the exit reads back the account if and only if it
      has no separator and no blank at its end, the login lends no underscore to
      the mark, and no parameter is the bare word "sessid". */
  lemma {:induction false} RoundTrip(u: string, account: string)
    requires account != ""
    ensures StickyId(SessionUser(u, account)) == Ok(account)
            <==> SEMI !in account && !EndsBlank(account) && !LendsUnderscore(u) && SESSION !in KeptOf(u)
  {
    if SEMI in account {
      StickyIdHasNoSeparator(SessionUser(u, account));
    } else if LendsUnderscore(u) {
      LentUnderscoreHidesSession(u, account);
    } else {
      PrintedParams(u, account);
      PrintedSegments(u, account);
      CleanSessions(KeptOf(u), [SESSION_DOT + account]);
      SessionSegment(account);
      assert Sessions([SESSION_DOT + account]) == [Cut(TrimSpace(SESSION_DOT + account)).1];
    }
  }

  /** Login and all other parameters survive, trimmed and in order, in front of the session. */
  lemma {:induction false} OthersSurvive(u: string, account: string)
    requires account != "" && SEMI !in account && !EndsBlank(account) && !LendsUnderscore(u)
    ensures Login(SessionUser(u, account)) == Login(u)
    ensures Segments(Split(Params(SessionUser(u, account)), SEMI)) == KeptOf(u) + [SESSION_DOT + account]
  {
    PrintedParams(u, account);
    PrintedSegments(u, account);
    SessionSegment(account);
    SegmentsOfClean(KeptOf(u), [SESSION_DOT + account]);
    assert Segments([SESSION_DOT + account]) == [SESSION_DOT + account];
  }

  /** An input that does not read back: the login "login_" with any account. */
  lemma {:induction false} LoginEndsInUnderscore(account: string)
    requires account != ""
    ensures StickyId(SessionUser("login_", account)) != Ok(account)
  {
    var u := "login_";
    assert forall j :: 0 <= j < |u| - 1 ==> !MarkAt(u, j);
    RoundTrip(u, account);
  }
}

/** The exit platforms: which injector each uses, what an injector may change, and
    how an exit of each platform reads the session identity back. */
module Platforms {
  import opened Text
  import opened Injectors
  import FlatUsername
  import DataImpulse
  import Template

  const C1024_PLATFORM := "1024proxy"
  const DATAIMPULSE_PLATFORM := "dataimpulse"
  const DECODO_PLATFORM := "decodo"
  const GENERIC_PLATFORM := "generic"
  const PLAIN_PLATFORM := "plain"
  const RESIN_PLATFORM := "resin"

  const REGISTERED := {C1024_PLATFORM, DATAIMPULSE_PLATFORM, DECODO_PLATFORM, GENERIC_PLATFORM, PLAIN_PLATFORM,
      RESIN_PLATFORM}

  /** The platforms whose exits read a session on their own. */
  const SESSION_PLATFORMS := {C1024_PLATFORM, DECODO_PLATFORM, DATAIMPULSE_PLATFORM, RESIN_PLATFORM}

  /** An exit entry; template and password are used by the generic platform only. */
  datatype Exit = Exit(id: int, name: string, platform: string, base: Url, enabled: bool, template: string,
      password: string)

  // ---------- Injectors ----------

  function TemplateArgs(base: Url, p: InjectParams): Template.Args {
    Template.Args(Username(base), p.account, p.ttlMin, p.country)
  }

  function Generic(base: Url, template: string, password: string, p: InjectParams): Result<Url, InjectError> {
    if template == "" then Err(TemplateMissing)
    else if Template.Scan(template, p.ttlMin).Some? then Err(TemplateInvalid)
    else Ok(RewriteUser(base, Template.Render(template, TemplateArgs(base, p)),
                        if password != "" then Some(password) else None))
  }

  function DataImpulseInject(base: Url, p: InjectParams): Result<Url, InjectError> {
    if p.account == "" then Err(AccountEmpty)
    else Ok(RewriteUser(base, DataImpulse.SessionUser(Username(base), p.account), None))
  }

  /** What stands before the first dot. */
  function BeforeDot(u: string): string {
    var i := IndexChar(u, '.');
    if i < 0 then u else u[..i]
  }

  function Resin(base: Url, p: InjectParams): Result<Url, InjectError> {
    if p.account == "" then Err(AccountEmpty)
    else if Username(base) == "" then Err(ResinUserEmpty)
    else Ok(RewriteUser(base, BeforeDot(Username(base)) + "." + p.account, None))
  }

  /** The injector of the exit's platform, applied; None without one. */
  function Inject(u: Exit, p: InjectParams): Option<Result<Url, InjectError>> {
    if u.platform == C1024_PLATFORM then Some(C1024(u.base, p))
    else if u.platform == DATAIMPULSE_PLATFORM then Some(DataImpulseInject(u.base, p))
    else if u.platform == DECODO_PLATFORM then Some(Decodo(u.base, p))
    else if u.platform == GENERIC_PLATFORM then Some(Generic(u.base, u.template, u.password, p))
    else if u.platform == PLAIN_PLATFORM then Some(Ok(u.base))
    else if u.platform == RESIN_PLATFORM then Some(Resin(u.base, p))
    else None
  }

  /** Whatever the platform, an injection keeps scheme, host and the rest of the URL, and the
      password unless a static one is configured. */
  lemma {:induction false} InjectionKeepsExit(u: Exit, p: InjectParams)
    ensures Inject(u, p).Some? <==> u.platform in REGISTERED
    ensures Inject(u, p).Some? && Inject(u, p).value.Ok? ==>
      var out := Inject(u, p).value.value;
      && SameExit(out, u.base)
      && Password(out)
         == (if u.platform == GENERIC_PLATFORM && u.password != "" then Some(u.password) else Password(u.base))
  {
  }

  // ---------- The exit's side ----------

  datatype Rule = Rule(prefix: string, suffix: string)

  /** The session identity an exit of the platform reads from a user name. */
  function ReadSession(platform: string, username: string, rule: Rule): Option<string> {
    if platform == DATAIMPULSE_PLATFORM then Known(DataImpulse.StickyId(username))
    else if platform == DECODO_PLATFORM then Known(FlatUsername.StickyId(username, DECODO_KEYS, "session"))
    else if platform == C1024_PLATFORM then Known(FlatUsername.StickyId(username, C1024_KEYS, "sid"))
    else if platform == RESIN_PLATFORM then
      var i := IndexChar(username, '.');
      if i <= 0 || username[i + 1..] == "" then None else Some(username[i + 1..])
    else if platform == GENERIC_PLATFORM then
      if rule.prefix == "" || !(rule.prefix <= username) then None
      else
        var id := username[|rule.prefix|..];
        if !HasSuffix(id, rule.suffix) then None
        else if |id| == |rule.suffix| then None else Some(id[..|id| - |rule.suffix|])
    else None
  }

  function Known<E>(r: Result<string, E>): Option<string> { if r.Ok? then Some(r.value) else None }

  predicate HasSuffix(s: string, suffix: string) { |suffix| <= |s| && s[|s| - |suffix|..] == suffix }

  // ---------- resin and generic ----------

  /** resin: the exit reads the account back exactly if the platform part is not empty. */
  lemma {:induction false} ResinRoundTrip(base: Url, p: InjectParams, rule: Rule)
    ensures Resin(base, p).Ok? <==> p.account != "" && Username(base) != ""
    ensures Resin(base, p).Ok? ==>
      var out := Username(Resin(base, p).value);
      ReadSession(RESIN_PLATFORM, out, rule) == Some(p.account) <==> Username(base)[0] != '.'
  {
    if Resin(base, p).Ok? {
      var head := BeforeDot(Username(base));
      var u := head + "." + p.account;
      assert '.' !in u[..|head|] by { assert u[..|head|] == head; }
      IndexCharIs(u, '.', |head|);
      assert u[|head| + 1..] == p.account;
    }
  }

  /** resin: behind a stored user name that begins with a dot the exit cannot read the account. */
  lemma {:induction false} ResinNeedsPlatform(base: Url, p: InjectParams, rule: Rule)
    requires Username(base) == ".acct" && p.account != ""
    ensures Resin(base, p).Ok? && ReadSession(RESIN_PLATFORM, Username(Resin(base, p).value), rule) != Some(p.account)
  {
    ResinRoundTrip(base, p, rule);
  }

  lemma {:induction false} SubstituteAppend(a: seq<Template.Piece>, b: seq<Template.Piece>, args: Template.Args)
    ensures Template.Substitute(a + b, args) == Template.Substitute(a, args) + Template.Substitute(b, args)
  {
    if |a| == 0 {
      assert a + b == b;
    } else {
      AppendTail(a, b);
      SubstituteAppend(a[1..], b, args);
      Assoc(Template.PieceValue(a[0], args), Template.Substitute(a[1..], args), Template.Substitute(b, args));
    }
  }

  lemma {:induction false} SubstituteOne(p: Template.Piece, args: Template.Args)
    ensures Template.Substitute([p], args) == Template.PieceValue(p, args)
  {
    assert [p][1..] == [];
  }

  lemma {:induction false} SubstituteAround(before: seq<Template.Piece>, after: seq<Template.Piece>,
                                            args: Template.Args)
    ensures Template.Substitute(before + [Template.Hole("sid")] + after, args)
         == Template.Substitute(before, args) + args.sid + Template.Substitute(after, args)
  {
    SubstituteAppend(before + [Template.Hole("sid")], after, args);
    SubstituteAppend(before, [Template.Hole("sid")], args);
    SubstituteOne(Template.Hole("sid"), args);
  }

  lemma {:induction false} GenericRendering(before: seq<Template.Piece>, after: seq<Template.Piece>,
                                            args: Template.Args)
    requires Template.Good(before + [Template.Hole("sid")] + after, args.ttlMin)
    ensures Template.Render(Template.Print(before + [Template.Hole("sid")] + after), args)
         == Template.Substitute(before, args) + args.sid + Template.Substitute(after, args)
  {
    Template.RenderIsSubstitution(before + [Template.Hole("sid")] + after, args.ttlMin, args);
    SubstituteAround(before, after, args);
  }

  lemma {:induction false} CutMiddle(prefix: string, sid: string, suffix: string)
    requires prefix != ""
    ensures ReadSession(GENERIC_PLATFORM, prefix + sid + suffix, Rule(prefix, suffix))
         == if sid == "" then None else Some(sid)
  {
    var u := prefix + sid + suffix;
    assert u[|prefix|..] == sid + suffix;
    assert (sid + suffix)[|sid|..] == suffix && (sid + suffix)[..|sid|] == sid;
  }

  /** generic: with what the template around one {sid} renders to as the exit's rule, the exit
      reads the account back exactly if the part before it renders to something. */
  lemma {:induction false} GenericRoundTrip(base: Url, before: seq<Template.Piece>, after: seq<Template.Piece>,
                                            password: string, p: InjectParams)
    requires p.account != "" && Template.Good(before + [Template.Hole("sid")] + after, p.ttlMin)
    ensures
      var args := TemplateArgs(base, p);
      var rule := Rule(Template.Substitute(before, args), Template.Substitute(after, args));
      var out := Generic(base, Template.Print(before + [Template.Hole("sid")] + after), password, p);
      && out.Ok?
      && (ReadSession(GENERIC_PLATFORM, Username(out.value), rule) == Some(p.account) <==> rule.prefix != "")
  {
    var args := TemplateArgs(base, p);
    var pieces := before + [Template.Hole("sid")] + after;
    Template.GrammarAccepted("", pieces, p.ttlMin);
    assert "" + Template.Print(pieces) == Template.Print(pieces);
    GenericRendering(before, after, args);
    if Template.Substitute(before, args) != "" {
      CutMiddle(Template.Substitute(before, args), p.account, Template.Substitute(after, args));
    }
    assert Template.Print(pieces) != "" by { PrintNotEmpty(before, after); }
  }

  lemma {:induction false} HoleOnly(name: string, ttlMin: int, args: Template.Args)
    requires name in Template.PLACEHOLDERS && name != "ttl_min"
    ensures Template.Scan(Template.Print([Template.Hole(name)]), ttlMin) == None
    ensures Template.Render(Template.Print([Template.Hole(name)]), args) == Template.ValueOf(name, args)
  {
    var pieces := [Template.Hole(name)];
    Template.GrammarAccepted("", pieces, ttlMin);
    assert "" + Template.Print(pieces) == Template.Print(pieces);
    Template.RenderIsSubstitution(pieces, ttlMin, args);
    SubstituteOne(pieces[0], args);
  }

  lemma {:induction false} SidTemplate(template: string, ttlMin: int, args: Template.Args)
    requires template == "{sid}"
    ensures Template.Scan(template, ttlMin) == None && Template.Render(template, args) == args.sid
  {
    assert template == Template.Print([Template.Hole("sid")]) by {
      Template.PrintHole("sid");
    }
    HoleOnly("sid", ttlMin, args);
  }

  lemma RuleShortens(username: string, rule: Rule)
    ensures var id := ReadSession(GENERIC_PLATFORM, username, rule); id.Some? ==> |id.value| < |username|
  {
  }

  /** generic: the template "{sid}" is accepted, and under no rule does an exit read the account
      back: a rule takes a non-empty prefix off the user name, which is the account itself. */
  lemma {:induction false} GenericNeedsPrefix(base: Url, template: string, password: string, p: InjectParams,
                                              rule: Rule)
    requires p.account != "" && template == "{sid}"
    ensures Template.Scan(template, p.ttlMin) == None && Generic(base, template, password, p).Ok?
    ensures ReadSession(GENERIC_PLATFORM, Username(Generic(base, template, password, p).value), rule)
         != Some(p.account)
  {
    SidTemplate(template, p.ttlMin, TemplateArgs(base, p));
    RuleShortens(p.account, rule);
  }

  lemma {:induction false} LongerSid(pieces: seq<Template.Piece>, args: Template.Args, sid: string)
    requires |args.sid| < |sid|
    ensures |Template.Substitute(pieces, args)| <= |Template.Substitute(pieces, args.(sid := sid))|
    ensures Template.Hole("sid") in pieces ==>
      |Template.Substitute(pieces, args)| < |Template.Substitute(pieces, args.(sid := sid))|
  {
    if |pieces| > 0 {
      LongerSid(pieces[1..], args, sid);
      assert Template.Hole("sid") in pieces ==>
        pieces[0] == Template.Hole("sid") || Template.Hole("sid") in pieces[1..];
    }
  }

  lemma {:induction false} SameWithoutSid(piece: Template.Piece, args: Template.Args, sid: string)
    requires piece != Template.Hole("sid")
    ensures Template.PieceValue(piece, args.(sid := sid)) == Template.PieceValue(piece, args)
  {
  }

  lemma {:induction false} SidUnused(pieces: seq<Template.Piece>, args: Template.Args, sid: string)
    requires Template.Hole("sid") !in pieces
    ensures Template.Substitute(pieces, args.(sid := sid)) == Template.Substitute(pieces, args)
  {
    if |pieces| > 0 {
      assert pieces[0] in pieces && Template.Hole("sid") !in pieces[1..];
      SidUnused(pieces[1..], args, sid);
      SameWithoutSid(pieces[0], args, sid);
    }
  }

  /** What a part of the template renders to, and so the rule cut out of it, is the same for
      every account exactly if the part holds no further {sid}. */
  lemma {:induction false} RuleFixed(pieces: seq<Template.Piece>, args: Template.Args)
    ensures (forall sid :: Template.Substitute(pieces, args.(sid := sid)) == Template.Substitute(pieces, args))
            <==> Template.Hole("sid") !in pieces
  {
    if Template.Hole("sid") in pieces {
      LongerSid(pieces, args, args.sid + "x");
    } else {
      forall sid ensures Template.Substitute(pieces, args.(sid := sid)) == Template.Substitute(pieces, args) {
        SidUnused(pieces, args, sid);
      }
    }
  }

  /** generic: an accepted template prints the stored user name, the account, the TTL and the
      country where it has their placeholders. */
  lemma {:induction false} GenericRenders(base: Url, pieces: seq<Template.Piece>, password: string, p: InjectParams)
    requires Template.Good(pieces, p.ttlMin) && Template.Print(pieces) != ""
    ensures Generic(base, Template.Print(pieces), password, p).Ok?
    ensures Username(Generic(base, Template.Print(pieces), password, p).value)
         == Template.Substitute(pieces, Template.Args(user := Username(base), sid := p.account, ttlMin := p.ttlMin,
                                                      country := p.country))
  {
    Template.GrammarAccepted("", pieces, p.ttlMin);
    assert "" + Template.Print(pieces) == Template.Print(pieces);
    Template.RenderIsSubstitution(pieces, p.ttlMin, TemplateArgs(base, p));
  }

  lemma {:induction false} PrintNotEmpty(before: seq<Template.Piece>, after: seq<Template.Piece>)
    ensures Template.Print(before + [Template.Hole("sid")] + after) != ""
  {
    var pieces := before + [Template.Hole("sid")] + after;
    if |before| > 0 {
      assert pieces[1..] == before[1..] + [Template.Hole("sid")] + after;
      PrintNotEmpty(before[1..], after);
    } else {
      assert pieces[0] == Template.Hole("sid");
    }
  }

  // ---------- One account through any platform ----------

  /** What keeps an exit of the platform from reading the account back. */
  predicate Hides(platform: string, username: string) {
    if platform == C1024_PLATFORM then FlatUsername.DanglingTail(username, C1024_KEYS)
    else if platform == DECODO_PLATFORM then FlatUsername.DanglingTail(username, DECODO_KEYS)
    else if platform == DATAIMPULSE_PLATFORM then
      DataImpulse.LendsUnderscore(username) || DataImpulse.SESSION in DataImpulse.KeptOf(username)
    else "." <= username
  }

  /** A session identity as the router makes it: lower-case letters and digits. */
  predicate PlainId(s: string) {
    s != "" && s != "sid" && s != "session" && forall c :: c in s ==> 'a' <= c <= 'z' || '0' <= c <= '9'
  }

  lemma PlainIdFacts(s: string)
    requires PlainId(s)
    ensures '-' !in s && ';' !in s && !DataImpulse.EndsBlank(s)
  {
    assert s[|s| - 1] in s;
  }

  lemma {:induction false} FlatSessionReadsBack(u: Exit, p: InjectParams, rule: Rule)
    requires u.platform == C1024_PLATFORM || u.platform == DECODO_PLATFORM
    requires PlainId(p.account) && Inject(u, p).Some? && Inject(u, p).value.Ok?
    ensures ReadSession(u.platform, Username(Inject(u, p).value.value), rule) == Some(p.account)
            <==> !Hides(u.platform, Username(u.base))
  {
    PlainIdFacts(p.account);
    if u.platform == C1024_PLATFORM {
      C1024RoundTrip(u.base, p);
    } else {
      DecodoRoundTrip(u.base, p);
    }
  }

  /** An identity, written by the injector of a session platform, is what the exit reads
      back, exactly when the stored user name does not hide it. */
  lemma {:induction false} SessionReadsBack(u: Exit, p: InjectParams, rule: Rule)
    requires u.platform in SESSION_PLATFORMS
    requires PlainId(p.account) && Inject(u, p).Some? && Inject(u, p).value.Ok?
    ensures ReadSession(u.platform, Username(Inject(u, p).value.value), rule) == Some(p.account)
            <==> !Hides(u.platform, Username(u.base))
  {
    if u.platform == C1024_PLATFORM || u.platform == DECODO_PLATFORM {
      FlatSessionReadsBack(u, p, rule);
    } else if u.platform == DATAIMPULSE_PLATFORM {
      PlainIdFacts(p.account);
      DataImpulse.RoundTrip(Username(u.base), p.account);
    } else {
      ResinRoundTrip(u.base, p, rule);
    }
  }
}

/** The user-name template of the generic platform: the scanner that accepts a
    template, and the substitution that renders it. */
module Template {
  import opened Text

  datatype Problem = UnmatchedClose | Unclosed | Undefined(name: string) | TtlDisabled

  const PLACEHOLDERS := {"user", "sid", "ttl_min", "country"}

  // ---------- The scanner ----------

  datatype Step = Stop(problem: Problem) | Done | Next(text: string, name: string, tail: string)

  /** What the scanner finds first: text and a placeholder, the end, or a problem. */
  function ScanStep(rest: string, ttlMin: int): (s: Step)
    ensures s.Next? ==> |s.tail| < |rest|
  {
    var open := IndexChar(rest, '{');
    var close := IndexChar(rest, '}');
    if close >= 0 && (open < 0 || close < open) then Stop(UnmatchedClose)
    else if open < 0 then Done
    else
      var behind := rest[open + 1..];
      var end := IndexChar(behind, '}');
      if end < 0 then Stop(Unclosed)
      else if behind[..end] !in PLACEHOLDERS then Stop(Undefined(behind[..end]))
      else if behind[..end] == "ttl_min" && ttlMin <= 0 then Stop(TtlDisabled)
      else Next(rest[..open], behind[..end], behind[end + 1..])
  }

  /** The scanner's verdict on the rest of a template. */
  function Scan(rest: string, ttlMin: int): Option<Problem>
    decreases |rest|
  {
    match ScanStep(rest, ttlMin)
    case Stop(problem) => Some(problem)
    case Done => None
    case Next(_, _, tail) => Scan(tail, ttlMin)
  }

  method ValidateTemplate(template: string, ttlMin: int) returns (problem: Option<Problem>)
    ensures problem == Scan(template, ttlMin)
  {
    var rest := template;
    while rest != ""
      invariant Scan(rest, ttlMin) == Scan(template, ttlMin)
      decreases |rest|
    {
      var open := IndexChar(rest, '{');
      var close := IndexChar(rest, '}');
      if close >= 0 && (open < 0 || close < open) {
        return Some(UnmatchedClose);
      }
      if open < 0 {
        return None;
      }
      rest := rest[open + 1..];
      close := IndexChar(rest, '}');
      if close < 0 {
        return Some(Unclosed);
      }
      var name := rest[..close];
      if name !in PLACEHOLDERS {
        return Some(Undefined(name));
      }
      if name == "ttl_min" && ttlMin <= 0 {
        return Some(TtlDisabled);
      }
      rest := rest[close + 1..];
    }
    return None;
  }

  // ---------- The grammar ----------

  datatype Piece = Text(text: string) | Hole(name: string)

  predicate GoodPiece(p: Piece, ttlMin: int) {
    match p
    case Text(t) => '{' !in t && '}' !in t
    case Hole(name) => name in PLACEHOLDERS && (name == "ttl_min" ==> ttlMin > 0)
  }

  predicate Good(pieces: seq<Piece>, ttlMin: int) {
    forall p :: p in pieces ==> GoodPiece(p, ttlMin)
  }

  predicate BraceFree(s: string) { '{' !in s && '}' !in s }

  function PrintPiece(p: Piece): string {
    match p
    case Text(t) => t
    case Hole(name) => "{" + name + "}"
  }

  function Print(pieces: seq<Piece>): string {
    if |pieces| == 0 then "" else PrintPiece(pieces[0]) + Print(pieces[1..])
  }

  /** Brace-free text interleaved with known placeholders. */
  ghost predicate InGrammar(template: string, ttlMin: int) {
    exists pieces :: Good(pieces, ttlMin) && Print(pieces) == template
  }

  lemma {:induction false} IndexCharAfter(pre: string, c: char, tail: string)
    requires c !in pre
    ensures IndexChar(pre + [c] + tail, c) == |pre|
    ensures c !in tail ==> IndexChar(pre + tail, c) == -1
  {
    assert (pre + [c] + tail)[..|pre|] == pre;
    IndexCharIs(pre + [c] + tail, c, |pre|);
  }

  lemma NamesHaveNoBraces(name: string)
    requires name in PLACEHOLDERS
    ensures '{' !in name && '}' !in name
  {
  }

  lemma PlaceholderSlices(t: string, name: string, tail: string)
    ensures var s := t + "{" + name + "}" + tail;
      && s == t + ['{'] + (name + ['}'] + tail) && s == (t + "{" + name) + ['}'] + tail
      && s[|t| + 1..] == name + ['}'] + tail
      && s[|t| + 1..][..|name|] == name && s[|t| + 1..][|name| + 1..] == tail
  {
  }

  /** The scanner finds a well-formed placeholder behind brace-free text. */
  lemma {:induction false} FindsPlaceholder(t: string, name: string, tail: string)
    requires '{' !in t && '}' !in t && '{' !in name && '}' !in name
    ensures var s := t + "{" + name + "}" + tail;
      && IndexChar(s, '{') == |t| && IndexChar(s, '}') == |t| + 1 + |name|
      && IndexChar(s[|t| + 1..], '}') == |name|
      && s[|t| + 1..][..|name|] == name && s[|t| + 1..][|name| + 1..] == tail
  {
    PlaceholderSlices(t, name, tail);
    IndexCharAfter(t, '{', name + ['}'] + tail);
    IndexCharAfter(t + "{" + name, '}', tail);
    IndexCharAfter(name, '}', tail);
  }

  lemma {:induction false} FirstStep(t: string, name: string, tail: string, ttlMin: int)
    requires '{' !in t && '}' !in t && '{' !in name && '}' !in name
    ensures var step := ScanStep(t + "{" + name + "}" + tail, ttlMin);
      if name !in PLACEHOLDERS then step == Stop(Undefined(name))
      else if name == "ttl_min" && ttlMin <= 0 then step == Stop(TtlDisabled)
      else step.Next? && step.tail == tail
  {
    FindsPlaceholder(t, name, tail);
  }

  lemma {:induction false} PlaceholderStep(t: string, name: string, tail: string, ttlMin: int)
    requires '{' !in t && '}' !in t && name in PLACEHOLDERS
    ensures Scan(t + "{" + name + "}" + tail, ttlMin)
         == if name == "ttl_min" && ttlMin <= 0 then Some(TtlDisabled) else Scan(tail, ttlMin)
  {
    NamesHaveNoBraces(name);
    FirstStep(t, name, tail, ttlMin);
  }

  lemma {:induction false} TextOnly(t: string, ttlMin: int)
    requires '{' !in t && '}' !in t
    ensures Scan(t, ttlMin) == None
  {
  }

  lemma TextHead(t: string, u: string, rest: seq<Piece>)
    ensures t + Print([Text(u)] + rest) == (t + u) + Print(rest)
  {
    assert ([Text(u)] + rest)[1..] == rest;
    Assoc(t, u, Print(rest));
  }

  lemma HoleHead(t: string, name: string, rest: seq<Piece>)
    ensures t + Print([Hole(name)] + rest) == t + "{" + name + "}" + Print(rest)
  {
    assert ([Hole(name)] + rest)[1..] == rest;
    Assoc(t, "{" + name + "}", Print(rest));
    Assoc(t, "{" + name, "}");
    Assoc(t, "{", name);
  }

  /** Whatever the grammar prints, behind any brace-free text, is accepted. */
  lemma {:induction false} GrammarAccepted(t: string, pieces: seq<Piece>, ttlMin: int)
    requires '{' !in t && '}' !in t && Good(pieces, ttlMin)
    ensures Scan(t + Print(pieces), ttlMin) == None
    decreases pieces
  {
    if |pieces| == 0 {
      assert t + Print(pieces) == t;
      TextOnly(t, ttlMin);
    } else {
      assert pieces[0] in pieces;
      var rest := pieces[1..];
      assert pieces == [pieces[0]] + rest;
      match pieces[0] {
        case Text(u) =>
          TextHead(t, u, rest);
          GrammarAccepted(t + u, rest, ttlMin);
        case Hole(name) =>
          HoleHead(t, name, rest);
          PlaceholderStep(t, name, Print(rest), ttlMin);
          assert "" + Print(rest) == Print(rest);
          GrammarAccepted("", rest, ttlMin);
      }
    }
  }

  lemma SplitAtBraces(s: string, open: nat, end: nat)
    requires open < |s| && s[open] == '{' && end < |s| - open - 1 && s[open + 1 + end] == '}'
    ensures s == s[..open] + "{" + s[open + 1..][..end] + "}" + s[open + 1..][end + 1..]
  {
  }

  lemma NoneBefore(s: string, c: char, i: nat, j: nat)
    requires i <= j <= |s| && c !in s[..j]
    ensures c !in s[..i]
  {
    assert s[..i] == s[..j][..i];
  }

  /** What stands in front of the first placeholder holds no brace. */
  lemma {:induction false} StepText(rest: string, ttlMin: int)
    requires ScanStep(rest, ttlMin).Next?
    ensures GoodPiece(Text(ScanStep(rest, ttlMin).text), ttlMin)
  {
    var open, close := IndexChar(rest, '{'), IndexChar(rest, '}');
    NoneBefore(rest, '}', open, if close >= 0 then close else |rest|);
  }

  lemma {:induction false} StepPieces(rest: string, ttlMin: int)
    requires ScanStep(rest, ttlMin).Next?
    ensures var Next(t, name, tail) := ScanStep(rest, ttlMin);
      rest == t + "{" + name + "}" + tail && GoodPiece(Text(t), ttlMin) && GoodPiece(Hole(name), ttlMin)
  {
    var open := IndexChar(rest, '{');
    SplitAtBraces(rest, open, IndexChar(rest[open + 1..], '}'));
    StepText(rest, ttlMin);
  }

  lemma PrintText(t: string)
    ensures Print([Text(t)]) == t
  {
    assert Print([Text(t)][1..]) == "";
  }

  /** The pieces of an accepted template. */
  lemma {:induction false} AcceptedPieces(template: string, ttlMin: int) returns (pieces: seq<Piece>)
    requires Scan(template, ttlMin) == None
    ensures Good(pieces, ttlMin) && Print(pieces) == template
    decreases |template|
  {
    var step := ScanStep(template, ttlMin);
    if step.Next? {
      StepPieces(template, ttlMin);
      var rest := AcceptedPieces(step.tail, ttlMin);
      pieces := Prepend(step.text, step.name, rest, ttlMin);
    } else {
      pieces := [Text(template)];
      PrintText(template);
    }
  }

  lemma PrintHole(name: string)
    ensures Print([Hole(name)]) == "{" + name + "}"
  {
    assert Print([Hole(name)][1..]) == "";
  }

  lemma Prepend(t: string, name: string, rest: seq<Piece>, ttlMin: int) returns (pieces: seq<Piece>)
    requires GoodPiece(Text(t), ttlMin) && GoodPiece(Hole(name), ttlMin) && Good(rest, ttlMin)
    ensures Good(pieces, ttlMin) && Print(pieces) == t + "{" + name + "}" + Print(rest)
  {
    pieces := [Text(t)] + ([Hole(name)] + rest);
    TextHead("", t, [Hole(name)] + rest);
    assert "" + Print(pieces) == Print(pieces) && "" + t == t;
    HoleHead(t, name, rest);
  }

  /** The scanner accepts exactly the grammar. */
  lemma {:induction false} ScannerMeetsGrammar(template: string, ttlMin: int)
    ensures Scan(template, ttlMin) == None <==> InGrammar(template, ttlMin)
  {
    if Scan(template, ttlMin) == None {
      var pieces := AcceptedPieces(template, ttlMin);
    } else if InGrammar(template, ttlMin) {
      var pieces :| Good(pieces, ttlMin) && Print(pieces) == template;
      assert "" + Print(pieces) == template;
      GrammarAccepted("", pieces, ttlMin);
      assert false;
    }
  }

  lemma {:induction false} LoneStep(s: string, name: string, ttlMin: int)
    requires s == "{" + name + "}" && '{' !in name && '}' !in name
    ensures var step := ScanStep(s, ttlMin);
      if name !in PLACEHOLDERS then step == Stop(Undefined(name))
      else if name == "ttl_min" && ttlMin <= 0 then step == Stop(TtlDisabled)
      else step.Next? && step.tail == ""
  {
    assert "" + "{" + name + "}" + "" == s;
    FirstStep("", name, "", ttlMin);
  }

  /** A placeholder on its own is accepted exactly for the four known names. */
  lemma {:induction false} KnownNames(s: string, name: string, ttlMin: int)
    requires s == "{" + name + "}" && '{' !in name && '}' !in name
    ensures Scan(s, ttlMin) == None <==> name in {"user", "sid", "country"} || (name == "ttl_min" && ttlMin > 0)
  {
    LoneStep(s, name, ttlMin);
    TextOnly("", ttlMin);
  }

  /** Behind brace-free text, a closing brace is unmatched, and an opening one without a closing
      one is unclosed. */
  lemma {:induction false} UnpairedBraces(t: string, tail: string, ttlMin: int)
    requires BraceFree(t)
    ensures Scan(t + ['}'] + tail, ttlMin) == Some(UnmatchedClose)
    ensures '}' !in tail ==> Scan(t + ['{'] + tail, ttlMin) == Some(Unclosed)
  {
    IndexCharAfter(t, '}', tail);
    Unmatched(t + ['}'] + tail, |t|, ttlMin);
    StopIsVerdict(t + ['}'] + tail, ttlMin);
    if '}' !in tail {
      IndexCharAfter(t, '{', tail);
      NeverClosed(t + ['{'] + tail, |t|, ttlMin);
      StopIsVerdict(t + ['{'] + tail, ttlMin);
    }
  }

  lemma {:induction false} StopIsVerdict(s: string, ttlMin: int)
    requires ScanStep(s, ttlMin).Stop?
    ensures Scan(s, ttlMin) == Some(ScanStep(s, ttlMin).problem)
  {
  }

  lemma {:induction false} Unmatched(s: string, close: nat, ttlMin: int)
    requires close < |s| && s[close] == '}' && '{' !in s[..close] && IndexChar(s, '}') == close
    ensures ScanStep(s, ttlMin) == Stop(UnmatchedClose)
  {
    IndexCharNotBefore(s, '{', close);
    assert IndexChar(s, '{') != close;
  }

  lemma {:induction false} NeverClosed(s: string, open: nat, ttlMin: int)
    requires open < |s| && '}' !in s && IndexChar(s, '{') == open
    ensures ScanStep(s, ttlMin) == Stop(Unclosed)
  {
    assert forall c :: c in s[open + 1..] ==> c in s;
  }

  // ---------- Rendering ----------

  datatype Args = Args(user: string, sid: string, ttlMin: int, country: string)

  function ValueOf(name: string, a: Args): string {
    if name == "user" then a.user
    else if name == "sid" then a.sid
    else if name == "ttl_min" then Itoa(a.ttlMin)
    else a.country
  }

  /** One pass over the text: at each position the first matching placeholder is
      replaced, and what was put in is not looked at again. */
  function Render(s: string, a: Args): string {
    if s == "" then ""
    else if "{user}" <= s then a.user + Render(s[6..], a)
    else if "{sid}" <= s then a.sid + Render(s[5..], a)
    else if "{ttl_min}" <= s then Itoa(a.ttlMin) + Render(s[9..], a)
    else if "{country}" <= s then a.country + Render(s[9..], a)
    else [s[0]] + Render(s[1..], a)
  }

  function PieceValue(p: Piece, a: Args): string {
    match p
    case Text(t) => t
    case Hole(name) => ValueOf(name, a)
  }

  function Substitute(pieces: seq<Piece>, a: Args): string {
    if |pieces| == 0 then "" else PieceValue(pieces[0], a) + Substitute(pieces[1..], a)
  }

  lemma {:induction false} RenderPlain(c: char, s: string, a: Args)
    requires c != '{'
    ensures Render([c] + s, a) == [c] + Render(s, a)
  {
    assert ([c] + s)[0] == c && ([c] + s)[1..] == s;
  }

  lemma {:induction false} RenderText(t: string, tail: string, a: Args)
    requires '{' !in t
    ensures Render(t + tail, a) == t + Render(tail, a)
  {
    if t == "" {
      assert t + tail == tail;
    } else {
      assert t[0] in t && t == [t[0]] + t[1..];
      Assoc([t[0]], t[1..], tail);
      RenderPlain(t[0], t[1..] + tail, a);
      RenderText(t[1..], tail, a);
      Assoc([t[0]], t[1..], Render(tail, a));
    }
  }

  lemma HoleShape(name: string, tail: string)
    requires name != ""
    ensures var s := "{" + name + "}" + tail;
      s[..|name| + 2] == "{" + name + "}" && s[|name| + 2..] == tail && s[1] == name[0]
  {
  }

  lemma {:induction false} RenderHole(name: string, tail: string, a: Args)
    requires name in PLACEHOLDERS
    ensures Render("{" + name + "}" + tail, a) == ValueOf(name, a) + Render(tail, a)
  {
    HoleShape(name, tail);
    var s := "{" + name + "}" + tail;
    if name == "user" {
      assert "{user}" <= s;
    } else if name == "sid" {
      assert !("{user}" <= s) && "{sid}" <= s;
    } else if name == "ttl_min" {
      assert !("{user}" <= s) && !("{sid}" <= s) && "{ttl_min}" <= s;
    } else {
      assert !("{user}" <= s) && !("{sid}" <= s) && !("{ttl_min}" <= s) && "{country}" <= s;
    }
  }

  /** Rendering a template of the grammar is substituting piece by piece. */
  lemma {:induction false} RenderIsSubstitution(pieces: seq<Piece>, ttlMin: int, a: Args)
    requires Good(pieces, ttlMin)
    ensures Render(Print(pieces), a) == Substitute(pieces, a)
  {
    if |pieces| > 0 {
      assert pieces[0] in pieces;
      RenderIsSubstitution(pieces[1..], ttlMin, a);
      match pieces[0] {
        case Text(t) => RenderText(t, Print(pieces[1..]), a);
        case Hole(name) => RenderHole(name, Print(pieces[1..]), a);
      }
    }
  }

  lemma {:induction false} SubstituteBraceFree(pieces: seq<Piece>, ttlMin: int, a: Args)
    requires Good(pieces, ttlMin) && BraceFree(a.user) && BraceFree(a.sid) && BraceFree(a.country)
    ensures BraceFree(Substitute(pieces, a))
  {
    if |pieces| > 0 {
      assert pieces[0] in pieces;
      SubstituteBraceFree(pieces[1..], ttlMin, a);
      ItoaBraceFree(a.ttlMin);
    }
  }

  lemma {:induction false} ItoaBraceFree(n: int)
    ensures BraceFree(Itoa(n))
  {
    var digits := NatDigits(if n < 0 then -n else n);
    assert forall i :: 0 <= i < 10 ==> DIGITS[i] != '{' && DIGITS[i] != '}';
    assert forall c :: c in digits ==> c in DIGITS;
  }

  /** No unexpanded placeholder reaches an exit: an accepted template renders to a
      brace-free user name from brace-free arguments. */
  lemma {:induction false} AcceptedRendersBraceFree(template: string, a: Args)
    requires Scan(template, a.ttlMin) == None
    requires BraceFree(a.user) && BraceFree(a.sid) && BraceFree(a.country)
    ensures BraceFree(Render(template, a))
  {
    var pieces := AcceptedPieces(template, a.ttlMin);
    RenderIsSubstitution(pieces, a.ttlMin, a);
    SubstituteBraceFree(pieces, a.ttlMin, a);
  }
}

/** Session parameters in a flat user name, `<prefix>[-<key>-<value>]...`.

    FlatRewrite is the printer the router uses, FlatStickyId is the parser the
    virtual exits of the benchmark use.  Both are loops over hyphen-separated
    tokens.  They are specified here through one reading of the tokens as items:
    a known key with its value, or a plain token. */
module FlatUsername {
  import opened Text

  datatype Item = Plain(tok: string) | Pair(key: string, value: string)

  datatype FlatError = UsernameEmpty | StickyEmpty | StickyRepeated | StickyMissing

  const HYPHEN := '-'

  // ---------- Tokens and items ----------

  /** A known key that is not the last token always consumes the next token. */
  function Parse(toks: seq<string>, known: set<string>): seq<Item> {
    if |toks| == 0 then []
    else if |toks| > 1 && toks[0] in known then [Pair(toks[0], toks[1])] + Parse(toks[2..], known)
    else [Plain(toks[0])] + Parse(toks[1..], known)
  }

  function Tokens(item: Item): seq<string> {
    match item
    case Plain(t) => [t]
    case Pair(k, v) => [k, v]
  }

  function Flatten(items: seq<Item>): seq<string> {
    if |items| == 0 then [] else Tokens(items[0]) + Flatten(items[1..])
  }

  function Items(username: string, known: set<string>): seq<Item> {
    Parse(Split(username, HYPHEN), known)
  }

  function Print(items: seq<Item>): string { Join(Flatten(items), HYPHEN) }

  // ---------- What a rewrite means on items ----------

  predicate Has(items: seq<Item>, key: string) {
    exists i :: 0 <= i < |items| && items[i].Pair? && items[i].key == key
  }

  predicate HasPair(items: seq<Item>) {
    exists i :: 0 <= i < |items| && items[i].Pair?
  }

  /** The items without any occurrence of the parameter. */
  function Strip(items: seq<Item>, key: string): seq<Item> {
    if |items| == 0 then []
    else if items[0].Pair? && items[0].key == key then Strip(items[1..], key)
    else [items[0]] + Strip(items[1..], key)
  }

  /** The values of a parameter, in order. */
  function Values(items: seq<Item>, key: string): seq<string> {
    if |items| == 0 then []
    else if items[0].Pair? && items[0].key == key then [items[0].value] + Values(items[1..], key)
    else Values(items[1..], key)
  }

  /** The first occurrence gets the new value, later ones go. */
  function ReplaceFirst(items: seq<Item>, key: string, v: string): seq<Item> {
    if |items| == 0 then []
    else if items[0].Pair? && items[0].key == key then [Pair(key, v)] + Strip(items[1..], key)
    else [items[0]] + ReplaceFirst(items[1..], key, v)
  }

  /** A new parameter goes in front of the first pair. */
  function InsertBeforePair(items: seq<Item>, key: string, v: string): seq<Item> {
    if |items| == 0 then []
    else if items[0].Pair? then [Pair(key, v)] + items
    else [items[0]] + InsertBeforePair(items[1..], key, v)
  }

  function Rewritten(items: seq<Item>, key: string, v: string): seq<Item> {
    if Has(items, key) then ReplaceFirst(items, key, v)
    else if HasPair(items) then InsertBeforePair(items, key, v)
    else items + [Pair(key, v)]
  }

  function Rewrite(username: string, known: set<string>, key: string, v: string): Result<string, FlatError> {
    if username == "" then Err(UsernameEmpty)
    else Ok(Print(Rewritten(Items(username, known), key, v)))
  }

  /** p is where the new pair belongs: at the first occurrence of the key, else in front of the
      first pair, else at the end. */
  predicate IsPlace(items: seq<Item>, key: string, p: nat) {
    && p <= |items|
    && if exists i :: 0 <= i < |items| && items[i].Pair? && items[i].key == key then
         p < |items| && items[p].Pair? && items[p].key == key
         && forall i :: 0 <= i < p ==> !(items[i].Pair? && items[i].key == key)
       else if exists i :: 0 <= i < |items| && items[i].Pair? then
         p < |items| && items[p].Pair? && forall i :: 0 <= i < p ==> !items[i].Pair?
       else p == |items|
  }

  /** Where a rewrite puts the pair, and what it leaves in front and behind. */
  lemma {:induction false} RewrittenPlace(items: seq<Item>, key: string, v: string, p: nat)
    requires IsPlace(items, key, p)
    ensures Rewritten(items, key, v)
         == items[..p] + [Pair(key, v)] + if Has(items, key) then Strip(items[p + 1..], key) else items[p..]
  {
    if Has(items, key) {
      ReplacedPlace(items, key, v, p);
    } else if HasPair(items) {
      InsertedPlace(items, key, v, p);
    } else {
      assert items[..p] == items && items[p..] == [];
    }
  }

  lemma {:induction false} ReplacedPlace(items: seq<Item>, key: string, v: string, p: nat)
    requires p < |items| && items[p].Pair? && items[p].key == key
    requires forall i :: 0 <= i < p ==> !(items[i].Pair? && items[i].key == key)
    ensures ReplaceFirst(items, key, v) == items[..p] + [Pair(key, v)] + Strip(items[p + 1..], key)
  {
    if p > 0 {
      ReplacedPlace(items[1..], key, v, p - 1);
      assert items[1..][p..] == items[p + 1..] && [items[0]] + items[1..][..p - 1] == items[..p];
    }
  }

  lemma {:induction false} InsertedPlace(items: seq<Item>, key: string, v: string, p: nat)
    requires p < |items| && items[p].Pair? && forall i :: 0 <= i < p ==> !items[i].Pair?
    ensures InsertBeforePair(items, key, v) == items[..p] + [Pair(key, v)] + items[p..]
  {
    if p > 0 {
      InsertedPlace(items[1..], key, v, p - 1);
      assert items[1..][p - 1..] == items[p..] && [items[0]] + items[1..][..p - 1] == items[..p];
    }
  }

  // ---------- The rewriting loops ----------

  predicate IsTarget(item: Item, key: string) { item.Pair? && item.key == key }

  /** What the second loop appends for one item. */
  function Emitted(item: Item, key: string, v: string, present: bool, inserted: bool, found: bool): seq<string> {
    if IsTarget(item, key) then if found then [] else [key, v]
    else if item.Pair? && !present && !inserted then [key, v, item.key, item.value]
    else Tokens(item)
  }

  /** What the second loop still has to append when `items` remain. */
  function Remaining(items: seq<Item>, key: string, v: string, present: bool, inserted: bool,
                     found: bool): seq<string>
  {
    if |items| == 0 then if !found && !inserted then [key, v] else []
    else
      Emitted(items[0], key, v, present, inserted, found)
      + Remaining(items[1..], key, v, present,
                  inserted || (items[0].Pair? && !IsTarget(items[0], key) && !present),
                  found || IsTarget(items[0], key))
  }

  lemma RemainingStep(out: seq<string>, out': seq<string>, items: seq<Item>, key: string, v: string,
                      present: bool, inserted: bool, found: bool)
    requires |items| > 0
    requires out' == out + Emitted(items[0], key, v, present, inserted, found)
    ensures out + Remaining(items, key, v, present, inserted, found)
         == out' + Remaining(items[1..], key, v, present,
                             inserted || (items[0].Pair? && !IsTarget(items[0], key) && !present),
                             found || IsTarget(items[0], key))
  {
  }

  lemma {:induction false} RemainingAfterFound(items: seq<Item>, key: string, v: string)
    ensures Remaining(items, key, v, true, false, true) == Flatten(Strip(items, key))
  {
    if |items| > 0 {
      RemainingAfterFound(items[1..], key, v);
    }
  }

  lemma {:induction false} RemainingReplace(items: seq<Item>, key: string, v: string)
    requires Has(items, key)
    ensures Remaining(items, key, v, true, false, false) == Flatten(ReplaceFirst(items, key, v))
  {
    if items[0].Pair? && items[0].key == key {
      RemainingAfterFound(items[1..], key, v);
    } else {
      HasTail(items, key);
      RemainingReplace(items[1..], key, v);
    }
  }

  lemma {:induction false} HasTail(items: seq<Item>, key: string)
    requires |items| > 0
    ensures Has(items, key) <==> (items[0].Pair? && items[0].key == key) || Has(items[1..], key)
    ensures HasPair(items) <==> items[0].Pair? || HasPair(items[1..])
  {
    assert forall i :: 1 <= i < |items| ==> items[i] == items[1..][i - 1];
  }

  lemma {:induction false} RemainingAfterInsert(items: seq<Item>, key: string, v: string)
    requires !Has(items, key)
    ensures Remaining(items, key, v, false, true, false) == Flatten(items)
  {
    if |items| > 0 {
      HasTail(items, key);
      RemainingAfterInsert(items[1..], key, v);
    }
  }

  lemma {:induction false} FlattenAppend(a: seq<Item>, b: seq<Item>)
    ensures Flatten(a + b) == Flatten(a) + Flatten(b)
  {
    if |a| == 0 {
      assert a + b == b;
    } else {
      AppendTail(a, b);
      FlattenAppend(a[1..], b);
      Assoc(Tokens(a[0]), Flatten(a[1..]), Flatten(b));
    }
  }

  lemma {:induction false} RemainingInsert(items: seq<Item>, key: string, v: string)
    requires !Has(items, key)
    ensures Remaining(items, key, v, false, false, false) == Flatten(Rewritten(items, key, v))
  {
    if |items| == 0 {
      assert [] + [Pair(key, v)] == [Pair(key, v)];
    } else {
      HasTail(items, key);
      if items[0].Pair? {
        RemainingAfterInsert(items[1..], key, v);
        assert ([Pair(key, v)] + items)[1..] == items;
      } else {
        RemainingInsert(items[1..], key, v);
        if !HasPair(items) {
          FlattenAppend(items, [Pair(key, v)]);
          FlattenAppend(items[1..], [Pair(key, v)]);
        }
      }
    }
  }

  lemma {:induction false} RemainingIsRewritten(items: seq<Item>, key: string, v: string)
    ensures Remaining(items, key, v, Has(items, key), false, false) == Flatten(Rewritten(items, key, v))
  {
    if Has(items, key) {
      RemainingReplace(items, key, v);
    } else {
      RemainingInsert(items, key, v);
    }
  }

  /** The prescan: does the parameter occur as a pair anywhere? */
  method Prescan(toks: seq<string>, known: set<string>, key: string) returns (present: bool)
    ensures present <==> Has(Parse(toks, known), key)
  {
    present := false;
    var i := 0;
    while i < |toks|
      invariant 0 <= i <= |toks|
      invariant Has(Parse(toks, known), key) <==> present || Has(Parse(toks[i..], known), key)
    {
      HasTail(Parse(toks[i..], known), key);
      if i + 1 < |toks| && toks[i] in known {
        if toks[i] == key {
          present := true;
        }
        assert toks[i..][2..] == toks[i + 2..];
        i := i + 1;
      } else {
        assert toks[i..][1..] == toks[i + 1..];
      }
      i := i + 1;
    }
  }

  /** One step of the parse: what token i starts, and where the next item starts. */
  lemma ParseStep(toks: seq<string>, known: set<string>, i: nat)
    requires i < |toks|
    ensures i + 1 < |toks| && toks[i] in known ==>
      Parse(toks[i..], known) == [Pair(toks[i], toks[i + 1])] + Parse(toks[i + 2..], known)
    ensures !(i + 1 < |toks| && toks[i] in known) ==>
      Parse(toks[i..], known) == [Plain(toks[i])] + Parse(toks[i + 1..], known)
  {
    assert toks[i..][1..] == toks[i + 1..];
    assert i + 1 < |toks| ==> toks[i..][2..] == toks[i + 2..];
  }

  /** The rewriting loop: drop repeated targets, insert in front of the first pair. */
  method RewriteTokens(toks: seq<string>, known: set<string>, key: string, newVal: string, present: bool)
    returns (out: seq<string>)
    ensures out == Remaining(Parse(toks, known), key, newVal, present, false, false)
  {
    out := [];
    var inserted, found := false, false;
    ghost var items := Parse(toks, known);
    ghost var goal := Remaining(items, key, newVal, present, false, false);
    var i := 0;
    while i < |toks|
      invariant 0 <= i <= |toks|
      invariant items == Parse(toks[i..], known)
      invariant out + Remaining(items, key, newVal, present, inserted, found) == goal
    {
      ParseStep(toks, known, i);
      ghost var out0, inserted0, found0 := out, inserted, found;
      ghost var emitted := Emitted(items[0], key, newVal, present, inserted, found);
      var isPairStart := i + 1 < |toks| && toks[i] in known;
      ghost var next := if isPairStart then i + 2 else i + 1;
      assert items[1..] == Parse(toks[next..], known);
      if isPairStart && toks[i] == key {
        if !found {
          out := out + [toks[i], newVal];
          found := true;
        }
        i := i + 1;
      } else if isPairStart {
        if !present && !inserted {
          out := out + [key, newVal];
          inserted := true;
        }
        out := out + [toks[i], toks[i + 1]];
        i := i + 1;
      } else {
        out := out + [toks[i]];
      }
      i := i + 1;
      assert out == out0 + emitted;
      RemainingStep(out0, out, items, key, newVal, present, inserted0, found0);
      items := items[1..];
      assert i == next;
    }
    if !found && !inserted {
      out := out + [key, newVal];
    }
  }

  method FlatRewrite(username: string, known: set<string>, key: string, newVal: string)
    returns (r: Result<string, FlatError>)
    ensures r == Rewrite(username, known, key, newVal)
  {
    if username == "" {
      return Err(UsernameEmpty);
    }
    var toks := Split(username, HYPHEN);
    var present := Prescan(toks, known, key);
    var out := RewriteTokens(toks, known, key, newVal, present);
    RemainingIsRewritten(Parse(toks, known), key, newVal);
    return Ok(Join(out, HYPHEN));
  }

  // ---------- The parser ----------

  /** The verdict on the values a parameter has. */
  function Verdict(values: seq<string>): Result<string, FlatError> {
    if |values| == 0 then Err(StickyMissing)
    else if values[0] == "" then Err(StickyEmpty)
    else if |values| == 1 then Ok(values[0])
    else if values[1] == "" then Err(StickyEmpty)
    else Err(StickyRepeated)
  }

  function StickyId(username: string, known: set<string>, wanted: string): Result<string, FlatError> {
    if username == "" then Err(UsernameEmpty)
    else Verdict(Values(Items(username, known), wanted))
  }

  method FlatStickyId(username: string, known: set<string>, wanted: string)
    returns (r: Result<string, FlatError>)
    ensures r == StickyId(username, known, wanted)
  {
    if username == "" {
      return Err(UsernameEmpty);
    }
    var tokens := Split(username, HYPHEN);
    var id := "";
    var i := 0;
    while i < |tokens|
      invariant 0 <= i <= |tokens|
      invariant Values(Parse(tokens, known), wanted)
             == (if id == "" then [] else [id]) + Values(Parse(tokens[i..], known), wanted)
    {
      if tokens[i] !in known || i + 1 >= |tokens| {
        assert tokens[i..][1..] == tokens[i + 1..];
        i := i + 1;
        continue;
      }
      var key, value := tokens[i], tokens[i + 1];
      assert tokens[i..][2..] == tokens[i + 2..];
      i := i + 2;
      if key != wanted {
        continue;
      }
      if value == "" {
        return Err(StickyEmpty);
      }
      if id != "" {
        return Err(StickyRepeated);
      }
      id := value;
    }
    if id == "" {
      return Err(StickyMissing);
    }
    return Ok(id);
  }

  // ---------- Laws of a rewrite, on items ----------

  lemma {:induction false} StripFacts(items: seq<Item>, key: string)
    ensures Values(Strip(items, key), key) == []
    ensures Strip(Strip(items, key), key) == Strip(items, key)
    ensures !Has(Strip(items, key), key)
    ensures !Has(items, key) ==> Strip(items, key) == items && Values(items, key) == []
  {
    if |items| > 0 {
      StripFacts(items[1..], key);
      HasTail(items, key);
      if !(items[0].Pair? && items[0].key == key) {
        HasTail(Strip(items, key), key);
      }
    }
  }

  lemma {:induction false} ReplaceFirstFacts(items: seq<Item>, key: string, v: string, w: string)
    requires Has(items, key)
    ensures Values(ReplaceFirst(items, key, v), key) == [v]
    ensures Strip(ReplaceFirst(items, key, v), key) == Strip(items, key)
    ensures Has(ReplaceFirst(items, key, v), key)
    ensures ReplaceFirst(ReplaceFirst(items, key, v), key, w) == ReplaceFirst(items, key, w)
  {
    HasTail(items, key);
    HasTail(ReplaceFirst(items, key, v), key);
    if items[0].Pair? && items[0].key == key {
      StripFacts(items[1..], key);
    } else {
      ReplaceFirstFacts(items[1..], key, v, w);
    }
  }

  lemma {:induction false} InsertFacts(items: seq<Item>, key: string, v: string, w: string)
    requires !Has(items, key) && HasPair(items)
    ensures Values(InsertBeforePair(items, key, v), key) == [v]
    ensures Strip(InsertBeforePair(items, key, v), key) == items
    ensures Has(InsertBeforePair(items, key, v), key)
    ensures ReplaceFirst(InsertBeforePair(items, key, v), key, w) == InsertBeforePair(items, key, w)
  {
    var r := InsertBeforePair(items, key, v);
    HasTail(items, key);
    HasTail(r, key);
    StripFacts(items, key);
    if items[0].Pair? {
      assert r[1..] == items;
    } else {
      InsertFacts(items[1..], key, v, w);
    }
  }

  lemma {:induction false} AppendFacts(items: seq<Item>, key: string, v: string, w: string)
    requires !HasPair(items)
    ensures Values(items + [Pair(key, v)], key) == [v]
    ensures Strip(items + [Pair(key, v)], key) == items
    ensures Has(items + [Pair(key, v)], key)
    ensures ReplaceFirst(items + [Pair(key, v)], key, w) == items + [Pair(key, w)]
  {
    var r := items + [Pair(key, v)];
    HasTail(r, key);
    if |items| > 0 {
      HasTail(items, key);
      AppendFacts(items[1..], key, v, w);
      assert r[1..] == items[1..] + [Pair(key, v)];
      assert (items + [Pair(key, w)])[1..] == items[1..] + [Pair(key, w)];
    }
  }

  /** A rewrite leaves the parameter once, with the new value, touches nothing
      else, and a later rewrite overrides it without trace. */
  lemma {:induction false} RewrittenLaws(items: seq<Item>, key: string, v: string, w: string)
    ensures Values(Rewritten(items, key, v), key) == [v]
    ensures Strip(Rewritten(items, key, v), key) == Strip(items, key)
    ensures Rewritten(Rewritten(items, key, v), key, w) == Rewritten(items, key, w)
  {
    StripFacts(items, key);
    if Has(items, key) {
      ReplaceFirstFacts(items, key, v, w);
    } else if HasPair(items) {
      InsertFacts(items, key, v, w);
    } else {
      AppendFacts(items, key, v, w);
    }
  }

  lemma {:induction false} ValuesOfOther(items: seq<Item>, key: string, other: string)
    requires other != key
    ensures Values(Strip(items, key), other) == Values(items, other)
  {
    if |items| > 0 {
      ValuesOfOther(items[1..], key, other);
    }
  }

  // ---------- When printed items read back ----------

  /** Item lists the parser can produce: keys are known, and a plain token is a
      known key only at the very end, where it has no value to take. */
  predicate Canonical(items: seq<Item>, known: set<string>) {
    if |items| == 0 then true
    else
      (match items[0]
       case Pair(k, _) => k in known
       case Plain(t) => t !in known || |items| == 1)
      && Canonical(items[1..], known)
  }

  lemma {:induction false} ParseCanonical(toks: seq<string>, known: set<string>)
    ensures Canonical(Parse(toks, known), known)
    ensures Flatten(Parse(toks, known)) == toks
  {
    if |toks| == 0 {
    } else if |toks| > 1 && toks[0] in known {
      ParseCanonical(toks[2..], known);
      assert toks == [toks[0], toks[1]] + toks[2..];
    } else {
      ParseCanonical(toks[1..], known);
    }
  }

  lemma {:induction false} ParseFlatten(items: seq<Item>, known: set<string>)
    requires Canonical(items, known)
    ensures Parse(Flatten(items), known) == items
  {
    if |items| > 0 {
      ParseFlatten(items[1..], known);
      var toks := Flatten(items);
      if items[0].Pair? {
        assert toks[2..] == Flatten(items[1..]);
      } else {
        assert toks[1..] == Flatten(items[1..]);
      }
    }
  }

  /** No pair at all, and the last token is a known key left without a value. */
  predicate DanglingTail(username: string, known: set<string>) {
    var toks := Split(username, HYPHEN);
    toks[|toks| - 1] in known && forall i :: 0 <= i < |toks| - 1 ==> toks[i] !in known
  }

  function Plains(toks: seq<string>): seq<Item> {
    seq(|toks|, i requires 0 <= i < |toks| => Plain(toks[i]))
  }

  lemma {:induction false} PairsOfTokens(toks: seq<string>, known: set<string>)
    ensures HasPair(Parse(toks, known)) <==> exists i :: 0 <= i < |toks| - 1 && toks[i] in known
    ensures !HasPair(Parse(toks, known)) ==> Parse(toks, known) == Plains(toks)
  {
    if |toks| > 0 {
      HasTail(Parse(toks, known), "");
      if |toks| > 1 && toks[0] in known {
      } else {
        PairsOfTokens(toks[1..], known);
        assert forall i :: 1 <= i < |toks| ==> toks[i] == toks[1..][i - 1];
        assert forall i :: 0 <= i < |toks[1..]| ==> toks[1..][i] == toks[i + 1];
      }
    }
  }

  lemma {:induction false} StripCanonical(items: seq<Item>, key: string, known: set<string>)
    requires Canonical(items, known)
    ensures Canonical(Strip(items, key), known)
    ensures |Strip(items, key)| <= |items|
  {
    if |items| > 0 {
      StripCanonical(items[1..], key, known);
    }
  }

  lemma {:induction false} ReplaceCanonical(items: seq<Item>, key: string, v: string, known: set<string>)
    requires Canonical(items, known) && key in known && Has(items, key)
    ensures Canonical(ReplaceFirst(items, key, v), known)
  {
    if items[0].Pair? && items[0].key == key {
      StripCanonical(items[1..], key, known);
    } else {
      HasTail(items, key);
      ReplaceCanonical(items[1..], key, v, known);
    }
  }

  lemma {:induction false} InsertCanonical(items: seq<Item>, key: string, v: string, known: set<string>)
    requires Canonical(items, known) && key in known && HasPair(items)
    ensures Canonical(InsertBeforePair(items, key, v), known)
  {
    HasTail(items, key);
    if !items[0].Pair? {
      InsertCanonical(items[1..], key, v, known);
    }
  }

  lemma {:induction false} AppendCanonical(items: seq<Item>, key: string, v: string, known: set<string>)
    requires Canonical(items, known) && key in known && !HasPair(items)
    requires forall i :: 0 <= i < |items| ==> items[i].Plain? && items[i].tok !in known
    ensures Canonical(items + [Pair(key, v)], known)
  {
    if |items| == 0 {
      assert items + [Pair(key, v)] == [Pair(key, v)];
    } else {
      HasTail(items, key);
      assert (items + [Pair(key, v)])[1..] == items[1..] + [Pair(key, v)];
      AppendCanonical(items[1..], key, v, known);
    }
  }

  lemma {:induction false} RewrittenCanonical(username: string, known: set<string>, key: string, v: string)
    requires key in known && !DanglingTail(username, known)
    ensures Canonical(Rewritten(Items(username, known), key, v), known)
  {
    var toks := Split(username, HYPHEN);
    var items := Parse(toks, known);
    ParseCanonical(toks, known);
    PairsOfTokens(toks, known);
    if Has(items, key) {
      ReplaceCanonical(items, key, v, known);
    } else if HasPair(items) {
      InsertCanonical(items, key, v, known);
    } else {
      AppendCanonical(items, key, v, known);
    }
  }

  predicate Clean(toks: seq<string>) { forall t :: t in toks ==> HYPHEN !in t }

  lemma SplitIsClean(username: string)
    ensures Clean(Split(username, HYPHEN))
  {
  }

  lemma {:induction false} StripTokens(items: seq<Item>, key: string)
    ensures forall t :: t in Flatten(Strip(items, key)) ==> t in Flatten(items)
  {
    if |items| > 0 {
      StripTokens(items[1..], key);
    }
  }

  /** A rewrite brings in no token besides the key and the value. */
  lemma {:induction false} RewrittenTokens(items: seq<Item>, key: string, v: string)
    ensures forall t :: t in Flatten(Rewritten(items, key, v)) ==> t == key || t == v || t in Flatten(items)
    ensures |Flatten(Rewritten(items, key, v))| >= 2
  {
    if |items| == 0 {
      assert Rewritten(items, key, v) == [Pair(key, v)];
    } else {
      HasTail(items, key);
      if items[0].Pair? && items[0].key == key {
        StripTokens(items[1..], key);
      } else if !Has(items, key) && items[0].Pair? {
        assert Rewritten(items, key, v)[1..] == items;
      } else {
        RewrittenTokens(items[1..], key, v);
        assert Rewritten(items, key, v) == [items[0]] + Rewritten(items[1..], key, v);
      }
    }
  }

  lemma JoinNonEmpty(toks: seq<string>)
    requires |toks| >= 2
    ensures Join(toks, HYPHEN) != ""
  {
  }

  /** Unless the tail dangles, the printed user name reads back as the rewritten items. */
  lemma {:induction false} RewriteReadsBack(username: string, known: set<string>, key: string, v: string)
    requires username != "" && key in known && HYPHEN !in key && HYPHEN !in v
    requires !DanglingTail(username, known)
    ensures var r := Rewrite(username, known, key, v);
      r.Ok? && r.value != "" && Items(r.value, known) == Rewritten(Items(username, known), key, v)
  {
    var toks := Split(username, HYPHEN);
    var items := Parse(toks, known);
    var out := Rewritten(items, key, v);
    ParseCanonical(toks, known);
    RewrittenCanonical(username, known, key, v);
    RewrittenTokens(items, key, v);
    JoinNonEmpty(Flatten(out));
    SplitIsClean(username);
    assert forall t :: t in Flatten(out) ==> HYPHEN !in t;
    SplitJoin(Flatten(out), HYPHEN);
    ParseFlatten(out, known);
  }

  lemma {:induction false} FlattenPlains(toks: seq<string>)
    ensures Flatten(Plains(toks)) == toks
  {
    if |toks| > 0 {
      FlattenPlains(toks[1..]);
      assert Plains(toks)[1..] == Plains(toks[1..]);
    }
  }

  lemma {:induction false} ParsePlainPrefix(p: seq<string>, toks: seq<string>, known: set<string>)
    requires forall i :: 0 <= i < |p| ==> p[i] !in known
    ensures Parse(p + toks, known) == Plains(p) + Parse(toks, known)
  {
    if |p| == 0 {
      assert p + toks == toks;
    } else {
      assert (p + toks)[1..] == p[1..] + toks;
      ParsePlainPrefix(p[1..], toks, known);
      assert Plains(p) == [Plain(p[0])] + Plains(p[1..]);
    }
  }

  /** The tokens of a user name: all but the last, and the last. */
  function Parts(username: string): (seq<string>, string) {
    var toks := Split(username, HYPHEN);
    (toks[..|toks| - 1], toks[|toks| - 1])
  }

  /** With a dangling tail nothing is a pair, so the parameter is appended. */
  lemma {:induction false} DanglingAppends(username: string, known: set<string>, key: string, v: string)
    requires username != "" && DanglingTail(username, known)
    ensures var (p, d) := Parts(username);
      Items(username, known) == Plains(p) + [Plain(d)]
      && Flatten(Rewritten(Items(username, known), key, v)) == p + [d, key, v]
  {
    var toks := Split(username, HYPHEN);
    var (p, d) := Parts(username);
    var items := Parse(toks, known);
    assert toks == p + [d];
    PairsOfTokens(toks, known);
    assert Plains(toks) == Plains(p) + [Plain(d)];
    FlattenAppend(items, [Pair(key, v)]);
    FlattenPlains(toks);
    assert Flatten([Pair(key, v)]) == [key, v];
    assert !Has(items, key);
    assert Rewritten(items, key, v) == items + [Pair(key, v)];
  }

  /** With a dangling tail the appended key becomes the value of the dangling one. */
  lemma {:induction false} DanglingReadsBack(username: string, known: set<string>, key: string, v: string)
    requires username != "" && key in known && HYPHEN !in key && HYPHEN !in v
    requires DanglingTail(username, known)
    ensures var (p, d) := Parts(username);
      var r := Rewrite(username, known, key, v);
      Items(username, known) == Plains(p) + [Plain(d)]
      && r.Ok? && r.value == Join(p + [d, key, v], HYPHEN) && r.value != ""
      && Items(r.value, known) == Plains(p) + [Pair(d, key), Plain(v)]
  {
    var (p, d) := Parts(username);
    DanglingAppends(username, known, key, v);
    JoinNonEmpty(p + [d, key, v]);
    SplitIsClean(username);
    assert Split(username, HYPHEN) == p + [d];
    SplitJoin(p + [d, key, v], HYPHEN);
    ParsePlainPrefix(p, [d, key, v], known);
    assert [d, key, v][2..] == [v];
    assert [v][1..] == [];
    assert Parse([v], known) == [Plain(v)];
    assert Parse([d, key, v], known) == [Pair(d, key), Plain(v)];
  }

  // ---------- Main results ----------

  /** The one shape of a dangling tail that does no harm: the tail, the key and
      the value are the same word. */
  predicate TailIsKey(username: string, key: string) { Parts(username).1 == key }

  lemma {:induction false} ValuesAppend(a: seq<Item>, b: seq<Item>, key: string)
    ensures Values(a + b, key) == Values(a, key) + Values(b, key)
  {
    if |a| == 0 {
      assert a + b == b;
    } else {
      AppendTail(a, b);
      ValuesAppend(a[1..], b, key);
      if a[0].Pair? {
        Assoc([a[0].value], Values(a[1..], key), Values(b, key));
      }
    }
  }

  lemma {:induction false} StripAppend(a: seq<Item>, b: seq<Item>, key: string)
    ensures Strip(a + b, key) == Strip(a, key) + Strip(b, key)
  {
    if |a| == 0 {
      assert a + b == b;
    } else {
      AppendTail(a, b);
      StripAppend(a[1..], b, key);
      Assoc([a[0]], Strip(a[1..], key), Strip(b, key));
    }
  }

  lemma {:induction false} PlainsHaveNoValues(toks: seq<string>, key: string)
    ensures Values(Plains(toks), key) == [] && Strip(Plains(toks), key) == Plains(toks)
  {
    assert !Has(Plains(toks), key);
    StripFacts(Plains(toks), key);
  }

  lemma {:induction false} ValuesAreTokens(toks: seq<string>, known: set<string>, key: string)
    ensures forall v :: v in Values(Parse(toks, known), key) ==> v in toks
  {
    if |toks| > 1 && toks[0] in known {
      ValuesAreTokens(toks[2..], known, key);
    } else if |toks| > 0 {
      ValuesAreTokens(toks[1..], known, key);
    }
  }

  /** A value the parser returns is never empty and never contains a hyphen. */
  /** The parser accepts exactly a user name whose items hold one value of the key, a non-empty
      one; otherwise the error is that of the first problem in order. */
  lemma {:induction false} StickyIdAccepts(username: string, known: set<string>, wanted: string, v: string)
    ensures var r, vs := StickyId(username, known, wanted), Values(Items(username, known), wanted);
      && (r == Ok(v) <==> username != "" && v != "" && vs == [v])
      && (r == Err(UsernameEmpty) <==> username == "")
      && (r == Err(StickyMissing) <==> username != "" && vs == [])
      && (r == Err(StickyEmpty) <==> username != "" && ([""] <= vs || (|vs| > 1 && vs[1] == "")))
      && (r == Err(StickyRepeated) <==> username != "" && |vs| > 1 && vs[0] != "" && vs[1] != "")
  {
    var vs := Values(Items(username, known), wanted);
    assert |vs| == 1 ==> vs == [vs[0]];
  }

  lemma {:induction false} StickyIdIsToken(username: string, known: set<string>, wanted: string)
    ensures var r := StickyId(username, known, wanted); r.Ok? ==> r.value != "" && HYPHEN !in r.value
  {
    ValuesAreTokens(Split(username, HYPHEN), known, wanted);
    SplitIsClean(username);
    var vs := Values(Items(username, known), wanted);
    assert |vs| > 0 ==> vs[0] in vs;
  }

  /** Parse after print, exactly: the virtual exit reads back the value that was
      written if and only if it is a non-empty word without a hyphen and the user
      name does not dangle (up to the one harmless coincidence). */
  lemma {:induction false} ParseAfterPrint(username: string, known: set<string>, key: string, v: string)
    requires key in known && HYPHEN !in key
    ensures var r := Rewrite(username, known, key, v);
      (r.Ok? && StickyId(r.value, known, key) == Ok(v))
      <==> username != "" && v != "" && HYPHEN !in v
           && (!DanglingTail(username, known) || (TailIsKey(username, key) && v == key))
  {
    var r := Rewrite(username, known, key, v);
    if r.Ok? {
      StickyIdIsToken(r.value, known, key);
      if HYPHEN !in v {
        if DanglingTail(username, known) {
          DanglingReadsBack(username, known, key, v);
          var (p, d) := Parts(username);
          ValuesAppend(Plains(p), [Pair(d, key), Plain(v)], key);
          PlainsHaveNoValues(p, key);
          assert [Pair(d, key), Plain(v)][1..] == [Plain(v)];
          assert Values([Plain(v)], key) == [];
        } else {
          RewriteReadsBack(username, known, key, v);
          RewrittenLaws(Items(username, known), key, v, v);
        }
      }
    }
  }

  /** Frame: the parameters other than the rewritten one, and the plain tokens,
      are the same before and after, exactly under the same condition. */
  lemma {:induction false} RewriteFrame(username: string, known: set<string>, key: string, v: string)
    requires username != "" && key in known && HYPHEN !in key && HYPHEN !in v
    ensures var r := Rewrite(username, known, key, v);
      r.Ok? && (Flatten(Strip(Items(r.value, known), key)) == Flatten(Strip(Items(username, known), key))
                <==> !DanglingTail(username, known) || (TailIsKey(username, key) && v == key))
  {
    if DanglingTail(username, known) {
      DanglingReadsBack(username, known, key, v);
      var (p, d) := Parts(username);
      PlainsHaveNoValues(p, key);
      StripAppend(Plains(p), [Pair(d, key), Plain(v)], key);
      StripAppend(Plains(p), [Plain(d)], key);
      var after := Strip([Pair(d, key), Plain(v)], key);
      assert [Pair(d, key), Plain(v)][1..] == [Plain(v)];
      assert Strip([Plain(v)], key) == [Plain(v)];
      assert after == if d == key then [Plain(v)] else [Pair(d, key), Plain(v)];
      assert Strip([Plain(d)], key) == [Plain(d)];
      FlattenAppend(Plains(p), after);
      FlattenAppend(Plains(p), [Plain(d)]);
      FlattenPlains(p);
      assert Flatten([Plain(d)]) == [d];
      assert Flatten([Plain(v)]) == [v];
      assert Flatten(after) == if d == key then [v] else [d, key, v];
      assert (p + [d])[|p|] == d && (p + [v])[|p|] == v;
    } else {
      RewriteReadsBack(username, known, key, v);
      RewrittenLaws(Items(username, known), key, v, v);
    }
  }

  /** Last write wins, exactly: rewriting with v1 and then v2 is rewriting with v2. */
  lemma {:induction false} LastWriteWins(username: string, known: set<string>, key: string, v1: string, v2: string)
    requires username != "" && key in known && HYPHEN !in key && HYPHEN !in v1 && HYPHEN !in v2
    ensures var r1 := Rewrite(username, known, key, v1);
      r1.Ok? && (Rewrite(r1.value, known, key, v2) == Rewrite(username, known, key, v2)
                 <==> !DanglingTail(username, known) || (TailIsKey(username, key) && v1 == v2 == key))
  {
    var r1 := Rewrite(username, known, key, v1);
    if DanglingTail(username, known) {
      DanglingReadsBack(username, known, key, v1);
      DanglingReadsBack(username, known, key, v2);
      var (p, d) := Parts(username);
      DanglingTwice(p, d, known, key, v1, v2);
    } else {
      RewriteReadsBack(username, known, key, v1);
      RewrittenLaws(Items(username, known), key, v1, v2);
    }
  }

  /** What a second rewrite makes of a name whose tail had swallowed the key. */
  lemma {:induction false} SwallowedThenRewritten(p: seq<string>, d: string, key: string, v1: string, v2: string)
    ensures Flatten(Rewritten(Plains(p) + [Pair(d, key), Plain(v1)], key, v2))
         == if d == key then p + [key, v2, v1] else p + [key, v2, d, key, v1]
  {
    var pair := [Pair(d, key), Plain(v1)];
    var tail := Rewritten(pair, key, v2);
    assert pair[0].Pair? && pair[1..] == [Plain(v1)];
    RewrittenPlainPrefix(Plains(p), pair, key, v2);
    HasTail(pair, key);
    HasTail([Plain(v1)], key);
    StripFacts([Plain(v1)], key);
    assert tail == if d == key then [Pair(key, v2), Plain(v1)] else [Pair(key, v2), Pair(d, key), Plain(v1)];
    FlattenAppend(Plains(p), tail);
    FlattenPlains(p);
    assert Flatten([Plain(v1)]) == [v1];
    assert Flatten(pair) == [d, key, v1];
    assert Flatten(tail) == if d == key then [key, v2, v1] else [key, v2, d, key, v1];
  }

  lemma {:induction false} DanglingTwice(p: seq<string>, d: string, known: set<string>, key: string, v1: string,
                                         v2: string)
    requires key in known && d in known && Clean(p + [d, key, v1, v2])
    ensures var items := Plains(p) + [Pair(d, key), Plain(v1)];
      Print(Rewritten(items, key, v2)) == Join(p + [d, key, v2], HYPHEN) <==> d == key && v1 == v2 == key
  {
    var out := if d == key then p + [key, v2, v1] else p + [key, v2, d, key, v1];
    SwallowedThenRewritten(p, d, key, v1, v2);
    forall t | t in out || t in p + [d, key, v2] ensures HYPHEN !in t {
      assert t in p + [d, key, v1, v2];
    }
    SplitJoin(out, HYPHEN);
    SplitJoin(p + [d, key, v2], HYPHEN);
    if d == key {
      assert (p + [key, v2, v1])[|p| + 1] == v2 && (p + [key, v2, v1])[|p| + 2] == v1;
      assert (p + [d, key, v2])[|p| + 1] == key && (p + [d, key, v2])[|p| + 2] == v2;
    }
  }

  predicate AllPlain(items: seq<Item>) { forall i :: 0 <= i < |items| ==> items[i].Plain? }

  lemma {:induction false} ReplaceBehindPlains(p: seq<Item>, items: seq<Item>, key: string, v: string)
    requires AllPlain(p)
    ensures ReplaceFirst(p + items, key, v) == p + ReplaceFirst(items, key, v)
  {
    if |p| == 0 {
      assert p + items == items;
    } else {
      AppendTail(p, items);
      ReplaceBehindPlains(p[1..], items, key, v);
      Assoc([p[0]], p[1..], ReplaceFirst(items, key, v));
      assert p == [p[0]] + p[1..];
    }
  }

  lemma {:induction false} InsertBehindPlains(p: seq<Item>, items: seq<Item>, key: string, v: string)
    requires AllPlain(p)
    ensures InsertBeforePair(p + items, key, v) == p + InsertBeforePair(items, key, v)
  {
    if |p| == 0 {
      assert p + items == items;
    } else {
      AppendTail(p, items);
      InsertBehindPlains(p[1..], items, key, v);
      Assoc([p[0]], p[1..], InsertBeforePair(items, key, v));
      assert p == [p[0]] + p[1..];
    }
  }

  /** Plain tokens in front stay in front of whatever the rest becomes. */
  lemma {:induction false} RewrittenPlainPrefix(p: seq<Item>, items: seq<Item>, key: string, v: string)
    requires HasPair(items) && AllPlain(p)
    ensures Rewritten(p + items, key, v) == p + Rewritten(items, key, v)
  {
    var i :| 0 <= i < |items| && items[i].Pair?;
    assert (p + items)[|p| + i].Pair?;
    assert forall j :: 0 <= j < |items| ==> (p + items)[|p| + j] == items[j];
    assert forall j :: |p| <= j < |p + items| ==> (p + items)[j] == items[j - |p|];
    assert Has(p + items, key) <==> Has(items, key);
    ReplaceBehindPlains(p, items, key, v);
    InsertBehindPlains(p, items, key, v);
  }
}

/** JSON arrays and objects in templates: the parser counts brackets and braces, and hands the whole to
    the JSON parser. */
module Brackets {
  import opened Options
  import opened Json
  import opened Tokens
  import opened Assembler
  import opened Grammar
  import RoundTrip

  /** How many more of one kind of token than of another stand from position i up to k. */
  function Surplus(g: Source, open: Kind, close: Kind, i: nat, k: nat): int
    requires i <= k <= |g.toks|
    decreases k - i, g
  {
    if i == k then 0
    else Surplus(g, open, close, i, k - 1)
         + (if g.toks[k - 1].kind == open then 1 else if g.toks[k - 1].kind == close then -1 else 0)
  }

  function OpenBrackets(g: Source, i: nat, k: nat): int
    requires i <= k <= |g.toks|
  {
    Surplus(g, LeftBracket, RightBracket, i, k)
  }

  function OpenBraces(g: Source, i: nat, k: nat): int
    requires i <= k <= |g.toks|
  {
    Surplus(g, LeftBrace, RightBrace, i, k)
  }

  /** What may stand in a JSON text: no name but true, false and null, and none in front of a parenthesis. */
  predicate IsJsonToken(g: Source, k: nat)
    requires k < |g.toks|
  {
    match g.toks[k].kind
    case Number => true
    case String => true
    case Comma => true
    case Colon => true
    case LeftBracket => true
    case RightBracket => true
    case LeftBrace => true
    case RightBrace => true
    case Id => IsJsonWord(g.toks[k]) && k + 1 < |g.toks| && g.toks[k + 1].kind != LeftParen
    case _ => false
  }

  /** From a bracket or brace at i to one at j: neither count falls below zero, and both are back at zero
      behind j for the first time. */
  predicate IsJsonText(g: Source, i: nat, j: nat) {
    && i <= j < |g.toks| && (g.toks[i].kind == LeftBracket || g.toks[i].kind == LeftBrace)
    && (forall k | i <= k < j :: IsOpenAt(g, i, k))
    && IsJsonToken(g, j) && OpenBrackets(g, i, j + 1) == 0 && OpenBraces(g, i, j + 1) == 0
  }

  /** Behind the k-th token something is still open, and nothing has been closed too often. */
  predicate IsOpenAt(g: Source, i: nat, k: nat)
    requires i <= k < |g.toks|
  {
    var brackets, braces := OpenBrackets(g, i, k + 1), OpenBraces(g, i, k + 1);
    IsJsonToken(g, k) && brackets >= 0 && braces >= 0 && (brackets > 0 || braces > 0)
  }

  lemma {:induction false} DatumFrom(g: Source, i: nat, j: nat, k: nat)
    requires Ended(g) && IsJsonText(g, i, j) && i < k <= j && IsOpenAt(g, i, k - 1)
    ensures ParseDatum(g, k, i, OpenBrackets(g, i, k), OpenBraces(g, i, k)) == Literal(g, i, j)
    decreases j - k
  {
    if k < j {
      assert IsOpenAt(g, i, k);
      DatumFrom(g, i, j, k + 1);
    }
  }

  /** Such a text is taken whole, as one literal: what the JSON parser makes of the source between its
      ends, or an error when it makes nothing of it. */
  lemma {:induction false} JsonIsTaken(g: Source, i: nat, j: nat)
    requires Ended(g) && IsJsonText(g, i, j)
    ensures ParseDatum(g, i, i, 0, 0) == Literal(g, i, j)
  {
    assert OpenBrackets(g, i, i) == 0 && OpenBraces(g, i, i) == 0;
    assert i < j && IsOpenAt(g, i, i);
    DatumFrom(g, i, j, i + 1);
  }

  /** As an expression, when what follows does not go on with it. */
  lemma {:induction false} JsonIsExpression(g: Source, i: nat, j: nat, v: Value)
    requires Ended(g) && IsJsonText(g, i, j) && j + 1 < |g.toks| && RoundTrip.Stop(0, g.toks[j + 1])
    requires g.parseJson(JsonText(g.inp, g.toks[i], g.toks[j])) == Some(v)
    ensures ParseOr(g, i) == Took(j + 1, [PushLit(v)])
  {
    JsonIsTaken(g, i, j);
    var took := [PushLit(v)];
    RoundTrip.Climb(g, i, 3, j + 1, took);
    RoundTrip.Climb(g, i, 2, j + 1, took);
    RoundTrip.Climb(g, i, 1, j + 1, took);
    RoundTrip.Climb(g, i, 0, j + 1, took);
  }
}

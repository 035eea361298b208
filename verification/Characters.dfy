/** Single tokens, character by character. */
module Characters {
  import opened Tokens
  import opened Lexing

  // ----- classes, by ASCII code -----

  predicate IsLetter(c: int) {
    65 <= c <= 90 || 97 <= c <= 122
  }

  predicate IsFigure(c: int) {
    48 <= c <= 57
  }

  /** Blanks are the space, the tab and the carriage return; names go on with letters, figures and one
      of -./_; numbers with figures and one of +-.Ee. */
  lemma {:induction false} ClassesExactly(c: char)
    ensures var n := c as int;
            && (IsBlank(c) <==> n == 32 || n == 9 || n == 13)
            && (IsSpace(c) <==> n == 32 || n == 9 || n == 13 || n == 10)
            && (IsIdChar(c) <==> IsLetter(n) || IsFigure(n) || 45 <= n <= 47 || n == 95)
            && (IsNumberChar(c) <==> IsFigure(n) || n == 43 || n == 45 || n == 46 || n == 69 || n == 101)
  {
  }

  // ----- the kind of a token -----

  /** A name starts with a letter or _, a number with a figure or -, a string with a quote. */
  lemma {:induction false} WordKinds(inp: string, s: nat)
    requires s < |inp|
    ensures var c, kind := inp[s] as int, InnerToken(inp, s).0;
            && (kind == Id <==> IsLetter(c) || c == 95)
            && (kind == Number <==> IsFigure(c) || c == 45)
            && (kind == String <==> c == 34)
  {
  }

  /** One character and nothing more. */
  predicate IsSingle(inp: string, s: nat, kind: Kind, c: char)
    requires s < |inp|
  {
    (InnerToken(inp, s).0 == kind <==> inp[s] == c) && (inp[s] == c ==> InnerToken(inp, s).1 == s + 1)
  }

  lemma {:induction false} SingleKinds(inp: string, s: nat)
    requires s < |inp|
    ensures IsSingle(inp, s, LeftParen, '(') && IsSingle(inp, s, RightParen, ')')
    ensures IsSingle(inp, s, LeftBracket, '[') && IsSingle(inp, s, RightBracket, ']')
    ensures IsSingle(inp, s, LeftBrace, '{') && IsSingle(inp, s, RightBrace, '}')
    ensures IsSingle(inp, s, Comma, ',') && IsSingle(inp, s, Colon, ':')
  {
  }

  /** A character followed by an equals sign. */
  predicate IsDouble(inp: string, s: nat, kind: Kind, c: char)
    requires s < |inp|
  {
    && (InnerToken(inp, s).0 == kind <==> inp[s] == c && s + 1 < |inp| && inp[s + 1] == '=')
    && (InnerToken(inp, s).0 == kind ==> InnerToken(inp, s).1 == s + 2)
  }

  /** The six comparisons; the shorter one only where the longer is not. */
  lemma {:induction false} ComparisonKinds(inp: string, s: nat)
    requires s < |inp|
    ensures IsDouble(inp, s, EqualKind, '=') && IsDouble(inp, s, NotEqual, '!')
    ensures IsDouble(inp, s, GreaterEqualKind, '>') && IsDouble(inp, s, LessEqualKind, '<')
    ensures var equals, r := s + 1 < |inp| && inp[s + 1] == '=', InnerToken(inp, s);
            && (r.0 == GreaterThan <==> inp[s] == '>' && !equals)
            && (r.0 == LessThan <==> inp[s] == '<' && !equals)
            && (r.0 == GreaterThan || r.0 == LessThan ==> r.1 == s + 1)
  {
  }

  // ----- names and numbers are as long as they can be -----

  lemma {:induction false} IdIsMaximal(inp: string, p: nat)
    requires p <= |inp|
    ensures var q := IdEnd(inp, p);
            (forall i | p <= i < q :: IsIdChar(inp[i])) && (q < |inp| ==> !IsIdChar(inp[q]))
    decreases |inp| - p
  {
    if p < |inp| && IsIdChar(inp[p]) {
      IdIsMaximal(inp, p + 1);
    }
  }

  lemma {:induction false} NumberIsMaximal(inp: string, p: nat)
    requires p <= |inp|
    ensures var q := NumberEnd(inp, p);
            (forall i | p <= i < q :: IsNumberChar(inp[i])) && (q < |inp| ==> !IsNumberChar(inp[q]))
    decreases |inp| - p
  {
    if p < |inp| && IsNumberChar(inp[p]) {
      NumberIsMaximal(inp, p + 1);
    }
  }

  /** A name or a number takes all the characters it can. */
  lemma {:induction false} WordsAreMaximal(inp: string, s: nat)
    requires s < |inp|
    ensures var (kind, end) := InnerToken(inp, s);
            && (kind == Id ==> (forall i | s < i < end :: IsIdChar(inp[i])) && (end < |inp| ==> !IsIdChar(inp[end])))
            && (kind == Number ==>
                  (forall i | s < i < end :: IsNumberChar(inp[i])) && (end < |inp| ==> !IsNumberChar(inp[end])))
  {
    IdIsMaximal(inp, s + 1);
    NumberIsMaximal(inp, s + 1);
  }

  // ----- trimming -----

  /** One line end is dropped behind a block: a line feed, a carriage return, or both in this order. */
  lemma {:induction false} TrimExactly(inp: string, p: nat)
    requires p <= |inp|
    ensures AfterNewline(inp, p) - p ==
            if StartsWith(inp, p, "\r\n") then 2
            else if StartsWith(inp, p, "\n") || StartsWith(inp, p, "\r") then 1
            else 0
  {
    if p + 1 < |inp| && StartsWith(inp, p, "\r\n") {
      assert inp[p..p + 2][0] == '\r' && inp[p..p + 2][1] == '\n';
    }
    if p < |inp| {
      assert inp[p..p + 1] == [inp[p]];
    }
    if p + 1 < |inp| {
      assert inp[p..p + 2] == [inp[p], inp[p + 1]];
    }
  }

  /** inp[e..q] is all the white space of a line, from its start on. */
  predicate IsIndent(inp: string, start: nat, e: nat, q: nat)
    requires start <= e <= q <= |inp|
  {
    && (forall i | e <= i < q :: inp[i] == ' ' || inp[i] == '\t')
    && (e == start || inp[e - 1] == '\n' || inp[e - 1] == '\r')
  }

  lemma {:induction false} StripsIndent(inp: string, start: nat, e: nat, q: nat, r: nat)
    requires start <= e <= r <= q <= |inp| && IsIndent(inp, start, e, q)
    ensures ClearFinalLine(inp, start, q, r) == e
    decreases r - start
  {
    if e < r {
      StripsIndent(inp, start, e, q, r - 1);
    }
  }

  lemma {:induction false} StripsNothingElse(inp: string, start: nat, q: nat, r: nat)
    requires start <= r <= q <= |inp| && forall i | r <= i < q :: inp[i] == ' ' || inp[i] == '\t'
    requires forall e | start <= e <= q :: !IsIndent(inp, start, e, q)
    ensures ClearFinalLine(inp, start, q, r) == q
    decreases r - start
  {
    assert !IsIndent(inp, start, r, q);
    if inp[r - 1] == ' ' || inp[r - 1] == '\t' {
      StripsNothingElse(inp, start, q, r - 1);
    }
  }

  /** The indent before a block is dropped, if there is nothing else on its line. */
  lemma {:induction false} StripExactly(inp: string, start: nat, q: nat)
    requires start <= q <= |inp|
    ensures var e := ClearFinalLine(inp, start, q, q);
            IsIndent(inp, start, e, q) || (e == q && forall d | start <= d <= q :: !IsIndent(inp, start, d, q))
  {
    if e :| start <= e <= q && IsIndent(inp, start, e, q) {
      StripsIndent(inp, start, e, q, q);
    } else {
      StripsNothingElse(inp, start, q, q);
    }
  }
}

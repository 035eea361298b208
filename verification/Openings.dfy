/** The fast search for openings and the scan of string literals, each against a direct
    definition of what it looks for. */
module Openings {
  import opened Options
  import opened Tokens
  import opened Lexing
  import opened Scanning

  // ----- openings -----

  function FirstChar(s: string): char {
    if s == "" then '\0' else s[0]
  }

  /** Every opening sequence starts with an opening character. */
  predicate Covering(cfg: Config) {
    && FirstChar(cfg.lineStatement) in cfg.openChars && FirstChar(cfg.statementOpen) in cfg.openChars
    && FirstChar(cfg.expressionOpen) in cfg.openChars && FirstChar(cfg.commentOpen) in cfg.openChars
  }

  /** One of the four openings' first characters. */
  predicate IsFirstChar(cfg: Config, c: char) {
    || c == FirstChar(cfg.lineStatement) || c == FirstChar(cfg.statementOpen)
    || c == FirstChar(cfg.expressionOpen) || c == FirstChar(cfg.commentOpen)
  }

  predicate NoRepeats(s: string) {
    forall i, j | 0 <= i < j < |s| :: s[i] != s[j]
  }

  /** open_chars += c, unless it is there. */
  method AddOpenChar(openChars: string, c: char) returns (r: string)
    ensures c in r && (forall d :: d in r <==> d in openChars || d == c) && (NoRepeats(openChars) ==> NoRepeats(r))
  {
    r := openChars;
    if c !in r {
      r := r + [c];
    }
  }

  /** LexerConfig::update_open_chars: exactly the first characters of the openings, each once. */
  method UpdateOpenChars(cfg: Config) returns (r: Config)
    ensures r == cfg.(openChars := r.openChars) && Covering(r)
    ensures NoRepeats(r.openChars) && forall c | c in r.openChars :: IsFirstChar(cfg, c)
  {
    var openChars := "";
    openChars := AddOpenChar(openChars, FirstChar(cfg.lineStatement));
    openChars := AddOpenChar(openChars, FirstChar(cfg.statementOpen));
    openChars := AddOpenChar(openChars, FirstChar(cfg.expressionOpen));
    openChars := AddOpenChar(openChars, FirstChar(cfg.commentOpen));
    r := cfg.(openChars := openChars);
  }

  lemma {:induction false} DefaultCovers()
    ensures Usable(DEFAULT) && Covering(DEFAULT)
  {
  }

  /** Expressions are tried before statements, statements before comments, and lines last, at the start
      of a line only. */
  lemma {:induction false} OpenerOrder(cfg: Config, inp: string, p: nat)
    requires p < |inp|
    ensures var e, s := StartsWith(inp, p, cfg.expressionOpen), StartsWith(inp, p, cfg.statementOpen);
            var c, l := StartsWith(inp, p, cfg.commentOpen), StartsWith(inp, p, cfg.lineStatement);
            var r := OpenerAt(cfg, inp, p);
            && (r == Some(ExpressionStart) <==> e) && (r == Some(StatementStart) <==> s && !e)
            && (r == Some(CommentStart) <==> c && !s && !e)
            && (r == Some(LineStart) <==> l && !c && !s && !e && (p == 0 || inp[p - 1] == '\n'))
  {
  }

  /** The first position from p on at which some sequence opens, found by trying them all. */
  function FirstOpening(cfg: Config, inp: string, p: nat): (q: nat)
    requires p <= |inp|
    ensures p <= q <= |inp|
    ensures q < |inp| ==> OpenerAt(cfg, inp, q).Some?
    ensures forall i | p <= i < q :: OpenerAt(cfg, inp, i).None?
    decreases |inp| - p, cfg
  {
    if p == |inp| || OpenerAt(cfg, inp, p).Some? then p else FirstOpening(cfg, inp, p + 1)
  }

  lemma {:induction false} OpenerStartsWithOpenChar(cfg: Config, inp: string, i: nat)
    requires Usable(cfg) && Covering(cfg) && i < |inp| && OpenerAt(cfg, inp, i).Some?
    ensures inp[i] in cfg.openChars
  {
    var open := Opening(cfg, OpenerAt(cfg, inp, i).value);
    assert inp[i..i + |open|][0] == open[0];
  }

  lemma {:induction false} FirstOpeningIsUnique(cfg: Config, inp: string, p: nat, q: nat)
    requires p <= q <= |inp| && (q < |inp| ==> OpenerAt(cfg, inp, q).Some?)
    requires forall i | p <= i < q :: OpenerAt(cfg, inp, i).None?
    ensures FirstOpening(cfg, inp, p) == q
  {
  }

  lemma {:induction false} SkippedAt(cfg: Config, inp: string, p: nat, i: nat)
    requires Usable(cfg) && Covering(cfg) && p <= |inp| && p <= i < TextStop(cfg, inp, p)
    ensures OpenerAt(cfg, inp, i).None?
    decreases |inp| - p
  {
    var q := FindOpenChar(cfg, inp, p);
    if i < q {
      if OpenerAt(cfg, inp, i).Some? {
        OpenerStartsWithOpenChar(cfg, inp, i);
      }
    } else if i > q {
      SkippedAt(cfg, inp, q + 1, i);
    }
  }

  lemma {:induction false} StopSkipsNothing(cfg: Config, inp: string, p: nat)
    requires Usable(cfg) && Covering(cfg) && p <= |inp|
    ensures forall i | p <= i < TextStop(cfg, inp, p) :: OpenerAt(cfg, inp, i).None?
  {
    forall i | p <= i < TextStop(cfg, inp, p) ensures OpenerAt(cfg, inp, i).None? {
      SkippedAt(cfg, inp, p, i);
    }
  }

  /** Jumping from opening character to opening character finds what trying every position finds. */
  lemma {:induction false} FastIsNaive(cfg: Config, inp: string, p: nat)
    requires Usable(cfg) && Covering(cfg) && p <= |inp|
    ensures TextStop(cfg, inp, p) == FirstOpening(cfg, inp, p)
  {
    StopSkipsNothing(cfg, inp, p);
    FirstOpeningIsUnique(cfg, inp, p, TextStop(cfg, inp, p));
  }

  /** Text tokens come from text mode only. */
  lemma {:induction false} TextComesFromText(cfg: Config, inp: string, st: LexState)
    requires ValidState(cfg, inp, st) && ScanFrom(cfg, inp, st).tok.kind == TextKind
    ensures st.pos < |inp| && st.mode == InText
    ensures ScanFrom(cfg, inp, st).tok.start == st.pos
    ensures End(ScanFrom(cfg, inp, st).tok) <= TextStop(cfg, inp, st.pos)
  {
  }

  /** A text token hides no opening sequence: nothing opens anywhere in it. */
  lemma {:induction false} TextHasNoOpening(cfg: Config, inp: string, st: LexState, k: nat, i: nat)
    requires Usable(cfg) && Covering(cfg) && ValidState(cfg, inp, st)
    requires k < |Lex(cfg, inp, st)| && Lex(cfg, inp, st)[k].kind == TextKind
    requires Covers(Lex(cfg, inp, st)[k], i) && i < |inp|
    ensures OpenerAt(cfg, inp, i).None?
    decreases |inp| - st.pos
  {
    ScanProgress(cfg, inp, st);
    var r := ScanFrom(cfg, inp, st);
    if k == 0 {
      TextComesFromText(cfg, inp, st);
      SkippedAt(cfg, inp, st.pos, i);
    } else {
      TextHasNoOpening(cfg, inp, r.st, k - 1, i);
    }
  }

  /** A source in which nothing opens is one text token. */
  lemma {:induction false} PlainSource(cfg: Config, inp: string)
    requires Usable(cfg) && inp != "" && forall i | 0 <= i < |inp| :: OpenerAt(cfg, inp, i).None?
    ensures Tokenize(cfg, inp) == [Token(TextKind, inp, 0), EofToken(inp)]
  {
    assert TextStop(cfg, inp, 0) == |inp|;
    assert inp[0..|inp|] == inp;
    var st := LexState(|inp|, InText);
    assert ScanFrom(cfg, inp, LexState(0, InText)) == Scanned(Token(TextKind, inp, 0), st);
    assert Lex(cfg, inp, st) == [EofToken(inp)];
  }

  // ----- string literals -----

  /** How many backslashes stand directly before p, looking back no further than `from`. */
  function Backslashes(inp: string, from: nat, p: nat): (n: nat)
    requires from <= p <= |inp|
    ensures n <= p - from
    decreases p, inp
  {
    if p == from || inp[p - 1] != '\\' then 0 else 1 + Backslashes(inp, from, p - 1)
  }

  /** A JSON string (section 7 of RFC 8259) ends at the first quote that no backslash escapes:
      one with an even number of backslashes before it. */
  predicate ClosesJson(inp: string, from: nat, p: nat)
    requires from <= p < |inp|
  {
    inp[p] == '"' && Backslashes(inp, from, p) % 2 == 0
  }

  function JsonEnd(inp: string, from: nat, p: nat): (q: nat)
    requires from <= p <= |inp|
    ensures p <= q <= |inp|
    ensures q < |inp| ==> ClosesJson(inp, from, q)
    ensures forall i | p <= i < q :: !ClosesJson(inp, from, i)
    decreases |inp| - p, inp
  {
    if p == |inp| || ClosesJson(inp, from, p) then p else JsonEnd(inp, from, p + 1)
  }

  /** The scanner's own rule: the first quote without a backslash directly before it. */
  predicate ClosesScan(inp: string, from: nat, p: nat)
    requires from <= p < |inp|
  {
    inp[p] == '"' && (p == from || inp[p - 1] != '\\')
  }

  /** The scan of a string ends just behind the first quote that closes by the scanner's rule. */
  lemma {:induction false} StringEndExact(inp: string, from: nat, p: nat)
    requires from <= p <= |inp|
    ensures var q := StringEnd(inp, p, p > from && inp[p - 1] == '\\');
            || (q > p && ClosesScan(inp, from, q - 1) && forall i | p <= i < q - 1 :: !ClosesScan(inp, from, i))
            || (q == |inp| && forall i | p <= i < q :: !ClosesScan(inp, from, i))
    decreases |inp| - p
  {
    if p < |inp| && !(inp[p] == '"' && !(p > from && inp[p - 1] == '\\')) {
      StringEndExact(inp, from, p + 1);
    }
  }

  /** The scanner finds the end of a JSON string exactly when the string's closing quote does
      not follow a backslash, that is, when its value does not end in an escaped backslash, or
      when that quote is the last character of the source, where the scan ends anyway. */
  lemma {:induction false} StringEndAgrees(inp: string, from: nat)
    requires from <= |inp| && JsonEnd(inp, from, from) < |inp|
    ensures var close := JsonEnd(inp, from, from);
            StringEnd(inp, from, false) == close + 1
            <==> Backslashes(inp, from, close) == 0 || close + 1 == |inp|
  {
    StringEndExact(inp, from, from);
    var close := JsonEnd(inp, from, from);
    var q := StringEnd(inp, from, false);
    forall i | from <= i < close ensures !ClosesScan(inp, from, i) {
      assert !ClosesJson(inp, from, i);
    }
    if Backslashes(inp, from, close) == 0 {
      assert ClosesScan(inp, from, close);
    } else {
      assert !ClosesScan(inp, from, close);
    }
  }
}

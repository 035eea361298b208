/** Token sequences written out as text: the scanner reads them back. */
module Spelling {
  import opened Options
  import opened Tokens
  import opened Lexing
  import opened Scanning
  import opened Openings
  import opened Linear

  // ----- what can be written -----

  predicate IsName(s: string) {
    s != "" && (IsAlpha(s[0]) || s[0] == '_') && forall i | 1 <= i < |s| :: IsIdChar(s[i])
  }

  predicate IsNumber(s: string) {
    s != "" && (IsDigit(s[0]) || s[0] == '-') && forall i | 1 <= i < |s| :: IsNumberChar(s[i])
  }

  /** A string literal that ends where the scanner ends it. */
  predicate IsQuoted(s: string) {
    |s| >= 2 && s[0] == '"' && ClosesScan(s, 1, |s| - 1) && forall i | 1 <= i < |s| - 1 :: !ClosesScan(s, 1, i)
  }

  /** A text in which nothing opens, whatever opening follows it. */
  predicate IsPlain(s: string, line: bool) {
    && s != ""
    && (forall i | 0 <= i < |s| && s[i] == '{' :: i + 1 < |s| && s[i + 1] != '{' && s[i + 1] != '%' && s[i + 1] != '#')
    && (forall i | 0 <= i < |s| - 1 && s[i] == '#' && s[i + 1] == '#' :: if i == 0 then !line else s[i - 1] != '\n')
  }

  /** A comment up to and with its end, the first one in it. */
  predicate IsCommentEnd(s: string) {
    |s| >= 2 && s[|s| - 2] == '#' && s[|s| - 1] == '}' && forall i | 0 <= i < |s| - 2 :: s[i] != '#' || s[i + 1] != '}'
  }

  function SymbolText(k: Kind): string {
    match k
    case LeftParen => "("
    case RightParen => ")"
    case Comma => ","
    case EqualKind => "=="
    case NotEqual => "!="
    case GreaterThan => ">"
    case GreaterEqualKind => ">="
    case LessThan => "<"
    case LessEqualKind => "<="
    case _ => ""
  }

  /** A token of an expression or a statement. */
  predicate IsInner(p: Pattern) {
    match p
    case Exactly(k, s) => (k == Id && IsName(s)) || (k == Number && IsNumber(s)) || (k == String && IsQuoted(s))
    case OfKind(k) => SymbolText(k) != ""
  }

  function InnerText(p: Pattern): string {
    match p
    case Exactly(_, s) => s
    case OfKind(k) => SymbolText(k)
  }

  /** Where a token stands: outside tags, behind a text or not, at the start of a line or not; or
      inside a tag or a comment. */
  datatype Place = Outside(text: bool, line: bool) | Inside(mode: Mode)

  const FIRST: Place := Outside(false, true)

  /** The opening that a token is. */
  function StartOf(p: Pattern): Option<Mode> {
    if p == OfKind(ExpressionOpen) then Some(ExpressionStart)
    else if p == OfKind(StatementOpen) then Some(StatementStart)
    else if p == OfKind(CommentOpen) then Some(CommentStart)
    else if p == OfKind(LineStatementOpen) then Some(LineStart)
    else None
  }

  function BodyOf(start: Mode): Mode {
    match start
    case ExpressionStart => ExpressionBody
    case StatementStart => StatementBody
    case CommentStart => CommentBody
    case _ => LineBody
  }

  /** How a tag of each kind ends. */
  function Ending(mode: Mode): (Kind, string) {
    match mode
    case ExpressionBody => (ExpressionClose, "}}")
    case StatementBody => (StatementClose, "%}")
    case _ => (LineStatementClose, "\n")
  }

  /** Where the next token stands, if this one can stand here. */
  function PlaceAfter(at: Place, p: Pattern): Option<Place> {
    match at
    case Outside(text, line) =>
      if p.Exactly? then
        if p.kind == TextKind && !text && IsPlain(p.text, line) then Some(Outside(true, p.text[|p.text| - 1] == '\n'))
        else None
      else (match StartOf(p)
        case None => None
        case Some(start) => if start == LineStart && !line then None else Some(Inside(BodyOf(start))))
    case Inside(mode) =>
      if mode == CommentBody then
        if p.Exactly? && p.kind == CommentClose && IsCommentEnd(p.text) then Some(Outside(false, false)) else None
      else if p == OfKind(Ending(mode).0) then Some(Outside(false, p.kind == LineStatementClose))
      else if IsInner(p) then Some(at)
      else None
  }

  /** Where the n-th token stands. */
  function PlaceAt(ps: seq<Pattern>, n: nat): Option<Place>
    requires n <= |ps|
    decreases n, ps
  {
    if n == 0 then Some(FIRST)
    else match PlaceAt(ps, n - 1)
      case None => None
      case Some(at) => PlaceAfter(at, ps[n - 1])
  }

  /** All tokens have a place, and no tag is left open. */
  predicate Spells(ps: seq<Pattern>) {
    PlaceAt(ps, |ps|).Some? && PlaceAt(ps, |ps|).value.Outside?
  }

  // ----- the text -----

  /** One token: inside a tag, with a blank before it. */
  function Piece(p: Pattern): string {
    match p
    case Exactly(k, s) => if k == TextKind || k == CommentClose then s else " " + s
    case OfKind(k) =>
      match k {
        case ExpressionOpen => "{{"
        case StatementOpen => "{%"
        case CommentOpen => "{#"
        case LineStatementOpen => "##"
        case ExpressionClose => " }}"
        case StatementClose => " %}"
        case LineStatementClose => " \n"
        case _ => " " + SymbolText(k)
      }
  }

  /** The text of the first n tokens. */
  function SpellFirst(ps: seq<Pattern>, n: nat): string
    requires n <= |ps|
    decreases n, ps
  {
    if n == 0 then "" else SpellFirst(ps, n - 1) + Piece(ps[n - 1])
  }

  function Spelled(ps: seq<Pattern>): string {
    SpellFirst(ps, |ps|)
  }

  lemma {:induction false} TextStands(ps: seq<Pattern>, k: nat, n: nat)
    requires k <= n <= |ps|
    ensures |SpellFirst(ps, k)| <= |SpellFirst(ps, n)| && SpellFirst(ps, k) == SpellFirst(ps, n)[..|SpellFirst(ps, k)|]
    decreases n
  {
    if k < n {
      TextStands(ps, k, n - 1);
    }
  }

  /** A token's text is where it belongs. */
  lemma {:induction false} PieceStands(ps: seq<Pattern>, k: nat)
    requires k < |ps|
    ensures StartsWith(Spelled(ps), |SpellFirst(ps, k)|, Piece(ps[k]))
    ensures |SpellFirst(ps, k + 1)| == |SpellFirst(ps, k)| + |Piece(ps[k])|
  {
    TextStands(ps, k + 1, |ps|);
    var all, p, q := Spelled(ps), |SpellFirst(ps, k)|, |SpellFirst(ps, k + 1)|;
    assert all[..q] == SpellFirst(ps, k) + Piece(ps[k]);
    assert all[p..q] == all[..q][p..];
  }

  lemma {:induction false} PlaceBefore(ps: seq<Pattern>, k: nat, n: nat)
    requires k <= n <= |ps| && PlaceAt(ps, n).Some?
    ensures PlaceAt(ps, k).Some?
    decreases n
  {
    if k < n {
      PlaceBefore(ps, k, n - 1);
    }
  }

  /** The place knows whether a line starts there. */
  lemma {:induction false} LineIsExact(ps: seq<Pattern>, k: nat)
    requires k <= |ps| && PlaceAt(ps, k).Some? && PlaceAt(ps, k).value.Outside?
    ensures var t := SpellFirst(ps, k); PlaceAt(ps, k).value.line <==> t == "" || t[|t| - 1] == '\n'
  {
    if k > 0 {
      var t, piece := SpellFirst(ps, k), Piece(ps[k - 1]);
      assert piece != "" && t[|t| - 1] == piece[|piece| - 1];
    }
  }

  // ----- one inner token -----

  lemma {:induction false} CharOf(inp: string, p: nat, s: string, i: nat)
    requires StartsWith(inp, p, s) && i < |s|
    ensures inp[p + i] == s[i]
  {
    assert inp[p..p + |s|][i] == s[i];
  }

  lemma {:induction false} IdEndAt(inp: string, p: nat, q: nat)
    requires p <= q < |inp| && !IsIdChar(inp[q]) && forall i | p <= i < q :: IsIdChar(inp[i])
    ensures IdEnd(inp, p) == q
    decreases q - p
  {
    if p < q {
      IdEndAt(inp, p + 1, q);
    }
  }

  lemma {:induction false} NumberEndAt(inp: string, p: nat, q: nat)
    requires p <= q < |inp| && !IsNumberChar(inp[q]) && forall i | p <= i < q :: IsNumberChar(inp[i])
    ensures NumberEnd(inp, p) == q
    decreases q - p
  {
    if p < q {
      NumberEndAt(inp, p + 1, q);
    }
  }

  lemma {:induction false} QuotedEndAt(inp: string, p: nat, s: string)
    requires IsQuoted(s) && StartsWith(inp, p, s)
    ensures StringEnd(inp, p + 1, false) == p + |s|
  {
    forall i | 0 <= i < |s| ensures inp[p + i] == s[i] {
      CharOf(inp, p, s, i);
    }
    StringEndExact(inp, p + 1, p + 1);
    var q := StringEnd(inp, p + 1, false);
    assert ClosesScan(inp, p + 1, p + |s| - 1);
    if p + 1 < q < p + |s| && ClosesScan(inp, p + 1, q - 1) {
      assert ClosesScan(s, 1, q - 1 - p);
    }
  }

  /** A blank ends every token but a string, which ends itself. */
  lemma {:induction false} InnerIsRead(inp: string, p: nat, t: Pattern)
    requires IsInner(t) && StartsWith(inp, p, InnerText(t))
    requires p + |InnerText(t)| < |inp| && inp[p + |InnerText(t)|] == ' '
    ensures InnerText(t) != "" && InnerToken(inp, p) == (t.kind, p + |InnerText(t)|)
  {
    var s := InnerText(t);
    forall i | 0 <= i < |s| ensures inp[p + i] == s[i] {
      CharOf(inp, p, s, i);
    }
    match t
    case Exactly(k, _) =>
      assert inp[p] == s[0];
      if k == Id {
        IdEndAt(inp, p + 1, p + |s|);
      } else if k == Number {
        NumberEndAt(inp, p + 1, p + |s|);
      } else {
        QuotedEndAt(inp, p, s);
      }
    case OfKind(k) => SymbolIsRead(inp, p, k);
  }

  lemma {:induction false} SymbolIsRead(inp: string, p: nat, k: Kind)
    requires SymbolText(k) != "" && StartsWith(inp, p, SymbolText(k))
    requires p + |SymbolText(k)| < |inp| && inp[p + |SymbolText(k)|] == ' '
    ensures InnerToken(inp, p) == (k, p + |SymbolText(k)|)
  {
    var s := SymbolText(k);
    CharOf(inp, p, s, 0);
    if |s| == 2 {
      CharOf(inp, p, s, 1);
    }
  }

  /** What an inner token starts with is no blank, and starts no closing sequence. */
  lemma {:induction false} InnerStart(t: Pattern)
    requires IsInner(t)
    ensures var s := InnerText(t); s != "" && !IsSpace(s[0]) && s[0] != '}' && s[0] != '%'
  {
  }

  // ----- one scan -----

  lemma {:induction false} ClosesHere(inp: string, st: LexState, close: string, closeKind: Kind)
    requires close != "" && !IsBlank(close[0]) && StartsWith(inp, st.pos, " " + close)
    ensures ScanBody(inp, st, close, closeKind, false)
            == Scanned(Token(closeKind, close, st.pos + 1), LexState(st.pos + 1 + |close|, InText))
  {
    var p := st.pos;
    CharOf(inp, p, " " + close, 0);
    CharOf(inp, p, " " + close, 1);
    assert inp[p + 1..p + 1 + |close|] == inp[p..p + 1 + |close|][1..] == close;
    assert StartsWith(inp, p + 1, close);
    assert BodyStart(inp, p + 1, close) == p + 1;
  }

  lemma {:induction false} InnerHere(inp: string, st: LexState, close: string, closeKind: Kind, t: Pattern)
    requires close == "}}" || close == "%}" || close == "\n"
    requires IsInner(t) && StartsWith(inp, st.pos, " " + InnerText(t))
    requires var q := st.pos + 1 + |InnerText(t)|; q < |inp| && inp[q] == ' '
    ensures ScanBody(inp, st, close, closeKind, false)
            == Scanned(Token(t.kind, InnerText(t), st.pos + 1), LexState(st.pos + 1 + |InnerText(t)|, st.mode))
  {
    var p, s := st.pos, InnerText(t);
    InnerStart(t);
    CharOf(inp, p, " " + s, 0);
    CharOf(inp, p, " " + s, 1);
    assert inp[p + 1..p + 1 + |s|] == inp[p..p + 1 + |s|][1..] == s;
    InnerIsRead(inp, p + 1, t);
    NotClosing(inp, p + 1, close);
    assert BodyStart(inp, p + 1, close) == p + 1;
  }

  lemma {:induction false} NotClosing(inp: string, p: nat, close: string)
    requires p < |inp| && (close == "}}" || close == "%}" || close == "\n")
    requires inp[p] != '}' && inp[p] != '%' && inp[p] != '\n'
    ensures !StartsWith(inp, p, close)
  {
    if StartsWith(inp, p, close) {
      CharOf(inp, p, close, 0);
    }
  }

  predicate IsTag(mode: Mode) {
    mode == ExpressionBody || mode == StatementBody || mode == LineBody
  }

  /** The scanner's mode where the next token stands. Behind a text it has seen the opening that
      follows. */
  predicate InMode(at: Place, next: Option<Pattern>, mode: Mode) {
    match at
    case Outside(_, _) => mode == InText || (next.Some? && StartOf(next.value) == Some(mode))
    case Inside(body) => mode == body
  }

  /** A tag's token ends it or is an inner one. */
  lemma {:induction false} FollowInside(mode: Mode, p: Pattern)
    requires IsTag(mode) && PlaceAfter(Inside(mode), p).Some?
    ensures Piece(p) == " " + if p == OfKind(Ending(mode).0) then Ending(mode).1 else InnerText(p)
    ensures p == OfKind(Ending(mode).0) ==> PlaceAfter(Inside(mode), p).value.Outside?
    ensures p != OfKind(Ending(mode).0) ==> IsInner(p) && PlaceAfter(Inside(mode), p) == Some(Inside(mode))
  {
  }

  /** A tag's tokens are read as they are written. */
  lemma {:induction false} ReadsInside(inp: string, p: nat, mode: Mode, t: Pattern)
    requires IsTag(mode) && PlaceAfter(Inside(mode), t).Some? && StartsWith(inp, p, Piece(t))
    requires var q := p + |Piece(t)|; PlaceAfter(Inside(mode), t).value.Inside? ==> q < |inp| && inp[q] == ' '
    ensures var r := ScanBody(inp, LexState(p, mode), Ending(mode).1, Ending(mode).0, false);
            && Matches(r.tok, t) && r.st.pos == p + |Piece(t)| && r.tok.kind != Eof
            && r.st.mode == if PlaceAfter(Inside(mode), t).value.Inside? then mode else InText
  {
    FollowInside(mode, t);
    if t == OfKind(Ending(mode).0) {
      ClosesHere(inp, LexState(p, mode), Ending(mode).1, Ending(mode).0);
    } else {
      InnerHere(inp, LexState(p, mode), Ending(mode).1, Ending(mode).0, t);
    }
  }

  // ----- comments -----

  lemma {:induction false} FindTextAt(inp: string, p: nat, q: nat, s: string)
    requires p <= q <= |inp| && StartsWith(inp, q, s) && forall i | p <= i < q :: !StartsWith(inp, i, s)
    ensures FindText(inp, p, s) == q
    decreases q - p
  {
    if p < q {
      FindTextAt(inp, p + 1, q, s);
    }
  }

  lemma {:induction false} NoPair(inp: string, i: nat, c: char, d: char)
    requires i + 1 < |inp| && (inp[i] != c || inp[i + 1] != d)
    ensures !StartsWith(inp, i, [c, d])
  {
    if StartsWith(inp, i, [c, d]) {
      CharOf(inp, i, [c, d], 0);
      CharOf(inp, i, [c, d], 1);
    }
  }

  lemma {:induction false} CommentEndsAt(inp: string, p: nat, s: string)
    requires IsCommentEnd(s) && StartsWith(inp, p, s)
    ensures FindText(inp, p, "#}") == p + |s| - 2 && StartsWith(inp, p + |s| - 2, "#}")
  {
    var q := p + |s| - 2;
    CharOf(inp, p, s, |s| - 2);
    CharOf(inp, p, s, |s| - 1);
    assert inp[q..q + 2] == "#}";
    forall i | p <= i < q ensures !StartsWith(inp, i, "#}") {
      CharOf(inp, p, s, i - p);
      CharOf(inp, p, s, i - p + 1);
      NoPair(inp, i, '#', '}');
    }
    FindTextAt(inp, p, q, "#}");
  }

  lemma {:induction false} ReadsComment(inp: string, p: nat, t: Pattern)
    requires PlaceAfter(Inside(CommentBody), t).Some? && StartsWith(inp, p, Piece(t))
    ensures var r := ScanComment(DEFAULT, inp, LexState(p, CommentBody));
            && Matches(r.tok, t) && r.st.pos == p + |Piece(t)| && r.tok.kind != Eof && r.st.mode == InText
  {
    CommentEndsAt(inp, p, t.text);
  }

  // ----- outside tags -----

  /** An opening at p is tried and found. */
  lemma {:induction false} OpensHere(inp: string, p: nat, start: Mode)
    requires IsStart(start) && StartsWith(inp, p, Opening(DEFAULT, start)) && p < |inp|
    requires start == LineStart ==> p == 0 || inp[p - 1] == '\n'
    ensures OpenerAt(DEFAULT, inp, p) == Some(start)
  {
    var open := Opening(DEFAULT, start);
    CharOf(inp, p, open, 0);
    CharOf(inp, p, open, 1);
    if start != ExpressionStart {
      NoPair(inp, p, '{', '{');
    }
    if start != StatementStart {
      NoPair(inp, p, '{', '%');
    }
    if start != CommentStart {
      NoPair(inp, p, '{', '#');
    }
  }

  lemma {:induction false} NothingOpens(inp: string, p: nat)
    requires p < |inp|
    requires inp[p] == '{' ==> p + 1 < |inp| && inp[p + 1] != '{' && inp[p + 1] != '%' && inp[p + 1] != '#'
    requires inp[p] == '#' && p + 1 < |inp| && inp[p + 1] == '#' ==> p > 0 && inp[p - 1] != '\n'
    ensures OpenerAt(DEFAULT, inp, p).None?
  {
    if p + 1 < |inp| {
      if inp[p] != '{' || inp[p + 1] != '{' {
        NoPair(inp, p, '{', '{');
      }
      NoPair(inp, p, '{', '%');
      NoPair(inp, p, '{', '#');
      if inp[p] != '#' || inp[p + 1] != '#' {
        NoPair(inp, p, '#', '#');
      }
    }
  }

  lemma {:induction false} NothingOpensIn(inp: string, p: nat, s: string, line: bool, i: nat)
    requires StartsWith(inp, p, s) && IsPlain(s, line) && (line <==> p == 0 || inp[p - 1] == '\n') && p <= i < p + |s|
    requires var q := p + |s|; q < |inp| && inp[q] == '#' ==> s[|s| - 1] == '\n'
    ensures OpenerAt(DEFAULT, inp, i).None?
  {
    CharOf(inp, p, s, i - p);
    if i > p {
      CharOf(inp, p, s, i - p - 1);
    }
    if i + 1 < p + |s| {
      CharOf(inp, p, s, i + 1 - p);
    }
    var j := i - p;
    assert j + 1 < |s| && s[j] == '#' && s[j + 1] == '#' ==> if j == 0 then !line else s[j - 1] != '\n';
    assert j + 1 == |s| ==> s[j] == s[|s| - 1];
    NothingOpens(inp, i);
  }

  /** A plain text is one token, up to the opening that follows or the end. */
  lemma {:induction false} ReadsText(inp: string, p: nat, s: string, line: bool)
    requires StartsWith(inp, p, s) && IsPlain(s, line) && (line <==> p == 0 || inp[p - 1] == '\n')
    requires var q := p + |s|; q < |inp| ==>
               OpenerAt(DEFAULT, inp, q).Some? && (inp[q] == '#' ==> s[|s| - 1] == '\n')
    ensures var q, r := p + |s|, ScanText(DEFAULT, inp, p);
            && r.tok == Token(TextKind, s, p) && r.st.pos == q
            && r.st.mode == if q < |inp| then OpenerAt(DEFAULT, inp, q).value else InText
  {
    forall i | p <= i < p + |s| ensures OpenerAt(DEFAULT, inp, i).None? {
      NothingOpensIn(inp, p, s, line, i);
    }
    DefaultCovers();
    FastIsNaive(DEFAULT, inp, p);
    FirstOpeningIsUnique(DEFAULT, inp, p, p + |s|);
  }

  /** An opening is read as one, seen before or not. */
  lemma {:induction false} ReadsOpening(inp: string, p: nat, start: Mode, mode: Mode)
    requires IsStart(start) && StartsWith(inp, p, Opening(DEFAULT, start)) && p < |inp|
    requires start == LineStart ==> p == 0 || inp[p - 1] == '\n'
    requires mode == InText || mode == start
    ensures ValidState(DEFAULT, inp, LexState(p, mode))
    ensures ScanFrom(DEFAULT, inp, LexState(p, mode)) == ScanStart(DEFAULT, inp, p, p, start)
  {
    if mode == InText {
      OpensHere(inp, p, start);
      DefaultCovers();
      FastIsNaive(DEFAULT, inp, p);
      FirstOpeningIsUnique(DEFAULT, inp, p, p);
    }
  }

  // ----- all tokens, one after another -----

  predicate Spot(k: nat) {
    true
  }

  /** The pieces stand one behind another in the text, each where it may. Kept abstract: each of the
      lemmas below asks about one token and the next. */
  ghost predicate Lays(inp: string, ps: seq<Pattern>, place: nat -> Place, start: nat -> nat) {
    && place(0) == FIRST && start(0) == 0 && place(|ps|).Outside? && start(|ps|) == |inp|
    && forall k: nat {:trigger Spot(k)} :: Spot(k) && k <= |ps| ==>
         && PlaceIsRight(inp, place(k), start(k))
         && (k < |ps| ==>
               && PlaceAfter(place(k), ps[k]) == Some(place(k + 1)) && start(k + 1) == start(k) + |Piece(ps[k])|
               && StartsWith(inp, start(k), Piece(ps[k])))
  }

  predicate PlaceIsRight(inp: string, at: Place, p: nat) {
    match at
    case Inside(mode) => IsTag(mode) || mode == CommentBody
    case Outside(_, line) => p <= |inp| && (line <==> p == 0 || inp[p - 1] == '\n')
  }

  function NextOf(ps: seq<Pattern>, k: nat): Option<Pattern> {
    if k < |ps| then Some(ps[k]) else None
  }

  /** The k-th token is read, and the scanner is where the next is. */
  predicate Reads(inp: string, ps: seq<Pattern>, place: nat -> Place, start: nat -> nat, k: nat, st: LexState)
    requires k < |ps|
  {
    && ValidState(DEFAULT, inp, st)
    && var r := ScanFrom(DEFAULT, inp, st);
       Matches(r.tok, ps[k]) && r.tok.kind != Eof && r.st.pos == start(k + 1)
       && InMode(place(k + 1), NextOf(ps, k + 1), r.st.mode)
  }

  /** One token and where the next stands. */
  lemma {:induction false} LaidAt(inp: string, ps: seq<Pattern>, place: nat -> Place, start: nat -> nat, k: nat)
    requires Lays(inp, ps, place, start) && k < |ps|
    ensures PlaceIsRight(inp, place(k), start(k)) && PlaceIsRight(inp, place(k + 1), start(k + 1))
    ensures PlaceAfter(place(k), ps[k]) == Some(place(k + 1)) && start(k + 1) == start(k) + |Piece(ps[k])|
    ensures StartsWith(inp, start(k), Piece(ps[k]))
  {
    assert Spot(k) && Spot(k + 1);
  }

  /** Inside a tag every token begins with a blank, and no tag is open at the end. */
  lemma {:induction false} BlankAt(inp: string, ps: seq<Pattern>, place: nat -> Place, start: nat -> nat, k: nat)
    requires Lays(inp, ps, place, start) && k <= |ps| && place(k).Inside? && IsTag(place(k).mode)
    ensures start(k) < |inp| && inp[start(k)] == ' '
  {
    LaidAt(inp, ps, place, start, k);
    FollowInside(place(k).mode, ps[k]);
    CharOf(inp, start(k), Piece(ps[k]), 0);
  }

  lemma {:induction false} ScansBody(inp: string, p: nat, mode: Mode)
    requires p < |inp| && (IsTag(mode) || mode == CommentBody)
    ensures ValidState(DEFAULT, inp, LexState(p, mode))
    ensures ScanFrom(DEFAULT, inp, LexState(p, mode)) ==
            if mode == CommentBody then ScanComment(DEFAULT, inp, LexState(p, mode))
            else ScanBody(inp, LexState(p, mode), Ending(mode).1, Ending(mode).0, false)
  {
  }

  lemma {:induction false} StepInside(inp: string, ps: seq<Pattern>, place: nat -> Place, start: nat -> nat, k: nat,
                                      st: LexState)
    requires Lays(inp, ps, place, start) && k < |ps| && place(k).Inside? && st == LexState(start(k), place(k).mode)
    ensures Reads(inp, ps, place, start, k, st)
  {
    LaidAt(inp, ps, place, start, k);
    PieceNonEmpty(place(k), ps[k]);
    ScansBody(inp, st.pos, st.mode);
    if st.mode == CommentBody {
      ReadsComment(inp, st.pos, ps[k]);
    } else {
      FollowInside(st.mode, ps[k]);
      if place(k + 1).Inside? {
        BlankAt(inp, ps, place, start, k + 1);
      }
      ReadsInside(inp, st.pos, st.mode, ps[k]);
    }
  }

  lemma {:induction false} PieceNonEmpty(at: Place, t: Pattern)
    requires PlaceAfter(at, t).Some?
    ensures Piece(t) != ""
  {
  }

  lemma {:induction false} StepText(inp: string, ps: seq<Pattern>, place: nat -> Place, start: nat -> nat, k: nat,
                                    st: LexState)
    requires Lays(inp, ps, place, start) && k < |ps| && place(k).Outside? && ps[k].Exactly?
    requires st == LexState(start(k), InText)
    ensures Reads(inp, ps, place, start, k, st)
  {
    LaidAt(inp, ps, place, start, k);
    BehindText(inp, ps, place, start, k);
    ReadsText(inp, st.pos, ps[k].text, place(k).line);
    ScansText(inp, st.pos);
  }

  lemma {:induction false} ScansText(inp: string, p: nat)
    requires p < |inp|
    ensures ValidState(DEFAULT, inp, LexState(p, InText))
    ensures ScanFrom(DEFAULT, inp, LexState(p, InText)) == ScanText(DEFAULT, inp, p)
  {
  }

  /** Behind a text the source ends or a tag opens. */
  lemma {:induction false} BehindText(inp: string, ps: seq<Pattern>, place: nat -> Place, start: nat -> nat, k: nat)
    requires Lays(inp, ps, place, start) && k < |ps| && place(k).Outside? && ps[k].Exactly?
    ensures var q, s := start(k + 1), ps[k].text;
            && start(k) < q <= |inp| && s != ""
            && (q < |inp| ==>
                  && k + 1 < |ps| && StartOf(ps[k + 1]) == OpenerAt(DEFAULT, inp, q) != None
                  && (inp[q] == '#' ==> s[|s| - 1] == '\n'))
            && (q == |inp| ==> k + 1 == |ps|)
  {
    LaidAt(inp, ps, place, start, k);
    if k + 1 < |ps| {
      LaidAt(inp, ps, place, start, k + 1);
      OpeningStands(inp, ps, place, start, k + 1);
    }
  }

  /** The opening that follows a text. */
  lemma {:induction false} OpeningStands(inp: string, ps: seq<Pattern>, place: nat -> Place, start: nat -> nat, k: nat)
    requires Lays(inp, ps, place, start) && k < |ps| && place(k).Outside? && StartOf(ps[k]).Some?
    ensures var p, mode := start(k), StartOf(ps[k]).value;
            && p < |inp| && StartsWith(inp, p, Opening(DEFAULT, mode)) && OpenerAt(DEFAULT, inp, p) == Some(mode)
            && (mode == LineStart ==> p == 0 || inp[p - 1] == '\n')
            && (inp[p] == '#' ==> place(k).line)
            && start(k + 1) == p + |Opening(DEFAULT, mode)| && place(k + 1) == Inside(BodyOf(mode))
  {
    assert Spot(k);
    var mode := StartOf(ps[k]).value;
    assert Piece(ps[k]) == Opening(DEFAULT, mode);
    CharOf(inp, start(k), Piece(ps[k]), 0);
    OpensHere(inp, start(k), mode);
  }

  lemma {:induction false} StepOpening(inp: string, ps: seq<Pattern>, place: nat -> Place, start: nat -> nat, k: nat,
                                       st: LexState)
    requires Lays(inp, ps, place, start) && k < |ps| && place(k).Outside? && StartOf(ps[k]).Some?
    requires st.pos == start(k) && (st.mode == InText || Some(st.mode) == StartOf(ps[k]))
    ensures Reads(inp, ps, place, start, k, st)
  {
    OpeningStands(inp, ps, place, start, k);
    ReadsOpening(inp, start(k), StartOf(ps[k]).value, st.mode);
  }

  lemma {:induction false} Step(inp: string, ps: seq<Pattern>, place: nat -> Place, start: nat -> nat, k: nat,
                                st: LexState)
    requires Lays(inp, ps, place, start) && k < |ps| && st.pos == start(k) && InMode(place(k), Some(ps[k]), st.mode)
    ensures Reads(inp, ps, place, start, k, st)
  {
    assert Spot(k);
    if place(k).Inside? {
      StepInside(inp, ps, place, start, k, st);
    } else if ps[k].Exactly? {
      StepText(inp, ps, place, start, k, st);
    } else {
      StepOpening(inp, ps, place, start, k, st);
    }
  }

  /** The tokens that match the patterns from the k-th on, and the end. */
  predicate Matching(ts: seq<Token>, ps: seq<Pattern>, k: nat)
    requires k <= |ps|
  {
    |ts| == |ps| - k + 1 && forall j | 0 <= j < |ps| - k :: Matches(ts[j], ps[k + j])
  }

  lemma {:induction false} LexReads(inp: string, ps: seq<Pattern>, place: nat -> Place, start: nat -> nat, k: nat,
                                    st: LexState)
    requires Lays(inp, ps, place, start) && k <= |ps| && st.pos == start(k) && InMode(place(k), NextOf(ps, k), st.mode)
    ensures Usable(DEFAULT) && ValidState(DEFAULT, inp, st) && Matching(Lex(DEFAULT, inp, st), ps, k)
    decreases |ps| - k
  {
    assert Spot(k);
    if k < |ps| {
      Step(inp, ps, place, start, k, st);
      var r := ScanFrom(DEFAULT, inp, st);
      LexReads(inp, ps, place, start, k + 1, r.st);
      MatchingMore(r.tok, Lex(DEFAULT, inp, r.st), ps, k);
    }
  }

  lemma {:induction false} MatchingMore(t: Token, rest: seq<Token>, ps: seq<Pattern>, k: nat)
    requires k < |ps| && Matches(t, ps[k]) && Matching(rest, ps, k + 1)
    ensures Matching([t] + rest, ps, k)
  {
    forall j | 0 <= j < |ps| - k ensures Matches(([t] + rest)[j], ps[k + j]) {
      if j > 0 {
        assert Matches(rest[j - 1], ps[k + 1 + (j - 1)]);
      }
    }
  }

  lemma {:induction false} InsideIsBody(ps: seq<Pattern>, k: nat)
    requires k <= |ps| && PlaceAt(ps, k).Some? && PlaceAt(ps, k).value.Inside?
    ensures var mode := PlaceAt(ps, k).value.mode; IsTag(mode) || mode == CommentBody
    decreases k
  {
    if PlaceAt(ps, k - 1).value.Inside? {
      InsideIsBody(ps, k - 1);
    }
  }

  function PlacesOf(ps: seq<Pattern>): nat -> Place {
    (k: nat) => if k <= |ps| && PlaceAt(ps, k).Some? then PlaceAt(ps, k).value else FIRST
  }

  function StartsOf(ps: seq<Pattern>): nat -> nat {
    (k: nat) => if k <= |ps| then |SpellFirst(ps, k)| else 0
  }

  lemma {:induction false} SpelledPlace(ps: seq<Pattern>, k: nat)
    requires Spells(ps) && k <= |ps|
    ensures PlaceIsRight(Spelled(ps), PlacesOf(ps)(k), StartsOf(ps)(k))
  {
    PlaceBefore(ps, k, |ps|);
    if PlaceAt(ps, k).value.Inside? {
      InsideIsBody(ps, k);
    } else {
      LineIsExact(ps, k);
      TextStands(ps, k, |ps|);
    }
  }

  lemma {:induction false} PlaceNext(ps: seq<Pattern>, k: nat)
    requires k < |ps| && PlaceAt(ps, k + 1).Some?
    ensures PlaceAt(ps, k).Some? && PlaceAfter(PlaceAt(ps, k).value, ps[k]) == PlaceAt(ps, k + 1)
  {
  }

  lemma {:induction false} SpelledPiece(ps: seq<Pattern>, k: nat)
    requires Spells(ps) && k < |ps|
    ensures PlaceAfter(PlacesOf(ps)(k), ps[k]) == Some(PlacesOf(ps)(k + 1))
    ensures StartsOf(ps)(k + 1) == StartsOf(ps)(k) + |Piece(ps[k])|
    ensures StartsWith(Spelled(ps), StartsOf(ps)(k), Piece(ps[k]))
  {
    PlaceBefore(ps, k + 1, |ps|);
    PlaceNext(ps, k);
    PieceStands(ps, k);
  }

  lemma {:induction false} SpelledLays(ps: seq<Pattern>)
    requires Spells(ps)
    ensures Lays(Spelled(ps), ps, PlacesOf(ps), StartsOf(ps))
  {
    forall k: nat | k <= |ps| ensures PlaceIsRight(Spelled(ps), PlacesOf(ps)(k), StartsOf(ps)(k)) {
      SpelledPlace(ps, k);
    }
    forall k: nat | k < |ps|
      ensures PlaceAfter(PlacesOf(ps)(k), ps[k]) == Some(PlacesOf(ps)(k + 1))
      ensures StartsOf(ps)(k + 1) == StartsOf(ps)(k) + |Piece(ps[k])|
      ensures StartsWith(Spelled(ps), StartsOf(ps)(k), Piece(ps[k]))
    {
      SpelledPiece(ps, k);
    }
  }

  /** The scanner reads a spelled sequence back: one token for each, and the end. */
  lemma {:induction false} ReadsBack(ps: seq<Pattern>)
    requires Spells(ps)
    ensures Usable(DEFAULT) && Matching(Tokenize(DEFAULT, Spelled(ps)), ps, 0)
  {
    SpelledLays(ps);
    LexReads(Spelled(ps), ps, PlacesOf(ps), StartsOf(ps), 0, LexState(0, InText));
  }
}

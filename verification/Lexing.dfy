/** What one call of Lexer::scan returns and leaves behind, as functions of the source text, the
    position and the mode. */
module Lexing {
  import opened Options
  import opened Tokens

  /** LexerConfig. */
  datatype Config = Config(
    statementOpen: string, statementClose: string,
    lineStatement: string,
    expressionOpen: string, expressionClose: string,
    commentOpen: string, commentClose: string,
    openChars: string,
    trimBlocks: bool, lstripBlocks: bool)

  /** The configuration the header transformation uses. */
  const DEFAULT: Config := Config("{%", "%}", "##", "{{", "}}", "{#", "#}", "#{", false, false)

  datatype Mode =
    | InText
    | ExpressionStart | ExpressionBody
    | LineStart | LineBody
    | StatementStart | StatementBody
    | CommentStart | CommentBody

  datatype LexState = LexState(pos: nat, mode: Mode)

  datatype Scanned = Scanned(tok: Token, st: LexState)

  predicate IsBlank(c: char) {
    c == ' ' || c == '\t' || c == '\r'
  }

  predicate IsSpace(c: char) {
    IsBlank(c) || c == '\n'
  }

  predicate IsAlpha(c: char) {
    'a' <= c <= 'z' || 'A' <= c <= 'Z'
  }

  predicate IsDigit(c: char) {
    '0' <= c <= '9'
  }

  predicate StartsWith(inp: string, p: nat, s: string) {
    p + |s| <= |inp| && inp[p..p + |s|] == s
  }

  // ----- text mode -----

  /** The opening sequence at p, tried in the order the scanner tries them. */
  function OpenerAt(cfg: Config, inp: string, p: nat): (r: Option<Mode>)
    requires p < |inp|
    ensures r.Some? ==> IsStart(r.value) && StartsWith(inp, p, Opening(cfg, r.value))
  {
    if StartsWith(inp, p, cfg.expressionOpen) then Some(ExpressionStart)
    else if StartsWith(inp, p, cfg.statementOpen) then Some(StatementStart)
    else if StartsWith(inp, p, cfg.commentOpen) then Some(CommentStart)
    else if (p == 0 || inp[p - 1] == '\n') && StartsWith(inp, p, cfg.lineStatement) then Some(LineStart)
    else None
  }

  predicate IsStart(mode: Mode) {
    mode == ExpressionStart || mode == StatementStart || mode == CommentStart || mode == LineStart
  }

  function Opening(cfg: Config, mode: Mode): string
    requires IsStart(mode)
  {
    match mode
    case ExpressionStart => cfg.expressionOpen
    case StatementStart => cfg.statementOpen
    case CommentStart => cfg.commentOpen
    case LineStart => cfg.lineStatement
  }

  /** find_first_of: the first position from p on that holds an opening character. */
  function FindOpenChar(cfg: Config, inp: string, p: nat): (q: nat)
    requires p <= |inp|
    ensures p <= q <= |inp|
    ensures q < |inp| ==> inp[q] in cfg.openChars
    ensures forall i | p <= i < q :: inp[i] !in cfg.openChars
    decreases |inp| - p, cfg
  {
    if p == |inp| || inp[p] in cfg.openChars then p else FindOpenChar(cfg, inp, p + 1)
  }

  /** Where the scan for an opening sequence stops: jump to an opening character, test it, and
      go on behind it if it opens nothing. */
  function TextStop(cfg: Config, inp: string, p: nat): (q: nat)
    requires p <= |inp|
    ensures p <= q <= |inp|
    ensures q < |inp| ==> OpenerAt(cfg, inp, q).Some?
    decreases |inp| - p, cfg
  {
    var q := FindOpenChar(cfg, inp, p);
    if q == |inp| || OpenerAt(cfg, inp, q).Some? then q else TextStop(cfg, inp, q + 1)
  }

  /** clear_final_line_if_whitespace on inp[start..q], having looked at all from r on. */
  function ClearFinalLine(inp: string, start: nat, q: nat, r: nat): (e: nat)
    requires start <= r <= q <= |inp|
    requires forall i | r <= i < q :: inp[i] == ' ' || inp[i] == '\t'
    ensures start <= e <= q
    ensures forall i | e <= i < q :: inp[i] == ' ' || inp[i] == '\t'
    decreases r - start, q
  {
    if r == start then r
    else if inp[r - 1] == ' ' || inp[r - 1] == '\t' then ClearFinalLine(inp, start, q, r - 1)
    else if inp[r - 1] == '\n' || inp[r - 1] == '\r' then r
    else q
  }

  function TextEnd(cfg: Config, inp: string, start: nat, q: nat, mode: Mode): (e: nat)
    requires start <= q <= |inp|
    ensures start <= e <= q
    ensures forall i | e <= i < q :: IsBlank(inp[i])
  {
    if cfg.lstripBlocks && (mode == StatementStart || mode == CommentStart) then ClearFinalLine(inp, start, q, q)
    else q
  }

  function Slice(inp: string, kind: Kind, start: nat, end: nat): Token
    requires start <= end <= |inp|
  {
    Token(kind, inp[start..end], start)
  }

  function EofToken(inp: string): Token {
    Token(Eof, "", |inp|)
  }

  function ScanText(cfg: Config, inp: string, start: nat): Scanned
    requires start < |inp|
  {
    var q := TextStop(cfg, inp, start);
    if q == |inp| then Scanned(Slice(inp, TextKind, start, |inp|), LexState(|inp|, InText))
    else
      var mode := OpenerAt(cfg, inp, q).value;
      var e := TextEnd(cfg, inp, start, q, mode);
      if e > start then Scanned(Slice(inp, TextKind, start, e), LexState(q, mode))
      else ScanStart(cfg, inp, start, q, mode)
  }

  /** An opening sequence at pos; the token starts at `start`, before any stripped blanks. */
  function ScanStart(cfg: Config, inp: string, start: nat, pos: nat, mode: Mode): Scanned
    requires IsStart(mode) && start <= pos && StartsWith(inp, pos, Opening(cfg, mode))
  {
    var end := pos + |Opening(cfg, mode)|;
    match mode
    case ExpressionStart => Scanned(Slice(inp, ExpressionOpen, start, end), LexState(end, ExpressionBody))
    case StatementStart => Scanned(Slice(inp, StatementOpen, start, end), LexState(end, StatementBody))
    case CommentStart => Scanned(Slice(inp, CommentOpen, start, end), LexState(end, CommentBody))
    case LineStart => Scanned(Slice(inp, LineStatementOpen, start, end), LexState(end, LineBody))
  }

  // ----- inside expressions and statements -----

  predicate IsIdChar(c: char) {
    IsAlpha(c) || IsDigit(c) || c == '.' || c == '/' || c == '_' || c == '-'
  }

  predicate IsNumberChar(c: char) {
    IsDigit(c) || c == '.' || c == 'e' || c == 'E' || c == '+' || c == '-'
  }

  function IdEnd(inp: string, p: nat): (q: nat)
    requires p <= |inp|
    ensures p <= q <= |inp|
    decreases |inp| - p, inp
  {
    if p == |inp| || !IsIdChar(inp[p]) then p else IdEnd(inp, p + 1)
  }

  function NumberEnd(inp: string, p: nat): (q: nat)
    requires p <= |inp|
    ensures p <= q <= |inp|
    decreases |inp| - p, inp
  {
    if p == |inp| || !IsNumberChar(inp[p]) then p else NumberEnd(inp, p + 1)
  }

  /** scan_string: `escape` says whether the character before p was a backslash. */
  function StringEnd(inp: string, p: nat, escape: bool): (q: nat)
    requires p <= |inp|
    ensures p <= q <= |inp|
    decreases |inp| - p, inp
  {
    if p == |inp| then p
    else if inp[p] == '\\' then StringEnd(inp, p + 1, true)
    else if !escape && inp[p] == '"' then p + 1
    else StringEnd(inp, p + 1, false)
  }

  function TwoChar(inp: string, s: nat, two: Kind, one: Kind): (Kind, nat)
    requires s < |inp|
  {
    if s + 1 < |inp| && inp[s + 1] == '=' then (two, s + 2) else (one, s + 1)
  }

  /** The token that starts at s, once blanks and the closing sequence are ruled out. */
  function InnerToken(inp: string, s: nat): (r: (Kind, nat))
    requires s < |inp|
    ensures s < r.1 <= |inp|
    ensures r.0 != Eof
  {
    var c := inp[s];
    if IsAlpha(c) || c == '_' then (Id, IdEnd(inp, s + 1))
    else if IsDigit(c) || c == '-' then (Number, NumberEnd(inp, s + 1))
    else if c == '"' then (String, StringEnd(inp, s + 1, false))
    else if c == '>' then TwoChar(inp, s, GreaterEqualKind, GreaterThan)
    else if c == '<' then TwoChar(inp, s, LessEqualKind, LessThan)
    else if c == '=' then TwoChar(inp, s, EqualKind, Unknown)
    else if c == '!' then TwoChar(inp, s, NotEqual, Unknown)
    else (
      if c == ',' then Comma
      else if c == ':' then Colon
      else if c == '(' then LeftParen
      else if c == ')' then RightParen
      else if c == '[' then LeftBracket
      else if c == ']' then RightBracket
      else if c == '{' then LeftBrace
      else if c == '}' then RightBrace
      else Unknown, s + 1)
  }

  function AfterNewline(inp: string, p: nat): (q: nat)
    requires p <= |inp|
    ensures p <= q <= |inp|
    ensures forall i | p <= i < q :: IsSpace(inp[i])
  {
    if p < |inp| && inp[p] == '\n' then p + 1
    else if p < |inp| && inp[p] == '\r' then
      if p + 1 < |inp| && inp[p + 1] == '\n' then p + 2 else p + 1
    else p
  }

  /** Blanks are skipped first, then the closing sequence is tried, then line feeds are skipped:
      a line feed may be the closing sequence. */
  function BodyStart(inp: string, s: nat, close: string): (q: nat)
    requires s <= |inp|
    ensures s <= q <= |inp|
    ensures forall i | s <= i < q :: IsSpace(inp[i])
    ensures q < |inp| ==> !IsBlank(inp[q]) && (StartsWith(inp, q, close) || !IsSpace(inp[q]))
    decreases |inp| - s, inp
  {
    if s == |inp| then s
    else if IsBlank(inp[s]) then BodyStart(inp, s + 1, close)
    else if StartsWith(inp, s, close) then s
    else if inp[s] == '\n' then BodyStart(inp, s + 1, close)
    else s
  }

  function ScanBody(inp: string, st: LexState, close: string, closeKind: Kind, trim: bool): Scanned
    requires st.pos <= |inp|
  {
    var s := BodyStart(inp, st.pos, close);
    if s == |inp| then Scanned(EofToken(inp), st)
    else if StartsWith(inp, s, close) then
      var end := s + |close|;
      Scanned(Slice(inp, closeKind, s, end), LexState(if trim then AfterNewline(inp, end) else end, InText))
    else
      var (kind, end) := InnerToken(inp, s);
      Scanned(Slice(inp, kind, s, end), LexState(end, st.mode))
  }

  /** find: the first occurrence of s from p on, or the length. */
  function FindText(inp: string, p: nat, s: string): (q: nat)
    requires p <= |inp|
    ensures p <= q <= |inp|
    decreases |inp| - p, s
  {
    if p == |inp| || StartsWith(inp, p, s) then p else FindText(inp, p + 1, s)
  }

  function ScanComment(cfg: Config, inp: string, st: LexState): Scanned
    requires st.pos <= |inp|
  {
    var q := FindText(inp, st.pos, cfg.commentClose);
    if !StartsWith(inp, q, cfg.commentClose) then Scanned(EofToken(inp), LexState(|inp|, CommentBody))
    else
      var end := q + |cfg.commentClose|;
      Scanned(Slice(inp, CommentClose, st.pos, end),
              LexState(if cfg.trimBlocks then AfterNewline(inp, end) else end, InText))
  }

  /** A state the scanner can be in: an opening mode stands before its opening sequence. */
  predicate ValidState(cfg: Config, inp: string, st: LexState) {
    st.pos <= |inp| && (IsStart(st.mode) ==> StartsWith(inp, st.pos, Opening(cfg, st.mode)))
  }

  function ScanFrom(cfg: Config, inp: string, st: LexState): (r: Scanned)
    requires ValidState(cfg, inp, st)
  {
    if st.pos == |inp| then Scanned(EofToken(inp), st)
    else match st.mode
      case InText => ScanText(cfg, inp, st.pos)
      case ExpressionStart => ScanStart(cfg, inp, st.pos, st.pos, st.mode)
      case LineStart => ScanStart(cfg, inp, st.pos, st.pos, st.mode)
      case StatementStart => ScanStart(cfg, inp, st.pos, st.pos, st.mode)
      case CommentStart => ScanStart(cfg, inp, st.pos, st.pos, st.mode)
      case ExpressionBody => ScanBody(inp, st, cfg.expressionClose, ExpressionClose, false)
      case LineBody => ScanBody(inp, st, "\n", LineStatementClose, false)
      case StatementBody => ScanBody(inp, st, cfg.statementClose, StatementClose, cfg.trimBlocks)
      case CommentBody => ScanComment(cfg, inp, st)
  }
}

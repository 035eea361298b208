/** What scanning a source to its end yields: progress, coverage of the source, and the fast
    search for openings against a position-by-position one. */
module Scanning {
  import opened Options
  import opened Tokens
  import opened Lexing

  /** No delimiter is empty. (With an empty one the scanner may stand still.) */
  predicate Usable(cfg: Config) {
    && cfg.statementOpen != "" && cfg.statementClose != "" && cfg.lineStatement != ""
    && cfg.expressionOpen != "" && cfg.expressionClose != ""
    && cfg.commentOpen != "" && cfg.commentClose != ""
  }

  // ----- one scan -----

  /** A token other than the end is a piece of the source that starts at or after the position,
      with only white space before it and between its end and the next position. */
  ghost predicate Placed(inp: string, p: nat, r: Scanned) {
    && p <= r.tok.start && End(r.tok) <= r.st.pos <= |inp|
    && r.tok.text == inp[r.tok.start..End(r.tok)]
    && (forall i | p <= i < r.tok.start :: IsSpace(inp[i]))
    && (forall i | End(r.tok) <= i < r.st.pos :: IsSpace(inp[i]))
  }

  lemma {:induction false} ScanTextPlaced(cfg: Config, inp: string, start: nat)
    requires start < |inp|
    ensures Placed(inp, start, ScanText(cfg, inp, start)) && ScanText(cfg, inp, start).tok.kind != Eof
    ensures ValidState(cfg, inp, ScanText(cfg, inp, start).st)
    ensures Usable(cfg) ==> start < ScanText(cfg, inp, start).st.pos
  {
  }

  lemma {:induction false} ScanBodyPlaced(inp: string, st: LexState, close: string, closeKind: Kind, trim: bool)
    requires st.pos <= |inp| && closeKind != Eof && !IsStart(st.mode)
    ensures var r := ScanBody(inp, st, close, closeKind, trim);
            && (r.tok.kind != Eof ==> Placed(inp, st.pos, r) && (close != "" ==> st.pos < r.st.pos))
            && (r.tok.kind == Eof ==> r == Scanned(EofToken(inp), st)
                                      && forall i | st.pos <= i < |inp| :: IsSpace(inp[i]))
            && !IsStart(r.st.mode)
  {
  }

  lemma {:induction false} ScanCommentPlaced(cfg: Config, inp: string, st: LexState)
    requires st.pos < |inp|
    ensures var r := ScanComment(cfg, inp, st);
            && (r.tok.kind != Eof ==> Placed(inp, st.pos, r) && (cfg.commentClose != "" ==> st.pos < r.st.pos))
            && (r.tok.kind == Eof ==> r == Scanned(EofToken(inp), LexState(|inp|, CommentBody)))
            && !IsStart(r.st.mode)
  {
  }

  /** Every scan but the last moves forward, and its token stands where Placed says. */
  lemma {:induction false} ScanProgress(cfg: Config, inp: string, st: LexState)
    requires ValidState(cfg, inp, st)
    ensures ValidState(cfg, inp, ScanFrom(cfg, inp, st).st)
    ensures ScanFrom(cfg, inp, st).tok.kind != Eof ==>
              Placed(inp, st.pos, ScanFrom(cfg, inp, st)) && (Usable(cfg) ==> st.pos < ScanFrom(cfg, inp, st).st.pos)
  {
    if st.pos < |inp| {
      match st.mode
      case InText => ScanTextPlaced(cfg, inp, st.pos);
      case ExpressionStart =>
      case LineStart =>
      case StatementStart =>
      case CommentStart =>
      case ExpressionBody => ScanBodyPlaced(inp, st, cfg.expressionClose, ExpressionClose, false);
      case LineBody => ScanBodyPlaced(inp, st, "\n", LineStatementClose, false);
      case StatementBody => ScanBodyPlaced(inp, st, cfg.statementClose, StatementClose, cfg.trimBlocks);
      case CommentBody => ScanCommentPlaced(cfg, inp, st);
    }
  }

  /** Once the end is reached, every further scan reports it again. */
  lemma {:induction false} EofAbsorbs(cfg: Config, inp: string, st: LexState)
    requires ValidState(cfg, inp, st) && ScanFrom(cfg, inp, st).tok.kind == Eof
    ensures ScanFrom(cfg, inp, st).tok == EofToken(inp)
    ensures ValidState(cfg, inp, ScanFrom(cfg, inp, st).st)
    ensures ScanFrom(cfg, inp, ScanFrom(cfg, inp, st).st).tok == EofToken(inp)
  {
    ScanProgress(cfg, inp, st);
    if st.pos < |inp| && st.mode == InText {
      ScanTextPlaced(cfg, inp, st.pos);
    }
  }

  // ----- a whole source -----

  /** All tokens from a state on, the end included. */
  function Lex(cfg: Config, inp: string, st: LexState): (ts: seq<Token>)
    requires Usable(cfg) && ValidState(cfg, inp, st)
    ensures ts != [] && ts[|ts| - 1] == EofToken(inp)
    ensures forall i | 0 <= i < |ts| - 1 :: ts[i].kind != Eof
    decreases |inp| - st.pos, cfg
  {
    ScanProgress(cfg, inp, st);
    var r := ScanFrom(cfg, inp, st);
    if r.tok.kind == Eof then EofAbsorbs(cfg, inp, st); [r.tok] else [r.tok] + Lex(cfg, inp, r.st)
  }

  /** One scan takes the first of the tokens to come; the end stays. */
  lemma {:induction false} ScanTakesFirst(cfg: Config, inp: string, st: LexState)
    requires Usable(cfg) && ValidState(cfg, inp, st)
    ensures var r := ScanFrom(cfg, inp, st);
            && ValidState(cfg, inp, r.st)
            && r.tok == Lex(cfg, inp, st)[0]
            && Lex(cfg, inp, r.st) ==
               (if |Lex(cfg, inp, st)| > 1 then Lex(cfg, inp, st)[1..] else [EofToken(inp)])
  {
    ScanProgress(cfg, inp, st);
    if ScanFrom(cfg, inp, st).tok.kind == Eof {
      EofAbsorbs(cfg, inp, st);
    }
  }

  function Tokenize(cfg: Config, inp: string): seq<Token>
    requires Usable(cfg)
  {
    Lex(cfg, inp, LexState(0, InText))
  }

  predicate Covers(t: Token, i: nat) {
    t.start <= i < End(t)
  }

  /** Position i is in a token, or is white space, or is in a comment that is never closed. */
  ghost predicate Accounted(inp: string, ts: seq<Token>, i: nat)
    requires i < |inp|
  {
    || IsSpace(inp[i])
    || (exists k :: 0 <= k < |ts| && Covers(ts[k], i))
    || (|ts| >= 2 && ts[|ts| - 2].kind == CommentOpen && End(ts[|ts| - 2]) <= i)
  }

  /** The modes in which text runs to the end without its being a comment. */
  lemma {:induction false} EndOfSource(cfg: Config, inp: string, st: LexState, i: nat)
    requires ValidState(cfg, inp, st) && ScanFrom(cfg, inp, st).tok.kind == Eof
    requires st.pos <= i < |inp|
    ensures st.mode == CommentBody || IsSpace(inp[i])
  {
    match st.mode
    case InText => ScanTextPlaced(cfg, inp, st.pos);
    case ExpressionStart =>
    case LineStart =>
    case StatementStart =>
    case CommentStart =>
    case ExpressionBody => ScanBodyPlaced(inp, st, cfg.expressionClose, ExpressionClose, false);
    case LineBody => ScanBodyPlaced(inp, st, "\n", LineStatementClose, false);
    case StatementBody => ScanBodyPlaced(inp, st, cfg.statementClose, StatementClose, cfg.trimBlocks);
    case CommentBody =>
  }

  /** The comment body is entered by a comment opening only. */
  lemma {:induction false} CommentFollowsOpen(cfg: Config, inp: string, st: LexState)
    requires ValidState(cfg, inp, st) && st.mode != CommentBody
    ensures var r := ScanFrom(cfg, inp, st);
            r.st.mode == CommentBody ==> r.tok.kind == CommentOpen && End(r.tok) == r.st.pos
  {
  }

  lemma {:induction false} LexAccounts(cfg: Config, inp: string, st: LexState, i: nat)
    requires Usable(cfg) && ValidState(cfg, inp, st) && st.pos <= i < |inp|
    requires st.mode != CommentBody
    ensures Accounted(inp, Lex(cfg, inp, st), i)
    decreases |inp| - st.pos
  {
    ScanProgress(cfg, inp, st);
    CommentFollowsOpen(cfg, inp, st);
    var r, ts := ScanFrom(cfg, inp, st), Lex(cfg, inp, st);
    if r.tok.kind == Eof {
      EndOfSource(cfg, inp, st, i);
    } else if i < r.st.pos {
      assert IsSpace(inp[i]) || Covers(ts[0], i);
    } else if r.st.mode == CommentBody {
      CommentAccounts(cfg, inp, r.tok, r.st, i);
    } else {
      LexAccounts(cfg, inp, r.st, i);
      AccountedLater(inp, r.tok, Lex(cfg, inp, r.st), i);
    }
  }

  lemma {:induction false} AccountedLater(inp: string, t: Token, ts: seq<Token>, i: nat)
    requires i < |inp| && Accounted(inp, ts, i)
    ensures Accounted(inp, [t] + ts, i)
  {
    if k :| 0 <= k < |ts| && Covers(ts[k], i) {
      assert ([t] + ts)[k + 1] == ts[k];
    }
  }

  lemma {:induction false} CommentAccounts(cfg: Config, inp: string, open: Token, st: LexState, i: nat)
    requires Usable(cfg) && ValidState(cfg, inp, st) && st.pos <= i < |inp|
    requires st.mode == CommentBody && open.kind == CommentOpen && End(open) == st.pos
    ensures Accounted(inp, [open] + Lex(cfg, inp, st), i)
    decreases |inp| - st.pos, 1
  {
    ScanProgress(cfg, inp, st);
    ScanCommentPlaced(cfg, inp, st);
    var r, ts := ScanFrom(cfg, inp, st), [open] + Lex(cfg, inp, st);
    if r.tok.kind == Eof {
      assert ts[|ts| - 2] == open;
    } else if i < r.st.pos {
      assert IsSpace(inp[i]) || Covers(ts[1], i);
    } else {
      LexAccounts(cfg, inp, r.st, i);
      AccountedLater(inp, r.tok, Lex(cfg, inp, r.st), i);
      AccountedLater(inp, open, [r.tok] + Lex(cfg, inp, r.st), i);
    }
  }

  /** The tokens of a source lie in it in order and without overlap. */
  lemma {:induction false} LexOrdered(cfg: Config, inp: string, st: LexState, k: nat)
    requires Usable(cfg) && ValidState(cfg, inp, st)
    requires k < |Lex(cfg, inp, st)|
    ensures var ts := Lex(cfg, inp, st);
            && st.pos <= ts[k].start <= End(ts[k]) <= |inp|
            && ts[k].text == inp[ts[k].start..End(ts[k])]
            && (k + 1 < |ts| ==> End(ts[k]) <= ts[k + 1].start)
    decreases |inp| - st.pos
  {
    ScanProgress(cfg, inp, st);
    var r := ScanFrom(cfg, inp, st);
    if r.tok.kind == Eof {
      EofAbsorbs(cfg, inp, st);
    } else {
      if k > 0 {
        LexOrdered(cfg, inp, r.st, k - 1);
      } else {
        LexOrdered(cfg, inp, r.st, 0);
      }
    }
  }

  /** No character of a source is lost and none is read twice. */
  lemma {:induction false} TokenizeCovers(cfg: Config, inp: string)
    requires Usable(cfg)
    ensures forall i: nat | i < |inp| :: Accounted(inp, Tokenize(cfg, inp), i)
    ensures forall k, i | 0 <= k < |Tokenize(cfg, inp)| - 1 && k + 1 == i ::
              End(Tokenize(cfg, inp)[k]) <= Tokenize(cfg, inp)[i].start
  {
    var ts := Tokenize(cfg, inp);
    forall i: nat | i < |inp| ensures Accounted(inp, ts, i) {
      LexAccounts(cfg, inp, LexState(0, InText), i);
    }
    forall k, i | 0 <= k < |ts| - 1 && k + 1 == i ensures End(ts[k]) <= ts[i].start {
      LexOrdered(cfg, inp, LexState(0, InText), k);
    }
  }
}

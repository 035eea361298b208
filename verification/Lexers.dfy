/** The scanner as the parser drives it: one object that moves through the source. */
module Lexers {
  import opened Options
  import opened Tokens
  import opened Lexing
  import opened Scanning

  class Lexer {
    const cfg: Config
    var inp: string
    var tokStart: nat
    var pos: nat
    var mode: Mode

    ghost function State(): LexState
      reads this
    {
      LexState(pos, mode)
    }

    ghost predicate Valid()
      reads this
    {
      ValidState(cfg, inp, State())
    }

    constructor (cfg: Config)
      ensures this.cfg == cfg && Valid()
    {
      this.cfg := cfg;
      inp, tokStart, pos, mode := "", 0, 0, InText;
    }

    method Start(source: string)
      modifies this
      ensures inp == source && State() == LexState(0, InText) && Valid()
    {
      inp := source;
      tokStart, pos := 0, 0;
      mode := InText;
    }

    function MakeToken(kind: Kind): Token
      reads this
      requires tokStart <= pos <= |inp|
    {
      Slice(inp, kind, tokStart, pos)
    }

    method Scan() returns (tok: Token)
      requires Valid()
      modifies this
      ensures inp == old(inp) && Valid()
      ensures Scanned(tok, State()) == ScanFrom(cfg, inp, old(State()))
    {
      ScanProgress(cfg, inp, State());
      ghost var goal := ScanFrom(cfg, inp, State());
      tokStart := pos;
      if tokStart >= |inp| {
        return EofToken(inp);
      }
      if mode == InText {
        var done: bool;
        done, tok := ScanTextMode(goal);
        if done {
          return;
        }
      }
      if IsStart(mode) {
        tok := ScanOpening();
        return;
      }
      match mode
      case ExpressionBody => tok := ScanBodyMode(cfg.expressionClose, ExpressionClose, false);
      case LineBody => tok := ScanBodyMode("\n", LineStatementClose, false);
      case StatementBody => tok := ScanBodyMode(cfg.statementClose, StatementClose, cfg.trimBlocks);
      case CommentBody => tok := ScanCommentMode();
    }

    /** The opening sequence at pos. */
    method ScanOpening() returns (tok: Token)
      requires Valid() && IsStart(mode) && tokStart <= pos
      modifies this
      ensures inp == old(inp)
      ensures Scanned(tok, State()) == ScanStart(cfg, inp, old(tokStart), old(pos), old(mode))
    {
      match mode
      case ExpressionStart =>
        mode := ExpressionBody;
        pos := pos + |cfg.expressionOpen|;
        tok := MakeToken(ExpressionOpen);
      case LineStart =>
        mode := LineBody;
        pos := pos + |cfg.lineStatement|;
        tok := MakeToken(LineStatementOpen);
      case StatementStart =>
        mode := StatementBody;
        pos := pos + |cfg.statementOpen|;
        tok := MakeToken(StatementOpen);
      case CommentStart =>
        mode := CommentBody;
        pos := pos + |cfg.commentOpen|;
        tok := MakeToken(CommentOpen);
    }

    /** Text up to the next opening sequence. Not done means that there was none before it: the
        sequence itself is the next token. */
    method ScanTextMode(ghost goal: Scanned) returns (done: bool, tok: Token)
      requires Valid() && mode == InText && tokStart == pos < |inp|
      requires goal == ScanText(cfg, inp, pos)
      modifies this
      ensures inp == old(inp) && tokStart == old(tokStart)
      ensures done ==> Scanned(tok, State()) == goal
      ensures !done ==> IsStart(mode) && Valid() && tokStart <= pos && goal == ScanStart(cfg, inp, tokStart, pos, mode)
    {
      tok := EofToken(inp);
      var found, mustLstrip := FindOpening();
      if !found {
        return true, MakeToken(TextKind);
      }
      var end := pos;
      if mustLstrip {
        end := ClearFinalLineIfWhitespace();
      }
      if end == tokStart {
        return false, tok;
      }
      return true, Slice(inp, TextKind, tokStart, end);
    }

    method FindOpening() returns (found: bool, mustLstrip: bool)
      requires mode == InText && pos <= |inp|
      modifies `pos, `mode
      ensures pos == TextStop(cfg, inp, old(pos))
      ensures found <==> pos < |inp|
      ensures !found ==> mode == InText
      ensures found ==>
                var m := OpenerAt(cfg, inp, pos).value;
                mode == m && (mustLstrip <==> cfg.lstripBlocks && (m == StatementStart || m == CommentStart))
    {
      while true
        invariant old(pos) <= pos <= |inp| && mode == InText
        invariant TextStop(cfg, inp, pos) == TextStop(cfg, inp, old(pos))
        decreases |inp| - pos
      {
        var open := FindOpenChar(cfg, inp, pos);
        if open == |inp| {
          pos := |inp|;
          return false, false;
        }
        pos := open;
        mustLstrip := TryOpen();
        if mode != InText {
          return true, mustLstrip;
        }
        pos := pos + 1;
      }
    }

    /** Tries the opening sequences at pos; the mode says which one, if any, is there. */
    method TryOpen() returns (mustLstrip: bool)
      requires mode == InText && pos < |inp|
      modifies `mode
      ensures match OpenerAt(cfg, inp, pos)
              case None => mode == InText
              case Some(m) =>
                mode == m && (mustLstrip <==> cfg.lstripBlocks && (m == StatementStart || m == CommentStart))
    {
      mustLstrip := false;
      if StartsWith(inp, pos, cfg.expressionOpen) {
        mode := ExpressionStart;
      } else if StartsWith(inp, pos, cfg.statementOpen) {
        mode := StatementStart;
        mustLstrip := cfg.lstripBlocks;
      } else if StartsWith(inp, pos, cfg.commentOpen) {
        mode := CommentStart;
        mustLstrip := cfg.lstripBlocks;
      } else if (pos == 0 || inp[pos - 1] == '\n') && StartsWith(inp, pos, cfg.lineStatement) {
        mode := LineStart;
      }
    }

    method ClearFinalLineIfWhitespace() returns (end: nat)
      requires tokStart <= pos <= |inp|
      ensures end == ClearFinalLine(inp, tokStart, pos, pos)
    {
      end := pos;
      while end != tokStart
        invariant tokStart <= end <= pos
        invariant forall i | end <= i < pos :: inp[i] == ' ' || inp[i] == '\t'
        invariant ClearFinalLine(inp, tokStart, pos, end) == ClearFinalLine(inp, tokStart, pos, pos)
        decreases end
      {
        var ch := inp[end - 1];
        if ch == ' ' || ch == '\t' {
          end := end - 1;
        } else if ch == '\n' || ch == '\r' {
          return;
        } else {
          return pos;
        }
      }
    }

    method ScanBodyMode(close: string, closeKind: Kind, trim: bool) returns (tok: Token)
      requires tokStart == pos <= |inp|
      modifies this
      ensures inp == old(inp)
      ensures Scanned(tok, State()) == ScanBody(inp, old(State()), close, closeKind, trim)
    {
      while true
        invariant inp == old(inp) && pos == old(pos) && mode == old(mode) && pos <= tokStart <= |inp|
        invariant BodyStart(inp, tokStart, close) == BodyStart(inp, pos, close)
        decreases |inp| - tokStart
      {
        if tokStart >= |inp| {
          return EofToken(inp);
        }
        var ch := inp[tokStart];
        if ch == ' ' || ch == '\t' || ch == '\r' {
          tokStart := tokStart + 1;
          continue;
        }
        if StartsWith(inp, tokStart, close) {
          tok := TakeClose(tokStart + |close|, closeKind, trim);
          return;
        }
        if ch == '\n' {
          tokStart := tokStart + 1;
          continue;
        }
        pos := tokStart + 1;
        tok := ScanInner(ch);
        return;
      }
    }

    /** The token whose first character has just been read. */
    method ScanInner(ch: char) returns (tok: Token)
      requires tokStart < |inp| && pos == tokStart + 1 && ch == inp[tokStart]
      modifies `pos
      ensures var inner := InnerToken(inp, tokStart);
              pos == inner.1 && tok == Slice(inp, inner.0, tokStart, inner.1)
    {
      if IsAlpha(ch) {
        tok := ScanId();
        return;
      }
      match ch
      case ',' => tok := MakeToken(Comma);
      case ':' => tok := MakeToken(Colon);
      case '(' => tok := MakeToken(LeftParen);
      case ')' => tok := MakeToken(RightParen);
      case '[' => tok := MakeToken(LeftBracket);
      case ']' => tok := MakeToken(RightBracket);
      case '{' => tok := MakeToken(LeftBrace);
      case '}' => tok := MakeToken(RightBrace);
      case '>' => tok := ScanPair(GreaterEqualKind, GreaterThan);
      case '<' => tok := ScanPair(LessEqualKind, LessThan);
      case '=' => tok := ScanPair(EqualKind, Unknown);
      case '!' => tok := ScanPair(NotEqual, Unknown);
      case '"' => tok := ScanString();
      case '_' => tok := ScanId();
      case _ =>
        if IsDigit(ch) || ch == '-' {
          tok := ScanNumber();
        } else {
          tok := MakeToken(Unknown);
        }
    }

    /** A character that a following '=' makes into another token. */
    method ScanPair(two: Kind, one: Kind) returns (tok: Token)
      requires tokStart < |inp| && pos == tokStart + 1
      modifies `pos
      ensures var pair := TwoChar(inp, tokStart, two, one);
              pos == pair.1 && tok == Slice(inp, pair.0, tokStart, pair.1)
    {
      if pos < |inp| && inp[pos] == '=' {
        pos := pos + 1;
        tok := MakeToken(two);
      } else {
        tok := MakeToken(one);
      }
    }

    method ScanId() returns (tok: Token)
      requires tokStart <= pos <= |inp|
      modifies `pos
      ensures pos == IdEnd(inp, old(pos)) && tok == Slice(inp, Id, tokStart, pos)
    {
      while true
        invariant tokStart <= pos <= |inp| && IdEnd(inp, pos) == IdEnd(inp, old(pos))
        decreases |inp| - pos
      {
        if pos >= |inp| || !IsIdChar(inp[pos]) {
          break;
        }
        pos := pos + 1;
      }
      tok := MakeToken(Id);
    }

    method ScanNumber() returns (tok: Token)
      requires tokStart <= pos <= |inp|
      modifies `pos
      ensures pos == NumberEnd(inp, old(pos)) && tok == Slice(inp, Number, tokStart, pos)
    {
      while true
        invariant tokStart <= pos <= |inp| && NumberEnd(inp, pos) == NumberEnd(inp, old(pos))
        decreases |inp| - pos
      {
        if pos >= |inp| || !IsNumberChar(inp[pos]) {
          break;
        }
        pos := pos + 1;
      }
      tok := MakeToken(Number);
    }

    method ScanString() returns (tok: Token)
      requires tokStart < pos <= |inp| && inp[tokStart] == '"'
      modifies `pos
      ensures pos == StringEnd(inp, old(pos), false) && tok == Slice(inp, String, tokStart, pos)
    {
      var escape := false;
      while true
        invariant tokStart < pos <= |inp| && StringEnd(inp, pos, escape) == StringEnd(inp, old(pos), false)
        decreases |inp| - pos
      {
        if pos >= |inp| {
          break;
        }
        var ch := inp[pos];
        pos := pos + 1;
        if ch == '\\' {
          escape := true;
        } else if !escape && ch == inp[tokStart] {
          break;
        } else {
          escape := false;
        }
      }
      tok := MakeToken(String);
    }

    method ScanCommentMode() returns (tok: Token)
      requires tokStart == pos <= |inp|
      modifies this
      ensures inp == old(inp)
      ensures mode == old(mode) || mode == InText
      ensures old(mode) == CommentBody ==> Scanned(tok, State()) == ScanComment(cfg, inp, old(State()))
    {
      var end := FindText(inp, pos, cfg.commentClose);
      if !StartsWith(inp, end, cfg.commentClose) {
        pos := |inp|;
        return EofToken(inp);
      }
      tok := TakeClose(end + |cfg.commentClose|, CommentClose, cfg.trimBlocks);
    }

    /** A closing sequence that ends at `end`: back to text, behind one line break if asked. */
    method TakeClose(end: nat, closeKind: Kind, trim: bool) returns (tok: Token)
      requires tokStart <= end <= |inp|
      modifies `pos, `mode
      ensures tok == Slice(inp, closeKind, tokStart, end)
      ensures State() == LexState(if trim then AfterNewline(inp, end) else end, InText)
    {
      mode := InText;
      pos := end;
      tok := MakeToken(closeKind);
      if trim {
        SkipNewline();
      }
    }

    method SkipNewline()
      requires pos <= |inp|
      modifies `pos
      ensures pos == AfterNewline(inp, old(pos))
    {
      if pos < |inp| {
        var ch := inp[pos];
        if ch == '\n' {
          pos := pos + 1;
        } else if ch == '\r' {
          pos := pos + 1;
          if pos < |inp| && inp[pos] == '\n' {
            pos := pos + 1;
          }
        }
      }
    }
  }
}

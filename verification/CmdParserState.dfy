/** The parser as it runs: one token of lookahead and a sticky first error. */
module CmdParserState {
  import opened Options
  import opened CmdLexer
  import opened CmdTree
  import opened CmdParser
  import opened CmdLexState

  class ParserState {
    const lex: LexState
    var tok: Token
    var failed: bool
    var error: string
    var errorOffset: nat

    ghost predicate Valid()
      reads this, lex
    {
      lex.Valid() && lex.Here() <= |lex.buffer| && tok.offset <= |lex.buffer| && |tok.text| < TOKEN_TEXT_MAX
    }

    ghost function State(): (s: St)
      requires Valid()
      reads this, lex
      ensures InBuf(lex.buffer, s)
    {
      St(tok, lex.Here())
    }

    ghost function Left(): nat
      requires Valid()
      reads this, lex
    {
      Rem(lex.buffer, State())
    }

    /** The state reports `r`: the node and the position after it, or the first error. */
    ghost predicate Reports(r: Result, node: Option<Node>)
      reads this, lex
    {
      match r
      case Ok(n, t) => Valid() && !failed && node == Some(n) && State() == t
      case Err(m, o) => failed && node == None && error == m && errorOffset == o
    }

    constructor (line: CString)
      ensures Valid() && !failed && lex.Here() == 0 && lex.buffer == line && fresh(lex)
    {
      lex := new LexState(line);
      tok := Token(Eol, "", 0);
      failed := false;
      error := "";
      errorOffset := 0;
    }

    /** Only the first error is kept. */
    method PError(message: string)
      modifies this
      ensures failed
      ensures if old(failed) then error == old(error) && errorOffset == old(errorOffset)
              else error == message && errorOffset == old(tok.offset)
    {
      if failed {
        return;
      }
      failed := true;
      errorOffset := tok.offset;
      error := message;
    }

    method GeToken()
      requires Valid() && !failed
      modifies this, lex
      ensures Valid() && !failed && State() == Start(lex.buffer, old(lex.Here()))
    {
      tok := lex.Lex();
    }

    // ---- redirections ---------------------------------------------------------

    method TakeNodeRedirFd(node: Node) returns (command: Node, fd: int)
      requires Valid() && IsRedirKind(tok.kind)
      ensures -1 <= fd <= 2
      ensures ResolveFd(lex.buffer, State(), node, -1) ==
              (if fd >= 0 then fd else DefaultFd(FileKindOf(tok.kind)), command)
    {
      command, fd := node, -1;
      var off := tok.offset;
      if off == 0 {
        return;
      }
      var c := lex.buffer[off - 1];
      if !IsFdDigit(c) || !node.Simple? {
        return;
      }
      var n := |node.text|;
      if n == 0 || node.text[n - 1] != c {
        return;
      }
      command := node.(text := TrimEnd(node.text[..n - 1]));
      fd := DigitValue(c);
    }

    method SplitPendingRedirFd(text: string) returns (rest: string, pendingFd: int)
      requires Valid()
      ensures (rest, pendingFd) == SplitFd(lex.buffer, State(), text)
    {
      rest, pendingFd := text, -1;
      if !IsRedirKind(tok.kind) {
        return;
      }
      var off := tok.offset;
      if off == 0 {
        return;
      }
      var c := lex.buffer[off - 1];
      if !IsFdDigit(c) {
        return;
      }
      var n := |text|;
      if n == 0 || text[n - 1] != c {
        return;
      }
      rest := TrimEnd(text[..n - 1]);
      pendingFd := DigitValue(c);
    }

    /** A digit carried over from the previous target goes first. */
    method ResolveDest(node: Node, pendingFd: int) returns (command: Node, destFd: int)
      requires Valid() && IsRedirKind(tok.kind)
      ensures (destFd, command) == ResolveFd(lex.buffer, State(), node, pendingFd)
    {
      command, destFd := node, DefaultFd(FileKindOf(tok.kind));
      if pendingFd >= 0 {
        destFd := pendingFd;
      } else {
        var prefixFd;
        command, prefixFd := TakeNodeRedirFd(node);
        if prefixFd >= 0 {
          destFd := prefixFd;
        }
      }
    }

    /** The word after an arrow, without a digit that belongs to the next arrow. */
    method ReadTarget() returns (target: Option<string>, pendingFd: int)
      requires Valid() && !failed
      modifies this, lex
      ensures if old(tok).kind != Text then
                target == None && failed && error == SYNTAX && errorOffset == old(tok).offset
              else
                Valid() && !failed && State() == Start(lex.buffer, old(lex.Here())) && target.Some? &&
                (target.value, pendingFd) == SplitFd(lex.buffer, State(), old(tok).text)
    {
      hide Start, SplitFd;
      if tok.kind != Text {
        PError(SYNTAX);
        return None, -1;
      }
      var text := tok.text;
      GeToken();
      text, pendingFd := SplitPendingRedirFd(text);
      target := Some(text);
    }

    method ParseRedir(node: Node) returns (r: Option<Node>)
      requires Valid() && !failed
      modifies this, lex
      ensures Reports(ParseRedirs(lex.buffer, old(State()), node, -1), r)
    {
      hide Start, SplitFd, ResolveFd, TrimEnd, LexCopy;
      ghost var result := ParseRedirs(lex.buffer, State(), node, -1);
      var command := node;
      var pendingFd := -1;
      while IsRedirKind(tok.kind)
        invariant Valid() && !failed
        invariant ParseRedirs(lex.buffer, State(), command, pendingFd) == result
        decreases Left()
      {
        var kind := FileKindOf(tok.kind);
        var destFd;
        command, destFd := ResolveDest(command, pendingFd);
        if !FdAllowed(kind, destFd) {
          PError("Unsupported standard-handle redirection.");
          return None;
        }
        GeToken();
        if tok.kind == Amp {
          if kind == AppendTo {
            PError(SYNTAX);
            return None;
          }
          GeToken();
          var target;
          target, pendingFd := ReadTarget();
          if target == None {
            return None;
          }
          if |target.value| != 1 || !IsFdDigit(target.value[0]) {
            PError("Unsupported descriptor duplication.");
            return None;
          }
          command := AddRedir(command, Dup(destFd, DigitValue(target.value[0])));
        } else {
          var target;
          target, pendingFd := ReadTarget();
          if target == None {
            return None;
          }
          if target.value == "" {
            PError("Empty redirection target.");
            return None;
          }
          command := AddRedir(command, File(kind, destFd, target.value));
        }
      }
      return Some(command);
    }

    // ---- commands ---------------------------------------------------------------

    method ParseRem() returns (r: Option<Node>)
      requires Valid() && !failed
      modifies this, lex
      ensures Reports(Ok(Simple("REM", false, []), SkipRem(lex.buffer, old(State()))), r)
    {
      hide Start;
      ghost var result := SkipRem(lex.buffer, State());
      while tok.kind != Eol && tok.kind != RParen
        invariant Valid() && !failed && SkipRem(lex.buffer, State()) == result
        decreases Left()
      {
        GeToken();
      }
      return Some(Simple("REM", false, []));
    }

    method ParseFor() returns (r: Option<Node>)
      requires Valid() && !failed
      modifies this, lex
      ensures Reports(Ok(Simple(LexCopy(lex.buffer[old(tok.offset)..]), false, []), Start(lex.buffer, |lex.buffer|)), r)
    {
      hide Start;
      var text := LexCopy(lex.buffer[tok.offset..]);
      lex.pos := |lex.buffer|;
      lex.pushed := false;
      GeToken();
      return Some(Simple(text, false, []));
    }

    method ParseCmd() returns (r: Option<Node>)
      requires Valid() && !failed && tok.kind == Text
      modifies this, lex
      ensures Reports(JoinText(lex.buffer, Start(lex.buffer, old(lex.Here())), old(tok.text)), r)
    {
      hide Start, LexCopy;
      var text := tok.text;
      GeToken();
      ghost var result := JoinText(lex.buffer, State(), text);
      while tok.kind == Text
        invariant Valid() && !failed && JoinText(lex.buffer, State(), text) == result
        decreases Left()
      {
        var joined := SpaceCat(text, tok.text);
        if |joined| + 1 > TOKEN_TEXT_MAX {
          PError("Command text is too long.");
          return None;
        }
        text := joined;
        GeToken();
      }
      return Some(Simple(text, false, []));
    }

    method ParseTextCommand() returns (r: Option<Node>)
      requires Valid() && !failed && tok.kind == Text
      modifies this, lex
      ensures Reports(ParseText(lex.buffer, old(State())), r)
    {
      hide Start, JoinText, SkipRem, LexCopy, StartsWord;
      if StartsWord(tok.text, "REM") {
        r := ParseRem();
      } else if StartsWord(tok.text, "FOR") {
        r := ParseFor();
      } else {
        r := ParseCmd();
      }
    }

    method ParseQuiet() returns (quiet: bool)
      requires Valid() && !failed
      modifies this, lex
      ensures Valid() && !failed
      ensures quiet == (old(tok).kind == At) && State() == SkipQuiet(lex.buffer, old(State()))
    {
      hide Start;
      ghost var result := SkipQuiet(lex.buffer, State());
      ghost var first := tok;
      quiet := false;
      while tok.kind == At
        invariant Valid() && !failed && SkipQuiet(lex.buffer, State()) == result
        invariant quiet || tok == first
        invariant quiet ==> first.kind == At
        decreases Left()
      {
        quiet := true;
        GeToken();
      }
    }

    method ParseS5() returns (r: Option<Node>)
      requires Valid() && !failed
      modifies this, lex
      ensures Reports(ParseCommand(lex.buffer, old(State())), r)
      decreases Left(), 0
    {
      hide Start, ParseText, ParseLevel;
      var quiet := ParseQuiet();
      if tok.kind == LParen {
        GeToken();
        var child := ParseS(0);
        if child == None {
          return None;
        }
        if tok.kind != RParen {
          PError(SYNTAX);
          return None;
        }
        GeToken();
        return Some(Group(child.value, quiet, []));
      }
      if tok.kind != Text {
        PError(SYNTAX);
        return None;
      }
      r := ParseTextCommand();
      if r.Some? {
        r := Some(r.value.(quiet := quiet));
      }
    }

    /** `ParseS0` to `ParseS3` are `BinaryOperator` at their level; `ParseS4` adds the
        redirections to a command. */
    method ParseS(level: nat) returns (r: Option<Node>)
      requires Valid() && !failed && level <= 4
      modifies this, lex
      ensures Reports(ParseLevel(lex.buffer, old(State()), level), r)
      decreases Left(), 2 * (4 - level) + 2
    {
      hide Start, ParseCommand, ParseRedirs, ParseTail;
      if level == 4 {
        r := ParseS5();
        if r.Some? {
          r := ParseRedir(r.value);
        }
      } else {
        r := BinaryOperator(level);
      }
    }

    method BinaryOperator(level: nat) returns (r: Option<Node>)
      requires Valid() && !failed && level < 4
      modifies this, lex
      ensures Reports(ParseLevel(lex.buffer, old(State()), level), r)
      decreases Left(), 2 * (4 - level) + 1
    {
      hide Start, ParseCommand, ParseRedirs;
      ghost var start, result := State(), ParseLevel(lex.buffer, State(), level);
      r := ParseS(level + 1);
      if r == None {
        return;
      }
      var left := r.value;
      while !failed && tok.kind == KindOfLevel(level)
        invariant Valid() && !failed && Left() <= Rem(lex.buffer, start)
        invariant ParseTail(lex.buffer, State(), level, left) == result
        decreases Left()
      {
        GeToken();
        var right := ParseS(level + 1);
        if right == None {
          return None;
        }
        left := Binary(OpOfLevel(level), left, right.value, false, []);
      }
      return Some(left);
    }

    method Parser() returns (root: Option<Node>)
      requires Valid() && !failed && lex.Here() == 0
      modifies this, lex
      ensures match Parse(lex.buffer)
              case Parsed(n) => !failed && root == Some(n)
              case Empty => !failed && root == None
              case Failed(m, o) => failed && root == None && error == m && errorOffset == o
    {
      hide Start, ParseLevel;
      GeToken();
      if tok.kind == Eol {
        return None;
      }
      root := ParseS(0);
      if root == None {
        return;
      }
      if !failed && tok.kind != Eol {
        PError(SYNTAX);
        return None;
      }
    }
  }
}

/** The lexer's mutable state: a read position and one pushed-back byte. */
module CmdLexState {
  import opened CmdLexer

  class LexState {
    const buffer: CString
    var pos: nat
    var pushed: bool
    var pushedChar: char

    /** The pushed-back byte is always the one just read. */
    ghost predicate Valid()
      reads this
    {
      pos <= |buffer| && (pushed ==> pos > 0 && pushedChar == buffer[pos - 1])
    }

    /** The first unread position. */
    ghost function Here(): nat
      requires Valid()
      reads this
    {
      if pushed then pos - 1 else pos
    }

    constructor (line: CString)
      ensures Valid() && Here() == 0 && buffer == line
    {
      buffer := line;
      pos := 0;
      pushed := false;
      pushedChar := '\0';
    }

    method GetByte() returns (c: char)
      requires Valid()
      modifies this
      ensures Valid() && !pushed
      ensures c == CharAt(buffer, old(Here())) && (c == '\0' <==> old(Here()) == |buffer|)
      ensures pos == old(Here()) + if old(Here()) < |buffer| then 1 else 0
    {
      if pushed {
        pushed := false;
        return pushedChar;
      }
      if pos >= |buffer| {
        return '\0';
      }
      c := buffer[pos];
      pos := pos + 1;
    }

    /** Undoes the `GetByte` that returned `c`; the end of the input is never pushed back. */
    method UnGetByte(c: char)
      requires Valid() && !pushed
      requires if c == '\0' then pos == |buffer| else pos > 0 && c == buffer[pos - 1]
      modifies this
      ensures Valid() && pos == old(pos) && Here() == pos - if c == '\0' then 0 else 1
    {
      if c == '\0' {
        return;
      }
      pushed := true;
      pushedChar := c;
    }

    method Lex() returns (tok: Token)
      requires Valid()
      modifies this
      ensures Valid() && Here() <= |buffer|
      ensures St(tok, Here()) == Start(buffer, old(Here()))
    {
      hide LexCopy, StartsSet, TextEnd;
      ghost var i := Here();
      var c := GetByte();
      while c == ' ' || c == '\t' || c == '\r'
        invariant Valid() && !pushed && (c == '\0' ==> pos == |buffer|)
        invariant c != '\0' ==> pos > 0 && c == buffer[pos - 1]
        invariant SkipSpace(buffer, pos - if c != '\0' then 1 else 0) == SkipSpace(buffer, i)
        decreases |buffer| - pos, c
      {
        c := GetByte();
      }
      var offset := pos - if c != '\0' then 1 else 0;
      if c == '\0' || c == '\n' {
        return Token(Eol, "", offset);
      }
      if c == '&' || c == '|' || c == '>' || c == '<' || c == '(' || c == ')' || c == '@' {
        tok := LexPunctuation(c);
        return;
      }
      var start := pos - 1;
      var last := LexText(c);
      return Token(Text, LexCopy(buffer[start..last]), offset);
    }

    /** The operator that starts with `c`, one or two bytes long. */
    method LexPunctuation(c: char) returns (tok: Token)
      requires Valid() && !pushed && pos > 0 && c == buffer[pos - 1]
      requires c == '&' || c == '|' || c == '>' || c == '<' || c == '(' || c == ')' || c == '@'
      modifies this
      ensures Valid() && St(tok, Here()) == Start(buffer, old(pos) - 1)
    {
      var offset := pos - 1;
      assert SkipSpace(buffer, offset) == offset;
      if c == '<' {
        return Token(Lt, "", offset);
      }
      if c == '(' {
        return Token(LParen, "", offset);
      }
      if c == ')' {
        return Token(RParen, "", offset);
      }
      if c == '@' {
        return Token(At, "", offset);
      }
      var c2 := GetByte();
      if c2 != c {
        UnGetByte(c2);
      }
      return Token(OneOrTwo(c, c2 == c), "", offset);
    }

    /** The TEXT loop: reads up to an unquoted metacharacter, a newline or the end. */
    method LexText(first: char) returns (last: nat)
      requires Valid() && !pushed && pos > 0 && first == buffer[pos - 1]
      modifies this
      ensures Valid()
      ensures (last, Here()) == TextEnd(buffer, old(pos), first == '"', StartsSet(buffer, old(pos) - 1))
    {
      var quoted := first == '"';
      var literalParens := StartsSet(buffer, pos - 1);
      last := pos;
      ghost var p := pos;
      while true
        invariant Valid() && !pushed && last == pos && p <= pos
        invariant TextEnd(buffer, pos, quoted, literalParens) == TextEnd(buffer, p, first == '"', literalParens)
        decreases |buffer| - pos
      {
        var c := GetByte();
        if c == '\0' || c == '\n' {
          last := pos - if c != '\0' then 1 else 0;
          return;
        }
        if c == '"' {
          quoted := !quoted;
        } else if IsMeta(c, quoted, literalParens) {
          UnGetByte(c);
          last := pos - 1;
          return;
        }
        last := pos;
      }
    }
  }

  function OneOrTwo(c: char, twice: bool): Kind {
    if c == '&' then (if twice then AndAnd else Amp)
    else if c == '|' then (if twice then OrOr else Pipe)
    else (if twice then Append else Gt)
  }
}

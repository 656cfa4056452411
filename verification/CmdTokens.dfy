/** What the lexer makes of printed command text. */
module CmdTokens {
  import opened Letters
  import opened CmdLexer
  import opened CmdTree
  import opened CmdParser

  /** `s` stands in `buf` at position `i`. */
  predicate Holds(buf: string, i: nat, s: string) {
    i + |s| <= |buf| && buf[i..i + |s|] == s
  }

  lemma HoldsSplit(buf: string, i: nat, a: string, b: string)
    requires Holds(buf, i, a + b)
    ensures Holds(buf, i, a) && Holds(buf, i + |a|, b)
  {
    var s := buf[i..i + |a + b|];
    assert s[..|a|] == a && s[|a|..] == b;
    assert buf[i..i + |a|] == s[..|a|];
    assert buf[i + |a|..i + |a| + |b|] == s[|a|..];
  }

  lemma HoldsAppend(buf: string, i: nat, a: string, b: string)
    requires Holds(buf, i, a) && Holds(buf, i + |a|, b)
    ensures Holds(buf, i, a + b)
  {
    var j, k := i + |a|, i + |a| + |b|;
    assert buf[i..k] == buf[i..j] + buf[j..k];
  }

  lemma HoldsTwo(buf: string, i: nat, c: char, d: char)
    requires i + 2 <= |buf| && buf[i] == c && buf[i + 1] == d
    ensures Holds(buf, i, [c, d])
  {
  }

  lemma HoldsChar(buf: string, i: nat, s: string, k: nat)
    requires Holds(buf, i, s) && k < |s|
    ensures i + |s| <= |buf| && buf[i + k] == s[k]
  {
    assert buf[i..i + |s|][k] == s[k];
  }

  // ---- well-formed text ----------------------------------------------------------

  /** Read from quotation state `quoted`, the text ends no line, closes its quotes and has
      no metacharacter outside them (parentheses excepted when they are literal). */
  predicate Safe(s: string, quoted: bool, literalParens: bool)
    decreases |s|
  {
    if s == [] then !quoted
    else
      s[0] != '\0' && s[0] != '\n' &&
      if s[0] == '"' then Safe(s[1..], !quoted, literalParens)
      else !IsMeta(s[0], quoted, literalParens) && Safe(s[1..], quoted, literalParens)
  }

  predicate Trimmed(s: string) {
    s != [] && !IsBlank(s[0]) && s[0] != '\r' && !IsBlank(s[|s| - 1])
  }

  /** A SET command with something after its name. */
  predicate IsSet(s: string) {
    |s| >= 4 && Upper(s[0]) == 'S' && Upper(s[1]) == 'E' && Upper(s[2]) == 'T' && IsBlank(s[3])
  }

  lemma {:induction false} SafeAppend(a: string, b: string, quoted: bool, lit: bool)
    requires Safe(a, quoted, lit) && Safe(b, false, lit)
    ensures Safe(a + b, quoted, lit)
    decreases |a|
  {
    if a == [] {
      assert a + b == b;
    } else {
      assert (a + b)[1..] == a[1..] + b;
      SafeAppend(a[1..], b, if a[0] == '"' then !quoted else quoted, lit);
    }
  }

  lemma {:induction false} SafeLiteral(a: string, quoted: bool)
    requires Safe(a, quoted, false)
    ensures Safe(a, quoted, true)
    decreases |a|
  {
    if a != [] {
      SafeLiteral(a[1..], if a[0] == '"' then !quoted else quoted);
    }
  }

  // ---- blanks --------------------------------------------------------------------

  predicate Blanks(buf: string, i: nat, j: nat) {
    i <= j <= |buf| && forall k :: i <= k < j ==> IsBlank(buf[k])
  }

  lemma {:induction false} SkipBlanks(buf: string, i: nat, j: nat)
    requires Blanks(buf, i, j)
    ensures SkipSpace(buf, i) == SkipSpace(buf, j)
    decreases j - i
  {
    if i < j {
      SkipBlanks(buf, i + 1, j);
    }
  }

  /** Blanks before a token do not matter. */
  lemma StartSkips(buf: string, i: nat, j: nat)
    requires Blanks(buf, i, j)
    ensures Start(buf, i) == Start(buf, j)
  {
    SkipBlanks(buf, i, j);
  }

  lemma {:induction false} TrimEndBlanks(s: string, b: string)
    requires forall k :: 0 <= k < |b| ==> IsBlank(b[k])
    requires s != [] && !IsBlank(s[|s| - 1])
    ensures TrimEnd(s + b) == s
    decreases |b|
  {
    if b == [] {
      assert s + b == s;
    } else {
      assert (s + b)[..|s + b| - 1] == s + b[..|b| - 1];
      TrimEndBlanks(s, b[..|b| - 1]);
    }
  }

  lemma LexCopyTrims(s: string, b: string)
    requires forall k :: 0 <= k < |b| ==> IsBlank(b[k])
    requires Trimmed(s) && |s| < TOKEN_TEXT_MAX
    ensures LexCopy(s + b) == s
  {
    assert (s + b)[0] == s[0];
    assert TrimStart(s + b) == s + b;
    TrimEndBlanks(s, b);
  }

  // ---- one TEXT token --------------------------------------------------------------

  lemma {:induction false} TextEndOver(buf: string, i: nat, s: string, quoted: bool, lit: bool)
    requires Holds(buf, i, s) && Safe(s, quoted, lit)
    ensures TextEnd(buf, i, quoted, lit) == TextEnd(buf, i + |s|, false, lit)
    decreases |s|
  {
    if s != [] {
      HoldsChar(buf, i, s, 0);
      HoldsSplit(buf, i, s[..1], s[1..]) by { assert s == s[..1] + s[1..]; }
      TextEndOver(buf, i + 1, s[1..], if s[0] == '"' then !quoted else quoted, lit);
    }
  }

  lemma {:induction false} TextEndStops(buf: string, i: nat, m: nat, lit: bool)
    requires Blanks(buf, i, m) && (m == |buf| || IsMeta(buf[m], false, lit))
    ensures TextEnd(buf, i, false, lit) == (m, m)
    decreases m - i
  {
    if i < m {
      TextEndStops(buf, i + 1, m, lit);
    }
  }

  predicate BeginsText(c: char) {
    !IsBlank(c) && c != '\r' && c != '\n' && !IsMeta(c, false, false)
  }

  lemma StartText(buf: string, i: nat)
    requires i < |buf| && BeginsText(buf[i])
    ensures var (last, next) := TextEnd(buf, i, false, StartsSet(buf, i));
            last >= i && Start(buf, i) == St(Token(Text, LexCopy(buf[i..last]), i), next)
  {
    hide LexCopy, StartsSet;
    assert SkipSpace(buf, i) == i;
    assert TextEnd(buf, i, false, StartsSet(buf, i)) == TextEnd(buf, i + 1, buf[i] == '"', StartsSet(buf, i));
  }

  lemma SafeBegins(s: string, lit: bool)
    requires Trimmed(s) && Safe(s, false, lit) && (lit ==> Upper(s[0]) == 'S')
    ensures BeginsText(s[0])
  {
  }

  /** Safe trimmed text followed by blanks and a metacharacter (or the end) is one token. */
  lemma TextToken(buf: string, i: nat, s: string, m: nat)
    requires Holds(buf, i, s) && Trimmed(s) && Safe(s, false, StartsSet(buf, i)) && |s| < TOKEN_TEXT_MAX
    requires Blanks(buf, i + |s|, m) && (m == |buf| || IsMeta(buf[m], false, StartsSet(buf, i)))
    ensures Start(buf, i) == St(Token(Text, s, i), m)
  {
    hide Start, TextEnd, LexCopy, Safe, Holds, Blanks, StartsSet, Trimmed, Upper, IsMeta, BeginsText, IsBlank;
    var lit := StartsSet(buf, i);
    TextStarts(buf, i, s);
    StartText(buf, i);
    TextEndOver(buf, i, s, false, lit);
    var b := BlankTail(buf, i, s, m);
    TextEndStops(buf, i + |s|, m, lit);
    LexCopyTrims(s, b);
  }

  lemma TextStarts(buf: string, i: nat, s: string)
    requires Holds(buf, i, s) && Trimmed(s) && Safe(s, false, StartsSet(buf, i))
    ensures i < |buf| && BeginsText(buf[i])
  {
    hide Safe, Holds;
    FirstChar(buf, i, s);
    SafeBegins(s, StartsSet(buf, i));
  }

  lemma BlankTail(buf: string, i: nat, s: string, m: nat) returns (b: string)
    requires Holds(buf, i, s) && Blanks(buf, i + |s|, m)
    ensures i + |s| <= m <= |buf| && buf[i..m] == s + b
    ensures forall k :: 0 <= k < |b| ==> IsBlank(b[k])
  {
    b := buf[i + |s|..m];
    assert buf[i..m] == buf[i..i + |s|] + b;
  }

  lemma FirstChar(buf: string, i: nat, s: string)
    requires Holds(buf, i, s) && s != []
    ensures i < |buf| && buf[i] == s[0] && CharAt(buf, i) == s[0]
  {
    hide Holds;
    HoldsChar(buf, i, s, 0);
  }

  /** The punctuation tokens. */
  lemma StartPunct(buf: string, p: nat)
    requires p < |buf|
    ensures buf[p] == '(' ==> Start(buf, p) == St(Token(LParen, "", p), p + 1)
    ensures buf[p] == ')' ==> Start(buf, p) == St(Token(RParen, "", p), p + 1)
    ensures buf[p] == '@' ==> Start(buf, p) == St(Token(At, "", p), p + 1)
    ensures buf[p] == '<' ==> Start(buf, p) == St(Token(Lt, "", p), p + 1)
    ensures buf[p] == '&' ==>
      Start(buf, p) == if CharAt(buf, p + 1) == '&' then St(Token(AndAnd, "", p), p + 2) else St(Token(Amp, "", p), p + 1)
    ensures buf[p] == '|' ==>
      Start(buf, p) == if CharAt(buf, p + 1) == '|' then St(Token(OrOr, "", p), p + 2) else St(Token(Pipe, "", p), p + 1)
    ensures buf[p] == '>' ==>
      Start(buf, p) == if CharAt(buf, p + 1) == '>' then St(Token(Append, "", p), p + 2) else St(Token(Gt, "", p), p + 1)
  {
    hide StartsSet, LexCopy, TextEnd;
    if buf[p] in "()@<&|>" {
      assert SkipSpace(buf, p) == p;
    }
  }

  // ---- what may follow a printed node ------------------------------------------------

  /** The end of the line, a closing parenthesis, or a blank and an operator. */
  predicate Delim(buf: string, j: nat) {
    j == |buf| || (j < |buf| && buf[j] == ')') ||
    (j + 1 < |buf| && buf[j] == ' ' && (buf[j + 1] == '&' || buf[j + 1] == '|'))
  }

  predicate EndsCommand(k: Kind) {
    k == Eol || k == RParen || k == Amp || k == AndAnd || k == OrOr || k == Pipe
  }

  lemma DelimKind(buf: string, j: nat)
    requires Delim(buf, j)
    ensures j <= |buf| && EndsCommand(Start(buf, j).tok.kind)
  {
    if j < |buf| {
      hide Start;
      StartPunct(buf, j);
      if buf[j] == ' ' {
        StartSkips(buf, j, j + 1);
        StartPunct(buf, j + 1);
      }
    }
  }

  /** An operator's token, and what is read after it. */
  lemma OpToken(buf: string, j: nat, op: Op)
    requires Holds(buf, j, OpText(op))
    ensures Delim(buf, j) && j + |OpText(op)| <= |buf|
    ensures var s := Start(buf, j);
            s.tok.kind == KindOfLevel(OpLevel(op)) && Start(buf, s.pos) == Start(buf, j + |OpText(op)|)
  {
    hide Start;
    var t := OpText(op);
    assert |t| == 3 || |t| == 4;
    HoldsChar(buf, j, t, 0);
    HoldsChar(buf, j, t, 1);
    HoldsChar(buf, j, t, 2);
    HoldsChar(buf, j, t, |t| - 1);
    StartSkips(buf, j, j + 1);
    StartPunct(buf, j + 1);
    StartSkips(buf, j + |t| - 1, j + |t|);
  }
}

/** The command-line lexer as functions of a buffer and a read position. The position
    counts a pushed-back byte as unread. */
module CmdLexer {
  import opened Letters

  datatype Kind = Eol | Text | AndAnd | OrOr | Append | Amp | Pipe | Lt | Gt | LParen | RParen | At

  datatype Token = Token(kind: Kind, text: string, offset: nat)

  /** The parser's view of the lexer: the current token and where the next one is read. */
  datatype St = St(tok: Token, pos: nat)

  const TOKEN_TEXT_MAX := 4096

  /** A C string: it holds no NUL, which is what reads past its end return. */
  type CString = s: string | '\0' !in s

  function CharAt(buf: string, i: nat): char {
    if i < |buf| then buf[i] else '\0'
  }

  predicate IsBlank(c: char) {
    c == ' ' || c == '\t'
  }

  /** `word`, in any case, followed by a blank or the end of the string. */
  predicate StartsWord(s: string, word: string) {
    |word| <= |s| && (forall k :: 0 <= k < |word| ==> Upper(s[k]) == Upper(word[k])) &&
    (|s| == |word| || IsBlank(s[|word|]))
  }

  /** The text at `i` begins a SET command, whose parentheses are data. */
  predicate StartsSet(buf: string, i: nat) {
    Upper(CharAt(buf, i)) == 'S' && Upper(CharAt(buf, i + 1)) == 'E' && Upper(CharAt(buf, i + 2)) == 'T' &&
    (CharAt(buf, i + 3) == '\0' || IsBlank(CharAt(buf, i + 3)))
  }

  /** An unquoted character that ends a TEXT span. */
  predicate IsMeta(c: char, quoted: bool, literalParens: bool) {
    !quoted && !(literalParens && (c == '(' || c == ')')) &&
    (c == '&' || c == '|' || c == '<' || c == '>' || c == '(' || c == ')' || c == '@')
  }

  // ---- trimming ------------------------------------------------------------

  function TrimStart(s: string): string {
    if s != [] && IsBlank(s[0]) then TrimStart(s[1..]) else s
  }

  function TrimEnd(s: string): string {
    if s != [] && IsBlank(s[|s| - 1]) then TrimEnd(s[..|s| - 1]) else s
  }

  /** Trim blanks on both sides, then keep what fits the token buffer. */
  function LexCopy(s: string): (t: string)
    ensures |t| < TOKEN_TEXT_MAX
  {
    var t := TrimEnd(TrimStart(s));
    if |t| >= TOKEN_TEXT_MAX then t[..TOKEN_TEXT_MAX - 1] else t
  }

  // ---- one token -------------------------------------------------------------

  /** The first position from `i` that holds no blank or carriage return. */
  function SkipSpace(buf: string, i: nat): (j: nat)
    requires i <= |buf|
    ensures i <= j <= |buf|
    ensures j < |buf| ==> !(IsBlank(buf[j]) || buf[j] == '\r')
    decreases |buf| - i
  {
    if i < |buf| && (IsBlank(buf[i]) || buf[i] == '\r') then SkipSpace(buf, i + 1) else i
  }

  /** Where a TEXT span read on from `i` ends, and where reading resumes: a newline is
      consumed, a metacharacter is not. */
  function TextEnd(buf: string, i: nat, quoted: bool, literalParens: bool): (r: (nat, nat))
    requires i <= |buf|
    ensures i <= r.0 <= r.1 <= |buf|
    decreases |buf| - i
  {
    if i == |buf| then (i, i)
    else if buf[i] == '\n' then (i, i + 1)
    else if buf[i] == '"' then TextEnd(buf, i + 1, !quoted, literalParens)
    else if IsMeta(buf[i], quoted, literalParens) then (i, i)
    else TextEnd(buf, i + 1, quoted, literalParens)
  }

  /** The state after reading the next token from `i`. */
  function Start(buf: string, i: nat): (s: St)
    requires i <= |buf|
    ensures i <= s.pos <= |buf| && |s.tok.text| < TOKEN_TEXT_MAX
    ensures s.tok.kind != Eol ==> i < s.pos && s.tok.offset < |buf|
    ensures s.tok.offset <= |buf|
  {
    var j := SkipSpace(buf, i);
    if j == |buf| then St(Token(Eol, "", j), j)
    else
      var c := buf[j];
      var twice := j + 1 < |buf| && buf[j + 1] == c;
      if c == '\n' then St(Token(Eol, "", j), j + 1)
      else if c == '&' then (if twice then St(Token(AndAnd, "", j), j + 2) else St(Token(Amp, "", j), j + 1))
      else if c == '|' then (if twice then St(Token(OrOr, "", j), j + 2) else St(Token(Pipe, "", j), j + 1))
      else if c == '>' then (if twice then St(Token(Append, "", j), j + 2) else St(Token(Gt, "", j), j + 1))
      else if c == '<' then St(Token(Lt, "", j), j + 1)
      else if c == '(' then St(Token(LParen, "", j), j + 1)
      else if c == ')' then St(Token(RParen, "", j), j + 1)
      else if c == '@' then St(Token(At, "", j), j + 1)
      else
        var (last, next) := TextEnd(buf, j + 1, c == '"', StartsSet(buf, j));
        St(Token(Text, LexCopy(buf[j..last]), j), next)
  }

  /** Work left: unread bytes, plus one while the current token is not the end. */
  function Rem(buf: string, s: St): nat
    requires s.pos <= |buf|
  {
    |buf| - s.pos + if s.tok.kind == Eol then 0 else 1
  }
}

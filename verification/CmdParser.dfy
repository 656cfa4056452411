/** The recursive-descent parser: `&`, `||`, `&&`, `|`, redirections, then commands. */
module CmdParser {
  import opened CmdLexer
  import opened CmdTree

  datatype Result =
    | Ok(node: Node, st: St)
    | Err(message: string, offset: nat)

  const SYNTAX := "The syntax of the command is incorrect."

  function SyntaxError(st: St): Result {
    Err(SYNTAX, st.tok.offset)
  }

  predicate InBuf(buf: string, st: St) {
    st.pos <= |buf| && st.tok.offset <= |buf|
  }

  /** A parse never gives back input. */
  predicate Advances(buf: string, st: St, r: Result)
    requires InBuf(buf, st)
  {
    r.Ok? ==> InBuf(buf, r.st) && Rem(buf, r.st) <= Rem(buf, st)
  }

  function KindOfLevel(level: nat): Kind
    requires level < 4
  {
    if level == 0 then Amp else if level == 1 then OrOr else if level == 2 then AndAnd else Pipe
  }

  function OpOfLevel(level: nat): Op
    requires level < 4
  {
    if level == 0 then Sequence else if level == 1 then Or else if level == 2 then And else PipeTo
  }

  // ---- redirections -----------------------------------------------------------

  predicate IsRedirKind(k: Kind) {
    k == Lt || k == Gt || k == Append
  }

  predicate IsFdDigit(c: char) {
    '0' <= c <= '2'
  }

  function DigitValue(c: char): Fd
    requires IsFdDigit(c)
  {
    if c == '0' then 0 else if c == '1' then 1 else 2
  }

  /** A descriptor digit directly before the operator at `off` that also ends `text`. */
  predicate EndsInFd(buf: string, off: nat, text: string)
    requires off <= |buf|
  {
    off > 0 && IsFdDigit(buf[off - 1]) && text != [] && text[|text| - 1] == buf[off - 1]
  }

  function FileKindOf(k: Kind): FileKind
    requires IsRedirKind(k)
  {
    if k == Lt then Input else if k == Append then AppendTo else Output
  }

  /** The descriptor of the redirection at the current token, and the command node without
      the digit that named it. Groups have no text to peel a digit from. */
  function ResolveFd(buf: string, st: St, node: Node, pending: int): (r: (int, Node))
    requires st.tok.offset <= |buf| && IsRedirKind(st.tok.kind)
  {
    var default := DefaultFd(FileKindOf(st.tok.kind));
    if pending >= 0 then (pending, node)
    else if node.Simple? && EndsInFd(buf, st.tok.offset, node.text) then
      (DigitValue(buf[st.tok.offset - 1]), node.(text := TrimEnd(node.text[..|node.text| - 1])))
    else (default, node)
  }

  /** The digit of a following redirection is peeled off the end of the current target. */
  function SplitFd(buf: string, st: St, text: string): (r: (string, int))
    requires st.tok.offset <= |buf|
  {
    if IsRedirKind(st.tok.kind) && EndsInFd(buf, st.tok.offset, text) then
      (TrimEnd(text[..|text| - 1]), DigitValue(buf[st.tok.offset - 1]) as int)
    else (text, -1)
  }

  predicate FdAllowed(k: FileKind, fd: int) {
    if k.Input? then fd == 0 else fd == 1 || fd == 2
  }

  function AddRedir(node: Node, r: Redir): Node {
    node.(redirs := node.redirs + [r])
  }

  function ParseRedirs(buf: string, st: St, node: Node, pending: int): (r: Result)
    requires InBuf(buf, st)
    ensures Advances(buf, st, r)
    decreases Rem(buf, st)
  {
    if !IsRedirKind(st.tok.kind) then Ok(node, st)
    else
      var kind := FileKindOf(st.tok.kind);
      var (dest, command) := ResolveFd(buf, st, node, pending);
      if !FdAllowed(kind, dest) then Err("Unsupported standard-handle redirection.", st.tok.offset)
      else
        var s1 := Start(buf, st.pos);
        if s1.tok.kind == Amp then
          if kind == AppendTo then SyntaxError(s1)
          else
            var s2 := Start(buf, s1.pos);
            if s2.tok.kind != Text then SyntaxError(s2)
            else
              var s3 := Start(buf, s2.pos);
              var (target, next) := SplitFd(buf, s3, s2.tok.text);
              if |target| != 1 || !IsFdDigit(target[0]) then Err("Unsupported descriptor duplication.", s3.tok.offset)
              else ParseRedirs(buf, s3, AddRedir(command, Dup(dest, DigitValue(target[0]))), next)
        else if s1.tok.kind != Text then SyntaxError(s1)
        else
          var s2 := Start(buf, s1.pos);
          var (target, next) := SplitFd(buf, s2, s1.tok.text);
          if target == "" then Err("Empty redirection target.", s2.tok.offset)
          else ParseRedirs(buf, s2, AddRedir(command, File(kind, dest, target)), next)
  }

  // ---- commands -----------------------------------------------------------------

  /** A REM command keeps only its name; its payload is skipped up to the end or a `)`. */
  function SkipRem(buf: string, st: St): (s: St)
    requires InBuf(buf, st)
    ensures InBuf(buf, s) && Rem(buf, s) <= Rem(buf, st)
    decreases Rem(buf, st)
  {
    if st.tok.kind == Eol || st.tok.kind == RParen then st else SkipRem(buf, Start(buf, st.pos))
  }

  function SpaceCat(a: string, b: string): string {
    a + (if a != "" && b != "" then " " else "") + b
  }

  /** Adjacent TEXT tokens (a newline separates them) are joined by one blank. */
  function JoinText(buf: string, st: St, text: string): (r: Result)
    requires InBuf(buf, st)
    ensures Advances(buf, st, r)
    decreases Rem(buf, st)
  {
    if st.tok.kind != Text then Ok(Simple(text, false, []), st)
    else
      var joined := SpaceCat(text, st.tok.text);
      if |joined| + 1 > TOKEN_TEXT_MAX then Err("Command text is too long.", st.tok.offset)
      else JoinText(buf, Start(buf, st.pos), joined)
  }

  /** One command text: FOR takes the rest of the line as it stands. */
  function ParseText(buf: string, st: St): (r: Result)
    requires InBuf(buf, st) && st.tok.kind == Text
    ensures Advances(buf, st, r)
  {
    if StartsWord(st.tok.text, "REM") then Ok(Simple("REM", false, []), SkipRem(buf, st))
    else if StartsWord(st.tok.text, "FOR") then
      Ok(Simple(LexCopy(buf[st.tok.offset..]), false, []), Start(buf, |buf|))
    else JoinText(buf, Start(buf, st.pos), st.tok.text)
  }

  /** Leading `@` signs. */
  function SkipQuiet(buf: string, st: St): (s: St)
    requires InBuf(buf, st)
    ensures InBuf(buf, s) && Rem(buf, s) <= Rem(buf, st)
    decreases Rem(buf, st)
  {
    if st.tok.kind == At then SkipQuiet(buf, Start(buf, st.pos)) else st
  }

  /** `ParseS5`: a command or a parenthesised group. */
  function ParseCommand(buf: string, st: St): (r: Result)
    requires InBuf(buf, st)
    ensures Advances(buf, st, r)
    decreases Rem(buf, st), 0
  {
    var quiet := st.tok.kind == At;
    var s := SkipQuiet(buf, st);
    if s.tok.kind == LParen then
      match ParseLevel(buf, Start(buf, s.pos), 0)
      case Err(m, o) => Err(m, o)
      case Ok(child, t) =>
        if t.tok.kind != RParen then SyntaxError(t)
        else Ok(Group(child, quiet, []), Start(buf, t.pos))
    else if s.tok.kind != Text then SyntaxError(s)
    else
      match ParseText(buf, s)
      case Err(m, o) => Err(m, o)
      case Ok(n, t) => Ok(n.(quiet := quiet), t)
  }

  /** `ParseS0` to `ParseS4`. */
  function ParseLevel(buf: string, st: St, level: nat): (r: Result)
    requires InBuf(buf, st) && level <= 4
    ensures Advances(buf, st, r)
    decreases Rem(buf, st), 2 * (4 - level) + 2
  {
    if level == 4 then
      match ParseCommand(buf, st)
      case Err(m, o) => Err(m, o)
      case Ok(n, t) => ParseRedirs(buf, t, n, -1)
    else
      match ParseLevel(buf, st, level + 1)
      case Err(m, o) => Err(m, o)
      case Ok(left, t) => ParseTail(buf, t, level, left)
  }

  /** The operator loop: `left` is what has been built so far. */
  function ParseTail(buf: string, st: St, level: nat, left: Node): (r: Result)
    requires InBuf(buf, st) && level < 4
    ensures Advances(buf, st, r)
    decreases Rem(buf, st), 2 * (4 - level) + 1
  {
    if st.tok.kind != KindOfLevel(level) then Ok(left, st)
    else
      match ParseLevel(buf, Start(buf, st.pos), level + 1)
      case Err(m, o) => Err(m, o)
      case Ok(right, t) => ParseTail(buf, t, level, Binary(OpOfLevel(level), left, right, false, []))
  }

  datatype ParseResult = Parsed(root: Node) | Empty | Failed(message: string, offset: nat)

  /** The whole line: empty, one statement up to the end, or an error. */
  function Parse(buf: string): ParseResult {
    var st := Start(buf, 0);
    if st.tok.kind == Eol then Empty
    else
      match ParseLevel(buf, st, 0)
      case Err(m, o) => Failed(m, o)
      case Ok(n, t) => if t.tok.kind != Eol then Failed(SYNTAX, t.tok.offset) else Parsed(n)
  }
}

/** Reading the printed text of a command tree. */
module CmdPrinted {
  import opened Letters
  import opened CmdLexer
  import opened CmdTree
  import opened CmdParser
  import opened CmdTokens

  // ---- well-formed trees -----------------------------------------------------

  /** Command text the lexer keeps whole and the parser treats as an ordinary command. */
  predicate GoodText(s: string) {
    Trimmed(s) && Safe(s, false, IsSet(s)) && !StartsWord(s, "REM") && !StartsWord(s, "FOR")
  }

  predicate GoodRedir(r: Redir) {
    r.File? ==> Trimmed(r.target) && Safe(r.target, false, false) && !IsSet(r.target) && FdAllowed(r.kind, r.dest)
  }

  predicate GoodRedirs(rs: seq<Redir>) {
    forall i :: 0 <= i < |rs| ==> GoodRedir(rs[i])
  }

  /** The last thing printed is a SET command, which would swallow a closing parenthesis. */
  predicate EndsInSet(n: Node) {
    match n
    case Simple(text, _, rs) => IsSet(text) && rs == []
    case Group(_, _, _) => false
    case Binary(_, _, r, _, _) => EndsInSet(r)
  }

  predicate WellFormed(n: Node) {
    match n
    case Simple(text, _, rs) => GoodText(text) && GoodRedirs(rs)
    case Group(c, _, rs) => WellFormed(c) && GoodRedirs(rs)
    case Binary(_, l, r, _, _) => WellFormed(l) && WellFormed(r)
  }

  /** No group ends in a SET command. */
  predicate Closed(n: Node) {
    match n
    case Simple(_, _, _) => true
    case Group(c, _, _) => Closed(c) && !EndsInSet(c)
    case Binary(_, l, r, _, _) => Closed(l) && Closed(r)
  }

  predicate NoDupOntoZero(rs: seq<Redir>) {
    forall i :: 0 <= i < |rs| ==> !(rs[i].Dup? && rs[i].dest == 0)
  }

  /** The printed form can be read back: no `0>&n`, and nothing but a default-descriptor
      file redirection directly after a closing parenthesis. */
  predicate Readable(n: Node) {
    match n
    case Simple(_, _, rs) => NoDupOntoZero(rs)
    case Group(c, _, rs) => Readable(c) && NoDupOntoZero(rs) && (rs == [] || !Explicit(rs[0]))
    case Binary(_, l, r, _, _) => Readable(l) && Readable(r)
  }

  // ---- redirection lists --------------------------------------------------------

  /** What the text before a redirection list picks up from it: the blank and descriptor digit. */
  function Suffix(rs: seq<Redir>): string {
    if rs != [] && Explicit(rs[0]) then " " + [Digit(rs[0].dest)] else ""
  }

  function OpOffset(rs: seq<Redir>): nat
    requires rs != []
  {
    if Explicit(rs[0]) then 2 else 1
  }

  /** Where the token after that text is read from. */
  function NextAt(i: nat, rs: seq<Redir>): nat {
    if rs == [] then i else i + OpOffset(rs)
  }

  function RedirKind(r: Redir): Kind {
    if r.Dup? then Gt
    else match r.kind case Input => Lt case Output => Gt case AppendTo => Append
  }

  function OpChars(r: Redir): string {
    if r.Dup? then ">&" else KindText(r.kind) + " "
  }

  function Operand(r: Redir): string {
    if r.Dup? then [Digit(r.source)] else r.target
  }

  lemma RedirTextParts(rs: seq<Redir>)
    requires rs != []
    ensures RedirsText(rs) == " " + FdText(rs[0]) + (OpChars(rs[0]) + (Operand(rs[0]) + RedirsText(rs[1..])))
  {
    var r, rest := rs[0], RedirsText(rs[1..]);
    var a, b, c := " " + FdText(r), OpChars(r), Operand(r);
    assert RedirText(r) == a + (b + c) by {
      if r.File? {
        Assoc(a, KindText(r.kind), " ", c);
      } else {
        Assoc(a, ">&", c, "");
      }
    }
    hide RedirText, FdText, OpChars, Operand;
    Assoc(a, b, c, rest);
  }

  lemma Assoc(a: string, b: string, c: string, d: string)
    ensures a + b + c + d == a + (b + (c + d)) == a + ((b + c) + d) == (a + (b + c)) + d
  {
  }

  /** The operator token of a printed redirection, and the state its operand is read in. */
  lemma OpReads(buf: string, o: nat, r: Redir)
    requires Holds(buf, o, OpChars(r) + Operand(r)) && GoodRedir(r)
    ensures var s := Start(buf, o);
            s.tok.kind == RedirKind(r) && s.tok.offset == o && FileKindOf(s.tok.kind) == (if r.Dup? then Output else r.kind) &&
            if r.Dup? then
              var a := Start(buf, s.pos);
              a.tok.kind == Amp && a.pos == o + 2
            else Start(buf, s.pos) == Start(buf, o + |OpChars(r)|)
  {
    hide Start;
    var t := OpChars(r) + Operand(r);
    HoldsChar(buf, o, t, 0);
    HoldsChar(buf, o, t, 1);
    HoldsChar(buf, o, t, 2);
    StartPunct(buf, o);
    if r.Dup? {
      StartPunct(buf, o + 1);
    } else {
      StartSkips(buf, o + |OpChars(r)| - 1, o + |OpChars(r)|);
    }
  }

  lemma SafeDigit(d: Fd, lit: bool)
    ensures Safe([Digit(d)], false, lit) && Trimmed([Digit(d)]) && Safe([' ', Digit(d)], false, lit)
    ensures IsFdDigit(Digit(d)) && DigitValue(Digit(d)) == d
  {
    assert [Digit(d)][1..] == [] && [' ', Digit(d)][1..] == [Digit(d)];
  }

  /** `literalParens` as the lexer computes it, for text that may be cut by what follows. */
  lemma SetSeen(buf: string, i: nat, body: string)
    requires Holds(buf, i, body) && Trimmed(body) && Safe(body, false, IsSet(body))
    requires i + |body| == |buf| || buf[i + |body|] == ' ' || buf[i + |body|] == ')'
    ensures Safe(body, false, StartsSet(buf, i))
    ensures StartsSet(buf, i) ==> IsSet(body) || (i + |body| < |buf| ==> buf[i + |body|] == ' ')
  {
    forall k | 0 <= k < |body| ensures CharAt(buf, i + k) == body[k] {
      HoldsChar(buf, i, body, k);
    }
    assert CharAt(buf, i) == body[0];
    if IsSet(body) {
      assert CharAt(buf, i + 3) == body[3];
    } else {
      if StartsSet(buf, i) {
        SafeLiteral(body, false);
        if |body| > 3 {
          NulFree(body, false, false, 3);
        }
      }
    }
  }

  lemma {:induction false} NulFree(s: string, quoted: bool, lit: bool, k: nat)
    requires Safe(s, quoted, lit) && k < |s|
    ensures s[k] != '\0'
    decreases k
  {
    if k > 0 {
      NulFree(s[1..], if s[0] == '"' then !quoted else quoted, lit, k - 1);
    }
  }

  /** Text `body` with a redirection list (or nothing) printed after it: it is one token, the
      descriptor digit of the first redirection is stuck to its end, and splitting that digit
      off gives `body` back. */
  lemma BodyToken(buf: string, i: nat, body: string, rs: seq<Redir>)
    requires Holds(buf, i, body + RedirsText(rs)) && Delim(buf, i + |body| + |RedirsText(rs)|)
    requires Trimmed(body) && Safe(body, false, IsSet(body)) && |buf| < TOKEN_TEXT_MAX && GoodRedirs(rs)
    requires rs == [] && IsSet(body) ==> CharAt(buf, i + |body|) != ')'
    ensures var s := Start(buf, i);
            s.tok == Token(Text, body + Suffix(rs), i) && Start(buf, s.pos) == Start(buf, NextAt(i + |body|, rs))
    ensures var s2 := Start(buf, NextAt(i + |body|, rs));
            SplitFd(buf, s2, body + Suffix(rs)) == (body, if Suffix(rs) == "" then -1 else rs[0].dest as int)
  {
    hide Start, Safe, RedirsText, GoodRedir, Holds, IsSet, SplitFd, OpChars, Operand, Upper;
    HoldsSplit(buf, i, body, RedirsText(rs));
    if rs == [] {
      assert RedirsText(rs) == "" by { EmptyRedirs(); }
      LastBody(buf, i, body);
      assert body + "" == body;
    } else {
      NextRedir(buf, i + |body|, rs);
      if Explicit(rs[0]) {
        ExplicitBody(buf, i, body, rs[0].dest);
        SplitExplicit(buf, Start(buf, NextAt(i + |body|, rs)), body, rs[0].dest);
      } else {
        DefaultBody(buf, i, body);
        assert body + "" == body;
      }
    }
  }

  lemma EmptyRedirs()
    ensures RedirsText([]) == ""
  {
  }

  predicate RedirAt(buf: string, o: nat) {
    o < |buf| && (buf[o] == '<' || buf[o] == '>') && Start(buf, o).tok.offset == o
  }

  /** Dropping the descriptor digit and the blank before it gives the text back. */
  lemma PeelDigit(body: string, d: Fd)
    requires body != [] && !IsBlank(body[|body| - 1])
    ensures var s := body + (" " + [Digit(d)]);
            s != [] && s[|s| - 1] == Digit(d) && TrimEnd(s[..|s| - 1]) == body
  {
    hide TrimEnd;
    var s := body + (" " + [Digit(d)]);
    assert s[..|s| - 1] == body + " ";
    TrimEndBlanks(body, " ");
  }

  lemma SplitExplicit(buf: string, st: St, body: string, d: Fd)
    requires InBuf(buf, st) && IsRedirKind(st.tok.kind) && st.tok.offset > 0
    requires buf[st.tok.offset - 1] == Digit(d) && body != [] && !IsBlank(body[|body| - 1])
    ensures SplitFd(buf, st, body + (" " + [Digit(d)])) == (body, d as int)
  {
    hide TrimEnd;
    PeelDigit(body, d);
    SafeDigit(d, false);
  }

  lemma ExplicitBody(buf: string, i: nat, body: string, d: Fd)
    requires Holds(buf, i, body) && Trimmed(body) && Safe(body, false, IsSet(body)) && |buf| < TOKEN_TEXT_MAX
    requires RedirAt(buf, i + |body| + 2)
    requires buf[i + |body|] == ' ' && buf[i + |body| + 1] == Digit(d)
    ensures Start(buf, i) == St(Token(Text, body + (" " + [Digit(d)]), i), i + |body| + 2)
  {
    hide Start, Safe, StartsSet, IsSet, Upper, Digit, Holds, LexCopy;
    var tail := " " + [Digit(d)];
    SetSeen(buf, i, body);
    assert tail == [' ', Digit(d)];
    HoldsTwo(buf, i + |body|, ' ', Digit(d));
    HoldsAppend(buf, i, body, tail);
    SafeDigit(d, StartsSet(buf, i));
    SafeAppend(body, tail, false, StartsSet(buf, i));
    TextToken(buf, i, body + tail, i + |body| + 2);
  }

  lemma DefaultBody(buf: string, i: nat, body: string)
    requires Holds(buf, i, body) && Trimmed(body) && Safe(body, false, IsSet(body)) && |buf| < TOKEN_TEXT_MAX
    requires RedirAt(buf, i + |body| + 1) && buf[i + |body|] == ' '
    ensures Start(buf, i) == St(Token(Text, body, i), i + |body| + 1)
    ensures SplitFd(buf, Start(buf, i + |body| + 1), body) == (body, -1)
  {
    hide Start, Safe, Holds, StartsSet, IsSet, Upper, Trimmed, TrimEnd;
    SetSeen(buf, i, body);
    TextToken(buf, i, body, i + |body| + 1);
  }

  /** The operator of the first redirection of a printed list. */
  lemma NextRedir(buf: string, j: nat, rs: seq<Redir>)
    requires rs != [] && Holds(buf, j, RedirsText(rs)) && GoodRedirs(rs)
    ensures var o := j + OpOffset(rs);
            o < |buf| && (buf[o] == '<' || buf[o] == '>') && buf[j] == ' ' &&
            buf[o - 1] == (if Explicit(rs[0]) then Digit(rs[0].dest) else ' ') &&
            Holds(buf, o, OpChars(rs[0]) + Operand(rs[0])) &&
            Holds(buf, o + |OpChars(rs[0])|, Operand(rs[0]) + RedirsText(rs[1..])) &&
            o + |OpChars(rs[0])| + |Operand(rs[0]) + RedirsText(rs[1..])| == j + |RedirsText(rs)|
    ensures var s := Start(buf, j + OpOffset(rs));
            s.tok.kind == RedirKind(rs[0]) && s.tok.offset == j + OpOffset(rs) && IsRedirKind(s.tok.kind)
  {
    hide Start, RedirsText, Holds, OpChars, Operand, FdText, RedirKind, GoodRedir;
    var r, o := rs[0], j + OpOffset(rs);
    var head, ops, tail := " " + FdText(r), OpChars(r), Operand(r) + RedirsText(rs[1..]);
    RedirTextParts(rs);
    HeadEnds(r);
    HoldsSplit(buf, j, head, ops + tail);
    HoldsSplit(buf, o, ops, tail);
    assert ops + tail == (ops + Operand(r)) + RedirsText(rs[1..]);
    HoldsSplit(buf, o, ops + Operand(r), RedirsText(rs[1..]));
    HoldsChar(buf, j, head, 0);
    HoldsChar(buf, j, head, |head| - 1);
    HoldsChar(buf, o, ops, 0);
    assert GoodRedir(r);
    OpReads(buf, o, r);
  }

  /** The shape of a redirection around its operator. */
  lemma HeadEnds(r: Redir)
    ensures var head := " " + FdText(r);
            |head| == (if Explicit(r) then 2 else 1) && head[0] == ' ' &&
            head[|head| - 1] == (if Explicit(r) then Digit(r.dest) else ' ')
    ensures OpChars(r) != "" && (OpChars(r)[0] == '<' || OpChars(r)[0] == '>') && IsRedirKind(RedirKind(r))
  {
  }

  lemma LastBody(buf: string, i: nat, body: string)
    requires Holds(buf, i, body) && Delim(buf, i + |body|)
    requires Trimmed(body) && Safe(body, false, IsSet(body)) && |buf| < TOKEN_TEXT_MAX
    requires IsSet(body) ==> CharAt(buf, i + |body|) != ')'
    ensures var s := Start(buf, i);
            s.tok == Token(Text, body, i) && Start(buf, s.pos) == Start(buf, i + |body|)
    ensures SplitFd(buf, Start(buf, i + |body|), body) == (body, -1)
  {
    hide Start, Safe, Holds, Trimmed, IsSet, Upper, StartsSet, TrimEnd;
    var j := i + |body|;
    SetSeen(buf, i, body);
    var m := if j < |buf| && buf[j] == ' ' then j + 1 else j;
    assert m < |buf| && buf[m] == ')' ==> !StartsSet(buf, i);
    TextToken(buf, i, body, m);
    StartSkips(buf, j, m);
    DelimKind(buf, j);
  }

  function PendingFd(rs: seq<Redir>): int {
    if Suffix(rs) == "" then -1 else rs[0].dest as int
  }

  /** Where the operand of the first redirection starts, for a list printed at `j`. */
  function OperandAt(j: nat, rs: seq<Redir>): nat
    requires rs != []
  {
    j + OpOffset(rs) + |OpChars(rs[0])|
  }

  /** Everything after the first redirection's operand. */
  function AfterFirst(j: nat, rs: seq<Redir>): nat
    requires rs != []
  {
    OperandAt(j, rs) + |Operand(rs[0])|
  }

  /** The state whose current token is the operand, given the operator's state. */
  function OperandSt(buf: string, st: St, r: Redir): St
    requires InBuf(buf, st)
  {
    if r.Dup? then Start(buf, Start(buf, st.pos).pos) else Start(buf, st.pos)
  }

  predicate Listed(buf: string, j: nat, rs: seq<Redir>) {
    Holds(buf, j, RedirsText(rs)) && Delim(buf, j + |RedirsText(rs)|) && GoodRedirs(rs) && |buf| < TOKEN_TEXT_MAX
  }

  lemma FirstThenRest(buf: string, j: nat, rs: seq<Redir>)
    requires rs != [] && Listed(buf, j, rs)
    ensures Listed(buf, AfterFirst(j, rs), rs[1..])
    ensures AfterFirst(j, rs) + |RedirsText(rs[1..])| == j + |RedirsText(rs)|
    ensures NextAt(AfterFirst(j, rs), rs[1..]) <= |buf| && j + |RedirsText(rs)| <= |buf|
    ensures j + OpOffset(rs) <= |buf| && OperandAt(j, rs) <= |buf|
    ensures Holds(buf, OperandAt(j, rs), Operand(rs[0]) + RedirsText(rs[1..]))
  {
    hide Start, RedirsText, GoodRedir, Holds, OpChars, Operand, RedirKind;
    NextRedir(buf, j, rs);
    HoldsSplit(buf, OperandAt(j, rs), Operand(rs[0]), RedirsText(rs[1..]));
    NextFits(buf, AfterFirst(j, rs), rs[1..]);
  }

  /** Operator, operand and what comes next, as tokens. */
  lemma OperandReads(buf: string, j: nat, rs: seq<Redir>)
    requires rs != [] && Listed(buf, j, rs)
    requires j + OpOffset(rs) <= |buf| && NextAt(AfterFirst(j, rs), rs[1..]) <= |buf|
    ensures var st := Start(buf, j + OpOffset(rs));
            var s1 := OperandSt(buf, st, rs[0]);
            var s2 := Start(buf, NextAt(AfterFirst(j, rs), rs[1..]));
            st.tok.kind == RedirKind(rs[0]) && s1.tok.kind == Text && Start(buf, s1.pos) == s2 &&
            SplitFd(buf, s2, s1.tok.text) == (Operand(rs[0]), PendingFd(rs[1..])) && s1.tok.text == Operand(rs[0]) + Suffix(rs[1..]) &&
            (rs[0].Dup? ==> Start(buf, st.pos).tok.kind == Amp)
  {
    hide Start, RedirsText, GoodRedir, SplitFd, Trimmed, Safe, Delim, Holds, IsSet, IsMeta, RedirText;
    FirstThenRest(buf, j, rs);
    NextRedir(buf, j, rs);
    OperandGood(rs);
    OpReads(buf, j + OpOffset(rs), rs[0]);
    BodyToken(buf, OperandAt(j, rs), Operand(rs[0]), rs[1..]);
  }

  /** One turn of the redirection loop reads one printed redirection. */
  lemma RedirStep(buf: string, j: nat, rs: seq<Redir>, node: Node, pending: int, command: Node)
    requires rs != [] && Listed(buf, j, rs)
    requires j + OpOffset(rs) <= |buf| && NextAt(AfterFirst(j, rs), rs[1..]) <= |buf|
    requires var st := Start(buf, j + OpOffset(rs));
             IsRedirKind(st.tok.kind) && ResolveFd(buf, st, node, pending) == (rs[0].dest as int, command)
    ensures var r := ParseRedirs(buf, Start(buf, j + OpOffset(rs)), node, pending);
            if rs[0].Dup? && rs[0].dest == 0 then r.Err?
            else r == ParseRedirs(buf, Start(buf, NextAt(AfterFirst(j, rs), rs[1..])), AddRedir(command, rs[0]), PendingFd(rs[1..]))
  {
    hide Start, ResolveFd, SplitFd, ParseRedirs, NextAt, OpOffset, AfterFirst, PendingFd, Listed;
    OperandReads(buf, j, rs);
    OperandGood(rs) by { assert GoodRedirs(rs) by { ListedGood(buf, j, rs); } }
    var st := Start(buf, j + OpOffset(rs));
    if rs[0].Dup? {
      SafeDigit(rs[0].source, false);
      UnfoldDup(buf, st, node, pending, command, rs[0]);
    } else {
      UnfoldFile(buf, st, node, pending, command, rs[0]);
    }
  }

  lemma ListedGood(buf: string, j: nat, rs: seq<Redir>)
    requires Listed(buf, j, rs)
    ensures GoodRedirs(rs)
  {
  }

  lemma UnfoldFile(buf: string, st: St, node: Node, pending: int, command: Node, r: Redir)
    requires InBuf(buf, st) && IsRedirKind(st.tok.kind) && r.File? && FileKindOf(st.tok.kind) == r.kind
    requires ResolveFd(buf, st, node, pending) == (r.dest as int, command) && FdAllowed(r.kind, r.dest)
    requires var s1 := Start(buf, st.pos);
             var s2 := Start(buf, s1.pos);
             s1.tok.kind == Text && SplitFd(buf, s2, s1.tok.text).0 == r.target && r.target != ""
    ensures var s1 := Start(buf, st.pos);
            var s2 := Start(buf, s1.pos);
            ParseRedirs(buf, st, node, pending) ==
            ParseRedirs(buf, s2, AddRedir(command, r), SplitFd(buf, s2, s1.tok.text).1)
  {
    hide Start, ResolveFd, SplitFd;
  }

  lemma UnfoldDup(buf: string, st: St, node: Node, pending: int, command: Node, r: Redir)
    requires InBuf(buf, st) && st.tok.kind == Gt && r.Dup?
    requires ResolveFd(buf, st, node, pending) == (r.dest as int, command)
    requires var s1 := Start(buf, st.pos);
             var s2 := Start(buf, s1.pos);
             var s3 := Start(buf, s2.pos);
             s1.tok.kind == Amp && s2.tok.kind == Text && SplitFd(buf, s3, s2.tok.text).0 == [Digit(r.source)]
    ensures var s1 := Start(buf, st.pos);
            var s2 := Start(buf, s1.pos);
            var s3 := Start(buf, s2.pos);
            if r.dest == 0 then ParseRedirs(buf, st, node, pending).Err?
            else ParseRedirs(buf, st, node, pending) ==
                 ParseRedirs(buf, s3, AddRedir(command, r), SplitFd(buf, s3, s2.tok.text).1)
  {
    hide Start, ResolveFd, SplitFd;
  }

  lemma OperandGood(rs: seq<Redir>)
    requires rs != [] && GoodRedirs(rs)
    ensures GoodRedir(rs[0]) && GoodRedirs(rs[1..])
    ensures var b := Operand(rs[0]); Trimmed(b) && Safe(b, false, IsSet(b)) && b != ""
    ensures !IsSet(Operand(rs[0]))
    ensures rs[0].File? ==> FdAllowed(rs[0].kind, rs[0].dest)
  {
    hide Safe;
    if rs[0].Dup? {
      SafeDigit(rs[0].source, false);
    }
  }

  lemma NextFits(buf: string, j: nat, rs: seq<Redir>)
    requires Holds(buf, j, RedirsText(rs)) && GoodRedirs(rs)
    ensures NextAt(j, rs) <= |buf|
  {
    if rs != [] {
      NextRedir(buf, j, rs);
    }
  }

  function AddRedirs(node: Node, rs: seq<Redir>): Node {
    node.(redirs := node.redirs + rs)
  }

  /** The pending digit (or its absence) resolves to the next redirection's descriptor. */
  lemma PendingResolves(buf: string, j: nat, rs: seq<Redir>, node: Node)
    requires rs != [] && Listed(buf, j, rs) && j + OpOffset(rs) <= |buf|
    ensures var st := Start(buf, j + OpOffset(rs));
            IsRedirKind(st.tok.kind) && ResolveFd(buf, st, node, PendingFd(rs)) == (rs[0].dest as int, node)
  {
    hide Start, RedirsText, GoodRedir, TrimEnd;
    NextRedir(buf, j, rs);
  }

  /** A printed redirection list is read back in order, or refused if it duplicates onto
      descriptor 0. */
  lemma {:induction false} RedirsRead(buf: string, j: nat, rs: seq<Redir>, node: Node, pending: int, command: Node)
    requires Listed(buf, j, rs) && NextAt(j, rs) <= |buf|
    requires rs == [] ==> command == node
    requires rs != [] ==>
               var st := Start(buf, j + OpOffset(rs));
               IsRedirKind(st.tok.kind) && ResolveFd(buf, st, node, pending) == (rs[0].dest as int, command)
    ensures j + |RedirsText(rs)| <= |buf|
    ensures var r := ParseRedirs(buf, Start(buf, NextAt(j, rs)), node, pending);
            if NoDupOntoZero(rs) then r == Ok(AddRedirs(command, rs), Start(buf, j + |RedirsText(rs)|))
            else r.Err?
    decreases |rs|
  {
    hide Start, ResolveFd, ParseRedirs, Listed, AfterFirst, PendingFd, RedirsText, AddRedirs, AddRedir, NoDupOntoZero;
    if rs == [] {
      NoRedirsRead(buf, j, node, pending);
    } else {
      var r, rest := rs[0], rs[1..];
      FirstThenRest(buf, j, rs);
      RedirStep(buf, j, rs, node, pending, command);
      var next := AddRedir(command, r);
      AddMore(command, rs);
      DupTail(rs);
      if rest != [] {
        PendingResolves(buf, AfterFirst(j, rs), rest, next);
      }
      if !(r.Dup? && r.dest == 0) {
        RedirsRead(buf, AfterFirst(j, rs), rest, next, PendingFd(rest), next);
      }
    }
  }

  lemma NoRedirsRead(buf: string, j: nat, node: Node, pending: int)
    requires Listed(buf, j, [])
    ensures j + |RedirsText([])| == j <= |buf| && NoDupOntoZero([])
    ensures ParseRedirs(buf, Start(buf, j), node, pending) == Ok(AddRedirs(node, []), Start(buf, j))
  {
    hide Start;
    DelimKind(buf, j);
    assert node.redirs + [] == node.redirs;
  }

  lemma AddMore(command: Node, rs: seq<Redir>)
    requires rs != []
    ensures AddRedirs(AddRedir(command, rs[0]), rs[1..]) == AddRedirs(command, rs)
  {
    assert rs == [rs[0]] + rs[1..];
    assert command.redirs + [rs[0]] + rs[1..] == command.redirs + ([rs[0]] + rs[1..]);
  }

  lemma DupTail(rs: seq<Redir>)
    requires rs != []
    ensures NoDupOntoZero(rs) == (!(rs[0].Dup? && rs[0].dest == 0) && NoDupOntoZero(rs[1..]))
  {
    if NoDupOntoZero(rs[1..]) {
      forall i | 1 <= i < |rs| ensures !(rs[i].Dup? && rs[i].dest == 0) {
        assert rs[i] == rs[1..][i - 1];
      }
    }
  }

  // ---- commands and groups --------------------------------------------------------

  /** A failed reading: an error, or a tree followed by text where nothing may follow. */
  predicate Bad(r: Result) {
    r.Err? || r.st.tok.kind == Text
  }

  /** `n` stands at `i`, followed by something a printed node may be followed by. */
  predicate Stands(buf: string, i: nat, n: Node) {
    Holds(buf, i, Print(n)) && Delim(buf, i + |Print(n)|) && |buf| < TOKEN_TEXT_MAX && WellFormed(n)
  }

  /** It is a derivation tree, and no SET in it takes a parenthesis that follows. */
  predicate Printed(buf: string, i: nat, n: Node) {
    Stands(buf, i, n) && Ladder(n) && Closed(n) && (EndsInSet(n) ==> CharAt(buf, i + |Print(n)|) != ')')
  }

  /** Reading `n` at `i` from level `k`: exactly `n`, up to the token after it, if `n` is
      readable; a failure otherwise. */
  predicate Reads(buf: string, i: nat, n: Node, k: nat)
    requires k <= 4 && i + |Print(n)| <= |buf|
  {
    var r := ParseLevel(buf, Start(buf, i), k);
    if Readable(n) then r == Ok(n, Start(buf, i + |Print(n)|)) else Bad(r)
  }

  /** Command text: one TEXT token, which the redirection loop then takes its digit from. */
  lemma TextReads(buf: string, i: nat, text: string, rs: seq<Redir>)
    requires Holds(buf, i, text + RedirsText(rs)) && Delim(buf, i + |text| + |RedirsText(rs)|)
    requires GoodText(text) && GoodRedirs(rs) && |buf| < TOKEN_TEXT_MAX
    requires rs == [] && IsSet(text) ==> CharAt(buf, i + |text|) != ')'
    ensures NextAt(i + |text|, rs) <= |buf| && Listed(buf, i + |text|, rs)
    ensures Start(buf, i).tok.kind == Text
    ensures ParseText(buf, Start(buf, i)) ==
            Ok(Simple(text + Suffix(rs), false, []), Start(buf, NextAt(i + |text|, rs)))
  {
    hide Start, Safe, RedirsText, GoodRedir, Trimmed, Holds, IsMeta, TrimEnd, OpChars, Operand, RedirText, StartsWord, SplitFd;
    HoldsSplit(buf, i, text, RedirsText(rs));
    NextFits(buf, i + |text|, rs);
    BodyToken(buf, i, text, rs);
    assert !StartsWord(text + Suffix(rs), "REM") && !StartsWord(text + Suffix(rs), "FOR") by {
      SuffixKeepsWord(text, rs, "REM");
      SuffixKeepsWord(text, rs, "FOR");
    }
    assert !IsText(buf, NextAt(i + |text|, rs)) by {
      if rs == [] { DelimKind(buf, i + |text|) by { EmptyRedirs(); } } else { NextRedir(buf, i + |text|, rs); }
    }
  }

  predicate IsText(buf: string, i: nat)
    requires i <= |buf|
  {
    Start(buf, i).tok.kind == Text
  }

  lemma SuffixKeepsWord(text: string, rs: seq<Redir>, word: string)
    requires !StartsWord(text, word) && |word| == 3 && word[0] != ' ' && word[1] != ' ' && word[2] != ' '
    requires forall k :: 0 <= k < 3 ==> Upper(word[k]) == word[k] && 'A' <= word[k] <= 'Z'
    ensures !StartsWord(text + Suffix(rs), word)
  {
  }

  /** The first descriptor digit is peeled off the command text. */
  lemma FirstResolves(buf: string, j: nat, rs: seq<Redir>, text: string, q: bool)
    requires rs != [] && Listed(buf, j, rs) && j + OpOffset(rs) <= |buf| && Trimmed(text)
    ensures var st := Start(buf, j + OpOffset(rs));
            IsRedirKind(st.tok.kind) &&
            ResolveFd(buf, st, Simple(text + Suffix(rs), q, []), -1) == (rs[0].dest as int, Simple(text, q, []))
  {
    hide Start, RedirsText, GoodRedir, TrimEnd;
    NextRedir(buf, j, rs);
    if Explicit(rs[0]) {
      PeelDigit(text, rs[0].dest);
      SafeDigit(rs[0].dest, false);
    } else {
      assert text + "" == text;
    }
  }

  /** An optional `@` before an atom. */
  lemma QuietReads(buf: string, i: nat, q: bool, s: string)
    requires Holds(buf, i, QuietText(q) + s) && s != "" && s[0] != '@' && s[0] != ' ' && s[0] != '\t' && s[0] != '\r'
    ensures var p := i + |QuietText(q)|;
            Holds(buf, p, s) && Start(buf, p).tok.kind != At &&
            (Start(buf, i).tok.kind == At) == q && SkipQuiet(buf, Start(buf, i)) == Start(buf, p)
  {
    var p := i + |QuietText(q)|;
    HoldsSplit(buf, i, QuietText(q), s);
    FirstChar(buf, p, s);
    NotQuiet(buf, p);
    if q {
      FirstChar(buf, i, "@");
      hide Start;
      StartPunct(buf, i);
    }
  }

  lemma NotQuiet(buf: string, p: nat)
    requires p < |buf| && !IsBlank(buf[p]) && buf[p] != '\r' && buf[p] != '@'
    ensures Start(buf, p).tok.kind != At
  {
    hide LexCopy, StartsSet, TextEnd;
    assert SkipSpace(buf, p) == p;
  }

  lemma SimpleReads(buf: string, i: nat, text: string, q: bool, rs: seq<Redir>)
    requires Printed(buf, i, Simple(text, q, rs))
    ensures Reads(buf, i, Simple(text, q, rs), 4)
  {
    hide Start, Safe, RedirsText, GoodRedir, Listed, ParseRedirs, ParseLevel, Stands, Ladder, Closed, Print, Delim, Holds, GoodText, GoodRedirs, ResolveFd;
    SimpleParts(buf, i, text, q, rs);
    var p := i + |QuietText(q)|;
    SimpleToRedirs(buf, i, text, q, rs);
    if rs != [] {
      FirstResolves(buf, p + |text|, rs, text, q);
    } else {
      assert text + "" == text;
    }
    RedirsRead(buf, p + |text|, rs, Simple(text + Suffix(rs), q, []), -1, Simple(text, q, []));
    assert [] + rs == rs;
  }

  lemma SimpleToRedirs(buf: string, i: nat, text: string, q: bool, rs: seq<Redir>)
    requires Printed(buf, i, Simple(text, q, rs))
    ensures var j := i + |QuietText(q)| + |text|;
            Listed(buf, j, rs) && NextAt(j, rs) <= |buf| &&
            ParseLevel(buf, Start(buf, i), 4) ==
            ParseRedirs(buf, Start(buf, NextAt(j, rs)), Simple(text + Suffix(rs), q, []), -1)
  {
    hide Start, Safe, RedirsText, GoodRedir, Listed, ParseText, ParseRedirs, SkipQuiet, ParseLevel, Stands, Ladder, Closed, Print, Delim, Holds, GoodText, GoodRedirs, Suffix, NextAt, IsSet, Trimmed, CharAt, StartsSet, QuietText;
    SimpleParts(buf, i, text, q, rs);
    var p := i + |QuietText(q)|;
    GoodTextStarts(text, RedirsText(rs));
    QuietReads(buf, i, q, text + RedirsText(rs));
    TextReads(buf, p, text, rs);
    SimpleCommand(buf, i, q, p, text + Suffix(rs), NextAt(p + |text|, rs));
  }

  lemma SimpleParts(buf: string, i: nat, text: string, q: bool, rs: seq<Redir>)
    requires Stands(buf, i, Simple(text, q, rs))
    ensures var p := i + |QuietText(q)|;
            Holds(buf, i, QuietText(q) + (text + RedirsText(rs))) && Holds(buf, p, text + RedirsText(rs)) &&
            Delim(buf, p + |text| + |RedirsText(rs)|) && GoodText(text) && GoodRedirs(rs) && |buf| < TOKEN_TEXT_MAX &&
            Trimmed(text) && (Printed(buf, i, Simple(text, q, rs)) && rs == [] && IsSet(text) ==> CharAt(buf, p + |text|) != ')') &&
            i + |Print(Simple(text, q, rs))| == p + |text| + |RedirsText(rs)|
  {
    hide Safe, RedirsText, GoodRedir, Delim;
    var body := text + RedirsText(rs);
    assert Print(Simple(text, q, rs)) == QuietText(q) + body;
    HoldsSplit(buf, i, QuietText(q), body);
    if rs == [] { EmptyRedirs(); }
  }

  lemma SimpleCommand(buf: string, i: nat, q: bool, p: nat, text: string, next: nat)
    requires i <= |buf| && p <= |buf| && next <= |buf|
    requires (Start(buf, i).tok.kind == At) == q && SkipQuiet(buf, Start(buf, i)) == Start(buf, p)
    requires Start(buf, p).tok.kind == Text
    requires ParseText(buf, Start(buf, p)) == Ok(Simple(text, false, []), Start(buf, next))
    ensures ParseLevel(buf, Start(buf, i), 4) == ParseRedirs(buf, Start(buf, next), Simple(text, q, []), -1)
  {
    hide Start, ParseText, ParseRedirs, SkipQuiet;
    assert ParseCommand(buf, Start(buf, i)) == Ok(Simple(text, q, []), Start(buf, next));
  }

  lemma GoodTextStarts(text: string, more: string)
    requires GoodText(text)
    ensures text != "" && text + more != "" && (text + more)[0] == text[0]
    ensures text[0] != '@' && text[0] != ' ' && text[0] != '\t' && text[0] != '\r' && text[0] != '('
  {
  }

  lemma GroupStands(buf: string, i: nat, c: Node, q: bool, rs: seq<Redir>)
    requires Stands(buf, i, Group(c, q, rs))
    ensures var p := i + |QuietText(q)|;
            var e := p + 1 + |Print(c)|;
            Holds(buf, i, QuietText(q) + ("(" + Print(c) + ")" + RedirsText(rs))) &&
            p < e < |buf| && buf[p] == '(' && buf[e] == ')' && Stands(buf, p + 1, c) && Listed(buf, e + 1, rs) &&
            i + |Print(Group(c, q, rs))| == e + 1 + |RedirsText(rs)|
  {
    hide Start, RedirsText, GoodRedirs, EndsInSet, Print, WellFormed, Holds;
    GroupUnfold(c, q, rs);
    var p := i + |QuietText(q)|;
    var e := p + 1 + |Print(c)|;
    var body := "(" + Print(c) + ")" + RedirsText(rs);
    HoldsSplit(buf, i, QuietText(q), body);
    HoldsSplit(buf, p, "(" + Print(c) + ")", RedirsText(rs));
    HoldsSplit(buf, p, "(" + Print(c), ")");
    HoldsSplit(buf, p, "(", Print(c));
    FirstChar(buf, p, "(");
    FirstChar(buf, e, ")");
  }

  lemma GroupParts(buf: string, i: nat, c: Node, q: bool, rs: seq<Redir>)
    requires Printed(buf, i, Group(c, q, rs))
    ensures var p := i + |QuietText(q)|;
            var e := p + 1 + |Print(c)|;
            Holds(buf, i, QuietText(q) + ("(" + Print(c) + ")" + RedirsText(rs))) &&
            p < e < |buf| && buf[p] == '(' && buf[e] == ')' && Printed(buf, p + 1, c) && Listed(buf, e + 1, rs) &&
            i + |Print(Group(c, q, rs))| == e + 1 + |RedirsText(rs)|
  {
    hide Start, RedirsText, GoodRedirs, EndsInSet, Print, Ladder, WellFormed, Closed, Holds, Stands;
    GroupUnfold(c, q, rs);
    GroupStands(buf, i, c, q, rs);
  }

  lemma GroupUnfold(c: Node, q: bool, rs: seq<Redir>)
    ensures Print(Group(c, q, rs)) == QuietText(q) + ("(" + Print(c) + ")" + RedirsText(rs))
    ensures Ladder(Group(c, q, rs)) == Ladder(c)
    ensures WellFormed(Group(c, q, rs)) == (WellFormed(c) && GoodRedirs(rs))
    ensures Closed(Group(c, q, rs)) == (Closed(c) && !EndsInSet(c))
  {
    hide RedirsText, GoodRedirs;
  }

  lemma GroupCommand(buf: string, i: nat, q: bool, p: nat, c: Node, e: nat)
    requires i <= |buf| && p < e < |buf| && buf[p] == '(' && buf[e] == ')'
    requires (Start(buf, i).tok.kind == At) == q && SkipQuiet(buf, Start(buf, i)) == Start(buf, p)
    ensures ParseLevel(buf, Start(buf, p + 1), 0) == Ok(c, Start(buf, e)) ==>
              ParseLevel(buf, Start(buf, i), 4) == ParseRedirs(buf, Start(buf, e + 1), Group(c, q, []), -1)
    ensures Bad(ParseLevel(buf, Start(buf, p + 1), 0)) ==> ParseLevel(buf, Start(buf, i), 4).Err?
  {
    hide Start, ParseRedirs, SkipQuiet, ParseLevel, ParseCommand;
    StartPunct(buf, p);
    StartPunct(buf, e);
    GroupParses(buf, i, q, p, c, e);
    CommandThenRedirs(buf, Start(buf, i));
  }

  lemma CommandThenRedirs(buf: string, st: St)
    requires InBuf(buf, st)
    ensures ParseLevel(buf, st, 4) ==
            match ParseCommand(buf, st)
            case Err(m, o) => Err(m, o)
            case Ok(n, t) => ParseRedirs(buf, t, n, -1)
  {
    hide ParseCommand, ParseRedirs;
  }

  lemma GroupParses(buf: string, i: nat, q: bool, p: nat, c: Node, e: nat)
    requires i <= |buf| && p < e < |buf|
    requires Start(buf, p) == St(Token(LParen, "", p), p + 1) && Start(buf, e) == St(Token(RParen, "", e), e + 1)
    requires (Start(buf, i).tok.kind == At) == q && SkipQuiet(buf, Start(buf, i)) == Start(buf, p)
    ensures ParseLevel(buf, Start(buf, p + 1), 0) == Ok(c, Start(buf, e)) ==>
              ParseCommand(buf, Start(buf, i)) == Ok(Group(c, q, []), Start(buf, e + 1))
    ensures Bad(ParseLevel(buf, Start(buf, p + 1), 0)) ==> ParseCommand(buf, Start(buf, i)).Err?
  {
    hide Start, ParseLevel, SkipQuiet;
  }

  lemma GroupRedirs(buf: string, j: nat, rs: seq<Redir>, c: Node, q: bool)
    requires Listed(buf, j, rs) && j <= |buf|
    ensures j + |RedirsText(rs)| <= |buf|
    ensures var r := ParseRedirs(buf, Start(buf, j), Group(c, q, []), -1);
            if NoDupOntoZero(rs) && (rs == [] || !Explicit(rs[0])) then
              r == Ok(Group(c, q, rs), Start(buf, j + |RedirsText(rs)|))
            else Bad(r)
  {
    hide Start, ResolveFd, ParseRedirs, Listed, RedirsText;
    var g := Group(c, q, []);
    assert [] + rs == rs;
    if rs == [] {
      RedirsRead(buf, j, rs, g, -1, g);
    } else if Explicit(rs[0]) {
      DigitIsText(buf, j, rs);
      NotARedir(buf, Start(buf, j), g);
      FirstThenRest(buf, j, rs);
    } else {
      BlankBeforeOp(buf, j, rs, g);
      RedirsRead(buf, j, rs, g, -1, g);
    }
  }

  lemma NotARedir(buf: string, st: St, node: Node)
    requires InBuf(buf, st) && st.tok.kind == Text
    ensures ParseRedirs(buf, st, node, -1) == Ok(node, st)
  {
  }

  lemma DigitIsText(buf: string, j: nat, rs: seq<Redir>)
    requires rs != [] && Explicit(rs[0]) && Listed(buf, j, rs) && j <= |buf|
    ensures Start(buf, j).tok.kind == Text
  {
    hide Start, RedirsText, GoodRedir;
    NextRedir(buf, j, rs);
    StartSkips(buf, j, j + 1);
    SafeDigit(rs[0].dest, false);
    StartText(buf, j + 1);
  }

  lemma BlankBeforeOp(buf: string, j: nat, rs: seq<Redir>, g: Node)
    requires rs != [] && !Explicit(rs[0]) && Listed(buf, j, rs) && g.Group?
    ensures NextAt(j, rs) <= |buf|
    ensures var st := Start(buf, NextAt(j, rs));
            Start(buf, j) == st && IsRedirKind(st.tok.kind) && ResolveFd(buf, st, g, -1) == (rs[0].dest as int, g)
  {
    hide Start, RedirsText, GoodRedir;
    NextRedir(buf, j, rs);
    StartSkips(buf, j, j + 1);
  }

  // ---- the operator ladder ----------------------------------------------------------

  /** The token after `n` is no operator of level `k` or tighter. */
  predicate StopsAt(buf: string, i: nat, n: Node, k: nat)
    requires i + |Print(n)| <= |buf|
  {
    forall l :: k <= l < 4 ==> Start(buf, i + |Print(n)|).tok.kind != KindOfLevel(l)
  }

  lemma GroupReads(buf: string, i: nat, c: Node, q: bool, rs: seq<Redir>)
    requires Printed(buf, i, Group(c, q, rs)) && i + |Print(Group(c, q, rs))| <= |buf|
    requires i + |QuietText(q)| + 1 + |Print(c)| <= |buf|
    requires Reads(buf, i + |QuietText(q)| + 1, c, 0)
    ensures Reads(buf, i, Group(c, q, rs), 4)
  {
    hide Start, RedirsText, Listed, ParseRedirs, ParseLevel, Printed, Print, Holds, SkipQuiet;
    GroupParts(buf, i, c, q, rs);
    var p := i + |QuietText(q)|;
    var e := p + 1 + |Print(c)|;
    QuietReads(buf, i, q, "(" + Print(c) + ")" + RedirsText(rs));
    GroupCommand(buf, i, q, p, c, e);
    GroupRedirs(buf, e + 1, rs, c, q);
  }

  lemma BinaryStands(buf: string, i: nat, op: Op, l: Node, r: Node)
    requires Stands(buf, i, Binary(op, l, r, false, []))
    ensures var j := i + |Print(l)|;
            var a := j + |OpText(op)|;
            Stands(buf, i, l) && Holds(buf, j, OpText(op)) && Stands(buf, a, r) &&
            a + |Print(r)| == i + |Print(Binary(op, l, r, false, []))| && j < |buf| && buf[j] == ' '
  {
    hide Start, Print, WellFormed, Holds, EndsInSet;
    BinaryUnfold(op, l, r);
    var j := i + |Print(l)|;
    HoldsSplit(buf, i, Print(l) + OpText(op), Print(r));
    HoldsSplit(buf, i, Print(l), OpText(op));
    FirstChar(buf, j, OpText(op));
    OpToken(buf, j, op);
  }

  lemma BinaryParts(buf: string, i: nat, op: Op, l: Node, r: Node)
    requires Printed(buf, i, Binary(op, l, r, false, []))
    ensures var j := i + |Print(l)|;
            var a := j + |OpText(op)|;
            Printed(buf, i, l) && Holds(buf, j, OpText(op)) && Printed(buf, a, r) &&
            a + |Print(r)| == i + |Print(Binary(op, l, r, false, []))| &&
            Level(l) >= OpLevel(op) && Level(r) > OpLevel(op)
  {
    hide Start, Print, Ladder, WellFormed, Closed, Holds, EndsInSet, Stands;
    BinaryUnfold(op, l, r);
    BinaryStands(buf, i, op, l, r);
  }

  lemma BinaryUnfold(op: Op, l: Node, r: Node)
    ensures var n := Binary(op, l, r, false, []);
            Print(n) == Print(l) + OpText(op) + Print(r) &&
            Ladder(n) == (Ladder(l) && Ladder(r) && Level(l) >= OpLevel(op) && Level(r) > OpLevel(op)) &&
            WellFormed(n) == (WellFormed(l) && WellFormed(r)) && Closed(n) == (Closed(l) && Closed(r)) &&
            EndsInSet(n) == EndsInSet(r) && Readable(n) == (Readable(l) && Readable(r))
  {
  }

  /** Reading stops where no operator of this level follows. */
  lemma {:induction false} ReadsAt(buf: string, i: nat, n: Node, k: nat)
    requires Printed(buf, i, n) && k <= 4 && k <= Level(n)
    requires i + |Print(n)| <= |buf| && StopsAt(buf, i, n, k)
    ensures Reads(buf, i, n, k)
    decreases n, 2 * (4 - k) + 1
  {
    hide Start, ParseLevel, ParseRedirs, Print, Holds, Delim, Readable;
    if k == 4 {
      AtomReads(buf, i, n);
    } else {
      Spine(buf, i, n, k);
      assert Start(buf, i + |Print(n)|).tok.kind != KindOfLevel(k);
    }
  }

  lemma {:induction false} AtomReads(buf: string, i: nat, n: Node)
    requires Printed(buf, i, n) && Level(n) == 4 && i + |Print(n)| <= |buf|
    ensures Reads(buf, i, n, 4)
    decreases n, 0
  {
    hide Start, ParseLevel, ParseRedirs, Print, Holds, Delim, Readable, Reads;
    if n.Simple? {
      SimpleReads(buf, i, n.text, n.quiet, n.redirs);
    } else {
      GroupParts(buf, i, n.child, n.quiet, n.redirs);
      var p := i + |QuietText(n.quiet)| + 1;
      StartPunct(buf, p + |Print(n.child)|);
      ReadsAt(buf, p, n.child, 0);
      GroupReads(buf, i, n.child, n.quiet, n.redirs);
    }
  }

  /** What the level-`k` parser has in hand once it has read `n`. */
  predicate SpineRead(buf: string, i: nat, n: Node, k: nat)
    requires k < 4 && i + |Print(n)| <= |buf|
  {
    var r := ParseLevel(buf, Start(buf, i), k);
    if Readable(n) then r == ParseTail(buf, Start(buf, i + |Print(n)|), k, n) else Bad(r)
  }

  /** Along the left spine: reading `n` at level `k` leaves the operator loop with `n` built. */
  lemma {:induction false} Spine(buf: string, i: nat, n: Node, k: nat)
    requires Printed(buf, i, n) && k < 4 && k <= Level(n)
    requires i + |Print(n)| <= |buf| && StopsAt(buf, i, n, k + 1)
    ensures SpineRead(buf, i, n, k)
    decreases n, 2 * (4 - k)
  {
    hide Start, ParseLevel, ParseTail, ParseRedirs, Print, Holds, Delim, Readable, Reads, SpineRead;
    if Level(n) > k {
      ReadsAt(buf, i, n, k + 1);
      SpineStarts(buf, i, n, k);
    } else {
      var j := i + |Print(n.left)|;
      var a := j + |OpText(n.op)|;
      assert n == Binary(n.op, n.left, n.right, false, []);
      BinaryParts(buf, i, n.op, n.left, n.right);
      OpToken(buf, j, n.op);
      Spine(buf, i, n.left, k);
      ReadsAt(buf, a, n.right, k + 1);
      SpineGrows(buf, i, n.op, n.left, n.right);
    }
  }

  lemma SpineStarts(buf: string, i: nat, n: Node, k: nat)
    requires k < 4 && i + |Print(n)| <= |buf| && Reads(buf, i, n, k + 1)
    ensures SpineRead(buf, i, n, k)
  {
    hide Start, ParseRedirs, Print, Readable;
    var r := ParseLevel(buf, Start(buf, i), k + 1);
    if r.Ok? && r.st.tok.kind == Text {
      assert ParseTail(buf, r.st, k, r.node) == r;
    }
  }

  lemma SpineGrows(buf: string, i: nat, op: Op, l: Node, r: Node)
    requires var j := i + |Print(l)|;
             var a := j + |OpText(op)|;
             a + |Print(r)| <= |buf| && Holds(buf, j, OpText(op)) &&
             SpineRead(buf, i, l, OpLevel(op)) && Reads(buf, a, r, OpLevel(op) + 1)
    requires i + |Print(l)| + |OpText(op)| + |Print(r)| == i + |Print(Binary(op, l, r, false, []))|
    ensures SpineRead(buf, i, Binary(op, l, r, false, []), OpLevel(op))
  {
    hide Start, ParseLevel, ParseRedirs, Print, Readable, Holds;
    BinaryUnfold(op, l, r);
    OpToken(buf, i + |Print(l)|, op);
    var k := OpLevel(op);
    var right := ParseLevel(buf, Start(buf, i + |Print(l)| + |OpText(op)|), k + 1);
    assert OpOfLevel(k) == op;
    if right.Ok? && right.st.tok.kind == Text {
      var n := Binary(op, l, right.node, false, []);
      assert ParseTail(buf, right.st, k, n) == Ok(n, right.st);
    }
  }

  // ---- the whole line -----------------------------------------------------------------

  /** Parsing is exact on the grammar's notation: the text of every well-formed derivation
      tree that fits the line buffer parses to that very tree, unless the tree duplicates
      onto descriptor 0 or starts a group's redirections with a descriptor digit, in which
      case it is rejected. */
  lemma ClosedReads(n: Node)
    requires Ladder(n) && WellFormed(n) && Closed(n) && |Print(n)| < TOKEN_TEXT_MAX
    ensures if Readable(n) then Parse(Print(n)) == Parsed(n) else Parse(Print(n)).Failed?
  {
    hide Start, ParseLevel, Print, Readable, WellFormed, Ladder, EndsInSet;
    var buf := Print(n);
    assert buf[0..0 + |buf|] == buf;
    PrintVisible(n);
    NotEol(buf);
    EndKind(buf);
    assert Printed(buf, 0, n);
    ReadsAt(buf, 0, n, 0);
  }

  lemma EndKind(buf: string)
    ensures Start(buf, |buf|) == St(Token(Eol, "", |buf|), |buf|)
  {
  }

  predicate Visible(s: string) {
    s != "" && !IsBlank(s[0]) && s[0] != '\r' && s[0] != '\n'
  }

  /** A well-formed tree does not print as an empty line. */
  lemma {:induction false} PrintVisible(n: Node)
    requires WellFormed(n)
    ensures Visible(Print(n))
  {
    hide RedirsText, GoodRedirs, Safe;
    match n
    case Simple(text, q, rs) => GoodTextVisible(text);
    case Group(c, q, rs) =>
    case Binary(op, l, r, _, _) => PrintVisible(l);
  }

  lemma GoodTextVisible(text: string)
    requires GoodText(text)
    ensures Visible(text)
  {
  }

  lemma NotEol(s: string)
    requires Visible(s)
    ensures Start(s, 0).tok.kind != Eol
  {
    hide LexCopy, StartsSet, TextEnd;
    assert SkipSpace(s, 0) == 0;
  }
}

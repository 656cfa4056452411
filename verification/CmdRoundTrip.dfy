/** Printing a command tree and parsing the text again. */
module CmdRoundTrip {
  import opened Letters
  import opened CmdLexer
  import opened CmdTree
  import opened CmdParser
  import opened CmdTokens
  import opened CmdPrinted
  import opened CmdBalance
  import opened CmdTargets

  // ---- printing ------------------------------------------------------------------------

  /** Parsing is exact on the grammar's notation: the text of every well-formed derivation
      tree that fits the line buffer parses to that very tree, unless the tree duplicates
      onto descriptor 0, starts a group's redirections with a descriptor digit, or ends a
      group with a SET, in which case it is rejected. */
  lemma ParsePrinted(n: Node)
    requires Ladder(n) && WellFormed(n) && |Print(n)| < TOKEN_TEXT_MAX
    ensures if Readable(n) && Closed(n) then Parse(Print(n)) == Parsed(n) else Parse(Print(n)).Failed?
  {
    hide Print, Readable, WellFormed, Ladder, Closed, Parse;
    if Closed(n) {
      ClosedReads(n);
    } else {
      UnclosedFails(n);
    }
  }

  /** The notation is unambiguous. */
  lemma PrintUnambiguous(n: Node, m: Node)
    requires Ladder(n) && WellFormed(n) && Readable(n) && Closed(n) && |Print(n)| < TOKEN_TEXT_MAX
    requires Ladder(m) && WellFormed(m) && Readable(m) && Closed(m) && Print(m) == Print(n)
    ensures m == n
  {
    hide Print, Readable, WellFormed, Ladder, Parse, Closed;
    ParsePrinted(n);
    ParsePrinted(m);
  }

  // ---- rendering ------------------------------------------------------------------------

  lemma {:induction false} RenderIsPrint(n: Node)
    ensures Render(n) == Print(Canon(n)) && Ladder(Canon(n)) && Level(Canon(n)) == 4
  {
    hide RedirsText, CanonRedirs;
    match n
    case Simple(_, _, _) =>
      assert QuietText(n.quiet) + n.text + RedirsText(CanonRedirs(n.redirs)) == Render(n);
    case Group(c, q, rs) =>
      RenderIsPrint(c);
      assert QuietText(q) + ("(" + Render(c) + ")") + RedirsText(CanonRedirs(rs)) ==
             QuietText(q) + "(" + Render(c) + ")" + RedirsText(CanonRedirs(rs));
    case Binary(op, l, r, q, rs) =>
      RenderIsPrint(l);
      RenderIsPrint(r);
      var inner := Print(Binary(op, Canon(l), Canon(r), false, []));
      assert inner == Render(l) + OpText(op) + Render(r);
      RenderBinary(op, Render(l), Render(r), q, RedirsText(CanonRedirs(rs)));
  }

  lemma RenderBinary(op: Op, l: string, r: string, q: bool, rest: string)
    ensures QuietText(q) + ("(" + l + OpText(op) + r + ")") + rest == QuietText(q) + "(" + (l + OpText(op) + r) + ")" + rest
  {
    assert "(" + l + OpText(op) + r + ")" == "(" + (l + OpText(op) + r) + ")";
  }

  /** Quoting a target that has blanks leaves the file it names exactly if it was not quoted and
      did not begin with a blank. */
  predicate Kept(r: Redir) {
    r.File? && HasBlank(r.target) ==> FileName(r.target) == r.target
  }

  predicate TargetsKept(n: Node) {
    (forall i :: 0 <= i < |n.redirs| ==> Kept(n.redirs[i])) &&
    match n
    case Simple(_, _, _) => true
    case Group(c, _, _) => TargetsKept(c)
    case Binary(_, l, r, _, _) => TargetsKept(l) && TargetsKept(r)
  }

  lemma QuotedName(target: string)
    ensures FileName(TargetText(target)) == if HasBlank(target) then target else FileName(target)
  {
    if HasBlank(target) {
      var t := "\"" + target + "\"";
      assert TrimLeft(t) == t && t[1..|t| - 1] == target;
    }
  }

  lemma {:induction false} CanonNames(rs: seq<Redir>)
    ensures NamedRedirs(CanonRedirs(rs)) == NamedRedirs(rs) <==> forall i :: 0 <= i < |rs| ==> Kept(rs[i])
    decreases |rs|
  {
    if rs != [] {
      var rest := rs[1..];
      assert forall i :: 0 <= i < |rest| ==> rest[i] == rs[i + 1];
      CanonNames(rest);
      if rs[0].File? {
        QuotedName(rs[0].target);
      }
      var a, b := NamedRedirs(CanonRedirs(rs)), NamedRedirs(rs);
      assert a[1..] == NamedRedirs(CanonRedirs(rest)) && b[1..] == NamedRedirs(rest);
      assert a == [a[0]] + a[1..] && b == [b[0]] + b[1..];
      assert a[0] == b[0] <==> Kept(rs[0]);
      if forall i :: 0 <= i < |rest| ==> Kept(rest[i]) {
        assert forall i :: 1 <= i < |rs| ==> rs[i] == rest[i - 1];
      }
    }
  }

  /** Rendering only adds plain groups and quotes; the quotes change the meaning exactly where a
      target with a blank already carried some, or began with a blank. */
  lemma {:induction false} CanonMeans(n: Node)
    requires PlainBinaries(n)
    ensures Meaning(Canon(n)) == Meaning(n) <==> TargetsKept(n)
  {
    hide NamedRedirs, CanonRedirs, Kept;
    CanonNames(n.redirs);
    match n
    case Simple(_, _, _) =>
    case Group(c, q, rs) =>
      CanonMeans(c);
    case Binary(op, l, r, q, rs) =>
      CanonMeans(l);
      CanonMeans(r);
      assert CanonRedirs([]) == [] && NamedRedirs([]) == [] by { NoCanon(); }
  }

  lemma NoCanon()
    ensures CanonRedirs([]) == [] && NamedRedirs([]) == []
  {
  }

  /** The round trip: a worker shell parses a rendered command into the tree that rendering
      denotes exactly when that tree is readable and closes its groups and every target stands
      the quotes put around it. If every target does, it refuses all other renderings; if one
      does not, it may run something else (`QuotedTargetRuns`). The tree that rendering denotes
      means what the command meant exactly when no target with a blank is quoted already or
      begins with a blank. */
  lemma RoundTrip(n: Node)
    requires PlainBinaries(n) && Fair(n) && |Render(n)| < TOKEN_TEXT_MAX
    ensures Parse(Render(n)) == Parsed(Canon(n)) <==> Readable(Canon(n)) && Closed(Canon(n)) && Requotes(n)
    ensures Requotes(n) && !(Readable(Canon(n)) && Closed(Canon(n))) ==> Parse(Render(n)).Failed?
    ensures Meaning(Canon(n)) == Meaning(n) <==> TargetsKept(n)
  {
    hide Render, Print, Canon, Readable, Closed, WellFormed, Fair, Ladder, Parse, Meaning, TargetsKept, KemptTree, Requotes;
    RenderIsPrint(n);
    CanonMeans(n);
    CanonQuoted(n);
    if Requotes(n) {
      ParsePrinted(Canon(n));
    } else if Parse(Render(n)) == Parsed(Canon(n)) {
      ParsedKempt(Render(n), Canon(n));
    }
  }

  // ---- commands that the round trip loses ---------------------------------------------------------

  /** A SET command directly before a closing parenthesis takes the parenthesis into its
      value, so its group never closes. */
  lemma SetSwallowsParen(text: string)
    requires GoodText(text) && IsSet(text) && |text| + 2 < TOKEN_TEXT_MAX
    ensures Parse("(" + text + ")") == Failed(SYNTAX, |text| + 2)
  {
    hide Start, Safe, StartsWord, ParseText;
    var buf := "(" + text + ")";
    var s := text + ")";
    assert buf[0] == '(' && buf == "(" + s && buf[1..1 + |s|] == s;
    forall k | 0 <= k < |s| ensures CharAt(buf, 1 + k) == s[k] {}
    assert StartsSet(buf, 1) by {
      assert CharAt(buf, 1 + 0) == text[0] && CharAt(buf, 1 + 1) == text[1] && CharAt(buf, 1 + 2) == text[2] && CharAt(buf, 1 + 3) == text[3];
    }
    assert Safe(")", false, true) by { CloseIsLiteral(); }
    SafeAppend(text, ")", false, true);
    TextToken(buf, 1, s, |buf|);
    StartPunct(buf, 0);
    EndKind(buf);
    SetTextReads(buf, text);
    var t := St(Token(Eol, "", |buf|), |buf|);
    assert SkipQuiet(buf, Start(buf, 0)) == Start(buf, 0);
    assert SkipQuiet(buf, Start(buf, 1)) == Start(buf, 1);
    assert ParseCommand(buf, Start(buf, 1)) == Ok(Simple(s, false, []), t);
    Unclosed(buf, Simple(s, false, []));
  }

  lemma CloseIsLiteral()
    ensures Safe(")", false, true)
  {
    assert ")"[1..] == [];
  }

  lemma SetTextReads(buf: string, text: string)
    requires |buf| == |text| + 2 && GoodText(text) && IsSet(text)
    requires Start(buf, 1) == St(Token(Text, text + ")", 1), |buf|)
    ensures ParseText(buf, Start(buf, 1)) == Ok(Simple(text + ")", false, []), St(Token(Eol, "", |buf|), |buf|))
  {
    hide Start, Safe;
    EndKind(buf);
    var s := text + ")";
    assert s[0] == text[0] && s[1] == text[1] && s[2] == text[2];
  }

  /** A command that no operator follows is the whole phrase. */
  lemma {:induction false} Alone(buf: string, s: St, n: Node, t: St, k: nat)
    requires InBuf(buf, s) && k <= 4 && (t.tok.kind == Eol || t.tok.kind == RParen)
    requires ParseLevel(buf, s, 4) == Ok(n, t)
    ensures ParseLevel(buf, s, k) == Ok(n, t)
    decreases 4 - k
  {
    hide Start, ParseCommand, ParseRedirs;
    if k < 4 {
      Alone(buf, s, n, t, k + 1);
    }
  }

  lemma CommandLast(buf: string, s: St, n: Node, t: St)
    requires InBuf(buf, s) && ParseCommand(buf, s) == Ok(n, t) && !IsRedirKind(t.tok.kind)
    ensures ParseLevel(buf, s, 4) == Ok(n, t)
  {
    hide Start, ParseCommand;
  }

  lemma {:induction false} LevelFails(buf: string, s: St, k: nat)
    requires InBuf(buf, s) && k <= 4 && ParseCommand(buf, s).Err?
    ensures ParseLevel(buf, s, k) == ParseCommand(buf, s)
    decreases 4 - k
  {
    hide Start, ParseCommand;
    if k < 4 {
      LevelFails(buf, s, k + 1);
    }
  }

  lemma OpenGroupFails(buf: string, n: Node)
    requires |buf| >= 1 && Start(buf, 0) == St(Token(LParen, "", 0), 1)
    requires ParseLevel(buf, Start(buf, 1), 0) == Ok(n, St(Token(Eol, "", |buf|), |buf|))
    ensures ParseCommand(buf, Start(buf, 0)) == Err(SYNTAX, |buf|)
  {
    hide Start, ParseLevel;
    assert SkipQuiet(buf, Start(buf, 0)) == Start(buf, 0);
  }

  lemma Unclosed(buf: string, n: Node)
    requires |buf| >= 1 && Start(buf, 0) == St(Token(LParen, "", 0), 1)
    requires ParseCommand(buf, Start(buf, 1)) == Ok(n, St(Token(Eol, "", |buf|), |buf|))
    ensures Parse(buf) == Failed(SYNTAX, |buf|)
  {
    hide Start, ParseLevel, ParseCommand;
    var t := St(Token(Eol, "", |buf|), |buf|);
    assert ParseLevel(buf, Start(buf, 1), 4) == Ok(n, t) by { CommandLast(buf, Start(buf, 1), n, t); }
    Alone(buf, Start(buf, 1), n, t, 0);
    OpenGroupFails(buf, n);
    LevelFails(buf, Start(buf, 0), 0);
  }

  lemma ShortText(buf: string, i: nat, s: string)
    requires Holds(buf, i, s) && Trimmed(s) && Safe(s, false, false) && |s| < TOKEN_TEXT_MAX
    requires i + |s| == |buf| || IsMeta(buf[i + |s|], false, StartsSet(buf, i))
    ensures Start(buf, i) == St(Token(Text, s, i), i + |s|)
  {
    hide Start, Safe, Trimmed, StartsSet, IsMeta, IsBlank;
    SafeLiteral(s, false);
    TextToken(buf, i, s, i + |s|);
  }

  lemma OneLetter(c: char)
    requires !IsBlank(c) && c != '\r' && c != '\n' && c != '"' && c != '\0' && !IsMeta(c, false, false)
    ensures Trimmed([c]) && Safe([c], false, false) && Safe([' ', c], false, false)
  {
    assert [c][1..] == [] && [' ', c][1..] == [c];
  }

  lemma LetterGood(c: char)
    requires 'a' <= c <= 'z'
    ensures GoodText([c])
  {
    OneLetter(c);
  }

  /** A command whose tokens are all there is. */
  lemma CommandLine(buf: string, n: Node)
    requires Start(buf, 0).tok.kind != Eol
    requires ParseLevel(buf, Start(buf, 0), 4) == Ok(n, St(Token(Eol, "", |buf|), |buf|))
    ensures Parse(buf) == Parsed(n)
  {
    hide Start, ParseLevel, Parse;
    var t := St(Token(Eol, "", |buf|), |buf|);
    Alone(buf, Start(buf, 0), n, t, 0);
    WholeLine(buf, n, t);
  }

  lemma WholeLine(buf: string, n: Node, t: St)
    requires Start(buf, 0).tok.kind != Eol && ParseLevel(buf, Start(buf, 0), 0) == Ok(n, t) && t.tok.kind == Eol
    ensures Parse(buf) == Parsed(n)
  {
    hide Start, ParseLevel;
  }

  /** The parser accepts a duplication onto descriptor 0 after `<`; its rendering, which always
      writes `>&`, is refused. */
  lemma DupOntoZeroLost()
    ensures var n := Simple("x", false, [Dup(0, 1)]);
            Parse("x 0<&1") == Parsed(n) && Parse(Render(n)).Failed?
  {
    var n := Simple("x", false, [Dup(0, 1)]);
    DupOntoZeroParses();
    hide Parse, Start, Safe, Trimmed, WellFormed, Fair, Requotes, Readable, Closed, Render, Meaning, TargetsKept;
    DupOntoZeroRender();
    WellFormedFair(n);
    RoundTrip(n);
  }

  lemma DupOntoZeroRender()
    ensures var n := Simple("x", false, [Dup(0, 1)]);
            PlainBinaries(n) && WellFormed(n) && Requotes(n) && !Readable(Canon(n)) && |Render(n)| < TOKEN_TEXT_MAX
  {
    LetterGood('x');
    var rs := [Dup(0, 1)];
    assert rs[1..] == [] && CanonRedirs(rs) == rs;
    assert rs[0].Dup? && rs[0].dest == 0;
  }

  lemma DupOntoZeroParses()
    ensures Parse("x 0<&1") == Parsed(Simple("x", false, [Dup(0, 1)]))
  {
    hide Start, Safe, Trimmed, StartsSet, StartsWord;
    var buf := "x 0<&1";
    OneLetter('0');
    OneLetter('1');
    OneLetter('x');
    TwoLetters();
    assert Holds(buf, 0, "x 0") && Holds(buf, 5, "1");
    ShortText(buf, 0, "x 0");
    StartPunct(buf, 3);
    StartPunct(buf, 4);
    ShortText(buf, 5, "1");
    EndKind(buf);
    assert !StartsWord("x 0", "REM") && !StartsWord("x 0", "FOR") by { NoWord("x 0"); }
    var st := Start(buf, 0);
    assert ParseText(buf, st) == Ok(Simple("x 0", false, []), Start(buf, 3));
    assert ParseCommand(buf, st) == Ok(Simple("x 0", false, []), Start(buf, 3));
    DupOntoZeroTurn(buf);
    CommandLine(buf, Simple("x", false, [Dup(0, 1)]));
  }

  lemma TwoLetters()
    ensures Safe("x 0", false, false) && Trimmed("x 0")
  {
    OneLetter('x');
    OneLetter('0');
    SafeAppend("x", " 0", false, false);
    assert "x" + " 0" == "x 0";
  }

  lemma NoWord(s: string)
    requires s != "" && Upper(s[0]) != 'R' && Upper(s[0]) != 'F'
    ensures !StartsWord(s, "REM") && !StartsWord(s, "FOR")
  {
  }

  lemma DupOntoZeroTurn(buf: string)
    requires buf == "x 0<&1"
    requires Start(buf, 3) == St(Token(Lt, "", 3), 4) && Start(buf, 4) == St(Token(Amp, "", 4), 5)
    requires Start(buf, 5) == St(Token(Text, "1", 5), 6) && Start(buf, 6) == St(Token(Eol, "", 6), 6)
    ensures ParseRedirs(buf, Start(buf, 3), Simple("x 0", false, []), -1) == Ok(Simple("x", false, [Dup(0, 1)]), Start(buf, 6))
  {
    hide Start;
    assert "x 0"[..2] == "x ";
    assert TrimEnd("x ") == "x" by { assert "x "[..1] == "x"; }
    assert ResolveFd(buf, Start(buf, 3), Simple("x 0", false, []), -1) == (0, Simple("x", false, []));
    assert [] + [Dup(0, 1)] == [Dup(0, 1)];
  }

  /** The same for a group that duplicates a descriptor first: the digit that rendering writes
      after the parenthesis is text. */
  lemma GroupDupLost()
    ensures var n := Group(Simple("a", false, []), false, [Dup(1, 2)]);
            Parse("(a)>&2") == Parsed(n) && Parse(Render(n)).Failed?
  {
    var n := Group(Simple("a", false, []), false, [Dup(1, 2)]);
    GroupDupParses();
    hide Parse, Start, Safe, Trimmed, WellFormed, Fair, Requotes, Readable, Closed, Render, Meaning, TargetsKept;
    GroupDupRender();
    WellFormedFair(n);
    RoundTrip(n);
  }

  lemma GroupDupRender()
    ensures var n := Group(Simple("a", false, []), false, [Dup(1, 2)]);
            PlainBinaries(n) && WellFormed(n) && Requotes(n) && !Readable(Canon(n)) && |Render(n)| < TOKEN_TEXT_MAX
  {
    LetterGood('a');
    var rs := [Dup(1, 2)];
    assert rs[1..] == [] && CanonRedirs(rs) == rs && CanonRedirs([]) == [];
    assert Render(Simple("a", false, [])) == "a" by { EmptyRedirs(); }
  }

  lemma GroupDupParses()
    ensures Parse("(a)>&2") == Parsed(Group(Simple("a", false, []), false, [Dup(1, 2)]))
  {
    hide Start, Safe, Trimmed, StartsSet, StartsWord;
    var buf := "(a)>&2";
    OneLetter('a');
    OneLetter('2');
    assert Holds(buf, 1, "a") && Holds(buf, 5, "2");
    StartPunct(buf, 0);
    assert !StartsSet(buf, 1) by { NotSet(buf); }
    ShortText(buf, 1, "a");
    StartPunct(buf, 2);
    StartPunct(buf, 3);
    StartPunct(buf, 4);
    ShortText(buf, 5, "2");
    EndKind(buf);
    NoWord("a");
    var inner := Simple("a", false, []);
    assert ParseText(buf, Start(buf, 1)) == Ok(inner, Start(buf, 2));
    GroupDupTurn(buf, inner);
    CommandLine(buf, Group(inner, false, [Dup(1, 2)]));
  }

  lemma NotSet(buf: string)
    requires buf == "(a)>&2"
    ensures !StartsSet(buf, 1)
  {
    assert CharAt(buf, 1) == 'a';
  }

  lemma GroupDupTurn(buf: string, inner: Node)
    requires buf == "(a)>&2" && inner == Simple("a", false, [])
    requires Start(buf, 0) == St(Token(LParen, "", 0), 1) && Start(buf, 1).tok.kind == Text
    requires ParseText(buf, Start(buf, 1)) == Ok(inner, Start(buf, 2)) && Start(buf, 2) == St(Token(RParen, "", 2), 3)
    requires Start(buf, 3) == St(Token(Gt, "", 3), 4) && Start(buf, 4) == St(Token(Amp, "", 4), 5)
    requires Start(buf, 5) == St(Token(Text, "2", 5), 6) && Start(buf, 6) == St(Token(Eol, "", 6), 6)
    ensures ParseLevel(buf, Start(buf, 0), 4) == Ok(Group(inner, false, [Dup(1, 2)]), Start(buf, 6))
  {
    hide Start, ParseText, ParseLevel, ParseRedirs;
    var s := Start(buf, 1);
    assert ParseCommand(buf, s) == Ok(inner, Start(buf, 2));
    CommandLast(buf, s, inner, Start(buf, 2));
    Alone(buf, s, inner, Start(buf, 2), 0);
    var g := Group(inner, false, []);
    assert ParseCommand(buf, Start(buf, 0)) == Ok(g, Start(buf, 3));
    CommandThenRedirs(buf, Start(buf, 0));
    GroupDupRedirs(buf, g);
  }

  lemma GroupDupRedirs(buf: string, g: Node)
    requires buf == "(a)>&2" && g.Group? && g.redirs == []
    requires Start(buf, 3) == St(Token(Gt, "", 3), 4) && Start(buf, 4) == St(Token(Amp, "", 4), 5)
    requires Start(buf, 5) == St(Token(Text, "2", 5), 6) && Start(buf, 6) == St(Token(Eol, "", 6), 6)
    ensures ParseRedirs(buf, Start(buf, 3), g, -1) == Ok(Group(g.child, g.quiet, [Dup(1, 2)]), Start(buf, 6))
  {
    hide Start;
    assert [] + [Dup(1, 2)] == [Dup(1, 2)];
  }

  /** `dir > target`, as the parser builds it. */
  function DirTo(target: string): Node {
    Simple("dir", false, [File(Output, 1, target)])
  }

  lemma OneArrow(target: string)
    ensures RedirsText([File(Output, 1, target)]) == " > " + target
    ensures CanonRedirs([File(Output, 1, target)]) == [File(Output, 1, TargetText(target))]
  {
    var rs := [File(Output, 1, target)];
    assert rs[1..] == [];
    EmptyRedirs();
    assert " > " + target + "" == " > " + target;
  }

  lemma DirReads(target: string)
    requires Trimmed(target) && Safe(target, false, false) && !IsSet(target)
    ensures var n := DirTo(target);
            Ladder(n) && WellFormed(n) && Readable(n) && Closed(n) && PlainBinaries(n) && Print(n) == "dir > " + target
  {
    hide Safe, Trimmed, StartsWord, RedirsText, CanonRedirs, GoodText;
    WordGood();
    OneArrow(target);
    assert "" + "dir" + (" > " + target) == "dir > " + target;
  }

  lemma DirRenders(target: string)
    ensures Canon(DirTo(target)) == DirTo(TargetText(target)) && Render(DirTo(target)) == "dir > " + TargetText(target)
  {
    hide RedirsText, CanonRedirs, TargetText;
    OneArrow(target);
    OneArrow(TargetText(target));
    assert "" + "dir" + (" > " + TargetText(target)) == "dir > " + TargetText(target);
  }

  const SPACED: string := "\"a b.txt\""

  const TWICE: string := "\"\"a b.txt\"\""

  /** A quoted target with a blank is quoted again, and names another file. */
  lemma QuotedTargetLost()
    ensures Parse("dir > \"a b.txt\"") == Parsed(DirTo(SPACED))
    ensures Parse(Render(DirTo(SPACED))) == Parsed(Canon(DirTo(SPACED)))
    ensures Meaning(Canon(DirTo(SPACED))) != Meaning(DirTo(SPACED))
  {
    SpacedReads();
    SpacedCanon();
    hide Parse, Start, WellFormed, Fair, Requotes, Readable, Closed, Render, Print, Canon, Meaning, TargetsKept;
    ParsePrinted(DirTo(SPACED));
    WellFormedFair(DirTo(SPACED));
    RoundTrip(DirTo(SPACED));
  }

  lemma SpacedReads()
    ensures var n := DirTo(SPACED);
            Ladder(n) && WellFormed(n) && Readable(n) && Closed(n) && PlainBinaries(n) &&
            Print(n) == "dir > \"a b.txt\"" && |Print(n)| == 15
  {
    hide Safe, Trimmed, WellFormed, Readable, Closed, Print;
    SpacedSafe();
    DirReads(SPACED);
    assert "dir > " + SPACED == "dir > \"a b.txt\"";
  }

  lemma SpacedSafe()
    ensures Safe(SPACED, false, false) && Trimmed(SPACED)
  {
    Quoted("a b.txt");
    assert SPACED[1..] == "a b.txt" + "\"";
  }

  lemma SpacedCanon()
    ensures var n := DirTo(SPACED);
            Requotes(n) && Readable(Canon(n)) && Closed(Canon(n)) && |Render(n)| < TOKEN_TEXT_MAX && !TargetsKept(n)
  {
    hide Safe, Canon, Render, TargetText, Kept;
    SpacedTwice();
    DirRenders(SPACED);
    TwiceQuotedSafe();
    assert Requoted(DirTo(SPACED).redirs[0]);
    NotKept();
  }

  lemma SpacedTwice()
    ensures TargetText(SPACED) == TWICE == "\"" + SPACED + "\""
  {
    assert SPACED[2] == ' ';
  }

  lemma NotKept()
    ensures !Kept(DirTo(SPACED).redirs[0])
  {
    assert SPACED[2] == ' ' && TrimLeft(SPACED) == SPACED;
  }

  lemma WordGood()
    ensures GoodText("dir")
  {
    OneLetter('d');
    OneLetter('i');
    OneLetter('r');
    SafeAppend("d", "i", false, false);
    SafeAppend("di", "r", false, false);
    assert "d" + "i" == "di" && "di" + "r" == "dir";
  }

  lemma Quoted(s: string)
    requires forall i :: 0 <= i < |s| ==> s[i] != '\0' && s[i] != '\n' && s[i] != '"'
    ensures Safe(s + "\"", true, false)
    decreases |s|
  {
    if s == [] {
      assert s + "\"" == "\"" && "\""[1..] == "";
    } else {
      Quoted(s[1..]);
      assert (s + "\"")[1..] == s[1..] + "\"";
    }
  }

  /** Doubled quotes open nothing: the blank between them is outside. */
  lemma TwiceQuotedSafe()
    ensures Safe("\"\"a b.txt\"\"", false, false) && Trimmed("\"\"a b.txt\"\"")
  {
  }

  const AMPED: string := "\"a & b\""

  /** The two commands that the rendering of `dir > "a & b"` is. */
  const TWO: Node := Binary(Sequence, DirTo("\"\"a"), Simple("b\"\"", false, []), false, [])

  /** A quoted target with a metacharacter: quoted again, its rendering is accepted as two commands. */
  lemma QuotedTargetRuns()
    ensures Parse("dir > \"a & b\"") == Parsed(DirTo(AMPED)) && Parse(Render(DirTo(AMPED))) == Parsed(TWO)
    ensures PlainBinaries(DirTo(AMPED)) && WellFormed(DirTo(AMPED)) && !Requotes(DirTo(AMPED))
  {
    AmpedReads();
    AmpedRenders();
    TwoReads();
    hide Parse, Start, WellFormed, Requotes, Readable, Closed, Render, Print, Canon;
    ParsePrinted(DirTo(AMPED));
    ParsePrinted(TWO);
    if Requotes(DirTo(AMPED)) {
      AmpedUnsafe();
    }
  }

  lemma AmpedReads()
    ensures var n := DirTo(AMPED);
            Ladder(n) && WellFormed(n) && Readable(n) && Closed(n) && PlainBinaries(n) &&
            Print(n) == "dir > \"a & b\"" && |Print(n)| == 13
  {
    hide Safe, Trimmed, WellFormed, Readable, Closed, Print;
    AmpedSafe();
    DirReads(AMPED);
    assert "dir > " + AMPED == "dir > \"a & b\"";
  }

  lemma AmpedSafe()
    ensures Safe(AMPED, false, false) && Trimmed(AMPED)
  {
    Quoted("a & b");
    assert AMPED[1..] == "a & b" + "\"";
  }

  lemma AmpedRenders()
    ensures Render(DirTo(AMPED)) == "dir > \"\"a & b\"\""
  {
    hide Render;
    assert AMPED[2] == ' ';
    DirRenders(AMPED);
    assert TargetText(AMPED) == "\"\"a & b\"\"";
    assert "dir > " + TargetText(AMPED) == "dir > \"\"a & b\"\"";
  }

  lemma AmpedUnsafe()
    ensures !Requoted(DirTo(AMPED).redirs[0]) && !Requotes(DirTo(AMPED))
  {
    assert AMPED[2] == ' ';
    assert "\"" + AMPED + "\"" == "\"\"a & b\"\"";
    assert !Safe("a & b\"\"", false, false);
    assert "\"\"a & b\"\""[1..] == "\"a & b\"\"" && "\"a & b\"\""[1..] == "a & b\"\"";
  }

  lemma TwoReads()
    ensures Ladder(TWO) && WellFormed(TWO) && Readable(TWO) && Closed(TWO)
    ensures Print(TWO) == "dir > \"\"a & b\"\"" && |Print(TWO)| == 15
  {
    hide Safe, Trimmed, StartsWord, RedirsText;
    HalvesSafe();
    DirReads("\"\"a");
    assert GoodText("b\"\"");
    EmptyRedirs();
    assert "" + "b\"\"" + "" == "b\"\"";
    assert "dir > " + "\"\"a" + " & " + "b\"\"" == "dir > \"\"a & b\"\"";
  }

  lemma HalvesSafe()
    ensures Safe("\"\"a", false, false) && Trimmed("\"\"a") && Safe("b\"\"", false, false) && Trimmed("b\"\"")
    ensures !StartsWord("b\"\"", "REM") && !StartsWord("b\"\"", "FOR")
  {
    NoWord("b\"\"");
  }
}

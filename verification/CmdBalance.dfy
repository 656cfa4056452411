/** Counting parentheses: a SET that swallows one leaves a line that is no sentence. */
module CmdBalance {
  import opened CmdLexer
  import opened CmdTree
  import opened CmdParser
  import opened CmdTokens
  import opened CmdPrinted
  import G = CmdGrammar

  // ---- the balance of a token stream --------------------------------------------------------

  function Net(k: Kind): int {
    if k == LParen then 1 else if k == RParen then -1 else 0
  }

  /** Opening minus closing parentheses from `st` to the end of the line. */
  function Balance(buf: string, st: St): int
    requires InBuf(buf, st)
    decreases Rem(buf, st)
  {
    if st.tok.kind == Eol then 0 else Net(st.tok.kind) + Balance(buf, Start(buf, st.pos))
  }

  /** No text up to the end of the line is a REM or FOR command; `operand` says that an arrow
      comes directly before `st`. */
  predicate Tame(buf: string, st: St, operand: bool)
    requires InBuf(buf, st)
    decreases Rem(buf, st)
  {
    st.tok.kind == Eol ||
    ((st.tok.kind == Text && !operand ==> !StartsWord(st.tok.text, "REM") && !StartsWord(st.tok.text, "FOR")) &&
     Tame(buf, Start(buf, st.pos), IsRedirKind(st.tok.kind)))
  }

  /** Between `st` and `t` parentheses balance, and `t` is tame if `st` is. */
  ghost predicate Even(buf: string, st: St, t: St) {
    InBuf(buf, st) && InBuf(buf, t) && Balance(buf, st) == Balance(buf, t) && Tame(buf, t, false)
  }

  lemma {:induction false} RunEven(buf: string, st: St, kind: Kind, k: nat, t: St)
    requires InBuf(buf, st) && G.RunOf(buf, st, kind, k, t) && (kind == At || kind == Text) && Tame(buf, st, false)
    ensures Even(buf, st, t)
    decreases k
  {
    hide Start;
    if k > 0 {
      assert G.After(buf, st, 0).tok.kind == kind;
      var next := Start(buf, st.pos);
      forall j | 0 <= j < k - 1 ensures G.After(buf, next, j).tok.kind == kind {
        G.AfterNext(buf, st, j);
      }
      G.AfterNext(buf, st, k - 1);
      RunEven(buf, next, kind, k - 1, t);
    }
  }

  lemma OneRedirEven(buf: string, st: St, dest: int, r: Redir, next: int, t: St)
    requires InBuf(buf, st) && IsRedirKind(st.tok.kind) && G.OneRedir(buf, st, dest, r, next, t) && Tame(buf, st, false)
    ensures Even(buf, st, t)
  {
    hide Start, SplitFd, StartsWord;
    var s := Start(buf, st.pos);
    assert Tame(buf, s, true) && Balance(buf, st) == Balance(buf, s);
    if r.Dup? {
      var u := Start(buf, s.pos);
      assert Tame(buf, u, false) && Balance(buf, s) == Balance(buf, u);
      assert Tame(buf, Start(buf, u.pos), false) && Balance(buf, u) == Balance(buf, Start(buf, u.pos));
    } else {
      assert Tame(buf, Start(buf, s.pos), false) && Balance(buf, s) == Balance(buf, Start(buf, s.pos));
    }
  }

  lemma {:induction false} RedirsEven(buf: string, st: St, bare: Node, pending: int, rs: seq<Redir>, n: Node, t: St)
    requires InBuf(buf, st) && G.Redirs(buf, st, bare, pending, rs, n, t) && Tame(buf, st, false)
    ensures Even(buf, st, t)
    decreases |rs|
  {
    hide G.OneRedir, ResolveFd, Balance, Tame;
    if rs != [] {
      var dest, command := ResolveFd(buf, st, bare, pending).0, ResolveFd(buf, st, bare, pending).1;
      var next, s :| G.OneRedir(buf, st, dest, rs[0], next, s) && InBuf(buf, s) && G.Redirs(buf, s, AddRedir(command, rs[0]), next, rs[1..], n, t);
      OneRedirEven(buf, st, dest, rs[0], next, s);
      RedirsEven(buf, s, AddRedir(command, rs[0]), next, rs[1..], n, t);
    }
  }

  lemma QuietsEven(buf: string, st: St, q: bool, s: St)
    requires InBuf(buf, st) && G.Quiets(buf, st, q, s) && Tame(buf, st, false)
    ensures Even(buf, st, s)
  {
    hide G.RunOf, Balance, Tame;
    var k :| G.RunOf(buf, st, At, k, s) && (q <==> k > 0);
    RunEven(buf, st, At, k, s);
  }

  lemma CommandEven(buf: string, st: St, text: string, t: St)
    requires InBuf(buf, st) && G.Command(buf, st, text, t) && Tame(buf, st, false)
    ensures Even(buf, st, t)
  {
    hide G.RunOf, Balance, StartsWord;
    var k :| k > 0 && G.RunOf(buf, st, Text, k, t) && text == G.Words(buf, st, k) && |text| < TOKEN_TEXT_MAX;
    RunEven(buf, st, Text, k, t);
  }

  /** Every phrase balances its parentheses. */
  lemma {:induction false} PhraseEven(buf: string, st: St, n: Node, t: St)
    requires InBuf(buf, st) && G.Derives(buf, st, n, t) && Tame(buf, st, false)
    ensures Even(buf, st, t)
    decreases n
  {
    hide Start, G.Derives, G.Quiets, G.Command, G.Redirs;
    match n
    case Simple(_, q, rs) =>
      hide Balance, Tame;
      var s, text, u := G.DerivedSimple(buf, st, n, t);
      QuietsEven(buf, st, q, s);
      CommandEven(buf, s, text, u);
      RedirsEven(buf, u, Simple(text, q, []), -1, rs, n, t);
    case Group(c, q, rs) =>
      var s, u := G.DerivedGroup(buf, st, n, t);
      QuietsEven(buf, st, q, s);
      PhraseEven(buf, Start(buf, s.pos), c, u);
      RedirsEven(buf, Start(buf, u.pos), Group(c, q, []), -1, rs, n, t);
    case Binary(op, l, r, _, _) =>
      var u := G.DerivedBinary(buf, st, n, t);
      PhraseEven(buf, st, l, u);
      PhraseEven(buf, Start(buf, u.pos), r, t);
  }

  lemma SentenceEven(buf: string, n: Node)
    requires G.Sentence(buf, n) && Tame(buf, Start(buf, 0), false)
    ensures Balance(buf, Start(buf, 0)) == 0
  {
    hide Start, G.Derives, Tame;
    var t :| G.Derives(buf, Start(buf, 0), n, t) && t.tok.kind == Eol;
    PhraseEven(buf, Start(buf, 0), n, t);
  }

  // ---- printed text ---------------------------------------------------------------------------------

  /** From position `i` on: the balance, and whether it is tame. */
  function Sum(buf: string, i: nat): int
    requires i <= |buf|
  {
    Balance(buf, Start(buf, i))
  }

  predicate Calm(buf: string, i: nat)
    requires i <= |buf|
  {
    Tame(buf, Start(buf, i), false)
  }

  /** What follows a printed node: closing parentheses, then the end, an operator, or the
      redirections of a group. */
  predicate Ahead(buf: string, j: nat)
    decreases |buf| - j
  {
    j == |buf| ||
    (j < |buf| && buf[j] == ')' && Ahead(buf, j + 1)) ||
    (j + 1 < |buf| && buf[j] == ' ' && buf[j + 1] in "&|<>") ||
    (j + 2 < |buf| && buf[j] == ' ' && IsFdDigit(buf[j + 1]) && buf[j + 2] in "<>")
  }

  /** Reading goes on at `u` as it would at `i`, but for `gain` closing parentheses. */
  predicate Gains(buf: string, i: nat, u: nat, gain: bool)
    requires i <= |buf| && u <= |buf|
  {
    Sum(buf, i) >= Sum(buf, u) + (if gain then 1 else 0) && (Calm(buf, u) ==> Calm(buf, i))
  }

  lemma DigitToken(buf: string, i: nat)
    requires i + 1 < |buf| && IsFdDigit(buf[i]) && buf[i + 1] in "<>"
    ensures Start(buf, i) == St(Token(Text, [buf[i]], i), i + 1)
  {
    var d := [buf[i]];
    assert Holds(buf, i, d) && Trimmed(d);
    assert Safe(d, false, StartsSet(buf, i)) by { assert d[1..] == []; }
    TextToken(buf, i, d, i + 1);
  }

  /** A text that swallows parentheses takes everything up to the next metacharacter. */
  lemma {:induction false} Swallowed(buf: string, j: nat)
    requires j <= |buf| && Ahead(buf, j)
    ensures var (e, f) := TextEnd(buf, j, false, true);
            e == f && Sum(buf, e) >= Sum(buf, j) + (if j < |buf| && buf[j] == ')' then 1 else 0) && (Calm(buf, j) ==> Calm(buf, e))
    decreases |buf| - j
  {
    hide Start;
    if j < |buf| {
      if buf[j] == ')' {
        StartPunct(buf, j);
        Swallowed(buf, j + 1);
        var e := TextEnd(buf, j + 1, false, true).0;
        assert Sum(buf, j) == -1 + Sum(buf, j + 1);
      } else if buf[j + 1] in "&|<>" {
        StartSkips(buf, j, j + 1);
        assert TextEnd(buf, j, false, true) == TextEnd(buf, j + 1, false, true) == (j + 1, j + 1);
      } else {
        StartSkips(buf, j, j + 1);
        DigitToken(buf, j + 1);
        assert TextEnd(buf, j, false, true) == TextEnd(buf, j + 1, false, true) == TextEnd(buf, j + 2, false, true) == (j + 2, j + 2);
      }
    }
  }

  lemma {:induction false} TrimEndFirst(s: string)
    requires s != [] && !IsBlank(s[0])
    ensures TrimEnd(s) != [] && TrimEnd(s)[0] == s[0]
    decreases |s|
  {
    if IsBlank(s[|s| - 1]) {
      TrimEndFirst(s[..|s| - 1]);
    }
  }

  lemma LexCopyFirst(s: string)
    requires s != [] && !IsBlank(s[0])
    ensures LexCopy(s) != [] && LexCopy(s)[0] == s[0]
  {
    TrimEndFirst(s);
  }

  /** A SET directly before a closing parenthesis. */
  lemma SetGains(buf: string, i: nat, text: string)
    requires Holds(buf, i, text) && GoodText(text) && IsSet(text) && Ahead(buf, i + |text|)
    ensures i <= |buf|
    ensures Gains(buf, i, i + |text|, i + |text| < |buf| && buf[i + |text|] == ')')
  {
    hide Start, TextEnd, Safe, LexCopy;
    var j := i + |text|;
    assert StartsSet(buf, i) by {
      HoldsChar(buf, i, text, 0);
      HoldsChar(buf, i, text, 1);
      HoldsChar(buf, i, text, 2);
      HoldsChar(buf, i, text, 3);
    }
    FirstChar(buf, i, text);
    SafeBegins(text, true) by { assert Safe(text, false, true); }
    StartText(buf, i);
    TextEndOver(buf, i, text, false, true);
    Swallowed(buf, j);
    var e := TextEnd(buf, j, false, true).0;
    LexCopyFirst(buf[i..e]);
    assert Start(buf, i) == St(Token(Text, LexCopy(buf[i..e]), i), e);
  }

  /** One token that is no parenthesis, and no REM or FOR in command position. */
  lemma OneToken(buf: string, i: nat, u: nat)
    requires i <= |buf| && u <= |buf|
    requires var s := Start(buf, i);
             s.tok.kind != Eol && s.tok.kind != LParen && s.tok.kind != RParen && !IsRedirKind(s.tok.kind) &&
             (s.tok.kind == Text ==> !StartsWord(s.tok.text, "REM") && !StartsWord(s.tok.text, "FOR")) &&
             Start(buf, s.pos) == Start(buf, u)
    ensures Gains(buf, i, u, false) && Sum(buf, i) == Sum(buf, u)
  {
    hide Start, StartsWord;
  }

  lemma DigitFirst(t: string, d: Fd, rs: seq<Redir>)
    requires t == [Digit(d)] + Suffix(rs)
    ensures !StartsWord(t, "REM") && !StartsWord(t, "FOR")
  {
    assert t[0] == Digit(d);
  }

  /** One printed redirection. */
  lemma ArrowEven(buf: string, j: nat, rs: seq<Redir>)
    requires rs != [] && Listed(buf, j, rs)
    requires j + OpOffset(rs) <= |buf| && NextAt(AfterFirst(j, rs), rs[1..]) <= |buf|
    ensures Gains(buf, j + OpOffset(rs), NextAt(AfterFirst(j, rs), rs[1..]), false)
  {
    hide Start, RedirsText, GoodRedir, SplitFd, Listed, StartsWord, Digit, Suffix, NextAt, AfterFirst, OpOffset;
    OperandReads(buf, j, rs);
    var st := Start(buf, j + OpOffset(rs));
    var next := Start(buf, NextAt(AfterFirst(j, rs), rs[1..]));
    assert IsRedirKind(st.tok.kind) by { HeadEnds(rs[0]); }
    if rs[0].Dup? {
      DigitFirst(OperandSt(buf, st, rs[0]).tok.text, rs[0].source, rs[1..]);
      DupEven(buf, st, next);
    } else {
      FileEven(buf, st, next);
    }
  }

  lemma FileEven(buf: string, st: St, next: St)
    requires InBuf(buf, st) && IsRedirKind(st.tok.kind) && Start(buf, st.pos).tok.kind == Text && next == Start(buf, Start(buf, st.pos).pos)
    ensures Balance(buf, st) == Balance(buf, next) && (Tame(buf, next, false) ==> Tame(buf, st, false))
  {
    hide Start, StartsWord;
    var s := Start(buf, st.pos);
    assert Balance(buf, s) == Balance(buf, next) && (Tame(buf, next, false) ==> Tame(buf, s, true));
  }

  lemma DupEven(buf: string, st: St, next: St)
    requires InBuf(buf, st) && IsRedirKind(st.tok.kind) && Start(buf, st.pos).tok.kind == Amp
    requires var u := Start(buf, Start(buf, st.pos).pos);
             u.tok.kind == Text && !StartsWord(u.tok.text, "REM") && !StartsWord(u.tok.text, "FOR") && next == Start(buf, u.pos)
    ensures Balance(buf, st) == Balance(buf, next) && (Tame(buf, next, false) ==> Tame(buf, st, false))
  {
    hide Start, StartsWord;
    var s := Start(buf, st.pos);
    var u := Start(buf, s.pos);
    assert Balance(buf, u) == Balance(buf, next) && (Tame(buf, next, false) ==> Tame(buf, u, false));
    assert Balance(buf, s) == Balance(buf, u) && (Tame(buf, u, false) ==> Tame(buf, s, true));
  }

  /** A printed list of redirections changes nothing. */
  lemma {:induction false} ListEven(buf: string, j: nat, rs: seq<Redir>)
    requires Listed(buf, j, rs) && NextAt(j, rs) <= |buf|
    ensures j + |RedirsText(rs)| <= |buf| && Gains(buf, NextAt(j, rs), j + |RedirsText(rs)|, false)
    decreases |rs|
  {
    hide Start, Listed, RedirsText, AfterFirst, Sum, Calm, OpOffset;
    if rs == [] {
      EmptyRedirs();
    } else {
      FirstThenRest(buf, j, rs);
      ArrowEven(buf, j, rs);
      ListEven(buf, AfterFirst(j, rs), rs[1..]);
    }
  }

  /** The same after a closing parenthesis, where a descriptor digit stands by itself. */
  lemma GroupListEven(buf: string, j: nat, rs: seq<Redir>)
    requires Listed(buf, j, rs) && j <= |buf|
    ensures j + |RedirsText(rs)| <= |buf| && Gains(buf, j, j + |RedirsText(rs)|, false)
  {
    hide Start, Listed, RedirsText, Balance, Tame, GoodRedir;
    if rs == [] {
      EmptyRedirs();
    } else {
      FirstThenRest(buf, j, rs);
      ListRedir(buf, j, rs);
      ListEven(buf, j, rs);
      StartSkips(buf, j, j + 1);
      if Explicit(rs[0]) {
        SafeDigit(rs[0].dest, false);
        DigitToken(buf, j + 1);
        OneToken(buf, j + 1, j + 2);
      }
    }
  }

  lemma ListRedir(buf: string, j: nat, rs: seq<Redir>)
    requires rs != [] && Listed(buf, j, rs)
    ensures var o := j + OpOffset(rs);
            o < |buf| && buf[j] == ' ' && buf[o] in "<>" && (Explicit(rs[0]) ==> buf[j + 1] == Digit(rs[0].dest))
    ensures Ahead(buf, j)
  {
    hide Start, RedirsText, GoodRedir;
    NextRedir(buf, j, rs);
    SafeDigit(rs[0].dest, false);
  }

  lemma QuietEven(buf: string, i: nat, q: bool, more: string)
    requires Holds(buf, i, QuietText(q) + more)
    ensures i + |QuietText(q)| <= |buf| && Holds(buf, i + |QuietText(q)|, more)
    ensures Gains(buf, i, i + |QuietText(q)|, false)
  {
    hide Start, Balance, Tame;
    HoldsSplit(buf, i, QuietText(q), more);
    if q {
      FirstChar(buf, i, "@");
      StartPunct(buf, i);
      OneToken(buf, i, i + 1);
    }
  }

  lemma TextEven(buf: string, i: nat, text: string, rs: seq<Redir>)
    requires Holds(buf, i, text + RedirsText(rs)) && Delim(buf, i + |text| + |RedirsText(rs)|)
    requires GoodText(text) && GoodRedirs(rs) && |buf| < TOKEN_TEXT_MAX
    requires rs == [] && IsSet(text) ==> CharAt(buf, i + |text|) != ')'
    ensures i + |text| + |RedirsText(rs)| <= |buf| && Gains(buf, i, i + |text| + |RedirsText(rs)|, false)
  {
    hide Start, Safe, RedirsText, GoodRedir, Balance, Tame, StartsWord, SplitFd, Holds, Trimmed, IsSet, Delim, Suffix, OpOffset;
    TextReads(buf, i, text, rs);
    BodyToken(buf, i, text, rs);
    SuffixKeepsWord(text, rs, "REM");
    SuffixKeepsWord(text, rs, "FOR");
    OneToken(buf, i, NextAt(i + |text|, rs));
    ListEven(buf, i + |text|, rs);
  }

  lemma SimpleGains(buf: string, i: nat, text: string, q: bool, rs: seq<Redir>)
    requires Stands(buf, i, Simple(text, q, rs)) && Ahead(buf, i + |Print(Simple(text, q, rs))|)
    ensures var j := i + |Print(Simple(text, q, rs))|;
            j <= |buf| && i <= |buf| && Gains(buf, i, j, EndsInSet(Simple(text, q, rs)) && CharAt(buf, j) == ')')
  {
    hide Start, Safe, RedirsText, GoodRedirs, GoodText, Balance, Tame, Stands, Print, Holds, IsSet, Trimmed, Ahead, Delim, Printed;
    SimpleParts(buf, i, text, q, rs);
    QuietEven(buf, i, q, text + RedirsText(rs));
    var p := i + |QuietText(q)|;
    if rs == [] {
      EmptyRedirs();
    }
    if rs == [] && IsSet(text) && CharAt(buf, p + |text|) == ')' {
      assert text + "" == text;
      SetGains(buf, p, text);
    } else {
      TextEven(buf, p, text, rs);
    }
  }

  lemma ParenGains(buf: string, p: nat, e: nat, gain: bool)
    requires p < e < |buf| && buf[p] == '(' && buf[e] == ')' && Gains(buf, p + 1, e, gain)
    ensures Gains(buf, p, e + 1, gain)
  {
    hide Start;
    StartPunct(buf, p);
    StartPunct(buf, e);
  }

  lemma OperatorEven(buf: string, j: nat, op: Op)
    requires Holds(buf, j, OpText(op))
    ensures j <= |buf| && j + |OpText(op)| <= |buf| && Gains(buf, j, j + |OpText(op)|, false) && Ahead(buf, j)
  {
    hide Start, Balance, Tame;
    OpToken(buf, j, op);
    OneToken(buf, j, j + |OpText(op)|);
    HoldsChar(buf, j, OpText(op), 0);
    HoldsChar(buf, j, OpText(op), 1);
  }

  /** Reading a printed node gains a parenthesis for every SET that swallows one. */
  lemma {:induction false} NodeGains(buf: string, i: nat, n: Node)
    requires Stands(buf, i, n) && Ladder(n) && Ahead(buf, i + |Print(n)|)
    ensures var j := i + |Print(n)|;
            i <= |buf| && j <= |buf| && Gains(buf, i, j, !Closed(n) || (EndsInSet(n) && CharAt(buf, j) == ')'))
    decreases n
  {
    hide Start, RedirsText, Balance, Tame, Stands, Print, Holds, Ahead, Listed, Sum, Calm;
    match n
    case Simple(text, q, rs) => SimpleGains(buf, i, text, q, rs);
    case Group(c, q, rs) =>
      GroupUnfold(c, q, rs);
      GroupStands(buf, i, c, q, rs);
      var p := i + |QuietText(q)|;
      var e := p + 1 + |Print(c)|;
      QuietEven(buf, i, q, "(" + Print(c) + ")" + RedirsText(rs));
      GroupAhead(buf, e, rs, i + |Print(n)|);
      NodeGains(buf, p + 1, c);
      ParenGains(buf, p, e, !Closed(c) || EndsInSet(c));
      GroupListEven(buf, e + 1, rs);
    case Binary(op, l, r, _, _) =>
      assert n == Binary(op, l, r, false, []);
      BinaryUnfold(op, l, r);
      BinaryStands(buf, i, op, l, r);
      var j := i + |Print(l)|;
      OperatorEven(buf, j, op);
      NodeGains(buf, i, l);
      NodeGains(buf, j + |OpText(op)|, r);
  }

  lemma GroupAhead(buf: string, e: nat, rs: seq<Redir>, j: nat)
    requires e < |buf| && buf[e] == ')' && Listed(buf, e + 1, rs) && j == e + 1 + |RedirsText(rs)| && Ahead(buf, j)
    ensures Ahead(buf, e)
  {
    hide Listed, RedirsText;
    if rs == [] {
      EmptyRedirs();
    } else {
      ListRedir(buf, e + 1, rs);
    }
  }

  /** A group that ends in a SET is never closed: the line that prints it is refused. */
  lemma UnclosedFails(n: Node)
    requires Ladder(n) && WellFormed(n) && !Closed(n) && |Print(n)| < TOKEN_TEXT_MAX
    ensures Parse(Print(n)).Failed?
  {
    hide Start, Print, Parse, WellFormed, Ladder, Closed, EndsInSet, G.Sentence;
    var buf := Print(n);
    assert buf[0..0 + |buf|] == buf;
    assert Stands(buf, 0, n);
    NodeGains(buf, 0, n);
    EndKind(buf);
    PrintVisible(n);
    NotEol(buf);
    G.ParseExact(buf);
    forall m ensures !G.Sentence(buf, m) {
      if G.Sentence(buf, m) {
        SentenceEven(buf, m);
      }
    }
  }
}

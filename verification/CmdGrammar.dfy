/** The grammar of command lines, and the parser as its decision procedure. */
module CmdGrammar {
  import opened CmdLexer
  import opened CmdTree
  import opened CmdParser

  // ---- the token stream -----------------------------------------------------------------

  /** The state `k` tokens after `st`. */
  function After(buf: string, st: St, k: nat): (s: St)
    requires InBuf(buf, st)
    ensures InBuf(buf, s)
  {
    if k == 0 then st else Start(buf, After(buf, st, k - 1).pos)
  }

  /** `t` comes `k` tokens after `st`, all of them of one kind, and is itself of another. */
  ghost predicate RunOf(buf: string, st: St, kind: Kind, k: nat, t: St)
    requires InBuf(buf, st)
  {
    t == After(buf, st, k) && t.tok.kind != kind && forall j :: 0 <= j < k ==> After(buf, st, j).tok.kind == kind
  }

  /** `t` is the first end of the line or closing parenthesis from `st` on. */
  ghost predicate SkipsTo(buf: string, st: St, k: nat, t: St)
    requires InBuf(buf, st)
  {
    t == After(buf, st, k) && (t.tok.kind == Eol || t.tok.kind == RParen) &&
    forall j :: 0 <= j < k ==> After(buf, st, j).tok.kind != Eol && After(buf, st, j).tok.kind != RParen
  }

  /** The texts of `k` tokens with a blank between them. */
  function Words(buf: string, st: St, k: nat): string
    requires InBuf(buf, st) && k > 0
  {
    if k == 1 then st.tok.text else SpaceCat(Words(buf, st, k - 1), After(buf, st, k - 1).tok.text)
  }

  // ---- phrases -------------------------------------------------------------------------------

  /** `@` signs, and whether there are any. */
  ghost predicate Quiets(buf: string, st: St, q: bool, s: St)
    requires InBuf(buf, st)
  {
    exists k :: RunOf(buf, st, At, k, s) && (q <==> k > 0)
  }

  /** The command text from `st` up to `t`: REM stands for a comment, FOR takes the line, any
      other command is the run of texts. */
  ghost predicate Command(buf: string, st: St, text: string, t: St)
    requires InBuf(buf, st)
  {
    st.tok.kind == Text &&
    if StartsWord(st.tok.text, "REM") then text == "REM" && exists k :: SkipsTo(buf, st, k, t)
    else if StartsWord(st.tok.text, "FOR") then text == LexCopy(buf[st.tok.offset..]) && t == Start(buf, |buf|)
    else exists k :: k > 0 && RunOf(buf, st, Text, k, t) && text == Words(buf, st, k) && |text| < TOKEN_TEXT_MAX
  }

  /** One redirection onto `dest`, from its arrow at `st` to what follows at `t`; `next` is the
      descriptor digit at its end that belongs to the following arrow, or -1. */
  ghost predicate OneRedir(buf: string, st: St, dest: int, r: Redir, next: int, t: St)
    requires InBuf(buf, st) && IsRedirKind(st.tok.kind)
  {
    var s := Start(buf, st.pos);
    r.dest == dest && FdAllowed(FileKindOf(st.tok.kind), dest) &&
    match r
    case Dup(_, source) =>
      st.tok.kind != Append && s.tok.kind == Amp && Start(buf, s.pos).tok.kind == Text &&
      t == Start(buf, Start(buf, s.pos).pos) && SplitFd(buf, t, Start(buf, s.pos).tok.text) == ([Digit(source)], next)
    case File(kind, _, target) =>
      kind == FileKindOf(st.tok.kind) && s.tok.kind == Text && target != "" &&
      t == Start(buf, s.pos) && SplitFd(buf, t, s.tok.text) == (target, next)
  }

  /** All redirections after a command or group `bare`, which becomes `n` by giving up its
      descriptor digits and taking the redirections `rs`. */
  ghost predicate Redirs(buf: string, st: St, bare: Node, pending: int, rs: seq<Redir>, n: Node, t: St)
    requires InBuf(buf, st)
    decreases |rs|
  {
    if rs == [] then n == bare && t == st && !IsRedirKind(st.tok.kind)
    else
      IsRedirKind(st.tok.kind) &&
      var (dest, command) := ResolveFd(buf, st, bare, pending);
      exists next, s :: OneRedir(buf, st, dest, rs[0], next, s) && InBuf(buf, s) &&
                        Redirs(buf, s, AddRedir(command, rs[0]), next, rs[1..], n, t)
  }

  /** `n` spells the tokens from `st` up to `t`. Operators associate to the left and bind by
      their levels; only a group may hold a looser operator inside a tighter one. */
  ghost predicate Derives(buf: string, st: St, n: Node, t: St)
    requires InBuf(buf, st)
    decreases n
  {
    match n
    case Simple(_, q, rs) =>
      exists s, text, u :: Quiets(buf, st, q, s) && InBuf(buf, s) && Command(buf, s, text, u) && InBuf(buf, u) &&
                           Redirs(buf, u, Simple(text, q, []), -1, rs, n, t)
    case Group(c, q, rs) =>
      exists s, u :: Quiets(buf, st, q, s) && InBuf(buf, s) && s.tok.kind == LParen &&
                     Derives(buf, Start(buf, s.pos), c, u) && InBuf(buf, u) && u.tok.kind == RParen &&
                     Redirs(buf, Start(buf, u.pos), Group(c, q, []), -1, rs, n, t)
    case Binary(op, l, r, q, rs) =>
      !q && rs == [] && Level(l) >= OpLevel(op) && Level(r) > OpLevel(op) &&
      exists u :: Derives(buf, st, l, u) && InBuf(buf, u) && u.tok.kind == KindOfLevel(OpLevel(op)) &&
                  Derives(buf, Start(buf, u.pos), r, t)
  }

  /** A sentence: one statement up to the end of the line. */
  ghost predicate Sentence(buf: string, n: Node) {
    exists t :: Derives(buf, Start(buf, 0), n, t) && t.tok.kind == Eol
  }

  /** The phrase is not continued by an operator of level `k` or tighter. */
  predicate Ends(t: St, k: nat) {
    forall l :: k <= l < 4 ==> t.tok.kind != KindOfLevel(l)
  }

  // ---- the stream and the parser's loops ---------------------------------------------------------

  lemma {:induction false} AfterNext(buf: string, st: St, k: nat)
    requires InBuf(buf, st)
    ensures After(buf, Start(buf, st.pos), k) == After(buf, st, k + 1)
    decreases k
  {
    hide Start;
    if k > 0 {
      AfterNext(buf, st, k - 1);
    }
  }

  /** Running over tokens of one kind ends at one place only. */
  lemma RunUnique(buf: string, st: St, kind: Kind, j: nat, s: St, k: nat, t: St)
    requires InBuf(buf, st) && RunOf(buf, st, kind, j, s) && RunOf(buf, st, kind, k, t)
    ensures j == k && s == t
  {
    hide After;
  }

  lemma RunCons(buf: string, st: St, kind: Kind, k: nat, t: St)
    requires InBuf(buf, st) && st.tok.kind == kind && RunOf(buf, Start(buf, st.pos), kind, k, t)
    ensures RunOf(buf, st, kind, k + 1, t)
  {
    hide Start;
    forall j | 0 <= j < k + 1 ensures After(buf, st, j).tok.kind == kind {
      if j > 0 {
        AfterNext(buf, st, j - 1);
      }
    }
    AfterNext(buf, st, k);
  }

  lemma {:induction false} QuietRun(buf: string, st: St) returns (k: nat)
    requires InBuf(buf, st)
    ensures RunOf(buf, st, At, k, SkipQuiet(buf, st)) && (st.tok.kind == At <==> k > 0)
    decreases Rem(buf, st)
  {
    hide Start;
    if st.tok.kind == At {
      var j := QuietRun(buf, Start(buf, st.pos));
      RunCons(buf, st, At, j, SkipQuiet(buf, st));
      k := j + 1;
    } else {
      k := 0;
    }
  }

  lemma QuietsExact(buf: string, st: St, q: bool, s: St)
    requires InBuf(buf, st)
    ensures Quiets(buf, st, q, s) <==> s == SkipQuiet(buf, st) && q == (st.tok.kind == At)
  {
    hide RunOf, SkipQuiet;
    var k := QuietRun(buf, st);
    if Quiets(buf, st, q, s) {
      var j :| RunOf(buf, st, At, j, s) && (q <==> j > 0);
      RunUnique(buf, st, At, j, s, k, SkipQuiet(buf, st));
    }
  }

  lemma {:induction false} RemRun(buf: string, st: St) returns (k: nat)
    requires InBuf(buf, st)
    ensures SkipsTo(buf, st, k, SkipRem(buf, st))
    decreases Rem(buf, st)
  {
    hide Start;
    if st.tok.kind == Eol || st.tok.kind == RParen {
      k := 0;
    } else {
      var j := RemRun(buf, Start(buf, st.pos));
      k := j + 1;
      forall i | 0 <= i < k ensures After(buf, st, i).tok.kind != Eol && After(buf, st, i).tok.kind != RParen {
        if i > 0 {
          AfterNext(buf, st, i - 1);
        }
      }
      AfterNext(buf, st, j);
    }
  }

  lemma SkipUnique(buf: string, st: St, j: nat, s: St, k: nat, t: St)
    requires InBuf(buf, st) && SkipsTo(buf, st, j, s) && SkipsTo(buf, st, k, t)
    ensures s == t
  {
    hide After;
  }

  lemma WordsGrow(buf: string, st: St, k: nat)
    requires InBuf(buf, st) && k > 0
    ensures Words(buf, st, k + 1) == SpaceCat(Words(buf, st, k), After(buf, st, k).tok.text)
    ensures |Words(buf, st, k)| <= |Words(buf, st, k + 1)|
  {
    hide After, Start;
  }

  /** What joining texts amounts to, once `k` of them are in hand. */
  lemma {:induction false} JoinRun(buf: string, st: St, k: nat) returns (m: nat, t: St)
    requires InBuf(buf, st) && k > 0 && |Words(buf, st, k)| < TOKEN_TEXT_MAX
    requires forall j :: 0 <= j < k ==> After(buf, st, j).tok.kind == Text
    ensures k <= m && RunOf(buf, st, Text, m, t) && |Words(buf, st, k)| <= |Words(buf, st, m)|
    ensures var r := JoinText(buf, After(buf, st, k), Words(buf, st, k));
            if |Words(buf, st, m)| < TOKEN_TEXT_MAX then r == Ok(Simple(Words(buf, st, m), false, []), t) else r.Err?
    decreases Rem(buf, After(buf, st, k))
  {
    hide Start, Words, SpaceCat;
    var s := After(buf, st, k);
    if s.tok.kind != Text {
      m, t := k, s;
    } else {
      WordsGrow(buf, st, k);
      if |Words(buf, st, k + 1)| < TOKEN_TEXT_MAX {
        m, t := JoinRun(buf, st, k + 1);
      } else {
        m, t := TextRun(buf, st, k + 1);
      }
    }
  }

  /** The run of texts always ends. */
  lemma {:induction false} TextRun(buf: string, st: St, k: nat) returns (m: nat, t: St)
    requires InBuf(buf, st) && k > 0
    requires forall j :: 0 <= j < k ==> After(buf, st, j).tok.kind == Text
    ensures k <= m && RunOf(buf, st, Text, m, t) && |Words(buf, st, k)| <= |Words(buf, st, m)|
    decreases Rem(buf, After(buf, st, k))
  {
    hide Start, Words, SpaceCat;
    var s := After(buf, st, k);
    if s.tok.kind != Text {
      m, t := k, s;
    } else {
      WordsGrow(buf, st, k);
      m, t := TextRun(buf, st, k + 1);
    }
  }

  lemma PlainRun(buf: string, st: St) returns (m: nat, t: St)
    requires InBuf(buf, st) && st.tok.kind == Text && |st.tok.text| < TOKEN_TEXT_MAX
    ensures m > 0 && RunOf(buf, st, Text, m, t)
    ensures var r := JoinText(buf, Start(buf, st.pos), st.tok.text);
            if |Words(buf, st, m)| < TOKEN_TEXT_MAX then r == Ok(Simple(Words(buf, st, m), false, []), t) else r.Err?
  {
    hide Start, JoinText;
    assert After(buf, st, 0) == st && After(buf, st, 1) == Start(buf, st.pos);
    m, t := JoinRun(buf, st, 1);
  }

  /** The command parser decides `Command`. */
  lemma CommandExact(buf: string, st: St, n: Node, t: St)
    requires InBuf(buf, st) && st.tok.kind == Text && |st.tok.text| < TOKEN_TEXT_MAX
    ensures ParseText(buf, st) == Ok(n, t) <==> exists text :: Command(buf, st, text, t) && n == Simple(text, false, [])
  {
    hide Start, RunOf, SkipsTo, StartsWord, JoinText, SkipRem, Words, LexCopy;
    if StartsWord(st.tok.text, "REM") {
      var k := RemRun(buf, st);
      if exists j :: SkipsTo(buf, st, j, t) {
        var j :| SkipsTo(buf, st, j, t);
        SkipUnique(buf, st, j, t, k, SkipRem(buf, st));
      }
      if ParseText(buf, st) == Ok(n, t) {
        assert Command(buf, st, "REM", t);
      }
    } else if StartsWord(st.tok.text, "FOR") {
      if ParseText(buf, st) == Ok(n, t) {
        assert Command(buf, st, LexCopy(buf[st.tok.offset..]), t);
      }
    } else {
      PlainExact(buf, st, n, t);
    }
  }

  lemma PlainExact(buf: string, st: St, n: Node, t: St)
    requires InBuf(buf, st) && st.tok.kind == Text && |st.tok.text| < TOKEN_TEXT_MAX
    requires !StartsWord(st.tok.text, "REM") && !StartsWord(st.tok.text, "FOR")
    ensures ParseText(buf, st) == Ok(n, t) <==> exists text :: Command(buf, st, text, t) && n == Simple(text, false, [])
  {
    hide Start, RunOf, StartsWord, JoinText, Words;
    var m, u := PlainRun(buf, st);
    if ParseText(buf, st) == Ok(n, t) {
      assert Command(buf, st, Words(buf, st, m), t);
    }
    if text :| Command(buf, st, text, t) && n == Simple(text, false, []) {
      var k :| k > 0 && RunOf(buf, st, Text, k, t) && text == Words(buf, st, k) && |text| < TOKEN_TEXT_MAX;
      RunUnique(buf, st, Text, k, t, m, u);
    }
  }

  // ---- redirections ----------------------------------------------------------------------------------

  lemma RedirsStep(buf: string, st: St, bare: Node, pending: int, rs: seq<Redir>, n: Node, t: St, next: int, s: St)
    requires InBuf(buf, st) && rs != [] && IsRedirKind(st.tok.kind) && InBuf(buf, s)
    requires var (dest, command) := ResolveFd(buf, st, bare, pending);
             OneRedir(buf, st, dest, rs[0], next, s) && Redirs(buf, s, AddRedir(command, rs[0]), next, rs[1..], n, t)
    ensures Redirs(buf, st, bare, pending, rs, n, t)
  {
    hide OneRedir, ResolveFd;
  }

  /** One turn of the redirection loop. */
  lemma TurnExact(buf: string, st: St, bare: Node, pending: int, r: Redir, next: int, s: St)
    requires InBuf(buf, st) && IsRedirKind(st.tok.kind) && InBuf(buf, s)
    requires OneRedir(buf, st, ResolveFd(buf, st, bare, pending).0, r, next, s)
    ensures Rem(buf, s) < Rem(buf, st)
    ensures ParseRedirs(buf, st, bare, pending) == ParseRedirs(buf, s, AddRedir(ResolveFd(buf, st, bare, pending).1, r), next)
  {
    hide SplitFd, ResolveFd, Start;
  }

  /** Whatever the loop accepts begins with a redirection. */
  lemma TurnFound(buf: string, st: St, bare: Node, pending: int) returns (r: Redir, next: int, s: St)
    requires InBuf(buf, st) && IsRedirKind(st.tok.kind) && ParseRedirs(buf, st, bare, pending).Ok?
    ensures InBuf(buf, s) && OneRedir(buf, st, ResolveFd(buf, st, bare, pending).0, r, next, s)
  {
    hide SplitFd, ResolveFd, Start;
    var dest := ResolveFd(buf, st, bare, pending).0;
    var a := Start(buf, st.pos);
    if a.tok.kind == Amp {
      var b := Start(buf, a.pos);
      s := Start(buf, b.pos);
      var (target, digit) := SplitFd(buf, s, b.tok.text);
      r, next := Dup(dest, DigitValue(target[0])), digit;
      assert target == [Digit(DigitValue(target[0]))];
    } else {
      s := Start(buf, a.pos);
      var (target, digit) := SplitFd(buf, s, a.tok.text);
      r, next := File(FileKindOf(st.tok.kind), dest, target), digit;
    }
  }

  lemma {:induction false} RedirsFound(buf: string, st: St, bare: Node, pending: int) returns (rs: seq<Redir>)
    requires InBuf(buf, st) && ParseRedirs(buf, st, bare, pending).Ok?
    ensures var r := ParseRedirs(buf, st, bare, pending);
            Redirs(buf, st, bare, pending, rs, r.node, r.st)
    decreases Rem(buf, st)
  {
    hide OneRedir, ResolveFd, Start, SplitFd;
    rs := [];
    if IsRedirKind(st.tok.kind) {
      var r, next, s := TurnFound(buf, st, bare, pending);
      TurnExact(buf, st, bare, pending, r, next, s);
      hide ParseRedirs;
      var rest := RedirsFound(buf, s, AddRedir(ResolveFd(buf, st, bare, pending).1, r), next);
      rs := [r] + rest;
      assert rs[1..] == rest;
      var done := ParseRedirs(buf, st, bare, pending);
      RedirsStep(buf, st, bare, pending, rs, done.node, done.st, next, s);
    }
  }

  lemma {:induction false} RedirsAccepted(buf: string, st: St, bare: Node, pending: int, rs: seq<Redir>, n: Node, t: St)
    requires InBuf(buf, st) && Redirs(buf, st, bare, pending, rs, n, t)
    ensures ParseRedirs(buf, st, bare, pending) == Ok(n, t)
    decreases |rs|
  {
    hide OneRedir, ResolveFd, Start, SplitFd;
    if rs != [] {
      var dest, command := ResolveFd(buf, st, bare, pending).0, ResolveFd(buf, st, bare, pending).1;
      var next, s :| OneRedir(buf, st, dest, rs[0], next, s) && InBuf(buf, s) && Redirs(buf, s, AddRedir(command, rs[0]), next, rs[1..], n, t);
      TurnExact(buf, st, bare, pending, rs[0], next, s);
      hide ParseRedirs;
      RedirsAccepted(buf, s, AddRedir(command, rs[0]), next, rs[1..], n, t);
    }
  }

  // ---- what the parser accepts is derived -------------------------------------------------------------

  /** A state that the lexer can be in. */
  predicate Lexed(buf: string, st: St) {
    InBuf(buf, st) && |st.tok.text| < TOKEN_TEXT_MAX
  }

  lemma {:induction false} QuietLexed(buf: string, st: St)
    requires Lexed(buf, st)
    ensures Lexed(buf, SkipQuiet(buf, st))
    decreases Rem(buf, st)
  {
    if st.tok.kind == At {
      QuietLexed(buf, Start(buf, st.pos));
    }
  }

  lemma {:induction false} AcceptedDerives(buf: string, st: St, k: nat)
    requires Lexed(buf, st) && k <= 4 && ParseLevel(buf, st, k).Ok?
    ensures var r := ParseLevel(buf, st, k);
            Derives(buf, st, r.node, r.st) && Level(r.node) >= k && !IsRedirKind(r.st.tok.kind) && Ends(r.st, k)
    decreases Rem(buf, st), 2 * (4 - k) + 2
  {
    hide Derives, Start, ParseCommand, ParseTail, ParseRedirs;
    if k == 4 {
      AcceptedAtom(buf, st);
    } else {
      AcceptedDerives(buf, st, k + 1);
      var l := ParseLevel(buf, st, k + 1);
      AcceptedTail(buf, st, l.st, k, l.node);
    }
  }

  lemma {:induction false} AcceptedTail(buf: string, st: St, mid: St, k: nat, left: Node)
    requires InBuf(buf, st) && InBuf(buf, mid) && Rem(buf, mid) <= Rem(buf, st) && k < 4 && ParseTail(buf, mid, k, left).Ok?
    requires Derives(buf, st, left, mid) && Level(left) >= k && !IsRedirKind(mid.tok.kind) && Ends(mid, k + 1)
    ensures var r := ParseTail(buf, mid, k, left);
            Derives(buf, st, r.node, r.st) && Level(r.node) >= k && !IsRedirKind(r.st.tok.kind) && Ends(r.st, k)
    decreases Rem(buf, mid), 2 * (4 - k) + 1
  {
    hide Derives, Start, ParseLevel;
    if mid.tok.kind == KindOfLevel(k) {
      var next := Start(buf, mid.pos);
      AcceptedDerives(buf, next, k + 1);
      var r := ParseLevel(buf, next, k + 1);
      var n := Binary(OpOfLevel(k), left, r.node, false, []);
      BinaryDerives(buf, st, n, mid, r.st);
      AcceptedTail(buf, st, r.st, k, n);
    }
  }

  lemma BinaryDerives(buf: string, st: St, n: Node, mid: St, t: St)
    requires InBuf(buf, st) && InBuf(buf, mid) && n.Binary? && !n.quiet && n.redirs == []
    requires Derives(buf, st, n.left, mid) && mid.tok.kind == KindOfLevel(OpLevel(n.op)) && Derives(buf, Start(buf, mid.pos), n.right, t)
    requires Level(n.left) >= OpLevel(n.op) && Level(n.right) > OpLevel(n.op)
    ensures Derives(buf, st, n, t)
  {
    hide Start;
  }

  lemma {:induction false} AcceptedAtom(buf: string, st: St)
    requires Lexed(buf, st) && ParseLevel(buf, st, 4).Ok?
    ensures var r := ParseLevel(buf, st, 4);
            Derives(buf, st, r.node, r.st) && Level(r.node) == 4 && !IsRedirKind(r.st.tok.kind)
    decreases Rem(buf, st), 1
  {
    hide Derives, Start, ParseText, ParseRedirs, SkipQuiet, Quiets, Command, Redirs;
    var q, s := st.tok.kind == At, SkipQuiet(buf, st);
    QuietsExact(buf, st, q, s);
    QuietLexed(buf, st);
    var r := ParseLevel(buf, st, 4);
    var c := ParseCommand(buf, st);
    var rs := RedirsFound(buf, c.st, c.node, -1);
    if s.tok.kind == LParen {
      AcceptedDerives(buf, Start(buf, s.pos), 0);
      var u := ParseLevel(buf, Start(buf, s.pos), 0);
      RedirsKeep(buf, c.st, c.node, -1, rs, r.node, r.st);
      GroupDerives(buf, st, s, u.st, q, rs, u.node, r.node, r.st);
    } else {
      var text := ParseText(buf, s);
      CommandExact(buf, s, text.node, text.st);
      var line :| Command(buf, s, line, text.st) && text.node == Simple(line, false, []);
      RedirsKeep(buf, c.st, c.node, -1, rs, r.node, r.st);
      SimpleDerives(buf, st, s, text.st, q, line, rs, r.node, r.st);
    }
  }

  lemma GroupDerives(buf: string, st: St, s: St, u: St, q: bool, rs: seq<Redir>, c: Node, n: Node, t: St)
    requires InBuf(buf, st) && InBuf(buf, s) && InBuf(buf, u) && Quiets(buf, st, q, s) && s.tok.kind == LParen
    requires Derives(buf, Start(buf, s.pos), c, u) && u.tok.kind == RParen && n == Group(c, q, rs)
    requires Redirs(buf, Start(buf, u.pos), Group(c, q, []), -1, rs, n, t)
    ensures Derives(buf, st, n, t)
  {
    hide Start, Quiets, Redirs;
  }

  lemma SimpleDerives(buf: string, st: St, s: St, u: St, q: bool, text: string, rs: seq<Redir>, n: Node, t: St)
    requires InBuf(buf, st) && InBuf(buf, s) && InBuf(buf, u) && Quiets(buf, st, q, s) && Command(buf, s, text, u)
    requires n.Simple? && n.quiet == q && n.redirs == rs && Redirs(buf, u, Simple(text, q, []), -1, rs, n, t)
    ensures Derives(buf, st, n, t)
  {
    hide Start, Quiets, Redirs, Command;
  }

  /** Redirections change nothing of a command but its text and its list. */
  lemma {:induction false} RedirsKeep(buf: string, st: St, bare: Node, pending: int, rs: seq<Redir>, n: Node, t: St)
    requires InBuf(buf, st) && Redirs(buf, st, bare, pending, rs, n, t) && !bare.Binary?
    ensures n.quiet == bare.quiet && n.redirs == bare.redirs + rs && !IsRedirKind(t.tok.kind) && InBuf(buf, t)
    ensures if bare.Simple? then n.Simple? else n.Group? && n.child == bare.child
    decreases |rs|
  {
    hide OneRedir, Start;
    if rs == [] {
      assert bare.redirs + rs == bare.redirs;
    } else {
      var dest, command := ResolveFd(buf, st, bare, pending).0, ResolveFd(buf, st, bare, pending).1;
      var next, s :| OneRedir(buf, st, dest, rs[0], next, s) && InBuf(buf, s) && Redirs(buf, s, AddRedir(command, rs[0]), next, rs[1..], n, t);
      RedirsKeep(buf, s, AddRedir(command, rs[0]), next, rs[1..], n, t);
      assert bare.redirs + [rs[0]] + rs[1..] == bare.redirs + rs;
    }
  }

  // ---- the parts of a derivation ----------------------------------------------------------------------

  lemma DerivedSimple(buf: string, st: St, n: Node, t: St) returns (s: St, text: string, u: St)
    requires InBuf(buf, st) && n.Simple? && Derives(buf, st, n, t)
    ensures Quiets(buf, st, n.quiet, s) && InBuf(buf, s) && Command(buf, s, text, u) && InBuf(buf, u)
    ensures Redirs(buf, u, Simple(text, n.quiet, []), -1, n.redirs, n, t)
  {
    hide Start, Quiets, Redirs, Command;
    s, text, u :| Quiets(buf, st, n.quiet, s) && InBuf(buf, s) && Command(buf, s, text, u) && InBuf(buf, u) &&
                  Redirs(buf, u, Simple(text, n.quiet, []), -1, n.redirs, n, t);
  }

  lemma DerivedGroup(buf: string, st: St, n: Node, t: St) returns (s: St, u: St)
    requires InBuf(buf, st) && n.Group? && Derives(buf, st, n, t)
    ensures Quiets(buf, st, n.quiet, s) && InBuf(buf, s) && s.tok.kind == LParen
    ensures Derives(buf, Start(buf, s.pos), n.child, u) && InBuf(buf, u) && u.tok.kind == RParen
    ensures Redirs(buf, Start(buf, u.pos), Group(n.child, n.quiet, []), -1, n.redirs, n, t)
  {
    hide Start, Quiets, Redirs;
    s, u :| Quiets(buf, st, n.quiet, s) && InBuf(buf, s) && s.tok.kind == LParen &&
            Derives(buf, Start(buf, s.pos), n.child, u) && InBuf(buf, u) && u.tok.kind == RParen &&
            Redirs(buf, Start(buf, u.pos), Group(n.child, n.quiet, []), -1, n.redirs, n, t);
  }

  lemma DerivedBinary(buf: string, st: St, n: Node, t: St) returns (u: St)
    requires InBuf(buf, st) && n.Binary? && Derives(buf, st, n, t)
    ensures !n.quiet && n.redirs == [] && Level(n.left) >= OpLevel(n.op) && Level(n.right) > OpLevel(n.op)
    ensures Derives(buf, st, n.left, u) && InBuf(buf, u) && u.tok.kind == KindOfLevel(OpLevel(n.op))
    ensures Derives(buf, Start(buf, u.pos), n.right, t)
  {
    hide Start, Quiets, Command, Redirs, Level, KindOfLevel;
    u :| Derives(buf, st, n.left, u) && InBuf(buf, u) && u.tok.kind == KindOfLevel(OpLevel(n.op)) && Derives(buf, Start(buf, u.pos), n.right, t);
  }

  // ---- what is derived the parser accepts -----------------------------------------------------------

  lemma SimpleAccepted(buf: string, st: St, n: Node, t: St)
    requires Lexed(buf, st) && n.Simple? && Derives(buf, st, n, t)
    ensures ParseLevel(buf, st, 4) == Ok(n, t) && InBuf(buf, t)
  {
    hide Start, ParseText, ParseRedirs, SkipQuiet, Quiets, Command, Redirs, Derives;
    var q := n.quiet;
    var s, text, u := DerivedSimple(buf, st, n, t);
    QuietsExact(buf, st, q, s);
    QuietLexed(buf, st);
    CommandText(buf, s, text, u);
    CommandExact(buf, s, Simple(text, false, []), u);
    RedirsAccepted(buf, u, Simple(text, q, []), -1, n.redirs, n, t);
    RedirsKeep(buf, u, Simple(text, q, []), -1, n.redirs, n, t);
    assert ParseCommand(buf, st) == Ok(Simple(text, q, []), u);
  }

  lemma CommandText(buf: string, st: St, text: string, t: St)
    requires InBuf(buf, st) && Command(buf, st, text, t)
    ensures st.tok.kind == Text
  {
  }

  lemma GroupAccepted(buf: string, st: St, s: St, u: St, n: Node, t: St)
    requires Lexed(buf, st) && n.Group? && Quiets(buf, st, n.quiet, s) && InBuf(buf, s) && s.tok.kind == LParen
    requires ParseLevel(buf, Start(buf, s.pos), 0) == Ok(n.child, u) && u.tok.kind == RParen && InBuf(buf, u)
    requires Redirs(buf, Start(buf, u.pos), Group(n.child, n.quiet, []), -1, n.redirs, n, t)
    ensures ParseLevel(buf, st, 4) == Ok(n, t) && InBuf(buf, t)
  {
    hide Start, ParseText, ParseRedirs, SkipQuiet, Quiets, Redirs;
    QuietsExact(buf, st, n.quiet, s);
    var bare := Group(n.child, n.quiet, []);
    RedirsAccepted(buf, Start(buf, u.pos), bare, -1, n.redirs, n, t);
    RedirsKeep(buf, Start(buf, u.pos), bare, -1, n.redirs, n, t);
    assert ParseCommand(buf, st) == Ok(bare, Start(buf, u.pos)) by { hide ParseLevel; }
  }

  lemma {:induction false} DerivedAt(buf: string, st: St, n: Node, t: St, k: nat)
    requires Lexed(buf, st) && k <= 4 && Level(n) >= k && Derives(buf, st, n, t) && Ends(t, k)
    ensures ParseLevel(buf, st, k) == Ok(n, t) && InBuf(buf, t)
    decreases n, 2 * (4 - k) + 1
  {
    hide Start, ParseLevel, ParseRedirs, Quiets, Redirs, Derives;
    if k < 4 {
      DerivedSpine(buf, st, n, t, k);
      assert t.tok.kind != KindOfLevel(k);
    } else if n.Simple? {
      SimpleAccepted(buf, st, n, t);
    } else {
      var s, u := DerivedGroup(buf, st, n, t);
      DerivedAt(buf, Start(buf, s.pos), n.child, u, 0);
      GroupAccepted(buf, st, s, u, n, t);
    }
  }

  /** Along the left spine: the operator loop has built `n` when it comes to `t`. */
  lemma {:induction false} DerivedSpine(buf: string, st: St, n: Node, t: St, k: nat)
    requires Lexed(buf, st) && k < 4 && Level(n) >= k && Derives(buf, st, n, t) && Ends(t, k + 1)
    ensures InBuf(buf, t) && ParseLevel(buf, st, k) == ParseTail(buf, t, k, n)
    decreases n, 2 * (4 - k)
  {
    hide Start, ParseLevel, ParseTail, ParseRedirs, Quiets, Redirs, Derives;
    if Level(n) > k {
      DerivedAt(buf, st, n, t, k + 1);
      LevelTail(buf, st, k);
    } else {
      var u := DerivedBinary(buf, st, n, t);
      DerivedSpine(buf, st, n.left, u, k);
      DerivedAt(buf, Start(buf, u.pos), n.right, t, k + 1);
      TailStep(buf, u, k, n.left, n.right, t);
      assert n == Binary(n.op, n.left, n.right, false, []);
    }
  }

  lemma LevelTail(buf: string, st: St, k: nat)
    requires InBuf(buf, st) && k < 4 && ParseLevel(buf, st, k + 1).Ok?
    ensures var r := ParseLevel(buf, st, k + 1); ParseLevel(buf, st, k) == ParseTail(buf, r.st, k, r.node)
  {
    hide ParseTail;
  }

  lemma TailStep(buf: string, u: St, k: nat, left: Node, right: Node, t: St)
    requires InBuf(buf, u) && k < 4 && u.tok.kind == KindOfLevel(k) && ParseLevel(buf, Start(buf, u.pos), k + 1) == Ok(right, t)
    ensures InBuf(buf, t) && ParseTail(buf, u, k, left) == ParseTail(buf, t, k, Binary(OpOfLevel(k), left, right, false, []))
  {
    hide Start, ParseLevel;
  }

  // ---- the theorems -----------------------------------------------------------------------------------

  /** Each level of the parser accepts exactly the phrases of its level that nothing continues,
      and returns their tree. */
  lemma LevelExact(buf: string, st: St, k: nat, n: Node, t: St)
    requires Lexed(buf, st) && k <= 4
    ensures ParseLevel(buf, st, k) == Ok(n, t) <==> Level(n) >= k && Derives(buf, st, n, t) && Ends(t, k)
  {
    hide ParseLevel, Derives, Ends;
    if ParseLevel(buf, st, k) == Ok(n, t) {
      AcceptedDerives(buf, st, k);
    }
    if Level(n) >= k && Derives(buf, st, n, t) && Ends(t, k) {
      DerivedAt(buf, st, n, t, k);
    }
  }

  /** Phrases are unambiguous: two readings from one place that nothing continues are one. */
  lemma PhraseUnique(buf: string, st: St, n: Node, t: St, m: Node, u: St)
    requires Lexed(buf, st) && Derives(buf, st, n, t) && Ends(t, 0) && Derives(buf, st, m, u) && Ends(u, 0)
    ensures m == n && u == t
  {
    hide ParseLevel, Derives, Ends;
    LevelExact(buf, st, 0, n, t);
    LevelExact(buf, st, 0, m, u);
  }

  lemma {:induction false} DerivedBegins(buf: string, st: St, n: Node, t: St)
    requires InBuf(buf, st) && Derives(buf, st, n, t)
    ensures st.tok.kind != Eol
    decreases n
  {
    hide Start, Redirs, Command, Quiets, Derives;
    match n
    case Simple(_, q, _) =>
      var s, text, u := DerivedSimple(buf, st, n, t);
      QuietsExact(buf, st, q, s);
      CommandText(buf, s, text, u);
    case Group(_, q, _) =>
      var s, u := DerivedGroup(buf, st, n, t);
      QuietsExact(buf, st, q, s);
    case Binary(_, l, _, _, _) =>
      var u := DerivedBinary(buf, st, n, t);
      DerivedBegins(buf, st, l, u);
  }

  /** The parser decides the grammar: for every line it returns the tree of the sentence, of which
      there is one only, and fails exactly on lines that are neither empty nor a sentence. */
  lemma ParseExact(buf: string)
    ensures forall n :: Parse(buf) == Parsed(n) <==> Sentence(buf, n)
    ensures forall n, m :: Sentence(buf, n) && Sentence(buf, m) ==> n == m
    ensures Parse(buf).Empty? <==> Start(buf, 0).tok.kind == Eol
    ensures Parse(buf).Failed? <==> Start(buf, 0).tok.kind != Eol && forall n :: !Sentence(buf, n)
  {
    hide ParseLevel, Start, Derives;
    var st := Start(buf, 0);
    forall n ensures Parse(buf) == Parsed(n) <==> Sentence(buf, n) {
      SentenceExact(buf, n);
    }
    if Parse(buf).Parsed? {
      assert Sentence(buf, Parse(buf).root);
    }
    if n :| Sentence(buf, n) {
      assert Parse(buf) == Parsed(n);
    }
  }

  lemma SentenceExact(buf: string, n: Node)
    ensures Parse(buf) == Parsed(n) <==> Sentence(buf, n)
  {
    hide ParseLevel, Start, Derives;
    var st := Start(buf, 0);
    if Parse(buf) == Parsed(n) {
      LevelExact(buf, st, 0, n, ParseLevel(buf, st, 0).st);
    }
    if Sentence(buf, n) {
      var t :| Derives(buf, st, n, t) && t.tok.kind == Eol;
      DerivedBegins(buf, st, n, t);
      LevelExact(buf, st, 0, n, t);
    }
  }

  /** Every sentence's tree is one of the precedence ladder. */
  lemma {:induction false} DerivedLadder(buf: string, st: St, n: Node, t: St)
    requires InBuf(buf, st) && Derives(buf, st, n, t)
    ensures Ladder(n)
    decreases n
  {
    hide Start, Redirs, Command, Quiets, Derives;
    match n
    case Simple(_, _, _) =>
    case Group(c, _, _) =>
      var s, u := DerivedGroup(buf, st, n, t);
      DerivedLadder(buf, Start(buf, s.pos), c, u);
    case Binary(_, l, r, _, _) =>
      var u := DerivedBinary(buf, st, n, t);
      DerivedLadder(buf, st, l, u);
      DerivedLadder(buf, Start(buf, u.pos), r, t);
  }
}

/** What a redirection target that the parser returns can look like. */
module CmdTargets {
  import opened CmdLexer
  import opened CmdTree
  import opened CmdParser
  import opened CmdTokens
  import opened CmdPrinted
  import G = CmdGrammar

  // ---- one token ------------------------------------------------------------------------------

  /** Read from quotation state `quoted`, the text has no metacharacter outside its quotes. */
  predicate Clean(s: string, quoted: bool, literalParens: bool) {
    s == "" ||
    if s[0] == '"' then Clean(s[1..], !quoted, literalParens)
    else !IsMeta(s[0], quoted, literalParens) && Clean(s[1..], quoted, literalParens)
  }

  lemma {:induction false} CleanPrefix(s: string, k: nat, quoted: bool, lit: bool)
    requires Clean(s, quoted, lit) && k <= |s|
    ensures Clean(s[..k], quoted, lit)
    decreases |s|
  {
    if 0 < k {
      CleanPrefix(s[1..], k - 1, if s[0] == '"' then !quoted else quoted, lit);
      assert s[..k][1..] == s[1..][..k - 1];
    }
  }

  /** A TEXT span ends at the first such metacharacter. */
  lemma {:induction false} SpanClean(buf: string, i: nat, quoted: bool, lit: bool)
    requires i <= |buf|
    ensures Clean(buf[i..TextEnd(buf, i, quoted, lit).0], quoted, lit)
    decreases |buf| - i
  {
    var e := TextEnd(buf, i, quoted, lit).0;
    if i < |buf| && i < e {
      SpanClean(buf, i + 1, if buf[i] == '"' then !quoted else quoted, lit);
      assert buf[i..e][1..] == buf[i + 1..e];
    }
  }

  lemma {:induction false} TrimEndPrefix(s: string) returns (k: nat)
    ensures k <= |s| && TrimEnd(s) == s[..k]
    decreases |s|
  {
    if s != [] && IsBlank(s[|s| - 1]) {
      k := TrimEndPrefix(s[..|s| - 1]);
      assert s[..|s| - 1][..k] == s[..k];
    } else {
      k := |s|;
      assert s[..k] == s;
    }
  }

  lemma LexCopyPrefix(s: string) returns (k: nat)
    requires s != [] && !IsBlank(s[0])
    ensures k <= |s| && LexCopy(s) == s[..k]
  {
    k := TrimEndPrefix(s);
    if k >= TOKEN_TEXT_MAX {
      assert s[..k][..TOKEN_TEXT_MAX - 1] == s[..TOKEN_TEXT_MAX - 1];
      k := TOKEN_TEXT_MAX - 1;
    }
  }

  /** Text that opens with a quote has no metacharacter outside its quotes. */
  predicate Kempt(s: string) {
    s != "" && s[0] == '"' ==> Clean(s, false, false)
  }

  lemma TokenKempt(buf: string, i: nat)
    requires i <= |buf| && Start(buf, i).tok.kind == Text
    ensures Kempt(Start(buf, i).tok.text)
  {
    hide TextEnd, LexCopy, StartsSet, Clean;
    var j := SkipSpace(buf, i);
    var lit := StartsSet(buf, j);
    var e := TextEnd(buf, j + 1, buf[j] == '"', lit).0;
    var s := buf[j..e];
    var k := LexCopyPrefix(s);
    assert Start(buf, i).tok.text == s[..k];
    if 0 < k && s[0] == '"' {
      NoSetQuote(buf, j);
      SpanClean(buf, j + 1, true, false);
      assert s[1..] == buf[j + 1..e];
      CleanQuote(s);
      CleanPrefix(s, k, false, false);
    }
  }

  lemma NoSetQuote(buf: string, j: nat)
    requires CharAt(buf, j) == '"'
    ensures !StartsSet(buf, j)
  {
  }

  lemma CleanQuote(s: string)
    requires s != "" && s[0] == '"' && Clean(s[1..], true, false)
    ensures Clean(s, false, false)
  {
  }

  lemma KemptPrefix(s: string, k: nat)
    requires Kempt(s) && k <= |s|
    ensures Kempt(s[..k])
  {
    if 0 < k && s[0] == '"' {
      CleanPrefix(s, k, false, false);
    }
  }

  // ---- every target of a sentence --------------------------------------------------------------

  predicate KemptRedirs(rs: seq<Redir>) {
    forall i :: 0 <= i < |rs| ==> rs[i].File? ==> Kempt(rs[i].target)
  }

  predicate KemptTree(n: Node) {
    KemptRedirs(n.redirs) &&
    match n
    case Simple(_, _, _) => true
    case Group(c, _, _) => KemptTree(c)
    case Binary(_, l, r, _, _) => KemptTree(l) && KemptTree(r)
  }

  lemma OneRedirKempt(buf: string, st: St, dest: int, r: Redir, next: int, t: St)
    requires InBuf(buf, st) && IsRedirKind(st.tok.kind) && G.OneRedir(buf, st, dest, r, next, t)
    ensures r.File? ==> Kempt(r.target)
  {
    hide Start, Kempt;
    if r.File? {
      var text := Start(buf, st.pos).tok.text;
      TokenKempt(buf, st.pos);
      if IsRedirKind(t.tok.kind) && EndsInFd(buf, t.tok.offset, text) {
        var k := TrimEndPrefix(text[..|text| - 1]);
        assert text[..|text| - 1][..k] == text[..k];
        KemptPrefix(text, k);
      }
    }
  }

  lemma {:induction false} RedirsKempt(buf: string, st: St, bare: Node, pending: int, rs: seq<Redir>, n: Node, t: St)
    requires InBuf(buf, st) && G.Redirs(buf, st, bare, pending, rs, n, t)
    ensures KemptRedirs(rs)
    decreases |rs|
  {
    hide G.OneRedir, Start, Kempt;
    if rs != [] {
      var dest, command := ResolveFd(buf, st, bare, pending).0, ResolveFd(buf, st, bare, pending).1;
      var next, s :| G.OneRedir(buf, st, dest, rs[0], next, s) && InBuf(buf, s) &&
                     G.Redirs(buf, s, AddRedir(command, rs[0]), next, rs[1..], n, t);
      OneRedirKempt(buf, st, dest, rs[0], next, s);
      RedirsKempt(buf, s, AddRedir(command, rs[0]), next, rs[1..], n, t);
    }
  }

  lemma {:induction false} DerivedKempt(buf: string, st: St, n: Node, t: St)
    requires InBuf(buf, st) && G.Derives(buf, st, n, t)
    ensures KemptTree(n)
    decreases n
  {
    hide Start, G.Derives, G.Quiets, G.Command, G.Redirs, KemptRedirs;
    match n
    case Simple(_, q, rs) =>
      var s, text, u := G.DerivedSimple(buf, st, n, t);
      RedirsKempt(buf, u, Simple(text, q, []), -1, rs, n, t);
    case Group(c, q, rs) =>
      var s, u := G.DerivedGroup(buf, st, n, t);
      DerivedKempt(buf, Start(buf, s.pos), c, u);
      RedirsKempt(buf, Start(buf, u.pos), Group(c, q, []), -1, rs, n, t);
    case Binary(_, l, r, _, _) =>
      var u := G.DerivedBinary(buf, st, n, t);
      assert KemptRedirs([]) by { NoneKempt(); }
      DerivedKempt(buf, st, l, u);
      DerivedKempt(buf, Start(buf, u.pos), r, t);
  }

  lemma NoneKempt()
    ensures KemptRedirs([])
  {
  }

  /** No line is parsed into a tree with a target that opens with a quote and has a metacharacter
      outside its quotes. */
  lemma ParsedKempt(buf: string, n: Node)
    requires Parse(buf) == Parsed(n)
    ensures KemptTree(n)
  {
    hide Parse, Start, G.Derives, KemptTree;
    G.ParseExact(buf);
    var t :| G.Derives(buf, Start(buf, 0), n, t) && t.tok.kind == Eol;
    DerivedKempt(buf, Start(buf, 0), n, t);
  }

  // ---- quoting a target again --------------------------------------------------------------------

  /** A target as the lexer keeps it whole: like command text, it may be a SET with parentheses. */
  predicate FairTarget(r: Redir) {
    r.File? ==> Trimmed(r.target) && Safe(r.target, false, IsSet(r.target)) && FdAllowed(r.kind, r.dest)
  }

  predicate FairTargets(rs: seq<Redir>) {
    forall i :: 0 <= i < |rs| ==> FairTarget(rs[i])
  }

  /** Ordinary command texts and targets that lexing keeps whole. */
  predicate Fair(n: Node) {
    match n
    case Simple(text, _, rs) => GoodText(text) && FairTargets(rs)
    case Group(c, _, rs) => Fair(c) && FairTargets(rs)
    case Binary(_, l, r, _, _) => Fair(l) && Fair(r)
  }

  lemma {:induction false} WellFormedFair(n: Node)
    requires WellFormed(n)
    ensures Fair(n)
  {
    hide GoodText, Safe;
    match n
    case Simple(_, _, rs) =>
    case Group(c, _, rs) =>
      WellFormedFair(c);
    case Binary(_, l, r, _, _) =>
      WellFormedFair(l);
      WellFormedFair(r);
  }

  /** A target that rendering quotes closes its quotes, and has no metacharacter outside them,
      with the new pair around it. */
  predicate Requoted(r: Redir) {
    r.File? && HasBlank(r.target) ==> Safe("\"" + r.target + "\"", false, false)
  }

  predicate Requotes(n: Node) {
    (forall i :: 0 <= i < |n.redirs| ==> Requoted(n.redirs[i])) &&
    match n
    case Simple(_, _, _) => true
    case Group(c, _, _) => Requotes(c)
    case Binary(_, l, r, _, _) => Requotes(l) && Requotes(r)
  }

  /** Text with closed quotes, read one quote later, closes them with one quote more. */
  lemma {:induction false} OneQuoteMore(s: string, quoted: bool, lit: bool)
    requires Safe(s, !quoted, lit) && Clean(s + "\"", quoted, false)
    ensures Safe(s + "\"", quoted, false)
    decreases |s|
  {
    var t := s + "\"";
    if s == "" {
      assert t == "\"" && t[1..] == "";
    } else {
      assert t[1..] == s[1..] + "\"" && t[0] == s[0];
      OneQuoteMore(s[1..], if s[0] == '"' then !quoted else quoted, lit);
    }
  }

  lemma KemptQuotes(s: string, lit: bool)
    requires Safe(s, false, lit) && Kempt("\"" + s + "\"")
    ensures Safe("\"" + s + "\"", false, false)
  {
    var t := "\"" + s + "\"";
    assert t[1..] == s + "\"" && t[0] == '"';
    OneQuoteMore(s, true, lit);
  }

  lemma QuotedGood(r: Redir)
    requires FairTarget(r) && r.File?
    ensures var c := r.(target := TargetText(r.target));
            (Requoted(r) ==> GoodRedir(c)) && (Kempt(c.target) ==> Requoted(r))
  {
    hide Safe, Kempt;
    if HasBlank(r.target) {
      var t := "\"" + r.target + "\"";
      assert Trimmed(t) && t[0] == '"';
      if Kempt(t) {
        KemptQuotes(r.target, IsSet(r.target));
      }
    }
  }

  lemma {:induction false} RedirsQuoted(rs: seq<Redir>)
    requires FairTargets(rs)
    ensures (forall i :: 0 <= i < |rs| ==> Requoted(rs[i])) ==> GoodRedirs(CanonRedirs(rs))
    ensures KemptRedirs(CanonRedirs(rs)) ==> forall i :: 0 <= i < |rs| ==> Requoted(rs[i])
    decreases |rs|
  {
    hide GoodRedir, FairTarget, Requoted, Kempt;
    if rs != [] {
      var rest := rs[1..];
      var c := CanonRedirs(rs);
      assert forall i :: 0 <= i < |rest| ==> rest[i] == rs[i + 1];
      RedirsQuoted(rest);
      assert c == [c[0]] + CanonRedirs(rest);
      FirstQuoted(rs[0], c[0]);
      if forall i :: 0 <= i < |rs| ==> Requoted(rs[i]) {
        assert GoodRedirs(CanonRedirs(rest));
      }
      if KemptRedirs(c) {
        assert forall i :: 0 <= i < |rest| ==> CanonRedirs(rest)[i] == c[i + 1];
        assert KemptRedirs(CanonRedirs(rest));
        assert Requoted(rs[0]);
        forall i | 0 <= i < |rs| ensures Requoted(rs[i]) {
          if i > 0 {
            assert Requoted(rest[i - 1]);
          }
        }
      }
    }
  }

  lemma FirstQuoted(r: Redir, c: Redir)
    requires FairTarget(r) && c == if r.File? then r.(target := TargetText(r.target)) else r
    ensures Requoted(r) ==> GoodRedir(c)
    ensures (c.File? ==> Kempt(c.target)) ==> Requoted(r)
  {
    hide FairTarget, GoodRedir, Kempt;
    if r.File? {
      QuotedGood(r);
    } else {
      DupGood(c);
    }
  }

  lemma DupGood(r: Redir)
    requires r.Dup?
    ensures GoodRedir(r)
  {
  }

  /** Of a fair tree, the tree that rendering denotes is well-formed if every target stands
      the quotes, and the tree of no line if one does not. */
  lemma {:induction false} CanonQuoted(n: Node)
    requires PlainBinaries(n) && Fair(n)
    ensures Requotes(n) ==> WellFormed(Canon(n))
    ensures KemptTree(Canon(n)) ==> Requotes(n)
  {
    hide GoodText, GoodRedirs, FairTargets, Requoted, KemptRedirs, CanonRedirs;
    match n
    case Simple(_, _, rs) =>
      RedirsQuoted(rs);
    case Group(c, _, rs) =>
      CanonQuoted(c);
      RedirsQuoted(rs);
    case Binary(op, l, r, q, rs) =>
      CanonQuoted(l);
      CanonQuoted(r);
      NoneGood();
      KemptBinary(op, Canon(l), Canon(r), q, CanonRedirs(rs));
  }

  lemma KemptBinary(op: Op, l: Node, r: Node, q: bool, rs: seq<Redir>)
    ensures KemptTree(Group(Binary(op, l, r, false, []), q, rs)) ==> KemptTree(l) && KemptTree(r)
  {
    hide KemptRedirs;
    var b := Binary(op, l, r, false, []);
    assert KemptTree(Group(b, q, rs)) ==> KemptTree(b);
  }

  lemma NoneGood()
    ensures GoodRedirs([]) && CanonRedirs([]) == []
  {
  }
}

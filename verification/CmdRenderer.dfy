/** Rendering a command tree into a bounded text buffer. */
module CmdRenderer {
  import opened CmdTree

  /** `text` was appended in full exactly when it fits; otherwise only its beginning may be. */
  predicate Appended(before: string, text: string, after: string, ok: bool, cap: nat) {
    |after| + 1 <= cap && (ok <==> |before| + |text| + 1 <= cap) &&
    (if ok then after == before + text else before <= after <= before + text)
  }

  class TextBuffer {
    const cap: nat
    var data: string

    /** The text and its terminator fit. */
    ghost predicate Valid()
      reads this
    {
      |data| + 1 <= cap
    }

    constructor (size: nat)
      requires size > 0
      ensures Valid() && cap == size && data == ""
    {
      cap := size;
      data := "";
    }

    method TextAppend(text: string) returns (ok: bool)
      requires Valid()
      modifies this
      ensures Valid() && Appended(old(data), text, data, ok, cap) && (!ok ==> data == old(data))
    {
      if |data| + |text| + 1 > cap {
        return false;
      }
      data := data + text;
      return true;
    }

    method TextAppendChar(c: char) returns (ok: bool)
      requires Valid()
      modifies this
      ensures Valid() && Appended(old(data), [c], data, ok, cap) && (!ok ==> data == old(data))
    {
      if |data| + 2 > cap {
        return false;
      }
      data := data + [c];
      return true;
    }

    method AppendTarget(target: string) returns (ok: bool)
      requires Valid()
      modifies this
      ensures Valid() && Appended(old(data), TargetText(target), data, ok, cap)
    {
      if HasBlank(target) {
        ok := TextAppendChar('"');
        if ok {
          ok := TextAppend(target);
        }
        if ok {
          ok := TextAppendChar('"');
        }
      } else {
        ok := TextAppend(target);
      }
    }

    method RenderRedir(r: Redir) returns (ok: bool)
      requires Valid()
      modifies this
      ensures Valid() && Appended(old(data), RedirsText(CanonRedirs([r])), data, ok, cap)
    {
      hide TargetText, Digit;
      OneRedir(r);
      if r.Dup? {
        ok := TextAppend(" " + [Digit(r.dest)] + ">&" + [Digit(r.source)]);
        return;
      }
      var op := " ";
      if r.dest != DefaultFd(r.kind) {
        op := op + [Digit(r.dest)];
      }
      op := op + (if r.kind.Input? then "< " else if r.kind.AppendTo? then ">> " else "> ");
      assert RedirsText(CanonRedirs([r])) == op + TargetText(r.target);
      ok := TextAppend(op);
      if ok {
        ok := AppendTarget(r.target);
      }
    }

    method RenderRedirs(rs: seq<Redir>) returns (ok: bool)
      requires Valid()
      modifies this
      ensures Valid() && Appended(old(data), RedirsText(CanonRedirs(rs)), data, ok, cap)
    {
      hide RedirsText, CanonRedirs, Appended;
      NoRedirs();
      Nothing(data, cap);
      ok := true;
      var i := 0;
      while i < |rs|
        invariant 0 <= i <= |rs| && Valid() && ok
        invariant Appended(old(data), RedirsText(CanonRedirs(rs[..i])), data, true, cap)
      {
        RedirsSplit(rs, i);
        ghost var mid := data;
        ok := RenderRedir(rs[i]);
        Compose(old(data), RedirsText(CanonRedirs(rs[..i])), mid, RedirsText(CanonRedirs([rs[i]])), data, true, ok, cap);
        if !ok {
          Truncated(old(data), RedirsText(CanonRedirs(rs[..i + 1])), RedirsText(CanonRedirs(rs[i + 1..])), data, cap);
          return;
        }
        i := i + 1;
      }
      assert rs[..|rs|] == rs;
    }

    /** The rendered text is `Render(n)`, and rendering fails only for lack of room. */
    method RenderNodeCommand(n: Node) returns (ok: bool)
      requires Valid()
      modifies this
      ensures Valid() && Appended(old(data), Render(n), data, ok, cap)
      decreases n, 2
    {
      hide RedirsText, CanonRedirs, Appended, Render, RenderBody;
      RenderParts(n);
      ghost var tail := RedirsText(CanonRedirs(n.redirs));
      ghost var d0 := data;
      ok := true;
      if n.quiet {
        ok := TextAppendChar('@');
      } else {
        Nothing(d0, cap);
      }
      ghost var d1, wrote := data, ok;
      if ok {
        ok := RenderNodeBody(n);
      }
      Compose(d0, QuietText(n.quiet), d1, RenderBody(n), data, wrote, ok, cap);
      ghost var d2, wrote2 := data, ok;
      if ok {
        ok := RenderRedirs(n.redirs);
      }
      Compose(d0, QuietText(n.quiet) + RenderBody(n), d2, tail, data, wrote2, ok, cap);
    }

    method RenderNodeBody(n: Node) returns (ok: bool)
      requires Valid()
      modifies this
      ensures Valid() && Appended(old(data), RenderBody(n), data, ok, cap)
      decreases n, 1
    {
      hide Appended, Render;
      match n
      case Simple(text, _, _) =>
        ok := TextAppend(text);
      case Group(child, _, _) =>
        ok := TextAppendChar('(');
        ghost var d1, wrote := data, ok;
        if ok {
          ok := RenderNodeCommand(child);
        }
        Compose(old(data), "(", d1, Render(child), data, wrote, ok, cap);
        ghost var d2, wrote2 := data, ok;
        if ok {
          ok := TextAppendChar(')');
        }
        Compose(old(data), "(" + Render(child), d2, ")", data, wrote2, ok, cap);
      case Binary(op, left, right, _, _) =>
        ok := RenderBinary(n);
    }

    method RenderBinary(n: Node) returns (ok: bool)
      requires Valid() && n.Binary?
      modifies this
      ensures Valid() && Appended(old(data), RenderBody(n), data, ok, cap)
      decreases n, 0
    {
      hide Appended, Render, OpText;
      ghost var text := "(";
      ok := TextAppendChar('(');
      ghost var mid, wrote := data, ok;
      if ok {
        ok := RenderNodeCommand(n.left);
      }
      Compose(old(data), text, mid, Render(n.left), data, wrote, ok, cap);
      text, mid, wrote := text + Render(n.left), data, ok;
      if ok {
        ok := TextAppend(OpText(n.op));
      }
      Compose(old(data), text, mid, OpText(n.op), data, wrote, ok, cap);
      text, mid, wrote := text + OpText(n.op), data, ok;
      if ok {
        ok := RenderNodeCommand(n.right);
      }
      Compose(old(data), text, mid, Render(n.right), data, wrote, ok, cap);
      text, mid, wrote := text + Render(n.right), data, ok;
      if ok {
        ok := TextAppendChar(')');
      }
      Compose(old(data), text, mid, ")", data, wrote, ok, cap);
    }
  }

  /** A node without its `@` and redirections. */
  function RenderBody(n: Node): string {
    match n
    case Simple(text, _, _) => text
    case Group(c, _, _) => "(" + Render(c) + ")"
    case Binary(op, l, r, _, _) => "(" + Render(l) + OpText(op) + Render(r) + ")"
  }

  lemma RenderParts(n: Node)
    ensures Render(n) == QuietText(n.quiet) + RenderBody(n) + RedirsText(CanonRedirs(n.redirs))
  {
    hide RedirsText, CanonRedirs;
  }

  lemma Nothing(before: string, cap: nat)
    requires |before| + 1 <= cap
    ensures Appended(before, "", before, true, cap)
  {
  }

  /** Appending stops at the first piece that does not fit. */
  lemma Compose(before: string, first: string, mid: string, second: string, after: string, wrote: bool, ok: bool,
                cap: nat)
    requires Appended(before, first, mid, wrote, cap)
    requires if wrote then Appended(mid, second, after, ok, cap) else after == mid && !ok
    ensures Appended(before, first + second, after, ok, cap)
  {
  }

  lemma NoRedirs()
    ensures RedirsText(CanonRedirs([])) == "" && RedirsText([]) == ""
  {
  }

  lemma OneRedir(r: Redir)
    ensures RedirsText(CanonRedirs([r])) ==
            RedirText(if r.File? then r.(target := TargetText(r.target)) else r)
  {
    hide RedirText, TargetText;
    assert [r][1..] == [];
    var c := CanonRedirs([r]);
    assert c[1..] == [] && RedirsText(c[1..]) == "";
  }

  lemma {:induction false} RedirsConcat(a: seq<Redir>, b: seq<Redir>)
    ensures RedirsText(a + b) == RedirsText(a) + RedirsText(b)
    ensures CanonRedirs(a + b) == CanonRedirs(a) + CanonRedirs(b)
  {
    hide RedirText, TargetText, RedirsText, CanonRedirs;
    if a == [] {
      assert a + b == b;
      NoRedirs();
      assert CanonRedirs([]) == [];
    } else {
      assert (a + b)[1..] == a[1..] + b && (a + b)[0] == a[0];
      RedirsConcat(a[1..], b);
      Unfolded(a);
      Unfolded(a + b);
      assert RedirText(a[0]) + (RedirsText(a[1..]) + RedirsText(b)) == (RedirText(a[0]) + RedirsText(a[1..])) + RedirsText(b);
      var c := CanonOne(a[0]);
      assert [c] + (CanonRedirs(a[1..]) + CanonRedirs(b)) == ([c] + CanonRedirs(a[1..])) + CanonRedirs(b);
    }
  }

  function CanonOne(r: Redir): Redir {
    if r.File? then r.(target := TargetText(r.target)) else r
  }

  lemma Unfolded(a: seq<Redir>)
    requires a != []
    ensures RedirsText(a) == RedirText(a[0]) + RedirsText(a[1..])
    ensures CanonRedirs(a) == [CanonOne(a[0])] + CanonRedirs(a[1..])
  {
    hide RedirText, TargetText;
  }

  lemma Truncated(before: string, first: string, second: string, after: string, cap: nat)
    requires Appended(before, first, after, false, cap)
    ensures Appended(before, first + second, after, false, cap)
  {
  }

  lemma RedirsSplit(rs: seq<Redir>, i: nat)
    requires i < |rs|
    ensures RedirsText(CanonRedirs(rs[..i + 1])) == RedirsText(CanonRedirs(rs[..i])) + RedirsText(CanonRedirs([rs[i]]))
    ensures RedirsText(CanonRedirs(rs)) ==
            RedirsText(CanonRedirs(rs[..i + 1])) + RedirsText(CanonRedirs(rs[i + 1..]))
  {
    hide RedirsText, CanonRedirs;
    Slices(rs, i);
    TextConcat(rs[..i], [rs[i]]);
    TextConcat(rs[..i + 1], rs[i + 1..]);
  }

  lemma Slices(rs: seq<Redir>, i: nat)
    requires i < |rs|
    ensures rs[..i] + [rs[i]] == rs[..i + 1] && rs[..i + 1] + rs[i + 1..] == rs
  {
  }

  lemma TextConcat(a: seq<Redir>, b: seq<Redir>)
    ensures RedirsText(CanonRedirs(a + b)) == RedirsText(CanonRedirs(a)) + RedirsText(CanonRedirs(b))
  {
    hide RedirsText, CanonRedirs;
    RedirsConcat(a, b);
    RedirsConcat(CanonRedirs(a), CanonRedirs(b));
  }
}

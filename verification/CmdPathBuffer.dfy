/** The normaliser as it runs: one buffer that grows and shrinks. */
module CmdPathBuffer {
  import opened Options
  import opened Letters
  import opened CmdPaths

  /** The buffer holds the text of `stack`, ended by NUL. */
  ghost predicate Holds(out: array<char>, pos: nat, cap: nat, drive: char, stack: seq<string>)
    reads out
  {
    cap <= out.Length && pos < cap && Names(stack) && out[..pos] == Render(drive, stack) && out[pos] == '\0'
  }

  /** Copies a segment's characters. */
  method CopyText(out: array<char>, pos: nat, text: string)
    requires pos + |text| <= out.Length
    modifies out
    ensures out[..] == old(out[..pos]) + text + old(out[pos + |text|..])
  {
    var k := 0;
    while k < |text|
      invariant 0 <= k <= |text|
      invariant forall j :: 0 <= j < out.Length ==> out[j] == if pos <= j < pos + k then text[j - pos] else old(out[j])
    {
      out[pos + k] := text[k];
      k := k + 1;
    }
  }

  /** `..`: back to the separator before the last name, but never into the root. */
  method GoUp(out: array<char>, at: nat, cap: nat, ghost drive: char, ghost stack: seq<string>) returns (pos: nat)
    requires Holds(out, at, cap, drive, stack)
    modifies out
    ensures Holds(out, pos, cap, drive, Enter(stack, "..")) && out[cap..] == old(out[cap..])
  {
    pos := at;
    if pos > 3 {
      ghost var whole := out[..at];
      ghost var front := Enter(stack, "..");
      LastName(drive, stack);
      ghost var base := |Render(drive, front)|;
      ghost var stop := if front == [] then 3 else base + 1;
      while pos > 3 && out[pos - 1] != '\\'
        invariant stop <= pos <= at
      {
        assert whole[pos - 1] == out[pos - 1];
        pos := pos - 1;
      }
      assert pos > 3 ==> whole[pos - 1] == out[pos - 1];
      assert pos == stop;
      if pos > 3 {
        pos := pos - 1;
      }
      assert pos == base;
      assert out[..pos] == whole[..pos];
      out[pos] := '\0';
    } else {
      RootOnly(drive, stack);
    }
  }

  /** The text of a stack ends in its last name, behind a separator unless it is the only one. */
  lemma LastName(drive: char, stack: seq<string>)
    requires |Render(drive, stack)| > 3 && Names(stack)
    ensures stack != [] && Enter(stack, "..") == stack[..|stack| - 1] && Names(Enter(stack, ".."))
    ensures var s, front := Render(drive, stack), Enter(stack, "..");
            var n := |Render(drive, front)|;
            n < |s| && s[..n] == Render(drive, front) &&
            (if front == [] then n == 3 else n + 1 < |s| && s[n] == '\\') &&
            forall k :: (if front == [] then 3 else n + 1) <= k < |s| ==> s[k] != '\\'
    ensures Enter(stack, "..") != [] ==> |Render(drive, Enter(stack, ".."))| > 3
  {
    var front, last := stack[..|stack| - 1], stack[|stack| - 1];
    assert Name(last);
    if front == [] {
      assert Render(drive, stack) == Render(drive, []) + last;
    } else {
      assert Render(drive, stack) == Render(drive, front) + "\\" + last;
      Longer(drive, front);
    }
  }

  lemma RootOnly(drive: char, stack: seq<string>)
    requires |Render(drive, stack)| <= 3 && Names(stack)
    ensures stack == []
  {
    if stack != [] {
      Longer(drive, stack);
    }
  }

  lemma Longer(drive: char, stack: seq<string>)
    requires stack != [] && Names(stack)
    ensures |Render(drive, stack)| > 3
  {
    JoinFront(stack, 1);
    assert stack[..1] == [stack[0]] && Name(stack[0]);
  }

  /** A name is added, or does not fit. */
  method GoDown(out: array<char>, at: nat, cap: nat, seg: string, ghost drive: char, ghost stack: seq<string>)
    returns (ok: bool, pos: nat)
    requires Holds(out, at, cap, drive, stack) && Name(seg)
    modifies out
    ensures ok <==> |Render(drive, stack + [seg])| + 1 <= cap
    ensures ok ==> Holds(out, pos, cap, drive, stack + [seg])
    ensures out[cap..] == old(out[cap..])
  {
    hide Name, Names, Join, Render;
    pos := at;
    ghost var was := out[..at];
    Pushed(drive, stack, seg);
    if pos > 3 {
      if pos + 1 >= cap {
        return false, pos;
      }
      out[pos] := '\\';
      pos := pos + 1;
      assert out[..pos] == was + "\\";
    }
    if pos + |seg| + 1 > cap {
      return false, pos;
    }
    ghost var base := out[..pos];
    CopyText(out, pos, seg);
    pos := pos + |seg|;
    ghost var text := out[..pos];
    assert text == base + seg == Render(drive, stack + [seg]);
    out[pos] := '\0';
    assert out[..pos] == text;
    ok := true;
  }

  lemma Pushed(drive: char, stack: seq<string>, seg: string)
    requires Names(stack) && Name(seg)
    ensures Render(drive, stack + [seg]) == Render(drive, stack) + (if |Render(drive, stack)| > 3 then "\\" else "") + seg
    ensures Names(stack + [seg])
  {
    if |Render(drive, stack)| <= 3 {
      RootOnly(drive, stack);
      assert stack + [seg] == [seg];
    } else {
      assert (stack + [seg])[..|stack|] == stack;
    }
  }

  lemma Root(out: array<char>, cap: nat, drive: char)
    requires 4 <= cap <= out.Length && out[0] == drive && out[1] == ':' && out[2] == '\\' && out[3] == '\0'
    ensures Holds(out, 3, cap, drive, [])
  {
    assert Render(drive, []) == [drive] + ":\\";
  }

  method PastSeps(s: string, from: nat) returns (at: nat)
    requires from <= |s|
    ensures from <= at <= |s| && (at < |s| ==> !IsSep(s[at])) && Segments(s[at..]) == Segments(s[from..])
  {
    at := from;
    while at < |s| && IsSep(s[at])
      invariant from <= at <= |s| && Segments(s[at..]) == Segments(s[from..])
    {
      assert s[at..][1..] == s[at + 1..];
      at := at + 1;
    }
  }

  method PastName(s: string, from: nat) returns (at: nat)
    requires from < |s| && !IsSep(s[from])
    ensures from < at <= |s| && Segments(s[from..]) == [s[from..at]] + Segments(s[at..])
    ensures forall k :: from <= k < at ==> !IsSep(s[k])
  {
    at := from;
    while at < |s| && !IsSep(s[at])
      invariant from <= at <= |s| && forall k :: from <= k < at ==> !IsSep(s[k])
    {
      at := at + 1;
    }
    SpanIs(s[from..], at - from);
    assert s[from..][at - from..] == s[at..] && s[from..][..at - from] == s[from..at];
  }

  lemma NextName(cap: nat, drive: char, stack: seq<string>, name: string, more: seq<string>)
    requires name != [] && forall k :: 0 <= k < |name| ==> !IsSep(name[k])
    ensures var next := Enter(stack, name);
            Walk(cap, drive, stack, [name] + more) ==
            if name != "." && name != ".." && |Render(drive, next)| + 1 > cap then None else Walk(cap, drive, next, more)
    ensures name == "." ==> Enter(stack, name) == stack
    ensures name != "." && name != ".." ==> Enter(stack, name) == stack + [name] && Name(name)
  {
    assert ([name] + more)[1..] == more;
  }

  /** The whole normaliser. */
  method NormalizePath(path: string, cwd: string, out: array<char>, cap: nat) returns (ok: bool)
    requires cap <= out.Length
    modifies out
    ensures ok <==> Normal(path, cwd, cap).Some?
    ensures ok ==> var n := Normal(path, cwd, cap).value; |n| < cap && out[..|n|] == n && out[|n|] == '\0'
    ensures out[cap..] == old(out[cap..])
  {
    hide Merge, Walk, Segments, Render, Join, Names, Enter;
    if cap < 4 {
      return false;
    }
    var merge := Merge(path, cwd);
    if merge.None? {
      return false;
    }
    var merged := merge.value;
    var drive := Upper(merged[0]);
    out[0], out[1], out[2], out[3] := drive, ':', '\\', '\0';
    var pos := 3;
    Root(out, cap, drive);
    ghost var stack: seq<string> := [];
    ghost var whole := Walk(cap, drive, [], Segments(merged[2..]));
    var rest := PastSeps(merged, 2);
    while rest < |merged|
      invariant 2 <= rest <= |merged| && (rest < |merged| ==> !IsSep(merged[rest]))
      invariant Holds(out, pos, cap, drive, stack) && out[cap..] == old(out[cap..])
      invariant Walk(cap, drive, stack, Segments(merged[rest..])) == whole
    {
      var seg := rest;
      rest := PastName(merged, seg);
      var name := merged[seg..rest];
      NextName(cap, drive, stack, name, Segments(merged[rest..]));
      if name == "." {
      } else if name == ".." {
        pos := GoUp(out, pos, cap, drive, stack);
      } else {
        var fits;
        fits, pos := GoDown(out, pos, cap, name, drive, stack);
        if !fits {
          return false;
        }
      }
      stack := Enter(stack, name);
      rest := PastSeps(merged, rest);
    }
    Finished(cap, drive, stack);
    assert merged[rest..] == [];
    ok := true;
  }

  lemma Finished(cap: nat, drive: char, stack: seq<string>)
    ensures Walk(cap, drive, stack, Segments([])) == Some(stack)
  {
  }

  // ---- comparing ----------------------------------------------------------------------------------

  predicate Clean(s: string) {
    '\0' !in s
  }

  predicate AllClean(stack: seq<string>) {
    forall i :: 0 <= i < |stack| ==> Clean(stack[i])
  }

  lemma {:induction false} SegmentsClean(s: string)
    requires Clean(s)
    ensures AllClean(Segments(s))
    decreases |s|
  {
    if s != [] {
      SegmentsClean(if IsSep(s[0]) then s[1..] else s[Span(s)..]);
    }
  }

  lemma {:induction false} FoldClean(stack: seq<string>, segs: seq<string>)
    requires AllClean(stack) && AllClean(segs)
    ensures AllClean(Fold(stack, segs))
    decreases |segs|
  {
    if segs != [] {
      FoldClean(Enter(stack, segs[0]), segs[1..]);
    }
  }

  lemma {:induction false} JoinClean(stack: seq<string>)
    requires AllClean(stack)
    ensures Clean(Join(stack))
    decreases |stack|
  {
    if |stack| > 1 {
      JoinClean(stack[..|stack| - 1]);
    }
  }

  lemma MergeClean(path: string, cwd: string)
    requires Clean(path) && Clean(cwd) && Merge(path, cwd).Some?
    ensures Clean(Merge(path, cwd).value)
  {
    SkipClean(path);
  }

  lemma {:induction false} SkipClean(s: string)
    requires Clean(s)
    ensures Clean(SkipSeps(s))
    decreases |s|
  {
    if s != [] && IsSep(s[0]) {
      SkipClean(s[1..]);
    }
  }

  lemma NormalClean(path: string, cwd: string, cap: nat)
    requires Clean(path) && Clean(cwd) && Normal(path, cwd, cap).Some?
    ensures Clean(Normal(path, cwd, cap).value)
  {
    hide Merge, Walk, Segments, Join, Fold;
    MergeClean(path, cwd);
    var merged := Merge(path, cwd).value;
    SegmentsClean(merged[2..]);
    FoldClean([], Segments(merged[2..]));
    JoinClean(Fold([], Segments(merged[2..])));
  }

  /** The buffer holds a C string. */
  ghost predicate IsText(buf: array<char>, text: string)
    reads buf
  {
    |text| < buf.Length && buf[..|text|] == text && buf[|text|] == '\0' && Clean(text)
  }

  method CiEqual(a: array<char>, b: array<char>, ghost s: string, ghost t: string) returns (same: bool)
    requires IsText(a, s) && IsText(b, t)
    ensures same == SameName(s, t)
  {
    hide Upper;
    var i := 0;
    while a[i] != '\0' && b[i] != '\0'
      invariant i <= |s| && i <= |t|
      invariant forall j :: 0 <= j < i ==> Upper(s[j]) == Upper(t[j])
      decreases |s| - i
    {
      CharAt(a, s, i);
      CharAt(b, t, i);
      if Upper(a[i]) != Upper(b[i]) {
        return false;
      }
      i := i + 1;
    }
    CharAt(a, s, i);
    CharAt(b, t, i);
    return a[i] == '\0' && b[i] == '\0';
  }

  lemma CharAt(buf: array<char>, text: string, i: nat)
    requires IsText(buf, text) && i <= |text|
    ensures buf[i] == '\0' <==> i == |text|
    ensures i < |text| ==> buf[i] == text[i]
  {
    if i < |text| {
      assert text[i] in text && buf[..|text|][i] == buf[i];
    }
  }

  /** Whether two spellings name one file. */
  method PathsSame(a: string, b: string, cwd: string) returns (same: bool)
    requires Clean(a) && Clean(b) && Clean(cwd)
    ensures same == Same(a, b, cwd)
  {
    hide Normal, SameName, Clean;
    if SameName(a, b) {
      return true;
    }
    var na := new char[MAX_PATH](_ => '\0');
    var nb := new char[MAX_PATH](_ => '\0');
    var ok := NormalizePath(a, cwd, na, MAX_PATH);
    if !ok {
      return false;
    }
    NormalClean(a, cwd, MAX_PATH);
    ok := NormalizePath(b, cwd, nb, MAX_PATH);
    if !ok {
      return false;
    }
    NormalClean(b, cwd, MAX_PATH);
    same := CiEqual(na, nb, Normal(a, cwd, MAX_PATH).value, Normal(b, cwd, MAX_PATH).value);
  }
}

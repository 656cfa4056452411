/** Lexical path names: when two spellings name the same file. */
module CmdPaths {
  import opened Options
  import opened Letters

  const MAX_PATH := 260

  predicate IsAlpha(c: char) {
    'A' <= c <= 'Z' || 'a' <= c <= 'z'
  }

  predicate IsSep(c: char) {
    c == '\\' || c == '/'
  }

  // ---- the merged path ------------------------------------------------------------------------

  function SkipSeps(s: string): (r: string)
    ensures r == [] || !IsSep(r[0])
    ensures |r| <= |s|
  {
    if s != [] && IsSep(s[0]) then SkipSeps(s[1..]) else s
  }

  function Below(cwd: string, path: string): string
    requires cwd != []
  {
    cwd + (if IsSep(cwd[|cwd| - 1]) then "" else "\\") + path
  }

  predicate HasDrive(s: string) {
    |s| >= 2 && IsAlpha(s[0]) && s[1] == ':'
  }

  /** The path made absolute against the current directory, still unresolved. A path relative to
      another drive has no meaning here; a result that may not fit is refused. */
  function Merge(path: string, cwd: string): (r: Option<string>)
    ensures r.Some? ==> HasDrive(r.value)
  {
    if |cwd| < 2 || cwd[1] != ':' then None
    else
      var merged :=
        if HasDrive(path) then
          if |path| > 2 && IsSep(path[2]) then (if |path| + 1 > MAX_PATH then None else Some(path))
          else if Upper(path[0]) != Upper(cwd[0]) || |cwd| + 1 + |path| - 2 + 1 > MAX_PATH then None
          else Some(Below(cwd, path[2..]))
        else if path != [] && IsSep(path[0]) then
          if 3 + |path| + 1 > MAX_PATH then None else Some([Upper(cwd[0])] + ":\\" + SkipSeps(path))
        else if |cwd| + 1 + |path| + 1 > MAX_PATH then None
        else Some(Below(cwd, path));
      if merged.Some? && HasDrive(merged.value) then merged else None
  }

  // ---- segments ----------------------------------------------------------------------------------

  /** The length of the name at the front. */
  function Span(s: string): (n: nat)
    ensures n <= |s| && (forall i :: 0 <= i < n ==> !IsSep(s[i])) && (n < |s| ==> IsSep(s[n]))
  {
    if s == [] || IsSep(s[0]) then 0 else 1 + Span(s[1..])
  }

  /** The names between separators. */
  function Segments(s: string): (r: seq<string>)
    ensures forall i :: 0 <= i < |r| ==> r[i] != [] && forall k :: 0 <= k < |r[i]| ==> !IsSep(r[i][k])
    decreases |s|
  {
    if s == [] then []
    else if IsSep(s[0]) then Segments(s[1..])
    else [s[..Span(s)]] + Segments(s[Span(s)..])
  }

  // ---- resolution --------------------------------------------------------------------------------

  /** `.` stays, `..` goes up but not above the root, a name goes down. */
  function Enter(stack: seq<string>, seg: string): seq<string> {
    if seg == "." then stack
    else if seg == ".." then (if stack == [] then [] else stack[..|stack| - 1])
    else stack + [seg]
  }

  function Fold(stack: seq<string>, segs: seq<string>): seq<string>
    decreases |segs|
  {
    if segs == [] then stack else Fold(Enter(stack, segs[0]), segs[1..])
  }

  function Join(stack: seq<string>): string {
    if stack == [] then ""
    else if |stack| == 1 then stack[0]
    else Join(stack[..|stack| - 1]) + "\\" + stack[|stack| - 1]
  }

  function Render(drive: char, stack: seq<string>): (s: string)
    ensures |s| >= 3
  {
    [drive] + ":\\" + Join(stack)
  }

  /** Resolution in a buffer of `cap` characters: None if some name does not fit when it is
      entered. */
  function Walk(cap: nat, drive: char, stack: seq<string>, segs: seq<string>): (r: Option<seq<string>>)
    ensures r.Some? ==> r.value == Fold(stack, segs)
    decreases |segs|
  {
    if segs == [] then Some(stack)
    else
      var next := Enter(stack, segs[0]);
      if |next| > |stack| && |Render(drive, next)| + 1 > cap then None else Walk(cap, drive, next, segs[1..])
  }

  /** `cf_normalize_path_against_cwd`. */
  function Normal(path: string, cwd: string, cap: nat): Option<string> {
    if cap < 4 then None
    else
      match Merge(path, cwd)
      case None => None
      case Some(merged) =>
        match Walk(cap, Upper(merged[0]), [], Segments(merged[2..]))
        case None => None
        case Some(stack) => Some(Render(Upper(merged[0]), stack))
  }

  /** `cf_paths_same_with_cwd`. */
  predicate Same(a: string, b: string, cwd: string) {
    SameName(a, b) ||
    (Normal(a, cwd, MAX_PATH).Some? && Normal(b, cwd, MAX_PATH).Some? &&
     SameName(Normal(a, cwd, MAX_PATH).value, Normal(b, cwd, MAX_PATH).value))
  }

  // ---- normal form ---------------------------------------------------------------------------------

  predicate Name(seg: string) {
    seg != [] && seg != "." && seg != ".." && forall k :: 0 <= k < |seg| ==> !IsSep(seg[k])
  }

  predicate Names(stack: seq<string>) {
    forall i :: 0 <= i < |stack| ==> Name(stack[i])
  }

  lemma {:induction false} FoldNames(stack: seq<string>, segs: seq<string>)
    requires Names(stack)
    requires forall i :: 0 <= i < |segs| ==> segs[i] != [] && forall k :: 0 <= k < |segs[i]| ==> !IsSep(segs[i][k])
    ensures Names(Fold(stack, segs))
    decreases |segs|
  {
    if segs != [] {
      FoldNames(Enter(stack, segs[0]), segs[1..]);
    }
  }

  lemma {:induction false} FoldPlain(stack: seq<string>, segs: seq<string>)
    requires Names(segs)
    ensures Fold(stack, segs) == stack + segs
    decreases |segs|
  {
    if segs != [] {
      FoldPlain(stack + [segs[0]], segs[1..]);
      assert stack + [segs[0]] + segs[1..] == stack + segs;
    } else {
      assert stack + segs == stack;
    }
  }

  lemma SpanIs(s: string, n: nat)
    requires n <= |s| && (forall i :: 0 <= i < n ==> !IsSep(s[i])) && (n < |s| ==> IsSep(s[n]))
    ensures Span(s) == n
  {
  }

  /** A name after a separator is one more segment. */
  lemma {:induction false} SegmentsAppend(s: string, name: string)
    requires name != [] && forall k :: 0 <= k < |name| ==> !IsSep(name[k])
    ensures Segments(s + "\\" + name) == Segments(s) + [name]
    decreases |s|
  {
    var t := s + "\\" + name;
    if s == [] {
      assert t[1..] == name;
      SpanIs(name, |name|);
      assert name[..|name|] == name && name[|name|..] == [];
    } else if IsSep(s[0]) {
      assert t[1..] == s[1..] + "\\" + name;
      SegmentsAppend(s[1..], name);
    } else {
      var n := Span(s);
      SpanIs(t, n);
      assert t[..n] == s[..n] && t[n..] == s[n..] + "\\" + name;
      SegmentsAppend(s[n..], name);
    }
  }

  /** Reading a rendered stack gives the stack. */
  lemma {:induction false} SegmentsJoin(stack: seq<string>)
    requires Names(stack)
    ensures Segments("\\" + Join(stack)) == stack
    decreases |stack|
  {
    var n := |stack|;
    if n == 0 {
      assert ("\\" + Join(stack))[1..] == [];
    } else if n == 1 {
      SegmentsAppend("", stack[0]);
      assert "" + "\\" + stack[0] == "\\" + Join(stack);
      assert stack == [stack[0]];
    } else {
      SegmentsJoin(stack[..n - 1]);
      SegmentsAppend("\\" + Join(stack[..n - 1]), stack[n - 1]);
      assert "\\" + Join(stack) == "\\" + Join(stack[..n - 1]) + "\\" + stack[n - 1];
      assert stack == stack[..n - 1] + [stack[n - 1]];
    }
  }

  // ---- sizes ----------------------------------------------------------------------------------------

  lemma {:induction false} JoinFront(stack: seq<string>, n: nat)
    requires n <= |stack|
    ensures |Join(stack[..n])| <= |Join(stack)|
    decreases |stack|
  {
    if n < |stack| {
      var front := stack[..|stack| - 1];
      assert front[..n] == stack[..n];
      JoinFront(front, n);
    } else {
      assert stack[..n] == stack;
    }
  }

  lemma {:induction false} WalkFits(cap: nat, drive: char, stack: seq<string>, segs: seq<string>)
    requires |Render(drive, stack)| < cap && Walk(cap, drive, stack, segs).Some?
    ensures |Render(drive, Fold(stack, segs))| < cap
    decreases |segs|
  {
    if segs != [] {
      var next := Enter(stack, segs[0]);
      if |next| <= |stack| {
        JoinFront(stack, |next|);
        assert next == stack[..|next|];
      }
      WalkFits(cap, drive, next, segs[1..]);
    }
  }

  lemma RenderFront(drive: char, stack: seq<string>, n: nat)
    requires n <= |stack|
    ensures |Render(drive, stack[..n])| <= |Render(drive, stack)|
  {
    JoinFront(stack, n);
  }

  lemma EnterName(stack: seq<string>, seg: string)
    requires Name(seg)
    ensures Enter(stack, seg) == stack + [seg]
  {
  }

  lemma {:induction false} WalkPlain(cap: nat, drive: char, stack: seq<string>, segs: seq<string>)
    requires Names(segs) && |Render(drive, stack + segs)| < cap
    ensures Walk(cap, drive, stack, segs) == Some(stack + segs)
    decreases |segs|
  {
    hide Enter, Render, Name;
    if segs == [] {
      assert stack + segs == stack;
    } else {
      var next := stack + [segs[0]];
      EnterName(stack, segs[0]);
      assert next + segs[1..] == stack + segs;
      RenderFront(drive, stack + segs, |next|);
      assert (stack + segs)[..|next|] == next;
      WalkPlain(cap, drive, next, segs[1..]);
    }
  }

  // ---- normal forms ----------------------------------------------------------------------------------

  /** An upper-case drive, the root, and names. */
  ghost predicate IsNormal(s: string) {
    exists drive, stack :: 'A' <= drive <= 'Z' && Names(stack) && s == Render(drive, stack)
  }

  lemma {:induction false} NormalIsNormal(path: string, cwd: string, cap: nat)
    ensures var n := Normal(path, cwd, cap); n.Some? ==> IsNormal(n.value) && |n.value| < cap
  {
    hide Merge, Walk, Segments, Render;
    var n := Normal(path, cwd, cap);
    if n.Some? {
      var merged := Merge(path, cwd).value;
      var segs := Segments(merged[2..]);
      var drive := Upper(merged[0]);
      FoldNames([], segs);
      RootSize(drive);
      WalkFits(cap, drive, [], segs);
    }
  }

  lemma RootSize(drive: char)
    ensures |Render(drive, [])| == 3
  {
  }

  lemma MergeNormal(s: string, cwd: string, drive: char, stack: seq<string>)
    requires |cwd| >= 2 && cwd[1] == ':' && 'A' <= drive <= 'Z' && s == Render(drive, stack) && |s| < MAX_PATH
    ensures Merge(s, cwd) == Some(s) && Upper(s[0]) == drive && s[2..] == "\\" + Join(stack)
  {
    hide Join;
  }

  lemma NormalStays(s: string, cwd: string, cap: nat, drive: char, stack: seq<string>)
    requires |cwd| >= 2 && cwd[1] == ':' && 4 <= cap <= MAX_PATH
    requires 'A' <= drive <= 'Z' && Names(stack) && s == Render(drive, stack) && |s| < cap
    ensures Normal(s, cwd, cap) == Some(s)
  {
    hide Merge, Walk, Segments, Names, Join, Render;
    MergeNormal(s, cwd, drive, stack);
    SegmentsJoin(stack);
    assert [] + stack == stack;
    WalkPlain(cap, drive, [], stack);
  }

  /** The fixed points of normalisation are exactly the normal forms that fit. */
  lemma NormalFixed(s: string, cwd: string, cap: nat)
    requires |cwd| >= 2 && cwd[1] == ':' && 4 <= cap <= MAX_PATH
    ensures Normal(s, cwd, cap) == Some(s) <==> IsNormal(s) && |s| < cap
  {
    hide Normal, Render, Names;
    if IsNormal(s) && |s| < cap {
      var drive, stack :| 'A' <= drive <= 'Z' && Names(stack) && s == Render(drive, stack);
      NormalStays(s, cwd, cap, drive, stack);
    }
    NormalIsNormal(s, cwd, cap);
  }

  /** Normalising twice is normalising once, whatever the current directory has become. */
  lemma NormalIdempotent(path: string, cwd: string, later: string, cap: nat)
    requires |later| >= 2 && later[1] == ':' && cap <= MAX_PATH && Normal(path, cwd, cap).Some?
    ensures Normal(Normal(path, cwd, cap).value, later, cap) == Normal(path, cwd, cap)
  {
    hide IsNormal;
    NormalIsNormal(path, cwd, cap);
    assert cap >= 4;
    NormalFixed(Normal(path, cwd, cap).value, later, cap);
  }

  // ---- when normalisation succeeds -----------------------------------------------------------------

  function Lead(stack: seq<string>, s: string): nat {
    if stack == [] || s == [] || IsSep(s[0]) then 0 else 1
  }

  lemma {:induction false} WalkRoom(cap: nat, drive: char, stack: seq<string>, s: string)
    requires Names(stack) && |Render(drive, stack)| + Lead(stack, s) + |s| < cap
    ensures Walk(cap, drive, stack, Segments(s)).Some?
    decreases |s|
  {
    if s != [] {
      if IsSep(s[0]) {
        WalkRoom(cap, drive, stack, s[1..]);
      } else {
        var n := Span(s);
        var seg, rest := s[..n], s[n..];
        var next := Enter(stack, seg);
        assert Segments(s) == [seg] + Segments(rest);
        EnterSize(drive, stack, seg);
        WalkRoom(cap, drive, next, rest);
        assert ([seg] + Segments(rest))[1..] == Segments(rest);
      }
    }
  }

  lemma EnterSize(drive: char, stack: seq<string>, seg: string)
    requires Names(stack) && seg != [] && forall k :: 0 <= k < |seg| ==> !IsSep(seg[k])
    ensures var next := Enter(stack, seg);
            Names(next) && |Render(drive, next)| <= |Render(drive, stack)| + (if stack == [] then 0 else 1) + |seg|
  {
    var next := Enter(stack, seg);
    if |next| <= |stack| {
      JoinFront(stack, |next|);
      assert next == stack[..|next|];
    } else {
      assert next[..|stack|] == stack;
    }
  }

  /** A path that could be merged with an absolute current directory always resolves: the
      result is never longer than what it came from. */
  lemma NormalTotal(path: string, cwd: string)
    requires |cwd| >= 3 && IsSep(cwd[2])
    ensures Normal(path, cwd, MAX_PATH).Some? <==> Merge(path, cwd).Some?
  {
    hide Walk, Segments;
    if Merge(path, cwd).Some? {
      var merged := Merge(path, cwd).value;
      MergeSize(path, cwd);
      RootSize(Upper(merged[0]));
      WalkRoom(MAX_PATH, Upper(merged[0]), [], SkipSeps(merged[2..]));
      SegmentsSkip(merged[2..]);
    }
  }

  lemma MergeSize(path: string, cwd: string)
    requires |cwd| >= 3 && IsSep(cwd[2]) && Merge(path, cwd).Some?
    ensures var m := Merge(path, cwd).value; |m| < MAX_PATH && |m| > 2 && IsSep(m[2]) && |SkipSeps(m[2..])| <= |m| - 3
  {
  }

  lemma {:induction false} SegmentsSkip(s: string)
    ensures Segments(SkipSeps(s)) == Segments(s)
    decreases |s|
  {
    if s != [] && IsSep(s[0]) {
      SegmentsSkip(s[1..]);
    }
  }

  // ---- upper and lower case ------------------------------------------------------------------------

  predicate SameNames(a: seq<string>, b: seq<string>) {
    |a| == |b| && forall i :: 0 <= i < |a| ==> SameName(a[i], b[i])
  }

  lemma SameSlices(a: string, b: string, lo: nat, hi: nat)
    requires SameName(a, b) && lo <= hi <= |a|
    ensures SameName(a[lo..hi], b[lo..hi]) && SameName(a[lo..], b[lo..]) && SameName(a[..hi], b[..hi])
  {
  }

  lemma SpanSame(a: string, b: string)
    requires SameName(a, b)
    ensures Span(a) == Span(b)
  {
    SpanIs(b, Span(a));
  }

  lemma {:induction false} SegmentsSame(a: string, b: string)
    requires SameName(a, b)
    ensures SameNames(Segments(a), Segments(b))
    decreases |a|
  {
    if a != [] {
      if IsSep(a[0]) {
        SameSlices(a, b, 1, |a|);
        SegmentsSame(a[1..], b[1..]);
      } else {
        var n := Span(a);
        SpanSame(a, b);
        SameSlices(a, b, n, n);
        SegmentsSame(a[n..], b[n..]);
      }
    }
  }

  lemma {:induction false} JoinSame(a: seq<string>, b: seq<string>)
    requires SameNames(a, b)
    ensures SameName(Join(a), Join(b))
    decreases |a|
  {
    if |a| > 1 {
      JoinSame(a[..|a| - 1], b[..|b| - 1]);
    }
  }

  lemma EnterSame(a: seq<string>, b: seq<string>, x: string, y: string)
    requires SameNames(a, b) && SameName(x, y)
    ensures SameNames(Enter(a, x), Enter(b, y))
  {
    assert x == "." <==> y == ".";
    assert x == ".." <==> y == "..";
  }

  lemma {:induction false} WalkSame(cap: nat, drive: char, a: seq<string>, b: seq<string>, s: seq<string>, t: seq<string>)
    requires SameNames(a, b) && SameNames(s, t)
    ensures var x, y := Walk(cap, drive, a, s), Walk(cap, drive, b, t);
            (x.Some? <==> y.Some?) && (x.Some? ==> SameNames(x.value, y.value))
    decreases |s|
  {
    if s != [] {
      EnterSame(a, b, s[0], t[0]);
      var m, n := Enter(a, s[0]), Enter(b, t[0]);
      JoinSame(m, n);
      WalkSame(cap, drive, m, n, s[1..], t[1..]);
    }
  }

  lemma MergeSame(a: string, b: string, cwd: string)
    requires SameName(a, b)
    ensures var x, y := Merge(a, cwd), Merge(b, cwd);
            (x.Some? <==> y.Some?) && (x.Some? ==> SameName(x.value, y.value))
  {
    SkipSame(a, b);
    if |a| >= 2 {
      SameSlices(a, b, 2, |a|);
    }
  }

  lemma {:induction false} SkipSame(a: string, b: string)
    requires SameName(a, b)
    ensures SameName(SkipSeps(a), SkipSeps(b))
    decreases |a|
  {
    if a != [] {
      SameSlices(a, b, 1, |a|);
      SkipSame(a[1..], b[1..]);
    }
  }

  /** Case never decides anything. */
  lemma NormalSame(a: string, b: string, cwd: string, cap: nat)
    requires SameName(a, b)
    ensures var x, y := Normal(a, cwd, cap), Normal(b, cwd, cap);
            (x.Some? <==> y.Some?) && (x.Some? ==> SameName(x.value, y.value))
  {
    hide Merge, Walk, Segments;
    MergeSame(a, b, cwd);
    if cap >= 4 && Merge(a, cwd).Some? {
      var x, y := Merge(a, cwd).value, Merge(b, cwd).value;
      SameSlices(x, y, 2, |x|);
      SegmentsSame(x[2..], y[2..]);
      WalkSame(cap, Upper(x[0]), [], [], Segments(x[2..]), Segments(y[2..]));
      var w := Walk(cap, Upper(x[0]), [], Segments(x[2..]));
      if w.Some? {
        JoinSame(w.value, Walk(cap, Upper(x[0]), [], Segments(y[2..])).value);
      }
    }
  }

  /** On paths that resolve, being the same file is having the same normal form but for case;
      so it is an equivalence there, and the early answer for equal spellings never matters. */
  lemma SameExact(a: string, b: string, cwd: string)
    requires Normal(a, cwd, MAX_PATH).Some? && Normal(b, cwd, MAX_PATH).Some?
    ensures Same(a, b, cwd) <==> SameName(Normal(a, cwd, MAX_PATH).value, Normal(b, cwd, MAX_PATH).value)
  {
    hide Normal;
    if SameName(a, b) {
      NormalSame(a, b, cwd, MAX_PATH);
    }
  }
}

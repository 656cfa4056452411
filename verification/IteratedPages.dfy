/** LX iterated pages: repeated patterns that expand to a page, and the three decoders of them. */
module IteratedPages {
  import opened Options
  import opened Words

  /** A pattern and how often it is repeated. */
  datatype Run = Run(repeats: nat, pattern: seq<U8>)

  predicate Positive(r: Run) {
    0 < r.repeats < 0x1_0000 && 0 < |r.pattern| < 0x1_0000
  }

  predicate AllPositive(rs: seq<Run>) {
    forall i :: 0 <= i < |rs| ==> Positive(rs[i])
  }

  function Repeat(p: seq<U8>, k: nat): (s: seq<U8>)
    ensures |s| == k * |p|
  {
    if k == 0 then [] else p + Repeat(p, k - 1)
  }

  /** The page that a list of runs stands for. */
  function Expand(rs: seq<Run>): seq<U8> {
    if rs == [] then [] else Repeat(rs[0].pattern, rs[0].repeats) + Expand(rs[1..])
  }

  /** The stream that carries a list of runs. */
  function Encode(rs: seq<Run>): seq<U8>
    requires AllPositive(rs)
  {
    if rs == [] then [] else Le16(rs[0].repeats) + Le16(|rs[0].pattern|) + rs[0].pattern + Encode(rs[1..])
  }

  // ---- decoding ------------------------------------------------------------------------------

  datatype Error = TruncatedRecord | EmptyRecord | TruncatedPattern | TooLong | TrailingData

  datatype Result = Done(bytes: seq<U8>) | Failed(error: Error)

  function Word(s: seq<U8>, at: nat): nat
    requires at + 2 <= |s|
  {
    Join16(s[at], s[at + 1])
  }

  /** What is wrong with the first run of a stream, if anything. */
  function Fault(s: seq<U8>, room: nat): (e: Option<Error>)
    ensures e.None? ==> |s| >= 4 && Word(s, 2) > 0 && 4 + Word(s, 2) <= |s| && Word(s, 0) <= room / Word(s, 2)
  {
    if |s| < 4 then Some(TruncatedRecord)
    else
      var repeats, length := Word(s, 0), Word(s, 2);
      if repeats == 0 || length == 0 then Some(EmptyRecord)
      else if length > |s| - 4 then Some(TruncatedPattern)
      else if repeats > room / length then Some(TooLong)
      else None
  }

  /** The expansion of a stream into `room` bytes, or the first thing wrong with it. */
  function Decode(s: seq<U8>, room: nat): (r: Result)
    ensures r.Done? ==> |r.bytes| == room
    decreases |s|
  {
    if room == 0 then (if s == [] then Done([]) else Failed(TrailingData))
    else
      match Fault(s, room)
      case Some(e) => Failed(e)
      case None =>
        var repeats, length := Word(s, 0), Word(s, 2);
        Fits(repeats, length, room);
        match Decode(s[4 + length..], room - repeats * length)
        case Failed(e) => Failed(e)
        case Done(rest) => Done(Repeat(s[4..4 + length], repeats) + rest)
  }

  /** The overflow test of the source is the comparison it stands for. */
  lemma Fits(repeats: nat, length: nat, room: nat)
    requires length > 0
    ensures repeats <= room / length <==> repeats * length <= room
  {
    var q, m := room / length, room % length;
    assert room == q * length + m && 0 <= m < length;
    if repeats <= q {
      assert repeats * length <= q * length;
    } else {
      assert repeats * length >= (q + 1) * length == q * length + length;
    }
  }

  // ---- what the decoder computes -----------------------------------------------------------------

  ghost predicate Carries(s: seq<U8>, room: nat, rs: seq<Run>) {
    AllPositive(rs) && Encode(rs) == s && |Expand(rs)| == room
  }

  lemma Parts(a: seq<U8>, b: seq<U8>, c: seq<U8>, d: seq<U8>)
    requires |a| == 2 && |b| == 2
    ensures var s := a + b + c + d;
            Word(s, 0) == Join16(a[0], a[1]) && Word(s, 2) == Join16(b[0], b[1]) && s[4..4 + |c|] == c && s[4 + |c|..] == d
  {
  }

  lemma FirstRun(rs: seq<Run>)
    requires AllPositive(rs) && rs != []
    ensures var s, n := Encode(rs), |rs[0].pattern|;
            |s| >= 4 + n && Word(s, 0) == rs[0].repeats && Word(s, 2) == n && s[4..4 + n] == rs[0].pattern &&
            AllPositive(rs[1..]) && s[4 + n..] == Encode(rs[1..])
  {
    hide Word, Le16, Join16;
    JoinLe16(rs[0].repeats);
    JoinLe16(|rs[0].pattern|);
    Parts(Le16(rs[0].repeats), Le16(|rs[0].pattern|), rs[0].pattern, Encode(rs[1..]));
  }

  /** Soundness of acceptance: a stream of positive runs that fills the room exactly is accepted,
      and its expansion is the result. */
  lemma {:induction false} CarriedDecodes(s: seq<U8>, room: nat, rs: seq<Run>)
    requires Carries(s, room, rs)
    ensures Decode(s, room) == Done(Expand(rs))
    decreases |rs|
  {
    hide Word, Repeat;
    if rs != [] {
      FirstRun(rs);
      var n := |rs[0].pattern|;
      assert |Expand(rs)| == rs[0].repeats * n + |Expand(rs[1..])|;
      Grows(rs[0].repeats, n);
      Fits(rs[0].repeats, n, room);
      CarriedDecodes(s[4 + n..], room - rs[0].repeats * n, rs[1..]);
    }
  }

  lemma Grows(a: nat, b: nat)
    requires a > 0 && b > 0
    ensures a * b > 0
  {
  }

  /** Whatever is accepted is such a stream. */
  lemma {:induction false} DecodedCarried(s: seq<U8>, room: nat) returns (rs: seq<Run>)
    requires Decode(s, room).Done?
    ensures Carries(s, room, rs)
    decreases |s|
  {
    hide Repeat;
    rs := [];
    if room > 0 {
      var repeats, n := Word(s, 0), Word(s, 2);
      Fits(repeats, n, room);
      var rest := DecodedCarried(s[4 + n..], room - repeats * n);
      var r := Run(repeats, s[4..4 + n]);
      rs := [r] + rest;
      assert rs[1..] == rest;
      SplitWord(s[0], s[1]);
      SplitWord(s[2], s[3]);
      assert s == [s[0], s[1]] + [s[2], s[3]] + s[4..4 + n] + s[4 + n..];
    }
  }

  lemma SplitWord(a: U8, b: U8)
    ensures Le16(Join16(a, b)) == [a, b]
  {
  }

  /** A stream is accepted exactly if it is a list of positive runs that fill the room with
      nothing left over; there is only one such list, and the result is its expansion. */
  lemma DecodeExact(s: seq<U8>, room: nat)
    ensures Decode(s, room).Done? <==> exists rs :: Carries(s, room, rs)
    ensures forall rs :: Carries(s, room, rs) ==> Decode(s, room) == Done(Expand(rs))
    ensures forall a, b :: Carries(s, room, a) && Carries(s, room, b) ==> a == b
  {
    hide Carries;
    forall rs | Carries(s, room, rs) ensures Decode(s, room) == Done(Expand(rs)) {
      CarriedDecodes(s, room, rs);
    }
    if Decode(s, room).Done? {
      var rs := DecodedCarried(s, room);
    }
    forall a, b | Carries(s, room, a) && Carries(s, room, b) ensures a == b {
      EncodeInjective(s, room, a, b);
    }
  }

  lemma {:induction false} EncodeInjective(s: seq<U8>, room: nat, a: seq<Run>, b: seq<Run>)
    requires Carries(s, room, a) && Carries(s, room, b)
    ensures a == b
    decreases |a|
  {
    hide Word, Expand;
    if a != [] && b != [] {
      FirstRun(a);
      FirstRun(b);
      Tail(a);
      Tail(b);
      var n := |a[0].pattern|;
      assert a[0] == b[0];
      EncodeInjective(s[4 + n..], |Expand(a[1..])|, a[1..], b[1..]);
      assert a == [a[0]] + a[1..] && b == [b[0]] + b[1..];
    }
  }

  lemma Tail(rs: seq<Run>)
    requires rs != []
    ensures |Expand(rs)| == rs[0].repeats * |rs[0].pattern| + |Expand(rs[1..])|
  {
  }

  // ---- the decoders as they run ---------------------------------------------------------------------

  /** Failures by the messages of each copy; two of the three do not tell some of them apart. */
  datatype Status = Expanded | OutsideFile | Bad(error: Error)

  function Blurred(e: Error): Error {
    match e
    case EmptyRecord => EmptyRecord
    case TruncatedPattern => EmptyRecord
    case TooLong => EmptyRecord
    case TruncatedRecord => TruncatedRecord
    case TrailingData => TrailingData
  }

  /** `out` bytes are written and the rest of the stream decodes to what is missing. */
  ghost predicate Progress(whole: Result, written: seq<U8>, rest: Result) {
    whole == match rest case Failed(e) => Failed(e) case Done(more) => Done(written + more)
  }

  /** The pattern, copied `repeats` times. */
  method CopyRuns(file: seq<U8>, dst: array<U8>, at: nat, src: nat, length: nat, repeats: nat)
    requires src + length <= |file| && at + repeats * length <= dst.Length
    modifies dst
    ensures dst[..] == old(dst[..at]) + Repeat(file[src..src + length], repeats) + old(dst[at + repeats * length..])
  {
    ghost var was := dst[..];
    ghost var pattern := file[src..src + length];
    ghost var all := Repeat(pattern, repeats);
    var i, to := 0, at;
    while i < repeats
      invariant 0 <= i <= repeats && to == at + i * length <= dst.Length
      invariant dst[..to] + Repeat(pattern, repeats - i) == was[..at] + all
      invariant dst[to..] == was[to..]
    {
      RoomLeft(i, repeats, length);
      ghost var before := dst[..];
      CopyBytes(file, dst, to, src, length);
      assert Repeat(pattern, repeats - i) == pattern + Repeat(pattern, repeats - i - 1);
      assert dst[..to + length] == before[..to] + pattern;
      assert dst[to + length..] == was[to + length..];
      to := to + length;
      i := i + 1;
    }
    assert dst[..to] == was[..at] + all;
    assert dst[..] == dst[..to] + dst[to..];
  }

  lemma RoomLeft(i: nat, n: nat, length: nat)
    requires i < n
    ensures i * length + length <= n * length && (i + 1) * length == i * length + length
  {
  }

  method CopyBytes(file: seq<U8>, dst: array<U8>, at: nat, src: nat, length: nat)
    requires src + length <= |file| && at + length <= dst.Length
    modifies dst
    ensures dst[..] == old(dst[..at]) + file[src..src + length] + old(dst[at + length..])
  {
    var k := 0;
    while k < length
      invariant 0 <= k <= length
      invariant forall j :: 0 <= j < dst.Length ==> dst[j] == if at <= j < at + k then file[src + j - at] else old(dst[j])
    {
      dst[at + k] := file[src + k];
      k := k + 1;
    }
  }

  /** What every decoder does to its destination: nothing outside the room, and the expansion
      inside it when there is one. */
  ghost predicate Fills(before: seq<U8>, after: seq<U8>, at: nat, room: nat, r: Result) {
    |after| == |before| && at + room <= |before| && after[..at] == before[..at] && after[at + room..] == before[at + room..] &&
    (r.Done? ==> after[at..at + room] == r.bytes)
  }

  lemma NextRun(whole: Result, written: seq<U8>, s: seq<U8>, room: nat)
    requires room > 0 && Progress(whole, written, Decode(s, room)) && Fault(s, room) == None
    ensures var repeats, n := Word(s, 0), Word(s, 2);
            repeats * n <= room &&
            Progress(whole, written + Repeat(s[4..4 + n], repeats), Decode(s[4 + n..], room - repeats * n))
  {
    hide Word, Repeat;
    var repeats, n := Word(s, 0), Word(s, 2);
    Fits(repeats, n, room);
    var rest := Decode(s[4 + n..], room - repeats * n);
    if rest.Done? {
      assert written + (Repeat(s[4..4 + n], repeats) + rest.bytes) == (written + Repeat(s[4..4 + n], repeats)) + rest.bytes;
    }
  }

  /** The destination after one more run. */
  lemma Written(was: seq<U8>, before: seq<U8>, after: seq<U8>, at: nat, out: nat, room: nat, run: seq<U8>)
    requires |before| == |was| && at + room <= |was| && out + |run| <= room
    requires before[..at] == was[..at] && before[at + room..] == was[at + room..]
    requires after == before[..at + out] + run + before[at + out + |run|..]
    ensures |after| == |was| && after[..at] == was[..at] && after[at + room..] == was[at + room..]
    ensures after[at..at + out + |run|] == before[at..at + out] + run
  {
    assert before[..at + out][..at] == before[..at];
  }

  lemma Slice(file: seq<U8>, lo: nat, mid: nat, hi: nat)
    requires lo <= mid <= hi <= |file|
    ensures file[lo..hi][mid - lo..] == file[mid..hi]
  {
  }

  // ---- the loop, seen from its invariant ------------------------------------------------------------

  lemma Begun(whole: Result, was: seq<U8>, at: nat)
    requires at <= |was|
    ensures Progress(whole, was[at..at + 0], whole)
  {
    if whole.Done? {
      assert [] + whole.bytes == whole.bytes;
    }
  }

  lemma Short(s: seq<U8>, room: nat)
    requires |s| < 4
    ensures Fault(s, room) == Some(TruncatedRecord)
  {
  }

  lemma FaultAt(file: seq<U8>, lo: nat, hi: nat, room: nat)
    requires lo + 4 <= hi <= |file|
    ensures var repeats, length := Word(file, lo), Word(file, lo + 2);
            Word(file[lo..hi], 0) == repeats && Word(file[lo..hi], 2) == length &&
            Fault(file[lo..hi], room) ==
            if repeats == 0 || length == 0 then Some(EmptyRecord)
            else if length > hi - lo - 4 then Some(TruncatedPattern)
            else if repeats > room / length then Some(TooLong)
            else None
  {
  }

  lemma Pattern(file: seq<U8>, lo: nat, hi: nat, length: nat)
    requires lo + 4 + length <= hi <= |file|
    ensures file[lo..hi][4..4 + length] == file[lo + 4..lo + 4 + length]
  {
    var a, b := file[lo..hi][4..4 + length], file[lo + 4..lo + 4 + length];
    assert forall i :: 0 <= i < length ==> a[i] == b[i];
  }

  lemma Stopped(whole: Result, written: seq<U8>, s: seq<U8>, left: nat, was: seq<U8>, now: seq<U8>, at: nat, room: nat, e: Error)
    requires left > 0 && Progress(whole, written, Decode(s, left)) && Fault(s, left) == Some(e)
    requires |now| == |was| && at + room <= |was| && now[..at] == was[..at] && now[at + room..] == was[at + room..]
    ensures whole == Failed(e) && Fills(was, now, at, room, whole)
  {
  }

  lemma Refused(whole: Result, written: seq<U8>, s: seq<U8>, left: nat, was: seq<U8>, now: seq<U8>, at: nat, room: nat)
    requires left > 0 && Progress(whole, written, Decode(s, left)) && |s| >= 4 && Fault(s, left).Some?
    requires |now| == |was| && at + room <= |was| && now[..at] == was[..at] && now[at + room..] == was[at + room..]
    ensures whole.Failed? && Blurred(whole.error) == EmptyRecord && Fills(was, now, at, room, whole)
  {
  }

  lemma Ended(whole: Result, was: seq<U8>, now: seq<U8>, s: seq<U8>, at: nat, room: nat)
    requires |now| == |was| && at + room <= |was| && now[..at] == was[..at] && now[at + room..] == was[at + room..]
    requires Progress(whole, now[at..at + room], Decode(s, 0))
    ensures Fills(was, now, at, room, whole)
    ensures whole == if s == [] then Done(now[at..at + room]) else Failed(TrailingData)
  {
    if s == [] {
      assert now[at..at + room] + [] == now[at..at + room];
    }
  }

  /** The native loader's decoder. */
  method ExpandLxIteratedPage(file: seq<U8>, dst: array<U8>, at: nat, room: nat, src: nat, encoded: nat) returns (r: Status)
    requires at + room <= dst.Length
    modifies dst
    ensures src + encoded <= |file| ==> match Decode(file[src..src + encoded], room)
            case Done(_) => r == Expanded
            case Failed(e) => r == Bad(e)
    ensures src + encoded <= |file| ==> Fills(old(dst[..]), dst[..], at, room, Decode(file[src..src + encoded], room))
    ensures r == OutsideFile <==> src + encoded > |file|
    ensures r == OutsideFile ==> dst[..] == old(dst[..])
  {
    hide Decode, Repeat, Word, Fills, Progress, Fault;
    if src > |file| || encoded > |file| - src {
      return OutsideFile;
    }
    ghost var was := dst[..];
    ghost var whole := Decode(file[src..src + encoded], room);
    var inPos, out := 0, 0;
    Begun(whole, was, at);
    while out < room
      invariant 0 <= inPos <= encoded && 0 <= out <= room
      invariant dst[..at] == was[..at] && dst[at + room..] == was[at + room..]
      invariant Progress(whole, dst[at..at + out], Decode(file[src + inPos..src + encoded], room - out))
      decreases encoded - inPos
    {
      ghost var s := file[src + inPos..src + encoded];
      ghost var now := dst[..];
      if encoded - inPos < 4 {
        Short(s, room - out);
        Stopped(whole, dst[at..at + out], s, room - out, was, now, at, room, TruncatedRecord);
        return Bad(TruncatedRecord);
      }
      var repeats, length := Word(file, src + inPos), Word(file, src + inPos + 2);
      FaultAt(file, src + inPos, src + encoded, room - out);
      inPos := inPos + 4;
      if repeats == 0 || length == 0 {
        Stopped(whole, dst[at..at + out], s, room - out, was, now, at, room, EmptyRecord);
        return Bad(EmptyRecord);
      }
      if length > encoded - inPos {
        Stopped(whole, dst[at..at + out], s, room - out, was, now, at, room, TruncatedPattern);
        return Bad(TruncatedPattern);
      }
      var remaining := room - out;
      if repeats > remaining / length {
        Stopped(whole, dst[at..at + out], s, room - out, was, now, at, room, TooLong);
        return Bad(TooLong);
      }
      NextRun(whole, dst[at..at + out], s, room - out);
      Pattern(file, src + inPos - 4, src + encoded, length);
      CopyRuns(file, dst, at + out, src + inPos, length, repeats);
      Written(was, now, dst[..], at, out, room, Repeat(file[src + inPos..src + inPos + length], repeats));
      Slice(file, src + inPos - 4, src + inPos + length, src + encoded);
      out := out + repeats * length;
      inPos := inPos + length;
    }
    Ended(whole, was, dst[..], file[src + inPos..src + encoded], at, room);
    if inPos != encoded {
      return Bad(TrailingData);
    }
    return Expanded;
  }

  /** The mixed loader's decoder. Its caller has checked the range. */
  method IntakeExpand(file: seq<U8>, dst: array<U8>, at: nat, room: nat, src: nat, encoded: nat) returns (r: Status)
    requires at + room <= dst.Length && src + encoded <= |file|
    modifies dst
    ensures match Decode(file[src..src + encoded], room)
            case Done(_) => r == Expanded
            case Failed(e) => r == Bad(Blurred(e))
    ensures Fills(old(dst[..]), dst[..], at, room, Decode(file[src..src + encoded], room))
  {
    hide Decode, Repeat, Word, Fills, Progress, Fault;
    ghost var was := dst[..];
    ghost var whole := Decode(file[src..src + encoded], room);
    var inPos, out := 0, 0;
    Begun(whole, was, at);
    while out < room
      invariant 0 <= inPos <= encoded && 0 <= out <= room
      invariant dst[..at] == was[..at] && dst[at + room..] == was[at + room..]
      invariant Progress(whole, dst[at..at + out], Decode(file[src + inPos..src + encoded], room - out))
      decreases encoded - inPos
    {
      ghost var s := file[src + inPos..src + encoded];
      ghost var now := dst[..];
      if encoded - inPos < 4 {
        Short(s, room - out);
        Stopped(whole, dst[at..at + out], s, room - out, was, now, at, room, TruncatedRecord);
        return Bad(TruncatedRecord);
      }
      var repeats, length := Word(file, src + inPos), Word(file, src + inPos + 2);
      FaultAt(file, src + inPos, src + encoded, room - out);
      inPos := inPos + 4;
      if repeats == 0 || length == 0 || length > encoded - inPos || repeats > (room - out) / length {
        Refused(whole, dst[at..at + out], s, room - out, was, now, at, room);
        return Bad(EmptyRecord);
      }
      NextRun(whole, dst[at..at + out], s, room - out);
      Pattern(file, src + inPos - 4, src + encoded, length);
      CopyRuns(file, dst, at + out, src + inPos, length, repeats);
      Written(was, now, dst[..], at, out, room, Repeat(file[src + inPos..src + inPos + length], repeats));
      Slice(file, src + inPos - 4, src + inPos + length, src + encoded);
      out := out + repeats * length;
      inPos := inPos + length;
    }
    Ended(whole, was, dst[..], file[src + inPos..src + encoded], at, room);
    if inPos != encoded {
      return Bad(TrailingData);
    }
    return Expanded;
  }

  /** The emulator's decoder. */
  method ExpandIteratedPage(file: seq<U8>, dst: array<U8>, at: nat, room: nat, src: nat, encoded: nat) returns (r: Status)
    requires at + room <= dst.Length
    modifies dst
    ensures src + encoded <= |file| ==> match Decode(file[src..src + encoded], room)
            case Done(_) => r == Expanded
            case Failed(e) => r == Bad(Blurred(e))
    ensures src + encoded <= |file| ==> Fills(old(dst[..]), dst[..], at, room, Decode(file[src..src + encoded], room))
    ensures r == OutsideFile <==> src + encoded > |file|
    ensures r == OutsideFile ==> dst[..] == old(dst[..])
  {
    hide Decode, Repeat, Word, Fills, Progress, Fault;
    if src > |file| || encoded > |file| - src {
      return OutsideFile;
    }
    ghost var was := dst[..];
    ghost var whole := Decode(file[src..src + encoded], room);
    var inPos, out := 0, 0;
    Begun(whole, was, at);
    while out < room
      invariant 0 <= inPos <= encoded && 0 <= out <= room
      invariant dst[..at] == was[..at] && dst[at + room..] == was[at + room..]
      invariant Progress(whole, dst[at..at + out], Decode(file[src + inPos..src + encoded], room - out))
      decreases encoded - inPos
    {
      ghost var s := file[src + inPos..src + encoded];
      ghost var now := dst[..];
      if encoded - inPos < 4 {
        Short(s, room - out);
        Stopped(whole, dst[at..at + out], s, room - out, was, now, at, room, TruncatedRecord);
        return Bad(TruncatedRecord);
      }
      var repeats, length := Word(file, src + inPos), Word(file, src + inPos + 2);
      FaultAt(file, src + inPos, src + encoded, room - out);
      inPos := inPos + 4;
      if repeats == 0 || length == 0 || length > encoded - inPos || repeats > (room - out) / length {
        Refused(whole, dst[at..at + out], s, room - out, was, now, at, room);
        return Bad(EmptyRecord);
      }
      NextRun(whole, dst[at..at + out], s, room - out);
      Pattern(file, src + inPos - 4, src + encoded, length);
      CopyRuns(file, dst, at + out, src + inPos, length, repeats);
      Written(was, now, dst[..], at, out, room, Repeat(file[src + inPos..src + inPos + length], repeats));
      Slice(file, src + inPos - 4, src + inPos + length, src + encoded);
      out := out + repeats * length;
      inPos := inPos + length;
    }
    Ended(whole, was, dst[..], file[src + inPos..src + encoded], at, room);
    if inPos != encoded {
      return Bad(TrailingData);
    }
    return Expanded;
  }
}

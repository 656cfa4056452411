/** LE/LX fixup records: the checked and the unchecked way of decoding the same bytes. */
module FixupRecords {
  import opened Words

  /** Why a pass stops: the input is refused; a record that validation should have refused
      turned up; or a read fell outside the record range. */
  datatype Reason = Rejected(text: string) | Slipped(text: string) | Outside

  datatype Outcome<T> = Ok(value: T) | Fail(reason: Reason)

  const SRC_SEL16 := 2
  const SRC_OFF32 := 7
  const SRC_REL32 := 8

  const TGT_INTERNAL := 0
  const TGT_EXT_ORD := 1
  const TGT_EXT_NAME := 2
  const TGT_INT_ENTRY := 3

  // ---- the two leading bytes -----------------------------------------------------------

  function SourceKind(type_: U8): nat { type_ % 16 }

  predicate IsAlias(type_: U8) { type_ / 16 % 2 == 1 }

  predicate IsList(type_: U8) { type_ / 32 % 2 == 1 }

  function TargetKind(flags: U8): (kind: nat)
    ensures kind < 4
  {
    flags % 4
  }

  predicate IsAdditive(flags: U8) { flags / 4 % 2 == 1 }

  predicate IsChain(flags: U8) { flags / 8 % 2 == 1 }

  predicate Has32(flags: U8) { flags / 16 % 2 == 1 }

  predicate HasAdd32(flags: U8) { flags / 32 % 2 == 1 }

  predicate HasObj16(flags: U8) { flags / 64 % 2 == 1 }

  predicate HasOrd8(flags: U8) { flags / 128 % 2 == 1 }

  /** Bytes patched at a site of this kind; 0 for an undefined kind. */
  function Width(st: nat): nat {
    if st == 0 then 1
    else if st == 2 || st == 5 then 2
    else if st == 3 || st == 7 || st == 8 then 4
    else if st == 6 then 6
    else 0
  }

  // ---- little-endian reads ------------------------------------------------------------------

  function Byte(file: seq<U8>, p: nat): U8 {
    if p < |file| then file[p] else 0
  }

  function Word16(file: seq<U8>, p: nat): (w: nat)
    ensures w < 0x1_0000
  {
    Join16(Byte(file, p), Byte(file, p + 1))
  }

  function Word32(file: seq<U8>, p: nat): U32 {
    Join32(Byte(file, p), Byte(file, p + 1), Byte(file, p + 2), Byte(file, p + 3))
  }

  function Signed16(w: nat): int
    requires w < 0x1_0000
  {
    if w < 0x8000 then w else w - 0x1_0000
  }

  // ---- records ------------------------------------------------------------------------------------

  /** A decoded record: the offsets within its page that it patches, what it points at, and
      where the next record starts. */
  datatype Record = Record(type_: U8, flags: U8, first: nat, target: U32, targetOff: U32, sources: seq<int>, next: nat)

  /** The source list of `count` signed offsets at `p`. */
  function SourceList(file: seq<U8>, p: nat, count: nat): (s: seq<int>)
    ensures |s| == count
    decreases count
  {
    if count == 0 then [] else [Signed16(Word16(file, p))] + SourceList(file, p + 2, count - 1)
  }

  /** The number of target bytes after the module, object or entry number. */
  function TargetBytes(st: nat, flags: U8): nat {
    var kind := TargetKind(flags);
    if kind == TGT_INTERNAL then (if st == SRC_SEL16 then 0 else if Has32(flags) then 4 else 2)
    else if kind == TGT_EXT_ORD then (if HasOrd8(flags) then 1 else if Has32(flags) then 4 else 2)
    else if kind == TGT_EXT_NAME then (if Has32(flags) then 4 else 2)
    else 0
  }

  function TargetValue(file: seq<U8>, p: nat, bytes: nat): U32 {
    if bytes == 0 then 0
    else if bytes == 1 then Byte(file, p)
    else if bytes == 2 then Word16(file, p)
    else Word32(file, p)
  }

  function AdditiveBytes(flags: U8): nat {
    if !IsAdditive(flags) then 0 else if HasAdd32(flags) then 4 else 2
  }

  /** The bounds that a target number must meet: an object, or an import module. */
  predicate FirstOk(kind: nat, first: nat, objectCount: nat, moduleCount: nat) {
    if kind == TGT_INTERNAL then 0 < first <= objectCount
    else if kind == TGT_INT_ENTRY then true
    else 0 < first <= moduleCount
  }

  /** The scanner's decoder: every read is checked against `end` before it is made. */
  function Checked(file: seq<U8>, p: nat, end: nat, objectCount: nat, moduleCount: nat): (r: Outcome<Record>)
    requires p < end <= |file|
    ensures r.Ok? ==> p < r.value.next <= end
    ensures r.Ok? ==> FirstOk(TargetKind(r.value.flags), r.value.first, objectCount, moduleCount)
  {
    if end - p < 2 then Fail(Rejected("truncated LX fixup record"))
    else
      var type_, flags := file[p], file[p + 1];
      var st, kind, list := SourceKind(type_), TargetKind(flags), IsList(type_);
      if Width(st) == 0 then Fail(Rejected("unknown/undefined LX source fixup type"))
      else if IsChain(flags) then Fail(Rejected("chained LX fixups are not supported by the scanner yet"))
      else if end - (p + 2) < (if list then 1 else 2) then Fail(Rejected("truncated LX fixup source"))
      else
        var count: nat := if list then file[p + 2] else 1;
        var q := p + 2 + if list then 1 else 2;
        var firstBytes := if HasObj16(flags) then 2 else 1;
        if end - q < firstBytes then Fail(Rejected("truncated LX fixup target"))
        else
          var first := TargetValue(file, q, firstBytes);
          var t := q + firstBytes;
          var targetBytes := TargetBytes(st, flags);
          if !FirstOk(kind, first, objectCount, moduleCount) then Fail(Rejected("bad target object or module"))
          else if end - t < targetBytes then Fail(Rejected("truncated LX target"))
          else
            var value := TargetValue(file, t, targetBytes);
            var a := t + targetBytes;
            if end - a < AdditiveBytes(flags) then Fail(Rejected("truncated LX additive"))
            else
              var s := a + AdditiveBytes(flags);
              if list && end - s < 2 * count then Fail(Rejected("LX fixup source list extends past page records"))
              else
                Ok(Record(type_, flags, first,
                          if kind == TGT_INTERNAL then 0 else value, if kind == TGT_INTERNAL then value else 0,
                          if list then SourceList(file, s, count) else [Signed16(Word16(file, p + 2))],
                          if list then s + 2 * count else s))
  }

  /** The second pass's decoder: it reads what it expects to find. A read at or past `end` is
      reported as `Outside` here; the program would make it. */
  function Trusted(file: seq<U8>, p: nat, end: nat): (r: Outcome<Record>)
    requires p < end <= |file|
    ensures r.Ok? ==> p < r.value.next <= end
  {
    if end < p + 2 then Fail(Outside)
    else
      var type_, flags := file[p], file[p + 1];
      var st, kind, list := SourceKind(type_), TargetKind(flags), IsList(type_);
      if Width(st) == 0 then Fail(Slipped("unsupported LX source type slipped through validation"))
      else if IsChain(flags) then Fail(Slipped("chained LX fixup slipped through validation"))
      else
        var q := p + 2 + if list then 1 else 2;
        if end < q then Fail(Outside)
        else
          var count: nat := if list then file[p + 2] else 1;
          var firstBytes := if HasObj16(flags) then 2 else 1;
          if end < q + firstBytes then Fail(Rejected("truncated LX fixup target"))
          else
            var first := TargetValue(file, q, firstBytes);
            var t := q + firstBytes;
            if kind == TGT_INT_ENTRY then Fail(Slipped("unsupported LX fixup slipped through validation"))
            else
              var s := t + TargetBytes(st, flags);
              if end < s then Fail(Outside)
              else if IsAdditive(flags) then Fail(Slipped("additive LX fixup slipped through validation"))
              else if list && end < s + 2 * count then Fail(Outside)
              else
                var value := TargetValue(file, t, TargetBytes(st, flags));
                Ok(Record(type_, flags, first,
                          if kind == TGT_INTERNAL then 0 else value, if kind == TGT_INTERNAL then value else 0,
                          if list then SourceList(file, s, count) else [Signed16(Word16(file, p + 2))],
                          if list then s + 2 * count else s))
  }

  /** Records that the flat loader applies by itself. */
  predicate Flat(r: Record) {
    var st, kind := SourceKind(r.type_), TargetKind(r.flags);
    !IsAlias(r.type_) && !IsAdditive(r.flags) &&
    ((kind == TGT_INTERNAL && st == SRC_OFF32) || ((kind == TGT_EXT_ORD || kind == TGT_EXT_NAME) && st == SRC_REL32))
  }

  /** What the scanner accepts, the second pass decodes to the same record without a single read
      outside the record range, unless the record is additive or refers to an entry; flat
      records are neither. */
  lemma DecodersAgree(file: seq<U8>, p: nat, end: nat, objectCount: nat, moduleCount: nat)
    requires p < end <= |file|
    ensures var c := Checked(file, p, end, objectCount, moduleCount);
            c.Ok? && !IsAdditive(c.value.flags) && TargetKind(c.value.flags) != TGT_INT_ENTRY ==> Trusted(file, p, end) == c
    ensures var c := Checked(file, p, end, objectCount, moduleCount);
            c.Ok? && Flat(c.value) ==> Trusted(file, p, end) == c
  {
    hide Width, TargetBytes, TargetValue, SourceList, SourceKind, IsList, IsChain, HasObj16, IsAlias, Word16, Word32;
  }
}

/** The command processor's environment store: a fixed byte block and a scratch block. */
module EnvStore {
  import opened Letters
  import opened Options
  import opened EnvBlock

  // ---- reading a block ------------------------------------------------------------

  /** Where entry `i` lies in a block that starts with the flat form. */
  lemma EntryAt(es: seq<Entry>, i: nat, s: string)
    requires i <= |es| && Strings(es) + "\0" <= s
    ensures var p := |Strings(es[..i])|;
            p < |s| && (s[p] == '\0' <==> i == |es|) &&
            (i < |es| ==>
               p + |es[i]| + 1 < |s| && s[p..p + |es[i]|] == es[i] && s[p + |es[i]|] == '\0' &&
               |Strings(es[..i + 1])| == p + |es[i]| + 1)
  {
    hide Strings;
    var t := Strings(es) + "\0";
    assert s[..|t|] == t;
    if i == |es| {
      assert es[..i] == es;
    } else {
      StringsStep(es, i);
      var p := |Strings(es[..i])|;
      assert t[p..p + |es[i]|] == es[i] && t[p + |es[i]|] == '\0';
      assert s[p..p + |es[i]|] == t[p..p + |es[i]|];
      assert s[p] == es[i][0] && es[i][0] in es[i];
    }
  }

  lemma FlatStarts(es: seq<Entry>)
    ensures Strings(es) + "\0" <= Flat(es) && |Strings(es)| + 1 <= |Flat(es)|
    ensures |Flat(es)| == if es == [] then 2 else |Strings(es)| + 1
  {
  }

  lemma KeptStep(es: seq<Entry>, i: nat, name: string)
    requires i < |es|
    ensures Kept(es[..i + 1], name) == Kept(es[..i], name) + (if Defines(es[i], name) then [] else [es[i]])
  {
    hide Kept;
    assert es[..i + 1] == es[..i] + [es[i]];
    KeptConcat(es[..i], [es[i]], name);
    KeptOne(es[i], name);
  }

  lemma KeptOne(e: Entry, name: string)
    ensures Kept([e], name) == if Defines(e, name) then [] else [e]
  {
    assert [e][1..] == [] && Kept([], name) == [];
  }

  lemma {:induction false} KeptConcat(a: seq<Entry>, b: seq<Entry>, name: string)
    ensures Kept(a + b, name) == Kept(a, name) + Kept(b, name)
  {
    if a == [] {
      assert a + b == b;
    } else {
      assert (a + b)[0] == a[0] && (a + b)[1..] == a[1..] + b;
      KeptConcat(a[1..], b, name);
      var k := if Defines(a[0], name) then [] else [a[0]];
      assert k + (Kept(a[1..], name) + Kept(b, name)) == (k + Kept(a[1..], name)) + Kept(b, name);
    }
  }

  lemma StringsKept(es: seq<Entry>, i: nat, name: string)
    requires i < |es|
    ensures Strings(Kept(es[..i + 1], name)) ==
            Strings(Kept(es[..i], name)) + (if Defines(es[i], name) then "" else es[i] + "\0")
    ensures |Strings(Kept(es[..i + 1], name))| <= |Strings(es)|
  {
    hide Strings, Kept, Defines;
    KeptStep(es, i, name);
    StringsConcat(Kept(es[..i], name), if Defines(es[i], name) then [] else [es[i]]);
    OneString(es[i]);
    NoStrings();
    KeptLength(es[..i + 1], name);
    assert es == es[..i + 1] + es[i + 1..];
    StringsConcat(es[..i + 1], es[i + 1..]);
  }

  lemma NoStrings()
    ensures Strings([]) == ""
  {
  }

  // ---- the store --------------------------------------------------------------------------

  method Copy(dst: array<char>, at: nat, src: string)
    requires at + |src| <= dst.Length
    modifies dst
    ensures dst[..] == old(dst[..at]) + src + old(dst[at + |src|..])
  {
    var n := 0;
    while n < |src|
      invariant 0 <= n <= |src|
      invariant dst[..] == old(dst[..at]) + src[..n] + old(dst[at + n..])
    {
      dst[at + n] := src[n];
      n := n + 1;
    }
    assert src[..|src|] == src;
  }

  class Store {
    const block: array<char>
    const scratch: array<char>
    var bytes: nat
    var ready: bool
    ghost var entries: seq<Entry>

    /** Once the store is ready its block holds its entries, well terminated, and nothing
        between the end of the block and `bytes`. */
    ghost predicate Valid()
      reads this, block
    {
      block != scratch && block.Length == ENV_MAX && scratch.Length == ENV_MAX &&
      (ready ==> bytes <= ENV_MAX && block[..bytes] == Flat(entries))
    }

    ghost function Contents(): seq<Entry>
      reads this
    {
      if ready then entries else []
    }

    constructor ()
      ensures Valid() && Contents() == [] && fresh(block) && fresh(scratch)
    {
      block := new char[ENV_MAX](_ => '\0');
      scratch := new char[ENV_MAX](_ => '\0');
      bytes, ready, entries := 0, false, [];
    }

    method EnsureReady()
      requires Valid()
      modifies this, block
      ensures Valid() && ready && Contents() == old(Contents())
    {
      if !ready {
        block[0] := '\0';
        block[1] := '\0';
        bytes := 2;
        ready := true;
        entries := [];
        assert block[..2] == "\0\0";
      }
    }

    /** The length of the string at `p`, which is the entry `e`. */
    method CLen(p: nat, ghost e: Entry) returns (n: nat)
      requires Valid() && p + |e| < block.Length && block[p..p + |e|] == e && block[p + |e|] == '\0'
      ensures n == |e|
    {
      n := 0;
      assert forall j :: 0 <= j < |e| ==> block[p + j] == e[j] && e[j] in e;
      while block[p + n] != '\0'
        invariant 0 <= n <= |e|
        decreases |e| - n
      {
        n := n + 1;
      }
    }

    method NameEq(p: nat, name: string, ghost e: Entry) returns (eq: bool)
      requires Valid() && ValidName(name)
      requires p + |e| < block.Length && block[p..p + |e|] == e && block[p + |e|] == '\0'
      ensures eq == Defines(e, name)
    {
      hide Defines, Upper;
      var n := 0;
      assert forall j :: 0 <= j < |e| ==> block[p + j] == e[j] && e[j] in e;
      while n < |name| && block[p + n] != '\0' && block[p + n] != '='
        invariant 0 <= n <= |name| && n <= |e|
        invariant forall j :: 0 <= j < n ==> Upper(e[j]) == Upper(name[j])
      {
        if Upper(block[p + n]) != Upper(name[n]) {
          Differs(e, name, n);
          return false;
        }
        n := n + 1;
      }
      eq := n == |name| && block[p + n] == '=';
      Decided(e, name, n);
    }

    /** `CmdO2EnvGet`: the value of a variable, with its NUL, if it fits. */
    method EnvGet(name: string, buffer: array<char>, cap: nat) returns (rc: nat)
      requires Valid() && cap <= buffer.Length && buffer != block && buffer != scratch
      modifies this, block, buffer
      ensures Valid() && Contents() == old(Contents())
      ensures if !ValidName(name) || cap == 0 then rc == INVALID_PARAMETER && buffer[..] == old(buffer[..])
              else
                match Get(Contents(), name)
                case None => rc == ENVVAR_NOT_FOUND && buffer[..] == old(buffer[..])[0 := '\0']
                case Some(v) =>
                  if |v| + 1 > cap then rc == BUFFER_OVERFLOW && buffer[..] == old(buffer[..])
                  else rc == NO_ERROR && buffer[..] == v + "\0" + old(buffer[|v| + 1..])
    {
      hide Strings;
      if !ValidName(name) || cap == 0 {
        return INVALID_PARAMETER;
      }
      EnsureReady();
      ghost var e: Entry;
      var found, p;
      found, p, e := FindEntry(name);
      if !found {
        buffer[0] := '\0';
        return ENVVAR_NOT_FOUND;
      }
      var v := ReadValue(p, name, e);
      if |v| + 1 > cap {
        return BUFFER_OVERFLOW;
      }
      Copy(buffer, 0, v + "\0");
      return NO_ERROR;
    }

    /** The first entry that defines `name`. */
    method FindEntry(name: string) returns (found: bool, p: nat, ghost e: Entry)
      requires Valid() && ready && ValidName(name)
      ensures found <==> Get(entries, name).Some?
      ensures found ==> p + |e| < block.Length && block[p..p + |e|] == e && block[p + |e|] == '\0' && Defines(e, name) &&
                        Get(entries, name) == Some(ValueOf(e, name))
    {
      hide Strings, Defines, ValidName;
      FlatStarts(entries);
      ghost var s := block[..bytes];
      p := 0;
      ghost var i := 0;
      NoStrings();
      e := "=";
      EntryAt(entries, 0, s);
      assert entries[0..] == entries;
      while block[p] != '\0'
        invariant 0 <= i <= |entries| && p == |Strings(entries[..i])| && p < bytes
        invariant block[p] == '\0' <==> i == |entries|
        invariant Get(entries[i..], name) == Get(entries, name)
        decreases |entries| - i
      {
        EntryAt(entries, i, s);
        e := entries[i];
        SubSlice(block, bytes, p, p + |e|);
        assert entries[i..][0] == e && entries[i..][1..] == entries[i + 1..];
        var eq := NameEq(p, name, e);
        if eq {
          return true, p, e;
        }
        var l := CLen(p, e);
        p := p + l + 1;
        i := i + 1;
        EntryAt(entries, i, s);
      }
      assert entries[|entries|..] == [];
      found := false;
    }

    /** The text after the first `=` of entry `e` at `p`. */
    method ReadValue(p: nat, name: string, ghost e: Entry) returns (v: string)
      requires Valid() && ValidName(name) && Defines(e, name)
      requires p + |e| < block.Length && block[p..p + |e|] == e && block[p + |e|] == '\0'
      ensures v == ValueOf(e, name)
    {
      NameEnds(e, name);
      assert forall j :: 0 <= j < |e| ==> block[p + j] == e[j] && e[j] in e;
      var q := 0;
      while block[p + q] != '\0' && block[p + q] != '='
        invariant 0 <= q <= |name|
        decreases |name| - q
      {
        q := q + 1;
      }
      q := q + 1;
      v := [];
      while block[p + q] != '\0'
        invariant |name| < q <= |e| && v == e[|name| + 1..q]
        decreases |e| - q
      {
        v := v + [block[p + q]];
        q := q + 1;
      }
    }

    /** `CmdO2EnvSet`: it fails only for lack of room, and then changes nothing. */
    method EnvSet(name: string, value: CString) returns (rc: nat)
      requires Valid()
      modifies this, block, scratch
      ensures Valid()
      ensures if !ValidName(name) then rc == INVALID_PARAMETER && Contents() == old(Contents())
              else
                var es := SetEntries(old(Contents()), name, value);
                if |Flat(es)| <= ENV_MAX then rc == NO_ERROR && Contents() == es
                else rc == NOT_ENOUGH_MEMORY && Contents() == old(Contents())
    {
      hide Strings, Kept;
      if !ValidName(name) {
        return INVALID_PARAMETER;
      }
      EnsureReady();
      var out := KeepOthers(name);
      ghost var es := SetEntries(entries, name, value);
      SetStrings(entries, name, value);
      FlatStarts(es);
      if value != "" {
        if out + |name| + 1 + |value| + 1 + 1 > ENV_MAX {
          return NOT_ENOUGH_MEMORY;
        }
        out := AddDefinition(out, name, value);
      }
      out := Terminate(out, es);
      Copy(block, 0, scratch[..out]);
      bytes := out;
      entries := es;
      assert block[..bytes] == Flat(es);
      return NO_ERROR;
    }

    method AddDefinition(at: nat, name: string, value: CString) returns (out: nat)
      requires Valid() && at + |name| + 1 + |value| + 1 < scratch.Length
      modifies scratch
      ensures out == at + |name| + 1 + |value| + 1
      ensures scratch[..out] == old(scratch[..at]) + (name + "=" + value + "\0")
    {
      ghost var was := scratch[..at];
      out := Append(at, name);
      scratch[out] := '=';
      assert scratch[..out + 1] == scratch[..out] + "=" && scratch[..out] == was + name;
      out := Append(out + 1, value);
      scratch[out] := '\0';
      assert scratch[..out + 1] == scratch[..out] + "\0" && scratch[..out] == was + name + "=" + value;
      out := out + 1;
      assert was + name + "=" + value + "\0" == was + (name + "=" + value + "\0");
    }

    method Append(at: nat, text: string) returns (out: nat)
      requires at + |text| <= scratch.Length
      modifies scratch
      ensures out == at + |text| && scratch[..out] == old(scratch[..at]) + text
    {
      Copy(scratch, at, text);
      out := at + |text|;
    }

    method Terminate(at: nat, ghost es: seq<Entry>) returns (out: nat)
      requires Valid() && at + 1 < scratch.Length + (if at == 0 then 0 else 1) && scratch[..at] == Strings(es)
      modifies scratch
      ensures out <= scratch.Length && scratch[..out] == Flat(es)
    {
      hide Strings;
      out := at;
      scratch[out] := '\0';
      out := out + 1;
      if out == 1 {
        scratch[out] := '\0';
        out := out + 1;
      }
      FlatIs(es, scratch[..out]);
    }

    /** Copies every entry that does not define `name` to the scratch block. */
    method KeepOthers(name: string) returns (out: nat)
      requires Valid() && ready && ValidName(name)
      modifies scratch
      ensures out == |Strings(Kept(entries, name))| && out < ENV_MAX && scratch[..out] == Strings(Kept(entries, name))
    {
      hide Strings, Kept;
      FlatStarts(entries);
      ghost var s := block[..bytes];
      var p := 0;
      out := 0;
      ghost var i := 0;
      NoStrings();
      NoneKept(entries, name);
      EntryAt(entries, 0, s);
      while block[p] != '\0'
        invariant 0 <= i <= |entries| && p == |Strings(entries[..i])| && p < bytes
        invariant block[p] == '\0' <==> i == |entries|
        invariant out == |Strings(Kept(entries[..i], name))| <= |Strings(entries)|
        invariant scratch[..out] == Strings(Kept(entries[..i], name)) && block[..bytes] == s && Valid()
        decreases |entries| - i
      {
        EntryAt(entries, i, s);
        ghost var e := entries[i];
        SubSlice(block, bytes, p, p + |e|);
        StringsKept(entries, i, name);
        var l := CLen(p, e);
        var eq := NameEq(p, name, e);
        if !eq {
          assert block[p..p + l + 1] == e + "\0";
          Copy(scratch, out, block[p..p + l + 1]);
          out := out + l + 1;
        }
        p := p + l + 1;
        i := i + 1;
        EntryAt(entries, i, s);
      }
      assert entries[..|entries|] == entries;
    }

    /** `CmdO2EnvExport`. */
    method EnvExport(buffer: array<char>, cap: nat) returns (rc: nat, actual: nat)
      requires Valid() && cap <= buffer.Length && buffer != block && buffer != scratch
      modifies this, block, buffer
      ensures Valid() && Contents() == old(Contents()) && actual == |Flat(Contents())|
      ensures if cap < actual then rc == BUFFER_OVERFLOW && buffer[..] == old(buffer[..])
              else rc == NO_ERROR && buffer[..] == Flat(Contents()) + old(buffer[actual..])
    {
      EnsureReady();
      actual := bytes;
      if cap < bytes {
        return BUFFER_OVERFLOW, actual;
      }
      Copy(buffer, 0, block[..bytes]);
      return NO_ERROR, actual;
    }

    /** `CmdO2EnvImport`: `input` is a terminated block holding the entries `es`; by
        `FlatUnique` it can hold no others. */
    method EnvImport(input: string, ghost es: seq<Entry>) returns (rc: nat)
      requires Valid() && Flat(es) <= input
      modifies this, block
      ensures Valid()
      ensures if |Flat(es)| <= ENV_MAX then rc == NO_ERROR && Contents() == es && ready
              else rc == INVALID_PARAMETER && Contents() == old(Contents())
    {
      var n := BlockSize(input, es);
      if n == 0 || n > ENV_MAX {
        return INVALID_PARAMETER;
      }
      assert input[..n] == Flat(es);
      Copy(block, 0, input[..n]);
      bytes := n;
      ready := true;
      entries := es;
      assert block[..n] == Flat(es);
      return NO_ERROR;
    }

    method InputLength(input: string, p: nat, ghost e: Entry) returns (l: nat)
      requires p + |e| < |input| && input[p..p + |e|] == e && input[p + |e|] == '\0'
      ensures l == |e|
    {
      assert forall j :: 0 <= j < |e| ==> input[p + j] == input[p..p + |e|][j] && e[j] in e;
      l := 0;
      while input[p + l] != '\0'
        invariant 0 <= l <= |e|
        decreases |e| - l
      {
        l := l + 1;
      }
    }

    /** The measured size, or 0 when it is more than a block may hold. */
    method BlockSize(input: string, ghost es: seq<Entry>) returns (n: nat)
      requires Flat(es) <= input
      ensures n == if |Flat(es)| <= ENV_MAX then |Flat(es)| else 0
    {
      hide Strings;
      FlatStarts(es);
      if input[0] == '\0' {
        EntryAt(es, 0, input);
        NoStrings();
        return 2;
      }
      var p := 0;
      ghost var i := 0;
      NoStrings();
      EntryAt(es, 0, input);
      while input[p] != '\0'
        invariant 0 <= i <= |es| && p == |Strings(es[..i])| && p < |input|
        invariant input[p] == '\0' <==> i == |es|
        invariant i > 0 ==> p < ENV_MAX
        decreases |es| - i
      {
        EntryAt(es, i, input);
        StringsStep(es, i);
        var l := InputLength(input, p, es[i]);
        p := p + l + 1;
        if p >= ENV_MAX {
          return 0;
        }
        i := i + 1;
        EntryAt(es, i, input);
      }
      assert es[..|es|] == es;
      return p + 1;
    }
  }

  lemma SubSlice(a: array<char>, n: nat, p: nat, q: nat)
    requires p <= q <= n <= a.Length
    ensures a[..n][p..q] == a[p..q]
  {
  }

  lemma Differs(e: string, name: string, n: nat)
    requires n < |e| && n < |name| && Upper(e[n]) != Upper(name[n])
    ensures !Defines(e, name)
  {
    if Defines(e, name) {
      DefinesAt(e, name, n);
    }
  }

  lemma DefinesAt(e: string, name: string, n: nat)
    requires Defines(e, name) && n < |name|
    ensures Upper(e[n]) == Upper(name[n])
  {
    assert Upper(e[..|name|][n]) == Upper(name[n]);
  }

  /** Where the scan stops, the answer is known. */
  lemma Decided(e: Entry, name: string, n: nat)
    requires ValidName(name) && n <= |name| && n <= |e|
    requires forall j :: 0 <= j < n ==> Upper(e[j]) == Upper(name[j])
    requires n == |name| || n == |e| || e[n] == '='
    ensures Defines(e, name) <==> n == |name| && n < |e| && e[n] == '='
  {
    NameEnds(e, name);
  }

  lemma NoneKept(es: seq<Entry>, name: string)
    ensures Kept(es[..0], name) == []
  {
  }

  lemma SetStrings(es: seq<Entry>, name: string, value: CString)
    requires ValidName(name)
    ensures Strings(SetEntries(es, name, value)) ==
            Strings(Kept(es, name)) + if value == "" then "" else name + "=" + value + "\0"
    ensures |Strings(Kept(es, name))| <= |Strings(es)|
  {
    hide Strings, Kept;
    KeptLength(es, name);
    var e := name + "=" + value;
    StringsConcat(Kept(es, name), if value == "" then [] else [e]);
    NoStrings();
    OneString(e);
  }

  lemma FlatIs(es: seq<Entry>, s: string)
    requires s == Strings(es) + if Strings(es) == "" then "\0\0" else "\0"
    ensures s == Flat(es)
  {
  }
}

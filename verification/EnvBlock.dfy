/** Environment blocks: a list of strings, each ended by NUL, and one more NUL at the end. */
module EnvBlock {
  import opened Letters
  import opened Options

  const ENV_MAX := 32768

  const NO_ERROR := 0
  const NOT_ENOUGH_MEMORY := 8
  const INVALID_PARAMETER := 87
  const BUFFER_OVERFLOW := 111
  const ENVVAR_NOT_FOUND := 203

  /** A C string. */
  type CString = s: string | '\0' !in s

  /** An entry of a block: not empty, or it would end the block. */
  type Entry = s: string | s != "" && '\0' !in s witness "="

  // ---- the flat form -------------------------------------------------------------

  function Strings(es: seq<Entry>): (s: string) {
    if es == [] then "" else es[0] + "\0" + Strings(es[1..])
  }

  /** An empty environment still has two NULs. */
  function Flat(es: seq<Entry>): (s: string)
    ensures |s| >= 2
  {
    if es == [] then "\0\0" else Strings(es) + "\0"
  }

  lemma {:induction false} StringsConcat(a: seq<Entry>, b: seq<Entry>)
    ensures Strings(a + b) == Strings(a) + Strings(b)
  {
    if a == [] {
      assert a + b == b;
    } else {
      assert (a + b)[0] == a[0] && (a + b)[1..] == a[1..] + b;
      StringsConcat(a[1..], b);
    }
  }

  lemma StringsStep(es: seq<Entry>, i: nat)
    requires i < |es|
    ensures Strings(es) == Strings(es[..i]) + es[i] + "\0" + Strings(es[i + 1..])
    ensures Strings(es[..i + 1]) == Strings(es[..i]) + es[i] + "\0"
  {
    hide Strings;
    var a, x, b := es[..i], [es[i]], es[i + 1..];
    Slices(es, i);
    StringsConcat(a, x + b);
    StringsConcat(x, b);
    StringsConcat(a, x);
    OneString(es[i]);
  }

  lemma Slices(es: seq<Entry>, i: nat)
    requires i < |es|
    ensures es == es[..i] + ([es[i]] + es[i + 1..]) && es[..i + 1] == es[..i] + [es[i]]
  {
  }

  lemma OneString(e: Entry)
    ensures Strings([e]) == e + "\0"
  {
    assert [e][1..] == [] && Strings([]) == "";
  }

  /** Two blocks that start alike hold the same entries: the flat form is unambiguous, even
      with anything after it. */
  lemma {:induction false} FlatUnique(a: seq<Entry>, b: seq<Entry>, s: string)
    requires Strings(a) + "\0" <= s && Strings(b) + "\0" <= s
    ensures a == b
    decreases |a|
  {
    if a == [] || b == [] {
      NoneFirst(a, s);
      NoneFirst(b, s);
    } else {
      SameFirst(a, b, s);
      var n := |a[0]| + 1;
      assert Strings(a)[n..] == Strings(a[1..]) && Strings(b)[n..] == Strings(b[1..]);
      assert (Strings(a) + "\0")[n..] == Strings(a[1..]) + "\0" && (Strings(b) + "\0")[n..] == Strings(b[1..]) + "\0";
      PrefixTail(Strings(a) + "\0", s, n);
      PrefixTail(Strings(b) + "\0", s, n);
      FlatUnique(a[1..], b[1..], s[n..]);
    }
  }

  lemma PrefixTail(p: string, s: string, n: nat)
    requires p <= s && n <= |p|
    ensures p[n..] <= s[n..]
  {
  }

  lemma NoneFirst(a: seq<Entry>, s: string)
    requires Strings(a) + "\0" <= s
    ensures s[0] == '\0' <==> a == []
  {
    if a != [] {
      assert (Strings(a) + "\0")[0] == a[0][0];
      assert a[0][0] in a[0];
    } else {
      assert (Strings(a) + "\0")[0] == '\0';
    }
  }

  lemma SameFirst(a: seq<Entry>, b: seq<Entry>, s: string)
    requires a != [] && b != [] && Strings(a) + "\0" <= s && Strings(b) + "\0" <= s
    ensures a[0] == b[0]
  {
    FirstEnds(a, s);
    FirstEnds(b, s);
    assert |a[0]| == |b[0]|;
  }

  lemma FirstEnds(a: seq<Entry>, s: string)
    requires a != [] && Strings(a) + "\0" <= s
    ensures |s| > |a[0]| && s[..|a[0]|] == a[0] && s[|a[0]|] == '\0'
    ensures forall i :: 0 <= i < |a[0]| ==> s[i] != '\0'
  {
    var t := Strings(a) + "\0";
    assert t[..|a[0]|] == a[0] && t[|a[0]|] == '\0';
    assert s[..|t|] == t;
    forall i | 0 <= i < |a[0]| ensures s[i] != '\0' {
      assert a[0][i] in a[0];
    }
  }

  // ---- names and values ------------------------------------------------------------

  predicate ValidName(name: string) {
    name != "" && '=' !in name && '\0' !in name
  }

  /** `entry` is the named variable's definition. */
  predicate Defines(entry: string, name: string) {
    |name| < |entry| && entry[|name|] == '=' && SameName(entry[..|name|], name)
  }

  function ValueOf(entry: string, name: string): string
    requires Defines(entry, name)
  {
    entry[|name| + 1..]
  }

  /** The value the block gives a name: its first definition's. */
  function Get(es: seq<Entry>, name: string): Option<string> {
    if es == [] then None
    else if Defines(es[0], name) then Some(ValueOf(es[0], name))
    else Get(es[1..], name)
  }

  function Kept(es: seq<Entry>, name: string): (r: seq<Entry>) {
    if es == [] then []
    else (if Defines(es[0], name) then [] else [es[0]]) + Kept(es[1..], name)
  }

  /** Setting drops every definition and adds one at the end; an empty value only drops. */
  function SetEntries(es: seq<Entry>, name: string, value: CString): (r: seq<Entry>)
    requires ValidName(name)
  {
    Kept(es, name) + if value == "" then [] else [name + "=" + value]
  }

  // ---- a case-insensitive map ---------------------------------------------------------

  /** The name of a definition ends at its first `=`. */
  lemma NameEnds(entry: string, name: string)
    requires ValidName(name)
    ensures Defines(entry, name) ==> forall i :: 0 <= i < |name| ==> entry[i] != '='
  {
    if Defines(entry, name) {
      forall i | 0 <= i < |name| ensures entry[i] != '=' {
        assert Upper(entry[..|name|][i]) == Upper(name[i]);
        assert name[i] in name;
      }
    }
  }

  /** Definitions do not confuse names: for names without `=` an entry defines both only if
      they are the same name. */
  lemma DefinesBoth(entry: string, a: string, b: string)
    requires ValidName(a) && ValidName(b) && Defines(entry, a)
    ensures Defines(entry, b) <==> SameName(a, b)
    ensures Defines(entry, b) ==> ValueOf(entry, b) == ValueOf(entry, a)
  {
    NameEnds(entry, a);
    NameEnds(entry, b);
    if Defines(entry, b) {
      forall i | 0 <= i < |a| ensures Upper(a[i]) == Upper(b[i]) {
        assert Upper(entry[..|a|][i]) == Upper(a[i]) && Upper(entry[..|b|][i]) == Upper(b[i]);
      }
    }
    if SameName(a, b) {
      forall i | 0 <= i < |b| ensures Upper(entry[..|b|][i]) == Upper(b[i]) {
        assert Upper(entry[..|a|][i]) == Upper(a[i]);
      }
    }
  }

  lemma {:induction false} KeptGet(es: seq<Entry>, name: string, other: string)
    requires ValidName(name) && ValidName(other)
    ensures Get(Kept(es, name), other) == if SameName(name, other) then None else Get(es, other)
  {
    if es != [] {
      KeptGet(es[1..], name, other);
      if Defines(es[0], name) {
        DefinesBoth(es[0], name, other);
        assert [] + Kept(es[1..], name) == Kept(es[1..], name);
      } else {
        var k := [es[0]] + Kept(es[1..], name);
        assert k[0] == es[0] && k[1..] == Kept(es[1..], name);
        if SameName(name, other) {
          SameDefines(es[0], name, other);
        }
      }
    }
  }

  lemma SameDefines(entry: string, a: string, b: string)
    requires SameName(a, b)
    ensures Defines(entry, a) <==> Defines(entry, b)
  {
    if Defines(entry, a) {
      forall i | 0 <= i < |b| ensures Upper(entry[..|b|][i]) == Upper(b[i]) {
        assert Upper(entry[..|a|][i]) == Upper(a[i]);
      }
    }
    if Defines(entry, b) {
      forall i | 0 <= i < |a| ensures Upper(entry[..|a|][i]) == Upper(a[i]) {
        assert Upper(entry[..|b|][i]) == Upper(b[i]);
      }
    }
  }

  lemma {:induction false} GetConcat(a: seq<Entry>, b: seq<Entry>, name: string)
    ensures Get(a + b, name) == if Get(a, name).Some? then Get(a, name) else Get(b, name)
  {
    if a == [] {
      assert a + b == b;
    } else {
      assert (a + b)[0] == a[0] && (a + b)[1..] == a[1..] + b;
      GetConcat(a[1..], b, name);
    }
  }

  /** The block is a case-insensitive map: after a set the name has the value, or none if the
      value was empty, and every other name has what it had. */
  lemma GetAfterSet(es: seq<Entry>, name: string, value: CString, other: string)
    requires ValidName(name) && ValidName(other)
    ensures Get(SetEntries(es, name, value), other) ==
            if !SameName(name, other) then Get(es, other) else if value == "" then None else Some(value)
  {
    hide Kept;
    KeptGet(es, name, other);
    if value == "" {
      assert SetEntries(es, name, value) == Kept(es, name);
    } else {
      var e: Entry := name + "=" + value;
      GetConcat(Kept(es, name), [e], other);
      assert Defines(e, name) by {
        assert e[..|name|] == name;
      }
      DefinesBoth(e, name, other);
      assert e[|name| + 1..] == value;
    }
  }

  lemma {:induction false} KeptLength(es: seq<Entry>, name: string)
    ensures |Strings(Kept(es, name))| <= |Strings(es)|
  {
    if es != [] {
      KeptLength(es[1..], name);
      StringsConcat(if Defines(es[0], name) then [] else [es[0]], Kept(es[1..], name));
    }
  }
}

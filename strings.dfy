/**
  The few string operations of Python that the preprocessor relies on:
  `str.strip()`, substring search (`in`, `find`), `str.isdigit()` and
  `sep.join(parts)`. Whitespace and digits are the ASCII ones.
 */
module Strings {

  import opened Wrappers

  /** The whitespace set used for `str.strip()` and for `\s`: space, tab, line feed,
      carriage return, vertical tab and form feed. */
  predicate IsSpace(c: char) {
    c == ' ' || c == '\t' || c == '\n' || c == '\r' || c == '\U{B}' || c == '\U{C}'
  }

  predicate IsDigit(c: char) {
    '0' <= c <= '9'
  }

  /** `str.isdigit()`: non-empty and made of digits only. */
  predicate IsDigitString(s: string) {
    |s| > 0 && forall i :: 0 <= i < |s| ==> IsDigit(s[i])
  }

  /** Neither end of `s` is whitespace: what `str.strip()` returns. */
  predicate IsStripped(s: string) {
    s == [] || (!IsSpace(s[0]) && !IsSpace(s[|s| - 1]))
  }

  predicate AllSpace(s: string) {
    forall i :: 0 <= i < |s| ==> IsSpace(s[i])
  }

  /** Python's `str.strip()` with no argument: drops whitespace from both ends. */
  function Strip(s: string): (r: string)
    ensures IsStripped(r)
    ensures IsStripped(s) ==> r == s
    decreases |s|
  {
    if s != [] && IsSpace(s[0]) then Strip(s[1..])
    else if s != [] && IsSpace(s[|s| - 1]) then Strip(s[..|s| - 1])
    else s
  }

  /** Where the text `Strip` keeps begins in its input. */
  function StripStart(s: string): nat
    decreases |s|
  {
    if s != [] && IsSpace(s[0]) then 1 + StripStart(s[1..])
    else if s != [] && IsSpace(s[|s| - 1]) then StripStart(s[..|s| - 1])
    else 0
  }

  lemma AllSpaceCons(c: char, t: string)
    requires IsSpace(c) && AllSpace(t)
    ensures AllSpace([c] + t)
  {
    assert forall i :: 0 < i < |[c] + t| ==> ([c] + t)[i] == t[i - 1];
  }

  lemma AllSpaceSnoc(t: string, c: char)
    requires IsSpace(c) && AllSpace(t)
    ensures AllSpace(t + [c])
  {
    assert forall i :: 0 <= i < |t| ==> (t + [c])[i] == t[i];
  }

  /** The slice property of `Strip`, stated at the positions `a` and `a + |r|`. */
  ghost predicate IsStripSlice(s: string, r: string, a: nat) {
    && a + |r| <= |s|
    && r == s[a..a + |r|]
    && AllSpace(s[..a]) && AllSpace(s[a + |r|..])
  }

  /** Dropping a leading space shifts the slice by one. */
  lemma SliceAfterFront(s: string, r: string, b: nat)
    requires s != [] && IsSpace(s[0]) && IsStripSlice(s[1..], r, b)
    ensures IsStripSlice(s, r, b + 1)
  {
    var t := s[1..];
    assert s[b + 1..b + 1 + |r|] == t[b..b + |r|];
    assert s[..b + 1] == [s[0]] + t[..b];
    AllSpaceCons(s[0], t[..b]);
    assert s[b + 1 + |r|..] == t[b + |r|..];
  }

  /** Dropping a trailing space keeps the slice where it is. */
  lemma SliceAfterBack(s: string, r: string, a: nat)
    requires s != [] && IsSpace(s[|s| - 1]) && IsStripSlice(s[..|s| - 1], r, a)
    ensures IsStripSlice(s, r, a)
  {
    var t := s[..|s| - 1];
    assert s[a..a + |r|] == t[a..a + |r|];
    assert s[..a] == t[..a];
    assert s[a + |r|..] == t[a + |r|..] + [s[|s| - 1]];
    AllSpaceSnoc(t[a + |r|..], s[|s| - 1]);
  }

  /** What `Strip` keeps is a slice of its input with only whitespace around it. */
  lemma {:induction false} StripIsSlice(s: string)
    ensures StripStart(s) + |Strip(s)| <= |s|
    ensures Strip(s) == s[StripStart(s)..StripStart(s) + |Strip(s)|]
    ensures AllSpace(s[..StripStart(s)]) && AllSpace(s[StripStart(s) + |Strip(s)|..])
    decreases |s|
  {
    var r, a := Strip(s), StripStart(s);
    if s != [] && IsSpace(s[0]) {
      var t := s[1..];
      assert r == Strip(t) && a == 1 + StripStart(t);
      StripIsSlice(t);
      SliceAfterFront(s, r, a - 1);
    } else if s != [] && IsSpace(s[|s| - 1]) {
      var t := s[..|s| - 1];
      assert r == Strip(t) && a == StripStart(t);
      StripIsSlice(t);
      SliceAfterBack(s, r, a);
    } else {
      assert r == s && a == 0;
      assert s[0..|s|] == s;
      assert s[..0] == [] && s[|s|..] == [];
    }
  }

  /** Every character `Strip` keeps comes from its input. */
  lemma StripChars(s: string)
    ensures forall i :: 0 <= i < |Strip(s)| ==> Strip(s)[i] in s
  {
    StripIsSlice(s);
    var r, a := Strip(s), StripStart(s);
    forall i | 0 <= i < |r| ensures r[i] in s {
      assert r[i] == s[a + i];
    }
  }

  /** `Strip` returns the empty text exactly when its input is all whitespace. */
  lemma StripEmpty(s: string)
    ensures Strip(s) == [] <==> AllSpace(s)
  {
    StripIsSlice(s);
    var r, a := Strip(s), StripStart(s);
    if r == [] {
      forall i | 0 <= i < |s| ensures IsSpace(s[i]) {
        if i < a {
          assert s[..a][i] == s[i];
        } else {
          assert s[a..][i - a] == s[i];
        }
      }
    } else {
      assert r[0] == s[a];
    }
  }

  /** Stripping a stripped text followed by a line feed gives the text back. */
  lemma StripNewline(t: string)
    requires IsStripped(t)
    ensures Strip(t + "\n") == t
  {
    var s := t + "\n";
    assert |s| == |t| + 1 && s[|s| - 1] == '\n';
    if t == [] {
      assert IsSpace(s[0]) && s[1..] == [];
      assert Strip(s) == Strip(s[1..]);
    } else {
      assert s[0] == t[0] && !IsSpace(s[0]);
      assert s[..|s| - 1] == t;
      assert Strip(s) == Strip(s[..|s| - 1]);
    }
  }

  /** `p` occurs in `s` starting at index `i`. */
  predicate OccursAt(s: string, p: string, i: int) {
    0 <= i && i + |p| <= |s| && s[i..i + |p|] == p
  }

  /** Python's `p in s`. */
  predicate Contains(s: string, p: string) {
    exists i :: 0 <= i <= |s| && OccursAt(s, p, i)
  }

  /** The first index at or after `from` where `p` occurs in `s`, as `str.find` reports it. */
  function FindFrom(s: string, p: string, from: nat): (r: Option<nat>)
    requires from <= |s|
    ensures r.Some? ==> from <= r.value <= |s| && OccursAt(s, p, r.value)
    ensures r.Some? ==> forall j :: from <= j < r.value ==> !OccursAt(s, p, j)
    ensures r.None? ==> forall j :: from <= j <= |s| ==> !OccursAt(s, p, j)
    decreases |s| - from
  {
    if OccursAt(s, p, from) then Some(from)
    else if from == |s| then None
    else FindFrom(s, p, from + 1)
  }

  /** `str.find`, with `None` for -1. */
  function Find(s: string, p: string): (r: Option<nat>)
    ensures r.Some? <==> Contains(s, p)
    ensures r.Some? ==> OccursAt(s, p, r.value) && forall j :: 0 <= j < r.value ==> !OccursAt(s, p, j)
  {
    FindFrom(s, p, 0)
  }

  /** An occurrence of `p` in a suffix of `s` is an occurrence in `s`, shifted. */
  lemma OccursInSuffix(s: string, p: string, k: nat, i: int)
    requires k <= |s|
    ensures OccursAt(s[k..], p, i) <==> i >= 0 && OccursAt(s, p, i + k)
  {
    if 0 <= i && i + |p| <= |s| - k {
      assert s[k..][i..i + |p|] == s[i + k..i + k + |p|];
    }
  }

  /** Python's `sep.join(parts)`. */
  function Join(parts: seq<string>, sep: string): string {
    if |parts| == 0 then ""
    else if |parts| == 1 then parts[0]
    else parts[0] + sep + Join(parts[1..], sep)
  }

  /** Every character of a join comes from one of the parts or from the separator. */
  lemma {:induction false} JoinChars(parts: seq<string>, sep: string, c: char)
    requires c in Join(parts, sep)
    ensures c in sep || exists k :: 0 <= k < |parts| && c in parts[k]
  {
    if |parts| > 1 {
      var rest := Join(parts[1..], sep);
      assert Join(parts, sep) == parts[0] + sep + rest;
      if c !in parts[0] && c !in sep {
        assert c in rest;
        JoinChars(parts[1..], sep, c);
        var k :| 0 <= k < |parts[1..]| && c in parts[1..][k];
        assert c in parts[k + 1];
      }
    } else {
      assert |parts| == 1;
      assert c in parts[0];
    }
  }

  /** Joining non-empty stripped parts gives a stripped text that starts with the first part. */
  lemma {:induction false} JoinOfStripped(parts: seq<string>, sep: string)
    requires |parts| > 0
    requires forall k :: 0 <= k < |parts| ==> parts[k] != [] && IsStripped(parts[k])
    ensures |Join(parts, sep)| >= |parts[0]|
    ensures Join(parts, sep)[..|parts[0]|] == parts[0]
    ensures IsStripped(Join(parts, sep)) && Join(parts, sep) != []
  {
    if |parts| > 1 {
      var rest := Join(parts[1..], sep);
      JoinOfStripped(parts[1..], sep);
      var j := parts[0] + sep + rest;
      assert Join(parts, sep) == j;
      assert j[|j| - 1] == rest[|rest| - 1];
      assert j[0] == parts[0][0];
      assert j[..|parts[0]|] == parts[0];
    }
  }
}

/**
  The two substitutions that clean one subtitle text line (All-in-One.py:42-43),
  written out as string functions instead of regular expressions:

  - `re.sub(r'\[.*?\]|\(.*?\)', '', line)`: scanning left to right, an opening
    `[` (or `(`) is removed together with everything up to and including the
    first later `]` (or `)`), provided no line feed lies in between (`.` does
    not match a line feed); an opener without such a closer is kept;
  - `re.sub(r'[^0-9a-zA-Z가-힣\s\-\.,?!]', '', line)`: every character outside
    the whitelist is dropped.
 */
module Sanitiser {

  import opened Wrappers
  import opened Strings

  /** The character class `[0-9a-zA-Z가-힣\s\-\.,?!]`; 가 is U+AC00 and 힣 is U+D7A3. */
  predicate Whitelisted(c: char)
    ensures Whitelisted(c) ==> c != '[' && c != '(' && c != ']' && c != ')'
  {
    IsDigit(c) || ('a' <= c <= 'z') || ('A' <= c <= 'Z')
    || ('\U{AC00}' <= c <= '\U{D7A3}')
    || IsSpace(c)
    || c == '-' || c == '.' || c == ',' || c == '?' || c == '!'
  }

  predicate AllWhitelisted(s: string) {
    forall i :: 0 <= i < |s| ==> Whitelisted(s[i])
  }

  /** No character of `s` opens an annotation. */
  predicate NoOpeners(s: string) {
    forall i :: 0 <= i < |s| ==> s[i] != '[' && s[i] != '('
  }

  /** The closer matching an opener. */
  function CloserOf(opener: char): char {
    if opener == '[' then ']' else ')'
  }

  /** The non-greedy `.*?` followed by `close`, tried from index `from`: the index of the
      first `close` at or after `from`, unless a line feed comes first. */
  function FindCloser(s: string, close: char, from: nat): (r: Option<nat>)
    requires from <= |s|
    requires close != '\n'
    ensures r.Some? ==> from <= r.value < |s| && s[r.value] == close
    ensures r.Some? ==> forall k :: from <= k < r.value ==> s[k] != close && s[k] != '\n'
    ensures r.None? ==> forall k :: from <= k < |s| && s[k] == close ==>
                          exists m :: from <= m < k && s[m] == '\n'
    decreases |s| - from
  {
    if from == |s| then None
    else if s[from] == close then Some(from)
    else if s[from] == '\n' then None
    else FindCloser(s, close, from + 1)
  }

  /** `re.sub(r'\[.*?\]|\(.*?\)', '', s)`. */
  function RemoveAnnotations(s: string): (r: string)
    ensures |r| <= |s|
    ensures forall i :: 0 <= i < |r| ==> r[i] in s
    decreases |s|
  {
    if s == [] then []
    else if s[0] == '[' || s[0] == '(' then
      match FindCloser(s, CloserOf(s[0]), 1)
      case Some(j) => RemoveAnnotations(s[j + 1..])
      case None => [s[0]] + RemoveAnnotations(s[1..])
    else [s[0]] + RemoveAnnotations(s[1..])
  }

  /** A text without openers passes the annotation removal unchanged. */
  lemma {:induction false} RemoveAnnotationsWithoutOpeners(s: string)
    requires NoOpeners(s)
    ensures RemoveAnnotations(s) == s
  {
    if s != [] {
      assert NoOpeners(s[1..]);
      RemoveAnnotationsWithoutOpeners(s[1..]);
    }
  }

  /** An annotation `[...]` or `(...)` on one line is removed with its contents, and the
      scan goes on right after its closer. */
  lemma AnnotationRemoved(open: char, inner: string, rest: string)
    requires open == '[' || open == '('
    requires forall k :: 0 <= k < |inner| ==> inner[k] != CloserOf(open) && inner[k] != '\n'
    ensures RemoveAnnotations([open] + inner + [CloserOf(open)] + rest) == RemoveAnnotations(rest)
  {
    var s := [open] + inner + [CloserOf(open)] + rest;
    var j := FindCloser(s, CloserOf(open), 1);
    assert s[|inner| + 1] == CloserOf(open);
    assert forall k :: 1 <= k <= |inner| ==> s[k] == inner[k - 1];
    assert j.Some? && j.value == |inner| + 1;
    assert s[|inner| + 2..] == rest;
  }

  /** Text without openers in front of the rest is kept as it is, and the rest is
      processed on its own. */
  lemma {:induction false} KeptPrefix(p: string, s: string)
    requires NoOpeners(p)
    ensures RemoveAnnotations(p + s) == p + RemoveAnnotations(s)
    decreases |p|
  {
    if p == [] {
      assert p + s == s;
    } else {
      assert (p + s)[0] == p[0] && (p + s)[1..] == p[1..] + s;
      assert NoOpeners(p[1..]);
      KeptPrefix(p[1..], s);
    }
  }

  /** An annotation anywhere in a line goes, with its contents, and the text around it
      stays: the text before it, and the processed text after it. */
  lemma AnnotationRemovedInside(p: string, open: char, inner: string, rest: string)
    requires NoOpeners(p)
    requires open == '[' || open == '('
    requires forall k :: 0 <= k < |inner| ==> inner[k] != CloserOf(open) && inner[k] != '\n'
    ensures RemoveAnnotations(p + [open] + inner + [CloserOf(open)] + rest) == p + RemoveAnnotations(rest)
  {
    var a := [open] + inner + [CloserOf(open)] + rest;
    assert p + [open] + inner + [CloserOf(open)] + rest == p + a;
    KeptPrefix(p, a);
    AnnotationRemoved(open, inner, rest);
  }

  /** An opener with no closer later on its line is kept, and the scan goes on with the
      next character. */
  lemma UnmatchedOpenerKept(open: char, rest: string)
    requires open == '[' || open == '('
    requires FindCloser([open] + rest, CloserOf(open), 1).None?
    ensures RemoveAnnotations([open] + rest) == [open] + RemoveAnnotations(rest)
  {
    assert ([open] + rest)[1..] == rest;
  }

  /** `re.sub(r'[^0-9a-zA-Z가-힣\s\-\.,?!]', '', s)`: keeps exactly the whitelisted
      characters, in order. */
  function KeepWhitelisted(s: string): (r: string)
    ensures AllWhitelisted(r)
    ensures |r| <= |s|
    ensures forall i :: 0 <= i < |r| ==> r[i] in s
    ensures forall i :: 0 <= i < |s| && Whitelisted(s[i]) ==> s[i] in r
    ensures AllWhitelisted(s) ==> r == s
  {
    if s == [] then []
    else if Whitelisted(s[0]) then [s[0]] + KeepWhitelisted(s[1..])
    else KeepWhitelisted(s[1..])
  }

  /** One character is kept exactly when it is whitelisted. */
  lemma KeepWhitelistedChar(c: char)
    ensures KeepWhitelisted([c]) == if Whitelisted(c) then [c] else []
  {
    assert [c][1..] == [];
  }

  /** The filter works character by character and keeps the order: filtering two texts
      joined is filtering each and joining the results. */
  lemma {:induction false} KeepWhitelistedAppend(a: string, b: string)
    ensures KeepWhitelisted(a + b) == KeepWhitelisted(a) + KeepWhitelisted(b)
    decreases |a|
  {
    if a != [] {
      assert (a + b)[0] == a[0] && (a + b)[1..] == a[1..] + b;
      KeepWhitelistedAppend(a[1..], b);
    } else {
      assert a + b == b;
    }
  }

  /** What a text line contributes to a cue (All-in-One.py:42-46): the two substitutions
      and then `strip()`; an empty result means the line contributes nothing. */
  function CleanTextLine(line: string): (r: string)
    ensures AllWhitelisted(r) && IsStripped(r)
    ensures NoOpeners(r)
  {
    var k := KeepWhitelisted(RemoveAnnotations(line));
    StripChars(k);
    var r := Strip(k);
    assert forall i :: 0 <= i < |r| ==> Whitelisted(r[i]);
    r
  }

  /** A cleaned line is its own cleaning: the processing of a text line is idempotent. */
  lemma CleanTextLineIdempotent(line: string)
    ensures CleanTextLine(CleanTextLine(line)) == CleanTextLine(line)
  {
    var r := CleanTextLine(line);
    RemoveAnnotationsWithoutOpeners(r);
  }
}

/**
  `correct_korean_typos` (All-in-One.py:54-61): every rule of a fixed typo
  dictionary is applied in turn with Python's `str.replace`, which scans the
  text left to right and replaces each non-overlapping occurrence of the typo.
 */
module Typos {

  import opened Strings

  /** Python's `s.replace(pat, rep)` for a non-empty `pat`. */
  function ReplaceAll(s: string, pat: string, rep: string): string
    requires pat != []
    decreases |s|
  {
    if s == [] then []
    else if OccursAt(s, pat, 0) then rep + ReplaceAll(s[|pat|..], pat, rep)
    else [s[0]] + ReplaceAll(s[1..], pat, rep)
  }

  /** A text without the pattern comes back unchanged. */
  lemma {:induction false} ReplaceAbsent(s: string, pat: string, rep: string)
    requires pat != [] && !Contains(s, pat)
    ensures ReplaceAll(s, pat, rep) == s
    decreases |s|
  {
    if s != [] {
      assert !OccursAt(s, pat, 0);
      assert !Contains(s[1..], pat) by {
        forall i | 0 <= i <= |s[1..]| ensures !OccursAt(s[1..], pat, i) {
          OccursInSuffix(s, pat, 1, i);
        }
      }
      ReplaceAbsent(s[1..], pat, rep);
    }
  }

  /** Replacing by a text of the same length preserves the length. */
  lemma {:induction false} ReplaceKeepsLength(s: string, pat: string, rep: string)
    requires pat != [] && |rep| == |pat|
    ensures |ReplaceAll(s, pat, rep)| == |s|
    decreases |s|
  {
    if s != [] {
      if OccursAt(s, pat, 0) {
        ReplaceKeepsLength(s[|pat|..], pat, rep);
      } else {
        ReplaceKeepsLength(s[1..], pat, rep);
      }
    }
  }

  /** A rule whose replacement can never recreate its pattern: both have the same length,
      they differ, and the pattern's first character occurs nowhere else in the pattern
      and, in the replacement, only at its start. */
  predicate SafeRule(pat: string, rep: string) {
    && pat != [] && |rep| == |pat| && rep != pat
    && rep[0] == pat[0]
    && (forall k :: 1 <= k < |pat| ==> pat[k] != pat[0])
    && (forall k :: 1 <= k < |rep| ==> rep[k] != pat[0])
  }

  /** The text replaced in front of an output prefix free of the pattern's first character
      was copied: such a prefix of the output is a prefix of the input. */
  lemma {:induction false} CopiedPrefix(s: string, pat: string, rep: string, w: string)
    requires SafeRule(pat, rep)
    requires forall k :: 0 <= k < |w| ==> w[k] != pat[0]
    requires |w| <= |ReplaceAll(s, pat, rep)| && ReplaceAll(s, pat, rep)[..|w|] == w
    ensures |w| <= |s| && s[..|w|] == w
    decreases |w|
  {
    if w != [] {
      var r := ReplaceAll(s, pat, rep);
      assert s != [];
      assert r[0] == w[0] != pat[0];
      var r' := ReplaceAll(s[1..], pat, rep);
      assert r == [s[0]] + r';
      assert r'[..|w| - 1] == w[1..];
      CopiedPrefix(s[1..], pat, rep, w[1..]);
      assert s[..|w|] == [s[0]] + s[1..][..|w| - 1];
    }
  }

  /** A kept first character followed by the replaced rest does not begin the pattern,
      since then the input would have begun with it. */
  lemma CopiedPattern(s: string, pat: string, rep: string)
    requires SafeRule(pat, rep) && s != []
    requires OccursAt([s[0]] + ReplaceAll(s[1..], pat, rep), pat, 0)
    ensures OccursAt(s, pat, 0)
  {
    var r' := ReplaceAll(s[1..], pat, rep);
    var w := pat[1..];
    assert ([s[0]] + r')[..|pat|] == pat;
    assert r'[..|w|] == w;
    CopiedPrefix(s[1..], pat, rep, w);
    assert s[..|pat|] == [s[0]] + s[1..][..|w|];
  }

  /** Occurrences of a pattern whose first character occurs nowhere else in it cannot
      overlap. */
  lemma NoOverlap(s: string, pat: string, j: int)
    requires pat != [] && forall k :: 1 <= k < |pat| ==> pat[k] != pat[0]
    requires OccursAt(s, pat, 0) && 0 < j < |pat|
    ensures !OccursAt(s, pat, j)
  {
    if j + |pat| <= |s| {
      assert s[j..j + |pat|][0] == s[j] == s[..|pat|][j];
    }
  }

  /** After a safe replacement the pattern no longer occurs. */
  lemma {:induction false} ReplaceRemovesPattern(s: string, pat: string, rep: string)
    requires SafeRule(pat, rep)
    ensures !Contains(ReplaceAll(s, pat, rep), pat)
    decreases |s|
  {
    var r := ReplaceAll(s, pat, rep);
    if s != [] {
      if OccursAt(s, pat, 0) {
        var r' := ReplaceAll(s[|pat|..], pat, rep);
        ReplaceRemovesPattern(s[|pat|..], pat, rep);
        assert r == rep + r';
        forall i | 0 <= i <= |r| ensures !OccursAt(r, pat, i) {
          if i == 0 {
            assert r[..|pat|] == rep;
          } else if i < |rep| {
            if i + |pat| <= |r| {
              assert r[i..i + |pat|][0] == rep[i];
            }
          } else {
            if i + |pat| <= |r| {
              assert r[i..i + |pat|] == r'[i - |rep|..i - |rep| + |pat|];
            }
            assert !OccursAt(r', pat, i - |rep|);
          }
        }
      } else {
        var r' := ReplaceAll(s[1..], pat, rep);
        ReplaceRemovesPattern(s[1..], pat, rep);
        assert r == [s[0]] + r';
        forall i | 0 <= i <= |r| ensures !OccursAt(r, pat, i) {
          if i == 0 {
            if OccursAt(r, pat, 0) {
              CopiedPattern(s, pat, rep);
              assert false;
            }
          } else {
            if i + |pat| <= |r| {
              assert r[i..i + |pat|] == r'[i - 1..i - 1 + |pat|];
            }
            assert !OccursAt(r', pat, i - 1);
          }
        }
      }
    }
  }

  /** An occurrence stays an occurrence, shifted, behind a prefix. */
  lemma ShiftOccurrence(pre: string, x: string, p: string, j: int)
    requires OccursAt(x, p, j)
    ensures OccursAt(pre + x, p, j + |pre|)
  {
    assert (pre + x)[j + |pre|..j + |pre| + |p|] == x[j..j + |p|];
  }

  /** Under a safe rule every occurrence of the pattern in the input sits, replaced, at the
      same index of the output. */
  lemma {:induction false} EveryOccurrenceReplaced(s: string, pat: string, rep: string, j: nat)
    requires SafeRule(pat, rep) && OccursAt(s, pat, j)
    ensures OccursAt(ReplaceAll(s, pat, rep), rep, j)
    decreases |s|
  {
    if OccursAt(s, pat, 0) {
      var r' := ReplaceAll(s[|pat|..], pat, rep);
      assert ReplaceAll(s, pat, rep) == rep + r';
      if j == 0 {
        ReplaceKeepsLength(s[|pat|..], pat, rep);
        assert (rep + r')[..|rep|] == rep;
      } else if j < |pat| {
        NoOverlap(s, pat, j);
        assert false;
      } else {
        OccursInSuffix(s, pat, |pat|, j - |pat|);
        EveryOccurrenceReplaced(s[|pat|..], pat, rep, j - |pat|);
        ShiftOccurrence(rep, r', rep, j - |pat|);
      }
    } else {
      var r' := ReplaceAll(s[1..], pat, rep);
      assert ReplaceAll(s, pat, rep) == [s[0]] + r';
      OccursInSuffix(s, pat, 1, j - 1);
      EveryOccurrenceReplaced(s[1..], pat, rep, j - 1);
      ShiftOccurrence([s[0]], r', rep, j - 1);
    }
  }

  /** Under a safe rule a character covered by no occurrence of the pattern is unchanged. */
  lemma {:induction false} UncoveredUnchanged(s: string, pat: string, rep: string, k: nat)
    requires SafeRule(pat, rep) && k < |s|
    requires forall j :: k - |pat| < j <= k ==> !OccursAt(s, pat, j)
    ensures |ReplaceAll(s, pat, rep)| == |s| && ReplaceAll(s, pat, rep)[k] == s[k]
    decreases |s|
  {
    ReplaceKeepsLength(s, pat, rep);
    var r := ReplaceAll(s, pat, rep);
    if OccursAt(s, pat, 0) {
      var r' := ReplaceAll(s[|pat|..], pat, rep);
      assert r == rep + r';
      assert k >= |pat|;
      forall j | k - |pat| - |pat| < j <= k - |pat| ensures !OccursAt(s[|pat|..], pat, j) {
        OccursInSuffix(s, pat, |pat|, j);
      }
      UncoveredUnchanged(s[|pat|..], pat, rep, k - |pat|);
    } else if k > 0 {
      var r' := ReplaceAll(s[1..], pat, rep);
      assert r == [s[0]] + r';
      forall j | k - 1 - |pat| < j <= k - 1 ensures !OccursAt(s[1..], pat, j) {
        OccursInSuffix(s, pat, 1, j);
      }
      UncoveredUnchanged(s[1..], pat, rep, k - 1);
    }
  }

  /** The typo and its correction (All-in-One.py:58). */
  const Typo := "필요고 없지"
  const Correction := "필요도 없지"

  /** `typo_dict`, in its iteration order. */
  const TypoRules: seq<(string, string)> := [(Typo, Correction)]

  lemma TypoRuleIsSafe()
    ensures SafeRule(Typo, Correction)
  {
  }

  /** Every rule's pattern is non-empty. */
  predicate ValidRules(rules: seq<(string, string)>) {
    forall k :: 0 <= k < |rules| ==> rules[k].0 != []
  }

  /** The rules applied one after another, by `str.replace`. */
  function ApplyRules(text: string, rules: seq<(string, string)>): string
    requires ValidRules(rules)
    decreases |rules|
  {
    if rules == [] then text
    else
      var last := rules[|rules| - 1];
      ReplaceAll(ApplyRules(text, rules[..|rules| - 1]), last.0, last.1)
  }

  /** The corrected text. */
  function Corrected(text: string): string {
    ApplyRules(text, TypoRules)
  }

  /** With its one rule, the correction is one replace-all. */
  lemma CorrectedIsReplace(text: string)
    ensures Corrected(text) == ReplaceAll(text, Typo, Correction)
  {
    assert |TypoRules| == 1 && TypoRules[0] == (Typo, Correction);
    assert TypoRules[..0] == [];
    assert ApplyRules(text, TypoRules[..0]) == text;
  }

  /** `correct_korean_typos`: the loop over `typo_dict.items()` (All-in-One.py:59-60). */
  method CorrectKoreanTypos(text: string) returns (r: string)
    ensures r == Corrected(text)
  {
    var rules := TypoRules;
    r := text;
    for i := 0 to |rules|
      invariant r == ApplyRules(text, rules[..i])
    {
      var (typo, correction) := rules[i];
      assert rules[..i + 1][..i] == rules[..i];
      r := ReplaceAll(r, typo, correction);
    }
    assert rules[..|rules|] == rules;
  }

  /** Corrected text no longer holds the typo. */
  lemma CorrectedHasNoTypo(text: string)
    ensures !Contains(Corrected(text), Typo)
  {
    CorrectedIsReplace(text);
    TypoRuleIsSafe();
    ReplaceRemovesPattern(text, Typo, Correction);
  }

  /** Text without the typo is returned unchanged. */
  lemma NoTypoUnchanged(text: string)
    requires !Contains(text, Typo)
    ensures Corrected(text) == text
  {
    CorrectedIsReplace(text);
    ReplaceAbsent(text, Typo, Correction);
  }

  /** Correction preserves the length of the text. */
  lemma CorrectedKeepsLength(text: string)
    ensures |Corrected(text)| == |text|
  {
    CorrectedIsReplace(text);
    ReplaceKeepsLength(text, Typo, Correction);
  }

  /** Every occurrence of the typo has become the correction, at the same index. */
  lemma EveryTypoCorrected(text: string, j: nat)
    requires OccursAt(text, Typo, j)
    ensures OccursAt(Corrected(text), Correction, j)
  {
    CorrectedIsReplace(text);
    TypoRuleIsSafe();
    EveryOccurrenceReplaced(text, Typo, Correction, j);
  }

  /** A character that lies in no occurrence of the typo is unchanged. */
  lemma OtherTextUnchanged(text: string, k: nat)
    requires k < |text|
    requires forall j :: k - |Typo| < j <= k ==> !OccursAt(text, Typo, j)
    ensures |Corrected(text)| == |text| && Corrected(text)[k] == text[k]
  {
    CorrectedIsReplace(text);
    TypoRuleIsSafe();
    UncoveredUnchanged(text, Typo, Correction, k);
  }

  /** Correcting twice is correcting once. */
  lemma CorrectionIdempotent(text: string)
    ensures Corrected(Corrected(text)) == Corrected(text)
  {
    CorrectedHasNoTypo(text);
    NoTypoUnchanged(Corrected(text));
  }
}

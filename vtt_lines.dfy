/**
  How `clean_and_parse_vtt` (All-in-One.py:25-46) classifies one line of a
  subtitle file. The tests are made on the stripped line, except the keyword
  test, which the source makes on the raw line:

  - a line containing `-->` is a timing line; it opens a cue when it splits on
    " --> " into exactly two parts, whose stripped forms are the cue's start
    and end;
  - otherwise a blank line, an all-digit line (a cue number) or a line holding
    one of the non-dialogue keywords is skipped;
  - anything else is a text line, which contributes its cleaned form.
 */
module VttLines {

  import opened Wrappers
  import opened Strings
  import opened Sanitiser

  /** `non_dialogue_keywords` (All-in-One.py:16-19). */
  const NonDialogueKeywords: seq<string> :=
    ["배급:", "제공:", "감독:", "제작:", "Presented by", "Director:", "Production:", "WEBVTT"]

  /** The mark that makes a line a timing line. */
  const TimingMark := "-->"

  /** The separator a timing line is split on. */
  const Separator := " --> "

  predicate HasKeyword(line: string) {
    exists k :: 0 <= k < |NonDialogueKeywords| && Contains(line, NonDialogueKeywords[k])
  }

  /** The skip test of All-in-One.py:39, given the raw line and its stripped form. */
  predicate IsNonDialogue(line: string, stripped: string) {
    stripped == [] || IsDigitString(stripped) || HasKeyword(line)
  }

  /** `start, end = s.split(" --> ")`: succeeds exactly when the split yields two parts,
      that is, when the first occurrence of the separator is followed by no other. */
  function SplitArrow(s: string): Option<(string, string)> {
    match Find(s, Separator)
    case None => None
    case Some(k) =>
      var rest := s[k + |Separator|..];
      if Contains(rest, Separator) then None else Some((s[..k], rest))
  }

  /** A successful split gives the text before the first separator and the text after
      it, which holds no further separator; a line without a separator does not split. */
  lemma SplitArrowParts(s: string)
    ensures SplitArrow(s).Some? ==>
      var (a, b) := SplitArrow(s).value;
      && s == a + Separator + b
      && (forall j :: 0 <= j < |a| ==> !OccursAt(s, Separator, j))
      && !Contains(b, Separator)
    ensures !Contains(s, Separator) ==> SplitArrow(s).None?
  {
    match Find(s, Separator)
    case None =>
    case Some(k) =>
      assert s == s[..k] + Separator + s[k + |Separator|..];
  }

  /** The converse of `SplitArrowParts`: a part in which no separator starts, the
      separator, and a part without it, split into exactly those two parts. */
  lemma SplitArrowOfJoin(a: string, b: string)
    requires forall j :: 0 <= j < |a| ==> !OccursAt(a + Separator + b, Separator, j)
    requires !Contains(b, Separator)
    ensures SplitArrow(a + Separator + b) == Some((a, b))
  {
    var s := a + Separator + b;
    assert OccursAt(s, Separator, |a|);
    var k := Find(s, Separator);
    assert k == Some(|a|);
    assert s[..|a|] == a;
    assert s[|a| + |Separator|..] == b;
  }

  /** The kind of a line, with what the parser does with it: a timing line carries its
      stripped start and end when it splits, a text line its cleaned form. */
  datatype LineKind =
    | Timing(split: Option<(string, string)>)
    | NonDialogue
    | TextLine(cleaned: string)

  /** The `if`/`elif` chain of All-in-One.py:28-46. */
  function Classify(line: string): LineKind {
    var stripped := Strip(line);
    if Contains(stripped, TimingMark) then
      match SplitArrow(stripped)
      case Some((start, end)) => Timing(Some((Strip(start), Strip(end))))
      case None => Timing(None)
    else if IsNonDialogue(line, stripped) then NonDialogue
    else TextLine(CleanTextLine(line))
  }

  /** A line whose stripped form holds the timing mark and splits is a timing line that
      carries the stripped parts. */
  lemma ClassifyTiming(line: string, a: string, b: string)
    requires Contains(Strip(line), TimingMark) && SplitArrow(Strip(line)) == Some((a, b))
    ensures Classify(line) == Timing(Some((Strip(a), Strip(b))))
  {
  }

  /** A line whose stripped form holds the timing mark but does not split in two is still a
      timing line: it flushes the open cue and opens none (All-in-One.py:28-31, 37-38). */
  lemma ClassifyMalformed(line: string)
    requires Contains(Strip(line), TimingMark) && SplitArrow(Strip(line)).None?
    ensures Classify(line) == Timing(None)
  {
  }

  /** A line that opens a new cue. */
  predicate IsWellFormedTiming(line: string) {
    Classify(line).Timing? && Classify(line).split.Some?
  }

  /** A line opens a cue exactly when its stripped form splits into two parts, and the
      cue's start and end are those parts, stripped (All-in-One.py:33-35). */
  lemma WellFormedTimingIff(line: string)
    ensures IsWellFormedTiming(line) <==> SplitArrow(Strip(line)).Some?
    ensures IsWellFormedTiming(line) ==>
      var (start, end) := SplitArrow(Strip(line)).value;
      Classify(line).split.value == (Strip(start), Strip(end))
  {
    var s := Strip(line);
    if !Contains(s, TimingMark) {
      NotTiming(line);
      if SplitArrow(s).Some? {
        SplitHasMark(s);
      }
    }
  }

  /** A text that splits holds the timing mark. */
  lemma SplitHasMark(s: string)
    requires SplitArrow(s).Some?
    ensures Contains(s, TimingMark)
  {
    SplitArrowParts(s);
    var (a, b) := SplitArrow(s).value;
    assert s[|a| + 1..|a| + 4] == TimingMark;
    assert OccursAt(s, TimingMark, |a| + 1);
  }

  /** A line whose stripped form lacks the timing mark is not a timing line. */
  lemma NotTiming(line: string)
    requires !Contains(Strip(line), TimingMark)
    ensures !Classify(line).Timing?
  {
  }

  /** A kind the classification can produce: a text line's cleaned form is empty, or
      non-empty, stripped and whitelisted. */
  predicate IsBufferedLine(t: string) {
    t != [] && IsStripped(t) && AllWhitelisted(t)
  }

  ghost predicate ValidKind(k: LineKind) {
    k.TextLine? ==> k.cleaned == [] || IsBufferedLine(k.cleaned)
  }

  /** Every classification is a kind the parser expects. */
  lemma ClassifyValid(line: string)
    ensures ValidKind(Classify(line))
  {
  }

  /** The classified lines, in order. */
  function Kinds(lines: seq<string>): (r: seq<LineKind>)
    ensures |r| == |lines|
    decreases |lines|
  {
    if lines == [] then [] else Kinds(lines[..|lines| - 1]) + [Classify(lines[|lines| - 1])]
  }

  /** The i-th classified line is the classification of the i-th line. */
  lemma {:induction false} KindsAt(lines: seq<string>, i: nat)
    requires i < |lines|
    ensures Kinds(lines)[i] == Classify(lines[i])
    decreases |lines|
  {
    if i < |lines| - 1 {
      KindsAt(lines[..|lines| - 1], i);
    }
  }

  lemma KindsValid(lines: seq<string>)
    ensures forall i :: 0 <= i < |lines| ==> ValidKind(Kinds(lines)[i])
  {
    forall i | 0 <= i < |lines| ensures ValidKind(Kinds(lines)[i]) {
      KindsAt(lines, i);
      ClassifyValid(lines[i]);
    }
  }

  /** Classifying line by line: one more line adds its classification at the end. */
  lemma KindsSnoc(lines: seq<string>, n: nat)
    requires n < |lines|
    ensures Kinds(lines[..n + 1]) == Kinds(lines[..n]) + [Classify(lines[n])]
  {
    assert lines[..n + 1][..n] == lines[..n];
  }

  lemma {:induction false} KindsAppend(a: seq<string>, b: seq<string>)
    ensures Kinds(a + b) == Kinds(a) + Kinds(b)
    decreases |b|
  {
    if b == [] {
      assert a + b == a;
    } else {
      assert (a + b)[..|a + b| - 1] == a + b[..|b| - 1];
      KindsAppend(a, b[..|b| - 1]);
    }
  }
}

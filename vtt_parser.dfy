/**
  The cue parser `clean_and_parse_vtt` (All-in-One.py:4-52), run over the lines
  that `readlines()` returned.

  The source keeps its cues as dictionaries and mutates the current one in
  place. A timing line that does not split into exactly two parts on " --> "
  first appends the open cue (when it has buffered text) and then leaves both
  the cue and the buffer as they are, so the same dictionary can be appended
  again later, and every list slot holding it shows its final text. The model
  therefore has two layers:

  - a value-level state machine (`StepKind`, `Run`, `Parse`) over classified
    lines, whose `table` holds one entry per cue object ever created and whose
    `entries` lists, for each slot of the returned list, the index of the
    object stored there; and
  - the method `CleanAndParseVtt`, which does what the source does with heap
    objects of class `Cue` and is proved to produce exactly that table and
    that sharing.
 */
module VttParser {

  import opened Wrappers
  import opened Strings
  import opened Sanitiser
  import opened VttLines

  /** The value of one cue: the `{'start', 'end', 'text'}` dictionary. */
  datatype CueData = CueData(start: string, end: string, text: string)

  /** A cue dictionary as a heap object: its `text` is assigned after creation. */
  class Cue {
    var start: string
    var end: string
    var text: string

    constructor (start: string, end: string)
      ensures this.start == start && this.end == end && this.text == ""
    {
      this.start := start;
      this.end := end;
      this.text := "";
    }
  }

  /** The current value of a cue object. */
  function Data(c: Cue): CueData
    reads c
  {
    CueData(c.start, c.end, c.text)
  }

  /** The values of a list of cue objects, read now. */
  function Snapshot(cues: seq<Cue>): (r: seq<CueData>)
    reads cues
    ensures |r| == |cues|
    ensures forall i :: 0 <= i < |cues| ==> r[i] == Data(cues[i])
  {
    if cues == [] then [] else Snapshot(cues[..|cues| - 1]) + [Data(cues[|cues| - 1])]
  }

  /** Text fit to be a cue's text: non-empty and whitelisted. */
  predicate IsCueText(t: string) {
    t != [] && AllWhitelisted(t)
  }

  /** The parser state between two lines.
      `table[k]` is the k-th cue object created (the last one is `current_cue`),
      `entries[i]` is the index in `table` of the object in slot i of `cues`,
      `buffer` is `text_buffer`. */
  datatype State = State(table: seq<CueData>, entries: seq<nat>, buffer: seq<string>)

  const Init := State([], [], [])

  /** The state invariant: slots point at existing objects, in creation order, and every
      appended object has cue text; the buffer holds cleaned, non-empty lines. */
  ghost predicate Inv(st: State) {
    && (forall i :: 0 <= i < |st.entries| ==> st.entries[i] < |st.table|)
    && (forall i, j :: 0 <= i < j < |st.entries| ==> st.entries[i] <= st.entries[j])
    && (forall i :: 0 <= i < |st.entries| ==> IsCueText(st.table[st.entries[i]].text))
    && (forall k :: 0 <= k < |st.buffer| ==> IsBufferedLine(st.buffer[k]))
  }

  /** The joined text of a buffer of cleaned lines is cue text, and the final `strip()`
      (All-in-One.py:30, 49) leaves it unchanged. */
  lemma JoinedBufferIsCueText(buffer: seq<string>)
    requires |buffer| > 0
    requires forall k :: 0 <= k < |buffer| ==> IsBufferedLine(buffer[k])
    ensures Strip(Join(buffer, "\n")) == Join(buffer, "\n")
    ensures IsCueText(Join(buffer, "\n"))
  {
    var t := Join(buffer, "\n");
    JoinOfStripped(buffer, "\n");
    forall i | 0 <= i < |t| ensures Whitelisted(t[i]) {
      JoinChars(buffer, "\n", t[i]);
      if t[i] !in "\n" {
        var k :| 0 <= k < |buffer| && t[i] in buffer[k];
        var m :| 0 <= m < |buffer[k]| && buffer[k][m] == t[i];
      }
    }
  }

  /** All-in-One.py:29-31 and 48-50: when a cue is open and text is buffered, the cue's
      text becomes the joined buffer and the cue object is appended to the list. */
  function Flush(st: State): State {
    if |st.table| > 0 && |st.buffer| > 0 then
      var last := |st.table| - 1;
      var text := Strip(Join(st.buffer, "\n"));
      st.(table := st.table[last := st.table[last].(text := text)], entries := st.entries + [last])
    else st
  }

  /** One iteration of the loop at All-in-One.py:25-46, on a classified line. */
  function StepKind(st: State, kind: LineKind): State {
    match kind
    case Timing(split) =>
      var flushed := Flush(st);
      (match split
       case Some((start, end)) => flushed.(table := flushed.table + [CueData(start, end, "")], buffer := [])
       case None => flushed)
    case NonDialogue => st
    case TextLine(cleaned) =>
      if |st.table| > 0 && cleaned != [] then st.(buffer := st.buffer + [cleaned]) else st
  }

  /** The loop over the classified lines `kinds`, from state `st`. */
  function Run(st: State, kinds: seq<LineKind>): State
    decreases |kinds|
  {
    if kinds == [] then st else StepKind(Run(st, kinds[..|kinds| - 1]), kinds[|kinds| - 1])
  }

  /** The whole parse: the loop, then the final flush. */
  function Parse(lines: seq<string>): State {
    Flush(Run(Init, Kinds(lines)))
  }

  /** The values of the returned list: slot i shows the final value of its object. */
  function Emitted(st: State): (r: seq<CueData>)
    requires forall i :: 0 <= i < |st.entries| ==> st.entries[i] < |st.table|
    ensures |r| == |st.entries|
    ensures forall i :: 0 <= i < |r| ==> r[i] == st.table[st.entries[i]]
  {
    seq(|st.entries|, i requires 0 <= i < |st.entries| => st.table[st.entries[i]])
  }

  /** The flush changes only texts, and appends only the open object. */
  lemma FlushTable(st: State)
    ensures |Flush(st).table| == |st.table| && Flush(st).buffer == st.buffer
    ensures forall k :: 0 <= k < |st.table| ==>
      Flush(st).table[k].start == st.table[k].start && Flush(st).table[k].end == st.table[k].end
    ensures Flush(st).entries == st.entries || Flush(st).entries == st.entries + [|st.table| - 1]
    ensures forall k :: 0 <= k < |st.table| - 1 ==> Flush(st).table[k] == st.table[k]
    ensures Flush(st).entries == st.entries ==> Flush(st) == st
  {
  }

  lemma FlushKeepsInv(st: State)
    requires Inv(st)
    ensures Inv(Flush(st))
  {
    if |st.table| > 0 && |st.buffer| > 0 {
      JoinedBufferIsCueText(st.buffer);
    }
  }

  lemma StepKeepsInv(st: State, kind: LineKind)
    requires Inv(st) && ValidKind(kind)
    ensures Inv(StepKind(st, kind))
  {
    if kind.Timing? {
      FlushKeepsInv(st);
    }
  }

  lemma {:induction false} RunKeepsInv(st: State, kinds: seq<LineKind>)
    requires Inv(st)
    requires forall k :: 0 <= k < |kinds| ==> ValidKind(kinds[k])
    ensures Inv(Run(st, kinds))
    decreases |kinds|
  {
    if kinds != [] {
      RunKeepsInv(st, kinds[..|kinds| - 1]);
      StepKeepsInv(Run(st, kinds[..|kinds| - 1]), kinds[|kinds| - 1]);
    }
  }

  lemma ParseInv(lines: seq<string>)
    ensures Inv(Run(Init, Kinds(lines)))
    ensures Inv(Parse(lines))
  {
    KindsValid(lines);
    RunKeepsInv(Init, Kinds(lines));
    FlushKeepsInv(Run(Init, Kinds(lines)));
  }

  /** The cue list that `clean_and_parse_vtt` returns, as values: slot i shows its object's
      final value, and every cue has non-empty text made of whitelisted characters only, so
      no bracket or parenthesis survives. */
  function ParseValues(lines: seq<string>): (r: seq<CueData>)
    ensures |r| == |Parse(lines).entries|
    ensures forall i :: 0 <= i < |r| ==>
      Parse(lines).entries[i] < |Parse(lines).table| && r[i] == Parse(lines).table[Parse(lines).entries[i]]
    ensures forall i :: 0 <= i < |r| ==> r[i].text != [] && AllWhitelisted(r[i].text)
    ensures forall i :: 0 <= i < |r| ==> '[' !in r[i].text && '(' !in r[i].text
  {
    ParseInv(lines);
    Emitted(Parse(lines))
  }

  /** `clean_and_parse_vtt` as a whole: `None` when the file could not be read. */
  function ParseFile(file: Option<seq<string>>): (r: Option<seq<CueData>>)
    ensures r.None? <==> file.None?
    ensures r.Some? ==> r.value == ParseValues(file.value)
  {
    match file
    case None => None
    case Some(lines) => Some(ParseValues(lines))
  }

  // ---------------------------------------------------------------------------
  // Lines that contribute nothing

  lemma {:induction false} RunAppend(st: State, a: seq<LineKind>, b: seq<LineKind>)
    ensures Run(st, a + b) == Run(Run(st, a), b)
    decreases |b|
  {
    if b == [] {
      assert a + b == a;
    } else {
      assert (a + b)[..|a + b| - 1] == a + b[..|b| - 1];
      RunAppend(st, a, b[..|b| - 1]);
    }
  }

  /** A skipped line (blank, all digits, or holding a non-dialogue keyword, and no timing
      mark) contributes nothing: removing it from the input changes nothing. */
  lemma SkippedLineIgnored(a: seq<string>, line: string, b: seq<string>)
    requires !Contains(Strip(line), TimingMark)
    requires IsNonDialogue(line, Strip(line))
    ensures Parse(a + [line] + b) == Parse(a + b)
  {
    assert Classify(line) == NonDialogue;
    KindsAppend(a + [line], b);
    KindsAppend(a, [line]);
    KindsAppend(a, b);
    var ka, kb := Kinds(a), Kinds(b);
    assert Kinds([line]) == [NonDialogue];
    RunAppend(Init, ka + [NonDialogue], kb);
    assert Run(Init, ka + [NonDialogue]) == Run(Init, ka) by {
      assert (ka + [NonDialogue])[..|ka|] == ka;
    }
    RunAppend(Init, ka, kb);
  }

  /** Before the first well-formed timing line there is no open cue, so no line before it
      contributes anything. */
  lemma PreambleIgnored(a: seq<string>, b: seq<string>)
    requires forall k :: 0 <= k < |a| ==> !IsWellFormedTiming(a[k])
    ensures Parse(a + b) == Parse(b)
  {
    KindsAppend(a, b);
    RunAppend(Init, Kinds(a), Kinds(b));
    forall k | 0 <= k < |a| ensures !(Kinds(a)[k].Timing? && Kinds(a)[k].split.Some?) {
      KindsAt(a, k);
    }
    PreambleLeavesInit(Kinds(a));
  }

  lemma {:induction false} PreambleLeavesInit(kinds: seq<LineKind>)
    requires forall k :: 0 <= k < |kinds| ==> !(kinds[k].Timing? && kinds[k].split.Some?)
    ensures Run(Init, kinds) == Init
    decreases |kinds|
  {
    if kinds != [] {
      PreambleLeavesInit(kinds[..|kinds| - 1]);
    }
  }

  /** A line that neither opens a cue nor contributes text: it is skipped, or it is a text
      line that cleans down to nothing. */
  predicate IsSilent(line: string) {
    Classify(line) == NonDialogue || Classify(line) == TextLine("")
  }

  /** A timing line followed by no surviving text line up to the end produces no cue:
      the output is that of the lines before it. */
  lemma SilentCueDropped(a: seq<string>, timing: string, b: seq<string>)
    requires IsWellFormedTiming(timing)
    requires forall k :: 0 <= k < |b| ==> IsSilent(b[k])
    ensures ParseValues(a + [timing] + b) == ParseValues(a)
  {
    KindsAppend(a + [timing], b);
    KindsAppend(a, [timing]);
    var ka, kt, kb := Kinds(a), Classify(timing), Kinds(b);
    assert Kinds([timing]) == [kt];
    var st := Run(Init, ka);
    FlushTable(st);
    var openSt := StepKind(st, kt);
    assert Run(Init, ka + [kt]) == openSt by {
      assert (ka + [kt])[..|ka|] == ka;
    }
    forall k | 0 <= k < |b| ensures kb[k] == NonDialogue || kb[k] == TextLine("") {
      KindsAt(b, k);
    }
    SilentLinesLeaveState(openSt, kb);
    RunAppend(Init, ka + [kt], kb);
    assert Parse(a + [timing] + b) == openSt;
    ParseInv(a);
    assert openSt.entries == Parse(a).entries;
    assert openSt.table[..|Parse(a).table|] == Parse(a).table;
  }

  lemma {:induction false} SilentLinesLeaveState(st: State, kinds: seq<LineKind>)
    requires |st.table| > 0 && st.buffer == []
    requires forall k :: 0 <= k < |kinds| ==> kinds[k] == NonDialogue || kinds[k] == TextLine("")
    ensures Run(st, kinds) == st
    decreases |kinds|
  {
    if kinds != [] {
      SilentLinesLeaveState(st, kinds[..|kinds| - 1]);
    }
  }

  // ---------------------------------------------------------------------------
  // One cue at a time

  /** The entries of `e`, each moved up by `n`. */
  function Shifted(e: seq<nat>, n: nat): (r: seq<nat>)
    ensures |r| == |e| && forall i :: 0 <= i < |e| ==> r[i] == e[i] + n
  {
    seq(|e|, i requires 0 <= i < |e| => e[i] + n)
  }

  /** The state `y`, reached from a fresh start, placed after the finished state `p`:
      the objects of `y` come after those of `p`, and so do its list slots. */
  function Embed(p: State, y: State): State {
    State(p.table + y.table, p.entries + Shifted(y.entries, |p.table|), y.buffer)
  }

  /** The flush of an embedded state is the embedded flush. */
  lemma EmbedFlush(p: State, y: State)
    requires |y.table| > 0
    ensures Flush(Embed(p, y)) == Embed(p, Flush(y))
  {
    if |y.buffer| > 0 {
      var x, fy := Embed(p, y), Flush(y);
      var last := |y.table| - 1;
      assert Flush(x).table == p.table + fy.table;
      assert Shifted(y.entries + [last], |p.table|) == Shifted(y.entries, |p.table|) + [|x.table| - 1];
      assert Flush(x).entries == Embed(p, fy).entries;
    }
  }

  /** A step of an embedded state is the embedded step, once a cue is open. */
  lemma EmbedStep(p: State, y: State, kind: LineKind)
    requires |y.table| > 0
    ensures |StepKind(y, kind).table| > 0
    ensures StepKind(Embed(p, y), kind) == Embed(p, StepKind(y, kind))
  {
    match kind
    case Timing(split) =>
      EmbedFlush(p, y);
      FlushTable(y);
      if split.Some? {
        var fy, cue := Flush(y), CueData(split.value.0, split.value.1, "");
        assert Embed(p, fy).table + [cue] == p.table + (fy.table + [cue]);
      }
    case NonDialogue =>
    case TextLine(cleaned) =>
  }

  lemma {:induction false} EmbedRun(p: State, y: State, kinds: seq<LineKind>)
    requires |y.table| > 0
    ensures |Run(y, kinds).table| > 0
    ensures Run(Embed(p, y), kinds) == Embed(p, Run(y, kinds))
    decreases |kinds|
  {
    if kinds != [] {
      var init := kinds[..|kinds| - 1];
      EmbedRun(p, y, init);
      EmbedStep(p, Run(y, init), kinds[|kinds| - 1]);
    }
  }

  /** The list of an embedded state is that of `p` followed by that of `y`. */
  lemma EmittedEmbed(p: State, y: State)
    requires forall i :: 0 <= i < |p.entries| ==> p.entries[i] < |p.table|
    requires forall i :: 0 <= i < |y.entries| ==> y.entries[i] < |y.table|
    ensures var x := Embed(p, y);
      (forall i :: 0 <= i < |x.entries| ==> x.entries[i] < |x.table|)
      && Emitted(x) == Emitted(p) + Emitted(y)
  {
    var x := Embed(p, y);
    forall i | 0 <= i < |x.entries| ensures x.entries[i] < |x.table| {
      if i >= |p.entries| {
        assert x.entries[i] == y.entries[i - |p.entries|] + |p.table|;
      }
    }
    var l, r := Emitted(x), Emitted(p) + Emitted(y);
    forall i | 0 <= i < |l| ensures l[i] == r[i] {
      if i >= |p.entries| {
        assert x.entries[i] == y.entries[i - |p.entries|] + |p.table|;
      }
    }
  }

  /** The state right after the first line opened a cue. */
  function Opened(kind: LineKind): State
    requires kind.Timing? && kind.split.Some?
  {
    State([CueData(kind.split.value.0, kind.split.value.1, "")], [], [])
  }

  /** Every timing line that opens a cue starts afresh, with an empty buffer: the cues of the
      lines before it are final, and the lines from it on yield their cues as a file of
      their own would (All-in-One.py:28-36). */
  lemma CueOpensAfresh(a: seq<string>, t: string, b: seq<string>)
    requires IsWellFormedTiming(t)
    ensures ParseValues(a + [t] + b) == ParseValues(a) + ParseValues([t] + b)
  {
    var ka, kt, kb := Kinds(a), Classify(t), Kinds(b);
    KindsAppend(a + [t], b);
    KindsAppend(a, [t]);
    KindsAppend([t], b);
    assert Kinds([t]) == [kt];
    var st := Run(Init, ka);
    var p, y := Flush(st), Opened(kt);
    assert StepKind(st, kt) == Embed(p, y);
    assert Run(Init, ka + [kt]) == Embed(p, y) by {
      assert (ka + [kt])[..|ka|] == ka;
    }
    RunAppend(Init, ka + [kt], kb);
    EmbedRun(p, y, kb);
    EmbedFlush(p, Run(y, kb));
    assert Parse(a + [t] + b) == Embed(p, Parse([t] + b)) by {
      assert Run(Init, [kt]) == y by {
        assert [kt][..0] == [];
      }
      RunAppend(Init, [kt], kb);
    }
    ParseInv(a);
    ParseInv([t] + b);
    EmittedEmbed(p, Parse([t] + b));
  }

  /** What one line adds to an open cue's buffer: its cleaned form, unless it is skipped
      or cleans down to nothing (All-in-One.py:39-46). */
  function Survivor(line: string): seq<string> {
    if !IsNonDialogue(line, Strip(line)) && CleanTextLine(line) != [] then [CleanTextLine(line)] else []
  }

  /** The cleaned lines that a cue keeps: the survivors of its lines, in order. */
  function SurvivingLines(lines: seq<string>): seq<string>
    decreases |lines|
  {
    if lines == [] then [] else SurvivingLines(lines[..|lines| - 1]) + Survivor(lines[|lines| - 1])
  }

  /** Every surviving line is cleaned and non-empty. */
  lemma {:induction false} SurvivingLinesBuffered(lines: seq<string>)
    ensures forall k :: 0 <= k < |SurvivingLines(lines)| ==> IsBufferedLine(SurvivingLines(lines)[k])
    decreases |lines|
  {
    if lines != [] {
      SurvivingLinesBuffered(lines[..|lines| - 1]);
    }
  }

  /** The buffer contribution of classified lines: the non-empty cleaned text lines. */
  function BufferedTexts(kinds: seq<LineKind>): seq<string>
    decreases |kinds|
  {
    if kinds == [] then []
    else
      var last := kinds[|kinds| - 1];
      BufferedTexts(kinds[..|kinds| - 1]) + (if last.TextLine? && last.cleaned != [] then [last.cleaned] else [])
  }

  /** While a cue is open, classified lines other than timing lines only add their texts to
      the buffer. */
  lemma {:induction false} TextKindsBuffered(st: State, kinds: seq<LineKind>)
    requires |st.table| > 0
    requires forall k :: 0 <= k < |kinds| ==> !kinds[k].Timing?
    ensures Run(st, kinds) == st.(buffer := st.buffer + BufferedTexts(kinds))
    decreases |kinds|
  {
    if kinds == [] {
      assert st.buffer + [] == st.buffer;
    } else {
      var init, last := kinds[..|kinds| - 1], kinds[|kinds| - 1];
      TextKindsBuffered(st, init);
      var extra := if last.TextLine? && last.cleaned != [] then [last.cleaned] else [];
      assert st.buffer + BufferedTexts(init) + extra == st.buffer + BufferedTexts(kinds);
    }
  }

  /** A line without a timing mark is no timing line, and what it adds is its survivor. */
  lemma TextLineKind(line: string)
    requires !Contains(Strip(line), TimingMark)
    ensures !Classify(line).Timing?
    ensures BufferedTexts([Classify(line)]) == Survivor(line)
  {
    NotTiming(line);
    assert [Classify(line)][..0] == [];
  }

  /** For lines without a timing mark, the buffered texts of their classification are
      their survivors. */
  lemma {:induction false} SurvivorsBuffered(lines: seq<string>)
    requires forall k :: 0 <= k < |lines| ==> !Contains(Strip(lines[k]), TimingMark)
    ensures forall k :: 0 <= k < |lines| ==> !Kinds(lines)[k].Timing?
    ensures BufferedTexts(Kinds(lines)) == SurvivingLines(lines)
    decreases |lines|
  {
    if lines != [] {
      var init, line := lines[..|lines| - 1], lines[|lines| - 1];
      SurvivorsBuffered(init);
      TextLineKind(line);
      var ks := Kinds(lines);
      assert ks == Kinds(init) + [Classify(line)];
      assert ks[..|ks| - 1] == Kinds(init);
      assert BufferedTexts([Classify(line)]) == BufferedTexts([]) + Survivor(line);
      forall k | 0 <= k < |lines| ensures !ks[k].Timing? {
        if k < |init| {
          assert ks[k] == Kinds(init)[k];
        }
      }
    }
  }

  /** Lines without a timing mark, read while a cue is open, add exactly their surviving
      lines to the buffer and change nothing else. */
  lemma TextLinesBuffered(st: State, lines: seq<string>)
    requires |st.table| > 0
    requires forall k :: 0 <= k < |lines| ==> !Contains(Strip(lines[k]), TimingMark)
    ensures Run(st, Kinds(lines)) == st.(buffer := st.buffer + SurvivingLines(lines))
  {
    SurvivorsBuffered(lines);
    TextKindsBuffered(st, Kinds(lines));
  }

  /** A cue holds exactly its own surviving lines: a timing line that splits into `start` and
      `end`, followed by lines without a timing mark, yields one cue with the stripped start
      and end and the surviving lines joined by line feeds, or none when no line survives
      (All-in-One.py:28-50). */
  lemma CueText(t: string, start: string, end: string, b: seq<string>)
    requires SplitArrow(Strip(t)) == Some((start, end))
    requires forall k :: 0 <= k < |b| ==> !Contains(Strip(b[k]), TimingMark)
    ensures var texts := SurvivingLines(b);
      ParseValues([t] + b) ==
        if texts == [] then [] else [CueData(Strip(start), Strip(end), Join(texts, "\n"))]
  {
    SplitHasMark(Strip(t));
    ClassifyTiming(t, start, end);
    var kt, kb := Classify(t), Kinds(b);
    KindsAppend([t], b);
    assert Kinds([t]) == [kt];
    var c := CueData(Strip(start), Strip(end), "");
    assert Run(Init, [kt]) == State([c], [], []) by {
      assert [kt][..0] == [];
    }
    RunAppend(Init, [kt], kb);
    TextLinesBuffered(State([c], [], []), b);
    var texts := SurvivingLines(b);
    assert [] + texts == texts;
    assert Run(Init, Kinds([t] + b)) == State([c], [], texts);
    if texts != [] {
      SurvivingLinesBuffered(b);
      JoinedBufferIsCueText(texts);
    }
  }

  /** A cue without surviving text is dropped wherever it stands: the cues after it are
      unaffected (All-in-One.py:29-31). */
  lemma SilentCueDroppedMidFile(a: seq<string>, t: string, b: seq<string>, t2: string, c: seq<string>)
    requires IsWellFormedTiming(t) && IsWellFormedTiming(t2)
    requires forall k :: 0 <= k < |b| ==> IsSilent(b[k])
    ensures ParseValues(a + [t] + b + [t2] + c) == ParseValues(a) + ParseValues([t2] + c)
  {
    assert a + [t] + b + [t2] + c == (a + [t] + b) + [t2] + c;
    CueOpensAfresh(a + [t] + b, t2, c);
    SilentCueDropped(a, t, b);
  }

  // ---------------------------------------------------------------------------
  // Where the cues come from, and in which order

  /** The stripped starts and ends carried by the timing lines that open a cue, in order. */
  function Timings(kinds: seq<LineKind>): seq<(string, string)>
    decreases |kinds|
  {
    if kinds == [] then []
    else
      var last := kinds[|kinds| - 1];
      Timings(kinds[..|kinds| - 1]) + (if last.Timing? && last.split.Some? then [last.split.value] else [])
  }

  /** The k-th cue object is created by the k-th timing line that opens a cue, with that
      line's stripped start and end; nothing changes a start or an end afterwards. */
  lemma {:induction false} TableFromTimings(kinds: seq<LineKind>)
    ensures |Run(Init, kinds).table| == |Timings(kinds)|
    ensures forall k :: 0 <= k < |Timings(kinds)| ==>
      (Run(Init, kinds).table[k].start, Run(Init, kinds).table[k].end) == Timings(kinds)[k]
    decreases |kinds|
  {
    if kinds != [] {
      var init, last := kinds[..|kinds| - 1], kinds[|kinds| - 1];
      TableFromTimings(init);
      var st := Run(Init, init);
      FlushTable(st);
      var st' := StepKind(st, last);
      assert Run(Init, kinds) == st';
      var t, t' := Timings(init), Timings(kinds);
      forall k | 0 <= k < |t'| ensures (st'.table[k].start, st'.table[k].end) == t'[k] {
        if k < |t| {
          assert t'[k] == t[k];
        }
      }
    }
  }

  /** The timing lines of a file that open a cue, in order, with their stripped start and
      end (All-in-One.py:33-35). */
  function FileTimings(lines: seq<string>): seq<(string, string)> {
    Timings(Kinds(lines))
  }

  /** Every returned cue carries the stripped start and end of a timing line that opened a
      cue, and cues appear in the order of their timing lines. */
  lemma CuesFollowTimingLines(lines: seq<string>)
    ensures forall i :: 0 <= i < |ParseValues(lines)| ==>
      Parse(lines).entries[i] < |FileTimings(lines)|
      && (ParseValues(lines)[i].start, ParseValues(lines)[i].end) == FileTimings(lines)[Parse(lines).entries[i]]
    ensures forall i, j :: 0 <= i < j < |ParseValues(lines)| ==>
      Parse(lines).entries[i] <= Parse(lines).entries[j]
  {
    TableFromTimings(Kinds(lines));
    ParseInv(lines);
    FlushTable(Run(Init, Kinds(lines)));
  }

  // ---------------------------------------------------------------------------
  // Sharing of cue objects

  /** Every line holding the timing mark splits into exactly two parts. */
  predicate AllTimingLinesWellFormed(lines: seq<string>) {
    forall k :: 0 <= k < |lines| && Classify(lines[k]).Timing? ==> IsWellFormedTiming(lines[k])
  }

  /** Between lines: no object appears twice, and the open object is not yet in the list. */
  ghost predicate NoRepeats(st: State) {
    && (forall i, j :: 0 <= i < j < |st.entries| ==> st.entries[i] < st.entries[j])
    && (forall i :: 0 <= i < |st.entries| ==> st.entries[i] < |st.table| - 1)
  }

  lemma {:induction false} RunNoRepeats(kinds: seq<LineKind>)
    requires forall k :: 0 <= k < |kinds| && kinds[k].Timing? ==> kinds[k].split.Some?
    ensures NoRepeats(Run(Init, kinds))
    decreases |kinds|
  {
    if kinds != [] {
      RunNoRepeats(kinds[..|kinds| - 1]);
    }
  }

  /** When every timing line is well-formed, the returned list holds each cue object at
      most once, so the sharing described above cannot happen. */
  lemma WellFormedInputHasNoRepeats(lines: seq<string>)
    requires AllTimingLinesWellFormed(lines)
    ensures forall i, j :: 0 <= i < j < |Parse(lines).entries| ==> Parse(lines).entries[i] < Parse(lines).entries[j]
  {
    forall k | 0 <= k < |lines| && Kinds(lines)[k].Timing? ensures Kinds(lines)[k].split.Some? {
      KindsAt(lines, k);
    }
    RunNoRepeats(Kinds(lines));
  }

  /** A malformed timing line between two text lines makes the list hold the same cue
      twice, and both slots show the text accumulated over both text lines
      (All-in-One.py:29-38). The malformed line holds the timing mark but does not split. */
  lemma MalformedTimingRepeatsCue(opening: string, first: string, malformed: string, second: string)
    requires Classify(opening).Timing? && Classify(opening).split.Some?
    requires Classify(first).TextLine? && Classify(first).cleaned != []
    requires Contains(Strip(malformed), TimingMark) && SplitArrow(Strip(malformed)).None?
    requires Classify(second).TextLine? && Classify(second).cleaned != []
    ensures var (start, end) := Classify(opening).split.value;
            var cue := CueData(start, end, Classify(first).cleaned + "\n" + Classify(second).cleaned);
            ParseValues([opening, first, malformed, second]) == [cue, cue]
  {
    ClassifyMalformed(malformed);
    KindsOfFour(opening, first, malformed, second);
    ClassifyValid(first);
    ClassifyValid(second);
    var (start, end) := Classify(opening).split.value;
    var cx, cy := Classify(first).cleaned, Classify(second).cleaned;
    RunMalformed(start, end, cx, cy);
    assert [Classify(opening), Classify(first), Classify(malformed), Classify(second)]
      == [Timing(Some((start, end))), TextLine(cx), Timing(None), TextLine(cy)];
  }

  /** Four lines, classified one by one. */
  lemma KindsOfFour(l0: string, l1: string, l2: string, l3: string)
    ensures Kinds([l0, l1, l2, l3]) == [Classify(l0), Classify(l1), Classify(l2), Classify(l3)]
  {
    var lines := [l0, l1, l2, l3];
    forall i | 0 <= i < 4 ensures Kinds(lines)[i] == [Classify(l0), Classify(l1), Classify(l2), Classify(l3)][i] {
      KindsAt(lines, i);
    }
  }

  /** The loop over four classified lines is four steps. */
  lemma RunFour(st: State, k0: LineKind, k1: LineKind, k2: LineKind, k3: LineKind)
    ensures Run(st, [k0, k1, k2, k3]) == StepKind(StepKind(StepKind(StepKind(st, k0), k1), k2), k3)
  {
    RunSnoc(st, [], k0);
    RunSnoc(st, [k0], k1);
    RunSnoc(st, [k0, k1], k2);
    RunSnoc(st, [k0, k1, k2], k3);
    assert [] + [k0] == [k0] && [k0] + [k1] == [k0, k1];
    assert [k0, k1] + [k2] == [k0, k1, k2] && [k0, k1, k2] + [k3] == [k0, k1, k2, k3];
  }

  /** One more classified line is one more step. */
  lemma RunSnoc(st: State, kinds: seq<LineKind>, kind: LineKind)
    ensures Run(st, kinds + [kind]) == StepKind(Run(st, kinds), kind)
  {
    assert (kinds + [kind])[..|kinds|] == kinds;
  }

  /** The state-level form of `MalformedTimingRepeatsCue`: one cue object, holding the text
      of both lines, appended twice. */
  lemma RunMalformed(start: string, end: string, cx: string, cy: string)
    requires IsBufferedLine(cx) && IsBufferedLine(cy)
    ensures var cue := CueData(start, end, cx + "\n" + cy);
            var st := Flush(Run(Init, [Timing(Some((start, end))), TextLine(cx), Timing(None), TextLine(cy)]));
            st.table == [cue] && st.entries == [0, 0]
  {
    var k0, k1, k2, k3 := Timing(Some((start, end))), TextLine(cx), Timing(None), TextLine(cy);
    RunFour(Init, k0, k1, k2, k3);
    var created := CueData(start, end, "");
    var s1 := StepKind(Init, k0);
    assert s1 == State([created], [], []);
    var s2 := StepKind(s1, k1);
    assert s2 == State([created], [], [cx]);
    JoinedBufferIsCueText([cx]);
    var once := created.(text := cx);
    var s3 := StepKind(s2, k2);
    assert s3 == State([once], [0], [cx]);
    var s4 := StepKind(s3, k3);
    assert s4 == State([once], [0], [cx, cy]);
    JoinedBufferIsCueText([cx, cy]);
    assert Join([cx, cy], "\n") == cx + "\n" + cy;
  }

  lemma ClassifyTimingExample(line: string)
    requires line == "1 --> 2\n"
    ensures Classify(line) == Timing(Some(("1", "2")))
  {
    var s := "1 --> 2";
    assert s + "\n" == line;
    StripNewline(s);
    assert OccursAt(s, TimingMark, 2);
    SplitExample(s);
    StrippedChar('1');
    StrippedChar('2');
    ClassifyTiming(line, "1", "2");
  }

  lemma StrippedChar(c: char)
    requires !IsSpace(c)
    ensures Strip([c]) == [c]
  {
  }

  lemma SplitExample(s: string)
    requires s == "1 --> 2"
    ensures SplitArrow(s) == Some(("1", "2"))
  {
    assert "1" + Separator + "2" == s;
    assert !OccursAt(s, Separator, 0) by {
      assert s[0..5][0] != Separator[0];
    }
    assert !Contains("2", Separator);
    SplitArrowOfJoin("1", "2");
  }

  lemma ClassifyMalformedExample(line: string)
    requires line == "3-->\n"
    ensures Contains(Strip(line), TimingMark) && SplitArrow(Strip(line)).None?
    ensures Classify(line) == Timing(None)
  {
    var s := "3-->";
    assert s + "\n" == line;
    StripNewline(s);
    assert OccursAt(s, TimingMark, 1);
    assert !Contains(s, Separator);
    SplitArrowParts(s);
  }

  /** A two-letter word on its own line is a text line that cleans to the word. */
  lemma ClassifyTextExample(line: string)
    requires |line| == 3 && line[2] == '\n'
    requires 'A' <= line[0] <= 'Z' && 'a' <= line[1] <= 'z'
    ensures Classify(line) == TextLine(line[..2])
  {
    var word := line[..2];
    assert word + "\n" == line;
    StripNewline(word);
    assert !Contains(word, TimingMark);
    assert !IsDigitString(word);
    NoKeywordInShortLine(line);
    RemoveAnnotationsWithoutOpeners(line);
    assert KeepWhitelisted(line) == line;
  }

  lemma NoKeywordInShortLine(line: string)
    requires |line| == 3 && 'A' <= line[0] <= 'Z'
    ensures !HasKeyword(line)
  {
    forall k | 0 <= k < |NonDialogueKeywords| ensures !Contains(line, NonDialogueKeywords[k]) {
      var kw := NonDialogueKeywords[k];
      assert |kw| > 3 || '\U{AC00}' <= kw[0];
      forall i | 0 <= i <= |line| ensures !OccursAt(line, kw, i) {
        if i + |kw| <= |line| {
          assert line[i..i + |kw|][0] == line[i];
        }
      }
    }
  }

  // ---------------------------------------------------------------------------
  // The parser as the source runs it, on cue objects

  /** The heap mirrors the state: `objs[k]` is the k-th cue object created and holds
      `table[k]`, the objects are distinct, `current` is the last of them, and slot i of
      `list` holds the object that `entries[i]` names. */
  ghost predicate Mirrors(st: State, objs: seq<Cue>, list: seq<Cue>, current: Cue?, buffer: seq<string>)
    reads objs
  {
    && buffer == st.buffer
    && |objs| == |st.table|
    && (forall k :: 0 <= k < |objs| ==> Data(objs[k]) == st.table[k])
    && (forall k, m :: 0 <= k < m < |objs| ==> objs[k] != objs[m])
    && current == (if objs == [] then null else objs[|objs| - 1])
    && |list| == |st.entries|
    && (forall i :: 0 <= i < |list| ==> st.entries[i] < |objs| && list[i] == objs[st.entries[i]])
  }

  /** Reading a mirrored list gives the emitted values, and two slots share an object
      exactly when they name the same one. */
  lemma MirroredList(st: State, objs: seq<Cue>, list: seq<Cue>, current: Cue?, buffer: seq<string>)
    requires Mirrors(st, objs, list, current, buffer)
    ensures Snapshot(list) == Emitted(st)
    ensures forall i, j :: 0 <= i < |list| && 0 <= j < |list| ==>
      (list[i] == list[j] <==> st.entries[i] == st.entries[j])
  {
  }

  /** All-in-One.py:29-31 and 48-50 on cue objects: `Flush`. */
  method FlushOpen(current: Cue?, list: seq<Cue>, buffer: seq<string>, ghost objs: seq<Cue>, ghost st: State)
    returns (list': seq<Cue>)
    requires Mirrors(st, objs, list, current, buffer)
    modifies objs
    ensures Mirrors(Flush(st), objs, list', current, buffer)
  {
    list' := list;
    if current != null && |buffer| > 0 {
      current.text := Strip(Join(buffer, "\n"));
      list' := list + [current];
    }
  }

  /** One iteration of the loop at All-in-One.py:25-46 on cue objects: `StepKind`. */
  method Consume(kind: LineKind, current: Cue?, list: seq<Cue>, buffer: seq<string>,
                 ghost objs: seq<Cue>, ghost st: State)
    returns (current': Cue?, list': seq<Cue>, buffer': seq<string>, ghost objs': seq<Cue>)
    requires Mirrors(st, objs, list, current, buffer)
    modifies objs
    ensures Mirrors(StepKind(st, kind), objs', list', current', buffer')
    ensures |objs| <= |objs'| && objs'[..|objs|] == objs
    ensures forall k :: |objs| <= k < |objs'| ==> fresh(objs'[k])
  {
    current', list', buffer', objs' := current, list, buffer, objs;
    match kind {
      case Timing(split) =>
        list' := FlushOpen(current, list, buffer, objs, st);
        ghost var flushed := Flush(st);
        FlushTable(st);
        match split {
          case Some((start, end)) =>
            current' := new Cue(start, end);
            objs' := objs + [current'];
            buffer' := [];
            assert StepKind(st, kind) == flushed.(table := flushed.table + [CueData(start, end, "")], buffer := []);
          case None =>
            assert StepKind(st, kind) == flushed;
        }
      case NonDialogue =>
      case TextLine(cleaned) =>
        if current != null && cleaned != [] {
          buffer' := buffer + [cleaned];
        }
    }
  }

  /** The loop of All-in-One.py:25-46 over the classified lines, on cue objects: `Run`. */
  method ConsumeAll(kinds: seq<LineKind>)
    returns (current: Cue?, list: seq<Cue>, buffer: seq<string>, ghost objs: seq<Cue>, ghost st: State)
    ensures st == Run(Init, kinds)
    ensures Mirrors(st, objs, list, current, buffer)
    ensures forall k :: 0 <= k < |objs| ==> fresh(objs[k])
  {
    list, current, buffer := [], null, [];
    objs, st := [], Init;
    for n := 0 to |kinds|
      invariant st == Run(Init, kinds[..n])
      invariant Mirrors(st, objs, list, current, buffer)
      invariant forall k :: 0 <= k < |objs| ==> fresh(objs[k])
    {
      ghost var before := objs;
      current, list, buffer, objs := Consume(kinds[n], current, list, buffer, objs, st);
      assert forall k :: 0 <= k < |before| ==> objs[k] == before[k];
      assert kinds[..n + 1][..n] == kinds[..n];
      st := StepKind(st, kinds[n]);
    }
    assert kinds[..|kinds|] == kinds;
  }

  /** `clean_and_parse_vtt`: `file` is the result of reading the file, `None` when it was not
      found. The returned list holds fresh cue objects whose values, read when the parse is
      done, are `ParseValues`, and two slots hold the same object exactly when the model's
      entries coincide. */
  method CleanAndParseVtt(file: Option<seq<string>>) returns (cues: Option<seq<Cue>>)
    ensures cues.None? <==> file.None?
    ensures cues.Some? ==> forall c :: c in cues.value ==> fresh(c)
    ensures cues.Some? ==> Snapshot(cues.value) == ParseValues(file.value)
    ensures cues.Some? ==> forall i, j :: 0 <= i < |cues.value| && 0 <= j < |cues.value| ==>
      (cues.value[i] == cues.value[j] <==> Parse(file.value).entries[i] == Parse(file.value).entries[j])
  {
    if file.None? {
      return None;
    }
    var kinds := Kinds(file.value);
    var current, list, buffer, objs, st := ConsumeAll(kinds);
    // All-in-One.py:48-50
    list := FlushOpen(current, list, buffer, objs, st);
    st := Flush(st);
    MirroredList(st, objs, list, current, buffer);
    cues := Some(list);
  }
}

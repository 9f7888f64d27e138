# VTT subtitle preprocessor, modelled in Dafny

The preprocessor turns an English and a Korean WebVTT subtitle file into two
cleaned files that have the same cue numbering and the same timings. It has
three steps, all in `All-in-One.py`:

- `clean_and_parse_vtt` reads one file line by line. It opens a cue at every
  timing line that splits on `" --> "` into exactly two parts. It skips blank
  lines, cue numbers and credit lines holding one of eight keywords. Every other
  line loses its `[...]` and `(...)` annotations and every character outside a
  whitelist, and a line with text left over is added to the open cue.
- `correct_korean_typos` rewrites a fixed typo in the Korean text.
- `create_final_vtt_files` pairs the two cue lists by index, up to the shorter
  list. It writes the English cues verbatim. It writes each Korean cue with the
  English start and end and the corrected Korean text.

The pairing is purely by index. Cue times are never compared, and no cues are
merged or grouped by overlapping time.

Timestamps stay opaque strings. The code never parses them: it copies the
stripped text on either side of `" --> "`.

Modules, one per file:

- `Wrappers`: `Option`.
- `Strings`: Python's `strip`, `in`, `isdigit` and `join`, and the first-occurrence
  search inside `split`.
- `Sanitiser`: the two regular-expression substitutions of lines 42-43, written
  out by hand. `.*?` does not cross a line feed, and an opener with no closer
  on its line is kept.
- `VttLines`: classification of one line (the `if`/`elif` chain of lines 28-46).
- `VttParser`: the parser, in two layers.
  - A value-level state machine. Its `table` has one entry per cue dictionary
    ever created, and `entries` says which dictionary each list slot holds.
  - The method `CleanAndParseVtt`. It keeps heap objects of class `Cue` and
    mutates them as the source mutates its dictionaries.

  A timing line that holds `-->` but does not split in two is treated like
  this, as in the source:
  - the open cue is appended if it has buffered text;
  - the open cue stays open;
  - the buffer is kept.

  The same object can therefore sit in several list slots. Each of those slots
  shows the object's final text, and the method is proved to reproduce exactly
  this sharing.
- `Typos`: Python's `str.replace`, and the typo dictionary loop.
- `FinalVtt`: the numbered blocks and the two output files.

The method classifies every line before the loop starts (`Kinds`), instead of
classifying each line inside the loop. Classification reads only the line
itself, so the two orders give the same result.

## Model

| member | source | states |
|---|---|---|
| Strings.Strip | All-in-One.py:26 | `str.strip()` returns a text with no whitespace at either end, and returns an already stripped text unchanged |
| Strings.StripIsSlice | All-in-One.py:26 | what `strip()` keeps is a contiguous slice of the line, with only whitespace before it and after it |
| Strings.StripEmpty | All-in-One.py:39 | `not stripped_line` holds exactly when the line is all whitespace |
| Strings.Find | All-in-One.py:34 | the first-occurrence search inside `split` reports a position exactly when the separator occurs, and the position is its first occurrence |
| Strings.Contains | All-in-One.py:28 | Python's `in` on strings, used at lines 28 and 39; tied to the search by `Find` (a position is found exactly when `Contains` holds) |
| Strings.JoinOfStripped | All-in-One.py:30 | joining non-empty stripped lines gives a non-empty stripped text that begins with the first line |
| Strings.Join | All-in-One.py:30 | `"\n".join(text_buffer)`; its properties are stated by `JoinOfStripped` and `JoinedBufferIsCueText` |
| Sanitiser.FindCloser | All-in-One.py:42 | the non-greedy `.*?` match ends at the first closer after the opener, and fails when a line feed comes first |
| Sanitiser.RemoveAnnotations | All-in-One.py:42 | removing annotations never lengthens the line and introduces no character |
| Sanitiser.AnnotationRemoved | All-in-One.py:42 | a `[...]` or `(...)` annotation within one line disappears with its contents, and the scan resumes after its closer |
| Sanitiser.UnmatchedOpenerKept | All-in-One.py:42 | a `[` or `(` without a closer later on its line is kept, and the scan goes on with the next character |
| Sanitiser.KeptPrefix | All-in-One.py:42 | text without an opener in front of the rest is kept as it is, and the rest is processed on its own |
| Sanitiser.AnnotationRemovedInside | All-in-One.py:42 | an annotation anywhere on a line goes with its contents, and the text before it and the processed text after it stay, so "Hello [music] there" keeps "Hello " and " there" |
| Sanitiser.RemoveAnnotationsWithoutOpeners | All-in-One.py:42 | a line with no `[` and no `(` passes through unchanged |
| Sanitiser.KeepWhitelisted | All-in-One.py:43 | every character kept is whitelisted and comes from the input, every whitelisted character of the input is kept, and a whitelisted line is unchanged |
| Sanitiser.KeepWhitelistedChar | All-in-One.py:43 | a single character is kept exactly when it is whitelisted |
| Sanitiser.KeepWhitelistedAppend | All-in-One.py:43 | filtering two texts joined is filtering each and joining the results; with `KeepWhitelistedChar` this fixes the result: the whitelisted characters, in their order and with their multiplicity |
| Sanitiser.CleanTextLine | All-in-One.py:42-46 | a cleaned line is stripped, consists of whitelisted characters only and holds no `[` or `(` |
| Sanitiser.CleanTextLineIdempotent | All-in-One.py:42-46 | cleaning an already cleaned line changes nothing |
| VttLines.SplitArrowParts | All-in-One.py:34 | a successful split gives the text before the first `" --> "` and a remainder without one; a line without the separator does not split |
| VttLines.SplitArrowOfJoin | All-in-One.py:34 | conversely, two parts joined by the separator, the second without one, split back into exactly those parts |
| VttLines.SplitArrow | All-in-One.py:34 | `stripped_line.split(" --> ")` unpacked into two names; characterised both ways by `SplitArrowParts` and `SplitArrowOfJoin` |
| VttLines.Classify | All-in-One.py:28-46 | the `if`/`elif` chain on one line; its cases are stated by `WellFormedTimingIff`, `ClassifyTiming`, `NotTiming` and `ClassifyValid` |
| VttLines.IsNonDialogue | All-in-One.py:39 | the skip test made on lines without `-->`; stated by `SkippedLineIgnored`, `TextLineKind` and `StripEmpty` |
| VttLines.HasKeyword | All-in-One.py:16-19 | `any(keyword in line ...)` over the eight keywords, tested on the raw line; stated by `NoKeywordInShortLine` and `SkippedLineIgnored` |
| VttLines.WellFormedTimingIff | All-in-One.py:28-38 | a line opens a cue if and only if its stripped form splits in two, and the cue's start and end are the stripped parts |
| VttLines.ClassifyTiming | All-in-One.py:28-35 | a stripped line holding `-->` that splits is a timing line carrying the stripped start and end |
| VttLines.NotTiming | All-in-One.py:28 | a line whose stripped form lacks `-->` is never a timing line |
| VttLines.ClassifyMalformed | All-in-One.py:28-38 | a line whose stripped form holds `-->` but does not split in two is still a timing line (it flushes the open cue), and it opens no cue |
| VttLines.ClassifyValid | All-in-One.py:39-46 | a text line contributes either nothing or a non-empty, stripped, whitelisted line |
| VttLines.KindsAt | All-in-One.py:25 | the i-th classified line is the classification of the i-th line |
| VttLines.KindsAppend | All-in-One.py:25 | classifying two files one after the other equals classifying them joined |
| VttParser.JoinedBufferIsCueText | All-in-One.py:30 | the joined buffer is non-empty and whitelisted, and the final `strip()` leaves it unchanged |
| VttParser.Flush | All-in-One.py:29-31 | the flush of the open cue; stated by `FlushTable`, `FlushKeepsInv` and `JoinedBufferIsCueText` |
| VttParser.StepKind | All-in-One.py:26-46 | one loop iteration on a classified line; stated by `StepKeepsInv`, `RunSnoc`, `TextKindsBuffered` and the lemmas on `Run` |
| VttParser.Run | All-in-One.py:25-46 | the loop; stated by `RunKeepsInv`, `RunAppend`, `TableFromTimings` and `TextLinesBuffered` |
| VttParser.Parse | All-in-One.py:25-50 | the loop and the final flush; stated by `ParseInv`, `CueOpensAfresh`, `CueText` and the lemmas on lines that contribute nothing |
| VttParser.FlushTable | All-in-One.py:29-31 | a flush leaves every cue but the open one unchanged, keeps the open cue's start and end and the buffer, appends at most the open cue, and changes nothing when it appends nothing |
| VttParser.RunKeepsInv | All-in-One.py:25-46 | along the loop, every list slot holds an existing cue, in creation order, with non-empty whitelisted text, and the buffer holds only cleaned lines |
| VttParser.ParseValues | All-in-One.py:4-52 | each returned cue shows its object's final value, and its text is non-empty, whitelisted and free of `[` and `(`; which text it is, is stated by `CueText` |
| VttParser.ParseFile | All-in-One.py:9-14 | the parse result is missing exactly when the file could not be read |
| VttParser.RunAppend | All-in-One.py:25 | running the loop over two stretches of lines equals running it over the first and continuing over the second |
| VttParser.SkippedLineIgnored | All-in-One.py:39-40 | deleting a line from the file changes neither the cues nor their sharing, when its stripped form has no `-->` and it is blank, all digits or holds a keyword; a keyword line with `-->` is a timing line, because the test at line 28 comes first |
| VttParser.PreambleIgnored | All-in-One.py:41 | lines before the first timing line that opens a cue do not change the result, because no cue is open yet |
| VttParser.SilentCueDropped | All-in-One.py:29-50 | a cue whose later lines are all skipped or clean down to nothing is never emitted |
| VttParser.CueOpensAfresh | All-in-One.py:28-36 | at every timing line that opens a cue, the cues before it are final and the lines from it on yield exactly the cues they would yield as a file of their own, because the buffer starts empty |
| VttParser.TextLinesBuffered | All-in-One.py:39-46 | from any state with an open cue, including one in which a malformed timing line has already appended it, lines without the timing mark add exactly their survivors to the buffer, in order, and change nothing else |
| VttParser.Survivor | All-in-One.py:39-46 | what one line adds to an open cue: its cleaned form unless it is skipped or cleans to nothing; stated by `TextLineKind` and `SurvivingLinesBuffered` |
| VttParser.SurvivingLines | All-in-One.py:39-46 | the survivors of a run of lines, in order; stated by `SurvivingLinesBuffered`, `TextLinesBuffered` and `CueText` |
| VttParser.SurvivingLinesBuffered | All-in-One.py:45-46 | every surviving line is non-empty, stripped and whitelisted |
| VttParser.TextLineKind | All-in-One.py:28-46 | a line without `-->` in its stripped form is no timing line, and it adds to the buffer exactly its survivor |
| VttParser.TextKindsBuffered | All-in-One.py:39-46 | while a cue is open, classified lines other than timing lines only append their non-empty cleaned texts to the buffer |
| VttParser.SurvivorsBuffered | All-in-One.py:39-46 | for lines without the timing mark, the buffered texts of their classification are exactly their survivors |
| VttParser.CueText | All-in-One.py:28-50 | a timing line that splits, followed by lines without the timing mark, yields one cue with the stripped start and end and the surviving cleaned lines joined by line feeds, or no cue when no line survives |
| VttParser.SilentCueDroppedMidFile | All-in-One.py:29-31 | a cue whose lines up to the next opening timing line all contribute nothing is dropped, and the cues after it are unaffected |
| VttParser.TableFromTimings | All-in-One.py:33-35 | the k-th cue is created by the k-th timing line that opens a cue and keeps that line's stripped start and end |
| VttParser.CuesFollowTimingLines | All-in-One.py:28-50 | every returned cue carries the start and end of a timing line that opened a cue, and cues appear in the order of those lines |
| VttParser.WellFormedInputHasNoRepeats | All-in-One.py:29-38 | when every timing line splits in two, no cue appears twice in the list |
| VttParser.MalformedTimingRepeatsCue | All-in-One.py:29-38 | timing line, text, a line holding `-->` that does not split, text: the list holds the same cue twice, and both slots show the text of both lines |
| VttParser.RunMalformed | All-in-One.py:29-50 | after an opening timing line, a text line, a malformed timing line and another text line, the parser holds one cue object, with the text of both lines, and the list holds it twice |
| VttParser.ClassifyTimingExample | All-in-One.py:28-35 | the line "1 --> 2" opens a cue with start "1" and end "2" |
| VttParser.ClassifyMalformedExample | All-in-One.py:28-38 | the line "3-->" holds the timing mark but does not split, so it is a timing line that opens no cue |
| VttParser.ClassifyTextExample | All-in-One.py:39-46 | a line made of a capital and a small letter, such as "Hi", is a text line that cleans to those two letters; with the timing and malformed examples it shows that lines such as "1 --> 2", "Hi", "3-->", "Yo" meet the premises of `MalformedTimingRepeatsCue` |
| VttParser.MirroredList | All-in-One.py:29-50 | the heap cue list reads as the value model, and two slots hold the same object exactly when they hold the same table entry |
| VttParser.Cue.constructor | All-in-One.py:35 | a new cue has the given start and end and empty text |
| VttParser.FlushOpen | All-in-One.py:29-31 | the heap flush assigns the joined buffer to the open cue object and appends that object, as the value-level flush does |
| VttParser.Consume | All-in-One.py:26-46 | one loop iteration on the heap matches one step of the state machine and only creates fresh objects |
| VttParser.ConsumeAll | All-in-One.py:25-46 | the heap loop matches the state machine run over all classified lines |
| VttParser.CleanAndParseVtt | All-in-One.py:4-52 | a missing file gives `None`; otherwise the returned objects are fresh, read as `ParseValues`, and two slots share an object exactly when the model's entries coincide |
| Typos.ReplaceAbsent | All-in-One.py:60 | `replace` leaves a text without the pattern unchanged |
| Typos.ReplaceAll | All-in-One.py:60 | `str.replace`, scanning left to right over non-overlapping occurrences; stated by `ReplaceAbsent`, `ReplaceKeepsLength`, `ReplaceRemovesPattern`, `EveryOccurrenceReplaced` and `UncoveredUnchanged` |
| Typos.ReplaceKeepsLength | All-in-One.py:60 | replacing with an equal-length text keeps the length |
| Typos.ReplaceRemovesPattern | All-in-One.py:60 | after replacing a safe rule's pattern, the pattern no longer occurs |
| Typos.EveryOccurrenceReplaced | All-in-One.py:60 | every occurrence of the pattern becomes the replacement at the same index |
| Typos.UncoveredUnchanged | All-in-One.py:60 | a character covered by no occurrence of the pattern is unchanged |
| Typos.TypoRuleIsSafe | All-in-One.py:58 | the dictionary's one rule has the shape for which these facts hold |
| Typos.CorrectedIsReplace | All-in-One.py:58-60 | with its one rule, the correction is one `replace` |
| Typos.Corrected | All-in-One.py:54-61 | `correct_korean_typos` as a function; stated by `CorrectedHasNoTypo`, `NoTypoUnchanged`, `CorrectedKeepsLength`, `EveryTypoCorrected`, `OtherTextUnchanged` and `CorrectionIdempotent`, and computed by `CorrectKoreanTypos` |
| Typos.CorrectKoreanTypos | All-in-One.py:54-61 | the loop over the dictionary returns the text with each rule applied in turn |
| Typos.CorrectedHasNoTypo | All-in-One.py:58-60 | corrected text no longer holds "필요고 없지" |
| Typos.NoTypoUnchanged | All-in-One.py:58-60 | text without the typo is returned unchanged |
| Typos.CorrectedKeepsLength | All-in-One.py:58-60 | the correction keeps the length |
| Typos.EveryTypoCorrected | All-in-One.py:58-60 | each occurrence of the typo reads "필요도 없지" afterwards |
| Typos.OtherTextUnchanged | All-in-One.py:58-60 | characters outside every occurrence of the typo are unchanged |
| Typos.CorrectionIdempotent | All-in-One.py:54-61 | correcting twice equals correcting once |
| FinalVtt.DigitChar | All-in-One.py:86 | each digit value maps to the character of that digit |
| FinalVtt.NatToStringRoundTrip | All-in-One.py:86 | a block number is written in decimal with no leading zero, and reading the digits back gives the number |
| FinalVtt.NatToString | All-in-One.py:86 | `f"{i+1}"`; stated by `NatToStringRoundTrip` |
| FinalVtt.BlockText | All-in-One.py:86-88 | the three writes of one block; stated by `BlocksTextAppend` and `BlocksPairByIndex` through `TimingLine` |
| FinalVtt.EnglishBlocks | All-in-One.py:84-88 | the English blocks; stated by `BlockCounts`, `BlocksPairByIndex` and `ExtraCuesDropped` |
| FinalVtt.KoreanBlocks | All-in-One.py:93-100 | the Korean blocks; stated by `BlockCounts`, `BlocksPairByIndex`, `ExtraCuesDropped` and `IdenticalTracksIdenticalFiles` |
| FinalVtt.BlocksTextAppend | All-in-One.py:84-88 | writing two runs of blocks equals writing them joined |
| FinalVtt.FileText | All-in-One.py:83 | every output file starts with `WEBVTT` and a blank line |
| FinalVtt.BlockCounts | All-in-One.py:77-100 | both files hold `min(len(en), len(kr))` blocks, numbered 1 to n in order |
| FinalVtt.SyncedCount | All-in-One.py:77 | `min(len(en_cues), len(kr_cues))`; stated by `BlockCounts` and `ExtraCuesDropped` |
| FinalVtt.BlocksPairByIndex | All-in-One.py:85-100 | block i of the English file is English cue i; block i of the Korean file has the same timing line and the corrected text of Korean cue i, which is free of the typo |
| FinalVtt.ExtraCuesDropped | All-in-One.py:77 | cues beyond the shorter track change neither file |
| FinalVtt.IdenticalTracksIdenticalFiles | All-in-One.py:82-100 | the two files differ only through the Korean track: the same typo-free track on both sides gives identical files |
| FinalVtt.FinalFiles | All-in-One.py:73-75 | nothing is written exactly when either file could not be read |
| FinalVtt.WriteEnglish | All-in-One.py:82-88 | the English writes produce the header and the English blocks |
| FinalVtt.WriteKorean | All-in-One.py:91-100 | the Korean writes produce the header and the Korean blocks |
| FinalVtt.CreateFinalVttFiles | All-in-One.py:63-100 | the two files written are those that `FinalFiles` describes for the two parse results |

## Left out

- File reading (All-in-One.py:9-14): the file is taken as `Option<seq<string>>`, holding the lines `readlines()` returns, or `None` for `FileNotFoundError`. Other I/O errors and the encoding are not modelled.
- File writing (All-in-One.py:82-100): each file is returned as the concatenation of its writes. Opening, closing and write failures are not modelled.
- `print` calls (All-in-One.py:13, 68, 74, 78-79, 102-105): console output only.
- The script at All-in-One.py:107-132: fixed paths and the call to `create_final_vtt_files`.
- Strings.IsSpace: `str.strip()` and `\s` are modelled with six whitespace characters: space, tab, line feed, carriage return, vertical tab and form feed. Python also counts five more as whitespace: the ASCII separators U+001C-U+001F and U+0085. The non-ASCII whitespace, such as U+00A0 or U+3000, is not included either.
- Strings.IsDigitString: `str.isdigit()` is modelled with ASCII `0`-`9`. Other Unicode digits are not included.
- Sanitiser.RemoveAnnotations: the first regex is not run by a general regular-expression engine. It is a hand-written scan with the same leftmost, non-greedy behaviour.
- Sanitiser.Whitelisted: the character class covers the Hangul syllables U+AC00 to U+D7A3 and the ASCII ranges. It does not cover `\s` beyond the six whitespace characters of `IsSpace` (not U+001C-U+001F, U+0085 or non-ASCII whitespace).
- Timestamps are opaque strings. The code never compares or parses them.

/**
  The output side of `create_final_vtt_files` (All-in-One.py:63-100): the two
  parsed tracks are paired strictly by index up to the shorter one, and each
  output file is the header followed by one numbered block per pair. The
  English file keeps the English cues verbatim; the Korean file takes the
  English start and end and the Korean text after typo correction.
 */
module FinalVtt {

  import opened Wrappers
  import opened Strings
  import opened VttParser
  import opened Typos
  import opened VttLines

  /** The decimal digit for `d`. */
  function DigitChar(d: nat): (c: char)
    requires d < 10
    ensures IsDigit(c) && (c as int) - ('0' as int) == d
  {
    (('0' as int) + d) as char
  }

  /** `str(n)` for a natural number: its decimal digits, without leading zeros. */
  function NatToString(n: nat): string
    decreases n
  {
    if n < 10 then [DigitChar(n)] else NatToString(n / 10) + [DigitChar(n % 10)]
  }

  /** The value of a string of decimal digits. */
  function DecimalValue(s: string): nat
    requires forall i :: 0 <= i < |s| ==> IsDigit(s[i])
    decreases |s|
  {
    if s == [] then 0
    else
      var last := s[|s| - 1];
      assert IsDigit(last);
      10 * DecimalValue(s[..|s| - 1]) + ((last as int) - ('0' as int))
  }

  /** The number of a block is written in decimal with no leading zero, and reading the
      digits back gives the number. */
  lemma {:induction false} NatToStringRoundTrip(n: nat)
    ensures IsDigitString(NatToString(n))
    ensures NatToString(n)[0] != '0' || n == 0
    ensures DecimalValue(NatToString(n)) == n
    decreases n
  {
    if n >= 10 {
      NatToStringRoundTrip(n / 10);
      var s := NatToString(n);
      assert s[..|s| - 1] == NatToString(n / 10);
    }
  }

  /** The header each output file starts with (All-in-One.py:83, 92). */
  const Header := "WEBVTT\n\n"

  /** One output block: its number, start, end and text. */
  datatype Block = Block(number: nat, start: string, end: string, text: string)

  /** The timing line of a block, without its line feed (All-in-One.py:87, 99). */
  function TimingLine(b: Block): string {
    b.start + Separator + b.end
  }

  /** The three writes of one block (All-in-One.py:86-88, 98-100). */
  function BlockText(b: Block): string {
    NatToString(b.number) + "\n" + TimingLine(b) + "\n" + b.text + "\n\n"
  }

  /** The blocks written one after another. */
  function BlocksText(blocks: seq<Block>): string
    decreases |blocks|
  {
    if blocks == [] then "" else BlocksText(blocks[..|blocks| - 1]) + BlockText(blocks[|blocks| - 1])
  }

  lemma {:induction false} BlocksTextAppend(a: seq<Block>, b: seq<Block>)
    ensures BlocksText(a + b) == BlocksText(a) + BlocksText(b)
    decreases |b|
  {
    if b == [] {
      assert a + b == a;
    } else {
      assert (a + b)[..|a + b| - 1] == a + b[..|b| - 1];
      BlocksTextAppend(a, b[..|b| - 1]);
    }
  }

  /** A whole output file. */
  function FileText(blocks: seq<Block>): (r: string)
    ensures |r| >= |Header| && r[..|Header|] == Header
  {
    Header + BlocksText(blocks)
  }

  /** Writing one more block appends its text. */
  lemma FileTextSnoc(blocks: seq<Block>, i: nat)
    requires i < |blocks|
    ensures FileText(blocks[..i + 1]) == FileText(blocks[..i]) + BlockText(blocks[i])
  {
    assert blocks[..i + 1][..i] == blocks[..i];
  }

  function Min(a: nat, b: nat): nat {
    if a <= b then a else b
  }

  /** `num_synced_cues` (All-in-One.py:77). */
  function SyncedCount(en: seq<CueData>, kr: seq<CueData>): nat {
    Min(|en|, |kr|)
  }

  /** The blocks of the English file (All-in-One.py:84-88). */
  function EnglishBlocks(en: seq<CueData>, kr: seq<CueData>): seq<Block> {
    seq(SyncedCount(en, kr), i requires 0 <= i < SyncedCount(en, kr) =>
      Block(i + 1, en[i].start, en[i].end, en[i].text))
  }

  /** The blocks of the Korean file (All-in-One.py:93-100). */
  function KoreanBlocks(en: seq<CueData>, kr: seq<CueData>): seq<Block> {
    seq(SyncedCount(en, kr), i requires 0 <= i < SyncedCount(en, kr) =>
      Block(i + 1, en[i].start, en[i].end, Corrected(kr[i].text)))
  }

  /** Both files hold exactly `min(|en|, |kr|)` blocks, numbered 1 to n in order. */
  lemma BlockCounts(en: seq<CueData>, kr: seq<CueData>)
    ensures |EnglishBlocks(en, kr)| == |KoreanBlocks(en, kr)| == Min(|en|, |kr|)
    ensures |EnglishBlocks(en, kr)| <= |en| && |EnglishBlocks(en, kr)| <= |kr|
    ensures |EnglishBlocks(en, kr)| == |en| || |EnglishBlocks(en, kr)| == |kr|
    ensures forall i :: 0 <= i < |EnglishBlocks(en, kr)| ==>
      EnglishBlocks(en, kr)[i].number == i + 1 && KoreanBlocks(en, kr)[i].number == i + 1
  {
  }

  /** Block i of the English file is English cue i verbatim; block i of the Korean file has
      the same start and end, so the i-th timing lines of the two files are identical, and
      the corrected text of Korean cue i. */
  lemma BlocksPairByIndex(en: seq<CueData>, kr: seq<CueData>, i: nat)
    requires i < Min(|en|, |kr|)
    ensures var e, k := EnglishBlocks(en, kr)[i], KoreanBlocks(en, kr)[i];
      && (e.start, e.end, e.text) == (en[i].start, en[i].end, en[i].text)
      && TimingLine(k) == TimingLine(e)
      && k.text == Corrected(kr[i].text)
      && !Contains(k.text, Typo)
  {
    CorrectedHasNoTypo(kr[i].text);
  }

  /** Cues beyond the shorter track are dropped: appending cues to the longer track changes
      neither file. */
  lemma ExtraCuesDropped(en: seq<CueData>, kr: seq<CueData>, extra: seq<CueData>)
    ensures |en| >= |kr| ==>
      EnglishBlocks(en + extra, kr) == EnglishBlocks(en, kr) && KoreanBlocks(en + extra, kr) == KoreanBlocks(en, kr)
    ensures |kr| >= |en| ==>
      EnglishBlocks(en, kr + extra) == EnglishBlocks(en, kr) && KoreanBlocks(en, kr + extra) == KoreanBlocks(en, kr)
  {
    if |en| >= |kr| {
      assert forall i :: 0 <= i < |kr| ==> (en + extra)[i] == en[i];
    }
    if |kr| >= |en| {
      assert forall i :: 0 <= i < |en| ==> (kr + extra)[i] == kr[i];
    }
  }

  /** The contents of the two output files. */
  datatype Output = Output(english: string, korean: string)

  /** The two files written from two parse results; nothing when either is `None`
      (All-in-One.py:73-75). */
  function FinalFiles(en: Option<seq<CueData>>, kr: Option<seq<CueData>>): (r: Option<Output>)
    ensures r.None? <==> en.None? || kr.None?
  {
    if en.None? || kr.None? then None
    else Some(Output(FileText(EnglishBlocks(en.value, kr.value)), FileText(KoreanBlocks(en.value, kr.value))))
  }

  /** The two files differ only through the Korean track: the same track on both sides,
      with no typo in it, gives two identical files. */
  lemma IdenticalTracksIdenticalFiles(cues: seq<CueData>)
    requires forall i :: 0 <= i < |cues| ==> !Contains(cues[i].text, Typo)
    ensures FinalFiles(Some(cues), Some(cues)).value.english == FinalFiles(Some(cues), Some(cues)).value.korean
  {
    forall i | 0 <= i < |cues| ensures Corrected(cues[i].text) == cues[i].text {
      NoTypoUnchanged(cues[i].text);
    }
    assert EnglishBlocks(cues, cues) == KoreanBlocks(cues, cues);
  }

  /** The English half of the writing loop (All-in-One.py:82-88): the header, then one
      block per synced cue, from the English cue objects. */
  method WriteEnglish(enList: seq<Cue>, ghost en: seq<CueData>, ghost kr: seq<CueData>, n: nat)
    returns (english: string)
    requires Snapshot(enList) == en && n == SyncedCount(en, kr)
    ensures english == FileText(EnglishBlocks(en, kr))
  {
    english := Header;
    for i := 0 to n
      invariant english == FileText(EnglishBlocks(en, kr)[..i])
    {
      var cue := enList[i];
      var block := Block(i + 1, cue.start, cue.end, cue.text);
      assert block == EnglishBlocks(en, kr)[i];
      FileTextSnoc(EnglishBlocks(en, kr), i);
      english := english + BlockText(block);
    }
    assert EnglishBlocks(en, kr)[..n] == EnglishBlocks(en, kr);
  }

  /** The Korean half of the writing loop (All-in-One.py:91-100): the header, then one
      block per synced cue, timed by the English cue and worded by the corrected Korean one. */
  method WriteKorean(enList: seq<Cue>, krList: seq<Cue>, ghost en: seq<CueData>, ghost kr: seq<CueData>, n: nat)
    returns (korean: string)
    requires Snapshot(enList) == en && Snapshot(krList) == kr && n == SyncedCount(en, kr)
    ensures korean == FileText(KoreanBlocks(en, kr))
  {
    korean := Header;
    for i := 0 to n
      invariant korean == FileText(KoreanBlocks(en, kr)[..i])
    {
      var enTimestampCue, krTextCue := enList[i], krList[i];
      var correctedKrText := CorrectKoreanTypos(krTextCue.text);
      var block := Block(i + 1, enTimestampCue.start, enTimestampCue.end, correctedKrText);
      assert block == KoreanBlocks(en, kr)[i];
      FileTextSnoc(KoreanBlocks(en, kr), i);
      korean := korean + BlockText(block);
    }
    assert KoreanBlocks(en, kr)[..n] == KoreanBlocks(en, kr);
  }

  /** `create_final_vtt_files` with the file reads given as `Option`s and the two writes
      returned as contents: parse both files, stop if either is missing, and build both
      files block by block. */
  method CreateFinalVttFiles(enFile: Option<seq<string>>, krFile: Option<seq<string>>) returns (out: Option<Output>)
    ensures out == FinalFiles(ParseFile(enFile), ParseFile(krFile))
  {
    var enCues := CleanAndParseVtt(enFile);
    var krCues := CleanAndParseVtt(krFile);
    if enCues.None? || krCues.None? {
      return None;
    }
    var enList, krList := enCues.value, krCues.value;
    ghost var en, kr := Snapshot(enList), Snapshot(krList);
    var n := Min(|enList|, |krList|);
    var english := WriteEnglish(enList, en, kr, n);
    var korean := WriteKorean(enList, krList, en, kr, n);
    out := Some(Output(english, korean));
  }
}

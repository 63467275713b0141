/** The timed-text records that flow through the dubbing pipeline: words from
    the transcriber, sentence segments, bilingual (original + translated)
    segments and synthesised speech clips. Times are seconds. */
module Media {
  import opened Wrappers
  import opened Text
  import Seqs

  /** One transcribed word and its time span. */
  datatype Word = Word(text: string, start: real, end: real)

  /** A run of words shown and spoken together. Segments read back from a
      subtitle file carry no words. */
  datatype Segment = Segment(text: string, words: seq<Word>, startTime: real, endTime: real)

  /** The transcriber's output: full text, timed words, optional language and
      duration (the duration is kept as a plain optional number). */
  datatype TranscriptionResult = TranscriptionResult(text: string, words: seq<Word>,
                                                     hasLanguage: bool, hasDuration: bool)

  /** A segment with its original and translated text. */
  datatype BilingualSegment = BilingualSegment(original: string, translated: string,
                                               startTime: real, endTime: real)

  /** A synthesised clip placed on the timeline; `audioPath` is filled once the
      clip file exists. */
  datatype TTSSegment = TTSSegment(index: int, text: string, startTime: real, endTime: real,
                                   audioPath: Option<string>)

  function WordTexts(ws: seq<Word>): (r: seq<string>)
    ensures |r| == |ws| && forall i :: 0 <= i < |ws| ==> r[i] == ws[i].text
  {
    seq(|ws|, i requires 0 <= i < |ws| => ws[i].text)
  }

  function WordCount(t: TranscriptionResult): nat {
    |t.words|
  }

  predicate Within(w: Word, from: real, to: real) {
    w.start >= from && w.end <= to
  }

  /** The test a word inside [from, to] passes. */
  function InRange(from: real, to: real): Word -> bool {
    w => Within(w, from, to)
  }

  /** The words lying completely inside [from, to], in transcript order:
      each such word is kept as often as it occurs, at the positions
      `Seqs.Positions` lists, and no other word is kept. */
  function WordsWithin(ws: seq<Word>, from: real, to: real): (r: seq<Word>)
    ensures |r| <= |ws|
    ensures forall i :: 0 <= i < |r| ==> r[i] in ws && Within(r[i], from, to)
    ensures forall i :: 0 <= i < |ws| && Within(ws[i], from, to) ==> ws[i] in r
    ensures forall w :: w in ws && Within(w, from, to) <==> w in r
    ensures var idx := Seqs.Positions(ws, InRange(from, to), 0);
      |r| == |idx| && forall k :: 0 <= k < |idx| ==> r[k] == ws[idx[k]]
    ensures forall w :: multiset(r)[w] == if Within(w, from, to) then multiset(ws)[w] else 0
  {
    var p := InRange(from, to);
    assert ws[0..] == ws;
    Seqs.FilterAtPositions(ws, p, 0);
    Seqs.FilterCounts(ws, p);
    Seqs.FilterKeeps(ws, p);
    Seqs.Filter(ws, p)
  }

  /** `text(from:to:)`: the texts of the words inside the range, joined by
      single spaces. */
  function TextWithin(t: TranscriptionResult, from: real, to: real): string {
    Join(WordTexts(WordsWithin(t.words, from, to)), " ")
  }

  /** A range that holds every word gives back the words' texts joined. */
  lemma TextWithinAll(ws: seq<Word>, from: real, to: real)
    requires forall i :: 0 <= i < |ws| ==> Within(ws[i], from, to)
    ensures WordsWithin(ws, from, to) == ws
    ensures TextWithin(TranscriptionResult("", ws, false, false), from, to) == Join(WordTexts(ws), " ")
  {
    Seqs.FilterAll(ws, InRange(from, to));
  }

  /** A range that holds no word gives the empty text. */
  lemma TextWithinNone(ws: seq<Word>, from: real, to: real)
    requires forall i :: 0 <= i < |ws| ==> !Within(ws[i], from, to)
    ensures WordsWithin(ws, from, to) == []
    ensures TextWithin(TranscriptionResult("", ws, false, false), from, to) == ""
  {
    Seqs.FilterNone(ws, InRange(from, to));
  }

  function SegmentDuration(s: Segment): real {
    s.endTime - s.startTime
  }

  function BilingualDuration(b: BilingualSegment): real {
    b.endTime - b.startTime
  }

  function ClipDuration(c: TTSSegment): real {
    c.endTime - c.startTime
  }

  /** `segment_%03d.mp3` for the clip's index. */
  function ExpectedFilename(index: int): string {
    "segment_" + FormatInt(index, 3) + ".mp3"
  }

  /** Distinct non-negative clip indices get distinct file names, so clips
      never overwrite each other. */
  lemma ExpectedFilenameInjective(i: nat, j: nat)
    requires ExpectedFilename(i) == ExpectedFilename(j)
    ensures i == j
  {
    var a := FormatInt(i, 3);
    var b := FormatInt(j, 3);
    var na := ExpectedFilename(i);
    assert |a| == |b|;
    assert a == na[8..8 + |a|];
    assert b == ExpectedFilename(j)[8..8 + |b|];
    ParseFormatInt(i, 3);
    ParseFormatInt(j, 3);
  }

  /** Indices 0 to 999 give names of exactly fifteen characters. */
  lemma ExpectedFilenameLength(i: nat)
    requires i < 1000
    ensures |ExpectedFilename(i)| == 15
  {
    var d := NatToString(i);
    if i >= 100 {
      assert d == NatToString(i / 10) + [DigitChar(i % 10)];
      assert NatToString(i / 10) == NatToString(i / 100) + [DigitChar((i / 10) % 10)];
    } else if i >= 10 {
      assert d == NatToString(i / 10) + [DigitChar(i % 10)];
    }
  }
}

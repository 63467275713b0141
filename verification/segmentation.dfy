/** Grouping transcribed words into subtitle-sized segments
    (SentenceSegmentationService). Words are visited in order; each is added
    to the open segment and the break rule decides whether to close it there.
    The last word always closes the open segment. */
module Segmentation {
  import opened Wrappers
  import opened Text
  import opened Media

  const MaxWordsPerSegment: nat := 15
  const MaxDurationPerSegment: real := 7.0
  const MinPauseDuration: real := 0.5

  /** Which break rule applies: fixed-length windows, or the dynamic rule
      (word count, duration, sentence punctuation, pause). */
  datatype Policy = Policy(useFixedDuration: bool, fixedDuration: real)

  /** The service's own settings when none are given. */
  const DefaultPolicy := Policy(false, 7.0)

  /** The policy one call uses: each override that is present replaces the
      service's setting. */
  function EffectivePolicy(service: Policy, useFixed: Option<bool>, fixed: Option<real>): (p: Policy)
    ensures useFixed.None? ==> p.useFixedDuration == service.useFixedDuration
    ensures useFixed.Some? ==> p.useFixedDuration == useFixed.value
    ensures fixed.None? ==> p.fixedDuration == service.fixedDuration
    ensures fixed.Some? ==> p.fixedDuration == fixed.value
  {
    Policy(useFixed.GetOr(service.useFixedDuration), fixed.GetOr(service.fixedDuration))
  }

  /** The word, trimmed of spaces and tabs, ends with `.`, `!` or `?`. */
  predicate EndsSentence(text: string) {
    var t := Trim(text, Whitespace);
    HasSuffix(t, ".") || HasSuffix(t, "!") || HasSuffix(t, "?")
  }

  /** The break rule, evaluated right after the last word of `current` was
      added; `next` is the word after it, if there is one. */
  predicate ShouldBreak(current: seq<Word>, next: Option<Word>, p: Policy)
    requires |current| > 0
  {
    var word := current[|current| - 1];
    var duration := word.end - current[0].start;
    if p.useFixedDuration then duration >= p.fixedDuration
    else
      |current| >= MaxWordsPerSegment
      || duration >= MaxDurationPerSegment
      || EndsSentence(word.text)
      || (next.Some? && next.value.start - word.end >= MinPauseDuration)
  }

  /** The segment made from a non-empty run of words. */
  function MakeSegment(ws: seq<Word>): Segment
    requires |ws| > 0
  {
    Segment(Join(WordTexts(ws), " "), ws, ws[0].start, ws[|ws| - 1].end)
  }

  /** All words of the segments, in order. */
  function Flatten(segs: seq<Segment>): seq<Word>
    decreases |segs|
  {
    if |segs| == 0 then [] else segs[0].words + Flatten(segs[1..])
  }

  lemma {:induction false} FlattenAppend(segs: seq<Segment>, s: Segment)
    ensures Flatten(segs + [s]) == Flatten(segs) + s.words
    decreases |segs|
  {
    if |segs| == 0 {
      assert Flatten([s]) == s.words + Flatten([]);
    } else {
      assert (segs + [s])[1..] == segs[1..] + [s];
      FlattenAppend(segs[1..], s);
    }
  }

  /** Every segment is non-empty and carries the text and times of its words. */
  predicate WellFormed(segs: seq<Segment>) {
    forall k :: 0 <= k < |segs| ==> |segs[k].words| > 0 && segs[k] == MakeSegment(segs[k].words)
  }

  /** The rule holds after the `j`-th word of `ws`, where a `j+1`-th word
      follows. */
  predicate EarlyBreakAt(ws: seq<Word>, j: int, p: Policy) {
    0 < j < |ws| && ShouldBreak(ws[..j], Some(ws[j]), p)
  }

  /** No segment could have been closed earlier: the rule held at none of its
      words but the last. */
  ghost predicate NoEarlyBreak(segs: seq<Segment>, p: Policy) {
    forall k, j :: 0 <= k < |segs| ==> !EarlyBreakAt(segs[k].words, j, p)
  }

  /** Every segment but the last was closed by the rule, seeing the first word
      of the following segment as the next word. */
  predicate BreaksBetween(segs: seq<Segment>, p: Policy)
    requires WellFormed(segs)
  {
    forall k :: 0 <= k < |segs| - 1 ==> ShouldBreak(segs[k].words, Some(segs[k + 1].words[0]), p)
  }

  /** `segs` is a segmentation of `words` under the break rule. */
  ghost predicate IsSegmentation(words: seq<Word>, segs: seq<Segment>, p: Policy) {
    Flatten(segs) == words && WellFormed(segs) && NoEarlyBreak(segs, p) && BreaksBetween(segs, p)
  }

  function NextWord(words: seq<Word>, i: nat): Option<Word> {
    if i + 1 < |words| then Some(words[i + 1]) else None
  }

  /** What holds each time the loop is about to visit `words[i]`: `done` are
      the closed segments and `current` the words of the open one. */
  ghost predicate ScanInvariant(words: seq<Word>, p: Policy, i: nat, done: seq<Segment>, current: seq<Word>) {
    i <= |words|
    && Flatten(done) + current == words[..i]
    && WellFormed(done) && NoEarlyBreak(done, p) && BreaksBetween(done, p)
    && (forall j :: !EarlyBreakAt(current, j, p))
    && (|current| > 0 ==> i < |words| && !ShouldBreak(current, Some(words[i]), p))
    && (|done| > 0 && i < |words| ==>
          ShouldBreak(done[|done| - 1].words, Some(if |current| > 0 then current[0] else words[i]), p))
    && (i == |words| ==> current == [])
  }

  /** Visiting `words[i]` and closing the open segment there keeps the
      invariant, provided the rule holds or it is the last word. */
  lemma CloseStep(words: seq<Word>, p: Policy, i: nat, done: seq<Segment>, current: seq<Word>)
    requires ScanInvariant(words, p, i, done, current) && i < |words|
    requires ShouldBreak(current + [words[i]], NextWord(words, i), p) || i == |words| - 1
    ensures ScanInvariant(words, p, i + 1, done + [MakeSegment(current + [words[i]])], [])
  {
    var cur := current + [words[i]];
    var s := MakeSegment(cur);
    var done' := done + [s];
    assert words[..i + 1] == words[..i] + [words[i]];
    FlattenAppend(done, s);
    CurrentExtended(words, p, i, current);
    ClosedAppend(done, cur, p);
  }

  /** Closing a non-empty segment without an early break, after a closed
      segment whose break rule sees its first word, keeps the closed segments
      well formed and correctly broken. */
  lemma ClosedAppend(done: seq<Segment>, cur: seq<Word>, p: Policy)
    requires |cur| > 0 && WellFormed(done) && NoEarlyBreak(done, p) && BreaksBetween(done, p)
    requires forall j :: !EarlyBreakAt(cur, j, p)
    requires |done| > 0 ==> ShouldBreak(done[|done| - 1].words, Some(cur[0]), p)
    ensures var done' := done + [MakeSegment(cur)];
      WellFormed(done') && NoEarlyBreak(done', p) && BreaksBetween(done', p)
  {
    var done' := done + [MakeSegment(cur)];
    assert WellFormed(done');
    forall k, j | 0 <= k < |done'|
      ensures !EarlyBreakAt(done'[k].words, j, p)
    {
      if k < |done| { assert done'[k] == done[k]; }
    }
    forall k | 0 <= k < |done'| - 1
      ensures ShouldBreak(done'[k].words, Some(done'[k + 1].words[0]), p)
    {
      if k < |done| - 1 { assert done'[k] == done[k] && done'[k + 1] == done[k + 1]; }
    }
  }

  /** Adding `words[i]` to the open segment creates no early break. */
  lemma CurrentExtended(words: seq<Word>, p: Policy, i: nat, current: seq<Word>)
    requires i < |words|
    requires forall j :: !EarlyBreakAt(current, j, p)
    requires |current| > 0 ==> !ShouldBreak(current, Some(words[i]), p)
    ensures forall j :: !EarlyBreakAt(current + [words[i]], j, p)
  {
    var cur := current + [words[i]];
    forall j ensures !EarlyBreakAt(cur, j, p) {
      if 0 < j < |current| {
        assert cur[..j] == current[..j] && cur[j] == current[j];
        assert !EarlyBreakAt(current, j, p);
      } else if j == |current| > 0 {
        assert cur[..j] == current;
      }
    }
  }

  /** Visiting `words[i]` without closing keeps the invariant. */
  lemma ContinueStep(words: seq<Word>, p: Policy, i: nat, done: seq<Segment>, current: seq<Word>)
    requires ScanInvariant(words, p, i, done, current) && i < |words|
    requires !ShouldBreak(current + [words[i]], NextWord(words, i), p) && i != |words| - 1
    ensures ScanInvariant(words, p, i + 1, done, current + [words[i]])
  {
    var cur := current + [words[i]];
    assert words[..i + 1] == words[..i] + [words[i]];
    assert Flatten(done) + cur == words[..i + 1];
    CurrentExtended(words, p, i, current);
    assert i + 1 < |words| && !ShouldBreak(cur, Some(words[i + 1]), p);
    assert |done| > 0 ==> ShouldBreak(done[|done| - 1].words, Some(cur[0]), p);
  }

  /** The loop of `segment(words:)` from position `i` on. */
  function Scan(words: seq<Word>, p: Policy, i: nat, done: seq<Segment>, current: seq<Word>): (segs: seq<Segment>)
    requires ScanInvariant(words, p, i, done, current)
    ensures IsSegmentation(words, segs, p)
    decreases |words| - i
  {
    if i == |words| then
      assert words[..i] == words;
      done
    else
      var cur := current + [words[i]];
      if ShouldBreak(cur, NextWord(words, i), p) || i == |words| - 1 then
        CloseStep(words, p, i, done, current);
        Scan(words, p, i + 1, done + [MakeSegment(cur)], [])
      else
        ContinueStep(words, p, i, done, current);
        Scan(words, p, i + 1, done, cur)
  }

  /** `segment(words:)`: no words give no segments; otherwise the segments
      partition the words under the break rule. */
  function SegmentWords(words: seq<Word>, p: Policy): (segs: seq<Segment>)
    ensures IsSegmentation(words, segs, p)
    ensures |segs| == 0 <==> |words| == 0
    ensures |segs| <= |words|
  {
    var segs := Scan(words, p, 0, [], []);
    SegmentCountBound(segs);
    segs
  }

  lemma {:induction false} SegmentCountBound(segs: seq<Segment>)
    requires WellFormed(segs)
    ensures |segs| <= |Flatten(segs)|
    ensures |segs| > 0 ==> |Flatten(segs)| > 0
    decreases |segs|
  {
    if |segs| > 0 {
      SegmentCountBound(segs[1..]);
    }
  }

  // ---------------------------------------------------------------------------
  // The segmentation is determined by the rule

  lemma SuffixIsSegmentation(words: seq<Word>, segs: seq<Segment>, p: Policy)
    requires IsSegmentation(words, segs, p) && |segs| > 0
    ensures |segs[0].words| <= |words| && words[..|segs[0].words|] == segs[0].words
    ensures IsSegmentation(words[|segs[0].words|..], segs[1..], p)
  {
    var n := |segs[0].words|;
    assert words == segs[0].words + Flatten(segs[1..]);
    assert words[n..] == Flatten(segs[1..]);
    var rest := segs[1..];
    assert forall k :: 0 <= k < |rest| ==> rest[k] == segs[k + 1];
  }

  /** At most one segmentation satisfies the rule, so `SegmentWords` is the
      segmentation of its input. */
  lemma {:induction false} SegmentationUnique(words: seq<Word>, a: seq<Segment>, b: seq<Segment>, p: Policy)
    requires IsSegmentation(words, a, p) && IsSegmentation(words, b, p)
    ensures a == b
    decreases |words|
  {
    SegmentCountBound(a);
    SegmentCountBound(b);
    if |a| > 0 && |b| > 0 {
      SuffixIsSegmentation(words, a, p);
      SuffixIsSegmentation(words, b, p);
      var na := |a[0].words|;
      var nb := |b[0].words|;
      if na < nb {
        FirstBreakAgrees(words, a, b, p);
      } else if nb < na {
        FirstBreakAgrees(words, b, a, p);
      }
      assert a[0].words == b[0].words;
      SegmentationUnique(words[na..], a[1..], b[1..], p);
      assert a == [a[0]] + a[1..] && b == [b[0]] + b[1..];
    }
  }

  /** The first segment of a segmentation is a prefix of the words at none of
      whose inner positions the rule holds. */
  lemma FirstSegmentRule(words: seq<Word>, segs: seq<Segment>, p: Policy)
    requires IsSegmentation(words, segs, p) && |segs| > 0
    ensures |segs[0].words| <= |words|
    ensures forall j :: 0 < j < |segs[0].words| ==> !EarlyBreakAt(words, j, p)
  {
    SuffixIsSegmentation(words, segs, p);
    var w := segs[0].words;
    forall j | 0 < j < |w| ensures !EarlyBreakAt(words, j, p) {
      assert words[..j] == w[..j] && words[j] == w[j];
      assert !EarlyBreakAt(w, j, p);
    }
  }

  /** The first segment of a segmentation that does not hold every word ends
      where the rule holds, seeing the following word. */
  lemma FirstSegmentCloses(words: seq<Word>, segs: seq<Segment>, p: Policy)
    requires IsSegmentation(words, segs, p) && |segs| > 0
    requires |segs[0].words| < |words|
    ensures EarlyBreakAt(words, |segs[0].words|, p)
  {
    var n := |segs[0].words|;
    SuffixIsSegmentation(words, segs, p);
    SegmentCountBound(segs[1..]);
    assert Flatten(segs) == segs[0].words + Flatten(segs[1..]);
    assert |segs| > 1;
    assert segs[1].words[0] == Flatten(segs[1..])[0] == words[n];
    assert ShouldBreak(segs[0].words, Some(segs[1].words[0]), p);
  }

  /** The first segment of one segmentation is never a proper prefix of the
      first segment of another. */
  lemma FirstBreakAgrees(words: seq<Word>, a: seq<Segment>, b: seq<Segment>, p: Policy)
    requires IsSegmentation(words, a, p) && IsSegmentation(words, b, p)
    requires |a| > 0 && |b| > 0
    ensures |a[0].words| >= |b[0].words|
  {
    var na := |a[0].words|;
    var nb := |b[0].words|;
    FirstSegmentRule(words, b, p);
    SuffixIsSegmentation(words, a, p);
    if na < |words| {
      FirstSegmentCloses(words, a, p);
    }
  }

  // ---------------------------------------------------------------------------
  // Consequences of the rule

  /** Dynamic mode never makes a segment of more than fifteen words. */
  lemma DynamicSegmentsAtMost15(words: seq<Word>, p: Policy, k: nat)
    requires !p.useFixedDuration
    requires k < |SegmentWords(words, p)|
    ensures |SegmentWords(words, p)[k].words| <= MaxWordsPerSegment
  {
    var s := SegmentWords(words, p)[k];
    assert !EarlyBreakAt(s.words, MaxWordsPerSegment, p);
  }

  /** Dynamic mode: every word of a segment but its last ends less than seven
      seconds after the segment starts; only the closing word can reach past. */
  lemma DynamicEarlyWordsWithin7s(words: seq<Word>, p: Policy, k: nat, j: nat)
    requires !p.useFixedDuration
    requires k < |SegmentWords(words, p)|
    requires j + 1 < |SegmentWords(words, p)[k].words|
    ensures SegmentWords(words, p)[k].words[j].end - SegmentWords(words, p)[k].startTime < MaxDurationPerSegment
  {
    var s := SegmentWords(words, p)[k];
    assert !EarlyBreakAt(s.words, j + 1, p);
  }

  /** Fixed mode: every segment but the last spans at least the fixed
      duration, and no word but a segment's last reaches it. */
  lemma FixedWindows(words: seq<Word>, p: Policy, k: nat)
    requires p.useFixedDuration
    requires k < |SegmentWords(words, p)|
    ensures var segs := SegmentWords(words, p);
      (k + 1 < |segs| ==> segs[k].endTime - segs[k].startTime >= p.fixedDuration)
      && (forall j :: 0 <= j < |segs[k].words| - 1 ==>
            segs[k].words[j].end - segs[k].startTime < p.fixedDuration)
  {
    var segs := SegmentWords(words, p);
    assert segs[k] == MakeSegment(segs[k].words);
    if k + 1 < |segs| {
      assert ShouldBreak(segs[k].words, Some(segs[k + 1].words[0]), p);
    }
    forall j | 0 <= j < |segs[k].words| - 1
      ensures segs[k].words[j].end - segs[k].startTime < p.fixedDuration
    {
      assert !EarlyBreakAt(segs[k].words, j + 1, p);
    }
  }

  /** A pause of half a second or more after a word always ends its segment
      in dynamic mode. */
  lemma DynamicBreaksAtPause(words: seq<Word>, p: Policy, k: nat, j: nat)
    requires !p.useFixedDuration
    requires k < |SegmentWords(words, p)|
    requires j + 1 < |SegmentWords(words, p)[k].words|
    ensures SegmentWords(words, p)[k].words[j + 1].start - SegmentWords(words, p)[k].words[j].end < MinPauseDuration
  {
    var s := SegmentWords(words, p)[k];
    assert !EarlyBreakAt(s.words, j + 1, p);
  }

  const ExampleWords := [Word("Hello", 0.0, 0.4), Word("world.", 0.5, 1.0), Word("Next", 1.2, 1.5)]

  lemma ExampleBreaks()
    ensures !ShouldBreak(ExampleWords[..1], Some(ExampleWords[1]), DefaultPolicy)
    ensures ShouldBreak(ExampleWords[..2], Some(ExampleWords[2]), DefaultPolicy)
  {
    TrimKeeps("Hello", Whitespace);
    TrimKeeps("world.", Whitespace);
    assert !EndsSentence("Hello");
    assert EndsSentence("world.");
  }

  lemma ExampleIsSegmentation()
    ensures IsSegmentation(ExampleWords,
                           [MakeSegment(ExampleWords[..2]), MakeSegment(ExampleWords[2..])], DefaultPolicy)
  {
    var segs := [MakeSegment(ExampleWords[..2]), MakeSegment(ExampleWords[2..])];
    ExampleFlattens(segs);
    ExampleNoEarlyBreak(segs);
    ExampleBreaks();
    assert WellFormed(segs);
    assert BreaksBetween(segs, DefaultPolicy);
  }

  lemma ExampleFlattens(segs: seq<Segment>)
    requires segs == [MakeSegment(ExampleWords[..2]), MakeSegment(ExampleWords[2..])]
    ensures Flatten(segs) == ExampleWords
  {
    assert Flatten(segs[1..]) == ExampleWords[2..] + Flatten([]);
    assert ExampleWords[..2] + ExampleWords[2..] == ExampleWords;
  }

  lemma ExampleNoEarlyBreak(segs: seq<Segment>)
    requires segs == [MakeSegment(ExampleWords[..2]), MakeSegment(ExampleWords[2..])]
    ensures NoEarlyBreak(segs, DefaultPolicy)
  {
    ExampleBreaks();
    forall k, j | 0 <= k < 2
      ensures !EarlyBreakAt(segs[k].words, j, DefaultPolicy)
    {
      if k == 0 && j == 1 {
        assert segs[0].words[..1] == ExampleWords[..1];
      }
    }
  }

  /** Two words, the second ending a sentence, then a third: the sentence and
      the third word become two segments. */
  lemma SentenceExample()
    ensures SegmentWords(ExampleWords, DefaultPolicy)
         == [Segment("Hello world.", ExampleWords[..2], 0.0, 1.0), Segment("Next", ExampleWords[2..], 1.2, 1.5)]
  {
    ExampleSegments();
    ExampleTexts();
  }

  lemma ExampleSegments()
    ensures SegmentWords(ExampleWords, DefaultPolicy)
         == [MakeSegment(ExampleWords[..2]), MakeSegment(ExampleWords[2..])]
  {
    ExampleIsSegmentation();
    var expected := [MakeSegment(ExampleWords[..2]), MakeSegment(ExampleWords[2..])];
    SegmentationUnique(ExampleWords, SegmentWords(ExampleWords, DefaultPolicy), expected, DefaultPolicy);
  }

  lemma ExampleTexts()
    ensures MakeSegment(ExampleWords[..2]) == Segment("Hello world.", ExampleWords[..2], 0.0, 1.0)
    ensures MakeSegment(ExampleWords[2..]) == Segment("Next", ExampleWords[2..], 1.2, 1.5)
  {
    assert ExampleWords[..2] == [Word("Hello", 0.0, 0.4), Word("world.", 0.5, 1.0)];
    assert ExampleWords[2..] == [Word("Next", 1.2, 1.5)];
    assert Join(WordTexts(ExampleWords[..2]), " ") == "Hello world.";
    assert Join(WordTexts(ExampleWords[2..]), " ") == "Next";
  }
}

/** What reading a written subtitle document gives back: every cue, in
    order, with its text and with its times truncated to the format's
    resolution (milliseconds for SRT and WebVTT, centiseconds for ASS). */
module SubtitleRoundTrip {
  import opened Wrappers
  import opened Seqs
  import opened Text
  import opened Paths
  import opened Media
  import opened Domain
  import opened SubtitleWriter
  import opened SubtitleReader
  import Repository

  // ---------------------------------------------------------------------------
  // Time stamps

  /** A time as a document keeps it: truncated to whole units of 1/`scale`
      second. */
  function Truncated(t: real, scale: real): real
    requires scale > 0.0
  {
    (t * scale).Floor as real / scale
  }

  /** Truncation loses less than one unit, and nothing from a time that is a
      whole number of units. */
  lemma TruncationBounds(t: real, scale: real)
    requires scale > 0.0
    ensures Truncated(t, scale) <= t < Truncated(t, scale) + 1.0 / scale
    ensures (t * scale).Floor as real == t * scale ==> Truncated(t, scale) == t
  {
    var f := (t * scale).Floor as real;
    var r := Truncated(t, scale);
    assert r * scale == f;
    assert f <= t * scale < f + 1.0;
    assert (r - t) * scale == f - t * scale;
    assert (r + 1.0 / scale - t) * scale == f + 1.0 - t * scale;
  }

  /** The characters of a printed time stamp: digits, colons and the
      fraction separator, with a digit at both ends. */
  predicate StampText(s: string, sep: char) {
    |s| > 0 && IsDigit(s[0]) && IsDigit(s[|s| - 1])
    && forall i :: 0 <= i < |s| ==> IsDigit(s[i]) || s[i] == ':' || s[i] == sep
  }

  /** A clock with no negative field prints as zero-padded digit groups. */
  lemma StampFields(c: Clock, hw: nat, sep: char, fw: nat)
    requires c.hours >= 0 && c.minutes >= 0 && c.seconds >= 0 && c.fraction >= 0
    ensures Stamp(c, hw, sep, fw) == ZeroPad(c.hours, hw) + [':'] + ZeroPad(c.minutes, 2) + [':']
                                     + ZeroPad(c.seconds, 2) + [sep] + ZeroPad(c.fraction, fw)
    ensures StampText(Stamp(c, hw, sep, fw), sep)
  {
    var h, m, s, f := ZeroPad(c.hours, hw), ZeroPad(c.minutes, 2), ZeroPad(c.seconds, 2), ZeroPad(c.fraction, fw);
    ZeroPadLength(c.hours, hw);
    ZeroPadLength(c.fraction, fw);
    var x := h + [':'] + m + [':'] + s + [sep] + f;
    forall i | 0 <= i < |x| ensures IsDigit(x[i]) || x[i] == ':' || x[i] == sep {
      if i < |h| {
        assert x[i] == h[i];
      } else if i == |h| {
        assert x[i] == ':';
      } else if i < |h| + 1 + |m| + 1 + |s| + 1 {
        var y := m + [':'] + s + [sep];
        assert x[i] == y[i - |h| - 1];
      } else {
        assert x[i] == f[i - (|x| - |f|)];
      }
    }
    assert x[|x| - 1] == f[|f| - 1];
  }

  /** Splitting three pieces joined by separator characters. */
  lemma SplitThree(a: string, x: char, b: string, y: char, c: string, seps: set<char>)
    requires x in seps && y in seps
    requires NoneIn(a, seps) && NoneIn(b, seps) && NoneIn(c, seps)
    ensures SplitAny(a + [x] + b + [y] + c, seps) == [a, b, c]
  {
    SplitAnyNone(c, seps);
    SplitAnyHead(b, y, c, seps);
    SplitAnyHead(a, x, b + [y] + c, seps);
    assert a + [x] + b + [y] + c == a + [x] + (b + [y] + c);
  }

  /** Splitting four pieces joined by separator characters. */
  lemma SplitFour(a: string, x: char, b: string, y: char, c: string, z: char, d: string, seps: set<char>)
    requires x in seps && y in seps && z in seps
    requires NoneIn(a, seps) && NoneIn(b, seps) && NoneIn(c, seps) && NoneIn(d, seps)
    ensures SplitAny(a + [x] + b + [y] + c + [z] + d, seps) == [a, b, c, d]
  {
    var t := b + [y] + c + [z] + d;
    SplitThree(b, y, c, z, d, seps);
    SplitAnyHead(a, x, t, seps);
    RegroupFour(a, x, b, y, c, z, d);
    assert [a] + [b, c, d] == [a, b, c, d];
  }

  lemma RegroupFour(a: string, x: char, b: string, y: char, c: string, z: char, d: string)
    ensures a + [x] + b + [y] + c + [z] + d == a + [x] + (b + [y] + c + [z] + d)
  {
  }

  /** Digits are never separators or line breaks. */
  lemma DigitsAvoid(s: string)
    requires AllDigits(s)
    ensures NoneIn(s, {':', ',', '.', '\n', '\r', ' ', '\t', '-', '{', '}', '\\'})
  {
  }

  /** The value of a non-negative clock's fields is the time truncated to
      the clock's unit. */
  lemma ClockValue(t: real, scale: nat)
    requires t >= 0.0 && scale > 0
    ensures var c := ClockOf(t, scale);
      TimeValue(c.hours, c.minutes, c.seconds, c.fraction, scale as real) == Truncated(t, scale as real)
  {
    var c := ClockOf(t, scale);
    ClockOfNonNegative(t, scale);
    var w, sr := Trunc(t), scale as real;
    assert TimeValue(c.hours, c.minutes, c.seconds, c.fraction, sr) == w as real + c.fraction as real / sr;
    assert Truncated(t, sr) == (w * scale + c.fraction) as real / sr;
    UnitsSplit(w, c.fraction, scale);
  }

  /** `w * scale + f` units of 1/`scale` second are `w` seconds and `f`
      units. */
  lemma UnitsSplit(w: int, f: int, scale: nat)
    requires scale > 0
    ensures (w * scale + f) as real / scale as real == w as real + f as real / scale as real
  {
    var k := scale as real;
    assert (w * scale + f) as real == w as real * k + f as real;
    assert (w as real + f as real / k) * k == w as real * k + f as real;
  }

  /** Reading an SRT time stamp gives the time truncated to milliseconds. */
  lemma SrtTimeRoundTrip(t: real)
    requires t >= 0.0
    ensures ParseSRTTime(FormatSRTTime(t)) == Some(Truncated(t, 1000.0))
    ensures StampText(FormatSRTTime(t), ',')
  {
    var c := ClockOf(t, 1000);
    ClockOfNonNegative(t, 1000);
    StampFields(c, 2, ',', 3);
    var h, m, s, f := ZeroPad(c.hours, 2), ZeroPad(c.minutes, 2), ZeroPad(c.seconds, 2), ZeroPad(c.fraction, 3);
    DigitsAvoid(h); DigitsAvoid(m); DigitsAvoid(s); DigitsAvoid(f);
    SplitFour(h, ':', m, ':', s, ',', f, {':', ','});
    ZeroPadValue(c.hours, 2); ZeroPadValue(c.minutes, 2); ZeroPadValue(c.seconds, 2); ZeroPadValue(c.fraction, 3);
    ClockValue(t, 1000);
  }

  /** Reading a WebVTT time stamp gives the time truncated to milliseconds. */
  lemma VttTimeRoundTrip(t: real)
    requires t >= 0.0
    ensures ParseVTTTime(FormatVTTTime(t)) == Some(Truncated(t, 1000.0))
    ensures StampText(FormatVTTTime(t), '.')
  {
    var c := ClockOf(t, 1000);
    ClockOfNonNegative(t, 1000);
    StampFields(c, 2, '.', 3);
    var h, m, s, f := ZeroPad(c.hours, 2), ZeroPad(c.minutes, 2), ZeroPad(c.seconds, 2), ZeroPad(c.fraction, 3);
    DigitsAvoid(h); DigitsAvoid(m); DigitsAvoid(s); DigitsAvoid(f);
    var hms := h + [':'] + m + [':'] + s;
    assert NoneIn(hms, {'.'});
    SplitAnyNone(f, {'.'});
    SplitAnyHead(hms, '.', f, {'.'});
    SplitThree(h, ':', m, ':', s, {':'});
    ZeroPadValue(c.hours, 2); ZeroPadValue(c.minutes, 2); ZeroPadValue(c.seconds, 2); ZeroPadValue(c.fraction, 3);
    ClockValue(t, 1000);
  }

  /** Reading an ASS time stamp gives the time truncated to centiseconds. */
  lemma AssTimeRoundTrip(t: real)
    requires t >= 0.0
    ensures ParseASSTime(FormatASSTime(t)) == Some(Truncated(t, 100.0))
    ensures StampText(FormatASSTime(t), '.')
  {
    var c := ClockOf(t, 100);
    ClockOfNonNegative(t, 100);
    StampFields(c, 0, '.', 2);
    var h, m, s, f := ZeroPad(c.hours, 0), ZeroPad(c.minutes, 2), ZeroPad(c.seconds, 2), ZeroPad(c.fraction, 2);
    DigitsAvoid(h); DigitsAvoid(m); DigitsAvoid(s); DigitsAvoid(f);
    SplitFour(h, ':', m, ':', s, '.', f, {':', '.'});
    ZeroPadValue(c.hours, 0); ZeroPadValue(c.minutes, 2); ZeroPadValue(c.seconds, 2); ZeroPadValue(c.fraction, 2);
    ClockValue(t, 100);
  }

  // ---------------------------------------------------------------------------
  // Time lines

  /** A space next to a stamp is trimmed away again. */
  lemma TrimSpaced(x: string)
    requires |x| > 0 && x[0] !in Whitespace && x[|x| - 1] !in Whitespace
    ensures Trim(x + " ", Whitespace) == x && Trim(" " + x, Whitespace) == x
  {
    var a, b := x + " ", " " + x;
    assert a[0] == x[0] && a[|a| - 1] == ' ' && a[..|a| - 1] == x;
    assert TrimStart(a, Whitespace) == a;
    assert TrimEnd(x, Whitespace) == x;
    assert b[0] == ' ' && b[1..] == x;
    assert TrimStart(x, Whitespace) == x;
  }

  /** A stamp with a space on either side has no `-`. */
  lemma NoDash(x: string, sep: char)
    requires StampText(x, sep) && (sep == ',' || sep == '.')
    ensures '-' !in x + " " && '-' !in " " + x
  {
    var a, b := x + " ", " " + x;
    forall i | 0 <= i < |a| ensures a[i] != '-' {
      if i < |x| { assert a[i] == x[i]; }
    }
    forall i | 0 <= i < |b| ensures b[i] != '-' {
      if i > 0 { assert b[i] == x[i - 1]; }
    }
  }

  /** A time line splits on the arrow into the two stamps, each with its
      space. */
  lemma TimeLineSplit(s1: string, s2: string, sep: char)
    requires StampText(s1, sep) && StampText(s2, sep) && (sep == ',' || sep == '.')
    ensures SplitOn(s1 + " --> " + s2, "-->") == [s1 + " ", " " + s2]
  {
    var a, b := s1 + " ", " " + s2;
    assert s1 + " --> " + s2 == a + "-->" + b;
    NoDash(s1, sep);
    NoDash(s2, sep);
    AvoidsFirstChar(a, "-->");
    AvoidsFirstChar(b, "-->");
    SplitOnNone(b, "-->");
    SplitOnHead(a, "-->", b);
  }

  /** A time line is one line with a digit at both ends. */
  lemma TimeLineChars(s1: string, s2: string, sep: char)
    requires StampText(s1, sep) && StampText(s2, sep) && (sep == ',' || sep == '.')
    ensures var tl := s1 + " --> " + s2;
      |tl| > 0 && IsDigit(tl[0]) && IsDigit(tl[|tl| - 1]) && NoneIn(tl, {'\n', '\r'})
  {
    var tl := s1 + " --> " + s2;
    forall i | 0 <= i < |tl| ensures tl[i] != '\n' && tl[i] != '\r' {
      if i < |s1| {
        assert tl[i] == s1[i];
      } else if i >= |s1| + 5 {
        assert tl[i] == s2[i - |s1| - 5];
      }
    }
    assert tl[|tl| - 1] == s2[|s2| - 1];
  }

  /** A time line of two printed stamps reads as the two stamps' times. */
  lemma TimeLine(s1: string, s2: string, sep: char, parse: string -> Option<real>)
    requires StampText(s1, sep) && StampText(s2, sep) && (sep == ',' || sep == '.')
    requires parse(s1).Some? && parse(s2).Some?
    ensures var tl := s1 + " --> " + s2;
      |tl| > 0 && IsDigit(tl[0]) && IsDigit(tl[|tl| - 1]) && NoneIn(tl, {'\n', '\r'})
      && Contains(tl, "-->")
      && TimeRange(tl, parse) == Success((parse(s1).value, parse(s2).value))
  {
    var tl := s1 + " --> " + s2;
    TimeLineChars(s1, s2, sep);
    TimeLineSplit(s1, s2, sep);
    TrimSpaced(s1);
    TrimSpaced(s2);
    SplitOnTwo(tl, "-->");
  }

  // ---------------------------------------------------------------------------
  // Blocks

  /** Lines with no blank line between them and no line break at the end. */
  predicate SingleBreaks(x: string) {
    |x| > 0 && x[|x| - 1] != '\n'
    && forall i :: 0 <= i < |x| - 1 ==> !(x[i] == '\n' && x[i + 1] == '\n')
  }

  /** A string whose first two characters are not both line breaks does
      not start with a blank line. */
  lemma NoBlankLineStart(y: string)
    requires |y| >= 2 && !(y[0] == '\n' && y[1] == '\n')
    ensures !StartsWith(y, "\n\n")
  {
    assert y[..2][0] == y[0] && y[..2][1] == y[1];
  }

  /** A blank line cannot start inside such lines. */
  lemma SingleBreaksSeparate(x: string)
    requires SingleBreaks(x)
    ensures SepOnlyAfter(x, "\n\n")
  {
    forall i | 0 <= i < |x| ensures !StartsWith(x[i..] + "\n\n", "\n\n") {
      var y := x[i..] + "\n\n";
      assert y[0] == x[i];
      if i < |x| - 1 {
        assert y[1] == x[i + 1];
      }
      NoBlankLineStart(y);
    }
  }

  /** One line that is not empty. */
  lemma OneLineBlock(b: string)
    requires |b| > 0 && NoneIn(b, {'\n'})
    ensures SingleBreaks(b)
  {
  }

  /** A further line that is not empty keeps the lines free of blank ones. */
  lemma AddLine(a: string, b: string)
    requires a == "" || SingleBreaks(a)
    requires |b| > 0 && NoneIn(b, {'\n'})
    ensures SingleBreaks(a + "\n" + b)
  {
    var x := a + "\n" + b;
    assert x[|x| - 1] == b[|b| - 1];
    forall i | 0 <= i < |x| - 1 ensures !(x[i] == '\n' && x[i + 1] == '\n') {
      if i < |a| - 1 {
        assert x[i] == a[i] && x[i + 1] == a[i + 1];
      } else if i == |a| - 1 {
        assert x[i] == a[i];
      } else if i == |a| {
        assert x[i + 1] == b[0];
      } else {
        assert x[i] == b[i - |a| - 1];
      }
    }
  }

  /** A block with a visible character is not blank. */
  lemma NotBlankAt(x: string, i: nat)
    requires i < |x| && x[i] !in WhitespaceAndNewlines
    ensures NotBlank(x)
  {
    TrimEmptyIff(x, WhitespaceAndNewlines);
  }

  /** An empty document has no blocks. */
  lemma NoBlocks()
    ensures Blocks("") == []
  {
    assert SplitOn("", "\n\n") == [""];
    assert !NotBlank("");
  }

  /** The first block, followed by a blank line, comes first. */
  lemma BlocksHead(x: string, rest: string)
    requires SingleBreaks(x) && NotBlank(x)
    ensures Blocks(x + "\n\n" + rest) == [x] + Blocks(rest)
  {
    SingleBreaksSeparate(x);
    SplitOnHead(x, "\n\n", rest);
    FilterAppend([x], SplitOn(rest, "\n\n"), NotBlank);
    assert Filter([x], NotBlank) == [x];
  }

  /** A block that reads as a cue puts that cue in front of the cues of
      the blocks after it. */
  lemma CollectCons(block: string, blocks: seq<string>, parse: string -> Result<Option<Segment>, ParsingError>,
                    cue: Segment, cues: seq<Segment>)
    requires parse(block) == Success(Some(cue)) && Collect(blocks, parse) == Success(cues)
    ensures Collect([block] + blocks, parse) == Success([cue] + cues)
  {
    assert ([block] + blocks)[1..] == blocks;
  }

  // ---------------------------------------------------------------------------
  // What is read back

  /** Times the writers print without a sign. */
  predicate NonNegativeTimes(segs: seq<BilingualSegment>) {
    forall i :: 0 <= i < |segs| ==> segs[i].startTime >= 0.0 && segs[i].endTime >= 0.0
  }

  /** A cue text an SRT or WebVTT reader gives back unchanged: one line, not
      empty, with no space or tab at either end. */
  predicate OneLine(text: string) {
    |text| > 0 && '\n' !in text && text[0] !in Whitespace && text[|text| - 1] !in Whitespace
  }

  predicate OneLineTexts(segs: seq<BilingualSegment>, useTranslated: bool) {
    forall i :: 0 <= i < |segs| ==> OneLine(CueText(segs[i], useTranslated))
  }

  /** The cue a segment should read back as, its times kept to 1/`scale`
      second. */
  function ReadCue(s: BilingualSegment, useTranslated: bool, scale: real): Segment
    requires scale > 0.0
  {
    Segment(CueText(s, useTranslated), [], Truncated(s.startTime, scale), Truncated(s.endTime, scale))
  }

  /** The restrictions hold for the first segment and for the rest. */
  lemma OneLineSplit(segs: seq<BilingualSegment>, useTranslated: bool)
    requires |segs| > 0 && NonNegativeTimes(segs) && OneLineTexts(segs, useTranslated)
    ensures segs[0].startTime >= 0.0 && segs[0].endTime >= 0.0 && OneLine(CueText(segs[0], useTranslated))
    ensures NonNegativeTimes(segs[1..]) && OneLineTexts(segs[1..], useTranslated)
  {
    assert forall i :: 0 <= i < |segs| - 1 ==> segs[1..][i] == segs[i + 1];
  }

  /** The cues segments should read back as. */
  function ReadBack(segs: seq<BilingualSegment>, useTranslated: bool, scale: real): (r: seq<Segment>)
    requires scale > 0.0
    ensures |r| == |segs|
  {
    seq(|segs|, i requires 0 <= i < |segs| => ReadCue(segs[i], useTranslated, scale))
  }

  /** The first segment's cue comes first. */
  lemma ReadBackCons(segs: seq<BilingualSegment>, useTranslated: bool, scale: real)
    requires |segs| > 0 && scale > 0.0
    ensures ReadBack(segs, useTranslated, scale)
            == [ReadCue(segs[0], useTranslated, scale)] + ReadBack(segs[1..], useTranslated, scale)
  {
    assert forall i :: 1 <= i < |segs| ==> segs[1..][i - 1] == segs[i];
  }

  /** The lines of a block that are all kept: none is empty and none has a
      space or tab at either end. */
  lemma KeptLines(block: string, lines: seq<string>)
    requires SplitAny(block, {'\n'}) == lines
    requires forall i :: 0 <= i < |lines| ==> |lines[i]| > 0 && lines[i][0] !in Whitespace
                                              && lines[i][|lines[i]| - 1] !in Whitespace
    ensures CueLines(block) == lines
  {
    forall i | 0 <= i < |lines| ensures Trim(lines[i], Whitespace) == lines[i] {
      TrimKeeps(lines[i], Whitespace);
    }
    assert TrimEach(lines) == lines;
    NonEmptyKeeps(lines);
  }

  // ---------------------------------------------------------------------------
  // SRT

  /** A line that is not empty and has a digit at both ends. */
  predicate DigitEdged(line: string) {
    |line| > 0 && IsDigit(line[0]) && IsDigit(line[|line| - 1]) && NoneIn(line, {'\n'})
  }

  /** Concatenation regrouped around a time line. */
  lemma Regroup(a: string, b: string, c: string, d: string, e: string, f: string, g: string)
    ensures a + b + c + d + e + f + g == a + b + (c + d + e) + f + g
  {
  }

  /** Two lines and a text line make one block of exactly those lines. */
  lemma ThreeLineBlock(a: string, tl: string, x: string)
    requires DigitEdged(a) && DigitEdged(tl) && OneLine(x)
    ensures var b := a + "\n" + tl + "\n" + x;
      SingleBreaks(b) && NotBlank(b) && CueLines(b) == [a, tl, x]
  {
    var b := a + "\n" + tl + "\n" + x;
    OneLineBlock(a);
    AddLine(a, tl);
    AddLine(a + "\n" + tl, x);
    NotBlankAt(b, 0);
    SplitThree(a, '\n', tl, '\n', x, {'\n'});
    KeptLines(b, [a, tl, x]);
  }

  /** One written SRT cue is one block, and it reads back as its segment. */
  lemma SrtCueReads(number: nat, s: BilingualSegment, useTranslated: bool)
    requires s.startTime >= 0.0 && s.endTime >= 0.0 && OneLine(CueText(s, useTranslated))
    ensures SingleBreaks(SrtCue(number, s, useTranslated)) && NotBlank(SrtCue(number, s, useTranslated))
    ensures SrtBlock(SrtCue(number, s, useTranslated)) == Success(Some(ReadCue(s, useTranslated, 1000.0)))
  {
    var n := NatToString(number);
    var s1, s2 := FormatSRTTime(s.startTime), FormatSRTTime(s.endTime);
    SrtTimeRoundTrip(s.startTime);
    SrtTimeRoundTrip(s.endTime);
    var tl := s1 + " --> " + s2;
    TimeLine(s1, s2, ',', ParseSRTTime);
    var x := CueText(s, useTranslated);
    DigitsAvoid(n);
    ThreeLineBlock(n, tl, x);
    Regroup(n, "\n", s1, " --> ", s2, "\n", x);
    ZeroPadValue(number, 0);
    assert [n, tl, x][2..] == [x];
  }

  /** SRT cues numbered from `number` read back as their segments. */
  lemma {:induction false} SrtCuesRead(segs: seq<BilingualSegment>, number: nat, useTranslated: bool)
    requires NonNegativeTimes(segs) && OneLineTexts(segs, useTranslated)
    ensures Collect(Blocks(SrtCuesFrom(segs, number, useTranslated)), SrtBlock)
            == Success(ReadBack(segs, useTranslated, 1000.0))
    decreases |segs|
  {
    if |segs| == 0 {
      NoBlocks();
    } else {
      var cue := SrtCue(number, segs[0], useTranslated);
      var rest := SrtCuesFrom(segs[1..], number + 1, useTranslated);
      OneLineSplit(segs, useTranslated);
      assert SrtCuesFrom(segs, number, useTranslated) == cue + "\n\n" + rest;
      SrtCueReads(number, segs[0], useTranslated);
      BlocksHead(cue, rest);
      SrtCuesRead(segs[1..], number + 1, useTranslated);
      CollectCons(cue, Blocks(rest), SrtBlock, ReadCue(segs[0], useTranslated, 1000.0),
                  ReadBack(segs[1..], useTranslated, 1000.0));
      ReadBackCons(segs, useTranslated, 1000.0);
    }
  }

  /** An SRT document reads back as its segments: every cue, in order, with
      its text and its times truncated to milliseconds. */
  lemma SrtRoundTrip(segs: seq<BilingualSegment>, useTranslated: bool)
    requires NonNegativeTimes(segs) && OneLineTexts(segs, useTranslated)
    ensures ParseSRT(SrtContent(segs, useTranslated)) == Success(ReadBack(segs, useTranslated, 1000.0))
  {
    SrtCuesRead(segs, 1, useTranslated);
  }

  // ---------------------------------------------------------------------------
  // WebVTT

  /** A time line and a text line make one block of exactly those lines,
      also after a leading line break. */
  lemma TwoLineBlock(tl: string, x: string)
    requires DigitEdged(tl) && OneLine(x)
    ensures var b := tl + "\n" + x;
      SingleBreaks(b) && NotBlank(b) && CueLines(b) == [tl, x]
    ensures var b := "\n" + tl + "\n" + x;
      SingleBreaks(b) && NotBlank(b) && CueLines(b) == [tl, x]
  {
    TwoLines(tl, x);
    TwoLinesAfterBreak(tl, x);
  }

  lemma TwoLines(tl: string, x: string)
    requires DigitEdged(tl) && OneLine(x)
    ensures var b := tl + "\n" + x;
      SingleBreaks(b) && NotBlank(b) && CueLines(b) == [tl, x]
  {
    var b := tl + "\n" + x;
    OneLineBlock(tl);
    AddLine(tl, x);
    NotBlankAt(b, 0);
    SplitAnyNone(x, {'\n'});
    SplitAnyHead(tl, '\n', x, {'\n'});
    KeptLines(b, [tl, x]);
  }

  lemma TwoLinesAfterBreak(tl: string, x: string)
    requires DigitEdged(tl) && OneLine(x)
    ensures var b := "\n" + tl + "\n" + x;
      SingleBreaks(b) && NotBlank(b) && CueLines(b) == [tl, x]
  {
    var c := "\n" + tl + "\n" + x;
    OneLineBlock(tl);
    assert "" + "\n" + tl == "\n" + tl;
    AddLine("", tl);
    AddLine("\n" + tl, x);
    NotBlankAt(c, 1);
    SplitThree("", '\n', tl, '\n', x, {'\n'});
    assert TrimEach(["", tl, x]) == ["", tl, x] by {
      TrimKeeps(tl, Whitespace);
      TrimKeeps(x, Whitespace);
    }
    NonEmptyKeeps([tl, x]);
    assert ["", tl, x][1..] == [tl, x];
  }

  /** A WebVTT cue is its time line and its text line. */
  lemma VttCueLines(s: BilingualSegment, useTranslated: bool)
    requires s.startTime >= 0.0 && s.endTime >= 0.0 && OneLine(CueText(s, useTranslated))
    ensures var tl := FormatVTTTime(s.startTime) + " --> " + FormatVTTTime(s.endTime);
      DigitEdged(tl) && VttCue(s, useTranslated) == tl + "\n" + CueText(s, useTranslated)
      && TimeRange(tl, ParseVTTTime) == Success((Truncated(s.startTime, 1000.0), Truncated(s.endTime, 1000.0)))
  {
    var s1, s2 := FormatVTTTime(s.startTime), FormatVTTTime(s.endTime);
    VttTimeRoundTrip(s.startTime);
    VttTimeRoundTrip(s.endTime);
    TimeLine(s1, s2, '.', ParseVTTTime);
  }

  /** A line break in front of a string made of three pieces. */
  lemma LeadingBreak(b: string, x: string, sep: string, y: string)
    requires b == x + sep + y
    ensures "\n" + b == ("\n" + x) + sep + y
  {
  }

  /** The block of a time line and a text line reads back as that cue. */
  lemma VttTwoLines(b: string, tl: string, x: string, cue: Segment)
    requires CueLines(b) == [tl, x] && Contains(tl, "-->")
    requires cue.text == x && cue.words == []
    requires TimeRange(tl, ParseVTTTime) == Success((cue.startTime, cue.endTime))
    ensures VttBlock(b) == Success(Some(cue))
  {
    assert [tl, x][1..] == [x];
  }

  /** One written WebVTT cue is one block that reads back as its segment. */
  lemma VttCueReads(s: BilingualSegment, useTranslated: bool)
    requires s.startTime >= 0.0 && s.endTime >= 0.0 && OneLine(CueText(s, useTranslated))
    ensures var b := VttCue(s, useTranslated);
      SingleBreaks(b) && NotBlank(b) && VttBlock(b) == Success(Some(ReadCue(s, useTranslated, 1000.0)))
  {
    var tl := FormatVTTTime(s.startTime) + " --> " + FormatVTTTime(s.endTime);
    VttCueLines(s, useTranslated);
    SplitOnTwo(tl, "-->");
    TwoLineBlock(tl, CueText(s, useTranslated));
    VttTwoLines(VttCue(s, useTranslated), tl, CueText(s, useTranslated), ReadCue(s, useTranslated, 1000.0));
  }

  /** So is the first cue, which follows a leading line break. */
  lemma VttFirstCueReads(s: BilingualSegment, useTranslated: bool)
    requires s.startTime >= 0.0 && s.endTime >= 0.0 && OneLine(CueText(s, useTranslated))
    ensures var b := "\n" + VttCue(s, useTranslated);
      SingleBreaks(b) && NotBlank(b) && VttBlock(b) == Success(Some(ReadCue(s, useTranslated, 1000.0)))
  {
    var tl := FormatVTTTime(s.startTime) + " --> " + FormatVTTTime(s.endTime);
    VttCueLines(s, useTranslated);
    SplitOnTwo(tl, "-->");
    TwoLineBlock(tl, CueText(s, useTranslated));
    LeadingBreak(VttCue(s, useTranslated), tl, "\n", CueText(s, useTranslated));
    VttTwoLines("\n" + VttCue(s, useTranslated), tl, CueText(s, useTranslated), ReadCue(s, useTranslated, 1000.0));
  }

  /** WebVTT cues read back as their segments. */
  lemma {:induction false} VttCuesRead(segs: seq<BilingualSegment>, useTranslated: bool)
    requires NonNegativeTimes(segs) && OneLineTexts(segs, useTranslated)
    ensures Collect(Blocks(VttCues(segs, useTranslated)), VttBlock) == Success(ReadBack(segs, useTranslated, 1000.0))
    decreases |segs|
  {
    if |segs| == 0 {
      NoBlocks();
    } else {
      var cue := VttCue(segs[0], useTranslated);
      var rest := VttCues(segs[1..], useTranslated);
      OneLineSplit(segs, useTranslated);
      assert VttCues(segs, useTranslated) == cue + "\n\n" + rest;
      VttCueReads(segs[0], useTranslated);
      BlocksHead(cue, rest);
      VttCuesRead(segs[1..], useTranslated);
      CollectCons(cue, Blocks(rest), VttBlock, ReadCue(segs[0], useTranslated, 1000.0),
                  ReadBack(segs[1..], useTranslated, 1000.0));
      ReadBackCons(segs, useTranslated, 1000.0);
    }
  }

  /** The reader drops the `WEBVTT` line the writer puts first; the blank
      line after it stays as a leading line break. */
  lemma VttBodyAfterHeader(v: string)
    ensures VttBody("WEBVTT\n\n" + v) == "\n" + v
  {
    assert "WEBVTT\n\n" + v == "WEBVTT" + ['\n'] + ("" + ['\n'] + v);
    SplitAnyHead("", '\n', v, {'\n'});
    SplitAnyHead("WEBVTT", '\n', "" + ['\n'] + v, {'\n'});
    var lines := SplitAny("WEBVTT\n\n" + v, {'\n'});
    assert lines == ["WEBVTT", ""] + SplitAny(v, {'\n'});
    assert Upper("WEBVTT") == "WEBVTT";
    assert lines[1..] == [""] + SplitAny(v, {'\n'});
    JoinSplit(v, '\n');
  }

  /** A lone line break holds no block. */
  lemma NoBlocksInBreak()
    ensures Blocks("\n") == []
  {
    assert "\n"[1..] == "";
    var r := SplitOn("\n"[1..], "\n\n");
    assert r == [""];
    assert !StartsWith("\n", "\n\n");
    assert r[0] == "" && r[1..] == [];
    assert ['\n'] + r[0] == "\n";
    assert SplitOn("\n", "\n\n") == ["\n"];
    assert Trim("\n", WhitespaceAndNewlines) == "";
  }

  /** A WebVTT document reads back as its segments: every cue, in order,
      with its text and its times truncated to milliseconds. */
  lemma VttRoundTrip(segs: seq<BilingualSegment>, useTranslated: bool)
    requires NonNegativeTimes(segs) && OneLineTexts(segs, useTranslated)
    ensures ParseVTT(VttContent(segs, useTranslated)) == Success(ReadBack(segs, useTranslated, 1000.0))
  {
    VttBodyAfterHeader(VttCues(segs, useTranslated));
    VttBlocksRead(segs, useTranslated);
  }

  /** The blocks after the header read back as every cue. */
  lemma VttBlocksRead(segs: seq<BilingualSegment>, useTranslated: bool)
    requires NonNegativeTimes(segs) && OneLineTexts(segs, useTranslated)
    ensures Collect(Blocks("\n" + VttCues(segs, useTranslated)), VttBlock) == Success(ReadBack(segs, useTranslated, 1000.0))
  {
    if |segs| == 0 {
      NoBlocksInBreak();
    } else {
      var cue := VttCue(segs[0], useTranslated);
      var rest := VttCues(segs[1..], useTranslated);
      OneLineSplit(segs, useTranslated);
      LeadingBreak(VttCues(segs, useTranslated), cue, "\n\n", rest);
      VttFirstCueReads(segs[0], useTranslated);
      BlocksHead("\n" + cue, rest);
      VttCuesRead(segs[1..], useTranslated);
      CollectCons("\n" + cue, Blocks(rest), VttBlock, ReadCue(segs[0], useTranslated, 1000.0),
                  ReadBack(segs[1..], useTranslated, 1000.0));
      ReadBackCons(segs, useTranslated, 1000.0);
    }
  }

  // ---------------------------------------------------------------------------
  // ASS text

  /** A cue text the ASS reader gives back unchanged: no override braces,
      no backslash, and no whitespace or line break at either end. Inner
      line breaks are allowed, and so is the empty text. */
  predicate AssPlain(text: string) {
    NoneIn(text, {'{', '}', '\\'})
    && (|text| > 0 ==> text[0] !in WhitespaceAndNewlines && text[|text| - 1] !in WhitespaceAndNewlines)
  }

  predicate AssPlainTexts(segs: seq<BilingualSegment>, useTranslated: bool) {
    forall i :: 0 <= i < |segs| ==> AssPlain(CueText(segs[i], useTranslated))
  }

  /** Unescaping `\N` undoes the writer's escaping of line breaks in a text
      without backslashes. */
  lemma {:induction false} UnescapeEscape(t: string)
    requires '\\' !in t
    ensures ReplaceAll(AssEscape(t), "\\N", "\n") == t
    decreases |t|
  {
    if |t| > 0 {
      assert '\\' !in t[1..];
      UnescapeEscape(t[1..]);
      var r := AssEscape(t[1..]);
      if t[0] == '\n' {
        assert StartsWith(t, "\n");
        assert t[1..] == t[|"\n"|..];
        assert AssEscape(t) == "\\N" + r;
        assert ("\\N" + r)[2..] == r;
        assert StartsWith("\\N" + r, "\\N");
        assert t == "\n" + t[1..];
      } else {
        assert !StartsWith(t, "\n") by { assert t[..1][0] == t[0]; }
        var w := [t[0]] + r;
        assert AssEscape(t) == w;
        assert !StartsWith(w, "\\N") by {
          if |w| >= 2 { assert w[..2][0] == w[0]; }
        }
        assert w[1..] == r;
        assert t == [t[0]] + t[1..];
      }
    }
  }

  /** Escaping keeps the last character when it is not a line break. */
  lemma {:induction false} EscapeLast(t: string)
    requires |t| > 0 && t[|t| - 1] != '\n'
    ensures var e := AssEscape(t); |e| > 0 && e[|e| - 1] == t[|t| - 1]
    decreases |t|
  {
    var r := AssEscape(t[1..]);
    if |t| == 1 {
      assert !StartsWith(t, "\n") by { assert t[..1][0] == t[0]; }
      assert AssEscape(t) == [t[0]] + r;
    } else {
      EscapeLast(t[1..]);
      assert t[1..][|t| - 2] == t[|t| - 1];
      if StartsWith(t, "\n") {
        assert t[1..] == t[|"\n"|..];
        assert AssEscape(t) == "\\N" + r;
      } else {
        assert AssEscape(t) == [t[0]] + r;
      }
    }
  }

  /** What escaping a plain text gives: no braces, no line break, and the
      same characters at both ends. */
  lemma EscapeFacts(t: string)
    requires AssPlain(t)
    ensures var e := AssEscape(t);
      NoneIn(e, {'{', '}', '\n'})
      && (|t| == 0 ==> e == "")
      && (|t| > 0 ==> |e| > 0 && e[0] == t[0] && e[|e| - 1] == t[|t| - 1])
  {
    var e := AssEscape(t);
    ReplaceCharGone(t, '\n', "\\N");
    ReplaceNoneIn(t, "\n", "\\N", {'{', '}'});
    if |t| > 0 {
      EscapeLast(t);
      assert !StartsWith(t, "\n") by { assert t[..1][0] == t[0]; }
      assert e == [t[0]] + AssEscape(t[1..]);
    }
  }

  /** The reader's cleaning gives a written plain text back. */
  lemma CleanEscaped(t: string)
    requires AssPlain(t)
    ensures CleanASSText(AssEscape(t)) == t
  {
    var e := AssEscape(t);
    EscapeFacts(t);
    assert StripOverrides(e, false) == e;
    UnescapeEscape(t);
    AvoidsFirstChar(t, "\\n");
    ReplaceAbsent(t, "\\n", "\n");
    TrimKeeps(t, WhitespaceAndNewlines);
  }

  // ---------------------------------------------------------------------------
  // ASS Dialogue lines

  /** The reader's state inside the Events section with the default columns,
      which is where the writer's header leaves it. */
  const EventsState := AssState(true, 1, 2, 9)

  /** An ASS time stamp has none of the characters a Dialogue line treats
      specially. */
  lemma AssStampAvoids(x: string)
    requires StampText(x, '.')
    ensures NoneIn(x, {'\n', '\r', ',', ' ', '\t', '{', '}', '\\', '['})
  {
  }

  /** The fields the writer puts in a Dialogue line, for any two stamps and
      escaped text. */
  function FieldsOf(a: string, b: string, e: string): seq<string> {
    ["0", a, b, "Default", "", "0", "0", "0", "", e]
  }

  /** The same fields as the reader splits them: the space after
      `Dialogue:` stays on the first. */
  function SplitFields(a: string, b: string, e: string): seq<string> {
    [" 0", a, b, "Default", "", "0", "0", "0", "", e]
  }

  lemma SplitFieldsOf(a: string, b: string, e: string)
    ensures [" " + FieldsOf(a, b, e)[0]] + FieldsOf(a, b, e)[1..] == SplitFields(a, b, e)
  {
    var f, g := FieldsOf(a, b, e), SplitFields(a, b, e);
    var h := [" " + f[0]] + f[1..];
    assert |h| == |g|;
    forall i | 0 <= i < 10 ensures h[i] == g[i] {
      if i > 0 { assert h[i] == f[i]; }
    }
  }

  /** Only the text field may hold a comma, and no field a line break. */
  lemma FieldsFacts(a: string, b: string, e: string)
    requires StampText(a, '.') && StampText(b, '.') && NoneIn(e, {'\n'})
    ensures var f := FieldsOf(a, b, e);
      |f| == 10 && (forall i :: 0 <= i < 10 ==> NoneIn(f[i], {'\n'}))
      && (forall i :: 0 <= i < 9 ==> ',' !in f[i])
  {
    AssStampAvoids(a);
    AssStampAvoids(b);
  }

  /** A Dialogue line's fields after its prefix: the leading space stays on
      the first field, and the text field keeps its commas. */
  lemma DialogueSplit(f: seq<string>)
    requires |f| == 10 && forall i :: 0 <= i < 9 ==> ',' !in f[i]
    ensures SplitMax(" " + Join(f, ","), ',', 9) == [" " + f[0]] + f[1..]
  {
    var g := [" " + f[0]] + f[1..];
    PrependFirst(f, " ", ",");
    forall i | 0 <= i < |g| - 1
      ensures ',' !in g[i]
    {
      if i == 0 {
        NotInPrefixed(" ", f[0], ',');
      } else {
        assert g[i] == f[i];
      }
    }
    SplitMaxJoin(g, ',');
  }

  /** Text put before a join goes onto its first part. */
  lemma PrependFirst(f: seq<string>, x: string, sep: string)
    requires |f| >= 2
    ensures x + Join(f, sep) == Join([x + f[0]] + f[1..], sep)
  {
    var g := [x + f[0]] + f[1..];
    assert g[0] == x + f[0] && g[1..] == f[1..];
  }

  lemma NotInPrefixed(x: string, y: string, c: char)
    requires c !in x && c !in y
    ensures c !in x + y
  {
  }

  /** A line starting with `Dialogue: ` and ending in a visible character is
      read as a Dialogue line inside the Events section. */
  lemma DialoguePrefix(d: string, rest: string)
    requires d == "Dialogue: " + rest
    requires d[|d| - 1] !in WhitespaceAndNewlines
    ensures AssLine(d, EventsState) == (EventsState, SubtitleReader.AssDialogue(d[9..], EventsState))
  {
    TrimKeeps(d, WhitespaceAndNewlines);
    var low := Lower(d);
    assert d[0] == 'D';
    assert !HasPrefix(d, "[Events]") by { assert d[..8][0] == 'D'; }
    assert !HasPrefix(d, "[") by { assert d[..1][0] == 'D'; }
    assert !HasPrefix(low, "format:") by { assert low[..7][0] == low[0] == 'd'; }
    assert HasPrefix(low, "dialogue:") by {
      forall i | 0 <= i < 9 ensures low[..9][i] == "dialogue:"[i] {
        assert d[i] == "Dialogue:"[i];
      }
    }
  }

  /** A Dialogue line built from two stamps and an escaped text. */
  lemma DialogueOfFields(a: string, b: string, e: string, d: string)
    requires StampText(a, '.') && StampText(b, '.') && NoneIn(e, {'\n'})
    requires |e| > 0 ==> e[|e| - 1] !in WhitespaceAndNewlines
    requires d == "Dialogue: " + Join(FieldsOf(a, b, e), ",")
    ensures NoneIn(d, {'\n'})
    ensures AssLine(d, EventsState) == (EventsState, SubtitleReader.AssDialogue(d[9..], EventsState))
    ensures SplitMax(d[9..], ',', 9) == SplitFields(a, b, e)
  {
    var f := FieldsOf(a, b, e);
    FieldsFacts(a, b, e);
    var j := Join(f, ",");
    JoinNoneIn(f, ",", {'\n'});
    NoneInConcat("Dialogue: ", j, {'\n'});
    JoinEnd(f, ",");
    assert f[9] == e;
    assert d[|d| - 1] == j[|j| - 1];
    DialoguePrefix(d, j);
    assert d[9..] == " " + j;
    DialogueSplit(f);
    SplitFieldsOf(a, b, e);
  }

  /** Two strings without any of `cs` make one without any. */
  lemma NoneInConcat(x: string, y: string, cs: set<char>)
    requires NoneIn(x, cs) && NoneIn(y, cs)
    ensures NoneIn(x + y, cs)
  {
    assert forall i :: |x| <= i < |x + y| ==> (x + y)[i] == y[i - |x|];
  }

  /** A join of at least two parts ends with the last part, or with the
      separator when that part is empty. */
  lemma JoinEnd(parts: seq<string>, sep: string)
    requires |parts| >= 2 && |sep| > 0
    ensures var j := Join(parts, sep); var last := parts[|parts| - 1];
      |j| > 0 && j[|j| - 1] == if |last| > 0 then last[|last| - 1] else sep[|sep| - 1]
  {
    JoinSnoc(parts, sep);
  }

  /** The cue a Dialogue line with the default columns gives. */
  lemma DialogueCue(a: string, b: string, e: string, after: string)
    requires SplitMax(after, ',', 9) == SplitFields(a, b, e)
    requires StampText(a, '.') && StampText(b, '.')
    requires |e| > 0 ==> e[0] !in Whitespace && e[|e| - 1] !in Whitespace
    requires ParseASSTime(a).Some? && ParseASSTime(b).Some?
    ensures SubtitleReader.AssDialogue(after, EventsState)
            == Some(Segment(CleanASSText(e), [], ParseASSTime(a).value, ParseASSTime(b).value))
  {
    TrimKeeps(a, Whitespace);
    TrimKeeps(b, Whitespace);
    TrimKeeps(e, Whitespace);
  }

  /** One line the ASS writer emits for a segment reads back as its cue. */
  lemma DialogueLine(s: BilingualSegment, useTranslated: bool)
    requires s.startTime >= 0.0 && s.endTime >= 0.0 && AssPlain(CueText(s, useTranslated))
    ensures NoneIn(SubtitleWriter.AssDialogue(s, useTranslated), {'\n'})
    ensures AssLine(SubtitleWriter.AssDialogue(s, useTranslated), EventsState)
            == (EventsState, Some(ReadCue(s, useTranslated, 100.0)))
  {
    var t := CueText(s, useTranslated);
    var a, b, e := FormatASSTime(s.startTime), FormatASSTime(s.endTime), AssEscape(t);
    AssTimeRoundTrip(s.startTime);
    AssTimeRoundTrip(s.endTime);
    EscapeFacts(t);
    var d := SubtitleWriter.AssDialogue(s, useTranslated);
    assert DialogueFields(s, useTranslated) == FieldsOf(a, b, e);
    DialogueOfFields(a, b, e, d);
    DialogueCue(a, b, e, d[9..]);
    CleanEscaped(t);
  }

  /** The writer's Dialogue lines, each ending in a line break, read back as
      their cues inside the Events section. */
  lemma {:induction false} DialoguesRead(segs: seq<BilingualSegment>, useTranslated: bool)
    requires NonNegativeTimes(segs) && AssPlainTexts(segs, useTranslated)
    ensures AssRun(SplitAny(AssDialogues(segs, useTranslated), {'\n'}), EventsState)
            == (EventsState, ReadBack(segs, useTranslated, 100.0))
    decreases |segs|
  {
    if |segs| == 0 {
      assert SplitAny("", {'\n'}) == [""];
      assert Trim("", WhitespaceAndNewlines) == "";
      assert AssRun([""][1..], EventsState) == (EventsState, []);
    } else {
      var d := SubtitleWriter.AssDialogue(segs[0], useTranslated);
      var rest := AssDialogues(segs[1..], useTranslated);
      DialogueLine(segs[0], useTranslated);
      SplitAnyHead(d, '\n', rest, {'\n'});
      DialoguesRead(segs[1..], useTranslated);
      var lines := SplitAny(AssDialogues(segs, useTranslated), {'\n'});
      assert lines[0] == d && lines[1..] == SplitAny(rest, {'\n'});
      ReadBackCons(segs, useTranslated, 100.0);
    }
  }

  // ---------------------------------------------------------------------------
  // ASS header and document

  /** Reading lines one run after another is reading them together. */
  lemma {:induction false} AssRunAppend(a: seq<string>, b: seq<string>, st: AssState)
    ensures AssRun(a + b, st)
            == (AssRun(b, AssRun(a, st).0).0, AssRun(a, st).1 + AssRun(b, AssRun(a, st).0).1)
    decreases |a|
  {
    if |a| == 0 {
      assert a + b == b;
      assert AssRun(a, st) == (st, []);
      assert [] + AssRun(b, st).1 == AssRun(b, st).1;
    } else {
      assert (a + b)[0] == a[0] && (a + b)[1..] == a[1..] + b;
      var (st1, cue) := AssLine(a[0], st);
      var c := if cue.Some? then [cue.value] else [];
      AssRunAppend(a[1..], b, st1);
      var mid := AssRun(a[1..], st1);
      var end := AssRun(b, mid.0);
      assert AssRun(a + b, st) == (AssRun(a[1..] + b, st1).0, c + AssRun(a[1..] + b, st1).1);
      assert AssRun(a, st) == (mid.0, c + mid.1);
      assert c + (mid.1 + end.1) == (c + mid.1) + end.1;
    }
  }

  /** Column names that name Start, End and Text only where the state
      already has them leave the state as it is. */
  lemma {:induction false} WithColumnsKeep(columns: seq<string>, k: nat, st: AssState)
    requires forall j :: k <= j < |columns| ==>
      (columns[j] == "start" ==> j == st.startIndex) && (columns[j] == "end" ==> j == st.endIndex)
      && (columns[j] == "text" ==> j == st.textIndex)
    ensures WithColumns(columns, k, st) == st
    decreases |columns| - k
  {
    if k < |columns| {
      WithColumnsKeep(columns, k + 1, st);
    }
  }

  /** Each column name with a space in front. */
  function Spaced(parts: seq<string>): (r: seq<string>)
    ensures |r| == |parts| && forall i :: 0 <= i < |parts| ==> r[i] == " " + parts[i]
  {
    seq(|parts|, i requires 0 <= i < |parts| => " " + parts[i])
  }

  /** Joining with `", "` is joining with `","` the parts with a space in
      front, less the first space. */
  lemma {:induction false} SpacedJoin(parts: seq<string>)
    requires |parts| >= 1
    ensures " " + Join(parts, ", ") == Join(Spaced(parts), ",")
    decreases |parts|
  {
    if |parts| > 1 {
      SpacedJoin(parts[1..]);
      assert Spaced(parts)[1..] == Spaced(parts[1..]);
      assert ", " == "," + " ";
    }
  }

  /** Names joined with `", "` read back as those names, lower-cased. */
  lemma ColumnNamesOfJoin(parts: seq<string>)
    requires |parts| >= 1
    requires forall i :: 0 <= i < |parts| ==>
      |parts[i]| > 0 && NoneIn(parts[i], {','}) && parts[i][0] !in Whitespace && parts[i][|parts[i]| - 1] !in Whitespace
    ensures var names := ColumnNames(" " + Join(parts, ", "));
      |names| == |parts| && forall j :: 0 <= j < |parts| ==> names[j] == Lower(parts[j])
  {
    var sp := Spaced(parts);
    SpacedJoin(parts);
    forall i | 0 <= i < |sp| ensures NoneIn(sp[i], {','}) && sp[i] != "" {
      assert sp[i] == " " + parts[i];
    }
    SplitJoin(sp, ',', {','});
    NonEmptyKeeps(sp);
    forall j | 0 <= j < |parts| ensures Trim(sp[j], Whitespace) == parts[j] {
      TrimSpaced(parts[j]);
    }
  }

  /** The writer's Events columns, lower-cased as the reader names them. */
  lemma EventColumnNames()
    ensures var names := ColumnNames(" " + Join(EventColumns, ", "));
      |names| == 10
      && forall j :: 0 <= j < 10 ==> names[j] == Lower(EventColumns[j])
  {
    ColumnNamesOfJoin(EventColumns);
  }

  /** Only the second, third and last Events columns are Start, End and Text. */
  lemma EventColumnRoles()
    ensures forall j :: 0 <= j < 10 ==>
      (Lower(EventColumns[j]) == "start" ==> j == 1) && (Lower(EventColumns[j]) == "end" ==> j == 2)
      && (Lower(EventColumns[j]) == "text" ==> j == 9)
  {
    forall j | 0 <= j < 10
      ensures (Lower(EventColumns[j]) == "start" ==> j == 1) && (Lower(EventColumns[j]) == "end" ==> j == 2)
              && (Lower(EventColumns[j]) == "text" ==> j == 9)
    {
      var c := EventColumns[j];
      assert Lower(c)[0] == LowerChar(c[0]);
      if |c| > 1 { assert Lower(c)[1] == LowerChar(c[1]); }
      if |c| > 2 { assert Lower(c)[2] == LowerChar(c[2]); }
    }
  }

  /** Inside the Events section a `Format: ` line records the columns it
      names. */
  lemma FormatLineDispatch(j: string)
    requires |j| > 0 && j[|j| - 1] !in WhitespaceAndNewlines
    ensures AssLine("Format: " + j, EventsState) == (WithColumns(ColumnNames(" " + j), 0, EventsState), None)
  {
    var f := "Format: " + j;
    assert f[|f| - 1] == j[|j| - 1];
    TrimKeeps(f, WhitespaceAndNewlines);
    assert f[..8][0] == 'F';
    assert f[..1][0] == 'F';
    assert Lower(f)[..7] == "format:" by {
      forall i | 0 <= i < 7 ensures Lower(f)[..7][i] == "format:"[i] {
        assert f[i] == "Format:"[i];
      }
    }
    assert f[7..] == " " + j;
  }

  /** The writer's Events `Format:` line keeps the default columns. */
  lemma EventsFormatRead(line: string)
    requires line == "Format: " + Join(EventColumns, ", ")
    ensures AssLine(line, EventsState) == (EventsState, None)
  {
    EventColumnsEnd();
    EventColumnsKeep();
    ColumnsLineRead(Join(EventColumns, ", "));
  }

  /** A `Format:` line whose columns keep the reader's state leaves it
      unchanged. */
  lemma ColumnsLineRead(j: string)
    requires |j| > 0 && j[|j| - 1] == 't'
    requires WithColumns(ColumnNames(" " + j), 0, EventsState) == EventsState
    ensures AssLine("Format: " + j, EventsState) == (EventsState, None)
  {
    FormatLineDispatch(j);
  }

  /** The joined Events columns end with the `t` of `Text`. */
  lemma EventColumnsEnd()
    ensures var j := Join(EventColumns, ", "); |j| > 0 && j[|j| - 1] == 't'
  {
    JoinSnoc(EventColumns, ", ");
  }

  /** The writer's Events columns put Start, End and Text where the reader
      already expects them. */
  lemma EventColumnsKeep()
    ensures WithColumns(ColumnNames(" " + Join(EventColumns, ", ")), 0, EventsState) == EventsState
  {
    EventColumnNames();
    EventColumnRoles();
    WithColumnsKeep(ColumnNames(" " + Join(EventColumns, ", ")), 0, EventsState);
  }

  /** A line without `[` is never the `[Events]` heading. */
  lemma NoBracketNotEvents(x: string)
    requires NoneIn(x, {'['})
    ensures !HasPrefix(Trim(x, WhitespaceAndNewlines), "[Events]")
  {
    TrimNoneIn(x, WhitespaceAndNewlines, {'['});
    var r := Trim(x, WhitespaceAndNewlines);
    if |r| >= 8 {
      assert r[..8][0] == r[0];
    }
  }

  /** A bracketed heading other than `[Events]` is not it. */
  lemma OtherHeading(x: string)
    requires |x| >= 8 && x[0] == '[' && x[1] != 'E' && x[|x| - 1] == ']'
    ensures !HasPrefix(Trim(x, WhitespaceAndNewlines), "[Events]")
  {
    TrimKeeps(x, WhitespaceAndNewlines);
    assert x[..8][1] == x[1];
  }

  /** Prefixing a plain tag keeps a string free of the given characters. */
  lemma LabelledNoneIn(tag: string, x: string, cs: set<char>)
    requires NoneIn(tag, cs) && NoneIn(x, cs)
    ensures NoneIn(tag + x, cs)
  {
    forall i | 0 <= i < |tag + x| ensures (tag + x)[i] !in cs {
      if i >= |tag| { assert (tag + x)[i] == x[i - |tag|]; }
    }
  }

  /** Joining plain parts with a plain separator, prefixed by a plain tag,
      stays plain. */
  lemma PlainJoinLine(tag: string, parts: seq<string>, sep: string, cs: set<char>)
    requires NoneIn(tag, cs) && NoneIn(sep, cs)
    requires forall i :: 0 <= i < |parts| ==> NoneIn(parts[i], cs)
    ensures NoneIn(tag + Join(parts, sep), cs)
  {
    JoinNoneIn(parts, sep, cs);
    LabelledNoneIn(tag, Join(parts, sep), cs);
  }

  /** The Styles `Format:` line holds no line break and no `[`. */
  lemma StyleFormatPlain()
    ensures NoneIn("Format: " + Join(StyleColumns, ", "), {'[', '\n'})
  {
    forall i | 0 <= i < 8 ensures NoneIn(StyleColumns[i], {'[', '\n'}) { }
    forall i | 8 <= i < 16 ensures NoneIn(StyleColumns[i], {'[', '\n'}) { }
    forall i | 16 <= i < |StyleColumns| ensures NoneIn(StyleColumns[i], {'[', '\n'}) { }
    PlainJoinLine("Format: ", StyleColumns, ", ", {'[', '\n'});
  }

  /** The Style line holds no line break and no `[`. */
  lemma StyleLinePlain()
    ensures NoneIn("Style: " + Join(DefaultStyle, ","), {'[', '\n'})
  {
    forall i | 0 <= i < |DefaultStyle| ensures NoneIn(DefaultStyle[i], {'[', '\n'}) { }
    PlainJoinLine("Style: ", DefaultStyle, ",", {'[', '\n'});
  }

  /** The Events `Format:` line holds no line break and no `[`. */
  lemma EventsFormatPlain()
    ensures NoneIn("Format: " + Join(EventColumns, ", "), {'[', '\n'})
  {
    forall i | 0 <= i < |EventColumns| ensures NoneIn(EventColumns[i], {'[', '\n'}) { }
    PlainJoinLine("Format: ", EventColumns, ", ", {'[', '\n'});
  }

  /** The header with its three joined lists left abstract. */
  function HeaderOf(styleColumns: string, style: string, eventColumns: string): seq<string> {
    ["[Script Info]", "ScriptType: v4.00+", "PlayResX: 1920", "PlayResY: 1080", "",
     "[V4+ Styles]", "Format: " + styleColumns, "Style: " + style, "",
     "[Events]", "Format: " + eventColumns]
  }

  /** Facts about a header whose joined lists are plain. */
  lemma HeaderOfFacts(styleColumns: string, style: string, eventColumns: string)
    requires NoneIn("Format: " + styleColumns, {'[', '\n'}) && NoneIn("Style: " + style, {'[', '\n'})
    requires NoneIn("Format: " + eventColumns, {'[', '\n'})
    ensures var h := HeaderOf(styleColumns, style, eventColumns);
      |h| == 11
      && (forall i :: 0 <= i < 11 ==> NoneIn(h[i], {'\n'}))
      && (forall i :: 0 <= i < 9 ==> !HasPrefix(Trim(h[i], WhitespaceAndNewlines), "[Events]"))
  {
    var h := HeaderOf(styleColumns, style, eventColumns);
    HeaderOfUnbroken(styleColumns, style, eventColumns, h);
    HeaderOfBeforeEvents(styleColumns, style, eventColumns, h);
  }

  lemma HeaderOfUnbroken(styleColumns: string, style: string, eventColumns: string, h: seq<string>)
    requires NoneIn("Format: " + styleColumns, {'[', '\n'}) && NoneIn("Style: " + style, {'[', '\n'})
    requires NoneIn("Format: " + eventColumns, {'[', '\n'})
    requires h == HeaderOf(styleColumns, style, eventColumns)
    ensures forall i :: 0 <= i < 11 ==> NoneIn(h[i], {'\n'})
  {
    forall i | 0 <= i < 11 ensures NoneIn(h[i], {'\n'}) {
      if i == 0 { assert NoneIn("[Script Info]", {'\n'}); }
      else if i == 1 { assert NoneIn("ScriptType: v4.00+", {'\n'}); }
      else if i == 2 { assert NoneIn("PlayResX: 1920", {'\n'}); }
      else if i == 3 { assert NoneIn("PlayResY: 1080", {'\n'}); }
      else if i == 5 { assert NoneIn("[V4+ Styles]", {'\n'}); }
      else if i == 9 { assert NoneIn("[Events]", {'\n'}); }
    }
  }

  lemma HeaderOfBeforeEvents(styleColumns: string, style: string, eventColumns: string, h: seq<string>)
    requires NoneIn("Format: " + styleColumns, {'[', '\n'}) && NoneIn("Style: " + style, {'[', '\n'})
    requires h == HeaderOf(styleColumns, style, eventColumns)
    ensures forall i :: 0 <= i < 9 ==> !HasPrefix(Trim(h[i], WhitespaceAndNewlines), "[Events]")
  {
    forall i | 0 <= i < 9 && i != 0 && i != 5 ensures NoneIn(h[i], {'['}) {
      if i == 1 { assert NoneIn("ScriptType: v4.00+", {'['}); }
      else if i == 2 { assert NoneIn("PlayResX: 1920", {'['}); }
      else if i == 3 { assert NoneIn("PlayResY: 1080", {'['}); }
    }
    NotEventsLines(h);
  }

  /** Nine lines, of which the first and the sixth are bracketed headings
      other than `[Events]` and the rest hold no `[`: none of them is the
      `[Events]` heading. */
  lemma NotEventsLines(h: seq<string>)
    requires |h| >= 9
    requires forall i :: 0 <= i < 9 && i != 0 && i != 5 ==> NoneIn(h[i], {'['})
    requires |h[0]| >= 8 && h[0][0] == '[' && h[0][1] != 'E' && h[0][|h[0]| - 1] == ']'
    requires |h[5]| >= 8 && h[5][0] == '[' && h[5][1] != 'E' && h[5][|h[5]| - 1] == ']'
    ensures forall i :: 0 <= i < 9 ==> !HasPrefix(Trim(h[i], WhitespaceAndNewlines), "[Events]")
  {
    forall i | 0 <= i < 9 ensures !HasPrefix(Trim(h[i], WhitespaceAndNewlines), "[Events]") {
      if i == 0 || i == 5 {
        OtherHeading(h[i]);
      } else {
        NoBracketNotEvents(h[i]);
      }
    }
  }


  /** The header lines: none holds a line break, none before the tenth is
      the `[Events]` heading, and the last two open the Events section. */
  lemma HeaderLinesFacts()
    ensures |AssHeaderLines| == 11
    ensures forall i :: 0 <= i < 11 ==> NoneIn(AssHeaderLines[i], {'\n'})
    ensures forall i :: 0 <= i < 9 ==> !HasPrefix(Trim(AssHeaderLines[i], WhitespaceAndNewlines), "[Events]")
    ensures AssHeaderLines[9] == "[Events]"
    ensures AssHeaderLines[10] == "Format: " + Join(EventColumns, ", ")
  {
    var j1, j2, j3 := Join(StyleColumns, ", "), Join(DefaultStyle, ","), Join(EventColumns, ", ");
    assert AssHeaderLines == HeaderOf(j1, j2, j3);
    StyleFormatPlain();
    StyleLinePlain();
    EventsFormatPlain();
    HeaderOfFacts(j1, j2, j3);
  }

  /** Nine lines outside the Events section, its heading and the writer's
      Events `Format:` line leave the reader in the Events section with the
      default columns and no cue read. */
  lemma {:induction false} EventsOpenedBy(h: seq<string>)
    requires |h| == 11 && h[9] == "[Events]" && AssLine(h[10], EventsState) == (EventsState, None)
    requires forall i :: 0 <= i < 9 ==> !HasPrefix(Trim(h[i], WhitespaceAndNewlines), "[Events]")
    ensures AssRun(h, AssInitial) == (EventsState, [])
  {
    assert h == h[..9] + h[9..];
    forall i | 0 <= i < 9 ensures !HasPrefix(Trim(h[..9][i], WhitespaceAndNewlines), "[Events]") {
      assert h[..9][i] == h[i];
    }
    OutsideEventsIgnored(h[..9], AssInitial);
    AssRunAppend(h[..9], h[9..], AssInitial);
    var tail := h[9..];
    assert tail[0] == "[Events]" && tail[1..] == [h[10]];
    TrimKeeps("[Events]", WhitespaceAndNewlines);
    assert AssLine("[Events]", AssInitial) == (EventsState, None);
    assert [h[10]][1..] == [];
    assert AssRun([h[10]], EventsState) == (EventsState, []);
  }

  /** The header leaves the reader inside the Events section with the
      default columns and no cue read. */
  lemma HeaderRead()
    ensures AssRun(AssHeaderLines, AssInitial) == (EventsState, [])
  {
    HeaderLinesFacts();
    EventsFormatRead(AssHeaderLines[10]);
    EventsOpenedBy(AssHeaderLines);
  }

  /** `generateASSContent` read back by `parseASS`: one cue per segment, in
      order, with centisecond-truncated times, for segments whose texts are
      plain and whose times are not negative. */
  lemma AssRoundTrip(segs: seq<BilingualSegment>, useTranslated: bool)
    requires NonNegativeTimes(segs) && AssPlainTexts(segs, useTranslated)
    ensures ParseASS(AssContent(segs, useTranslated)) == ReadBack(segs, useTranslated, 100.0)
  {
    var h := AssHeaderLines;
    var d := AssDialogues(segs, useTranslated);
    HeaderLinesFacts();
    forall i | 0 <= i < |h| ensures NoneIn(h[i], {'\n'}) { }
    SplitAfterJoin(h, '\n', d, {'\n'});
    assert AssContent(segs, useTranslated) == Join(h, ['\n']) + ['\n'] + d;
    AssRunAppend(h, SplitAny(d, {'\n'}), AssInitial);
    HeaderRead();
    DialoguesRead(segs, useTranslated);
    assert [] + ReadBack(segs, useTranslated, 100.0) == ReadBack(segs, useTranslated, 100.0);
  }

  // ---------------------------------------------------------------------------
  // Generated files

  /** The reader of a format applied to a document. */
  function ReadAs(format: SubtitleFormat, content: string): Result<seq<Segment>, ParsingError> {
    match format
    case Srt => ParseSRT(content)
    case Vtt => ParseVTT(content)
    case Ass => Success(ParseASS(content))
  }

  /** The time resolution a format keeps: milliseconds, or centiseconds for ASS. */
  function Resolution(format: SubtitleFormat): real {
    if format == Ass then 100.0 else 1000.0
  }

  /** Segments whose document of `format` reads back intact. */
  predicate Readable(format: SubtitleFormat, segs: seq<BilingualSegment>, useTranslated: bool) {
    NonNegativeTimes(segs)
    && (if format == Ass then AssPlainTexts(segs, useTranslated) else OneLineTexts(segs, useTranslated))
  }

  /** Every format's document reads back as its segments. */
  lemma ContentRoundTrip(format: SubtitleFormat, segs: seq<BilingualSegment>, useTranslated: bool)
    requires Readable(format, segs, useTranslated)
    ensures ReadAs(format, Content(format, segs, useTranslated)) == Success(ReadBack(segs, useTranslated, Resolution(format)))
  {
    match format
    case Srt => SrtRoundTrip(segs, useTranslated);
    case Vtt => VttRoundTrip(segs, useTranslated);
    case Ass => AssRoundTrip(segs, useTranslated);
  }

  /** `generateSingle` writes at most one file, to the given path, and that
      file reads back as the chosen text of every segment. */
  lemma GenerateSingleReadsBack(format: SubtitleFormat, segs: seq<BilingualSegment>, path: string,
                                useTranslated: bool, saved: bool)
    requires Readable(format, segs, useTranslated)
    ensures var g := GenerateSingle(format, segs, path, useTranslated, saved);
      |g.writes| <= 1
      && forall k :: 0 <= k < |g.writes| ==>
           g.writes[k].path == path
           && ReadAs(format, g.writes[k].content) == Success(ReadBack(segs, useTranslated, Resolution(format)))
  {
    ContentRoundTrip(format, segs, useTranslated);
  }

  /** `generateBoth` writes the original file first and the translated one
      second, and they read back as the original and the translated texts. */
  lemma GenerateBothReadsBack(format: SubtitleFormat, segs: seq<BilingualSegment>, originalPath: string,
                              translatedPath: string, originalSaved: bool, translatedSaved: bool)
    requires Readable(format, segs, false) && Readable(format, segs, true)
    ensures var g := GenerateBoth(format, segs, originalPath, translatedPath, originalSaved, translatedSaved);
      |segs| > 0 ==>
        |g.writes| == 2 && g.writes[0].path == originalPath && g.writes[1].path == translatedPath
        && ReadAs(format, g.writes[0].content) == Success(ReadBack(segs, false, Resolution(format)))
        && ReadAs(format, g.writes[1].content) == Success(ReadBack(segs, true, Resolution(format)))
  {
    ContentRoundTrip(format, segs, false);
    ContentRoundTrip(format, segs, true);
  }

  /** A successful `generateSubtitles` leaves the original file, and the
      translated one when asked for, each reading back as its text of every
      segment. */
  lemma SubtitleFilesReadBack(format: SubtitleFormat, segs: seq<BilingualSegment>, original: Url,
                              translated: Option<Url>, originalSaved: bool, translatedSaved: bool)
    requires Readable(format, segs, false) && (translated.Some? ==> Readable(format, segs, true))
    requires Repository.GenerateSubtitles(format, segs, original, translated, originalSaved, translatedSaved).result.Success?
    ensures var r := Repository.GenerateSubtitles(format, segs, original, translated, originalSaved, translatedSaved);
      r.writes[0].path == UrlPath(original)
      && ReadAs(format, r.writes[0].content) == Success(ReadBack(segs, false, Resolution(format)))
      && (translated.Some? ==>
            r.writes[1].path == UrlPath(translated.value)
            && ReadAs(format, r.writes[1].content) == Success(ReadBack(segs, true, Resolution(format))))
  {
    ContentRoundTrip(format, segs, false);
    if translated.Some? {
      ContentRoundTrip(format, segs, true);
    }
  }
}

/** The subtitle writers: time stamps, the SRT, WebVTT and ASS documents
    built from bilingual segments, and which files a generation run writes
    and whether it reports success. Saving a file is a parameter: `true`
    when the write succeeded. */
module SubtitleWriter {
  import opened Text
  import opened Media
  import opened Domain

  // ---------------------------------------------------------------------------
  // Swift integer division

  /** Swift's `/` on integers: the quotient rounded toward zero. */
  function Quot(a: int, b: int): int
    requires b > 0
  {
    if a >= 0 then a / b else -((-a) / b)
  }

  /** Swift's `%` on integers: the remainder takes the sign of the dividend. */
  function Rem(a: int, b: int): int
    requires b > 0
  {
    a - b * Quot(a, b)
  }

  // ---------------------------------------------------------------------------
  // Time stamps

  /** The four numbers a time stamp prints. */
  datatype Clock = Clock(hours: int, minutes: int, seconds: int, fraction: int)

  /** The fields the formatters compute for `seconds`: hours, minutes and
      seconds of the truncated whole seconds, and the truncated fractional
      part counted in units of 1/`scale` second (1000 for milliseconds, 100
      for centiseconds). */
  function ClockOf(seconds: real, scale: nat): Clock
    requires scale > 0
  {
    var whole := Trunc(seconds);
    Clock(Quot(whole, 3600), Quot(Rem(whole, 3600), 60), Rem(whole, 60),
          Trunc(TruncRem(seconds, 1.0) * scale as real))
  }

  /** `%0Hd:%02d:%02d<sep>%0Fd` of a clock: `hourWidth` and `fractionWidth`
      digits at least. */
  function Stamp(c: Clock, hourWidth: nat, sep: char, fractionWidth: nat): string {
    FormatInt(c.hours, hourWidth) + ":" + FormatInt(c.minutes, 2) + ":" + FormatInt(c.seconds, 2)
      + [sep] + FormatInt(c.fraction, fractionWidth)
  }

  /** `BilingualSegment.formatSRTTime`: `HH:MM:SS,mmm`. */
  function FormatSRTTime(seconds: real): string {
    Stamp(ClockOf(seconds, 1000), 2, ',', 3)
  }

  /** `formatVTTTime`: `HH:MM:SS.mmm`. */
  function FormatVTTTime(seconds: real): string {
    Stamp(ClockOf(seconds, 1000), 2, '.', 3)
  }

  /** `formatASSTime`: `H:MM:SS.cc`, in centiseconds. */
  function FormatASSTime(seconds: real): string {
    Stamp(ClockOf(seconds, 100), 0, '.', 2)
  }

  /** A whole number of seconds is its hours, minutes and seconds. */
  lemma HoursMinutesSeconds(whole: nat)
    ensures whole / 3600 * 3600 + (whole % 3600) / 60 * 60 + whole % 60 == whole
    ensures 0 <= (whole % 3600) / 60 < 60
  {
  }

  /** A fraction of a positive amount is smaller than it. */
  lemma FractionOf(r: real, k: real)
    requires 0.0 <= r < 1.0 && k > 0.0
    ensures 0.0 <= r * k < k
  {
    assert k - r * k == (1.0 - r) * k;
  }

  /** Scaling distributes over whole seconds plus a fraction. */
  lemma ScaleSum(w: int, r: real, scale: nat)
    ensures (w as real + r) * scale as real == (w * scale) as real + r * scale as real
  {
  }

  /** The fractional part of a non-negative time. */
  lemma FractionalPart(t: real)
    requires t >= 0.0
    ensures TruncRem(t, 1.0) == t - Trunc(t) as real
    ensures 0.0 <= TruncRem(t, 1.0) < 1.0
  {
    assert t / 1.0 == t;
  }

  /** The floor of a whole number plus a non-negative part. */
  lemma FloorShift(w: int, y: real, x: real)
    requires x == w as real + y && y >= 0.0
    ensures x.Floor == w + y.Floor
  {
    var n := w + y.Floor;
    assert n as real <= x < n as real + 1.0;
  }

  /** The floor of a non-negative number below a whole bound. */
  lemma FloorBelow(y: real, n: int)
    requires 0.0 <= y < n as real
    ensures 0 <= y.Floor < n
  {
  }

  /** The floor of a non-negative time scaled by `scale` splits into the
      truncated whole seconds and the truncated scaled fraction. */
  lemma ScaledFloor(t: real, scale: nat)
    requires t >= 0.0 && scale > 0
    ensures var f := Trunc(TruncRem(t, 1.0) * scale as real);
      0 <= f < scale && (t * scale as real).Floor == Trunc(t) * scale + f
  {
    var whole := Trunc(t);
    var rest := TruncRem(t, 1.0);
    FractionalPart(t);
    var k := scale as real;
    FractionOf(rest, k);
    var y := rest * k;
    assert Trunc(y) == y.Floor;
    FloorBelow(y, scale);
    ScaleSum(whole, rest, scale);
    FloorShift(whole * scale, y, t * k);
  }

  /** For a non-negative time the printed fields are in range and add up: the
      clock reads `Trunc(t)` whole seconds plus `fraction` units, which
      together are the time's floor in units of 1/`scale` second. */
  lemma ClockOfNonNegative(t: real, scale: nat)
    requires t >= 0.0 && scale > 0
    ensures var c := ClockOf(t, scale);
      c.hours >= 0 && 0 <= c.minutes < 60 && 0 <= c.seconds < 60 && 0 <= c.fraction < scale
      && c.hours * 3600 + c.minutes * 60 + c.seconds == Trunc(t)
      && (t * scale as real).Floor == Trunc(t) * scale + c.fraction
  {
    var whole := Trunc(t);
    HoursMinutesSeconds(whole);
    ScaledFloor(t, scale);
  }

  // ---------------------------------------------------------------------------
  // Documents

  /** The text a file shows for a segment. */
  function CueText(s: BilingualSegment, useTranslated: bool): string {
    if useTranslated then s.translated else s.original
  }

  /** One SRT cue without its trailing blank line: number, timing, text. */
  function SrtCue(number: nat, s: BilingualSegment, useTranslated: bool): string {
    NatToString(number) + "\n" + FormatSRTTime(s.startTime) + " --> " + FormatSRTTime(s.endTime)
      + "\n" + CueText(s, useTranslated)
  }

  /** The cues numbered from `number`, each followed by a blank line. */
  function SrtCuesFrom(segs: seq<BilingualSegment>, number: nat, useTranslated: bool): string
    decreases |segs|
  {
    if |segs| == 0 then ""
    else SrtCue(number, segs[0], useTranslated) + "\n\n" + SrtCuesFrom(segs[1..], number + 1, useTranslated)
  }

  /** `generateSRTContent`: cues numbered from 1. */
  function SrtContent(segs: seq<BilingualSegment>, useTranslated: bool): string {
    SrtCuesFrom(segs, 1, useTranslated)
  }

  /** One WebVTT cue without its trailing blank line: timing and text. */
  function VttCue(s: BilingualSegment, useTranslated: bool): string {
    FormatVTTTime(s.startTime) + " --> " + FormatVTTTime(s.endTime) + "\n" + CueText(s, useTranslated)
  }

  function VttCues(segs: seq<BilingualSegment>, useTranslated: bool): string
    decreases |segs|
  {
    if |segs| == 0 then ""
    else VttCue(segs[0], useTranslated) + "\n\n" + VttCues(segs[1..], useTranslated)
  }

  /** `generateVTTContent`: the `WEBVTT` line, a blank line, then the cues. */
  function VttContent(segs: seq<BilingualSegment>, useTranslated: bool): string {
    "WEBVTT\n\n" + VttCues(segs, useTranslated)
  }

  /** The columns of the V4+ Styles section. */
  const StyleColumns: seq<string> := [
    "Name", "Fontname", "Fontsize", "PrimaryColour", "SecondaryColour", "OutlineColour", "BackColour",
    "Bold", "Italic", "Underline", "StrikeOut", "ScaleX", "ScaleY", "Spacing", "Angle", "BorderStyle",
    "Outline", "Shadow", "Alignment", "MarginL", "MarginR", "MarginV", "Encoding"]

  /** The values of the one style, `Default`. */
  const DefaultStyle: seq<string> := [
    "Default", "Arial", "48", "&H00FFFFFF", "&H000000FF", "&H00000000", "&H80000000",
    "0", "0", "0", "0", "100", "100", "0", "0", "1", "2", "0", "2", "80", "80", "60", "1"]

  /** The columns of the Events section; Text comes last. */
  const EventColumns: seq<string> := [
    "Layer", "Start", "End", "Style", "Name", "MarginL", "MarginR", "MarginV", "Effect", "Text"]

  /** The fixed lines that open every ASS document. */
  const AssHeaderLines: seq<string> := [
    "[Script Info]",
    "ScriptType: v4.00+",
    "PlayResX: 1920",
    "PlayResY: 1080",
    "",
    "[V4+ Styles]",
    "Format: " + Join(StyleColumns, ", "),
    "Style: " + Join(DefaultStyle, ","),
    "",
    "[Events]",
    "Format: " + Join(EventColumns, ", ")
  ]

  /** The text of a Dialogue line: line breaks written as `\N`. */
  function AssEscape(text: string): string {
    ReplaceAll(text, "\n", "\\N")
  }

  /** The values of a Dialogue line, one per Events column: layer 0, the
      times, the Default style, zero margins and the escaped text. */
  function DialogueFields(s: BilingualSegment, useTranslated: bool): seq<string> {
    ["0", FormatASSTime(s.startTime), FormatASSTime(s.endTime), "Default", "", "0", "0", "0", "",
     AssEscape(CueText(s, useTranslated))]
  }

  /** One Dialogue line, without its line break. */
  function AssDialogue(s: BilingualSegment, useTranslated: bool): string {
    "Dialogue: " + Join(DialogueFields(s, useTranslated), ",")
  }

  function AssDialogues(segs: seq<BilingualSegment>, useTranslated: bool): string
    decreases |segs|
  {
    if |segs| == 0 then ""
    else AssDialogue(segs[0], useTranslated) + "\n" + AssDialogues(segs[1..], useTranslated)
  }

  /** `generateASSContent`: the header, then one Dialogue line per segment. */
  function AssContent(segs: seq<BilingualSegment>, useTranslated: bool): string {
    Join(AssHeaderLines, "\n") + "\n" + AssDialogues(segs, useTranslated)
  }

  /** The document of a format. */
  function Content(format: SubtitleFormat, segs: seq<BilingualSegment>, useTranslated: bool): string {
    match format
    case Srt => SrtContent(segs, useTranslated)
    case Vtt => VttContent(segs, useTranslated)
    case Ass => AssContent(segs, useTranslated)
  }

  // ---------------------------------------------------------------------------
  // Generation runs

  /** A file the generator writes. */
  datatype Write = Write(path: string, content: string)

  /** The writes a run attempts, in order, and the result it reports. */
  datatype Generation = Generation(ok: bool, writes: seq<Write>)

  /** `generateSingle`: nothing is written for no segments; otherwise one
      document, and the result is whether it was saved. */
  function GenerateSingle(format: SubtitleFormat, segs: seq<BilingualSegment>, path: string,
                          useTranslated: bool, saved: bool): (g: Generation)
    ensures g.ok <==> |segs| > 0 && saved
    ensures |segs| == 0 ==> g.writes == []
    ensures |segs| > 0 ==> g.writes == [Write(path, Content(format, segs, useTranslated))]
  {
    if |segs| == 0 then Generation(false, [])
    else Generation(saved, [Write(path, Content(format, segs, useTranslated))])
  }

  /** `generateBoth` and the three two-file generators it dispatches to:
      nothing is written for no segments; otherwise the original and then the
      translated document are both attempted, whatever the first save did,
      and the run succeeds only when both saves did. */
  function GenerateBoth(format: SubtitleFormat, segs: seq<BilingualSegment>, originalPath: string,
                        translatedPath: string, originalSaved: bool, translatedSaved: bool): (g: Generation)
    ensures g.ok <==> |segs| > 0 && originalSaved && translatedSaved
    ensures |segs| == 0 ==> g.writes == []
    ensures |segs| > 0 ==> g.writes == [Write(originalPath, Content(format, segs, false)),
                                        Write(translatedPath, Content(format, segs, true))]
  {
    if |segs| == 0 then Generation(false, [])
    else
      var writes := [Write(originalPath, Content(format, segs, false)),
                     Write(translatedPath, Content(format, segs, true))];
      Generation(originalSaved && translatedSaved, writes)
  }
}

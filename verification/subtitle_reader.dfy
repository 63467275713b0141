/** The subtitle readers: SRT, WebVTT and ASS documents back into timed
    segments (without words), and the file-level dispatch on the extension.
    Reading the file's bytes is a parameter. */
module SubtitleReader {
  import opened Wrappers
  import opened Seqs
  import opened Text
  import opened Paths
  import opened Media
  import opened Domain

  datatype ParsingError =
    | UnsupportedFormat(ext: string)
    | InvalidFile(path: string)
    | InvalidTimecode(line: string)

  /** `errorDescription`. */
  function ParsingMessage(e: ParsingError): string {
    match e
    case UnsupportedFormat(ext) => "Unsupported subtitle format: ." + ext
    case InvalidFile(path) => "Invalid subtitle file: " + path
    case InvalidTimecode(line) => "Invalid timecode line: " + line
  }

  /** Different errors never read the same. */
  lemma ParsingMessagesDistinct(a: ParsingError, b: ParsingError)
    ensures ParsingMessage(a) == ParsingMessage(b) ==> a == b
  {
    var ma, mb := ParsingMessage(a), ParsingMessage(b);
    if ma == mb {
      var pa := ma[..|ma| - |PayloadOf(a)|];
      var pb := mb[..|mb| - |PayloadOf(b)|];
      assert ma[0] == mb[0];
      assert ma[8] == mb[8];
      assert a.UnsupportedFormat? <==> b.UnsupportedFormat?;
      assert a.InvalidFile? <==> b.InvalidFile?;
      assert |pa| == |pb|;
      assert PayloadOf(a) == ma[|pa|..] == mb[|pb|..] == PayloadOf(b);
    }
  }

  /** The text an error carries. */
  function PayloadOf(e: ParsingError): string {
    match e
    case UnsupportedFormat(ext) => ext
    case InvalidFile(path) => path
    case InvalidTimecode(line) => line
  }

  // ---------------------------------------------------------------------------
  // Time stamps

  /** `Double(h * 3600 + m * 60 + s) + Double(fraction) / scale`. */
  function TimeValue(h: int, m: int, s: int, fraction: int, scale: real): real
    requires scale > 0.0
  {
    (h * 3600 + m * 60 + s) as real + fraction as real / scale
  }

  /** `parseSRTTime`: four integers separated by `:` or `,`, the last one in
      milliseconds. */
  function ParseSRTTime(value: string): Option<real> {
    var c := SplitAny(value, {':', ','});
    if |c| != 4 then None
    else
      match (ParseInt(c[0]), ParseInt(c[1]), ParseInt(c[2]), ParseInt(c[3]))
      case (Some(h), Some(m), Some(s), Some(ms)) => Some(TimeValue(h, m, s, ms, 1000.0))
      case _ => None
  }

  /** `parseVTTTime`: exactly one `.`, before it exactly three integers
      separated by `:`, after it the milliseconds. */
  function ParseVTTTime(value: string): Option<real> {
    var main := SplitAny(value, {'.'});
    if |main| != 2 then None
    else
      var hms := SplitAny(main[0], {':'});
      if |hms| != 3 then None
      else
        match (ParseInt(hms[0]), ParseInt(hms[1]), ParseInt(hms[2]), ParseInt(main[1]))
        case (Some(h), Some(m), Some(s), Some(ms)) => Some(TimeValue(h, m, s, ms, 1000.0))
        case _ => None
  }

  /** `parseASSTime`: four integers separated by `:` or `.`, the last one in
      centiseconds. */
  function ParseASSTime(value: string): Option<real> {
    var c := SplitAny(value, {':', '.'});
    if |c| != 4 then None
    else
      match (ParseInt(c[0]), ParseInt(c[1]), ParseInt(c[2]), ParseInt(c[3]))
      case (Some(h), Some(m), Some(s), Some(cs)) => Some(TimeValue(h, m, s, cs, 100.0))
      case _ => None
  }

  /** `parseSRTTimeRange` and `parseVTTTimeRange`: the line must split on
      `-->` into exactly two sides, and both sides, trimmed, must parse;
      anything else is an invalid time code. */
  function TimeRange(line: string, parse: string -> Option<real>): (r: Result<(real, real), ParsingError>)
    ensures r.Failure? ==> r.error == InvalidTimecode(line)
    ensures !Contains(line, "-->") ==> r.Failure?
  {
    var parts := SplitOn(line, "-->");
    if |parts| != 2 then
      Failure(InvalidTimecode(line))
    else
      var start := parse(Trim(parts[0], Whitespace));
      var end := parse(Trim(parts[1], Whitespace));
      assert Contains(line, "-->") by { SplitOnTwo(line, "-->"); }
      if start.None? || end.None? then Failure(InvalidTimecode(line))
      else Success((start.value, end.value))
  }

  /** Splitting on a separator gives more than one part only when the
      separator occurs. */
  lemma {:induction false} SplitOnTwo(s: string, sep: string)
    requires |sep| > 0 && |SplitOn(s, sep)| >= 2
    ensures Contains(s, sep)
    decreases |s|
  {
    if StartsWith(s, sep) {
      assert s[0..] == s;
      assert HasPrefix(s[0..], sep);
    } else {
      SplitOnTwo(s[1..], sep);
      var i :| 0 <= i <= |s[1..]| - |sep| && HasPrefix(s[1..][i..], sep);
      assert s[1..][i..] == s[i + 1..];
    }
  }

  // ---------------------------------------------------------------------------
  // Blocks and lines shared by SRT and WebVTT

  predicate NotBlank(s: string) {
    !IsBlank(s)
  }

  /** The blocks of a document: the parts between blank lines that are not
      blank themselves. */
  function Blocks(content: string): seq<string> {
    Filter(SplitOn(content, "\n\n"), NotBlank)
  }

  function TrimEach(lines: seq<string>): (r: seq<string>)
    ensures |r| == |lines| && forall i :: 0 <= i < |lines| ==> r[i] == Trim(lines[i], Whitespace)
  {
    seq(|lines|, i requires 0 <= i < |lines| => Trim(lines[i], Whitespace))
  }

  /** The lines of a block, trimmed, without the empty ones. */
  function CueLines(block: string): seq<string> {
    NonEmpty(TrimEach(SplitAny(block, {'\n'})))
  }

  /** Reads blocks in order; the first block that fails fails the whole
      document, and blocks that yield no cue are passed over. */
  function Collect(blocks: seq<string>, parse: string -> Result<Option<Segment>, ParsingError>)
    : (r: Result<seq<Segment>, ParsingError>)
    ensures r.Failure? <==> exists i :: 0 <= i < |blocks| && parse(blocks[i]).Failure?
    ensures r.Failure? ==> exists i :: 0 <= i < |blocks| && parse(blocks[i]) == Failure(r.error)
                                       && forall j :: 0 <= j < i ==> parse(blocks[j]).Success?
    ensures r.Success? ==> |r.value| <= |blocks|
    decreases |blocks|
  {
    if |blocks| == 0 then Success([])
    else
      var rest := Collect(blocks[1..], parse);
      assert forall i :: 1 <= i < |blocks| ==> blocks[i] == blocks[1..][i - 1];
      match parse(blocks[0])
      case Failure(e) => Failure(e)
      case Success(cue) =>
        if rest.Failure? then
          assert exists i :: 1 <= i < |blocks| && parse(blocks[i]) == Failure(rest.error)
                             && forall j :: 0 <= j < i ==> parse(blocks[j]).Success? by {
            var i :| 0 <= i < |blocks[1..]| && parse(blocks[1..][i]) == Failure(rest.error)
                     && forall j :: 0 <= j < i ==> parse(blocks[1..][j]).Success?;
            assert forall j :: 1 <= j < i + 1 ==> blocks[j] == blocks[1..][j - 1];
          }
          Failure(rest.error)
        else
          Success((if cue.Some? then [cue.value] else []) + rest.value)
  }

  // ---------------------------------------------------------------------------
  // SRT

  /** One SRT block: at least two lines, an optional integer index line,
      then the time line, then the text lines joined by spaces. A bad time
      line is an error. */
  function SrtBlock(block: string): (r: Result<Option<Segment>, ParsingError>)
    ensures r == Success(None) <==> |CueLines(block)| < 2
    ensures r.Failure? ==> var lines := CueLines(block);
      r.error == InvalidTimecode(lines[if ParseInt(lines[0]).Some? then 1 else 0])
    ensures r.Success? && r.value.Some? ==> r.value.value.words == []
  {
    var lines := CueLines(block);
    if |lines| < 2 then Success(None)
    else
      // the index line leaves at least one line, so the time line exists
      var index := if ParseInt(lines[0]).Some? then 1 else 0;
      match TimeRange(lines[index], ParseSRTTime)
      case Failure(e) => Failure(e)
      case Success(times) => Success(Some(Segment(Join(lines[index + 1..], " "), [], times.0, times.1)))
  }

  /** `parseSRT`: a bad time line in any block aborts the whole document;
      otherwise every block of two or more lines yields one cue. */
  function ParseSRT(content: string): (r: Result<seq<Segment>, ParsingError>)
    ensures r.Failure? <==> exists i :: 0 <= i < |Blocks(content)| && SrtBlock(Blocks(content)[i]).Failure?
    ensures r.Failure? ==> r.error.InvalidTimecode?
  {
    Collect(Blocks(content), SrtBlock)
  }

  // ---------------------------------------------------------------------------
  // WebVTT

  /** The document without its `WEBVTT` line (matched ignoring case), if
      it starts with one. */
  function VttBody(content: string): string {
    var lines := SplitAny(content, {'\n'});
    if HasPrefix(Upper(lines[0]), "WEBVTT") then Join(lines[1..], "\n") else Join(lines, "\n")
  }

  /** One WebVTT block: at least two lines; the first line is the time line
      unless it lacks `-->`, in which case it is a cue id and the second one
      is; a block whose time line lacks `-->` is passed over, and a bad time
      line with `-->` is an error. */
  function VttBlock(block: string): (r: Result<Option<Segment>, ParsingError>)
    ensures |CueLines(block)| < 2 ==> r == Success(None)
    ensures r.Failure? ==> exists i :: 0 <= i < |CueLines(block)| && r.error == InvalidTimecode(CueLines(block)[i])
                                       && Contains(CueLines(block)[i], "-->")
    ensures r.Success? && r.value.Some? ==> r.value.value.words == []
  {
    var lines := CueLines(block);
    if |lines| < 2 then Success(None)
    else
      var index := if Contains(lines[0], "-->") then 0 else 1;
      if !Contains(lines[index], "-->") then Success(None)
      else
        match TimeRange(lines[index], ParseVTTTime)
        case Failure(e) => Failure(e)
        case Success(times) => Success(Some(Segment(Join(lines[index + 1..], " "), [], times.0, times.1)))
  }

  /** `parseVTT`: only a block with a malformed `-->` line fails the
      document. */
  function ParseVTT(content: string): (r: Result<seq<Segment>, ParsingError>)
    ensures r.Failure? <==> exists i :: 0 <= i < |Blocks(VttBody(content))| && VttBlock(Blocks(VttBody(content))[i]).Failure?
    ensures r.Failure? ==> r.error.InvalidTimecode? && Contains(r.error.line, "-->")
  {
    Collect(Blocks(VttBody(content)), VttBlock)
  }

  // ---------------------------------------------------------------------------
  // ASS

  /** What the ASS reader remembers between lines. */
  datatype AssState = AssState(inEvents: bool, startIndex: nat, endIndex: nat, textIndex: nat)

  /** Outside any section, with the default Events columns. */
  const AssInitial := AssState(false, 1, 2, 9)

  /** The column names of a `Format:` line, trimmed and lower-cased, empty
      pieces between commas omitted. */
  function ColumnNames(formatPart: string): (r: seq<string>) {
    var pieces := NonEmpty(SplitAny(formatPart, {','}));
    seq(|pieces|, i requires 0 <= i < |pieces| => Lower(Trim(pieces[i], Whitespace)))
  }

  /** Records the position of the Start, End and Text columns from `k` on;
      a later column of the same name wins. */
  function WithColumns(columns: seq<string>, k: nat, st: AssState): (r: AssState)
    ensures r.inEvents == st.inEvents
    ensures r.startIndex == st.startIndex || (r.startIndex < |columns| && columns[r.startIndex] == "start")
    ensures r.endIndex == st.endIndex || (r.endIndex < |columns| && columns[r.endIndex] == "end")
    ensures r.textIndex == st.textIndex || (r.textIndex < |columns| && columns[r.textIndex] == "text")
    decreases |columns| - k
  {
    if k >= |columns| then st
    else
      var c := columns[k];
      var st1 := if c == "start" then st.(startIndex := k) else st;
      var st2 := if c == "end" then st1.(endIndex := k) else st1;
      var st3 := if c == "text" then st2.(textIndex := k) else st2;
      WithColumns(columns, k + 1, st3)
  }

  function Max3(a: nat, b: nat, c: nat): (m: nat)
    ensures a <= m && b <= m && c <= m && (m == a || m == b || m == c)
  {
    if a >= b && a >= c then a else if b >= c then b else c
  }

  /** A Dialogue line after its `Dialogue:` prefix: split on at most
      `textIndex` commas, so the text keeps its own commas; too few fields
      or a bad time skips the line. */
  function AssDialogue(after: string, st: AssState): (seg: Option<Segment>)
    ensures seg.Some? ==> seg.value.words == [] && NoneIn(seg.value.text, {'{', '}'})
  {
    var fields := SplitMax(after, ',', st.textIndex);
    if |fields| <= Max3(st.startIndex, st.endIndex, st.textIndex) then None
    else
      match (ParseASSTime(Trim(fields[st.startIndex], Whitespace)), ParseASSTime(Trim(fields[st.endIndex], Whitespace)))
      case (Some(start), Some(end)) =>
        Some(Segment(CleanASSText(Trim(fields[st.textIndex], Whitespace)), [], start, end))
      case _ => None
  }

  /** One line of `parseASS`. */
  function AssLine(raw: string, st: AssState): (r: (AssState, Option<Segment>))
    ensures r.1.Some? ==> st.inEvents && r.0 == st
    ensures !st.inEvents && !HasPrefix(Trim(raw, WhitespaceAndNewlines), "[Events]") ==> r == (st, None)
    ensures HasPrefix(Trim(raw, WhitespaceAndNewlines), "[Events]") ==> r == (st.(inEvents := true), None)
  {
    var line := Trim(raw, WhitespaceAndNewlines);
    if line == "" then (st, None)
    else if HasPrefix(line, "[Events]") then (st.(inEvents := true), None)
    else if !st.inEvents then (st, None)
    else if HasPrefix(line, "[") then (st.(inEvents := false), None)
    else if HasPrefix(Lower(line), "format:") then (WithColumns(ColumnNames(line[7..]), 0, st), None)
    else if HasPrefix(Lower(line), "dialogue:") then (st, AssDialogue(line[9..], st))
    else (st, None)
  }

  /** The reader over a run of lines: the state after them and the cues
      read, in order. */
  function AssRun(lines: seq<string>, st: AssState): (r: (AssState, seq<Segment>))
    ensures |r.1| <= |lines|
    decreases |lines|
  {
    if |lines| == 0 then (st, [])
    else
      var (st1, cue) := AssLine(lines[0], st);
      var (st2, rest) := AssRun(lines[1..], st1);
      (st2, (if cue.Some? then [cue.value] else []) + rest)
  }

  /** `parseASS`: never fails; unreadable lines are skipped. */
  function ParseASS(content: string): seq<Segment> {
    AssRun(SplitAny(content, {'\n'}), AssInitial).1
  }

  /** Lines before the first `[Events]` line are ignored, whatever they hold. */
  lemma {:induction false} OutsideEventsIgnored(lines: seq<string>, st: AssState)
    requires !st.inEvents
    requires forall i :: 0 <= i < |lines| ==> !HasPrefix(Trim(lines[i], WhitespaceAndNewlines), "[Events]")
    ensures AssRun(lines, st) == (st, [])
    decreases |lines|
  {
    if |lines| > 0 {
      assert forall i :: 0 <= i < |lines[1..]| ==> lines[1..][i] == lines[i + 1];
      OutsideEventsIgnored(lines[1..], st);
    }
  }

  /** A document without an `[Events]` line yields no cues. */
  lemma NoEventsNoCues(content: string)
    requires forall i :: 0 <= i < |SplitAny(content, {'\n'})| ==>
      !HasPrefix(Trim(SplitAny(content, {'\n'})[i], WhitespaceAndNewlines), "[Events]")
    ensures ParseASS(content) == []
  {
    OutsideEventsIgnored(SplitAny(content, {'\n'}), AssInitial);
  }

  /** `cleanASSText`'s first pass: characters from a `{` up to the next `}`
      are dropped, and so are the braces. */
  function StripOverrides(s: string, skipping: bool): (r: string)
    ensures NoneIn(r, {'{', '}'})
    ensures |r| <= |s|
    ensures NoneIn(s, {'{', '}'}) && !skipping ==> r == s
    decreases |s|
  {
    if |s| == 0 then ""
    else if s[0] == '{' then StripOverrides(s[1..], true)
    else if s[0] == '}' then StripOverrides(s[1..], false)
    else if skipping then StripOverrides(s[1..], true)
    else
      var rest := StripOverrides(s[1..], false);
      assert NoneIn(s, {'{', '}'}) ==> NoneIn(s[1..], {'{', '}'});
      assert NoneIn(s, {'{', '}'}) ==> s == [s[0]] + s[1..];
      [s[0]] + rest
  }

  /** `cleanASSText`: override tags removed, `\N` and `\n` turned into line
      breaks, whitespace and line breaks trimmed from both ends. */
  function CleanASSText(value: string): (r: string)
    ensures NoneIn(r, {'{', '}'})
    ensures |r| > 0 ==> r[0] !in WhitespaceAndNewlines && r[|r| - 1] !in WhitespaceAndNewlines
  {
    var stripped := StripOverrides(value, false);
    var broken := ReplaceAll(ReplaceAll(stripped, "\\N", "\n"), "\\n", "\n");
    ReplaceNoneIn(stripped, "\\N", "\n", {'{', '}'});
    ReplaceNoneIn(ReplaceAll(stripped, "\\N", "\n"), "\\n", "\n", {'{', '}'});
    TrimNoneIn(broken, WhitespaceAndNewlines, {'{', '}'});
    Trim(broken, WhitespaceAndNewlines)
  }

  // ---------------------------------------------------------------------------
  // Files

  /** How reading the file went: it could not be read, it is neither UTF-8
      nor UTF-16, or its text. */
  datatype FileRead = Unreadable | Undecodable | Decoded(text: string)

  /** A parsing error, or the read's own error. */
  datatype ReadError = Parse(error: ParsingError) | ReadFailed

  /** `url.path`. */
  function UrlPath(u: Url): string {
    "/" + Join(u.dir + [u.name], "/")
  }

  /** Windows line ends become `\n`. */
  function NormaliseNewlines(raw: string): string {
    ReplaceAll(raw, "\r\n", "\n")
  }

  /** `parseFile`: the lower-cased extension picks the reader, and an
      unknown extension is refused before the file is read; the text's line
      ends are normalised first. */
  function ParseFile(url: Url, read: FileRead): (r: Result<(SubtitleFormat, seq<Segment>), ReadError>)
    ensures var ext := Lower(Extension(url.name));
      (r == Failure(Parse(UnsupportedFormat(ext))) <==> FormatFromRaw(ext).None?)
      && (r.Success? ==> read.Decoded? && FileExtension(r.value.0) == ext)
      && (FormatFromRaw(ext).Some? && read.Unreadable? ==> r == Failure(ReadFailed))
      && (FormatFromRaw(ext).Some? && read.Undecodable? ==> r == Failure(Parse(InvalidFile(UrlPath(url)))))
      && (FormatFromRaw(ext) == Some(Ass) && read.Decoded? ==> r.Success?)
  {
    var ext := Lower(Extension(url.name));
    match FormatFromRaw(ext)
    case None => Failure(Parse(UnsupportedFormat(ext)))
    case Some(format) =>
      match read
      case Unreadable => Failure(ReadFailed)
      case Undecodable => Failure(Parse(InvalidFile(UrlPath(url))))
      case Decoded(raw) => ParseText(format, NormaliseNewlines(raw))
  }

  /** The reader of `format` applied to normalised text. */
  function ParseText(format: SubtitleFormat, content: string): (r: Result<(SubtitleFormat, seq<Segment>), ReadError>)
    ensures r.Success? ==> r.value.0 == format
    ensures r.Failure? ==> r.error.Parse? && r.error.error.InvalidTimecode?
    ensures format == Ass ==> r.Success?
  {
    match format
    case Srt => (match ParseSRT(content)
                 case Failure(e) => Failure(Parse(e))
                 case Success(segs) => Success((Srt, segs)))
    case Vtt => (match ParseVTT(content)
                 case Failure(e) => Failure(Parse(e))
                 case Success(segs) => Success((Vtt, segs)))
    case Ass => Success((Ass, ParseASS(content)))
  }

  /** Writing every line end as `\r\n` and normalising gives the text back. */
  lemma {:induction false} CrlfNormalised(s: string)
    requires '\r' !in s
    ensures NormaliseNewlines(ReplaceAll(s, "\n", "\r\n")) == s
    decreases |s|
  {
    if |s| > 0 {
      var rest := ReplaceAll(s[1..], "\n", "\r\n");
      assert '\r' !in s[1..];
      CrlfNormalised(s[1..]);
      if s[0] == '\n' {
        assert StartsWith(s, "\n");
        assert ReplaceAll(s, "\n", "\r\n") == "\r\n" + rest;
        assert ("\r\n" + rest)[2..] == rest;
        assert StartsWith("\r\n" + rest, "\r\n");
      } else {
        assert !StartsWith(s, "\n");
        var w := [s[0]] + rest;
        assert ReplaceAll(s, "\n", "\r\n") == w;
        assert s[0] != '\r' && w[0] == s[0];
        assert !StartsWith(w, "\r\n") by {
          if |w| >= 2 { assert w[..2][0] == w[0]; }
        }
        assert w[1..] == rest;
        assert s == [s[0]] + s[1..];
      }
    }
  }

  /** Text without carriage returns needs no normalising. */
  lemma NoCarriageReturn(s: string)
    requires '\r' !in s
    ensures NormaliseNewlines(s) == s
  {
    AvoidsFirstChar(s, "\r\n");
    ReplaceAbsent(s, "\r\n", "\n");
  }

  /** A file written with Windows line ends reads exactly like the same file
      with `\n` line ends. */
  lemma CrlfReadsAsLf(url: Url, s: string)
    requires '\r' !in s
    ensures ParseFile(url, Decoded(ReplaceAll(s, "\n", "\r\n"))) == ParseFile(url, Decoded(s))
  {
    CrlfNormalised(s);
    NoCarriageReturn(s);
    SameNormalisedSameParse(url, ReplaceAll(s, "\n", "\r\n"), s);
  }

  /** Two texts that normalise alike read alike. */
  lemma SameNormalisedSameParse(url: Url, a: string, b: string)
    requires NormaliseNewlines(a) == NormaliseNewlines(b)
    ensures ParseFile(url, Decoded(a)) == ParseFile(url, Decoded(b))
  {
    var ext := Lower(Extension(url.name));
    if FormatFromRaw(ext).Some? {
      var f := FormatFromRaw(ext).value;
      assert ParseFile(url, Decoded(a)) == ParseText(f, NormaliseNewlines(a));
      assert ParseFile(url, Decoded(b)) == ParseText(f, NormaliseNewlines(b));
    }
  }
}

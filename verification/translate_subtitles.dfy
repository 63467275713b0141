/** Translating existing subtitle files: each file is read, its cues are
    translated, and a translated-only document of the same format is written
    next to it. Reading, translating and saving are parameters; the
    cancellation check before each file is an index. */
module TranslateSubtitles {
  import opened Wrappers
  import opened Text
  import opened Paths
  import opened Media
  import opened Domain
  import SubtitleWriter
  import opened SubtitleReader

  /** The language code as it appears in a file name: dashes become
      underscores. */
  function SanitizedLanguage(lang: string): (r: string)
    ensures NoneIn(r, {'-'})
  {
    ReplaceCharGone(lang, '-', "_");
    ReplaceAll(lang, "-", "_")
  }

  /** `buildOutputURL`: the input's directory, and its base name followed by
      `_`, the sanitised language and the format's extension. */
  function OutputUrl(input: Url, lang: string, format: SubtitleFormat): Url {
    InDir(input.dir, BaseName(input.name) + "_" + SanitizedLanguage(lang) + "." + FileExtension(format))
  }

  /** The extension of a format is lower-case and has no dot. */
  lemma FormatExtensionPlain(format: SubtitleFormat)
    ensures '.' !in FileExtension(format)
    ensures Lower(FileExtension(format)) == FileExtension(format)
  {
    var e := FileExtension(format);
    assert |Lower(e)| == 3 && Lower(e)[0] == e[0] && Lower(e)[1] == e[1] && Lower(e)[2] == e[2];
  }

  /** The output sits next to the input, keeps the input's base name and the
      language as its suffix, carries the format's extension and is read back
      by the reader of that same format. */
  lemma OutputUrlFacts(input: Url, lang: string, format: SubtitleFormat)
    ensures var out := OutputUrl(input, lang, format);
      out.dir == input.dir
      && BaseName(out.name) == BaseName(input.name) + "_" + SanitizedLanguage(lang)
      && Extension(out.name) == FileExtension(format)
      && FormatFromRaw(Lower(Extension(out.name))) == Some(format)
  {
    var base := BaseName(input.name) + "_" + SanitizedLanguage(lang);
    FormatExtensionPlain(format);
    ExtensionOfBuiltName(base, FileExtension(format));
    FormatRoundTrip(format);
  }

  /** A string not starting with a dash keeps its first character. */
  lemma KeepsFirst(s: string)
    requires |s| > 0 && s[0] != '-'
    ensures ReplaceAll(s, "-", "_") == [s[0]] + ReplaceAll(s[1..], "-", "_")
  {
    assert s[..1][0] == s[0];
  }

  /** A code without a dash is kept. */
  lemma SanitizedPlain()
    ensures SanitizedLanguage("ru") == "ru"
  {
    KeepsFirst("u");
    assert ReplaceAll("u", "-", "_") == "u" by { assert "u"[1..] == ""; }
    KeepsFirst("ru");
    assert ReplaceAll("ru", "-", "_") == "ru" by { assert "ru"[1..] == "u"; }
  }

  /** A region code's dash becomes an underscore. */
  lemma SanitizedRegion()
    ensures SanitizedLanguage("pt-BR") == "pt_BR"
  {
    KeepsFirst("R");
    assert ReplaceAll("R", "-", "_") == "R" by { assert "R"[1..] == ""; }
    KeepsFirst("BR");
    assert ReplaceAll("BR", "-", "_") == "BR" by { assert "BR"[1..] == "R"; }
    assert ReplaceAll("-BR", "-", "_") == "_BR" by { assert "-BR"[..1] == "-" && "-BR"[1..] == "BR"; }
    KeepsFirst("t-BR");
    assert ReplaceAll("t-BR", "-", "_") == "t_BR" by { assert "t-BR"[1..] == "-BR"; }
    KeepsFirst("pt-BR");
    assert ReplaceAll("pt-BR", "-", "_") == "pt_BR" by { assert "pt-BR"[1..] == "t-BR"; }
  }

  /** `movie.srt` translated to Russian is written as `movie_ru.srt`. */
  lemma OutputUrlExample(d: Dir)
    ensures OutputUrl(Url(d, "movie.srt"), "ru", Srt) == Url(d, "movie_ru.srt")
  {
    var name := "movie" + "." + "srt";
    assert name == "movie.srt";
    ExtensionOfBuiltName("movie", "srt");
    assert BaseName(name) == "movie";
    SanitizedPlain();
    assert "movie" + "_" + "ru" + "." + "srt" == "movie_ru.srt";
  }

  /** A region code keeps its parts apart with an underscore, and only the
      last dot of the input starts its extension. */
  lemma OutputUrlRegionExample(d: Dir)
    ensures OutputUrl(Url(d, "talk.en.vtt"), "pt-BR", Vtt) == Url(d, "talk.en_pt_BR.vtt")
  {
    var name := "talk.en" + "." + "vtt";
    assert name == "talk.en.vtt";
    ExtensionOfBuiltName("talk.en", "vtt");
    assert BaseName(name) == "talk.en";
    SanitizedRegion();
    assert "talk.en" + "_" + "pt_BR" + "." + "vtt" == "talk.en_pt_BR.vtt";
  }

  // ---------------------------------------------------------------------------
  // The per-file flow

  /** What the collaborators do for one file: what reading it gives, what the
      translator returns for its cues (possibly fewer than asked for), and
      whether saving the translated document succeeds. */
  datatype FileEnv = FileEnv(read: FileRead, translated: seq<BilingualSegment>, saved: bool)

  /** Why a file failed: its reading failed, or its document was not saved. */
  datatype FailureReason = ReadFailure(error: ReadError) | NotSaved

  /** The error text handed to the callback for a document that was not
      saved. */
  const NotSavedMessage := "Failed to generate translated subtitles"

  /** One `onFileFinished` call. */
  datatype Callback = Callback(index: nat, file: Url, success: bool, failure: Option<FailureReason>)

  /** What happened to one file. */
  datatype FileOutcome =
    | Skipped
    | Unread(error: ReadError)
    | Generated(format: SubtitleFormat, output: Url, generation: SubtitleWriter.Generation)

  /** The body of the loop for one file. */
  function ProcessFile(file: Url, fe: FileEnv, lang: string): (o: FileOutcome)
    ensures o.Unread? <==> ParseFile(file, fe.read).Failure?
    ensures o.Generated? ==> o.output == OutputUrl(file, lang, o.format)
                             && (o.generation.ok <==> fe.saved)
                             && o.generation.writes == [SubtitleWriter.Write(UrlPath(o.output),
                                  SubtitleWriter.Content(o.format, fe.translated, true))]
    ensures o.Skipped? <==> ParseFile(file, fe.read).Success?
                            && (ParseFile(file, fe.read).value.1 == [] || fe.translated == [])
  {
    match ParseFile(file, fe.read)
    case Failure(e) => Unread(e)
    case Success((format, segments)) =>
      if |segments| == 0 || |fe.translated| == 0 then Skipped
      else
        var output := OutputUrl(file, lang, format);
        Generated(format, output, SubtitleWriter.GenerateSingle(format, fe.translated, UrlPath(output), true, fe.saved))
  }

  /** The callback a file's outcome triggers, if any. */
  function CallbackOf(index: nat, file: Url, o: FileOutcome): Option<Callback> {
    match o
    case Skipped => None
    case Unread(e) => Some(Callback(index, file, false, Some(ReadFailure(e))))
    case Generated(_, _, g) => Some(Callback(index, file, g.ok, if g.ok then None else Some(NotSaved)))
  }

  /** The error text a failure is reported with; the description of a read
      error is left to `describe`. */
  function FailureMessage(f: FailureReason, describe: ReadError -> string): string {
    match f
    case ReadFailure(e) => describe(e)
    case NotSaved => NotSavedMessage
  }

  /** A whole run: the callbacks made, the documents attempted, and whether
      it ended by cancellation. */
  datatype Run = Run(callbacks: seq<Callback>, writes: seq<SubtitleWriter.Write>, cancelled: bool)

  /** Whether the check before file `i` throws: cancellation becomes visible
      at check `cancelAt` and stays so. */
  predicate CancelledBefore(i: nat, cancelAt: Option<nat>) {
    cancelAt.Some? && cancelAt.value <= i
  }

  /** What the loop body would do with each file. */
  function Outcomes(files: seq<Url>, env: seq<FileEnv>, lang: string): (os: seq<FileOutcome>)
    requires |env| == |files|
    ensures |os| == |files| && forall i :: 0 <= i < |files| ==> os[i] == ProcessFile(files[i], env[i], lang)
  {
    seq(|files|, i requires 0 <= i < |files| => ProcessFile(files[i], env[i], lang))
  }

  /** The loop from file `i` on, given each file's outcome. */
  function RunFrom(files: seq<Url>, outcomes: seq<FileOutcome>, cancelAt: Option<nat>, i: nat): (r: Run)
    requires |outcomes| == |files| && i <= |files|
    ensures forall k :: 0 <= k < |r.callbacks| ==> i <= r.callbacks[k].index < |files|
    decreases |files| - i
  {
    if i == |files| then Run([], [], false)
    else if CancelledBefore(i, cancelAt) then Run([], [], true)
    else
      var o := outcomes[i];
      var rest := RunFrom(files, outcomes, cancelAt, i + 1);
      var c := CallbackOf(i, files[i], o);
      Run((if c.Some? then [c.value] else []) + rest.callbacks,
          WritesOf(o) + rest.writes,
          rest.cancelled)
  }

  /** `execute`: nothing at all for no files, not even the cancellation
      check; otherwise the loop over every file. */
  function Execute(files: seq<Url>, env: seq<FileEnv>, lang: string, cancelAt: Option<nat>): (r: Run)
    requires |env| == |files|
    ensures |files| == 0 ==> r.callbacks == [] && r.writes == [] && !r.cancelled
  {
    if |files| == 0 then Run([], [], false)
    else RunFrom(files, Outcomes(files, env, lang), cancelAt, 0)
  }

  /** The first index at which the loop stops: the first cancelling check,
      or the end of the list. */
  function StopAt(n: nat, cancelAt: Option<nat>): (k: nat)
    ensures k <= n
    ensures forall i :: 0 <= i < k ==> !CancelledBefore(i, cancelAt)
    ensures k < n ==> CancelledBefore(k, cancelAt)
  {
    if cancelAt.Some? && cancelAt.value < n then cancelAt.value else n
  }

  /** The loop from `i` ends by cancellation exactly when the stop comes
      before the end of the list. */
  lemma {:induction false} RunFromCancelled(files: seq<Url>, outcomes: seq<FileOutcome>, cancelAt: Option<nat>, i: nat)
    requires |outcomes| == |files| && i <= StopAt(|files|, cancelAt)
    ensures RunFrom(files, outcomes, cancelAt, i).cancelled <==> StopAt(|files|, cancelAt) < |files|
    decreases |files| - i
  {
    var stop := StopAt(|files|, cancelAt);
    if i < |files| && i < stop {
      RunFromCancelled(files, outcomes, cancelAt, i + 1);
    } else if i < |files| {
      assert CancelledBefore(i, cancelAt);
    }
  }

  /** Callbacks in strictly increasing file order, hence at most one per
      file. */
  predicate Increasing(cs: seq<Callback>) {
    forall a, b :: 0 <= a < b < |cs| ==> cs[a].index < cs[b].index
  }

  /** The callbacks of the loop from `i` come in strictly increasing file
      order. */
  lemma {:induction false} RunFromOrdered(files: seq<Url>, outcomes: seq<FileOutcome>, cancelAt: Option<nat>, i: nat)
    requires |outcomes| == |files| && i <= |files|
    ensures Increasing(RunFrom(files, outcomes, cancelAt, i).callbacks)
    decreases |files| - i
  {
    if i < |files| && !CancelledBefore(i, cancelAt) {
      var rest := RunFrom(files, outcomes, cancelAt, i + 1).callbacks;
      var c := CallbackOf(i, files[i], outcomes[i]);
      var head := if c.Some? then [c.value] else [];
      RunFromOrdered(files, outcomes, cancelAt, i + 1);
      RunFromStep(files, outcomes, cancelAt, i);
      IncreasingCons(head, rest, i);
    }
  }

  /** One turn of the loop: the file's callback, if any, and its writes come
      before those of the rest of the loop. */
  lemma RunFromStep(files: seq<Url>, outcomes: seq<FileOutcome>, cancelAt: Option<nat>, i: nat)
    requires |outcomes| == |files| && i < |files| && !CancelledBefore(i, cancelAt)
    ensures var o, rest := outcomes[i], RunFrom(files, outcomes, cancelAt, i + 1);
      var c := CallbackOf(i, files[i], o);
      RunFrom(files, outcomes, cancelAt, i)
        == Run((if c.Some? then [c.value] else []) + rest.callbacks,
               WritesOf(o) + rest.writes,
               rest.cancelled)
  {
  }

  /** A callback for file `i` in front of increasing callbacks for later
      files keeps them increasing. */
  lemma IncreasingCons(head: seq<Callback>, rest: seq<Callback>, i: nat)
    requires |head| <= 1 && (|head| == 1 ==> head[0].index == i)
    requires Increasing(rest) && forall k :: 0 <= k < |rest| ==> i < rest[k].index
    ensures Increasing(head + rest)
  {
    var cs := head + rest;
    forall a, b | 0 <= a < b < |cs| ensures cs[a].index < cs[b].index {
      assert cs[b] == rest[b - |head|];
      if a >= |head| {
        assert cs[a] == rest[a - |head|];
      }
    }
  }

  /** Each callback is for a file before `stop`, and is the one its file's
      outcome calls for. */
  predicate Truthful(files: seq<Url>, outcomes: seq<FileOutcome>, stop: nat, cs: seq<Callback>)
    requires |outcomes| == |files| && stop <= |files|
  {
    forall k :: 0 <= k < |cs| ==>
      cs[k].index < stop && Some(cs[k]) == CallbackOf(cs[k].index, files[cs[k].index], outcomes[cs[k].index])
  }

  /** Each callback of the loop from `i` is for a file before the stop, and
      is the one its file's outcome calls for. */
  lemma {:induction false} RunFromTruthful(files: seq<Url>, outcomes: seq<FileOutcome>, cancelAt: Option<nat>, i: nat)
    requires |outcomes| == |files| && i <= StopAt(|files|, cancelAt)
    ensures Truthful(files, outcomes, StopAt(|files|, cancelAt), RunFrom(files, outcomes, cancelAt, i).callbacks)
    decreases |files| - i
  {
    var stop := StopAt(|files|, cancelAt);
    if i < |files| && i < stop {
      var c := CallbackOf(i, files[i], outcomes[i]);
      RunFromTruthful(files, outcomes, cancelAt, i + 1);
      RunFromStep(files, outcomes, cancelAt, i);
      TruthfulCons(files, outcomes, stop, i, if c.Some? then [c.value] else [],
                   RunFrom(files, outcomes, cancelAt, i + 1).callbacks);
    } else if i < |files| {
      assert CancelledBefore(i, cancelAt);
    }
  }

  /** File `i`'s own callback in front of truthful callbacks keeps them
      truthful. */
  lemma TruthfulCons(files: seq<Url>, outcomes: seq<FileOutcome>, stop: nat, i: nat, head: seq<Callback>, rest: seq<Callback>)
    requires |outcomes| == |files| && i < stop <= |files|
    requires var c := CallbackOf(i, files[i], outcomes[i]); head == if c.Some? then [c.value] else []
    requires Truthful(files, outcomes, stop, rest)
    ensures Truthful(files, outcomes, stop, head + rest)
  {
    var cs := head + rest;
    forall k | 0 <= k < |cs|
      ensures cs[k].index < stop && Some(cs[k]) == CallbackOf(cs[k].index, files[cs[k].index], outcomes[cs[k].index])
    {
      if k >= |head| {
        assert cs[k] == rest[k - |head|];
      }
    }
  }

  /** Every file from `i` to `stop` that was not skipped has a callback. */
  predicate Complete(outcomes: seq<FileOutcome>, i: nat, stop: nat, cs: seq<Callback>)
    requires stop <= |outcomes|
  {
    forall j :: i <= j < stop && !outcomes[j].Skipped? ==> exists k :: 0 <= k < |cs| && cs[k].index == j
  }

  /** Every file from `i` to the stop that was not skipped has a callback. */
  lemma {:induction false} RunFromComplete(files: seq<Url>, outcomes: seq<FileOutcome>, cancelAt: Option<nat>, i: nat)
    requires |outcomes| == |files| && i <= StopAt(|files|, cancelAt)
    ensures Complete(outcomes, i, StopAt(|files|, cancelAt), RunFrom(files, outcomes, cancelAt, i).callbacks)
    decreases |files| - i
  {
    var stop := StopAt(|files|, cancelAt);
    if i < |files| && i < stop {
      var c := CallbackOf(i, files[i], outcomes[i]);
      RunFromComplete(files, outcomes, cancelAt, i + 1);
      RunFromStep(files, outcomes, cancelAt, i);
      CompleteCons(outcomes, i, stop, if c.Some? then [c.value] else [],
                   RunFrom(files, outcomes, cancelAt, i + 1).callbacks);
    }
  }

  /** A callback for file `i`, present unless the file was skipped, in front
      of callbacks covering the files after it covers file `i` too. */
  lemma CompleteCons(outcomes: seq<FileOutcome>, i: nat, stop: nat, head: seq<Callback>, rest: seq<Callback>)
    requires i < stop <= |outcomes|
    requires |head| <= 1 && (!outcomes[i].Skipped? ==> |head| == 1 && head[0].index == i)
    requires Complete(outcomes, i + 1, stop, rest)
    ensures Complete(outcomes, i, stop, head + rest)
  {
    var cs := head + rest;
    forall j | i <= j < stop && !outcomes[j].Skipped?
      ensures exists k :: 0 <= k < |cs| && cs[k].index == j
    {
      if j == i {
        assert cs[0].index == i;
      } else {
        var k :| 0 <= k < |rest| && rest[k].index == j;
        assert cs[k + |head|] == rest[k];
      }
    }
  }

  /** A callback succeeds exactly when its file was read, had cues, was
      translated and was saved, and carries a failure reason otherwise. */
  lemma CallbackSuccess(index: nat, file: Url, fe: FileEnv, lang: string)
    requires CallbackOf(index, file, ProcessFile(file, fe, lang)).Some?
    ensures var c := CallbackOf(index, file, ProcessFile(file, fe, lang)).value;
      c.index == index && c.file == file
      && (c.success <==> ParseFile(file, fe.read).Success? && ParseFile(file, fe.read).value.1 != []
                         && fe.translated != [] && fe.saved)
      && (!c.success <==> c.failure.Some?)
  {
  }

  /** The callbacks of a run: strictly increasing file indices, so at most
      one per file; one for every file before the stop that was not skipped
      and none after it; each with its file and with success exactly when
      the file was read, had cues, was translated and was saved. */
  lemma ExecuteCallbacks(files: seq<Url>, env: seq<FileEnv>, lang: string, cancelAt: Option<nat>)
    requires |env| == |files| && |files| > 0
    ensures var r := Execute(files, env, lang, cancelAt);
      var stop := StopAt(|files|, cancelAt);
      (r.cancelled <==> stop < |files|)
      && (forall a, b :: 0 <= a < b < |r.callbacks| ==> r.callbacks[a].index < r.callbacks[b].index)
      && (forall k :: 0 <= k < |r.callbacks| ==>
            var j := r.callbacks[k].index;
            j < stop && r.callbacks[k].file == files[j]
            && (r.callbacks[k].success <==>
                  ParseFile(files[j], env[j].read).Success? && ParseFile(files[j], env[j].read).value.1 != []
                  && env[j].translated != [] && env[j].saved))
      && (forall j :: 0 <= j < stop && !ProcessFile(files[j], env[j], lang).Skipped? ==>
            exists k :: 0 <= k < |r.callbacks| && r.callbacks[k].index == j)
  {
    var os := Outcomes(files, env, lang);
    var r := Execute(files, env, lang, cancelAt);
    RunFromCancelled(files, os, cancelAt, 0);
    RunFromOrdered(files, os, cancelAt, 0);
    RunFromTruthful(files, os, cancelAt, 0);
    RunFromComplete(files, os, cancelAt, 0);
    forall k | 0 <= k < |r.callbacks|
      ensures var j := r.callbacks[k].index;
        r.callbacks[k].file == files[j]
        && (r.callbacks[k].success <==>
              ParseFile(files[j], env[j].read).Success? && ParseFile(files[j], env[j].read).value.1 != []
              && env[j].translated != [] && env[j].saved)
    {
      var j := r.callbacks[k].index;
      CallbackSuccess(j, files[j], env[j], lang);
    }
  }

  /** A file whose reading fails is reported with that error, and the loop
      goes on to the next file. */
  lemma ReadFailureReported(files: seq<Url>, env: seq<FileEnv>, lang: string, cancelAt: Option<nat>, i: nat)
    requires |env| == |files| && i < StopAt(|files|, cancelAt)
    requires ParseFile(files[i], env[i].read).Failure?
    ensures var os := Outcomes(files, env, lang);
      var r := RunFrom(files, os, cancelAt, i);
      |r.callbacks| > 0
      && r.callbacks[0] == Callback(i, files[i], false, Some(ReadFailure(ParseFile(files[i], env[i].read).error)))
      && r.callbacks[1..] == RunFrom(files, os, cancelAt, i + 1).callbacks
  {
    var os := Outcomes(files, env, lang);
    assert !CancelledBefore(i, cancelAt);
    assert os[i] == Unread(ParseFile(files[i], env[i].read).error);
  }

  /** The document one file is expected to produce: the translated-only
      document of the file's own format at its output path, when the file
      was read, had cues and was translated; nothing otherwise. */
  function FileWrites(file: Url, fe: FileEnv, lang: string): seq<SubtitleWriter.Write> {
    match ParseFile(file, fe.read)
    case Success((format, segments)) =>
      if segments != [] && fe.translated != [] then
        [SubtitleWriter.Write(UrlPath(OutputUrl(file, lang, format)),
                              SubtitleWriter.Content(format, fe.translated, true))]
      else []
    case Failure(_) => []
  }

  /** The documents a run writes, as a reference: each file's expected
      document, for the files before the stop, in file order. */
  function ExpectedWrites(files: seq<Url>, env: seq<FileEnv>, lang: string, i: nat, stop: nat): seq<SubtitleWriter.Write>
    requires |env| == |files| && i <= stop <= |files|
  {
    Flatten(FileWritesEach(files, env, lang), i, stop)
  }

  /** Each file's expected document list, by position. */
  function FileWritesEach(files: seq<Url>, env: seq<FileEnv>, lang: string): (fw: seq<seq<SubtitleWriter.Write>>)
    requires |env| == |files|
    ensures |fw| == |files| && forall k :: 0 <= k < |files| ==> fw[k] == FileWrites(files[k], env[k], lang)
  {
    seq(|files|, k requires 0 <= k < |files| => FileWrites(files[k], env[k], lang))
  }

  /** The lists `i` to `stop` of `parts`, joined in order. */
  function Flatten<T>(parts: seq<seq<T>>, i: nat, stop: nat): seq<T>
    requires i <= stop <= |parts|
    decreases stop - i
  {
    if i == stop then [] else parts[i] + Flatten(parts, i + 1, stop)
  }

  /** The writes one outcome adds. */
  function WritesOf(o: FileOutcome): seq<SubtitleWriter.Write> {
    if o.Generated? then o.generation.writes else []
  }

  /** The writes one file's outcome adds. */
  lemma OutcomeWrites(file: Url, fe: FileEnv, lang: string)
    ensures WritesOf(ProcessFile(file, fe, lang)) == FileWrites(file, fe, lang)
  {
  }

  /** The loop writes exactly the expected documents. */
  lemma RunFromWrites(files: seq<Url>, env: seq<FileEnv>, lang: string, cancelAt: Option<nat>, i: nat)
    requires |env| == |files| && i <= StopAt(|files|, cancelAt)
    ensures RunFrom(files, Outcomes(files, env, lang), cancelAt, i).writes
            == ExpectedWrites(files, env, lang, i, StopAt(|files|, cancelAt))
  {
    var os := Outcomes(files, env, lang);
    var stop := StopAt(|files|, cancelAt);
    RunFromWritesOutcomes(files, os, cancelAt, i);
    OutcomesWriteExpected(files, env, lang, i, stop);
  }

  /** The writes the outcomes of files `i` to `stop` add, in file order. */
  function OutcomeWritesFrom(os: seq<FileOutcome>, i: nat, stop: nat): seq<SubtitleWriter.Write>
    requires i <= stop <= |os|
    decreases stop - i
  {
    if i == stop then []
    else WritesOf(os[i]) + OutcomeWritesFrom(os, i + 1, stop)
  }

  /** The loop from `i` writes what the outcomes before the stop add. */
  lemma {:induction false} RunFromWritesOutcomes(files: seq<Url>, os: seq<FileOutcome>, cancelAt: Option<nat>, i: nat)
    requires |os| == |files| && i <= StopAt(|files|, cancelAt)
    ensures RunFrom(files, os, cancelAt, i).writes == OutcomeWritesFrom(os, i, StopAt(|files|, cancelAt))
    decreases |files| - i
  {
    var stop := StopAt(|files|, cancelAt);
    if i < |files| && i < stop {
      RunFromWritesOutcomes(files, os, cancelAt, i + 1);
      RunFromStep(files, os, cancelAt, i);
    } else if i < |files| {
      assert CancelledBefore(i, cancelAt);
    }
  }

  /** Each file's outcome adds the document that file is expected to
      produce. */
  lemma OutcomesWriteExpected(files: seq<Url>, env: seq<FileEnv>, lang: string, i: nat, stop: nat)
    requires |env| == |files| && i <= stop <= |files|
    ensures OutcomeWritesFrom(Outcomes(files, env, lang), i, stop) == ExpectedWrites(files, env, lang, i, stop)
  {
    var os := Outcomes(files, env, lang);
    var fw := FileWritesEach(files, env, lang);
    forall k | i <= k < stop
      ensures WritesOf(os[k]) == fw[k]
    {
      OutcomeWrites(files[k], env[k], lang);
    }
    OutcomesFlatten(os, fw, i, stop);
  }

  /** Outcomes that add the given lists, position by position, add their
      concatenation. */
  lemma {:induction false} OutcomesFlatten(os: seq<FileOutcome>, fw: seq<seq<SubtitleWriter.Write>>, i: nat, stop: nat)
    requires |fw| == |os| && i <= stop <= |os|
    requires forall k :: i <= k < stop ==> WritesOf(os[k]) == fw[k]
    ensures OutcomeWritesFrom(os, i, stop) == Flatten(fw, i, stop)
    decreases stop - i
  {
    if i < stop {
      OutcomesFlatten(os, fw, i + 1, stop);
    }
  }

  /** Every document written is read back by the reader of the format the
      input had: the output's extension selects that same format. */
  lemma WritesKeepFormat(file: Url, read: FileRead, lang: string)
    ensures var r := ParseFile(file, read);
      r.Success? ==> FormatFromRaw(Lower(Extension(OutputUrl(file, lang, r.value.0).name))) == Some(r.value.0)
  {
    var r := ParseFile(file, read);
    if r.Success? {
      OutputUrlFacts(file, lang, r.value.0);
    }
  }
}

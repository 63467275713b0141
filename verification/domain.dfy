/** The domain records of the processing queue: task status, pipeline steps,
    processing modes, the per-task configuration and its validation,
    progress reports, output files, the task itself, and the system-check
    results. Dates are seconds on a common clock; ids are tokens handed out
    by the caller. */
module Domain {
  import opened Wrappers
  import opened Text
  import opened Paths
  import opened Seqs

  // ---------------------------------------------------------------------
  // TaskStatus

  datatype TaskStatus = Pending | Processing | Completed | Failed | Cancelled

  function StatusRaw(s: TaskStatus): string {
    match s
    case Pending => "pending"
    case Processing => "processing"
    case Completed => "completed"
    case Failed => "failed"
    case Cancelled => "cancelled"
  }

  /** `TaskStatus(rawValue:)`. */
  function StatusFromRaw(raw: string): (s: Option<TaskStatus>)
    ensures s.Some? ==> StatusRaw(s.value) == raw
  {
    if raw == "pending" then Some(Pending)
    else if raw == "processing" then Some(Processing)
    else if raw == "completed" then Some(Completed)
    else if raw == "failed" then Some(Failed)
    else if raw == "cancelled" then Some(Cancelled)
    else None
  }

  /** Raw values identify statuses. */
  lemma StatusRawRoundTrip(s: TaskStatus)
    ensures StatusFromRaw(StatusRaw(s)) == Some(s)
  {
  }

  predicate IsActive(s: TaskStatus) {
    s == Processing
  }

  /** Finished, successfully or not. */
  predicate IsFinished(s: TaskStatus) {
    s == Completed || s == Failed || s == Cancelled
  }

  /** Exactly one of: waiting, running, finished. */
  lemma StatusClasses(s: TaskStatus)
    ensures !(IsActive(s) && IsFinished(s))
    ensures s == Pending <==> !IsActive(s) && !IsFinished(s)
  {
  }

  // ---------------------------------------------------------------------
  // ProcessingStep

  datatype ProcessingStep =
    | Idle | ExtractingAudio | Transcribing | Translating | GeneratingSubtitles
    | GeneratingTTS | AssemblingAudio | ComposingVideo | StepCompleted

  function StepRaw(s: ProcessingStep): (n: nat)
    ensures n <= 8
  {
    match s
    case Idle => 0
    case ExtractingAudio => 1
    case Transcribing => 2
    case Translating => 3
    case GeneratingSubtitles => 4
    case GeneratingTTS => 5
    case AssemblingAudio => 6
    case ComposingVideo => 7
    case StepCompleted => 8
  }

  /** `ProcessingStep(rawValue:)`. */
  function StepFromRaw(n: int): (s: Option<ProcessingStep>)
    ensures s.Some? <==> 0 <= n <= 8
    ensures s.Some? ==> StepRaw(s.value) == n
  {
    if n == 0 then Some(Idle)
    else if n == 1 then Some(ExtractingAudio)
    else if n == 2 then Some(Transcribing)
    else if n == 3 then Some(Translating)
    else if n == 4 then Some(GeneratingSubtitles)
    else if n == 5 then Some(GeneratingTTS)
    else if n == 6 then Some(AssemblingAudio)
    else if n == 7 then Some(ComposingVideo)
    else if n == 8 then Some(StepCompleted)
    else None
  }

  lemma StepRawRoundTrip(s: ProcessingStep)
    ensures StepFromRaw(StepRaw(s)) == Some(s)
  {
  }

  /** The step's display title, used as the progress message. */
  function StepTitle(s: ProcessingStep): string {
    match s
    case Idle => "Idle"
    case ExtractingAudio => "Extracting Audio"
    case Transcribing => "Transcribing"
    case Translating => "Translating"
    case GeneratingSubtitles => "Generating Subtitles"
    case GeneratingTTS => "Generating TTS"
    case AssemblingAudio => "Assembling Audio"
    case ComposingVideo => "Composing Video"
    case StepCompleted => "Completed"
  }

  function ProgressWeight(s: ProcessingStep): (w: real)
    ensures 0.0 <= w <= 1.0
    ensures s == Idle ==> w == 0.0
    ensures s == StepCompleted ==> w == 1.0
  {
    match s
    case Idle => 0.0
    case ExtractingAudio => 0.10
    case Transcribing => 0.25
    case Translating => 0.15
    case GeneratingSubtitles => 0.10
    case GeneratingTTS => 0.20
    case AssemblingAudio => 0.10
    case ComposingVideo => 0.10
    case StepCompleted => 1.0
  }

  function TotalWeight(steps: seq<ProcessingStep>): real
    decreases |steps|
  {
    if |steps| == 0 then 0.0 else ProgressWeight(steps[0]) + TotalWeight(steps[1..])
  }

  /** The working steps' weights add up to one: the full pipeline is the
      whole job. */
  lemma FullPipelineWeighsOne()
    ensures TotalWeight(Steps(FullPipeline)) == 1.0
  {
    var s := Steps(FullPipeline);
    assert s[1..] == [Transcribing, Translating, GeneratingSubtitles, GeneratingTTS, AssemblingAudio, ComposingVideo];
    assert s[2..] == [Translating, GeneratingSubtitles, GeneratingTTS, AssemblingAudio, ComposingVideo];
    assert s[3..] == [GeneratingSubtitles, GeneratingTTS, AssemblingAudio, ComposingVideo];
    assert s[4..] == [GeneratingTTS, AssemblingAudio, ComposingVideo];
    assert s[5..] == [AssemblingAudio, ComposingVideo];
    assert s[6..] == [ComposingVideo];
    assert s[1..][1..] == s[2..] && s[2..][1..] == s[3..] && s[3..][1..] == s[4..];
    assert s[4..][1..] == s[5..] && s[5..][1..] == s[6..] && s[6..][1..] == [];
  }

  // ---------------------------------------------------------------------
  // ProcessingMode

  datatype ProcessingMode = SubtitlesOnly | SubtitlesWithTranslation | DubbedVideoOnly | FullPipeline

  function ModeRaw(m: ProcessingMode): string {
    match m
    case SubtitlesOnly => "subtitles_only"
    case SubtitlesWithTranslation => "subtitles_translation"
    case DubbedVideoOnly => "dubbed_video_only"
    case FullPipeline => "full_pipeline"
  }

  /** The steps a mode runs, in execution order. */
  function Steps(m: ProcessingMode): seq<ProcessingStep> {
    match m
    case SubtitlesOnly => [ExtractingAudio, Transcribing, GeneratingSubtitles]
    case SubtitlesWithTranslation => [ExtractingAudio, Transcribing, Translating, GeneratingSubtitles]
    case DubbedVideoOnly =>
      [ExtractingAudio, Transcribing, Translating, GeneratingTTS, AssemblingAudio, ComposingVideo]
    case FullPipeline =>
      [ExtractingAudio, Transcribing, Translating, GeneratingSubtitles, GeneratingTTS, AssemblingAudio, ComposingVideo]
  }

  predicate RequiresTranslation(m: ProcessingMode) {
    m != SubtitlesOnly
  }

  predicate GeneratesSubtitles(m: ProcessingMode) {
    m == SubtitlesOnly || m == SubtitlesWithTranslation || m == FullPipeline
  }

  predicate GeneratesVideo(m: ProcessingMode) {
    m == DubbedVideoOnly || m == FullPipeline
  }

  /** The mode flags agree with the step lists: every list begins with
      extraction then transcription, runs in raw-value order, never holds
      idle or completed, and holds the translation, subtitle and video steps
      exactly when the corresponding flag is set. */
  lemma ModeStepsAgree(m: ProcessingMode)
    ensures |Steps(m)| >= 2 && Steps(m)[0] == ExtractingAudio && Steps(m)[1] == Transcribing
    ensures forall i, j :: 0 <= i < j < |Steps(m)| ==> StepRaw(Steps(m)[i]) < StepRaw(Steps(m)[j])
    ensures Idle !in Steps(m) && StepCompleted !in Steps(m)
    ensures Translating in Steps(m) <==> RequiresTranslation(m)
    ensures GeneratingSubtitles in Steps(m) <==> GeneratesSubtitles(m)
    ensures GeneratingTTS in Steps(m) <==> GeneratesVideo(m)
    ensures AssemblingAudio in Steps(m) <==> GeneratesVideo(m)
    ensures ComposingVideo in Steps(m) <==> GeneratesVideo(m)
    ensures |Steps(m)| == match m
      case SubtitlesOnly => 3
      case SubtitlesWithTranslation => 4
      case DubbedVideoOnly => 6
      case FullPipeline => 7
  {
  }

  // ---------------------------------------------------------------------
  // Configuration

  datatype SubtitleFormat = Srt | Vtt | Ass

  /** `fileExtension`, which is the raw value. */
  function FileExtension(f: SubtitleFormat): string {
    match f
    case Srt => "srt"
    case Vtt => "vtt"
    case Ass => "ass"
  }

  /** `SubtitleFormat(rawValue:)`. */
  function FormatFromRaw(raw: string): (f: Option<SubtitleFormat>)
    ensures f.Some? ==> FileExtension(f.value) == raw
  {
    if raw == "srt" then Some(Srt)
    else if raw == "vtt" then Some(Vtt)
    else if raw == "ass" then Some(Ass)
    else None
  }

  lemma FormatRoundTrip(f: SubtitleFormat)
    ensures FormatFromRaw(FileExtension(f)) == Some(f)
  {
  }

  datatype ProcessingConfiguration = ProcessingConfiguration(
    mode: ProcessingMode,
    sourceLanguage: string,
    targetLanguage: string,
    whisperModel: string,
    ttsVoice: string,
    enableSpeedSync: bool,
    useFixedSegmentDuration: bool,
    fixedSegmentDuration: real,
    outputDirectory: Option<Dir>,
    cleanupTempFiles: bool,
    subtitleFormat: SubtitleFormat)

  const DefaultConfig := ProcessingConfiguration(
    FullPipeline, "en", "ru", "base", "ru-RU-DmitryNeural",
    true, false, 7.0, None, true, Srt)

  const SupportedLanguages: set<string> := {"en", "ru", "uk"}
  const SupportedModels: set<string> := {"tiny", "base", "small", "medium"}

  datatype ConfigurationError =
    | SameSourceAndTarget
    | UnsupportedLanguage(language: string)
    | UnsupportedModel(model: string)

  /** `validate()`: the first failing check, or `None`. */
  function Validate(c: ProcessingConfiguration): (e: Option<ConfigurationError>)
    ensures c.sourceLanguage == c.targetLanguage ==> e == Some(SameSourceAndTarget)
    ensures e == Some(SameSourceAndTarget) ==> c.sourceLanguage == c.targetLanguage
    ensures e.Some? && e.value.UnsupportedLanguage? ==>
      c.sourceLanguage != c.targetLanguage
      && (if c.sourceLanguage !in SupportedLanguages then e.value.language == c.sourceLanguage
          else e.value.language == c.targetLanguage && c.targetLanguage !in SupportedLanguages)
    ensures e.Some? && e.value.UnsupportedModel? ==>
      c.sourceLanguage in SupportedLanguages && c.targetLanguage in SupportedLanguages
      && e.value.model == c.whisperModel && c.whisperModel !in SupportedModels
    ensures e.None? <==>
      c.sourceLanguage != c.targetLanguage
      && c.sourceLanguage in SupportedLanguages && c.targetLanguage in SupportedLanguages
      && c.whisperModel in SupportedModels
  {
    if c.sourceLanguage == c.targetLanguage then Some(SameSourceAndTarget)
    else if c.sourceLanguage !in SupportedLanguages then Some(UnsupportedLanguage(c.sourceLanguage))
    else if c.targetLanguage !in SupportedLanguages then Some(UnsupportedLanguage(c.targetLanguage))
    else if c.whisperModel !in SupportedModels then Some(UnsupportedModel(c.whisperModel))
    else None
  }

  lemma DefaultConfigValid()
    ensures Validate(DefaultConfig).None?
  {
  }

  // ---------------------------------------------------------------------
  // ProcessingProgress

  datatype ProcessingProgress = ProcessingProgress(
    step: ProcessingStep,
    stepProgress: real,
    overallProgress: real,
    message: Option<string>,
    estimatedTimeRemaining: Option<real>)

  function Clamp01(x: real): (c: real)
    ensures 0.0 <= c <= 1.0
    ensures 0.0 <= x <= 1.0 ==> c == x
    ensures x < 0.0 ==> c == 0.0
    ensures x > 1.0 ==> c == 1.0
  {
    if x < 0.0 then 0.0 else if x > 1.0 then 1.0 else x
  }

  /** The initializer, which clamps both fractions into [0, 1]. */
  function MakeProgress(step: ProcessingStep, stepProgress: real, overallProgress: real,
                        message: Option<string>, eta: Option<real>): (p: ProcessingProgress)
    ensures 0.0 <= p.stepProgress <= 1.0 && 0.0 <= p.overallProgress <= 1.0
    ensures 0.0 <= stepProgress <= 1.0 ==> p.stepProgress == stepProgress
    ensures 0.0 <= overallProgress <= 1.0 ==> p.overallProgress == overallProgress
    ensures p.step == step && p.message == message && p.estimatedTimeRemaining == eta
  {
    ProcessingProgress(step, Clamp01(stepProgress), Clamp01(overallProgress), message, eta)
  }

  /** Swift's `Int(x)`: truncation toward zero. */
  function Trunc(x: real): (n: int)
    ensures x >= 0.0 ==> 0 <= n && n as real <= x < n as real + 1.0
    ensures x < 0.0 ==> n <= 0 && n as real - 1.0 < x <= n as real
  {
    if x >= 0.0 then x.Floor else -((-x).Floor)
  }

  /** `x.truncatingRemainder(dividingBy: d)`. */
  function TruncRem(x: real, d: real): real
    requires d > 0.0
  {
    x - d * Trunc(x / d) as real
  }

  /** Whole minutes and remaining whole seconds of a non-negative duration. */
  lemma MinutesSeconds(t: real)
    requires t >= 0.0
    ensures var m := Trunc(t / 60.0); var s := Trunc(TruncRem(t, 60.0));
      0 <= s < 60 && m >= 0 && m * 60 + s == Trunc(t)
  {
    var m := Trunc(t / 60.0);
    assert m as real * 60.0 <= t < (m as real + 1.0) * 60.0;
    var r := TruncRem(t, 60.0);
    assert 0.0 <= r < 60.0;
    assert Trunc(t) == m * 60 + Trunc(r) by {
      assert t == m as real * 60.0 + r;
      assert (m * 60) as real + Trunc(r) as real <= t < (m * 60) as real + Trunc(r) as real + 1.0;
    }
  }

  /** `formattedETA`: "Mm Ss" when at least a whole minute remains, "Ss"
      otherwise. Read back, the two numbers are the whole minutes and the
      remaining whole seconds of a non-negative estimate. */
  function FormattedETA(p: ProcessingProgress): (r: Option<string>)
    ensures r.None? <==> p.estimatedTimeRemaining.None?
    ensures r.Some? ==>
      var t := p.estimatedTimeRemaining.value;
      ReadETA(r.value).Some? && (|SplitAny(r.value, {' '})| == 2 <==> t >= 60.0)
    ensures r.Some? && p.estimatedTimeRemaining.value >= 0.0 ==>
      var ms := ReadETA(r.value).value;
      ms.0 >= 0 && 0 <= ms.1 < 60 && ms.0 * 60 + ms.1 == Trunc(p.estimatedTimeRemaining.value)
  {
    match p.estimatedTimeRemaining
    case None => None
    case Some(t) =>
      var minutes := Trunc(t / 60.0);
      var seconds := Trunc(TruncRem(t, 60.0));
      ETAReadsBack(minutes, seconds);
      MinuteBoundary(t);
      if t >= 0.0 then MinutesSeconds(t); Some(FormatETA(minutes, seconds))
      else Some(FormatETA(minutes, seconds))
  }

  /** The text for whole minutes and seconds: the minutes only when positive. */
  function FormatETA(minutes: int, seconds: int): string {
    if minutes > 0 then IntToString(minutes) + "m " + IntToString(seconds) + "s"
    else IntToString(seconds) + "s"
  }

  /** A number followed by the unit letter `u`, read back. */
  function ReadUnit(part: string, u: char): Option<int> {
    if |part| >= 1 && part[|part| - 1] == u then ParseInt(part[..|part| - 1]) else None
  }

  /** An ETA text read back as (minutes, seconds): "Ss" alone has no
      minutes; "Mm Ss" has both. */
  function ReadETA(s: string): Option<(int, int)> {
    var parts := SplitAny(s, {' '});
    if |parts| == 1 then
      match ReadUnit(parts[0], 's')
      case Some(sec) => Some((0, sec))
      case None => None
    else if |parts| == 2 then
      match (ReadUnit(parts[0], 'm'), ReadUnit(parts[1], 's'))
      case (Some(m), Some(sec)) => Some((m, sec))
      case _ => None
    else None
  }

  /** Both shapes of the ETA text split at the space and read back as the
      numbers printed. */
  lemma ETAReadsBack(m: int, s: int)
    ensures var t := FormatETA(m, s);
      (|SplitAny(t, {' '})| == 2 <==> m > 0)
      && ReadETA(t) == Some((if m > 0 then m else 0, s))
  {
    var a := IntToString(m) + "m";
    var b := IntToString(s) + "s";
    UnitReadsBack(m, 'm');
    UnitReadsBack(s, 's');
    if m > 0 {
      assert FormatETA(m, s) == Join([a, b], [' ']);
      SplitJoin([a, b], ' ', {' '});
    } else {
      assert FormatETA(m, s) == b;
      SplitAnyNone(b, {' '});
    }
  }

  /** A printed integer followed by a unit letter has no space and reads
      back as that integer. */
  lemma UnitReadsBack(i: int, u: char)
    requires u != ' '
    ensures NoneIn(IntToString(i) + [u], {' '})
    ensures ReadUnit(IntToString(i) + [u], u) == Some(i)
  {
    var x := IntToString(i);
    FormatIntAvoids(i, 0, ' ');
    ParseFormatInt(i, 0);
    assert (x + [u])[..|x|] == x;
  }

  /** `%0wd` prints only digits and a minus sign. */
  lemma FormatIntAvoids(i: int, width: nat, c: char)
    requires !IsDigit(c) && c != '-'
    ensures NoneIn(FormatInt(i, width), {c})
  {
    if i < 0 {
      var z := ZeroPad(-i, if width > 0 then width - 1 else 0);
      assert FormatInt(i, width) == "-" + z;
    }
  }

  /** Whole minutes are positive exactly from one minute on. */
  lemma MinuteBoundary(t: real)
    ensures Trunc(t / 60.0) > 0 <==> t >= 60.0
  {
  }

  lemma FormattedETAExamples()
    ensures FormattedETA(MakeProgress(Idle, 0.0, 0.0, None, Some(125.5))) == Some("2m 5s")
    ensures FormattedETA(MakeProgress(Idle, 0.0, 0.0, None, Some(42.9))) == Some("42s")
  {
    ETATextExamples();
    assert Trunc(125.5 / 60.0) == 2;
    assert Trunc(TruncRem(125.5, 60.0)) == 5;
    assert Trunc(42.9 / 60.0) == 0;
    assert Trunc(TruncRem(42.9, 60.0)) == 42;
  }

  /** The texts for 2 min 5 s and for 42 s. */
  lemma ETATextExamples()
    ensures FormatETA(2, 5) == "2m 5s" && FormatETA(0, 42) == "42s"
  {
    assert NatToString(42) == NatToString(4) + [DigitChar(2)];
    assert IntToString(42) == "42";
    assert IntToString(2) == "2" && IntToString(5) == "5";
    assert "2" + "m " + "5" + "s" == "2m 5s";
    assert "42" + "s" == "42s";
  }

  // ---------------------------------------------------------------------
  // OutputFiles

  datatype OutputFiles = OutputFiles(
    originalSubtitles: Option<Url>,
    translatedSubtitles: Option<Url>,
    dubbedVideo: Option<Url>,
    extractedAudio: Option<Url>,
    transcription: Option<Url>)

  const NoOutputFiles := OutputFiles(None, None, None, None, None)

  function HasAnyOutput(o: OutputFiles): bool {
    o.originalSubtitles.Some? || o.translatedSubtitles.Some? || o.dubbedVideo.Some?
  }

  function OutputFileCount(o: OutputFiles): (n: nat)
    ensures n <= 3
  {
    (if o.originalSubtitles.Some? then 1 else 0)
    + (if o.translatedSubtitles.Some? then 1 else 0)
    + (if o.dubbedVideo.Some? then 1 else 0)
  }

  /** The count agrees with `hasAnyOutput`, and the temporary files never
      count. */
  lemma OutputCountAgrees(o: OutputFiles, audio: Option<Url>, transcription: Option<Url>)
    ensures HasAnyOutput(o) <==> OutputFileCount(o) > 0
    ensures OutputFileCount(o.(extractedAudio := audio, transcription := transcription)) == OutputFileCount(o)
    ensures HasAnyOutput(o.(extractedAudio := audio, transcription := transcription)) == HasAnyOutput(o)
    ensures OutputFileCount(NoOutputFiles) == 0
  {
  }

  // ---------------------------------------------------------------------
  // ProcessingTask

  datatype ProcessingTask = ProcessingTask(
    id: nat,
    videoURL: Url,
    status: TaskStatus,
    currentStep: ProcessingStep,
    progress: real,
    config: ProcessingConfiguration,
    createdAt: real,
    startedAt: Option<real>,
    completedAt: Option<real>,
    outputFiles: Option<OutputFiles>,
    error: Option<string>,
    fileSize: Option<int>)

  /** The initializer with its defaults. */
  function NewTask(id: nat, videoURL: Url, config: ProcessingConfiguration, now: real): (t: ProcessingTask)
    ensures t.id == id && t.videoURL == videoURL && t.config == config && t.createdAt == now
    ensures t.status == Pending && t.currentStep == Idle && t.progress == 0.0
    ensures t.startedAt.None? && t.completedAt.None? && t.outputFiles.None?
    ensures t.error.None? && t.fileSize.None?
  {
    ProcessingTask(id, videoURL, Pending, Idle, 0.0, config, now, None, None, None, None, None)
  }

  function FileName(t: ProcessingTask): string {
    t.videoURL.name
  }

  function FileNameWithoutExtension(t: ProcessingTask): string {
    BaseName(t.videoURL.name)
  }

  function RequiredSteps(t: ProcessingTask): seq<ProcessingStep> {
    Steps(t.config.mode)
  }

  function TotalSteps(t: ProcessingTask): nat {
    |RequiredSteps(t)|
  }

  /** `firstIndex(of:)`. */
  function IndexOf(s: seq<ProcessingStep>, x: ProcessingStep): (r: Option<nat>)
    ensures r.None? <==> x !in s
    ensures r.Some? ==> r.value < |s| && s[r.value] == x && x !in s[..r.value]
    decreases |s|
  {
    if |s| == 0 then None
    else if s[0] == x then Some(0)
    else
      match IndexOf(s[1..], x)
      case None => None
      case Some(k) =>
        assert s[..k + 1] == [s[0]] + s[1..][..k];
        Some(k + 1)
  }

  function CurrentStepIndex(t: ProcessingTask): (r: Option<nat>)
    ensures r.Some? ==> r.value < TotalSteps(t) && RequiredSteps(t)[r.value] == t.currentStep
    ensures r.None? <==> t.currentStep !in RequiredSteps(t)
  {
    IndexOf(RequiredSteps(t), t.currentStep)
  }

  /** Idle and completed are never positions in the step list, and a
      working step's index is its position. */
  lemma CurrentStepIndexOfMarkers(t: ProcessingTask)
    ensures t.currentStep == Idle || t.currentStep == StepCompleted ==> CurrentStepIndex(t).None?
    ensures forall k :: 0 <= k < TotalSteps(t) && RequiredSteps(t)[k] == t.currentStep ==>
      CurrentStepIndex(t) == Some(k)
  {
    ModeStepsAgree(t.config.mode);
  }

  predicate TaskIsProcessing(t: ProcessingTask) { t.status == Processing }
  predicate TaskIsCompleted(t: ProcessingTask) { IsFinished(t.status) }
  predicate CanStart(t: ProcessingTask) { t.status == Pending }
  predicate CanCancel(t: ProcessingTask) { t.status == Processing }
  predicate CanRetry(t: ProcessingTask) { t.status == Failed }

  /** The task predicates follow the status: a task can be cancelled exactly
      while it is processing; a startable task is neither running nor
      finished; a retryable one is finished; and no task can be started,
      cancelled and retried in more than one way at once. */
  lemma TaskPredicatesAgree(t: ProcessingTask)
    ensures CanCancel(t) <==> TaskIsProcessing(t)
    ensures CanStart(t) ==> !TaskIsProcessing(t) && !TaskIsCompleted(t)
    ensures CanRetry(t) ==> TaskIsCompleted(t) && !TaskIsProcessing(t)
    ensures !(CanStart(t) && CanCancel(t)) && !(CanStart(t) && CanRetry(t)) && !(CanCancel(t) && CanRetry(t))
  {
    StatusClasses(t.status);
  }

  /** `elapsedTime` at time `now`: from the start to completion, or to now. */
  function ElapsedTime(t: ProcessingTask, now: real): (e: Option<real>)
    ensures e.None? <==> t.startedAt.None?
    ensures e.Some? && t.completedAt.Some? ==> e.value + t.startedAt.value == t.completedAt.value
  {
    match t.startedAt
    case None => None
    case Some(started) => Some(t.completedAt.GetOr(now) - started)
  }

  /** `formattedElapsedTime`: "HH:MM:SS" from one hour on, else "MM:SS".
      Read back, the fields are the whole hours (if any), minutes and seconds
      of the elapsed time, each printed with at least two digits. */
  function FormattedElapsedTime(t: ProcessingTask, now: real): (r: Option<string>)
    ensures r.None? <==> t.startedAt.None?
    ensures r.Some? ==>
      var e := ElapsedTime(t, now).value;
      var parts := SplitAny(r.value, {':'});
      (|parts| == 3 <==> e >= 3600.0) && (|parts| == 2 <==> e < 3600.0)
      && (forall i :: 0 <= i < |parts| ==> |parts[i]| >= 2)
      && ReadClock(r.value).Some? && |ReadClock(r.value).value| == |parts|
    ensures r.Some? && ElapsedTime(t, now).value >= 0.0 ==>
      var e := ElapsedTime(t, now).value;
      var fs := ReadClock(r.value).value;
      ClockSeconds(fs) == Trunc(e)
      && (forall i :: 0 <= i < |fs| ==> 0 <= fs[i])
      && (forall i :: 0 < i < |fs| ==> fs[i] < 60)
      && (|fs| == 3 ==> fs[0] >= 1) && (|fs| == 2 ==> fs[0] < 60)
  {
    match ElapsedTime(t, now)
    case None => None
    case Some(e) =>
      var hours := Trunc(e / 3600.0);
      var minutes := Trunc(TruncRem(e, 3600.0) / 60.0);
      var seconds := Trunc(TruncRem(e, 60.0));
      var fields := if hours > 0 then [hours, minutes, seconds] else [minutes, seconds];
      ClockReadsBack(fields);
      ClockSecondsOf(hours, minutes, seconds);
      HourBoundary(e);
      if e >= 0.0 then HoursMinutesSeconds(e); Some(Join(Padded(fields), ":"))
      else Some(Join(Padded(fields), ":"))
  }

  /** `%02d` of each field. */
  function Padded(fields: seq<int>): (parts: seq<string>)
    ensures |parts| == |fields|
  {
    seq(|fields|, i requires 0 <= i < |fields| => FormatInt(fields[i], 2))
  }

  /** A clock text read back: its colon-separated fields as integers. */
  function ReadClock(s: string): Option<seq<int>> {
    var parts := SplitAny(s, {':'});
    if forall i :: 0 <= i < |parts| ==> ParseInt(parts[i]).Some? then
      Some(seq(|parts|, i requires 0 <= i < |parts| && ParseInt(parts[i]).Some? => ParseInt(parts[i]).value))
    else None
  }

  /** The seconds a clock reading stands for: each field counts sixty of the
      next. */
  function ClockSeconds(fields: seq<int>): int
    decreases |fields|
  {
    if |fields| == 0 then 0 else ClockSeconds(fields[..|fields| - 1]) * 60 + fields[|fields| - 1]
  }

  /** Padded fields joined by colons split back into those fields and read
      back as the numbers printed. */
  lemma ClockReadsBack(fields: seq<int>)
    requires |fields| >= 1
    ensures SplitAny(Join(Padded(fields), ":"), {':'}) == Padded(fields)
    ensures forall i :: 0 <= i < |fields| ==> |Padded(fields)[i]| >= 2
    ensures ReadClock(Join(Padded(fields), ":")) == Some(fields)
  {
    var parts := Padded(fields);
    forall i | 0 <= i < |fields| ensures NoneIn(parts[i], {':'}) && |parts[i]| >= 2
      && ParseInt(parts[i]) == Some(fields[i])
    {
      FormatIntShape(fields[i], 2);
      ParseFormatInt(fields[i], 2);
    }
    assert ":" == [':'];
    SplitJoin(parts, ':', {':'});
    var read := seq(|parts|, i requires 0 <= i < |parts| && ParseInt(parts[i]).Some? => ParseInt(parts[i]).value);
    assert read == fields;
  }

  /** Two and three clock fields stand for minutes and seconds, and for
      hours, minutes and seconds. */
  lemma ClockSecondsOf(h: int, m: int, s: int)
    ensures ClockSeconds([m, s]) == m * 60 + s
    ensures ClockSeconds([h, m, s]) == h * 3600 + m * 60 + s
  {
    assert [m][..0] == [] && ClockSeconds([m]) == m;
    assert [m, s][..1] == [m];
    assert [h][..0] == [] && ClockSeconds([h]) == h;
    assert [h, m][..1] == [h] && ClockSeconds([h, m]) == h * 60 + m;
    assert [h, m, s][..2] == [h, m];
  }

  /** `%0wd` prints digits after at most a minus sign, at least `w` wide. */
  lemma FormatIntShape(i: int, width: nat)
    ensures NoneIn(FormatInt(i, width), {':'})
    ensures |FormatInt(i, width)| >= width
  {
    if i >= 0 {
      ZeroPadLength(i, width);
    } else {
      var w := if width > 0 then width - 1 else 0;
      ZeroPadLength(-i, w);
      var z := ZeroPad(-i, w);
      assert forall k :: 0 <= k < |z| ==> IsDigit(z[k]);
      assert FormatInt(i, width) == "-" + z;
    }
  }

  /** Whole hours are positive exactly from one hour on. */
  lemma HourBoundary(e: real)
    ensures Trunc(e / 3600.0) > 0 <==> e >= 3600.0
  {
  }

  /** Whole hours, minutes and seconds of a non-negative duration. */
  lemma HoursMinutesSeconds(e: real)
    requires e >= 0.0
    ensures var h, m, s := Trunc(e / 3600.0), Trunc(TruncRem(e, 3600.0) / 60.0), Trunc(TruncRem(e, 60.0));
      h >= 0 && 0 <= m < 60 && 0 <= s < 60 && h * 3600 + m * 60 + s == Trunc(e)
      && (h == 0 ==> m * 60 + s == Trunc(e))
  {
    var h := Trunc(e / 3600.0);
    var rest := TruncRem(e, 3600.0);
    assert h as real * 3600.0 <= e < (h as real + 1.0) * 3600.0;
    assert e == rest + (h * 3600) as real;
    MinutesSeconds(rest);
    TruncShift(rest, h * 3600);
    assert e / 60.0 == rest / 60.0 + (h * 60) as real;
    TruncShift(rest / 60.0, h * 60);
    assert TruncRem(e, 60.0) == TruncRem(rest, 60.0);
  }

  /** Adding a whole number moves the truncation by that number. */
  lemma TruncShift(x: real, k: int)
    requires x >= 0.0 && k >= 0
    ensures Trunc(x + k as real) == Trunc(x) + k
  {
  }

  /** `from(videoURLs:config:)`: one new task per URL, in order, with ids
      handed out from `firstId` on. */
  function TasksFrom(urls: seq<Url>, config: ProcessingConfiguration, firstId: nat, now: real): (ts: seq<ProcessingTask>)
    ensures |ts| == |urls|
    ensures forall i :: 0 <= i < |urls| ==> ts[i] == NewTask(firstId + i, urls[i], config, now)
    decreases |urls|
  {
    if |urls| == 0 then []
    else [NewTask(firstId, urls[0], config, now)] + TasksFrom(urls[1..], config, firstId + 1, now)
  }

  // ---------------------------------------------------------------------
  // Validation results of the system check

  datatype IssueType = Critical | Warning | Info

  datatype Component = Ffmpeg | WhisperModel | DiskSpace | OutputDirectory | LibreTranslate | Permissions

  datatype ValidationIssue = ValidationIssue(
    id: nat, kind: IssueType, component: Component, message: string,
    suggestion: Option<string>, actionCommand: Option<string>)

  function IssueIcon(k: IssueType): string {
    match k
    case Critical => "xmark.circle.fill"
    case Warning => "exclamationmark.triangle.fill"
    case Info => "info.circle.fill"
  }

  function IssueColor(k: IssueType): string {
    match k
    case Critical => "red"
    case Warning => "orange"
    case Info => "blue"
  }

  /** Icons and colours tell the issue types apart. */
  lemma IssueStyleOneToOne(a: IssueType, b: IssueType)
    ensures IssueIcon(a) == IssueIcon(b) <==> a == b
    ensures IssueColor(a) == IssueColor(b) <==> a == b
  {
  }

  datatype ValidationCheck = ValidationCheck(
    id: nat, component: Component, passed: bool, message: string, details: Option<string>)

  function CheckIcon(c: ValidationCheck): string {
    if c.passed then "checkmark.circle.fill" else "xmark.circle.fill"
  }

  function CheckColor(c: ValidationCheck): string {
    if c.passed then "green" else "red"
  }

  /** A check's style depends on whether it passed and on nothing else. */
  lemma CheckStyleByOutcome(a: ValidationCheck, b: ValidationCheck)
    ensures CheckIcon(a) == CheckIcon(b) <==> a.passed == b.passed
    ensures CheckColor(a) == CheckColor(b) <==> a.passed == b.passed
  {
  }

  datatype ValidationResult = ValidationResult(
    issues: seq<ValidationIssue>, checks: seq<ValidationCheck>, timestamp: real)

  predicate IsCritical(i: ValidationIssue) { i.kind == Critical }
  predicate IsWarning(i: ValidationIssue) { i.kind == Warning }
  predicate IsInfo(i: ValidationIssue) { i.kind == Info }

  function CriticalIssues(r: ValidationResult): seq<ValidationIssue> { Filter(r.issues, IsCritical) }
  function Warnings(r: ValidationResult): seq<ValidationIssue> { Filter(r.issues, IsWarning) }
  function Infos(r: ValidationResult): seq<ValidationIssue> { Filter(r.issues, IsInfo) }

  predicate HasCriticalIssues(r: ValidationResult) {
    exists i :: 0 <= i < |r.issues| && r.issues[i].kind == Critical
  }

  predicate HasWarnings(r: ValidationResult) {
    exists i :: 0 <= i < |r.issues| && r.issues[i].kind == Warning
  }

  predicate IsValid(r: ValidationResult) {
    !HasCriticalIssues(r)
  }

  /** The three lists partition the issues. */
  lemma IssuesPartition(issues: seq<ValidationIssue>)
    ensures multiset(Filter(issues, IsCritical)) + multiset(Filter(issues, IsWarning))
            + multiset(Filter(issues, IsInfo)) == multiset(issues)
    ensures |Filter(issues, IsCritical)| + |Filter(issues, IsWarning)| + |Filter(issues, IsInfo)| == |issues|
  {
    FilterSplit3(issues, IsCritical, IsWarning, IsInfo);
  }

  lemma ValidityAgrees(r: ValidationResult)
    ensures IsValid(r) <==> CriticalIssues(r) == []
    ensures HasWarnings(r) <==> Warnings(r) != []
  {
    FilterEmptyIff(r.issues, IsCritical);
    FilterEmptyIff(r.issues, IsWarning);
  }
}

/** The single-task executor: it creates the task's work folder, runs the
    steps of the task's mode in order (reporting each step as it starts),
    threads the artifacts of one step into the next, and on success returns
    the task completed with its output files. The services' answers, the
    file system's and the cancellation point are parameters; the calls the
    executor makes are recorded so that what it asks for can be stated. */
module Executor {
  import opened Wrappers
  import opened Text
  import opened Paths
  import opened Media
  import opened Segmentation
  import opened Domain
  import opened Repository

  /** What the outside world answers during one run. */
  datatype Services = Services(
    tempDirOk: bool,
    extractOk: bool,
    whisperInitOk: bool,
    transcription: Option<TranscriptionResult>,
    translation: seq<BilingualSegment>,
    originalSubtitlesSaved: bool,
    translatedSubtitlesSaved: bool,
    ttsDirOk: bool,
    tts: seq<TTSSegment>,
    assembleOk: bool,
    composeOk: bool,
    workFolderEmptyAfter: bool,
    cancelAt: Option<nat>)

  // ---------------------------------------------------------------------
  // Where the files go

  const WorkFolder := ".subdubai"

  /** The files of one task: the temporary ones under a per-task folder
      inside a hidden work folder next to the video, the outputs next to the
      video, named after it and the languages. */
  datatype Layout = Layout(
    videoDir: Dir,
    tempDir: Dir,
    audio: Url,
    originalSubtitles: Url,
    translatedSubtitles: Url,
    dubbedVideo: Url,
    ttsDir: Dir,
    dubbedAudio: Url)

  function LayoutOf(t: ProcessingTask): Layout {
    var dir := t.videoURL.dir;
    var temp := dir + [WorkFolder, NatToString(t.id)];
    var base := FileNameWithoutExtension(t);
    var ext := FileExtension(t.config.subtitleFormat);
    Layout(dir, temp, InDir(temp, "audio.mp3"),
           InDir(dir, base + "_" + t.config.sourceLanguage + "." + ext),
           InDir(dir, base + "_" + t.config.targetLanguage + "." + ext),
           InDir(dir, base + "_" + t.config.targetLanguage + ".mp4"),
           temp + ["tts"], InDir(temp, "dubbed_audio.mp3"))
  }

  /** Removing the temporary folder never touches an output: the outputs sit
      in the video's folder, every temporary file strictly below it. Two
      tasks never share a temporary folder. The two subtitle files coincide
      only when the languages do, and each carries the format's extension. */
  lemma LayoutSeparates(t: ProcessingTask, u: ProcessingTask)
    requires t.videoURL.dir == u.videoURL.dir && t.id != u.id
    ensures var l := LayoutOf(t);
      l.originalSubtitles.dir == l.videoDir && l.translatedSubtitles.dir == l.videoDir
      && l.dubbedVideo.dir == l.videoDir
      && l.videoDir < l.tempDir && l.audio.dir == l.tempDir && l.dubbedAudio.dir == l.tempDir
      && l.tempDir < l.ttsDir
    ensures LayoutOf(t).tempDir != LayoutOf(u).tempDir
    ensures LayoutOf(t).originalSubtitles == LayoutOf(t).translatedSubtitles <==>
      t.config.sourceLanguage == t.config.targetLanguage
    ensures var base := FileNameWithoutExtension(t) + "_" + t.config.sourceLanguage;
      |base| > 0 ==> Extension(LayoutOf(t).originalSubtitles.name) == FileExtension(t.config.subtitleFormat)
  {
    var l, m := LayoutOf(t), LayoutOf(u);
    if l.tempDir == m.tempDir {
      assert l.tempDir[|l.videoDir| + 1] == NatToString(t.id);
      assert m.tempDir[|m.videoDir| + 1] == NatToString(u.id);
      NatToStringValue(t.id);
      NatToStringValue(u.id);
    }
    var base := FileNameWithoutExtension(t);
    var ext := FileExtension(t.config.subtitleFormat);
    var src, tgt := t.config.sourceLanguage, t.config.targetLanguage;
    if l.originalSubtitles == l.translatedSubtitles {
      var a, b := base + "_" + src + "." + ext, base + "_" + tgt + "." + ext;
      assert |a| == |b|;
      assert a[|base| + 1..|a| - |ext| - 1] == src;
      assert b[|base| + 1..|b| - |ext| - 1] == tgt;
    }
    if |base + "_" + src| > 0 {
      ExtensionOfBuiltName(base + "_" + src, ext);
    }
  }

  // ---------------------------------------------------------------------
  // The record of a run

  /** A request the executor makes of the repository or the file system. */
  datatype Call =
    | CreateDir(dir: Dir)
    | ExtractCall(video: Url, audio: Url)
    | TranscribeCall(audio: Url, language: string, model: string)
    | SegmentCall(policy: Policy)
    | TranslateCall(segments: seq<Segment>, source: string, target: string)
    | SubtitlesCall(bilingual: seq<BilingualSegment>, original: Url, translated: Option<Url>,
                    format: SubtitleFormat)
    | TtsCall(bilingual: seq<BilingualSegment>, outputDir: Dir, voice: string, speedSync: bool)
    | AssembleCall(clips: seq<TTSSegment>, output: Url)
    | ComposeCall(video: Url, audio: Url, subtitles: Option<Url>, output: Url)

  function PolicyOf(c: ProcessingConfiguration): Policy {
    Policy(c.useFixedSegmentDuration, c.fixedSegmentDuration)
  }

  /** The segments the segmenter makes of the transcription, if there is one. */
  function Segmented(svc: Services, c: ProcessingConfiguration): Option<seq<Segment>> {
    if svc.transcription.Some? then Some(SegmentWords(svc.transcription.value.words, PolicyOf(c))) else None
  }

  /** The subtitles-only conversion: each segment's text as both the
      original and the "translation". */
  function Untranslated(segs: seq<Segment>): (bs: seq<BilingualSegment>)
    ensures |bs| == |segs|
    ensures forall k :: 0 <= k < |segs| ==>
      bs[k].original == segs[k].text && bs[k].translated == segs[k].text
      && bs[k].startTime == segs[k].startTime && bs[k].endTime == segs[k].endTime
  {
    seq(|segs|, k requires 0 <= k < |segs| =>
      BilingualSegment(segs[k].text, segs[k].text, segs[k].startTime, segs[k].endTime))
  }

  /** What every call of a run of `t` looks like: its paths are the task's,
      its settings the task's configuration, its data the previous step's
      result; a mode's calls are those of its own steps (no translation
      without `RequiresTranslation`, no speech or video without
      `GeneratesVideo`); only the full pipeline burns subtitles into the
      video, and subtitles-only mode writes the original file alone, from
      untranslated text. */
  predicate CallOk(t: ProcessingTask, svc: Services, c: Call) {
    var l := LayoutOf(t);
    var cfg := t.config;
    match c
    case CreateDir(d) => d == l.tempDir || d == l.ttsDir
    case ExtractCall(v, a) => v == t.videoURL && a == l.audio
    case TranscribeCall(a, lang, model) =>
      a == l.audio && lang == cfg.sourceLanguage && model == cfg.whisperModel
    case SegmentCall(p) => p == PolicyOf(cfg) && svc.transcription.Some?
    case TranslateCall(segs, src, tgt) =>
      RequiresTranslation(cfg.mode) && Segmented(svc, cfg) == Some(segs) && src == cfg.sourceLanguage && tgt == cfg.targetLanguage
    case SubtitlesCall(bs, o, tr, fmt) =>
      GeneratesSubtitles(cfg.mode) && o == l.originalSubtitles && fmt == cfg.subtitleFormat
      && (tr.None? <==> cfg.mode == SubtitlesOnly)
      && (tr.Some? ==> tr.value == l.translatedSubtitles && bs == svc.translation)
      && (tr.None? ==> Segmented(svc, cfg).Some? && bs == Untranslated(Segmented(svc, cfg).value))
    case TtsCall(bs, d, v, sync) =>
      GeneratesVideo(cfg.mode) && bs == svc.translation && d == l.ttsDir && v == cfg.ttsVoice && sync == cfg.enableSpeedSync
    case AssembleCall(clips, o) => GeneratesVideo(cfg.mode) && clips == svc.tts && o == l.dubbedAudio
    case ComposeCall(v, a, s, o) =>
      GeneratesVideo(cfg.mode) && v == t.videoURL && a == l.dubbedAudio && o == l.dubbedVideo
      && (s.Some? <==> cfg.mode == FullPipeline) && (s.Some? ==> s.value == l.translatedSubtitles)
  }

  predicate CallsOk(t: ProcessingTask, svc: Services, calls: seq<Call>) {
    forall i :: 0 <= i < |calls| ==> CallOk(t, svc, calls[i])
  }

  /** The report made as step `j` starts. */
  function StepEvent(steps: seq<ProcessingStep>, j: nat): ProcessingProgress
    requires j < |steps|
  {
    MakeProgress(steps[j], 0.0, j as real / |steps| as real, Some(StepTitle(steps[j])), None)
  }

  const FinalEvent := MakeProgress(StepCompleted, 1.0, 1.0, Some("Processing complete!"), None)

  /** The step reports climb strictly, from zero, and stay below one, which
      only the final report reaches. */
  lemma StepEventsClimb(steps: seq<ProcessingStep>, i: nat, j: nat)
    requires i < j < |steps|
    ensures StepEvent(steps, 0).overallProgress == 0.0
    ensures StepEvent(steps, i).overallProgress < StepEvent(steps, j).overallProgress < FinalEvent.overallProgress
    ensures StepEvent(steps, j).step == steps[j] && StepEvent(steps, j).stepProgress == 0.0
  {
    FractionsClimb(i as real, j as real, |steps| as real);
  }

  lemma FractionsClimb(a: real, b: real, n: real)
    requires 0.0 <= a < b < n
    ensures 0.0 <= a / n < b / n < 1.0
  {
    DivLess(a, b, n);
    DivLess(b, n, n);
    assert n / n == 1.0;
  }

  /** The reports are the first `|events|` step reports, in order. */
  predicate StepEventsPrefix(steps: seq<ProcessingStep>, events: seq<ProcessingProgress>) {
    |events| <= |steps| && forall k :: 0 <= k < |events| ==> events[k] == StepEvent(steps, k)
  }

  /** Which failure a service is to blame for. */
  predicate Blamed(svc: Services, f: Failure) {
    match f
    case Cancellation => svc.cancelAt.Some?
    case Repo(e) => RepoBlamed(svc, e)
    case Missing(_) => false
    case FileSystem => !svc.tempDirOk || !svc.ttsDirOk
  }

  predicate RepoBlamed(svc: Services, e: RepositoryError) {
    match e
    case AudioExtractionFailed => !svc.extractOk
    case TranscriptionFailed => !svc.whisperInitOk || svc.transcription.None?
    case SegmentationFailed => svc.transcription.Some? && |svc.transcription.value.words| == 0
    case TranslationFailed => |svc.translation| == 0
    case SubtitleGenerationFailed => !svc.originalSubtitlesSaved || !svc.translatedSubtitlesSaved
    case TtsFailed => |svc.tts| == 0
    case AudioAssemblyFailed => !svc.assembleOk
    case VideoCompositionFailed => !svc.composeOk
  }

  // ---------------------------------------------------------------------
  // The walk over the steps

  /** The executor's state between steps. */
  datatype Walk = Walk(
    outputs: OutputFiles,
    segments: Option<seq<Segment>>,
    bilingual: Option<seq<BilingualSegment>>,
    clips: Option<seq<TTSSegment>>,
    checkpoint: nat,
    whisperReady: bool,
    events: seq<ProcessingProgress>,
    calls: seq<Call>,
    failure: Option<Failure>)

  function Fail(w: Walk, f: Failure): Walk {
    w.(failure := Some(f))
  }

  function Record(w: Walk, c: Call): Walk {
    w.(calls := w.calls + [c])
  }

  /** Step `j` of `steps`: the cancellation check, the report, then the
      step's own work. */
  function RunStep(t: ProcessingTask, svc: Services, steps: seq<ProcessingStep>, j: nat, w: Walk): Walk
    requires j < |steps|
  {
    if CancelledAt(svc.cancelAt, w.checkpoint) then Fail(w.(checkpoint := w.checkpoint + 1), Cancellation)
    else DoStep(t, svc, steps[j], Reported(steps, j, w))
  }

  /** Past the cancellation check, with the step's report made. */
  function Reported(steps: seq<ProcessingStep>, j: nat, w: Walk): Walk
    requires j < |steps|
  {
    w.(checkpoint := w.checkpoint + 1, events := w.events + [StepEvent(steps, j)])
  }

  function DoStep(t: ProcessingTask, svc: Services, step: ProcessingStep, w: Walk): Walk {
    match step
    case ExtractingAudio => ExtractStep(t, svc, w)
    case Transcribing => TranscribeStep(t, svc, w)
    case Translating => TranslateStep(t, svc, w)
    case GeneratingSubtitles => SubtitlesStep(t, svc, w)
    case GeneratingTTS => TtsStep(t, svc, w)
    case AssemblingAudio => AssembleStep(t, svc, w)
    case ComposingVideo => ComposeStep(t, svc, w)
    case _ => w
  }

  function ExtractStep(t: ProcessingTask, svc: Services, w: Walk): Walk {
    var l := LayoutOf(t);
    var w1 := Record(w, ExtractCall(t.videoURL, l.audio));
    if ExtractAudio(svc.extractOk).Failure? then Fail(w1, ExtractAudio(svc.extractOk).error)
    else w1.(outputs := w1.outputs.(extractedAudio := Some(l.audio)))
  }

  /** Transcription, then segmentation of the words it found. */
  function TranscribeStep(t: ProcessingTask, svc: Services, w: Walk): Walk {
    var cfg := t.config;
    var (reply, ready) := Transcribe(w.whisperReady, svc.whisperInitOk, svc.transcription, svc.cancelAt, w.checkpoint);
    var w1 := Record(w, TranscribeCall(LayoutOf(t).audio, cfg.sourceLanguage, cfg.whisperModel))
              .(checkpoint := reply.next, whisperReady := ready);
    if reply.result.Failure? then Fail(w1, reply.result.error)
    else
      var w2 := Record(w1, SegmentCall(PolicyOf(cfg)));
      var segs := SegmentWordsOf(reply.result.value, cfg.useFixedSegmentDuration, cfg.fixedSegmentDuration);
      if segs.Failure? then Fail(w2, segs.error) else w2.(segments := Some(segs.value))
  }

  function TranslateStep(t: ProcessingTask, svc: Services, w: Walk): Walk {
    var cfg := t.config;
    if w.segments.None? then Fail(w, Missing(MissingSegments))
    else
      var reply := Translate(svc.translation, svc.cancelAt, w.checkpoint);
      var w1 := Record(w, TranslateCall(w.segments.value, cfg.sourceLanguage, cfg.targetLanguage))
                .(checkpoint := reply.next);
      if reply.result.Failure? then Fail(w1, reply.result.error) else w1.(bilingual := Some(reply.result.value))
  }

  /** Subtitles-only mode writes the original file from the segments; the
      other modes write both files from the translation. */
  function SubtitlesStep(t: ProcessingTask, svc: Services, w: Walk): Walk {
    var l := LayoutOf(t);
    var cfg := t.config;
    if cfg.mode == SubtitlesOnly then
      if w.segments.None? then Fail(w, Missing(MissingSegments))
      else
        var bs := Untranslated(w.segments.value);
        var w1 := Record(w, SubtitlesCall(bs, l.originalSubtitles, None, cfg.subtitleFormat));
        var run := GenerateSubtitles(cfg.subtitleFormat, bs, l.originalSubtitles, None,
                                     svc.originalSubtitlesSaved, svc.translatedSubtitlesSaved);
        if run.result.Failure? then Fail(w1, run.result.error)
        else w1.(outputs := w1.outputs.(originalSubtitles := Some(l.originalSubtitles)))
    else
      if w.bilingual.None? then Fail(w, Missing(MissingBilingualSegments))
      else
        var w1 := Record(w, SubtitlesCall(w.bilingual.value, l.originalSubtitles, Some(l.translatedSubtitles),
                                          cfg.subtitleFormat));
        var run := GenerateSubtitles(cfg.subtitleFormat, w.bilingual.value, l.originalSubtitles, Some(l.translatedSubtitles),
                                     svc.originalSubtitlesSaved, svc.translatedSubtitlesSaved);
        if run.result.Failure? then Fail(w1, run.result.error)
        else w1.(outputs := w1.outputs.(originalSubtitles := Some(l.originalSubtitles),
                                        translatedSubtitles := Some(l.translatedSubtitles)))
  }

  /** Speech synthesis into a `tts` folder created under the work folder. */
  function TtsStep(t: ProcessingTask, svc: Services, w: Walk): Walk {
    var l := LayoutOf(t);
    var cfg := t.config;
    if w.bilingual.None? then Fail(w, Missing(MissingBilingualSegments))
    else
      var w1 := Record(w, CreateDir(l.ttsDir));
      if !svc.ttsDirOk then Fail(w1, FileSystem)
      else
        var reply := GenerateTTS(svc.tts, svc.cancelAt, w1.checkpoint);
        var w2 := Record(w1, TtsCall(w.bilingual.value, l.ttsDir, cfg.ttsVoice, cfg.enableSpeedSync))
                  .(checkpoint := reply.next);
        if reply.result.Failure? then Fail(w2, reply.result.error) else w2.(clips := Some(reply.result.value))
  }

  function AssembleStep(t: ProcessingTask, svc: Services, w: Walk): Walk {
    if w.clips.None? then Fail(w, Missing(MissingTTSSegments))
    else
      var reply := Guarded(svc.assembleOk, AudioAssemblyFailed, svc.cancelAt, w.checkpoint);
      var w1 := Record(w, AssembleCall(w.clips.value, LayoutOf(t).dubbedAudio)).(checkpoint := reply.next);
      if reply.result.Failure? then Fail(w1, reply.result.error) else w1
  }

  /** The video with the dubbed audio; only the full pipeline burns in the
      translated subtitles. */
  function ComposeStep(t: ProcessingTask, svc: Services, w: Walk): Walk {
    var l := LayoutOf(t);
    var subtitles := if t.config.mode == FullPipeline then Some(l.translatedSubtitles) else None;
    var reply := Guarded(svc.composeOk, VideoCompositionFailed, svc.cancelAt, w.checkpoint);
    var w1 := Record(w, ComposeCall(t.videoURL, l.dubbedAudio, subtitles, l.dubbedVideo)).(checkpoint := reply.next);
    if reply.result.Failure? then Fail(w1, reply.result.error)
    else w1.(outputs := w1.outputs.(dubbedVideo := Some(l.dubbedVideo)))
  }

  /** The steps from `j` on, stopping at the first failure. */
  function WalkFrom(t: ProcessingTask, svc: Services, j: nat, w: Walk): Walk
    requires j <= |Steps(t.config.mode)|
    decreases |Steps(t.config.mode)| - j
  {
    if j == |Steps(t.config.mode)| || w.failure.Some? then w
    else WalkFrom(t, svc, j + 1, RunStep(t, svc, Steps(t.config.mode), j, w))
  }

  // ---------------------------------------------------------------------
  // What holds between steps

  /** The output files once the steps `done` have run: the extracted audio,
      the subtitle files of the subtitle step (the translated one unless
      the mode is subtitles-only) and the video of the compose step; the
      transcription is never recorded as a file. */
  function ExpectedOutputs(t: ProcessingTask, done: seq<ProcessingStep>): OutputFiles {
    var l := LayoutOf(t);
    OutputFiles(
      originalSubtitles := if GeneratingSubtitles in done then Some(l.originalSubtitles) else None,
      translatedSubtitles :=
        if GeneratingSubtitles in done && t.config.mode != SubtitlesOnly then Some(l.translatedSubtitles) else None,
      dubbedVideo := if ComposingVideo in done then Some(l.dubbedVideo) else None,
      extractedAudio := if ExtractingAudio in done then Some(l.audio) else None,
      transcription := None)
  }

  /** Each artifact a finished step produced is present. */
  predicate Ready(done: seq<ProcessingStep>, w: Walk) {
    (Transcribing in done ==> w.segments.Some?)
    && (Translating in done ==> w.bilingual.Some?)
    && (GeneratingTTS in done ==> w.clips.Some?)
  }

  /** Each artifact present is what its service produced. */
  predicate Faithful(t: ProcessingTask, svc: Services, w: Walk) {
    (w.segments.Some? ==> Segmented(svc, t.config) == w.segments && |w.segments.value| > 0)
    && (w.bilingual.Some? ==> w.bilingual.value == svc.translation && |w.bilingual.value| > 0)
    && (w.clips.Some? ==> w.clips.value == svc.tts)
  }

  /** The state after the first `j` steps of the task's mode have run. */
  predicate Between(t: ProcessingTask, svc: Services, j: nat, w: Walk) {
    var steps := Steps(t.config.mode);
    j <= |steps| && w.failure.None? && |w.events| == j && StepEventsPrefix(steps, w.events)
    && CallsOk(t, svc, w.calls) && Ready(steps[..j], w) && Faithful(t, svc, w)
    && w.outputs == ExpectedOutputs(t, steps[..j])
  }

  /** The state after a failure: the reports so far are step reports, the
      calls are the task's, the failure is a service's fault or a
      cancellation, and never a missing artifact. */
  predicate Stopped(t: ProcessingTask, svc: Services, w: Walk) {
    w.failure.Some? && Blamed(svc, w.failure.value)
    && StepEventsPrefix(Steps(t.config.mode), w.events) && CallsOk(t, svc, w.calls)
  }

  /** The artifacts each step of a mode reads were made by an earlier step. */
  predicate Prerequisites(m: ProcessingMode, j: nat)
    requires j < |Steps(m)|
  {
    var s := Steps(m);
    var done := s[..j];
    (s[j] == Translating ==> Transcribing in done)
    && (s[j] == GeneratingSubtitles ==> (if m == SubtitlesOnly then Transcribing else Translating) in done)
    && (s[j] == GeneratingTTS ==> Translating in done)
    && (s[j] == AssemblingAudio ==> GeneratingTTS in done)
  }

  lemma ModePrerequisites(m: ProcessingMode, j: nat)
    requires j < |Steps(m)|
    ensures Prerequisites(m, j)
  {
    var s := Steps(m);
    forall k | 0 <= k < j ensures s[k] in s[..j] {
      assert s[..j][k] == s[k];
    }
    assert s[1] == Transcribing;
    match m
    case SubtitlesOnly =>
    case SubtitlesWithTranslation => assert s[2] == Translating;
    case DubbedVideoOnly => assert s[2] == Translating && s[3] == GeneratingTTS;
    case FullPipeline => assert s[2] == Translating && s[4] == GeneratingTTS;
  }

  /** A step a mode runs is one its flags announce. */
  lemma StepFlags(m: ProcessingMode, j: nat)
    requires j < |Steps(m)|
    ensures Steps(m)[j] == Translating ==> RequiresTranslation(m)
    ensures Steps(m)[j] == GeneratingSubtitles ==> GeneratesSubtitles(m)
    ensures Steps(m)[j] in {GeneratingTTS, AssemblingAudio, ComposingVideo} ==> GeneratesVideo(m)
  {
    ModeStepsAgree(m);
    assert Steps(m)[j] in Steps(m);
  }

  lemma PrefixStep(s: seq<ProcessingStep>, j: nat, x: ProcessingStep)
    requires j < |s|
    ensures x in s[..j + 1] <==> x in s[..j] || x == s[j]
  {
    assert s[..j + 1] == s[..j] + [s[j]];
  }

  /** One step keeps the invariant, or stops with a blamed failure. */
  lemma RunStepKeeps(t: ProcessingTask, svc: Services, j: nat, w: Walk)
    requires Between(t, svc, j, w) && j < |Steps(t.config.mode)|
    ensures Left(t, svc, j, w, RunStep(t, svc, Steps(t.config.mode), j, w))
  {
    var steps := Steps(t.config.mode);
    if CancelledAt(svc.cancelAt, w.checkpoint) {
      var r := Fail(w.(checkpoint := w.checkpoint + 1), Cancellation);
      assert RunStep(t, svc, steps, j, w) == r;
      assert Stopped(t, svc, r);
    } else {
      var w1 := Reported(steps, j, w);
      ReportedEntered(t, svc, j, w);
      DoStepKeeps(t, svc, j, w1);
      assert RunStep(t, svc, steps, j, w) == DoStep(t, svc, steps[j], w1);
    }
  }

  /** Past the cancellation check, step `j`'s report leaves the walk
      entered into the step. */
  lemma ReportedEntered(t: ProcessingTask, svc: Services, j: nat, w: Walk)
    requires Between(t, svc, j, w) && j < |Steps(t.config.mode)|
    ensures Entered(t, svc, j, Reported(Steps(t.config.mode), j, w))
  {
    var steps := Steps(t.config.mode);
    var w1 := Reported(steps, j, w);
    ModePrerequisites(t.config.mode, j);
    assert StepEventsPrefix(steps, w1.events);
    forall x ensures x in steps[..j + 1] <==> x in steps[..j] || x == steps[j] {
      PrefixStep(steps, j, x);
    }
  }

  /** The state just after step `j`'s report, before its work. */
  predicate Entered(t: ProcessingTask, svc: Services, j: nat, w: Walk) {
    var steps := Steps(t.config.mode);
    j < |steps| && Prerequisites(t.config.mode, j)
    && w.failure.None? && |w.events| == j + 1 && StepEventsPrefix(steps, w.events)
    && CallsOk(t, svc, w.calls) && Faithful(t, svc, w)
    && Ready(steps[..j], w) && w.outputs == ExpectedOutputs(t, steps[..j])
    && (forall x :: x in steps[..j + 1] <==> x in steps[..j] || x == steps[j])
  }

  /** What a step leaves: the invariant one step on, or a blamed failure. */
  predicate Left(t: ProcessingTask, svc: Services, j: nat, w: Walk, r: Walk) {
    (r.failure.None? ==> Between(t, svc, j + 1, r)) && (r.failure.Some? ==> Stopped(t, svc, r))
    && (w.whisperReady ==> r.whisperReady)
  }

  lemma RecordKeeps(t: ProcessingTask, svc: Services, w: Walk, c: Call)
    requires CallsOk(t, svc, w.calls) && CallOk(t, svc, c)
    ensures CallsOk(t, svc, Record(w, c).calls)
  {
  }

  /** A step that fails keeps its report and its calls the task's; a
      blamed failure then leaves the walk stopped. */
  lemma FailKeeps(t: ProcessingTask, svc: Services, j: nat, w: Walk, r: Walk)
    requires Entered(t, svc, j, w)
    requires r.failure.Some? && Blamed(svc, r.failure.value)
    requires r.events == w.events && CallsOk(t, svc, r.calls) && (w.whisperReady ==> r.whisperReady)
    ensures Left(t, svc, j, w, r)
  {
  }

  /** A step that succeeds with its artifacts ready and faithful, and the
      outputs of the steps up to it, leaves the invariant one step on. */
  lemma SucceedKeeps(t: ProcessingTask, svc: Services, j: nat, w: Walk, r: Walk)
    requires Entered(t, svc, j, w)
    requires r.failure.None? && r.events == w.events && CallsOk(t, svc, r.calls)
    requires Ready(Steps(t.config.mode)[..j + 1], r) && Faithful(t, svc, r)
    requires r.outputs == ExpectedOutputs(t, Steps(t.config.mode)[..j + 1])
    requires w.whisperReady ==> r.whisperReady
    ensures Left(t, svc, j, w, r)
  {
  }

  /** The output files once a step has run: those before it with the
      step's own file added. */
  function AddOutput(t: ProcessingTask, o: OutputFiles, step: ProcessingStep): OutputFiles {
    var l := LayoutOf(t);
    match step
    case ExtractingAudio => o.(extractedAudio := Some(l.audio))
    case GeneratingSubtitles =>
      if t.config.mode == SubtitlesOnly then o.(originalSubtitles := Some(l.originalSubtitles))
      else o.(originalSubtitles := Some(l.originalSubtitles), translatedSubtitles := Some(l.translatedSubtitles))
    case ComposingVideo => o.(dubbedVideo := Some(l.dubbedVideo))
    case _ => o
  }

  /** The artifact a step produces is present. */
  predicate Produced(step: ProcessingStep, r: Walk) {
    (step == Transcribing ==> r.segments.Some?)
    && (step == Translating ==> r.bilingual.Some?)
    && (step == GeneratingTTS ==> r.clips.Some?)
  }

  /** What a step's work leaves, whichever step it is: no report of its
      own, only calls of the task's, a ready speech model still ready, and
      either a failure blamed on a service or the step's artifact and
      output file added to what was there. */
  predicate StepOutcome(t: ProcessingTask, svc: Services, step: ProcessingStep, w: Walk, r: Walk) {
    r.events == w.events && CallsOk(t, svc, r.calls) && (w.whisperReady ==> r.whisperReady)
    && (r.failure.Some? ==> Blamed(svc, r.failure.value))
    && (r.failure.None? ==>
          Produced(step, r) && Faithful(t, svc, r) && r.outputs == AddOutput(t, w.outputs, step)
          && (w.segments.Some? ==> r.segments.Some?) && (w.bilingual.Some? ==> r.bilingual.Some?)
          && (w.clips.Some? ==> r.clips.Some?))
  }

  /** The expected output files one step on. */
  lemma OutputsStep(t: ProcessingTask, svc: Services, j: nat, w: Walk)
    requires Entered(t, svc, j, w)
    ensures ExpectedOutputs(t, Steps(t.config.mode)[..j + 1]) == AddOutput(t, w.outputs, Steps(t.config.mode)[j])
  {
    var steps := Steps(t.config.mode);
    assert ExtractingAudio in steps[..j + 1] <==> ExtractingAudio in steps[..j] || steps[j] == ExtractingAudio;
    assert GeneratingSubtitles in steps[..j + 1] <==> GeneratingSubtitles in steps[..j] || steps[j] == GeneratingSubtitles;
    assert ComposingVideo in steps[..j + 1] <==> ComposingVideo in steps[..j] || steps[j] == ComposingVideo;
  }

  /** Any step outcome, from the state after the step's report, leaves the
      invariant one step on or a blamed failure. */
  lemma OutcomeKeeps(t: ProcessingTask, svc: Services, j: nat, w: Walk, r: Walk)
    requires Entered(t, svc, j, w) && StepOutcome(t, svc, Steps(t.config.mode)[j], w, r)
    ensures Left(t, svc, j, w, r)
  {
    var steps := Steps(t.config.mode);
    if r.failure.Some? {
      FailKeeps(t, svc, j, w, r);
    } else {
      OutputsStep(t, svc, j, w);
      assert Ready(steps[..j + 1], r) by {
        assert Transcribing in steps[..j + 1] <==> Transcribing in steps[..j] || steps[j] == Transcribing;
        assert Translating in steps[..j + 1] <==> Translating in steps[..j] || steps[j] == Translating;
        assert GeneratingTTS in steps[..j + 1] <==> GeneratingTTS in steps[..j] || steps[j] == GeneratingTTS;
      }
      SucceedKeeps(t, svc, j, w, r);
    }
  }

  /** The step's own work, after its report. */
  lemma DoStepKeeps(t: ProcessingTask, svc: Services, j: nat, w: Walk)
    requires Entered(t, svc, j, w)
    ensures Left(t, svc, j, w, DoStep(t, svc, Steps(t.config.mode)[j], w))
  {
    DoStepOutcome(t, svc, j, w);
    OutcomeKeeps(t, svc, j, w, DoStep(t, svc, Steps(t.config.mode)[j], w));
  }

  /** Each step's work, from the state after its report, has a step
      outcome: the artifacts it reads are there. */
  lemma DoStepOutcome(t: ProcessingTask, svc: Services, j: nat, w: Walk)
    requires Entered(t, svc, j, w)
    ensures StepOutcome(t, svc, Steps(t.config.mode)[j], w, DoStep(t, svc, Steps(t.config.mode)[j], w))
  {
    var m := t.config.mode;
    var step := Steps(m)[j];
    StepFlags(m, j);
    match step {
      case ExtractingAudio => ExtractOutcome(t, svc, w);
      case Transcribing => TranscribeOutcome(t, svc, w);
      case Translating => TranslateOutcome(t, svc, w);
      case GeneratingSubtitles => SubtitlesOutcome(t, svc, w);
      case GeneratingTTS => TtsOutcome(t, svc, w);
      case AssemblingAudio => AssembleOutcome(t, svc, w);
      case ComposingVideo => ComposeOutcome(t, svc, w);
      case _ => assert false;
    }
  }

  /** What a step needs of the state it starts from: the calls so far are
      the task's and the artifacts present are faithful. */
  predicate Sound(t: ProcessingTask, svc: Services, w: Walk) {
    CallsOk(t, svc, w.calls) && Faithful(t, svc, w) && w.failure.None?
  }

  /** Extraction writes the audio file or fails blamed on the extractor. */
  lemma ExtractOutcome(t: ProcessingTask, svc: Services, w: Walk)
    requires Sound(t, svc, w)
    ensures StepOutcome(t, svc, ExtractingAudio, w, ExtractStep(t, svc, w))
  {
    RecordKeeps(t, svc, w, ExtractCall(t.videoURL, LayoutOf(t).audio));
  }

  /** Transcription leaves the segmenter's segments of the transcription,
      or fails blamed on the speech service, the segmenter or a
      cancellation. */
  lemma TranscribeOutcome(t: ProcessingTask, svc: Services, w: Walk)
    requires Sound(t, svc, w)
    ensures StepOutcome(t, svc, Transcribing, w, TranscribeStep(t, svc, w))
  {
    var cfg := t.config;
    var r := TranscribeStep(t, svc, w);
    var (reply, ready) := Transcribe(w.whisperReady, svc.whisperInitOk, svc.transcription, svc.cancelAt, w.checkpoint);
    var c := TranscribeCall(LayoutOf(t).audio, cfg.sourceLanguage, cfg.whisperModel);
    var w1 := Record(w, c).(checkpoint := reply.next, whisperReady := ready);
    RecordKeeps(t, svc, w, c);
    if reply.result.Failure? {
      assert r == Fail(w1, reply.result.error);
    } else {
      var w2 := Record(w1, SegmentCall(PolicyOf(cfg)));
      RecordKeeps(t, svc, w1, SegmentCall(PolicyOf(cfg)));
      var segs := SegmentWordsOf(reply.result.value, cfg.useFixedSegmentDuration, cfg.fixedSegmentDuration);
      if segs.Failure? {
        assert r == Fail(w2, segs.error);
      } else {
        assert r == w2.(segments := Some(segs.value));
      }
    }
  }

  /** Translation of the segments leaves the service's translation, or
      fails blamed on it or a cancellation. */
  lemma TranslateOutcome(t: ProcessingTask, svc: Services, w: Walk)
    requires Sound(t, svc, w) && w.segments.Some? && RequiresTranslation(t.config.mode)
    ensures StepOutcome(t, svc, Translating, w, TranslateStep(t, svc, w))
  {
    var cfg := t.config;
    RecordKeeps(t, svc, w, TranslateCall(w.segments.value, cfg.sourceLanguage, cfg.targetLanguage));
  }

  /** The subtitle step writes the original file, and the translated one
      unless the mode is subtitles-only, or fails blamed on the writer. */
  lemma SubtitlesOutcome(t: ProcessingTask, svc: Services, w: Walk)
    requires Sound(t, svc, w) && GeneratesSubtitles(t.config.mode)
    requires t.config.mode == SubtitlesOnly ==> w.segments.Some?
    requires t.config.mode != SubtitlesOnly ==> w.bilingual.Some?
    ensures StepOutcome(t, svc, GeneratingSubtitles, w, SubtitlesStep(t, svc, w))
  {
    if t.config.mode == SubtitlesOnly {
      OriginalSubtitlesOutcome(t, svc, w);
    } else {
      BothSubtitlesOutcome(t, svc, w);
    }
  }

  lemma OriginalSubtitlesOutcome(t: ProcessingTask, svc: Services, w: Walk)
    requires Sound(t, svc, w) && t.config.mode == SubtitlesOnly && w.segments.Some?
    ensures StepOutcome(t, svc, GeneratingSubtitles, w, SubtitlesStep(t, svc, w))
  {
    var cfg := t.config;
    var l := LayoutOf(t);
    var bs := Untranslated(w.segments.value);
    var run := GenerateSubtitles(cfg.subtitleFormat, bs, l.originalSubtitles, None,
                                 svc.originalSubtitlesSaved, svc.translatedSubtitlesSaved);
    var f := if run.result.Failure? then Some(run.result.error) else None;
    WrittenOrBlamed(t, svc, w, SubtitlesCall(bs, l.originalSubtitles, None, cfg.subtitleFormat), f);
  }

  lemma BothSubtitlesOutcome(t: ProcessingTask, svc: Services, w: Walk)
    requires Sound(t, svc, w) && GeneratesSubtitles(t.config.mode) && t.config.mode != SubtitlesOnly
    requires w.bilingual.Some?
    ensures StepOutcome(t, svc, GeneratingSubtitles, w, SubtitlesStep(t, svc, w))
  {
    var cfg := t.config;
    var l := LayoutOf(t);
    var run := GenerateSubtitles(cfg.subtitleFormat, w.bilingual.value, l.originalSubtitles, Some(l.translatedSubtitles),
                                 svc.originalSubtitlesSaved, svc.translatedSubtitlesSaved);
    var f := if run.result.Failure? then Some(run.result.error) else None;
    var c := SubtitlesCall(w.bilingual.value, l.originalSubtitles, Some(l.translatedSubtitles), cfg.subtitleFormat);
    WrittenOrBlamed(t, svc, w, c, f);
  }

  /** Recording a subtitle call of the task, then failing blamed or adding
      the subtitle files, leaves a step outcome. */
  lemma WrittenOrBlamed(t: ProcessingTask, svc: Services, w: Walk, c: Call, f: Option<Failure>)
    requires Sound(t, svc, w) && CallOk(t, svc, c)
    requires f.Some? ==> Blamed(svc, f.value)
    ensures var w1 := Record(w, c);
      StepOutcome(t, svc, GeneratingSubtitles, w,
                  if f.Some? then Fail(w1, f.value) else w1.(outputs := AddOutput(t, w.outputs, GeneratingSubtitles)))
  {
    RecordKeeps(t, svc, w, c);
  }

  /** Speech synthesis leaves the service's clips, or fails blamed on the
      folder, the service or a cancellation. */
  lemma TtsOutcome(t: ProcessingTask, svc: Services, w: Walk)
    requires Sound(t, svc, w) && w.bilingual.Some? && GeneratesVideo(t.config.mode)
    ensures StepOutcome(t, svc, GeneratingTTS, w, TtsStep(t, svc, w))
  {
    var cfg := t.config;
    var l := LayoutOf(t);
    var w1 := Record(w, CreateDir(l.ttsDir));
    var c := TtsCall(w.bilingual.value, l.ttsDir, cfg.ttsVoice, cfg.enableSpeedSync);
    RecordKeeps(t, svc, w, CreateDir(l.ttsDir));
    RecordKeeps(t, svc, w1, c);
    var r := TtsStep(t, svc, w);
    if !svc.ttsDirOk {
      assert r == Fail(w1, FileSystem);
    } else {
      var reply := GenerateTTS(svc.tts, svc.cancelAt, w1.checkpoint);
      var w2 := Record(w1, c).(checkpoint := reply.next);
      if reply.result.Failure? {
        assert r == Fail(w2, reply.result.error);
      } else {
        assert r == w2.(clips := Some(svc.tts));
      }
    }
  }

  /** Assembly of the clips succeeds or fails blamed on the assembler or a
      cancellation. */
  lemma AssembleOutcome(t: ProcessingTask, svc: Services, w: Walk)
    requires Sound(t, svc, w) && w.clips.Some? && GeneratesVideo(t.config.mode)
    ensures StepOutcome(t, svc, AssemblingAudio, w, AssembleStep(t, svc, w))
  {
    RecordKeeps(t, svc, w, AssembleCall(w.clips.value, LayoutOf(t).dubbedAudio));
  }

  /** Composition writes the dubbed video or fails blamed on the composer
      or a cancellation. */
  lemma ComposeOutcome(t: ProcessingTask, svc: Services, w: Walk)
    requires Sound(t, svc, w) && GeneratesVideo(t.config.mode)
    ensures StepOutcome(t, svc, ComposingVideo, w, ComposeStep(t, svc, w))
  {
    var l := LayoutOf(t);
    var subtitles := if t.config.mode == FullPipeline then Some(l.translatedSubtitles) else None;
    var c := ComposeCall(t.videoURL, l.dubbedAudio, subtitles, l.dubbedVideo);
    RecordKeeps(t, svc, w, c);
    var reply := Guarded(svc.composeOk, VideoCompositionFailed, svc.cancelAt, w.checkpoint);
    var w1 := Record(w, c).(checkpoint := reply.next);
    var r := ComposeStep(t, svc, w);
    if reply.result.Failure? {
      assert r == Fail(w1, reply.result.error);
    } else {
      assert r == w1.(outputs := w.outputs.(dubbedVideo := Some(l.dubbedVideo)));
    }
  }

  /** The walk keeps the invariant to the end, or stops with a blamed
      failure. */
  lemma {:induction false} WalkFromKeeps(t: ProcessingTask, svc: Services, j: nat, w: Walk)
    requires Between(t, svc, j, w)
    ensures var r := WalkFrom(t, svc, j, w);
      (r.failure.None? ==> Between(t, svc, |Steps(t.config.mode)|, r)) && (r.failure.Some? ==> Stopped(t, svc, r))
      && (w.whisperReady ==> r.whisperReady)
    decreases |Steps(t.config.mode)| - j
  {
    if j < |Steps(t.config.mode)| {
      RunStepKeeps(t, svc, j, w);
      var next := RunStep(t, svc, Steps(t.config.mode), j, w);
      if next.failure.None? {
        WalkFromKeeps(t, svc, j + 1, next);
      }
    }
  }

  // ---------------------------------------------------------------------
  // The whole run

  /** How one run ends: the completed task or the failure, the reports
      made, the calls made, what the cleanup removed, and whether the
      speech model is ready for the next run. */
  datatype Execution = Execution(
    result: Result<ProcessingTask, Failure>,
    events: seq<ProcessingProgress>,
    calls: seq<Call>,
    removedTempDir: bool,
    removedWorkFolder: bool,
    whisperReady: bool)

  /** Nothing goes wrong: every service answers, nothing is cancelled. */
  predicate Works(svc: Services) {
    svc.tempDirOk && svc.extractOk && svc.whisperInitOk
    && svc.transcription.Some? && |svc.transcription.value.words| > 0
    && |svc.translation| > 0 && svc.originalSubtitlesSaved && svc.translatedSubtitlesSaved && svc.ttsDirOk && |svc.tts| > 0
    && svc.assembleOk && svc.composeOk && svc.cancelAt.None?
  }

  /** The output files a completed run of mode `m` reports: always the
      extracted audio, never a transcription file, the original subtitles
      when the mode makes subtitles, the translated ones when it also
      translates, and the dubbed video when it makes a video. */
  predicate OutputsOfMode(t: ProcessingTask, o: OutputFiles) {
    var l := LayoutOf(t);
    var m := t.config.mode;
    o.extractedAudio == Some(l.audio) && o.transcription.None?
    && o.originalSubtitles == (if GeneratesSubtitles(m) then Some(l.originalSubtitles) else None)
    && o.translatedSubtitles ==
         (if GeneratesSubtitles(m) && RequiresTranslation(m) then Some(l.translatedSubtitles) else None)
    && o.dubbedVideo == (if GeneratesVideo(m) then Some(l.dubbedVideo) else None)
  }

  lemma ExpectedOutputsOfMode(t: ProcessingTask)
    ensures OutputsOfMode(t, ExpectedOutputs(t, Steps(t.config.mode)[..|Steps(t.config.mode)|]))
  {
    var steps := Steps(t.config.mode);
    assert steps[..|steps|] == steps;
    ModeStepsAgree(t.config.mode);
  }

  function StartWalk(t: ProcessingTask, whisperReady: bool): Walk {
    Walk(NoOutputFiles, None, None, None, 0, whisperReady, [], [CreateDir(LayoutOf(t).tempDir)], None)
  }

  lemma StartWalkBetween(t: ProcessingTask, svc: Services, whisperReady: bool)
    ensures Between(t, svc, 0, StartWalk(t, whisperReady))
  {
    var steps := Steps(t.config.mode);
    assert steps[..0] == [];
  }

  /** The task as a successful run returns it. */
  function Done(t: ProcessingTask, outputs: OutputFiles, start: real, end: real): ProcessingTask {
    t.(status := Completed, currentStep := StepCompleted, progress := 1.0,
       startedAt := Some(start), completedAt := Some(end), outputFiles := Some(outputs))
  }

  /** The task a successful run returns: completed at progress 1 between
      `start` and `end`, with the outputs of its mode, and otherwise the task
      it was given. */
  predicate CompletedAs(t: ProcessingTask, start: real, end: real, r: ProcessingTask) {
    r.status == Completed && r.currentStep == StepCompleted && r.progress == 1.0
    && r.startedAt == Some(start) && r.completedAt == Some(end)
    && r.outputFiles.Some? && OutputsOfMode(t, r.outputFiles.value)
    && r.(status := t.status, currentStep := t.currentStep, progress := t.progress, startedAt := t.startedAt,
          completedAt := t.completedAt, outputFiles := t.outputFiles) == t
  }

  /** The reports of a successful run: one per step of the mode, in order,
      then the final report. */
  predicate ReportedAll(t: ProcessingTask, events: seq<ProcessingProgress>) {
    |events| == |Steps(t.config.mode)| + 1 && events[|events| - 1] == FinalEvent
    && StepEventsPrefix(Steps(t.config.mode), events[..|events| - 1])
  }

  /** A failed run: the failure is a service's fault or a cancellation, never
      a missing artifact, and the reports made are the first step reports. */
  predicate FailedAs(t: ProcessingTask, svc: Services, f: Failure, events: seq<ProcessingProgress>) {
    Blamed(svc, f) && !f.Missing? && StepEventsPrefix(Steps(t.config.mode), events)
  }

  /** How a run that created its work folder ends, given where the walk
      through the steps stopped: the failure it stopped on, or the completed
      task with the final report added. The cleanup follows the task's
      configuration either way. */
  function Conclude(t: ProcessingTask, svc: Services, w: Walk, start: real, end: real): (x: Execution)
    requires w.failure.None? ==> Between(t, svc, |Steps(t.config.mode)|, w)
    requires w.failure.Some? ==> Stopped(t, svc, w)
    ensures x.result.Success? ==> CompletedAs(t, start, end, x.result.value) && ReportedAll(t, x.events)
    ensures x.result.Failure? ==> FailedAs(t, svc, x.result.error, x.events)
    ensures x.result.Success? <==> w.failure.None?
    ensures x.calls == w.calls && x.whisperReady == w.whisperReady
    ensures x.removedTempDir <==> t.config.cleanupTempFiles
    ensures x.removedWorkFolder <==> x.removedTempDir && svc.workFolderEmptyAfter
  {
    var cleanup := t.config.cleanupTempFiles;
    var removedFolder := cleanup && svc.workFolderEmptyAfter;
    if w.failure.Some? then
      Execution(Failure(w.failure.value), w.events, w.calls, cleanup, removedFolder, w.whisperReady)
    else
      ExpectedOutputsOfMode(t);
      var events := w.events + [FinalEvent];
      assert events[..|events| - 1] == w.events;
      Execution(Success(Done(t, w.outputs, start, end)), events, w.calls, cleanup, removedFolder, w.whisperReady)
  }

  /** `ProcessTaskUseCase.execute`: the work folder is created first (its
      failure ends the run before anything else, with no cleanup); then the
      steps of the mode run in order, each announced by a report, until one
      fails; the cleanup removes the task's folder, and the work folder when
      it is left empty, exactly when the configuration asks for it. */
  function Execute(t: ProcessingTask, svc: Services, whisperReady: bool, start: real, end: real): (x: Execution)
    ensures x.result.Success? ==> CompletedAs(t, start, end, x.result.value) && ReportedAll(t, x.events)
    ensures x.result.Failure? ==> FailedAs(t, svc, x.result.error, x.events)
    ensures Works(svc) ==> x.result.Success?
    ensures CallsOk(t, svc, x.calls)
    ensures t.config.mode == SubtitlesOnly ==> forall i :: 0 <= i < |x.calls| ==>
      !x.calls[i].TranslateCall? && !x.calls[i].TtsCall? && !x.calls[i].ComposeCall?
    ensures x.removedTempDir <==> svc.tempDirOk && t.config.cleanupTempFiles
    ensures x.removedWorkFolder <==> x.removedTempDir && svc.workFolderEmptyAfter
    ensures whisperReady ==> x.whisperReady
  {
    var l := LayoutOf(t);
    if !svc.tempDirOk then Execution(Failure(FileSystem), [], [CreateDir(l.tempDir)], false, false, whisperReady)
    else
      var w0 := StartWalk(t, whisperReady);
      StartWalkBetween(t, svc, whisperReady);
      WalkFromKeeps(t, svc, 0, w0);
      var w := WalkFrom(t, svc, 0, w0);
      SubtitlesOnlyCalls(t, svc, w.calls);
      if w.failure.Some? then WorksBlamesNothing(svc, w.failure.value); Conclude(t, svc, w, start, end)
      else Conclude(t, svc, w, start, end)
  }

  /** A subtitles-only task's calls never translate, synthesise or compose. */
  lemma SubtitlesOnlyCalls(t: ProcessingTask, svc: Services, calls: seq<Call>)
    requires CallsOk(t, svc, calls)
    ensures t.config.mode == SubtitlesOnly ==> forall i :: 0 <= i < |calls| ==>
      !calls[i].TranslateCall? && !calls[i].TtsCall? && !calls[i].ComposeCall?
  {
    if t.config.mode == SubtitlesOnly {
      forall i | 0 <= i < |calls|
        ensures !calls[i].TranslateCall? && !calls[i].TtsCall? && !calls[i].ComposeCall?
      {
        assert CallOk(t, svc, calls[i]);
      }
    }
  }

  /** A subtitles-only task whose transcription gave no segments fails at
      the subtitle step with a subtitle generation error: the writer refuses
      an empty segment list. */
  lemma SubtitlesOnlyNoSegmentsFails(t: ProcessingTask, svc: Services, w: Walk)
    requires t.config.mode == SubtitlesOnly && w.segments == Some([])
    ensures SubtitlesStep(t, svc, w).failure == Some(Repo(SubtitleGenerationFailed))
    ensures SubtitlesStep(t, svc, w).outputs == w.outputs
  {
  }

  /** When every service works, no failure can be blamed on them. */
  lemma WorksBlamesNothing(svc: Services, f: Failure)
    ensures Works(svc) ==> !Blamed(svc, f)
  {
  }

  /** A run cancelled before its first step reports nothing and calls
      nothing past creating the work folder. */
  lemma CancelledBeforeFirstStep(t: ProcessingTask, svc: Services, whisperReady: bool, start: real, end: real)
    requires svc.tempDirOk && svc.cancelAt == Some(0)
    ensures var x := Execute(t, svc, whisperReady, start, end);
      x.result == Failure(Cancellation) && x.events == [] && x.calls == [CreateDir(LayoutOf(t).tempDir)]
  {
    var w0 := StartWalk(t, whisperReady);
    var w1 := RunStep(t, svc, Steps(t.config.mode), 0, w0);
    assert w1.failure == Some(Cancellation) && w1.events == [] && w1.calls == w0.calls;
    assert WalkFrom(t, svc, 0, w0) == WalkFrom(t, svc, 1, w1) == w1;
  }
}

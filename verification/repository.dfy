/** The repository that adapts the media services to the pipeline: each
    adapter turns a service's failure (a false or empty answer) into its own
    error, checks for cancellation at fixed points, and transcription
    initialises the speech model once. The services' answers are
    parameters. */
module Repository {
  import opened Wrappers
  import opened Paths
  import opened Media
  import opened Segmentation
  import opened Domain
  import SubtitleWriter
  import SubtitleReader

  datatype RepositoryError =
    | AudioExtractionFailed | TranscriptionFailed | SegmentationFailed | TranslationFailed
    | SubtitleGenerationFailed | TtsFailed | AudioAssemblyFailed | VideoCompositionFailed

  function RepositoryMessage(e: RepositoryError): string {
    match e
    case AudioExtractionFailed => "Audio extraction failed"
    case TranscriptionFailed => "Transcription failed"
    case SegmentationFailed => "Segmentation failed"
    case TranslationFailed => "Translation failed"
    case SubtitleGenerationFailed => "Subtitle generation failed"
    case TtsFailed => "TTS generation failed"
    case AudioAssemblyFailed => "Audio assembly failed"
    case VideoCompositionFailed => "Video composition failed"
  }

  /** The executor's own errors: an artifact a step needs is missing. */
  datatype ProcessingError = MissingSegments | MissingBilingualSegments | MissingTTSSegments

  function ProcessingMessage(e: ProcessingError): string {
    match e
    case MissingSegments => "Segments not available"
    case MissingBilingualSegments => "Bilingual segments not available"
    case MissingTTSSegments => "TTS segments not available"
  }

  /** Distinct errors read differently. */
  lemma MessagesDistinct(a: RepositoryError, b: RepositoryError, c: ProcessingError, d: ProcessingError)
    ensures RepositoryMessage(a) == RepositoryMessage(b) ==> a == b
    ensures ProcessingMessage(c) == ProcessingMessage(d) ==> c == d
    ensures RepositoryMessage(a) != ProcessingMessage(c)
  {
  }

  /** Anything that can end a pipeline run early. */
  datatype Failure =
    | Cancellation
    | Repo(error: RepositoryError)
    | Missing(missing: ProcessingError)
    | FileSystem

  /** Cancellation as the checkpoints see it: checkpoints are numbered in the
      order they run, and `cancelAt` is the first one that finds the run
      cancelled (every later one does too); `None` means never. */
  predicate CancelledAt(cancelAt: Option<nat>, checkpoint: nat) {
    cancelAt.Some? && checkpoint >= cancelAt.value
  }

  /** An adapter's answer and the number of the next checkpoint. */
  datatype Reply<T> = Reply(result: Result<T, Failure>, next: nat)

  /** `extractAudio`: no checkpoint; a false answer is an extraction error. */
  function ExtractAudio(ok: bool): (r: Result<(), Failure>)
    ensures r.Success? <==> ok
    ensures r.Failure? ==> r.error == Repo(AudioExtractionFailed)
  {
    if ok then Success(()) else Failure(Repo(AudioExtractionFailed))
  }

  /** `transcribe`: a checkpoint, the one-time model initialisation, a second
      checkpoint, then the transcription. Returns the reply and whether the
      model is initialised afterwards. */
  function Transcribe(initialized: bool, initOk: bool, answer: Option<TranscriptionResult>,
                      cancelAt: Option<nat>, cp: nat): (r: (Reply<TranscriptionResult>, bool))
    ensures r.1 <==> initialized || (!CancelledAt(cancelAt, cp) && initOk)
    ensures r.0.result.Success? <==>
      !CancelledAt(cancelAt, cp) && (initialized || initOk) && !CancelledAt(cancelAt, cp + 1) && answer.Some?
    ensures r.0.result.Success? ==> r.0.result.value == answer.value && r.0.next == cp + 2
    ensures r.0.result.Failure? ==>
      (r.0.result.error == Cancellation <==>
        CancelledAt(cancelAt, cp) || ((initialized || initOk) && CancelledAt(cancelAt, cp + 1)))
    ensures r.0.result.Failure? && r.0.result.error != Cancellation ==>
      r.0.result.error == Repo(TranscriptionFailed)
    ensures cp < r.0.next <= cp + 2
  {
    if CancelledAt(cancelAt, cp) then (Reply(Failure(Cancellation), cp + 1), initialized)
    else if !initialized && !initOk then (Reply(Failure(Repo(TranscriptionFailed)), cp + 1), false)
    else if CancelledAt(cancelAt, cp + 1) then (Reply(Failure(Cancellation), cp + 2), true)
    else
      match answer
      case None => (Reply(Failure(Repo(TranscriptionFailed)), cp + 2), true)
      case Some(t) => (Reply(Success(t), cp + 2), true)
  }

  /** Initialisation is attempted by every transcription that gets past its
      first checkpoint while the model is not ready, and by no other. */
  predicate InitAttempted(initialized: bool, cancelAt: Option<nat>, cp: nat) {
    !initialized && !CancelledAt(cancelAt, cp)
  }

  /** Once ready, the model stays ready and is never initialised again; a
      failed initialisation leaves it not ready for the next call to try. */
  lemma WhisperInitOnce(initialized: bool, initOk: bool, answer: Option<TranscriptionResult>,
                        cancelAt: Option<nat>, cp: nat)
    ensures var r := Transcribe(initialized, initOk, answer, cancelAt, cp);
      (initialized ==> r.1 && !InitAttempted(initialized, cancelAt, cp))
      && (InitAttempted(initialized, cancelAt, cp) ==> (r.1 <==> initOk))
      && (InitAttempted(initialized, cancelAt, cp) && !initOk ==>
            r.0.result == Failure(Repo(TranscriptionFailed)))
  {
  }

  /** `segmentWords`: the configuration's flags go to the segmenter; an empty
      result is a segmentation error. */
  function SegmentWordsOf(t: TranscriptionResult, useFixed: bool, fixedDuration: real)
    : (r: Result<seq<Segment>, Failure>)
    ensures r.Failure? <==> |t.words| == 0
    ensures r.Failure? ==> r.error == Repo(SegmentationFailed)
    ensures r.Success? ==> |r.value| > 0
    ensures r.Success? ==>
      r.value == SegmentWords(t.words, Policy(useFixed, fixedDuration))
      && IsSegmentation(t.words, r.value, Policy(useFixed, fixedDuration))
  {
    var segs := SegmentWords(t.words, Policy(useFixed, fixedDuration));
    if |segs| == 0 then Failure(Repo(SegmentationFailed)) else Success(segs)
  }

  /** The shape shared by `translate` and `generateTTS`: a checkpoint, the
      service, a checkpoint, and only an empty answer is an error (a partial
      answer passes). */
  function Bracketed<T>(answer: seq<T>, error: RepositoryError, cancelAt: Option<nat>, cp: nat)
    : (r: Reply<seq<T>>)
    ensures r.result.Success? <==>
      !CancelledAt(cancelAt, cp) && !CancelledAt(cancelAt, cp + 1) && |answer| > 0
    ensures r.result.Success? ==> r.result.value == answer && r.next == cp + 2
    ensures r.result.Failure? ==>
      (r.result.error == Cancellation <==> CancelledAt(cancelAt, cp) || CancelledAt(cancelAt, cp + 1))
    ensures r.result.Failure? && r.result.error != Cancellation ==> r.result.error == Repo(error)
    ensures cp < r.next <= cp + 2
  {
    if CancelledAt(cancelAt, cp) then Reply(Failure(Cancellation), cp + 1)
    else if CancelledAt(cancelAt, cp + 1) then Reply(Failure(Cancellation), cp + 2)
    else if |answer| == 0 then Reply(Failure(Repo(error)), cp + 2)
    else Reply(Success(answer), cp + 2)
  }

  /** `translate`. */
  function Translate(answer: seq<BilingualSegment>, cancelAt: Option<nat>, cp: nat)
    : (r: Reply<seq<BilingualSegment>>)
    ensures r.result.Success? <==>
      !CancelledAt(cancelAt, cp) && !CancelledAt(cancelAt, cp + 1) && |answer| > 0
    ensures r.result.Success? ==> r.result.value == answer
    ensures r.result.Failure? && r.result.error != Cancellation ==> r.result.error == Repo(TranslationFailed)
  {
    Bracketed(answer, TranslationFailed, cancelAt, cp)
  }

  /** `generateTTS`. */
  function GenerateTTS(answer: seq<TTSSegment>, cancelAt: Option<nat>, cp: nat)
    : (r: Reply<seq<TTSSegment>>)
    ensures r.result.Success? <==>
      !CancelledAt(cancelAt, cp) && !CancelledAt(cancelAt, cp + 1) && |answer| > 0
    ensures r.result.Success? ==> r.result.value == answer
    ensures r.result.Failure? && r.result.error != Cancellation ==> r.result.error == Repo(TtsFailed)
  {
    Bracketed(answer, TtsFailed, cancelAt, cp)
  }

  /** The shape shared by `assembleAudio` and `composeVideo`: a checkpoint,
      then a false answer is an error. */
  function Guarded(ok: bool, error: RepositoryError, cancelAt: Option<nat>, cp: nat): (r: Reply<()>)
    ensures r.next == cp + 1
    ensures r.result.Success? <==> !CancelledAt(cancelAt, cp) && ok
    ensures r.result.Failure? ==>
      r.result.error == (if CancelledAt(cancelAt, cp) then Cancellation else Repo(error))
  {
    if CancelledAt(cancelAt, cp) then Reply(Failure(Cancellation), cp + 1)
    else if !ok then Reply(Failure(Repo(error)), cp + 1)
    else Reply(Success(()), cp + 1)
  }

  /** The files a subtitle run attempts to write, in order, and its result. */
  datatype SubtitlesRun = SubtitlesRun(writes: seq<SubtitleWriter.Write>, result: Result<(), Failure>)

  /** `generateSubtitles`: with a translated path both documents are
      written from the segments, otherwise the original text alone; a writer
      run that reports failure, including the writers' refusal of an empty
      segment list, is a subtitle generation error. */
  function GenerateSubtitles(format: SubtitleFormat, segs: seq<BilingualSegment>, original: Url,
                             translated: Option<Url>, originalSaved: bool, translatedSaved: bool)
    : (r: SubtitlesRun)
    ensures r.result.Success? <==> |segs| > 0 && originalSaved && (translated.Some? ==> translatedSaved)
    ensures r.result.Failure? ==> r.result.error == Repo(SubtitleGenerationFailed)
    ensures |segs| == 0 ==> r.writes == []
    ensures |segs| > 0 ==>
      |r.writes| == (if translated.None? then 1 else 2)
      && r.writes[0] == SubtitleWriter.Write(SubtitleReader.UrlPath(original), SubtitleWriter.Content(format, segs, false))
    ensures |segs| > 0 && translated.Some? ==>
      r.writes[1] == SubtitleWriter.Write(SubtitleReader.UrlPath(translated.value), SubtitleWriter.Content(format, segs, true))
  {
    var g := match translated
      case None => SubtitleWriter.GenerateSingle(format, segs, SubtitleReader.UrlPath(original), false, originalSaved)
      case Some(t) => SubtitleWriter.GenerateBoth(format, segs, SubtitleReader.UrlPath(original),
                                                  SubtitleReader.UrlPath(t), originalSaved, translatedSaved);
    SubtitlesRun(g.writes, if g.ok then Success(()) else Failure(Repo(SubtitleGenerationFailed)))
  }
}

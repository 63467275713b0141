# SubDubAI core, modelled in Dafny

SubDubAI is a macOS application that dubs and subtitles videos. A video goes
through a pipeline of steps, and the mode picks which steps run:

1. extract the audio;
2. transcribe it into timed words;
3. group the words into sentence segments;
4. translate each segment;
5. write SRT, WebVTT or ASS subtitles;
6. synthesise a speech clip per segment, fitted to its time slot;
7. assemble the clips into one dubbed track, with silence in the gaps.

A task queue runs several videos at once, up to a configured limit. View
models drive the queue, settings, subtitle-translation and setup screens.

This project models that core as pure functions over immutable data and
proves what each operation promises.

| module | what it models |
|---|---|
| `Wrappers`, `Seqs`, `Sorting`, `Text`, `Paths` | Optional values and results; order-preserving filtering; `sorted(by:)`; string splitting, trimming, integer parsing and padding; file names and extensions |
| `Media` | Words, sentence segments, bilingual segments, speech clips and transcription results |
| `Segmentation` | Grouping words into segments by the break rules (sentence end, pause, length, duration) |
| `Tempo` | Fitting a clip to its slot with a chain of `atempo` factors |
| `Assembly` | Gaps, silence files, the ffmpeg concat list and the assembly of the dubbed track |
| `Tts` | Per-segment synthesis, all or nothing |
| `SubtitleWriter`, `SubtitleReader`, `SubtitleRoundTrip` | The three subtitle formats, written and read; reading back what was written |
| `TranslateSubtitles` | Translating existing subtitle files |
| `Domain` | Task status, steps, modes, configuration and its validation, progress, output files, the task record, validation issues |
| `Repository`, `Executor` | The service adapters and the single-task pipeline (ProcessTaskUseCase) |
| `TaskUseCases`, `QueueUseCase`, `TaskQueue` | Task creation, cancellation and removal; the bounded worker pool; the queue's state machine |
| `QueueViewModel`, `SubtitlesViewModel`, `SettingsViewModel`, `SetupViewModel` | The screens' state and their reactions to events |

Time is in real seconds throughout. A task id is a natural number handed out
by the caller. The outside world is passed in as parameters:

- the shell, ffmpeg, the speech synthesiser, the speech recogniser and the
  translator;
- the file system's answers;
- the point at which cancellation is observed.

The modelled code makes calls into that world. Where those calls matter, the
model records them, so a contract can state what is asked for.

## Model

| member | source | states |
|---|---|---|
| Segmentation.EffectivePolicy | SubDubAI/Services/SentenceSegmentationService.swift:40-41 | each per-call override that is present replaces the service's own setting, independently for the fixed-mode flag and the duration |
| Segmentation.SegmentWords | SubDubAI/Services/SentenceSegmentationService.swift:34-76 | the segments partition the words in order under the break rule; no words give no segments and there are never more segments than words |
| Segmentation.Scan | SubDubAI/Services/SentenceSegmentationService.swift:49-71 | the word loop, from any position where the scan invariant holds, ends in a segmentation of the whole input |
| Segmentation.CloseStep | SubDubAI/Services/SentenceSegmentationService.swift:64-70 | closing the open segment at a word where the rule holds, or at the last word, keeps the scan invariant |
| Segmentation.ContinueStep | SubDubAI/Services/SentenceSegmentationService.swift:52-63 | appending a word without closing keeps the scan invariant |
| Segmentation.CurrentExtended | SubDubAI/Services/SentenceSegmentationService.swift:53-62 | growing the open segment by one word introduces no earlier position at which the rule held |
| Segmentation.SegmentationUnique | SubDubAI/Services/SentenceSegmentationService.swift:49-71 | two segmentations of the same words under the same policy are equal, so the break rule determines the output |
| Segmentation.FirstSegmentRule | SubDubAI/Services/SentenceSegmentationService.swift:56-70 | the first segment is a prefix of the words and the rule holds at none of its inner positions |
| Segmentation.FirstSegmentCloses | SubDubAI/Services/SentenceSegmentationService.swift:56-70 | a first segment shorter than the input ends where the rule holds, given the following word |
| Segmentation.FirstBreakAgrees | SubDubAI/Services/SentenceSegmentationService.swift:56-70 | the first segment of one segmentation is never a proper prefix of another's |
| Segmentation.SuffixIsSegmentation | SubDubAI/Services/SentenceSegmentationService.swift:49-71 | dropping the first segment leaves a segmentation of the remaining words |
| Segmentation.SegmentCountBound | SubDubAI/Services/SentenceSegmentationService.swift:66-68 | non-empty segments are never more numerous than their words |
| Segmentation.DynamicSegmentsAtMost15 | SubDubAI/Services/SentenceSegmentationService.swift:99-102 | in dynamic mode every segment, the final flush included, has at most fifteen words |
| Segmentation.DynamicEarlyWordsWithin7s | SubDubAI/Services/SentenceSegmentationService.swift:104-110 | in dynamic mode every word of a segment but the last ends less than 7.0 s after the segment starts; the closing word may go past |
| Segmentation.DynamicBreaksAtPause | SubDubAI/Services/SentenceSegmentationService.swift:117-123 | in dynamic mode consecutive words inside one segment are separated by less than 0.5 s |
| Segmentation.FixedWindows | SubDubAI/Services/SentenceSegmentationService.swift:87-96 | in fixed mode every non-final segment spans at least the fixed duration and no earlier word of a segment reaches it |
| Segmentation.SentenceExample | SubDubAI/Services/SentenceSegmentationService.swift:113-115 | "Hello" and "world." followed by a third word give the sentence "Hello world." from 0.0 to 1.0, then the third word alone |
| Segmentation.ExampleBreaks | SubDubAI/Services/SentenceSegmentationService.swift:112-125 | in the example the rule does not hold after "Hello" and holds after "world." |
| Segmentation.ExampleIsSegmentation | SubDubAI/Services/SentenceSegmentationService.swift:137-151 | the expected split of the example satisfies the segmentation predicate, texts joined by one space and times taken from the first and last words |
| Assembly.SilenceNameInjective | SubDubAI/Services/SilenceGeneratorService.swift:68 | distinct gap indices get distinct `silence_%03d.mp3` names, so no silence file overwrites another |
| Assembly.GenerateSilence | SubDubAI/Services/SilenceGeneratorService.swift:19-41 | a non-positive duration fails before ffmpeg runs; otherwise success exactly when ffmpeg exits 0 and the file then exists |
| Assembly.SilencesFrom | SubDubAI/Services/SilenceGeneratorService.swift:67-87 | the loop yields paths exactly when every remaining silence succeeds, and then path k is `silence_<i+k>` in the output directory |
| Assembly.GenerateSilences | SubDubAI/Services/SilenceGeneratorService.swift:55-89 | no gaps give no paths; otherwise all or nothing: one path per gap, in gap order, exactly when the directory exists and every silence succeeds |
| Assembly.SilenceProgress | SubDubAI/Services/SilenceGeneratorService.swift:72 | the progress reported before each silence stays in [0.3, 0.7) |
| Assembly.CalculateGaps | SubDubAI/Services/AudioAssemblyService.swift:117-142 | at most one gap per clip and every gap is at least 50 ms |
| Assembly.BetweenFromFacts | SubDubAI/Services/AudioAssemblyService.swift:129-139 | each between-clip gap belongs to a clip with a successor, equals next start minus this end, is at least 50 ms, and the gaps come in clip order |
| Assembly.BetweenFromMember | SubDubAI/Services/AudioAssemblyService.swift:129-139 | a gap after clip m is recorded exactly when the distance to clip m+1 is at least 50 ms, and it is that distance |
| Assembly.GapScheduleRules | SubDubAI/Services/AudioAssemblyService.swift:117-142 | a leading gap exactly when the first clip starts after 50 ms (strictly, equal to its start time); a gap after clip m exactly when the next clip starts at least 50 ms later; nothing else |
| Assembly.GapExample | SubDubAI/Services/AudioAssemblyService.swift:117-142 | clips (0-2 s) and (2.5-4 s) give the single gap 0.5 s |
| Assembly.WrittenListSlots | SubDubAI/Services/AudioAssemblyService.swift:151-175 | with every clip present, the written concat list puts silence j immediately before clip j, whatever gap each silence was measured for |
| Assembly.SlottedLength | SubDubAI/Services/AudioAssemblyService.swift:151-175 | the written list holds one entry per clip plus one per silence used |
| Assembly.WrittenListDelaysFirstClip | SubDubAI/Services/AudioAssemblyService.swift:154-158 | on clips (0-2 s) and (2.5-4 s) the written list is [silence 0, clip 0, clip 1], so the first clip starts 0.5 s late |
| Assembly.PlacedFromOnSchedule | SubDubAI/Services/AudioAssemblyService.swift:145-175 | the corrected interleaving from clip i on places every clip at its start time and uses each remaining clip and silence once, in order |
| Assembly.ConcatListOnSchedule | SubDubAI/Services/AudioAssemblyService.swift:145-175 | with every clip lasting exactly its slot, the corrected concat list starts every clip at its start time on a timeline whose dropped gaps are zero, with each clip and each silence exactly once, in order |
| Assembly.ConcatListExample | SubDubAI/Services/AudioAssemblyService.swift:145-175 | on clips (0-2 s) and (2.5-4 s) the corrected list is [clip 0, silence 0, clip 1], starting at 0 s and 2.5 s |
| Assembly.MissingFrom | SubDubAI/Services/AudioAssemblyService.swift:30-40 | the report from clip i on is empty exactly when each of those clips has a path to an existing file |
| Assembly.MissingFiles | SubDubAI/Services/AudioAssemblyService.swift:27-48 | nothing is missing exactly when every clip has an audio path and the file exists |
| Assembly.AssembleAudio | SubDubAI/Services/AudioAssemblyService.swift:15-114 | an empty list is rejected; success exactly when all clips are usable, every silence is generated, the list is written and ffmpeg succeeds; on success the clips are a start-time-sorted permutation of the input with one silence per gap, and the list is the one `createConcatFile` writes |
| Assembly.AssembledAsWritten | SubDubAI/Services/AudioAssemblyService.swift:53-96 | a successful assembly plays silence j just before clip j, one entry per clip and per silence; when any gap exists the track opens with silence 0 and clip 0 starts at that gap's length, at least 50 ms in; later offsets take each clip to last exactly its slot |
| Assembly.AssembleAudioIntended | SubDubAI/Services/AudioAssemblyService.swift:145-175 | the corrected assembly has the same outcome, clip order and silences as the program's, and differs only in placing each silence where its gap was measured |
| Assembly.AssembledOnSchedule | SubDubAI/Services/AudioAssemblyService.swift:53-96 | with every clip lasting exactly its slot, a successful corrected assembly of a tight timeline places every clip at its start time and plays each clip and each silence exactly once, in order |
| Tempo.Clamp | SubDubAI/Services/AudioSpeedAdjustmentService.swift:79 | the speed is clamped into [0.25, 4] and left alone when already inside |
| Tempo.SpeedUpFrom | SubDubAI/Services/AudioSpeedAdjustmentService.swift:84-99 | the speed-up stages multiply to the requested factor, each lies in [0.5, 2], one or two stages |
| Tempo.SlowDownFrom | SubDubAI/Services/AudioSpeedAdjustmentService.swift:100-115 | the slow-down stages multiply to the requested factor, each lies in [0.5, 2], one or two stages |
| Tempo.AtempoChain | SubDubAI/Services/AudioSpeedAdjustmentService.swift:77-116 | the chain's stages multiply to the clamped speed and each lies in atempo's range; a single stage exactly when the clamped speed is already in [0.5, 2] |
| Tempo.ChainExamples | SubDubAI/Services/AudioSpeedAdjustmentService.swift:77-116 | 3.0 becomes 2.0 then 1.5; 0.3 becomes 0.5 then 0.6; 10 is clamped to 2.0 twice; 1.25 stays one stage |
| Tempo.SpeedFactor | SubDubAI/Services/AudioSpeedAdjustmentService.swift:29 | the factor is finite exactly when the slot length is not zero, and then times the slot it gives the clip's duration; a zero slot gives +infinity for a non-empty clip and NaN for an empty one |
| Tempo.RatioChain | SubDubAI/Services/AudioSpeedAdjustmentService.swift:77-116 | the chain is empty exactly for NaN; its stages lie in atempo's range and multiply to the clamped factor, 4 for +infinity and 0.25 for -infinity |
| Tempo.AdjustSpeed | SubDubAI/Services/AudioSpeedAdjustmentService.swift:15-72 | for any slot length: no probe gives nothing and a probe always gives an action; the file is copied exactly when the factor is finite and within 5 %, and keeps the old duration if the copy works; otherwise the file is re-encoded with the chain for the clamped factor (speed 4 for a non-empty clip in a zero slot, empty for an empty one) and the result is the probed duration, or the target when the output cannot be probed, or nothing when ffmpeg fails |
| Tempo.ZeroSlotExamples | SubDubAI/Services/TTSService.swift:77-84 | a zero-length slot makes a 3 s clip go through two 2.0 stages and, unprobed, count as lasting 0 s; an empty clip in a zero slot gets an empty chain |
| Tempo.ChainFitsSlot | SubDubAI/Services/AudioSpeedAdjustmentService.swift:43-67 | a clip at most four times too long or too short comes out exactly the slot length |
| Tempo.ClampedClipMissesSlot | SubDubAI/Services/AudioSpeedAdjustmentService.swift:79 | a clip ten times too long is only sped up four times, so it still overruns its slot |
| Media.WordsWithin | SubDubAI/Models/TranscriptionResult.swift:16-21 | exactly the words lying wholly inside [from, to] are kept: the k-th kept word is the word at the k-th such position of the transcript (so transcript order), and each such word is kept as often as it occurs |
| Seqs.FilterAtPositions | SubDubAI/Models/TranscriptionResult.swift:16-18 | Swift's `filter` keeps, in order, exactly the elements at the increasing positions whose element passes the test |
| Seqs.FilterCounts | SubDubAI/Models/TranscriptionResult.swift:16-18 | `filter` keeps every passing element as many times as it occurs and drops every other |
| Media.TextWithinAll | SubDubAI/Models/TranscriptionResult.swift:16-21 | a range holding every word keeps them all |
| Media.TextWithinNone | SubDubAI/Models/TranscriptionResult.swift:16-21 | a range holding no word gives the empty text |
| Media.ExpectedFilenameInjective | SubDubAI/Models/TTSSegment.swift:26-28 | distinct non-negative indices get distinct `segment_%03d.mp3` names |
| Media.ExpectedFilenameLength | SubDubAI/Models/TTSSegment.swift:26-28 | indices 0 to 999 give names of exactly fifteen characters |
| Domain.StatusFromRaw | SubDubAI/Core/Models/Domain/TaskStatus.swift:11-16 | a parsed status has exactly the raw string it was parsed from |
| Domain.StatusRawRoundTrip | SubDubAI/Core/Models/Domain/TaskStatus.swift:11-16 | parsing a status's raw value gives the status back |
| Domain.StatusClasses | SubDubAI/Core/Models/Domain/TaskStatus.swift:38-44 | no status is both active and finished; pending is exactly the status that is neither |
| Domain.StepFromRaw | SubDubAI/Core/Models/Domain/ProcessingStep.swift:11-20 | a raw step number parses exactly when it lies in 0...8, and back to that number |
| Domain.StepRawRoundTrip | SubDubAI/Core/Models/Domain/ProcessingStep.swift:11-20 | parsing a step's raw value gives the step back |
| Domain.ProgressWeight | SubDubAI/Core/Models/Domain/ProcessingStep.swift:50-62 | each weight lies in [0, 1]; idle weighs 0 and completed weighs 1 |
| Domain.FullPipelineWeighsOne | SubDubAI/Core/Models/Domain/ProcessingStep.swift:50-62 | the weights of the full pipeline's steps add up to exactly one |
| Domain.ModeStepsAgree | SubDubAI/Core/Models/Domain/ProcessingMode.swift:40-90 | each mode's step list starts with extraction then transcription, is in raw order, holds neither idle nor completed, and holds translation, subtitles and the three video steps exactly when the mode's flags say so |
| Domain.FormatFromRaw | SubDubAI/Core/Models/Domain/ProcessingConfiguration.swift:12-25 | a parsed subtitle format has the raw string as its file extension |
| Domain.FormatRoundTrip | SubDubAI/Core/Models/Domain/ProcessingConfiguration.swift:12-25 | parsing a format's extension gives the format back |
| Domain.Validate | SubDubAI/Core/Models/Domain/ProcessingConfiguration.swift:95-111 | the first failing check is reported: same languages first, then an unsupported source, then target, then model; no error exactly when all four checks pass |
| Domain.DefaultConfigValid | SubDubAI/Core/Models/Domain/ProcessingConfiguration.swift:63-92 | the default configuration (en to ru, base model) passes validation |
| Domain.Clamp01 | SubDubAI/Core/Models/Domain/ProcessingProgress.swift:35-36 | the value is clamped into [0, 1] and left alone when already inside |
| Domain.MakeProgress | SubDubAI/Core/Models/Domain/ProcessingProgress.swift:27-39 | both fractions end up in [0, 1], unchanged when already there; the other fields are stored as given |
| Domain.Trunc | SubDubAI/Core/Models/Domain/ProcessingProgress.swift:45-46 | conversion to an integer truncates toward zero for both signs |
| Domain.MinutesSeconds | SubDubAI/Core/Models/Domain/ProcessingProgress.swift:45-46 | whole minutes and seconds below 60 that together make the whole seconds of the duration |
| Domain.FormattedETA | SubDubAI/Core/Models/Domain/ProcessingProgress.swift:42-53 | a text exactly when an estimate is present; it has two space-separated parts ("Mm Ss") exactly from one minute on and one ("Ss") below, and always reads back; for a non-negative estimate the minutes and the seconds below 60 read back make its whole seconds |
| Domain.ETAReadsBack | SubDubAI/Core/Models/Domain/ProcessingProgress.swift:47-52 | both text shapes split at the space and read back as the numbers printed, the minutes part present exactly when the minutes are positive |
| Domain.FormattedETAExamples | SubDubAI/Core/Models/Domain/ProcessingProgress.swift:42-53 | 125.5 s shows as "2m 5s" and 42.9 s as "42s" |
| Domain.OutputFileCount | SubDubAI/Core/Models/Domain/OutputFiles.swift:45-51 | at most three deliverables are counted |
| Domain.OutputCountAgrees | SubDubAI/Core/Models/Domain/OutputFiles.swift:41-51 | some output exists exactly when the count is positive; the extracted audio and the transcription never count |
| Domain.NewTask | SubDubAI/Core/Models/Domain/ProcessingTask.swift:48-74 | a new task is pending, idle, at progress 0, with no start, completion, outputs, error or size |
| Domain.IndexOf | SubDubAI/Core/Models/Domain/ProcessingTask.swift:124-126 | the first position holding the value, or none exactly when it is absent |
| Domain.CurrentStepIndex | SubDubAI/Core/Models/Domain/ProcessingTask.swift:124-131 | the position of the current step in the mode's list, none exactly when the step is not in it |
| Domain.CurrentStepIndexOfMarkers | SubDubAI/Core/Models/Domain/ProcessingTask.swift:119-126 | idle and completed have no position; a working step's index is its position |
| Domain.TaskPredicatesAgree | SubDubAI/Core/Models/Domain/ProcessingTask.swift:133-156 | a task can be cancelled exactly while processing; a startable task is neither processing nor finished; a retryable one is finished; no two of start, cancel and retry are offered at once |
| Domain.ElapsedTime | SubDubAI/Core/Models/Domain/ProcessingTask.swift:97-101 | none exactly when never started; for a finished task, start plus elapsed is the completion time |
| Domain.FormattedElapsedTime | SubDubAI/Core/Models/Domain/ProcessingTask.swift:104-116 | a text exactly when the task has started; it has three colon-separated fields (HH:MM:SS) from one hour on and two (MM:SS) below, each at least two digits; read back, for a non-negative time the fields are whole hours (at least 1 when present), minutes and seconds below 60 that add up to the whole seconds elapsed |
| Domain.TasksFrom | SubDubAI/Core/Models/Domain/ProcessingTask.swift:168-170 | one new task per URL, in order, sharing the configuration |
| Domain.IssueStyleOneToOne | SubDubAI/Core/Models/Validation/ValidationIssue.swift:27-47 | two issues share an icon, and a colour, exactly when they have the same type |
| Domain.CheckStyleByOutcome | SubDubAI/Core/Models/Validation/ValidationIssue.swift:89-95 | a check's icon and colour depend only on whether it passed |
| Domain.IssuesPartition | SubDubAI/Core/Models/Validation/ValidationIssue.swift:68-78 | the critical, warning and info lists together hold every issue exactly once |
| Domain.ValidityAgrees | SubDubAI/Core/Models/Validation/ValidationIssue.swift:56-74 | a result is valid exactly when its critical list is empty, and has warnings exactly when its warning list is non-empty |
| TaskQueue.FindIndex | SubDubAI/Shared/State/TaskQueue.swift:63 | the first position whose task has the id, or none exactly when no task has it |
| TaskQueue.FindTask | SubDubAI/Shared/State/TaskQueue.swift:350-352 | a task with the requested id taken from the list, or none exactly when no task has it |
| TaskQueue.FindIndexSameIds | SubDubAI/Shared/State/TaskQueue.swift:62-66 | lists with the same ids position by position agree on where each id first occurs |
| TaskQueue.FirstIsUnique | SubDubAI/Shared/State/TaskQueue.swift:63 | only one position is the first holding a given id |
| TaskQueue.UpdateIn | SubDubAI/Shared/State/TaskQueue.swift:62-66 | only the first entry with the task's id is replaced; every id stays in place; an absent id changes nothing |
| TaskQueue.UpdateThenFind | SubDubAI/Shared/State/TaskQueue.swift:62-66 | after an update, the id finds the new version if it was present, and every other lookup is unchanged |
| TaskQueue.CancelIn | SubDubAI/Shared/State/TaskQueue.swift:104-108 | only the first task with the id goes through the cancel use case; nothing else changes |
| TaskQueue.CancelEach | SubDubAI/Shared/State/TaskQueue.swift:223-227 | cancelling each id in turn cancels the first task of every listed id, whatever the order or repetition |
| TaskQueue.StartNextBatch | SubDubAI/Shared/State/TaskQueue.swift:142-164 | a prefix of the waiting snapshots, as long as the free slots allow, is started in order and gains handles; the rest keep waiting; nothing else changes |
| TaskQueue.Start | SubDubAI/Shared/State/TaskQueue.swift:125-139 | processing is on with the new limit; the pending tasks, in list order, become the newly started runs followed by the waiting list; started snapshots are pending; within the limit the handles stay within it |
| TaskQueue.Outcome | SubDubAI/Shared/State/TaskQueue.swift:184-204 | the task written back is the starting snapshot with only status, progress, error and completion time changed: completed at 1.0, cancelled, or failed with the message |
| TaskQueue.Finish | SubDubAI/Shared/State/TaskQueue.swift:206-219 | the outcome replaces the first task with the id; the handle goes; the next batch starts from the waiting list; processing stops exactly when no handle or waiting snapshot remains |
| TaskQueue.Report | SubDubAI/Shared/State/TaskQueue.swift:175-181 | a progress report writes the starting snapshot, marked processing at the reported overall progress, over the task with that id; nothing else changes |
| TaskQueue.Cancel | SubDubAI/Shared/State/TaskQueue.swift:97-109 | the handle goes at once and the first task with the id is cancelled; the waiting list is untouched |
| TaskQueue.Stop | SubDubAI/Shared/State/TaskQueue.swift:223-235 | every task holding a handle is cancelled and the others are left alone; no handle or waiting snapshot remains and processing stops |
| TaskQueue.Add | SubDubAI/Shared/State/TaskQueue.swift:50-53 | the new tasks, pending with the given configuration and fresh ids, are appended after the unchanged old ones |
| TaskQueue.AddFromFolder | SubDubAI/Shared/State/TaskQueue.swift:56-59 | the folder's video files are appended as new tasks in name order; an unreadable folder adds nothing |
| TaskQueue.Update | SubDubAI/Shared/State/TaskQueue.swift:62-66 | the ids keep their positions; an absent id changes nothing; a present id then finds the new task |
| TaskQueue.Remove | SubDubAI/Shared/State/TaskQueue.swift:69-71 | no task with the id remains and every other task is kept; the handles and waiting list are untouched |
| TaskQueue.RemoveAll | SubDubAI/Shared/State/TaskQueue.swift:74-89 | the list and waiting list are emptied and processing stops; exactly the handles of processing tasks are dropped |
| TaskQueue.RemoveCompleted | SubDubAI/Shared/State/TaskQueue.swift:92-94 | every unfinished task is kept and every finished one (completed, failed, cancelled) leaves |
| TaskQueue.UpdatePendingConfig | SubDubAI/Shared/State/TaskQueue.swift:112-118 | pending tasks take the new configuration; no other task and no other field changes |
| TaskQueue.FilterKeepsIdsDistinct | SubDubAI/Shared/State/TaskQueue.swift:69-94 | filtering a list with distinct ids keeps them distinct |
| TaskQueue.StepKeepsIds | SubDubAI/Shared/State/TaskQueue.swift:48-235 | every queue operation keeps task ids distinct and below the id counter |
| TaskQueue.StepKeepsBound | SubDubAI/Shared/State/TaskQueue.swift:142-156 | no operation takes the number of running handles above the limit, unless a restart lowers the limit below the running count |
| TaskQueue.StaleExampleStart | SubDubAI/Shared/State/TaskQueue.swift:125-156 | with one slot and two pending tasks, the first runs and the second waits as a snapshot |
| TaskQueue.StaleExampleCancel | SubDubAI/Shared/State/TaskQueue.swift:97-109 | cancelling the waiting task changes its list entry but leaves its snapshot in the waiting list |
| TaskQueue.StaleExampleFinishFirst | SubDubAI/Shared/State/TaskQueue.swift:206-211 | when the first run ends, the snapshot of the cancelled task is started |
| TaskQueue.StaleExampleFinishSecond | SubDubAI/Shared/State/TaskQueue.swift:184-189 | that run then succeeds and the cancelled task is written back as completed |
| TaskQueue.TasksWithStatus | SubDubAI/Shared/State/TaskQueue.swift:252-274 | exactly the tasks with the status, taken from the list |
| TaskQueue.TasksWithMode | SubDubAI/Shared/State/TaskQueue.swift:360-362 | exactly the tasks with the mode, taken from the list |
| TaskQueue.FinishedTasks | SubDubAI/Shared/State/TaskQueue.swift:277-279 | exactly the completed, failed and cancelled tasks |
| TaskQueue.CountsPartition | SubDubAI/Shared/State/TaskQueue.swift:252-279 | pending, processing and finished tasks together count every task |
| TaskQueue.HasActiveTasks | SubDubAI/Shared/State/TaskQueue.swift:238-240 | true exactly when some task is processing |
| TaskQueue.OverallProgress | SubDubAI/Shared/State/TaskQueue.swift:313-336 | 0 for an empty list; within [0, 1] when each progress is; 1 when all are finished; 0 when all are pending |
| TaskQueue.SuccessRate | SubDubAI/Shared/State/TaskQueue.swift:339-343 | within [0, 1]; 0 exactly when nothing completed; 1 exactly when something finished and every finished task completed |
| TaskQueue.OverallProgressIsMean | SubDubAI/Shared/State/TaskQueue.swift:313-336 | the overall progress is the mean share: added up once per task it gives the sum of the shares; `RepeatedIsProduct` shows adding up k times is multiplying by k, so progress times the task count is that sum |
| TaskQueue.SuccessRateIsRatio | SubDubAI/Shared/State/TaskQueue.swift:339-343 | with something finished, the success rate added up once per finished task (times their number) is the number of completed ones |
| TaskQueue.CompletedWithinFinished | SubDubAI/Shared/State/TaskQueue.swift:339-343 | completed tasks number at most the finished ones, and equally many exactly when no finished task failed or was cancelled |
| TaskUseCases.CancelTask | SubDubAI/Core/Domain/UseCases/CancelTaskUseCase.swift:15-20 | whatever the status, the task becomes cancelled and finished now, which no longer counts as cancellable; no other field changes |
| TaskUseCases.CancelTwice | SubDubAI/Core/Domain/UseCases/CancelTaskUseCase.swift:15-20 | cancelling an already cancelled task only moves its completion time |
| TaskUseCases.RemoveTask | SubDubAI/Core/Domain/UseCases/RemoveTaskUseCase.swift:15-17 | no task with the id remains and nothing is added |
| TaskUseCases.RemoveTaskKeepsOthers | SubDubAI/Core/Domain/UseCases/RemoveTaskUseCase.swift:15-17 | every other task is kept, a list without the id is left alone, removing twice equals removing once, and removal distributes over concatenation |
| TaskUseCases.AddTasks | SubDubAI/Core/Domain/UseCases/AddTasksUseCase.swift:15-31 | one new pending, idle task per URL, in order, with the configuration and the file size when it can be read |
| TaskUseCases.AddTasksFreshIds | SubDubAI/Core/Domain/UseCases/AddTasksUseCase.swift:15-23 | the new tasks' ids are distinct from each other and from every id already in use |
| TaskUseCases.FindVideoFiles | SubDubAI/Core/Domain/UseCases/AddTasksFromFolderUseCase.swift:26-54 | nothing when the folder cannot be enumerated; otherwise a permutation of the regular files with a video extension, sorted by file name |
| TaskUseCases.FindVideoFilesSelects | SubDubAI/Core/Domain/UseCases/AddTasksFromFolderUseCase.swift:40-51 | a URL is picked up exactly when it is a listed regular file with one of the seven video extensions, compared in lower case |
| TaskUseCases.AddTasksFromFolder | SubDubAI/Core/Domain/UseCases/AddTasksFromFolderUseCase.swift:21-24 | one task per video file found, in file-name order |
| QueueUseCase.FirstBatch | SubDubAI/Core/Domain/UseCases/ProcessTaskQueueUseCase.swift:39-45 | the initial batch is as large as the limit allows and the tasks supply |
| QueueUseCase.StartInitialBatch | SubDubAI/Core/Domain/UseCases/ProcessTaskQueueUseCase.swift:39-45 | the first tasks, in order, are started, one event each, and the running count never exceeds the limit |
| QueueUseCase.Snoc | SubDubAI/Core/Domain/UseCases/ProcessTaskQueueUseCase.swift:40-56 | each start adds one running task and each completion removes one, keeping the bound |
| QueueUseCase.Completion | SubDubAI/Core/Domain/UseCases/ProcessTaskQueueUseCase.swift:48-56 | a completion frees a slot that the next task left, if any, takes at once |
| QueueUseCase.DrainGroup | SubDubAI/Core/Domain/UseCases/ProcessTaskQueueUseCase.swift:47-57 | after the completion loop every pending task has been started once, in order, and none is running |
| QueueUseCase.RunPool | SubDubAI/Core/Domain/UseCases/ProcessTaskQueueUseCase.swift:35-58 | the task group starts every task once, in order, ends with none running and never has more than the limit running at once |
| QueueUseCase.Execute | SubDubAI/Core/Domain/UseCases/ProcessTaskQueueUseCase.swift:25-59 | only pending tasks are started, in list order; nothing starts when none is pending or the limit is not positive |
| QueueUseCase.TaskUpdates | SubDubAI/Core/Domain/UseCases/ProcessTaskQueueUseCase.swift:61-91 | one update marks the task processing, one follows each progress report with its step and progress, and the last is the returned task or the snapshot marked failed with the message |
| Repository.MessagesDistinct | SubDubAI/Core/Domain/Repositories/VideoProcessingRepository.swift:324-346 | distinct errors read differently |
| Repository.ExtractAudio | SubDubAI/Core/Domain/Repositories/VideoProcessingRepository.swift:116-126 | success exactly when the extraction succeeds; otherwise an extraction error |
| Repository.Transcribe | SubDubAI/Core/Domain/Repositories/VideoProcessingRepository.swift:99-152 | cancellation is checked before and after the one-time model set-up; success exactly when neither check fires, the model is ready and the service answers; a failed set-up or answer is a transcription error |
| Repository.WhisperInitOnce | SubDubAI/Core/Domain/Repositories/VideoProcessingRepository.swift:99-113 | once ready the model stays ready and is not set up again; a failed set-up leaves it not ready for the next call |
| Repository.SegmentWordsOf | SubDubAI/Core/Domain/Repositories/VideoProcessingRepository.swift:154-171 | the configuration's flags reach the segmenter, whose result is a valid segmentation; no words is a segmentation error |
| Repository.Bracketed | SubDubAI/Core/Domain/Repositories/VideoProcessingRepository.swift:173-196 | cancellation is checked before and after the service; only an empty answer is an error, a partial one passes |
| Repository.Translate | SubDubAI/Core/Domain/Repositories/VideoProcessingRepository.swift:173-196 | success exactly when not cancelled and the answer is non-empty; otherwise a cancellation or a translation error |
| Repository.GenerateTTS | SubDubAI/Core/Domain/Repositories/VideoProcessingRepository.swift:242-268 | success exactly when not cancelled and the answer is non-empty; otherwise a cancellation or a TTS error |
| Repository.Guarded | SubDubAI/Core/Domain/Repositories/VideoProcessingRepository.swift:270-321 | one cancellation check, then a false answer from assembly or composition is that step's error |
| Repository.GenerateSubtitles | SubDubAI/Core/Domain/Repositories/VideoProcessingRepository.swift:198-240 | with a translated path the original and then the translated document are written, otherwise the original alone; success exactly when there are segments and every file written was saved, otherwise a subtitle generation error |
| Executor.LayoutSeparates | SubDubAI/Core/Domain/UseCases/ProcessTaskUseCase.swift:42-64 | outputs sit in the video's folder and every temporary file strictly below it; two tasks never share a temporary folder; the two subtitle files coincide exactly when the languages do |
| Executor.Untranslated | SubDubAI/Core/Domain/UseCases/ProcessTaskUseCase.swift:123-145 | the subtitles-only conversion copies each segment's text and times into both languages |
| Executor.StepEventsClimb | SubDubAI/Core/Domain/UseCases/ProcessTaskUseCase.swift:73-86 | step reports start at 0, climb strictly and stay below the final report's 1 |
| Executor.StepFlags | SubDubAI/Core/Domain/UseCases/ProcessTaskUseCase.swift:73-210 | every step a mode runs is one its flags announce |
| Executor.RunStepKeeps | SubDubAI/Core/Domain/UseCases/ProcessTaskUseCase.swift:73-210 | each step keeps the run's invariant or stops with a failure blamed on a failing service |
| Executor.DoStepKeeps | SubDubAI/Core/Domain/UseCases/ProcessTaskUseCase.swift:88-210 | each step's own work keeps the invariant or stops with a blamed failure |
| Executor.DoStepOutcome | SubDubAI/Core/Domain/UseCases/ProcessTaskUseCase.swift:88-210 | every step of a mode finds the artifacts it reads, so it never fails for a missing one: it ends with its own artifact and file or a failure blamed on a service |
| Executor.OutcomeKeeps | SubDubAI/Core/Domain/UseCases/ProcessTaskUseCase.swift:73-210 | a step outcome after the step's report leaves the run's invariant one step on, with the step's output file added, or a blamed failure |
| Executor.ExtractOutcome | SubDubAI/Core/Domain/UseCases/ProcessTaskUseCase.swift:88-91 | extraction records the extracted audio file, or fails with the extractor's error; it adds no report and only the task's own call |
| Executor.TranscribeOutcome | SubDubAI/Core/Domain/UseCases/ProcessTaskUseCase.swift:92-114 | transcription leaves exactly the segmenter's segments of the service's words, or fails blamed on the speech service, an empty transcription or a cancellation; a loaded model stays loaded |
| Executor.TranslateOutcome | SubDubAI/Core/Domain/UseCases/ProcessTaskUseCase.swift:115-122 | translation of the segments leaves the service's translation, or fails blamed on an empty answer or a cancellation |
| Executor.SubtitlesOutcome | SubDubAI/Core/Domain/UseCases/ProcessTaskUseCase.swift:123-158 | the subtitle step records the original file, and the translated one unless the mode is subtitles-only, or fails blamed on the writer |
| Executor.TtsOutcome | SubDubAI/Core/Domain/UseCases/ProcessTaskUseCase.swift:159-178 | speech synthesis leaves the service's clips, or fails blamed on the tts folder, an empty answer or a cancellation |
| Executor.AssembleOutcome | SubDubAI/Core/Domain/UseCases/ProcessTaskUseCase.swift:179-194 | assembly of the clips succeeds with nothing new recorded, or fails blamed on the assembler or a cancellation |
| Executor.ComposeOutcome | SubDubAI/Core/Domain/UseCases/ProcessTaskUseCase.swift:195-210 | composition records the dubbed video, or fails blamed on the composer or a cancellation |
| Executor.WalkFromKeeps | SubDubAI/Core/Domain/UseCases/ProcessTaskUseCase.swift:73-211 | the walk over the steps keeps the invariant to the end or stops with a blamed failure, and a ready model stays ready |
| Executor.Execute | SubDubAI/Core/Domain/UseCases/ProcessTaskUseCase.swift:24-243 | success yields a completed task with the mode's outputs, the step-start report of every step and a final one; failure is blamed on a failing service and never on a missing intermediate; with every service working it succeeds; subtitles-only never translates, speaks or composes; cleanup happens exactly when the folder was created and cleanup is on |
| Executor.SubtitlesOnlyNoSegmentsFails | SubDubAI/Core/Domain/UseCases/ProcessTaskUseCase.swift:123-145 | a subtitles-only task with no segments fails at the subtitle step with a subtitle generation error and records no subtitle output, because the writer refuses an empty list |
| Executor.CancelledBeforeFirstStep | SubDubAI/Core/Domain/UseCases/ProcessTaskUseCase.swift:42-75 | a run cancelled before its first step reports nothing and does nothing past creating its folder |
| SubtitleWriter.ClockOfNonNegative | SubDubAI/Services/SubtitleGeneratorService.swift:146-162 | for a non-negative time the printed hours, minutes, seconds and fraction are in range and together make the time truncated to the unit |
| SubtitleRoundTrip.GenerateSingleReadsBack | SubDubAI/Services/SubtitleGeneratorService.swift:27-53 | `generateSingle` writes at most one file, to the given path, and it reads back as the chosen text of every segment with the format's time resolution |
| SubtitleRoundTrip.GenerateBothReadsBack | SubDubAI/Services/SubtitleGeneratorService.swift:9-24 | with segments, the original file is written first and the translated one second, and they read back as the original and the translated texts |
| SubtitleReader.ParsingMessagesDistinct | SubDubAI/Services/SubtitleParsingService.swift:5-20 | different parsing errors never read the same |
| SubtitleReader.TimeRange | SubDubAI/Services/SubtitleParsingService.swift:93-103 | a time line without an arrow, or with a side that does not parse, is an invalid time code naming that line |
| SubtitleReader.SplitOnTwo | SubDubAI/Services/SubtitleParsingService.swift:95-96 | splitting yields two or more parts only when the separator occurs |
| SubtitleReader.Collect | SubDubAI/Services/SubtitleParsingService.swift:60-90 | the document fails exactly when some block fails, with the first failing block's error; otherwise at most one cue per block |
| SubtitleReader.SrtBlock | SubDubAI/Services/SubtitleParsingService.swift:60-87 | a block with fewer than two kept lines yields nothing; an optional number line precedes the time line, whose failure names it; cues carry no words |
| SubtitleReader.ParseSRT | SubDubAI/Services/SubtitleParsingService.swift:54-91 | the document fails exactly when some block's time line is bad, and then with an invalid time code |
| SubtitleReader.VttBlock | SubDubAI/Services/SubtitleParsingService.swift:132-161 | a block with fewer than two kept lines yields nothing; only a line holding an arrow can be reported as a bad time code |
| SubtitleReader.ParseVTT | SubDubAI/Services/SubtitleParsingService.swift:120-164 | the document fails exactly when some block fails, and only on a line holding an arrow |
| SubtitleReader.WithColumns | SubDubAI/Services/SubtitleParsingService.swift:225-235 | each column index is unchanged or points at a column of that name |
| SubtitleReader.AssDialogue | SubDubAI/Services/SubtitleParsingService.swift:238-259 | a Dialogue line read as a cue has no words and no override braces left |
| SubtitleReader.AssLine | SubDubAI/Services/SubtitleParsingService.swift:206-260 | a cue is read only inside the Events section and without changing the state; outside it only the heading matters, and the heading enters the section |
| SubtitleReader.AssRun | SubDubAI/Services/SubtitleParsingService.swift:206-261 | the lines give at most one cue each |
| SubtitleReader.OutsideEventsIgnored | SubDubAI/Services/SubtitleParsingService.swift:210-217 | lines before the Events heading are ignored, whatever they hold |
| SubtitleReader.NoEventsNoCues | SubDubAI/Services/SubtitleParsingService.swift:198-264 | a document without an Events heading yields no cues |
| SubtitleReader.StripOverrides | SubDubAI/Services/SubtitleParsingService.swift:279-294 | characters from an opening brace to the next closing brace are dropped with the braces; text without braces is unchanged |
| SubtitleReader.CleanASSText | SubDubAI/Services/SubtitleParsingService.swift:278-300 | the cleaned text holds no braces and has no whitespace or line break at either end |
| SubtitleReader.ParseFile | SubDubAI/Services/SubtitleParsingService.swift:23-50 | an unknown lower-cased extension is refused exactly as unsupported before reading; an unreadable file is invalid; a success carries the extension's format |
| SubtitleReader.CrlfNormalised | SubDubAI/Services/SubtitleParsingService.swift:34-35 | normalising undoes writing every line end as a carriage return and line feed |
| SubtitleReader.CrlfReadsAsLf | SubDubAI/Services/SubtitleParsingService.swift:23-50 | a file with Windows line ends parses exactly like the same file with plain line ends |
| SubtitleRoundTrip.SrtTimeRoundTrip | SubDubAI/Models/BilingualSegment.swift:33-40 | reading a printed SRT time stamp gives the time truncated to milliseconds |
| SubtitleRoundTrip.VttTimeRoundTrip | SubDubAI/Services/SubtitleGeneratorService.swift:146-152 | reading a printed WebVTT time stamp gives the time truncated to milliseconds |
| SubtitleRoundTrip.AssTimeRoundTrip | SubDubAI/Services/SubtitleGeneratorService.swift:154-162 | reading a printed ASS time stamp gives the time truncated to centiseconds |
| SubtitleRoundTrip.TimeLine | SubDubAI/Services/SubtitleParsingService.swift:93-103 | a written time line splits on its arrow and reads as its two stamps' times |
| SubtitleRoundTrip.SrtCuesRead | SubDubAI/Services/SubtitleGeneratorService.swift:220-243 | the written SRT cues read back as their segments, in order |
| SubtitleRoundTrip.SrtRoundTrip | SubDubAI/Services/SubtitleGeneratorService.swift:220-243 | an SRT document read back gives every segment, in order, with its text and millisecond-truncated times |
| SubtitleRoundTrip.VttCuesRead | SubDubAI/Services/SubtitleGeneratorService.swift:116-128 | the written WebVTT cues read back as their segments, in order |
| SubtitleRoundTrip.VttRoundTrip | SubDubAI/Services/SubtitleGeneratorService.swift:116-128 | a WebVTT document read back gives every segment, in order, with its text and millisecond-truncated times |
| SubtitleRoundTrip.UnescapeEscape | SubDubAI/Services/SubtitleGeneratorService.swift:139 | turning the written line-break escape back into line breaks recovers a text without backslashes |
| SubtitleRoundTrip.CleanEscaped | SubDubAI/Services/SubtitleParsingService.swift:278-300 | the reader's cleaning gives back a plain text the writer escaped |
| SubtitleRoundTrip.DialogueLine | SubDubAI/Services/SubtitleGeneratorService.swift:139-140 | one Dialogue line the writer emits reads back as its segment's cue |
| SubtitleRoundTrip.DialoguesRead | SubDubAI/Services/SubtitleGeneratorService.swift:138-141 | the writer's Dialogue lines read back as their cues, in order, inside the Events section |
| SubtitleRoundTrip.EventsFormatRead | SubDubAI/Services/SubtitleGeneratorService.swift:137 | the writer's Events column line keeps Start, End and Text at their default positions |
| SubtitleRoundTrip.HeaderRead | SubDubAI/Services/SubtitleGeneratorService.swift:134-137 | the writer's header leaves the reader inside the Events section with the default columns and no cue |
| SubtitleRoundTrip.AssRoundTrip | SubDubAI/Services/SubtitleGeneratorService.swift:130-144 | an ASS document read back gives one cue per segment, in order, with centisecond-truncated times, for plain texts |
| SubtitleRoundTrip.ContentRoundTrip | SubDubAI/Services/SubtitleGeneratorService.swift:27-53 | the document of any of the three formats reads back, through that format's reader, as its segments |
| SubtitleRoundTrip.SubtitleFilesReadBack | SubDubAI/Core/Domain/Repositories/VideoProcessingRepository.swift:198-240 | after a successful `generateSubtitles` the original file, and the translated one when asked for, sit at the given paths and read back as their texts of every segment |
| TranslateSubtitles.SanitizedLanguage | SubDubAI/Core/Domain/UseCases/TranslateSubtitlesUseCase.swift:93 | the language as used in a file name holds no dash |
| TranslateSubtitles.FormatExtensionPlain | SubDubAI/Core/Domain/UseCases/TranslateSubtitlesUseCase.swift:92 | a format's extension is lower-case and has no dot |
| TranslateSubtitles.OutputUrlFacts | SubDubAI/Core/Domain/UseCases/TranslateSubtitlesUseCase.swift:85-96 | the output sits next to the input, keeps its base name plus an underscore and the sanitised language, carries the format's extension, and that extension selects the same format again |
| TranslateSubtitles.SanitizedPlain | SubDubAI/Core/Domain/UseCases/TranslateSubtitlesUseCase.swift:93 | a code without a dash, such as "ru", is kept |
| TranslateSubtitles.SanitizedRegion | SubDubAI/Core/Domain/UseCases/TranslateSubtitlesUseCase.swift:93 | "pt-BR" becomes "pt_BR" |
| TranslateSubtitles.OutputUrlExample | SubDubAI/Core/Domain/UseCases/TranslateSubtitlesUseCase.swift:55-60 | movie.srt translated to Russian is written as movie_ru.srt |
| TranslateSubtitles.OutputUrlRegionExample | SubDubAI/Core/Domain/UseCases/TranslateSubtitlesUseCase.swift:85-96 | talk.en.vtt translated to pt-BR becomes talk.en_pt_BR.vtt: only the last dot starts the extension |
| TranslateSubtitles.ProcessFile | SubDubAI/Core/Domain/UseCases/TranslateSubtitlesUseCase.swift:39-81 | a file that cannot be read is reported; a file with no cues or an empty translation is skipped silently; otherwise the translated document is written in the input's format next to it and succeeds exactly when saved |
| TranslateSubtitles.Outcomes | SubDubAI/Core/Domain/UseCases/TranslateSubtitlesUseCase.swift:36 | each file is handled by the loop body with its own reading, translation and save |
| TranslateSubtitles.RunFrom | SubDubAI/Core/Domain/UseCases/TranslateSubtitlesUseCase.swift:36-82 | every callback from file i on names a file at or after i |
| TranslateSubtitles.Execute | SubDubAI/Core/Domain/UseCases/TranslateSubtitlesUseCase.swift:34 | no files gives no callback, no write and no cancellation |
| TranslateSubtitles.StopAt | SubDubAI/Core/Domain/UseCases/TranslateSubtitlesUseCase.swift:37 | the loop runs up to the first file whose cancellation check fires, or to the end |
| TranslateSubtitles.RunFromCancelled | SubDubAI/Core/Domain/UseCases/TranslateSubtitlesUseCase.swift:37 | the loop ends by cancellation exactly when the stop comes before the end of the list |
| TranslateSubtitles.RunFromOrdered | SubDubAI/Core/Domain/UseCases/TranslateSubtitlesUseCase.swift:36-82 | callbacks come in strictly increasing file order |
| TranslateSubtitles.RunFromTruthful | SubDubAI/Core/Domain/UseCases/TranslateSubtitlesUseCase.swift:36-82 | each callback is for a file before the stop and is the one its file's outcome calls for |
| TranslateSubtitles.RunFromComplete | SubDubAI/Core/Domain/UseCases/TranslateSubtitlesUseCase.swift:36-82 | every file before the stop that was not skipped has a callback |
| TranslateSubtitles.CallbackSuccess | SubDubAI/Core/Domain/UseCases/TranslateSubtitlesUseCase.swift:72-80 | a callback reports success exactly when its file was read, had cues, was translated and was saved, and carries a reason otherwise |
| TranslateSubtitles.ExecuteCallbacks | SubDubAI/Core/Domain/UseCases/TranslateSubtitlesUseCase.swift:28-83 | the run is cancelled exactly when the stop precedes the end; callbacks come at most once per file, in file order, for every non-skipped file before the stop and none after it, each truthful about success |
| TranslateSubtitles.ReadFailureReported | SubDubAI/Core/Domain/UseCases/TranslateSubtitlesUseCase.swift:77-80 | a file that cannot be read is reported with that error and the loop goes on with the next file |
| TranslateSubtitles.OutcomeWrites | SubDubAI/Core/Domain/UseCases/TranslateSubtitlesUseCase.swift:53-70 | a file adds one write of its translated document exactly when it was read, had cues and was translated |
| TranslateSubtitles.RunFromWrites | SubDubAI/Core/Domain/UseCases/TranslateSubtitlesUseCase.swift:36-82 | the loop writes exactly those documents for the files before the stop, in order |
| TranslateSubtitles.WritesKeepFormat | SubDubAI/Core/Domain/UseCases/TranslateSubtitlesUseCase.swift:56-66 | each written document's extension selects the format the input was read in |
| Tts.ClipCalls | SubDubAI/Services/TTSService.swift:60-116 | the first call for a segment synthesises its translated text to its temporary path |
| Tts.ClipsFrom | SubDubAI/Services/TTSService.swift:40-117 | a loop that completes from segment i gives one clip per remaining segment |
| Tts.GenerateTTS | SubDubAI/Services/TTSService.swift:17-123 | no segments or no output directory gives nothing; otherwise every clip or none |
| Tts.ExpectedClips | SubDubAI/Services/TTSService.swift:49-55 | the reference clip of segment k has index k + 1, the translated text, the segment's times and its own path |
| Tts.ExpectedClipsCons | SubDubAI/Services/TTSService.swift:49-55 | the reference clips from i are segment i's clip followed by those after it |
| Tts.ClipsKeepTimes | SubDubAI/Services/TTSService.swift:49-55 | each clip of a completed run copies its segment's start and end times, so it lasts exactly as long as the segment |
| Tts.ClipsFromAllOrNothing | SubDubAI/Services/TTSService.swift:40-117 | the loop from i returns the reference clips exactly when every remaining segment succeeds, and nothing otherwise |
| Tts.GenerateTTSAllOrNothing | SubDubAI/Services/TTSService.swift:17-123 | for a non-empty list, one clip per segment in order exactly when the directory was created and every segment succeeded; otherwise nothing |
| Tts.ClipPathsDistinct | SubDubAI/Services/TTSService.swift:61-63 | the clips of a run never share a file |
| Tts.ClipsFromCallsFit | SubDubAI/Services/TTSService.swift:65-116 | the calls from segment i on fit their segments |
| Tts.GenerateTTSCalls | SubDubAI/Services/TTSService.swift:76-116 | with synchronisation on every adjustment targets its segment's length and nothing is moved unadjusted; with it off nothing is adjusted |
| QueueViewModel.LessIsStrictOrder | SubDubAI/Features/Queue/QueueViewModel.swift:160-171 | each of the four sort orders is a strict order |
| QueueViewModel.FilteredTasks | SubDubAI/Features/Queue/QueueViewModel.swift:84-103 | the list is a reordering of exactly the tasks passing the status filter and the search, in the chosen key's order |
| QueueViewModel.StagedFilters | SubDubAI/Features/Queue/QueueViewModel.swift:84-100 | the status stage then the search stage keep exactly the shown tasks |
| QueueViewModel.SortedInKeyOrder | SubDubAI/Features/Queue/QueueViewModel.swift:160-171 | a list ordered by the sort relation is ordered by its key: newest first, file name, raw status, or highest progress first |
| QueueViewModel.FilteredTasksMembers | SubDubAI/Features/Queue/QueueViewModel.swift:84-103 | a task is listed exactly when it is in the queue and passes both filters |
| QueueViewModel.UnfilteredShowsAll | SubDubAI/Features/Queue/QueueViewModel.swift:84-103 | with no filter and no search the list is a reordering of the whole queue |
| QueueViewModel.StatusSortIsAlphabetical | SubDubAI/Features/Queue/QueueViewModel.swift:166-167 | sorting by status runs cancelled, completed, failed, pending, processing |
| QueueViewModel.AnyWithStatus | SubDubAI/Shared/State/TaskQueue.swift:355-357 | some task of the queue has the status exactly when the filtered list is non-empty |
| QueueViewModel.Enablement | SubDubAI/Features/Queue/QueueViewModel.swift:146-156 | start is offered exactly when a task is pending and nothing is processing; stop exactly while processing; clearing exactly when some task completed successfully |
| QueueViewModel.ClearOfferedOnlyForSuccesses | SubDubAI/Features/Queue/QueueViewModel.swift:154-156 | a queue holding only a failed task offers no clearing, although clearing would empty it |
| QueueViewModel.StartMax | SubDubAI/Features/Queue/QueueViewModel.swift:35-42 | the stored concurrency is passed on, except that 0 means 3; a non-negative setting always gives a positive bound |
| QueueViewModel.StartProcessing | SubDubAI/Features/Queue/QueueViewModel.swift:35-42 | the queue starts processing with the bound from the settings; the view is untouched |
| QueueViewModel.RemoveTask | SubDubAI/Features/Queue/QueueViewModel.swift:48-53 | the task leaves the queue; the selection is cleared exactly when it named that task; a valid selection stays valid |
| QueueViewModel.RemoveKeepsOtherTask | SubDubAI/Features/Queue/QueueViewModel.swift:48-53 | removing one id keeps every task of another id |
| QueueViewModel.RemoveCompletedTasks | SubDubAI/Features/Queue/QueueViewModel.swift:55-58 | finished tasks leave the queue and the selection is cleared |
| QueueViewModel.RequestClearAll | SubDubAI/Features/Queue/QueueViewModel.swift:60-62 | only the confirmation request changes |
| QueueViewModel.ConfirmRemoveAllTasks | SubDubAI/Features/Queue/QueueViewModel.swift:64-68 | the queue is emptied and stops; selection and confirmation are cleared |
| QueueViewModel.SelectTask | SubDubAI/Features/Queue/QueueViewModel.swift:74-76 | the id is selected; the selection names a task exactly when the queue holds that id |
| SubtitlesViewModel.CountOf | SubDubAI/Features/Subtitles/SubtitlesViewModel.swift:34-48 | a count never exceeds the list and is zero exactly when no entry has that state |
| SubtitlesViewModel.CountsAddUp | SubDubAI/Features/Subtitles/SubtitlesViewModel.swift:34-48 | pending, done and failed entries together count every entry |
| SubtitlesViewModel.ActiveCount | SubDubAI/Features/Subtitles/SubtitlesViewModel.swift:34-48 | at most one entry is shown active, exactly while a run is in flight and the list is non-empty |
| SubtitlesViewModel.Translate | SubDubAI/Features/Subtitles/SubtitlesViewModel.swift:50-67 | no files only sets the nothing-selected message; otherwise a run starts with one pending entry per file, in order, at progress 0 |
| SubtitlesViewModel.FileFinished | SubDubAI/Features/Subtitles/SubtitlesViewModel.swift:79-94 | only the reported entry changes, to succeeded or failed with the error; an index past the list is ignored |
| SubtitlesViewModel.RunFinished | SubDubAI/Features/Subtitles/SubtitlesViewModel.swift:98-104 | the run stops, the entries and progress stay and a summary is set |
| SubtitlesViewModel.RunCancelled | SubDubAI/Features/Subtitles/SubtitlesViewModel.swift:105-111 | the run stops, progress drops to 0, the entries stay and the cancellation message is shown |
| SubtitlesViewModel.RunFailed | SubDubAI/Features/Subtitles/SubtitlesViewModel.swift:112-118 | the run stops, progress drops to 0, the entries stay and the message ends with the error's description |
| SubtitlesViewModel.Clear | SubDubAI/Features/Subtitles/SubtitlesViewModel.swift:127-132 | no entries, no progress and no messages remain |
| SubtitlesViewModel.ProgressIsFraction | SubDubAI/Features/Subtitles/SubtitlesViewModel.swift:92-93 | progress, finished entries over the run's file count, stays in [0, 1] |
| SubtitlesViewModel.StepKeepsConsistent | SubDubAI/Features/Subtitles/SubtitlesViewModel.swift:50-132 | every event keeps the entry list sized to the run and progress in [0, 1] |
| SubtitlesViewModel.AllReportedMeansDone | SubDubAI/Features/Subtitles/SubtitlesViewModel.swift:92-93 | once every file of a run has reported, progress is exactly 1 |
| SubtitlesViewModel.FilterSupported | SubDubAI/Features/Subtitles/SubtitlesView.swift:293-296 | exactly the files with a subtitle extension are kept: the k-th kept file is the file at the k-th such position of the pick (so the given order), and each is kept as often as it occurs |
| SubtitlesViewModel.FirstWithKey | SubDubAI/Features/Subtitles/SubtitlesView.swift:300-310 | the first file with the key, or none exactly when no file has it |
| SubtitlesViewModel.DedupeFacts | SubDubAI/Features/Subtitles/SubtitlesView.swift:300-310 | the merge keeps one file per unseen key, the first with that key, and nothing else |
| SubtitlesViewModel.DedupeKeepsPrefix | SubDubAI/Features/Subtitles/SubtitlesView.swift:300-310 | a selection without repeated keys survives as the front of the merge |
| SubtitlesViewModel.Merge | SubDubAI/Features/Subtitles/SubtitlesView.swift:298-310 | the merged selection has one file per key, the keys of the old selection and the supported new files, the first file for each key, and a duplicate-free old selection as its front |
| SubtitlesViewModel.PickNoteFor | SubDubAI/Features/Subtitles/SubtitlesView.swift:313-319 | the message says no supported file exactly when none is, some ignored exactly when some but not all are, and otherwise the merged selection's size |
| SubtitlesViewModel.ApplySelectedUrls | SubDubAI/Features/Subtitles/SubtitlesView.swift:298-320 | the selection becomes the merge; entries and progress are reset and the message describes the pick |
| SubtitlesViewModel.MergeKeepsSelection | SubDubAI/Features/Subtitles/SubtitlesView.swift:300-310 | the merge starts with a duplicate-free selection unchanged |
| SubtitlesViewModel.SupportedCount | SubDubAI/Features/Subtitles/SubtitlesView.swift:313-319 | no supported file and all supported files are told apart by how many survive the filter |
| SubtitlesViewModel.PickingTwiceChangesNothing | SubDubAI/Features/Subtitles/SubtitlesView.swift:298-310 | picking the same files again leaves the selection unchanged |
| SubtitlesViewModel.DedupeAllSeen | SubDubAI/Features/Subtitles/SubtitlesView.swift:300-310 | files whose keys are all already selected are all dropped |
| SettingsViewModel.SettingsEnabled | SubDubAI/Features/Settings/SettingsViewModel.swift:39-41 | enabled exactly when there is no callback or it reports no active task |
| SettingsViewModel.Load | SubDubAI/Features/Settings/SettingsViewModel.swift:128-140 | a missing configuration reads as the default, a stored concurrency of 0 reads as 3, and the flags read as stored |
| SettingsViewModel.Init | SubDubAI/Features/Settings/SettingsViewModel.swift:48-57 | the view model starts with the loaded settings and no pending save |
| SettingsViewModel.Save | SubDubAI/Features/Settings/SettingsViewModel.swift:161-183 | while disabled only the pending flag is set; otherwise all five settings are written, the flag cleared and a change announced |
| SettingsViewModel.SaveThenLoad | SubDubAI/Features/Settings/SettingsViewModel.swift:161-183 | saved settings load back as they were, except that a concurrency of 0 loads as 3 |
| SettingsViewModel.SaveSoon | SubDubAI/Features/Settings/SettingsViewModel.swift:145-159 | never writes the store or changes the settings; afterwards a save is pending exactly when one was or settings are disabled, and scheduled exactly when one was or they are enabled |
| SettingsViewModel.SaveTimerFired | SubDubAI/Features/Settings/SettingsViewModel.swift:150-158 | the schedule is consumed; the store then holds the current settings if settings are enabled at that moment and is untouched otherwise, and the save is left pending exactly when they are disabled |
| SettingsViewModel.QueueChanged | SubDubAI/Features/Settings/SettingsViewModel.swift:72-84 | the current settings are written, and one change announced, exactly when a save is pending and settings are enabled; a save stays pending exactly when it was and they are still disabled |
| SettingsViewModel.DebouncedEditIsSaved | SubDubAI/Features/Settings/SettingsViewModel.swift:72-159 | an edit is never lost: its debounce timer writes it if settings are enabled when it fires, and otherwise the first queue change that finds them enabled does |
| SettingsViewModel.Edit | SubDubAI/Features/Settings/SettingsViewModel.swift:87-125 | an edited setting is held and asks for a debounced save, or is deferred while disabled |
| SettingsViewModel.Update | SubDubAI/Features/Settings/SettingsViewModel.swift:196-219 | the new value is held and written at once while enabled, otherwise deferred |
| SettingsViewModel.DeferredEditIsSaved | SubDubAI/Features/Settings/SettingsViewModel.swift:72-84 | an edit made while tasks run is written unchanged by the first queue change that finds settings enabled |
| SettingsViewModel.ClampConcurrency | SubDubAI/Features/Settings/SettingsViewModel.swift:221-224 | the concurrency is clamped into [1, 10] and left alone when inside |
| SettingsViewModel.UpdateMaxConcurrent | SubDubAI/Features/Settings/SettingsViewModel.swift:221-224 | only the concurrency changes, to the clamped value |
| SettingsViewModel.StoredConcurrencyStartsQueue | SubDubAI/Features/Settings/SettingsViewModel.swift:221-224 | the concurrency a saved update stores is exactly the bound the queue starts with |
| SettingsViewModel.ToggleCleanup | SubDubAI/Features/Settings/SettingsViewModel.swift:231-235 | the cleanup flag flips and is copied into the default configuration; nothing else in it changes |
| SettingsViewModel.ToggleAutoStart | SubDubAI/Features/Settings/SettingsViewModel.swift:226-229 | only the auto-start flag flips |
| SettingsViewModel.ToggleNotifications | SubDubAI/Features/Settings/SettingsViewModel.swift:237-240 | only the notifications flag flips |
| SettingsViewModel.ToggleTwice | SubDubAI/Features/Settings/SettingsViewModel.swift:226-240 | toggling twice restores the settings; for cleanup exactly when the flag and the configuration's copy agreed |
| SettingsViewModel.FreshInstallCleanupDisagrees | SubDubAI/Features/Settings/SettingsViewModel.swift:244-250 | on a fresh install the cleanup flag reads false while the default configuration cleans up |
| SettingsViewModel.ResetToDefaults | SubDubAI/Features/Settings/SettingsViewModel.swift:185-192 | the defaults are restored and, while enabled, load back from the store |
| SettingsViewModel.UpdateMode | SubDubAI/Features/Settings/SettingsViewModel.swift:196-199 | only the default configuration's mode changes |
| SettingsViewModel.UpdateSourceLanguage | SubDubAI/Features/Settings/SettingsViewModel.swift:201-204 | only the default configuration's source language changes |
| SettingsViewModel.UpdateTargetLanguage | SubDubAI/Features/Settings/SettingsViewModel.swift:206-209 | only the default configuration's target language changes |
| SettingsViewModel.UpdateWhisperModel | SubDubAI/Features/Settings/SettingsViewModel.swift:211-214 | only the default configuration's model changes |
| SettingsViewModel.UpdateTtsVoice | SubDubAI/Features/Settings/SettingsViewModel.swift:216-219 | only the default configuration's voice changes |
| SettingsViewModel.ExternalChange | SubDubAI/Features/Settings/SettingsViewModel.swift:128-140 | settings saved elsewhere are loaded without triggering a save |
| SettingsViewModel.BusyNeverWrites | SubDubAI/Features/Settings/SettingsViewModel.swift:161-166 | while tasks run no operation writes the store |
| SetupViewModel.AllSatisfy | SubDubAI/Features/Setup/SetupViewModel.swift:25-27 | true exactly when every result is satisfied |
| SetupViewModel.AllDependenciesSatisfied | SubDubAI/Features/Setup/SetupViewModel.swift:25-27 | true exactly when there are results and all are satisfied |
| SetupViewModel.StartChecks | SubDubAI/Features/Setup/SetupViewModel.swift:29-50 | afterwards a check is running and earlier results are kept; a running check is left untouched, a new one shows the checking step with no progress messages; a consistent wizard stays consistent |
| SetupViewModel.Retry | SubDubAI/Features/Setup/SetupViewModel.swift:52-54 | retrying is starting the checks, and a check is then running |
| SetupViewModel.ProgressMessage | SubDubAI/Features/Setup/SetupViewModel.swift:41 | the message is appended and nothing else changes |
| SetupViewModel.ChecksFinished | SubDubAI/Features/Setup/SetupViewModel.swift:44-48 | the results are stored, the check ends and the summary shows |
| SetupViewModel.StepKeepsConsistent | SubDubAI/Features/Setup/SetupViewModel.swift:29-54 | every event keeps "a check runs" and "the checking step shows" in step |
| SetupViewModel.RunKeepsConsistent | SubDubAI/Features/Setup/SetupViewModel.swift:29-54 | any sequence of events keeps the wizard consistent |
| SetupViewModel.StartIsIdempotent | SubDubAI/Features/Setup/SetupViewModel.swift:30-32 | pressing start again while checking changes nothing |
| SetupViewModel.SummaryVerdict | SubDubAI/Features/Setup/SetupViewModel.swift:25-27 | the summary reports success exactly when the results are non-empty and all satisfied |

## Left out

- Processes and services: ffmpeg, ffprobe, the shell, edge-tts, WhisperKit and Apple's Translation framework are oracles. Their answers are parameters, so the translator may answer any text, and its answer may be partial.
- File system: it appears as listings, existence flags and "write succeeded" answers. Reading a file's bytes and decoding UTF-8 or UTF-16 are one oracle that answers either decoded text or unreadable.
- Concurrency: Swift tasks, task groups and the main actor become explicit events. Cancellation is the index of the first checkpoint that observes it (`cancelAt`). Which running task finishes first is a choice the model leaves open.
- Dates and ids: dates are real seconds on one clock, passed in as `now`. UUIDs are natural numbers from a counter.
- Settings plumbing: UserDefaults is a stored record, and the Combine sinks and the 0.35-second save debounce are explicit events. NotificationCenter is not modelled; its posts become the callers' events.
- Parts of the application outside the pipeline and its screens: the SwiftUI views other than the subtitle selection helper, HomeViewModel, the DependencyChecker probes, Configuration.swift and Item.swift.
- Formatting and locale: `localizedCaseInsensitiveContains` is the `matches` parameter. `String(describing:)` of an error is the abstract `describe`. The standardized file path is the abstract `key`. Progress messages passed to `onProgress` are not modelled.
- Strings: grapheme clustering, Unicode normalisation and locale-aware case mapping are not modelled. Case mapping is ASCII only. Whitespace is space and tab, and with newlines also `\n` and `\r`. Swift's `Int(_:)` accepts an optional sign and decimal digits; its 64-bit overflow is not modelled.
- Floating point: arithmetic is exact real arithmetic. Rounding artefacts of `Double` are not modelled. Division by zero is the one `Double` special case modelled: `Tempo.SpeedFactor` gives infinity or NaN for a zero-length slot. A time stamp's millisecond or centisecond part is the floor of the scaled time.
- SubtitleRoundTrip.SrtRoundTrip: stated only for non-negative times and one-line cue texts, i.e. non-empty, without a newline, and without a space or tab at either end. Other texts are trimmed or split by the reader, by design.
- SubtitleRoundTrip.VttRoundTrip: same restriction as the SRT round trip.
- SubtitleRoundTrip.AssRoundTrip: stated only for non-negative times and texts without `{`, `}` or `\` and without whitespace at either end, because the reader strips override tags and trims.
- SubtitleReader.ParseFile: there is no round trip at the level of the file dispatch; the round trips are stated per format.
- Assembly.ConcatListOnSchedule: stated only for timelines in which every gap is either zero or at least the 50 ms the service keeps. Shorter gaps are dropped by design, and the track then drifts by their length. It also assumes that every clip lasts exactly its slot, as `Assembly.AssembledOnSchedule` does.
- Assembly.CalculateGaps: requires a non-empty list. The loop `0..<(count - 1)` in `calculateGaps` traps on an empty one, and its only caller rejects that case first.
- Executor.Execute: only the report made as each step starts and the final report are modelled. The use case hands closures to transcription, speech synthesis and assembly (ProcessTaskUseCase.swift:97-104, 169-176 and 185-192), but the repository passes `{ _ in }` to the transcription and speech services (VideoProcessingRepository.swift:143-147 and 252-258), so those closures are never called. Only assembly forwards its reports (VideoProcessingRepository.swift:281-290), each through a separate unstructured `Task`, as the step's start fraction plus the service's progress times the step's weight. Those reports are left out, because their order of delivery is not fixed by the program. They can make the overall progress fall: assembly reports 0.0 on each of its failure paths (AudioAssemblyService.swift:81, 94, 105, 163, 182, 209, 213), and the unstructured tasks may deliver reports out of order. The model's claim that the reports climb covers the step-start reports only.
- Tempo.ChainFitsSlot: describes the ideal output of the filter chain. The encoder's real output duration is an oracle.
- Assembly.AssembledOnSchedule: the offsets take every clip to last exactly its segment's `endTime - startTime`, that is, to fill its slot after speed adjustment. The program does not ensure this: a clamped factor leaves the clip longer than its slot (`Tempo.ClampedClipMissesSlot`), a re-encode whose output cannot be measured is taken to fit (AudioSpeedAdjustmentService.swift:67), and with speed sync off the synthesised clip is used at its spoken length (TTSService.swift:96-100). Such a clip shifts every later entry of the concat list, which this lemma does not describe.
- Assembly.AssembledAsWritten: its offsets rest on the same assumption as `Assembly.AssembledOnSchedule`, that every adjusted clip fills its slot; a longer clip shifts every later entry.
- SubtitlesViewModel: `stop()` only requests cancellation. The run's own cancelled event is what changes the screen.
- Media duration helpers and the word count have no contracts of their own. They are used by the members that do.

## Findings

| source | as written | input that shows it | evidently intended | confidence | as-written member | corrected member |
|---|---|---|---|---|---|---|
| SubDubAI/Services/AudioAssemblyService.swift:154-158 | the concat list puts silence j just before clip j, so the first silence always plays before clip 0, whatever gap it was measured for | clips at 0–2 s and 2.5–4 s: the only gap (0.5 s) lies between the clips, but the list is silence, clip 0, clip 1, so clip 0 starts at 0.5 s instead of at 0 s | each silence sits in the gap it was measured for: a leading silence before clip 0, and the gap after clip i just after clip i | not executed | Assembly.WrittenListDelaysFirstClip | Assembly.AssembleAudioIntended |

Observations that are not defects:

- The queue starts what it pops without checking the status again. A pending task cancelled while waiting therefore still runs and ends completed (`TaskQueue.StaleExample*`). The model follows the code.
- On a fresh install the settings screen shows cleanup as off, while the default configuration it edits cleans up (`SettingsViewModel.FreshInstallCleanupDisagrees`).
- Sorting the queue by status compares the statuses' raw strings alphabetically.
- When processing fails, ProcessTaskUseCase's updated copy of the task is a dead store. Only the error reaches the caller.

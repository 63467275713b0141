/** The first-run setup wizard: welcome, a dependency check running in the
    background, and a summary of its results. The checker itself is left
    out; its progress messages and its results arrive as events. */
module SetupViewModel {

  datatype SetupStep = Welcome | Checking | Summary

  datatype DependencyKind = Ffmpeg | WhisperModel | Directories

  datatype DependencyStatus = DependencyStatus(kind: DependencyKind, isSatisfied: bool, message: string)

  datatype Setup = Setup(
    step: SetupStep,
    statuses: seq<DependencyStatus>,
    isChecking: bool,
    whisperProgressMessages: seq<string>)

  const Initial := Setup(Welcome, [], false, [])

  /** `allSatisfy { $0.isSatisfied }`. */
  function AllSatisfy(ss: seq<DependencyStatus>): (b: bool)
    ensures b <==> forall i :: 0 <= i < |ss| ==> ss[i].isSatisfied
    decreases |ss|
  {
    if |ss| == 0 then true
    else
      assert forall i :: 1 <= i < |ss| ==> ss[i] == ss[1..][i - 1];
      ss[0].isSatisfied && AllSatisfy(ss[1..])
  }

  /** `allDependenciesSatisfied`: there are results and every one is
      satisfied. */
  function AllDependenciesSatisfied(s: Setup): (b: bool)
    ensures b <==> |s.statuses| > 0 && forall i :: 0 <= i < |s.statuses| ==> s.statuses[i].isSatisfied
  {
    |s.statuses| > 0 && AllSatisfy(s.statuses)
  }

  /** `startChecks`: ignored while a check runs; otherwise the check step
      starts with no progress messages. */
  function StartChecks(s: Setup): (r: Setup)
    ensures r.isChecking && r.statuses == s.statuses
    ensures s.isChecking ==> r == s
    ensures !s.isChecking ==> r.step == Checking && r.whisperProgressMessages == []
    ensures Consistent(s) ==> Consistent(r)
  {
    if s.isChecking then s
    else s.(step := Checking, isChecking := true, whisperProgressMessages := [])
  }

  /** `retry`: the same as starting the checks. */
  function Retry(s: Setup): (r: Setup)
    ensures r == StartChecks(s)
    ensures r.isChecking
  {
    StartChecks(s)
  }

  /** A progress message from the model check is appended. */
  function ProgressMessage(s: Setup, m: string): (r: Setup)
    ensures r.whisperProgressMessages == s.whisperProgressMessages + [m]
    ensures r.(whisperProgressMessages := s.whisperProgressMessages) == s
  {
    s.(whisperProgressMessages := s.whisperProgressMessages + [m])
  }

  /** The check finished: its results are stored and the summary shows. */
  function ChecksFinished(s: Setup, results: seq<DependencyStatus>): (r: Setup)
    ensures r.statuses == results && !r.isChecking && r.step == Summary
    ensures r.whisperProgressMessages == s.whisperProgressMessages
  {
    s.(statuses := results, isChecking := false, step := Summary)
  }

  datatype Event = Start | Again | Progress(message: string) | Finished(results: seq<DependencyStatus>)

  function Step(s: Setup, e: Event): Setup {
    match e
    case Start => StartChecks(s)
    case Again => Retry(s)
    case Progress(m) => ProgressMessage(s, m)
    case Finished(results) => ChecksFinished(s, results)
  }

  /** A check is running exactly while the wizard shows the checking step. */
  predicate Consistent(s: Setup) {
    s.isChecking <==> s.step == Checking
  }

  /** Every event keeps the wizard consistent, starting from the welcome
      step. */
  lemma StepKeepsConsistent(s: Setup, e: Event)
    requires Consistent(s)
    ensures Consistent(Step(s, e))
  {
  }

  /** The events applied in order. */
  function Run(s: Setup, es: seq<Event>): (r: Setup)
    decreases |es|
  {
    if |es| == 0 then s else Run(Step(s, es[0]), es[1..])
  }

  /** Any run from the initial wizard is consistent. */
  lemma {:induction false} RunKeepsConsistent(s: Setup, es: seq<Event>)
    requires Consistent(s)
    ensures Consistent(Run(s, es))
    decreases |es|
  {
    if |es| > 0 {
      StepKeepsConsistent(s, es[0]);
      RunKeepsConsistent(Step(s, es[0]), es[1..]);
    }
  }

  /** Pressing start again while checking does nothing; the progress
      messages of the running check are kept. */
  lemma StartIsIdempotent(s: Setup)
    ensures StartChecks(StartChecks(s)) == StartChecks(s)
  {
  }

  /** The summary after a check reports success exactly when the results are
      non-empty and all satisfied. */
  lemma SummaryVerdict(s: Setup, results: seq<DependencyStatus>)
    ensures AllDependenciesSatisfied(ChecksFinished(s, results)) <==>
      |results| > 0 && forall i :: 0 <= i < |results| ==> results[i].isSatisfied
  {
  }
}

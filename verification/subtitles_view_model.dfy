/** The subtitle-translation screen: the per-file status list the view model
    keeps while a run is in flight, and the view's helper that merges newly
    picked files into the selection. The translation run itself is the
    `TranslateSubtitles` model; here its progress arrives as events. */
module SubtitlesViewModel {
  import opened Wrappers
  import opened Text
  import opened Paths
  import opened Seqs
  import TranslateSubtitles

  // ---------------------------------------------------------------------
  // Per-file statuses

  datatype FileState = FilePending | FileSucceeded | FileFailed

  predicate IsDone(s: FileState) {
    s == FileSucceeded || s == FileFailed
  }

  datatype FileStatus = FileStatus(index: nat, url: Url, state: FileState, message: string)

  /** The view model's published state. `runFileCount` is the file count the
      running task captured when it started. */
  datatype Screen = Screen(
    isTranslating: bool,
    statusMessage: Option<string>,
    lastRunSummary: Option<string>,
    fileStatuses: seq<FileStatus>,
    overallProgress: real,
    runFileCount: nat,
    targetLanguage: string)

  function Initial(targetLanguage: string): Screen {
    Screen(false, None, None, [], 0.0, 0, targetLanguage)
  }

  const NothingSelectedMessage := "Please select one or more .srt or .vtt files."
  const DoneMessage := "\U{2705} Done"
  const CancelledMessage := "\U{23F9}\U{FE0F} Translation cancelled."

  function InState(k: FileState): FileStatus -> bool {
    (f: FileStatus) => f.state == k
  }

  function Completed(f: FileStatus): bool {
    IsDone(f.state)
  }

  /** `pendingCount`, `doneCount`, `failedCount`. */
  function CountOf(s: Screen, k: FileState): (n: nat)
    ensures n <= |s.fileStatuses|
    ensures n == 0 <==> forall i :: 0 <= i < |s.fileStatuses| ==> s.fileStatuses[i].state != k
  {
    Count(s.fileStatuses, InState(k))
  }

  /** Pending, done and failed files account for the whole list. */
  lemma CountsAddUp(s: Screen)
    ensures CountOf(s, FilePending) + CountOf(s, FileSucceeded) + CountOf(s, FileFailed) == |s.fileStatuses|
  {
    var fs := s.fileStatuses;
    var p, q, r := InState(FilePending), InState(FileSucceeded), InState(FileFailed);
    forall i | 0 <= i < |fs|
      ensures ExactlyOne(p, q, r, fs[i])
    {
      assert p(fs[i]) <==> fs[i].state == FilePending;
      assert q(fs[i]) <==> fs[i].state == FileSucceeded;
      assert r(fs[i]) <==> fs[i].state == FileFailed;
    }
    FilterSplit3(fs, p, q, r);
    CountIsFilterLength(fs, InState(FilePending));
    CountIsFilterLength(fs, InState(FileSucceeded));
    CountIsFilterLength(fs, InState(FileFailed));
  }

  /** `activeCount`: one file is shown as active while a run is in flight
      and the list is not empty. */
  function ActiveCount(s: Screen): (n: nat)
    ensures n <= 1
    ensures n == 1 <==> s.isTranslating && |s.fileStatuses| > 0
  {
    if s.isTranslating && |s.fileStatuses| > 0 then 1 else 0
  }

  /** `translate(files:)`. With no files only the message changes; otherwise
      a run starts with one pending entry per file, numbered from 0. */
  function Translate(s: Screen, files: seq<Url>): (r: Screen)
    ensures |files| == 0 ==> r == s.(statusMessage := Some(NothingSelectedMessage))
    ensures |files| > 0 ==> r.isTranslating && r.overallProgress == 0.0 && r.lastRunSummary.None?
    ensures |files| > 0 ==> |r.fileStatuses| == |files| == r.runFileCount
    ensures |files| > 0 ==> forall i :: 0 <= i < |files| ==>
      r.fileStatuses[i] == FileStatus(i, files[i], FilePending, "Pending")
    ensures r.targetLanguage == s.targetLanguage
  {
    if |files| == 0 then s.(statusMessage := Some(NothingSelectedMessage))
    else
      s.(isTranslating := true,
         statusMessage := Some("Translating " + NatToString(|files|) + " file(s)..."),
         lastRunSummary := None,
         overallProgress := 0.0,
         fileStatuses := seq(|files|, i requires 0 <= i < |files| => FileStatus(i, files[i], FilePending, "Pending")),
         runFileCount := |files|)
  }

  /** The share of finished entries over the run's file count (0 for none). */
  function Progress(fs: seq<FileStatus>, fileCount: nat): real {
    if fileCount > 0 then (Count(fs, Completed) as real) / (fileCount as real) else 0.0
  }

  /** One file of the run finished. Only entry `index` changes, to succeeded
      or failed with the error text (or "Failed"); an index past the list is
      ignored. */
  function FileFinished(s: Screen, index: nat, success: bool, error: Option<string>): (r: Screen)
    ensures index >= |s.fileStatuses| ==> r == s
    ensures |r.fileStatuses| == |s.fileStatuses|
    ensures forall i :: 0 <= i < |s.fileStatuses| && i != index ==> r.fileStatuses[i] == s.fileStatuses[i]
    ensures index < |s.fileStatuses| ==>
      && r.fileStatuses[index].index == s.fileStatuses[index].index
      && r.fileStatuses[index].url == s.fileStatuses[index].url
      && (success ==> r.fileStatuses[index].state == FileSucceeded && r.fileStatuses[index].message == DoneMessage)
      && (!success ==> r.fileStatuses[index].state == FileFailed
                       && r.fileStatuses[index].message == (if error.Some? then error.value else "Failed"))
      && r.overallProgress == Progress(r.fileStatuses, s.runFileCount)
      && r.(fileStatuses := s.fileStatuses, overallProgress := s.overallProgress) == s
  {
    if index >= |s.fileStatuses| then s
    else
      var prev := s.fileStatuses[index];
      var updated := if success then prev.(state := FileSucceeded, message := DoneMessage)
                     else prev.(state := FileFailed, message := if error.Some? then error.value else "Failed");
      var fs := s.fileStatuses[index := updated];
      s.(fileStatuses := fs, overallProgress := Progress(fs, s.runFileCount))
  }

  /** The run returned normally. */
  function RunFinished(s: Screen): (r: Screen)
    ensures !r.isTranslating && r.fileStatuses == s.fileStatuses && r.overallProgress == s.overallProgress
    ensures r.lastRunSummary.Some?
  {
    s.(isTranslating := false,
       statusMessage := Some("\U{2705} Finished translating " + NatToString(s.runFileCount) + " file(s)."),
       lastRunSummary := Some("Translated subtitles were saved next to the originals with suffix _"
                              + TranslateSubtitles.SanitizedLanguage(s.targetLanguage) + "."))
  }

  /** The run was cancelled: the run stops and progress drops to 0; the
      entries keep their states. */
  function RunCancelled(s: Screen): (r: Screen)
    ensures !r.isTranslating && r.overallProgress == 0.0 && r.fileStatuses == s.fileStatuses
    ensures r.statusMessage == Some(CancelledMessage)
  {
    s.(isTranslating := false, statusMessage := Some(CancelledMessage), overallProgress := 0.0)
  }

  /** The run failed with an error described as `description`. */
  function RunFailed(s: Screen, description: string): (r: Screen)
    ensures !r.isTranslating && r.overallProgress == 0.0 && r.fileStatuses == s.fileStatuses
    ensures r.statusMessage.Some? && HasSuffix(r.statusMessage.value, description)
  {
    s.(isTranslating := false, statusMessage := Some("\U{274C} Translation failed: " + description),
       overallProgress := 0.0)
  }

  /** `clear()`: no entries, no progress, no messages. */
  function Clear(s: Screen): (r: Screen)
    ensures r.fileStatuses == [] && r.overallProgress == 0.0
    ensures r.statusMessage.None? && r.lastRunSummary.None?
    ensures r.isTranslating == s.isTranslating
  {
    s.(fileStatuses := [], overallProgress := 0.0, statusMessage := None, lastRunSummary := None)
  }

  datatype Event =
    | TranslateFiles(files: seq<Url>)
    | Finished(index: nat, success: bool, error: Option<string>)
    | Returned
    | WasCancelled
    | Threw(description: string)
    | Cleared

  function Step(s: Screen, e: Event): Screen {
    match e
    case TranslateFiles(files) => Translate(s, files)
    case Finished(i, ok, err) => FileFinished(s, i, ok, err)
    case Returned => RunFinished(s)
    case WasCancelled => RunCancelled(s)
    case Threw(d) => RunFailed(s, d)
    case Cleared => Clear(s)
  }

  /** The list is empty or belongs to the current run, every entry carries
      its own position, and progress is a fraction. */
  predicate Consistent(s: Screen) {
    && (|s.fileStatuses| == 0 || |s.fileStatuses| == s.runFileCount)
    && (forall i :: 0 <= i < |s.fileStatuses| ==> s.fileStatuses[i].index == i)
    && 0.0 <= s.overallProgress <= 1.0
  }

  /** Finished entries never outnumber the list. */
  lemma ProgressIsFraction(fs: seq<FileStatus>, fileCount: nat)
    requires |fs| == 0 || |fs| == fileCount
    ensures 0.0 <= Progress(fs, fileCount) <= 1.0
  {
    if fileCount > 0 {
      var c := Count(fs, Completed);
      assert c <= fileCount;
      FractionBounds(c as real, fileCount as real);
    }
  }

  lemma FractionBounds(a: real, n: real)
    requires 0.0 <= a <= n && n > 0.0
    ensures 0.0 <= a / n <= 1.0
  {
    if a < n {
      DivLess(a, n, n);
    }
    assert n / n == 1.0;
  }

  /** Every event keeps the screen consistent. */
  lemma StepKeepsConsistent(s: Screen, e: Event)
    requires Consistent(s)
    ensures Consistent(Step(s, e))
  {
    match e
    case Finished(i, ok, err) =>
      if i < |s.fileStatuses| {
        ProgressIsFraction(Step(s, e).fileStatuses, s.runFileCount);
      }
    case _ =>
  }

  /** Once every file of a run has reported, progress is 1. */
  lemma AllReportedMeansDone(s: Screen)
    requires |s.fileStatuses| == s.runFileCount > 0
    requires forall i :: 0 <= i < |s.fileStatuses| ==> IsDone(s.fileStatuses[i].state)
    ensures Progress(s.fileStatuses, s.runFileCount) == 1.0
  {
    var fs := s.fileStatuses;
    var n := s.runFileCount as real;
    forall i | 0 <= i < |fs| ensures Completed(fs[i]) {
      assert IsDone(fs[i].state);
    }
    assert Count(fs, Completed) == |fs|;
    assert n / n == 1.0;
  }

  // ---------------------------------------------------------------------
  // Merging a new pick into the selection

  const SupportedExtensions: set<string> := {"srt", "vtt", "ass"}

  predicate IsSupported(u: Url) {
    Lower(Extension(u.name)) in SupportedExtensions
  }

  /** `filterSupported`: the subtitle files, in the order given: each is
      kept as often as it occurs, at the positions `Positions` lists, and
      no other file is kept. */
  function FilterSupported(urls: seq<Url>): (r: seq<Url>)
    ensures forall i :: 0 <= i < |r| ==> IsSupported(r[i])
    ensures forall i :: 0 <= i < |urls| && IsSupported(urls[i]) ==> urls[i] in r
    ensures multiset(r) <= multiset(urls)
    ensures var idx := Positions(urls, IsSupported, 0);
      |r| == |idx| && forall k :: 0 <= k < |idx| ==> r[k] == urls[idx[k]]
    ensures forall u :: multiset(r)[u] == if IsSupported(u) then multiset(urls)[u] else 0
  {
    assert urls[0..] == urls;
    FilterAtPositions(urls, IsSupported, 0);
    FilterCounts(urls, IsSupported);
    FilterKeeps(urls, IsSupported);
    Filter(urls, IsSupported)
  }

  /** The keys of a list of files. */
  function Keys(s: seq<Url>, key: Url -> string): set<string> {
    set i | 0 <= i < |s| :: key(s[i])
  }

  /** No two files share a key. */
  predicate DistinctKeys(s: seq<Url>, key: Url -> string) {
    forall i, j :: 0 <= i < j < |s| ==> key(s[i]) != key(s[j])
  }

  /** The first file of `s` with key `k`, if any. */
  function FirstWithKey(s: seq<Url>, k: string, key: Url -> string): (r: Option<Url>)
    ensures r.None? <==> k !in Keys(s, key)
    ensures r.Some? ==> r.value in s && key(r.value) == k
  {
    if |s| == 0 then None
    else if key(s[0]) == k then Some(s[0])
    else
      var rest := FirstWithKey(s[1..], k, key);
      assert forall i :: 1 <= i < |s| ==> s[i] == s[1..][i - 1];
      assert Keys(s, key) == {key(s[0])} + Keys(s[1..], key) by {
        assert forall i :: 1 <= i < |s| ==> key(s[i]) == key(s[1..][i - 1]);
      }
      rest
  }

  /** The merge loop: each file whose key was not seen yet is kept, and its
      key becomes seen. */
  function Dedupe(s: seq<Url>, key: Url -> string, seen: set<string>): (r: seq<Url>)
    decreases |s|
  {
    if |s| == 0 then []
    else if key(s[0]) in seen then Dedupe(s[1..], key, seen)
    else [s[0]] + Dedupe(s[1..], key, seen + {key(s[0])})
  }

  lemma KeysCons(s: seq<Url>, key: Url -> string)
    requires |s| > 0
    ensures Keys(s, key) == {key(s[0])} + Keys(s[1..], key)
  {
    assert forall i :: 1 <= i < |s| ==> key(s[i]) == key(s[1..][i - 1]);
    forall k | k in Keys(s[1..], key) ensures k in Keys(s, key) {
      var i :| 0 <= i < |s[1..]| && key(s[1..][i]) == k;
      assert key(s[i + 1]) == k;
    }
  }

  /** The merge keeps one file per unseen key, the first one with that key,
      and nothing else. */
  lemma {:induction false} DedupeFacts(s: seq<Url>, key: Url -> string, seen: set<string>)
    ensures DistinctKeys(Dedupe(s, key, seen), key)
    ensures Keys(Dedupe(s, key, seen), key) == Keys(s, key) - seen
    ensures forall j :: 0 <= j < |Dedupe(s, key, seen)| ==>
      FirstWithKey(s, key(Dedupe(s, key, seen)[j]), key) == Some(Dedupe(s, key, seen)[j])
    decreases |s|
  {
    if |s| > 0 {
      KeysCons(s, key);
      var k0 := key(s[0]);
      if k0 in seen {
        DedupeFacts(s[1..], key, seen);
      } else {
        DedupeFacts(s[1..], key, seen + {k0});
        DedupeKeysKept(s, key, seen);
        DedupeFirstKept(s, key, seen);
      }
    }
  }

  /** The step of `DedupeFacts` where the first file's key is new: keys
      stay distinct and are those of `s` not seen before. */
  lemma {:induction false} DedupeKeysKept(s: seq<Url>, key: Url -> string, seen: set<string>)
    requires |s| > 0 && key(s[0]) !in seen
    requires Keys(s, key) == {key(s[0])} + Keys(s[1..], key)
    requires var rest := Dedupe(s[1..], key, seen + {key(s[0])});
      DistinctKeys(rest, key) && Keys(rest, key) == Keys(s[1..], key) - (seen + {key(s[0])})
    ensures DistinctKeys(Dedupe(s, key, seen), key)
    ensures Keys(Dedupe(s, key, seen), key) == Keys(s, key) - seen
  {
    var k0 := key(s[0]);
    var rest := Dedupe(s[1..], key, seen + {k0});
    var r := [s[0]] + rest;
    assert r == Dedupe(s, key, seen);
    assert forall j :: 1 <= j < |r| ==> r[j] == rest[j - 1];
    assert forall j :: 0 <= j < |rest| ==> key(rest[j]) in Keys(rest, key);
    KeysCons(r, key);
    assert r[1..] == rest;
  }

  /** The same step: every kept file is the first of its key in `s`. */
  lemma {:induction false} DedupeFirstKept(s: seq<Url>, key: Url -> string, seen: set<string>)
    requires |s| > 0 && key(s[0]) !in seen
    requires var rest := Dedupe(s[1..], key, seen + {key(s[0])});
      Keys(rest, key) == Keys(s[1..], key) - (seen + {key(s[0])})
      && forall j :: 0 <= j < |rest| ==> FirstWithKey(s[1..], key(rest[j]), key) == Some(rest[j])
    ensures forall j :: 0 <= j < |Dedupe(s, key, seen)| ==>
      FirstWithKey(s, key(Dedupe(s, key, seen)[j]), key) == Some(Dedupe(s, key, seen)[j])
  {
    var k0 := key(s[0]);
    var rest := Dedupe(s[1..], key, seen + {k0});
    var r := [s[0]] + rest;
    assert r == Dedupe(s, key, seen);
    forall j | 0 <= j < |r| ensures FirstWithKey(s, key(r[j]), key) == Some(r[j]) {
      if j > 0 {
        assert r[j] == rest[j - 1];
        assert key(rest[j - 1]) in Keys(rest, key);
      }
    }
  }

  /** A selection without repeated keys survives as the front of the
      merge. */
  lemma {:induction false} DedupeKeepsPrefix(a: seq<Url>, b: seq<Url>, key: Url -> string, seen: set<string>)
    requires DistinctKeys(a, key) && Keys(a, key) !! seen
    ensures Dedupe(a + b, key, seen) == a + Dedupe(b, key, seen + Keys(a, key))
    decreases |a|
  {
    if |a| == 0 {
      assert a + b == b;
      assert Keys(a, key) == {};
      assert seen + {} == seen;
    } else {
      KeysCons(a, key);
      var k0 := key(a[0]);
      assert (a + b)[0] == a[0];
      assert (a + b)[1..] == a[1..] + b;
      assert DistinctKeys(a[1..], key) by {
        forall i, j | 0 <= i < j < |a[1..]| ensures key(a[1..][i]) != key(a[1..][j]) {
          assert a[1..][i] == a[i + 1] && a[1..][j] == a[j + 1];
        }
      }
      assert k0 !in Keys(a[1..], key) by {
        forall i | 0 <= i < |a[1..]| ensures key(a[1..][i]) != k0 {
          assert a[1..][i] == a[i + 1];
        }
      }
      DedupeKeepsPrefix(a[1..], b, key, seen + {k0});
      assert seen + {k0} + Keys(a[1..], key) == seen + Keys(a, key);
    }
  }

  /** What the picker leaves behind: the merged selection and the
      view model's state. */
  datatype Picked = Picked(selection: seq<Url>, screen: Screen)

  const NoneSupportedMessage := "No supported subtitle files (.srt, .vtt, .ass) were selected."
  const SomeIgnoredMessage := "Some files were ignored because only .srt, .vtt and .ass are supported."

  function SelectedMessage(n: nat): string {
    "Selected " + NatToString(n) + " file(s)."
  }

  /** The merged selection: the old selection followed by the supported new
      files, keeping the first file for each key (the standardized path). */
  function Merge(selection: seq<Url>, urls: seq<Url>, key: Url -> string): (r: seq<Url>)
    ensures DistinctKeys(r, key)
    ensures Keys(r, key) == Keys(selection, key) + Keys(FilterSupported(urls), key)
    ensures forall j :: 0 <= j < |r| ==> FirstWithKey(selection + FilterSupported(urls), key(r[j]), key) == Some(r[j])
    ensures DistinctKeys(selection, key) ==> |selection| <= |r| && r[..|selection|] == selection
  {
    var picked := FilterSupported(urls);
    DedupeFacts(selection + picked, key, {});
    KeysAppend(selection, picked, key);
    MergeKeepsSelection(selection, picked, key);
    Dedupe(selection + picked, key, {})
  }

  predicate NoneSupported(urls: seq<Url>) {
    forall i :: 0 <= i < |urls| ==> !IsSupported(urls[i])
  }

  predicate AllSupported(urls: seq<Url>) {
    forall i :: 0 <= i < |urls| ==> IsSupported(urls[i])
  }

  /** Which status line a pick produces. */
  datatype PickNote = NoneSupportedNote | SomeIgnoredNote | SelectedNote(count: nat)

  function NoteText(n: PickNote): string {
    match n
    case NoneSupportedNote => NoneSupportedMessage
    case SomeIgnoredNote => SomeIgnoredMessage
    case SelectedNote(count) => SelectedMessage(count)
  }

  /** The status line after a pick: nothing usable, some files dropped, or
      the size of the merged selection. */
  function PickNoteFor(urls: seq<Url>, mergedCount: nat): (m: PickNote)
    ensures m == NoneSupportedNote <==> NoneSupported(urls)
    ensures m == SomeIgnoredNote <==> !NoneSupported(urls) && !AllSupported(urls)
    ensures m.SelectedNote? <==> AllSupported(urls) && |urls| > 0
    ensures m.SelectedNote? ==> m.count == mergedCount
  {
    SupportedCount(urls);
    if |FilterSupported(urls)| == 0 then NoneSupportedNote
    else if |FilterSupported(urls)| < |urls| then SomeIgnoredNote
    else SelectedNote(mergedCount)
  }

  /** `applySelectedUrls`: the selection becomes the merge, the status list
      and progress are reset, and the message says what happened. */
  function ApplySelectedUrls(selection: seq<Url>, s: Screen, urls: seq<Url>, key: Url -> string): (r: Picked)
    ensures r.selection == Merge(selection, urls, key)
    ensures r.screen == s.(fileStatuses := [], overallProgress := 0.0,
                           statusMessage := Some(NoteText(PickNoteFor(urls, |r.selection|))))
  {
    var merged := Merge(selection, urls, key);
    Picked(merged, s.(fileStatuses := [], overallProgress := 0.0, statusMessage := Some(NoteText(PickNoteFor(urls, |merged|)))))
  }

  /** The merge starts with a duplicate-free selection unchanged. */
  lemma MergeKeepsSelection(selection: seq<Url>, picked: seq<Url>, key: Url -> string)
    ensures DistinctKeys(selection, key) ==>
      Dedupe(selection + picked, key, {}) == selection + Dedupe(picked, key, Keys(selection, key))
  {
    if DistinctKeys(selection, key) {
      DedupeKeepsPrefix(selection, picked, key, {});
      assert {} + Keys(selection, key) == Keys(selection, key);
    }
  }

  lemma KeysAppend(a: seq<Url>, b: seq<Url>, key: Url -> string)
    ensures Keys(a + b, key) == Keys(a, key) + Keys(b, key)
  {
    var ab := a + b;
    forall k | k in Keys(b, key) ensures k in Keys(ab, key) {
      var i :| 0 <= i < |b| && key(b[i]) == k;
      assert ab[|a| + i] == b[i];
    }
    forall k | k in Keys(a, key) ensures k in Keys(ab, key) {
      var i :| 0 <= i < |a| && key(a[i]) == k;
      assert ab[i] == a[i];
    }
  }

  /** How many of the picked files are supported decides the message. */
  lemma SupportedCount(urls: seq<Url>)
    ensures |FilterSupported(urls)| == 0 <==> NoneSupported(urls)
    ensures |FilterSupported(urls)| == |urls| <==> AllSupported(urls)
    ensures |FilterSupported(urls)| <= |urls|
  {
    FilterEmptyIff(urls, IsSupported);
    CountIsFilterLength(urls, IsSupported);
  }

  /** Picking the same files twice leaves the selection unchanged. */
  lemma PickingTwiceChangesNothing(selection: seq<Url>, urls: seq<Url>, key: Url -> string)
    ensures var once := Merge(selection, urls, key);
            Merge(once, urls, key) == once
  {
    var once := Merge(selection, urls, key);
    var picked := FilterSupported(urls);
    MergeKeepsSelection(once, picked, key);
    DedupeAllSeen(picked, key, Keys(once, key));
    assert once + [] == once;
  }

  /** Files whose keys are all seen are all dropped. */
  lemma {:induction false} DedupeAllSeen(s: seq<Url>, key: Url -> string, seen: set<string>)
    requires Keys(s, key) <= seen
    ensures Dedupe(s, key, seen) == []
    decreases |s|
  {
    if |s| > 0 {
      KeysCons(s, key);
      DedupeAllSeen(s[1..], key, seen);
    }
  }
}

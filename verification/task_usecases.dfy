/** The task-list use cases: cancelling one task, removing one from a list,
    creating tasks for video files, and collecting the video files of a
    folder. The file system's answers are parameters. */
module TaskUseCases {
  import opened Wrappers
  import opened Text
  import opened Paths
  import opened Seqs
  import opened Sorting
  import opened Domain

  /** `CancelTaskUseCase.execute`: whatever the status was, the task becomes
      cancelled and finished now; nothing else changes. */
  function CancelTask(t: ProcessingTask, now: real): (r: ProcessingTask)
    ensures r.status == Cancelled && r.completedAt == Some(now)
    ensures r.(status := t.status, completedAt := t.completedAt) == t
    ensures TaskIsCompleted(r) && !CanCancel(r)
  {
    t.(status := Cancelled, completedAt := Some(now))
  }

  /** Cancelling again only moves the completion time. */
  lemma CancelTwice(t: ProcessingTask, a: real, b: real)
    ensures CancelTask(CancelTask(t, a), b) == CancelTask(t, b)
  {
  }

  /** The filter that keeps every task but `id`. */
  function Others(id: nat): ProcessingTask -> bool {
    (t: ProcessingTask) => t.id != id
  }

  /** `RemoveTaskUseCase.execute`. */
  function RemoveTask(id: nat, tasks: seq<ProcessingTask>): (r: seq<ProcessingTask>)
    ensures forall i :: 0 <= i < |r| ==> r[i].id != id
    ensures multiset(r) <= multiset(tasks)
  {
    Filter(tasks, Others(id))
  }

  /** Removal keeps every other task, in order, leaves a list without the id
      alone, and is idempotent. */
  lemma RemoveTaskKeepsOthers(id: nat, tasks: seq<ProcessingTask>)
    ensures forall i :: 0 <= i < |tasks| && tasks[i].id != id ==> tasks[i] in RemoveTask(id, tasks)
    ensures (forall i :: 0 <= i < |tasks| ==> tasks[i].id != id) ==> RemoveTask(id, tasks) == tasks
    ensures RemoveTask(id, RemoveTask(id, tasks)) == RemoveTask(id, tasks)
    ensures forall a, b :: tasks == a + b ==> RemoveTask(id, tasks) == RemoveTask(id, a) + RemoveTask(id, b)
  {
    var keep := Others(id);
    FilterKeeps(tasks, keep);
    FilterAllOrNone(tasks, keep);
    FilterAllOrNone(RemoveTask(id, tasks), keep);
    forall a, b | tasks == a + b
      ensures RemoveTask(id, tasks) == RemoveTask(id, a) + RemoveTask(id, b)
    {
      FilterAppend(a, b, keep);
    }
  }

  /** `AddTasksUseCase.execute`: one new task per URL with the given
      configuration; `sizes` holds the files whose size could be read. */
  function AddTasks(urls: seq<Url>, config: ProcessingConfiguration, firstId: nat, now: real,
                    sizes: map<Url, int>): (ts: seq<ProcessingTask>)
    ensures |ts| == |urls|
    ensures forall i :: 0 <= i < |urls| ==>
      ts[i].videoURL == urls[i] && ts[i].config == config && ts[i].id == firstId + i
      && ts[i].status == Pending && ts[i].currentStep == Idle && ts[i].progress == 0.0
      && ts[i].fileSize == (if urls[i] in sizes then Some(sizes[urls[i]]) else None)
      && ts[i] == NewTask(firstId + i, urls[i], config, now).(fileSize := ts[i].fileSize)
  {
    var base := TasksFrom(urls, config, firstId, now);
    seq(|urls|, i requires 0 <= i < |urls| =>
      base[i].(fileSize := if urls[i] in sizes then Some(sizes[urls[i]]) else None))
  }

  /** Fresh ids: the new tasks' ids are distinct and above every id in use. */
  lemma AddTasksFreshIds(urls: seq<Url>, config: ProcessingConfiguration, firstId: nat, now: real,
                         sizes: map<Url, int>, existing: seq<ProcessingTask>)
    requires forall k :: 0 <= k < |existing| ==> existing[k].id < firstId
    ensures var ts := AddTasks(urls, config, firstId, now, sizes);
      (forall i, j :: 0 <= i < j < |ts| ==> ts[i].id != ts[j].id)
      && (forall i, k :: 0 <= i < |ts| && 0 <= k < |existing| ==> ts[i].id != existing[k].id)
  {
  }

  /** One entry of the folder enumeration: the file and whether it is a
      regular file (`None` when the attribute could not be read). */
  datatype DirEntry = DirEntry(url: Url, isRegularFile: Option<bool>)

  const VideoExtensions: seq<string> := ["mp4", "mov", "avi", "mkv", "m4v", "flv", "wmv"]

  predicate IsVideoFile(e: DirEntry) {
    e.isRegularFile == Some(true) && Lower(Extension(e.url.name)) in VideoExtensions
  }

  function ByName(a: Url, b: Url): bool {
    StringLess(a.name, b.name)
  }

  lemma ByNameIsStrictOrder()
    ensures StrictOrder(ByName)
  {
    StringLessIsStrictOrder();
    forall a: Url, b: Url | ByName(a, b) ensures !ByName(b, a) {
      StringLessAsymmetric(a.name, b.name);
    }
    forall a: Url, b: Url, c: Url | ByName(a, b) && ByName(b, c) ensures ByName(a, c) {
      StringLessTransitive(a.name, b.name, c.name);
    }
  }

  function EntryUrls(es: seq<DirEntry>): (r: seq<Url>)
    ensures |r| == |es| && forall i :: 0 <= i < |es| ==> r[i] == es[i].url
  {
    seq(|es|, i requires 0 <= i < |es| => es[i].url)
  }

  /** `findVideoFiles`: the regular files with a video extension (compared
      in lower case), sorted by file name; nothing when the folder cannot be
      enumerated. */
  function FindVideoFiles(listing: Option<seq<DirEntry>>): (r: seq<Url>)
    ensures listing.None? ==> r == []
    ensures listing.Some? ==>
      multiset(r) == multiset(EntryUrls(Filter(listing.value, IsVideoFile)))
      && Sorted(r, ByName)
  {
    match listing
    case None => []
    case Some(es) =>
      var r := SortBy(EntryUrls(Filter(es, IsVideoFile)), ByName);
      ByNameIsStrictOrder();
      SortBySorted(EntryUrls(Filter(es, IsVideoFile)), ByName);
      r
  }

  /** A file is picked up exactly when it is a regular file with a video
      extension. */
  lemma FindVideoFilesSelects(es: seq<DirEntry>, u: Url)
    ensures u in FindVideoFiles(Some(es)) <==>
      exists i :: 0 <= i < |es| && es[i].url == u && IsVideoFile(es[i])
  {
    var kept := Filter(es, IsVideoFile);
    var urls := EntryUrls(kept);
    var r := FindVideoFiles(Some(es));
    assert multiset(r) == multiset(urls);
    FilterKeeps(es, IsVideoFile);
    if u in r {
      assert u in multiset(urls);
      var k :| 0 <= k < |urls| && urls[k] == u;
      assert kept[k] in multiset(es);
      var i :| 0 <= i < |es| && es[i] == kept[k];
      assert es[i].url == u && IsVideoFile(es[i]);
    }
    if exists i :: 0 <= i < |es| && es[i].url == u && IsVideoFile(es[i]) {
      var i :| 0 <= i < |es| && es[i].url == u && IsVideoFile(es[i]);
      assert es[i] in kept;
      var k :| 0 <= k < |kept| && kept[k] == es[i];
      assert urls[k] == u;
      assert u in multiset(r);
    }
  }

  /** `AddTasksFromFolderUseCase.execute`. */
  function AddTasksFromFolder(listing: Option<seq<DirEntry>>, config: ProcessingConfiguration,
                              firstId: nat, now: real, sizes: map<Url, int>): (ts: seq<ProcessingTask>)
    ensures listing.None? ==> ts == []
    ensures |ts| == |FindVideoFiles(listing)|
    ensures forall i :: 0 <= i < |ts| ==> ts[i].videoURL == FindVideoFiles(listing)[i]
    ensures forall i, j :: 0 <= i < j < |ts| ==> !StringLess(ts[j].videoURL.name, ts[i].videoURL.name)
  {
    AddTasks(FindVideoFiles(listing), config, firstId, now, sizes)
  }
}

/** The task queue: the list of tasks the user sees, the FIFO of snapshots
    waiting to run, the set of ids that hold a running handle, and the runs
    in flight (each run works on the snapshot it was started with). Every
    mutation happens on the main actor, so the queue is a sequential state
    machine; each event below is one uninterrupted mutation. */
module TaskQueue {
  import opened Wrappers
  import opened Paths
  import opened Seqs
  import opened Domain
  import opened TaskUseCases

  datatype Queue = Queue(
    tasks: seq<ProcessingTask>,
    isProcessing: bool,
    handles: set<nat>,
    maxConcurrent: int,
    fifo: seq<ProcessingTask>,
    runs: seq<ProcessingTask>,
    nextId: nat)

  /** A fresh queue: no tasks, not processing, three concurrent tasks. */
  const Initial := Queue([], false, {}, 3, [], [], 0)

  // ---------------------------------------------------------------------
  // Looking tasks up by id

  /** Position `i` holds the first task carrying its id. */
  predicate IsFirst(tasks: seq<ProcessingTask>, i: nat)
    requires i < |tasks|
  {
    forall j :: 0 <= j < i ==> tasks[j].id != tasks[i].id
  }

  /** `firstIndex(where: { $0.id == id })`. */
  function FindIndex(tasks: seq<ProcessingTask>, id: nat): (r: Option<nat>)
    ensures r.None? <==> forall i :: 0 <= i < |tasks| ==> tasks[i].id != id
    ensures r.Some? ==> r.value < |tasks| && tasks[r.value].id == id && IsFirst(tasks, r.value)
    decreases |tasks|
  {
    if |tasks| == 0 then None
    else if tasks[0].id == id then Some(0)
    else
      match FindIndex(tasks[1..], id)
      case None =>
        assert forall i :: 1 <= i < |tasks| ==> tasks[i] == tasks[1..][i - 1];
        None
      case Some(k) =>
        assert forall j :: 1 <= j < k + 1 ==> tasks[j] == tasks[1..][j - 1];
        Some(k + 1)
  }

  /** `task(id:)`. */
  function FindTask(tasks: seq<ProcessingTask>, id: nat): (r: Option<ProcessingTask>)
    ensures r.None? <==> forall i :: 0 <= i < |tasks| ==> tasks[i].id != id
    ensures r.Some? ==> r.value.id == id && r.value in tasks
  {
    match FindIndex(tasks, id)
    case None => None
    case Some(k) => Some(tasks[k])
  }

  /** Two lists with the same id at every position agree on where each id
      first occurs. */
  lemma FindIndexSameIds(a: seq<ProcessingTask>, b: seq<ProcessingTask>, id: nat)
    requires |a| == |b| && forall i :: 0 <= i < |a| ==> a[i].id == b[i].id
    ensures FindIndex(a, id) == FindIndex(b, id)
  {
    var x, y := FindIndex(a, id), FindIndex(b, id);
    if x.Some? && y.Some? {
      assert b[x.value].id == id && a[y.value].id == id;
    }
  }

  /** Only one position can be the first with a given id. */
  lemma FirstIsUnique(tasks: seq<ProcessingTask>, i: nat, k: nat)
    requires i < |tasks| && k < |tasks| && tasks[i].id == tasks[k].id
    requires IsFirst(tasks, i) && IsFirst(tasks, k)
    ensures i == k
  {
  }

  // ---------------------------------------------------------------------
  // Updating tasks

  /** `updateTask`: the first entry with the task's id is replaced; with no
      such entry nothing changes. */
  function UpdateIn(tasks: seq<ProcessingTask>, t: ProcessingTask): (r: seq<ProcessingTask>)
    ensures |r| == |tasks|
    ensures forall i :: 0 <= i < |tasks| ==> r[i].id == tasks[i].id
    ensures forall i :: 0 <= i < |tasks| ==>
      r[i] == (if tasks[i].id == t.id && IsFirst(tasks, i) then t else tasks[i])
  {
    match FindIndex(tasks, t.id)
    case None => tasks
    case Some(k) =>
      var r := tasks[k := t];
      forall i | k < i < |tasks| && tasks[i].id == t.id
        ensures !IsFirst(tasks, i)
      {
        assert tasks[k].id == tasks[i].id;
      }
      r
  }

  /** Looking a task up after an update finds the new version under its id
      (if the id was present) and leaves every other id's answer alone. */
  lemma UpdateThenFind(tasks: seq<ProcessingTask>, t: ProcessingTask, id: nat)
    ensures FindTask(UpdateIn(tasks, t), id) ==
      if id == t.id && FindTask(tasks, id).Some? then Some(t) else FindTask(tasks, id)
  {
    var r := UpdateIn(tasks, t);
    FindIndexSameIds(r, tasks, id);
  }

  /** `cancelTask`'s effect on the list: the first task with the id goes
      through the cancel use case; nothing else changes. */
  function CancelIn(tasks: seq<ProcessingTask>, id: nat, now: real): (r: seq<ProcessingTask>)
    ensures |r| == |tasks|
    ensures forall i :: 0 <= i < |tasks| ==> r[i].id == tasks[i].id
    ensures forall i :: 0 <= i < |tasks| ==>
      r[i] == (if tasks[i].id == id && IsFirst(tasks, i) then CancelTask(tasks[i], now) else tasks[i])
  {
    match FindIndex(tasks, id)
    case None => tasks
    case Some(k) =>
      var r := UpdateIn(tasks, CancelTask(tasks[k], now));
      forall i | 0 <= i < |tasks| && tasks[i].id == id && IsFirst(tasks, i)
        ensures r[i] == CancelTask(tasks[i], now)
      {
        FirstIsUnique(tasks, i, k);
      }
      r
  }

  /** Cancelling every id of `keys` in turn: each id's first task is
      cancelled, whatever the order and however often an id repeats. */
  function CancelEach(tasks: seq<ProcessingTask>, keys: seq<nat>, now: real): (r: seq<ProcessingTask>)
    ensures |r| == |tasks|
    ensures forall i :: 0 <= i < |tasks| ==> r[i].id == tasks[i].id
    ensures forall i :: 0 <= i < |tasks| ==>
      r[i] == (if tasks[i].id in keys && IsFirst(tasks, i) then CancelTask(tasks[i], now) else tasks[i])
    decreases |keys|
  {
    if |keys| == 0 then tasks
    else
      var once := CancelIn(tasks, keys[0], now);
      var r := CancelEach(once, keys[1..], now);
      forall i | 0 <= i < |tasks|
        ensures r[i] == (if tasks[i].id in keys && IsFirst(tasks, i) then CancelTask(tasks[i], now) else tasks[i])
      {
        assert IsFirst(once, i) <==> IsFirst(tasks, i);
        assert tasks[i].id in keys <==> tasks[i].id == keys[0] || tasks[i].id in keys[1..];
        CancelTwice(tasks[i], now, now);
      }
      r
  }

  // ---------------------------------------------------------------------
  // Ids of a run of snapshots

  /** The ids of a sequence of tasks. */
  function Ids(s: seq<ProcessingTask>): (r: set<nat>)
    ensures |r| <= |s|
    ensures forall i :: 0 <= i < |s| ==> s[i].id in r
    decreases |s|
  {
    if |s| == 0 then {}
    else
      var rest := Ids(s[1..]);
      assert forall i :: 1 <= i < |s| ==> s[i] == s[1..][i - 1];
      {s[0].id} + rest
  }

  /** Every id of `Ids(s)` is the id of some task of `s`. */
  lemma {:induction false} IdsOnly(s: seq<ProcessingTask>)
    ensures forall x :: x in Ids(s) ==> exists i :: 0 <= i < |s| && s[i].id == x
    decreases |s|
  {
    if |s| > 0 {
      IdsOnly(s[1..]);
      assert forall i :: 1 <= i < |s| ==> s[i] == s[1..][i - 1];
    }
  }

  // ---------------------------------------------------------------------
  // Processing

  /** How many snapshots `startNextBatch` takes: the free slots, but no
      more than are waiting. */
  function BatchSize(q: Queue): (n: nat)
    ensures n <= |q.fifo|
    ensures n > 0 ==> |q.handles| + n <= q.maxConcurrent
    ensures n == |q.fifo| || |q.handles| + n >= q.maxConcurrent
  {
    var canStart := q.maxConcurrent - |q.handles|;
    if canStart <= 0 then 0
    else if canStart < |q.fifo| then canStart
    else |q.fifo|
  }

  /** The first `n` snapshots of the FIFO start running. */
  function Launch(q: Queue, n: nat): Queue
    requires n <= |q.fifo|
  {
    q.(handles := q.handles + Ids(q.fifo[..n]), fifo := q.fifo[n..], runs := q.runs + q.fifo[..n])
  }

  /** `startNextBatch`: as many snapshots as there are free slots are taken
      from the front of the FIFO, in order, and started; their status is not
      looked at again. */
  function StartNextBatch(q: Queue): (r: Queue)
    ensures r == Launch(q, BatchSize(q))
    ensures r.(handles := q.handles, fifo := q.fifo, runs := q.runs) == q
    ensures var n := BatchSize(q);
      r.runs == q.runs + q.fifo[..n] && r.fifo == q.fifo[n..]
      && r.handles == q.handles + Ids(q.fifo[..n])
    ensures |q.handles| <= q.maxConcurrent ==> |r.handles| <= q.maxConcurrent
  {
    var n := BatchSize(q);
    var started := q.fifo[..n];
    assert |q.handles + Ids(started)| <= |q.handles| + |Ids(started)|;
    Launch(q, n)
  }

  function IsPendingTask(t: ProcessingTask): bool { t.status == Pending }

  /** `startProcessing(maxConcurrent:)`: the pending tasks, in list order,
      replace the FIFO, and the first batch starts. */
  function Start(q: Queue, max: int): (r: Queue)
    ensures r.isProcessing && r.maxConcurrent == max
    ensures r.tasks == q.tasks && r.nextId == q.nextId
    ensures |q.runs| <= |r.runs| && r.runs[..|q.runs|] == q.runs
    ensures r.runs[|q.runs|..] + r.fifo == Filter(q.tasks, IsPendingTask)
    ensures forall i :: |q.runs| <= i < |r.runs| ==> r.runs[i].status == Pending
    ensures |q.handles| <= max ==> |r.handles| <= max
  {
    var pending := Filter(q.tasks, IsPendingTask);
    var q1 := q.(isProcessing := true, maxConcurrent := max, fifo := pending);
    BatchComesFromFifo(q1);
    StartNextBatch(q1)
  }

  /** Starting a batch moves a prefix of the FIFO, in order, to the end of
      the runs. */
  lemma BatchComesFromFifo(q: Queue)
    ensures var r := StartNextBatch(q);
      |q.runs| <= |r.runs| && r.runs[..|q.runs|] == q.runs && r.runs[|q.runs|..] + r.fifo == q.fifo
      && forall i :: |q.runs| <= i < |r.runs| ==> r.runs[i] == q.fifo[i - |q.runs|]
  {
    var r, n := StartNextBatch(q), BatchSize(q);
    assert r.runs[|q.runs|..] == q.fifo[..n];
    assert q.fifo[..n] + q.fifo[n..] == q.fifo;
  }

  /** How a run ended, as `processIndividualTask` sees it. */
  datatype RunOutcome = Succeeded | WasCancelled | FailedWith(message: string)

  /** The task written back when a run ends: built from the snapshot the
      run started with, never from what the executor returned. */
  function Outcome(run: ProcessingTask, o: RunOutcome, now: real): (t: ProcessingTask)
    ensures t.id == run.id && t.completedAt == Some(now) && TaskIsCompleted(t)
    ensures o.Succeeded? ==> t.status == Completed && t.progress == 1.0 && t.error == run.error
    ensures o.WasCancelled? ==> t.status == Cancelled && t.progress == run.progress && t.error == run.error
    ensures o.FailedWith? ==> t.status == Failed && t.progress == run.progress && t.error == Some(o.message)
    ensures t.(status := run.status, progress := run.progress, error := run.error,
               completedAt := run.completedAt) == run
  {
    match o
    case Succeeded => run.(status := Completed, progress := 1.0, completedAt := Some(now))
    case WasCancelled => run.(status := Cancelled, completedAt := Some(now))
    case FailedWith(msg) => run.(status := Failed, error := Some(msg), completedAt := Some(now))
  }

  /** A run ends: the outcome is written back, the handle is dropped, the
      next batch starts, and processing stops once nothing runs or waits. */
  function Finish(q: Queue, k: nat, o: RunOutcome, now: real): (r: Queue)
    requires k < |q.runs|
    ensures var done := Outcome(q.runs[k], o, now);
      |r.tasks| == |q.tasks|
      && forall i :: 0 <= i < |q.tasks| ==>
        r.tasks[i] == (if q.tasks[i].id == done.id && IsFirst(q.tasks, i) then done else q.tasks[i])
    ensures r.maxConcurrent == q.maxConcurrent && r.nextId == q.nextId
    ensures r.isProcessing == (q.isProcessing && !(r.handles == {} && r.fifo == []))
    ensures |q.runs| <= |r.runs| + 1
    ensures var n := |r.runs| + 1 - |q.runs|;
      n <= |q.fifo|
      && r.runs == q.runs[..k] + q.runs[k + 1..] + q.fifo[..n] && r.fifo == q.fifo[n..]
      && r.handles == q.handles - {q.runs[k].id} + Ids(q.fifo[..n])
    ensures |q.handles| <= q.maxConcurrent ==> |r.handles| <= q.maxConcurrent
  {
    var freed := Release(q, k, o, now);
    var next := StartNextBatch(freed);
    assert |next.runs| + 1 - |q.runs| == BatchSize(freed);
    if next.handles == {} && next.fifo == [] then next.(isProcessing := false) else next
  }

  /** The first half of a run's end: the outcome is written back, the handle
      is dropped and the run leaves the runs in flight. */
  function Release(q: Queue, k: nat, o: RunOutcome, now: real): (f: Queue)
    requires k < |q.runs|
    ensures f.tasks == UpdateIn(q.tasks, Outcome(q.runs[k], o, now))
    ensures f.handles == q.handles - {q.runs[k].id} && |f.handles| <= |q.handles|
    ensures f.runs == q.runs[..k] + q.runs[k + 1..] && |f.runs| + 1 == |q.runs|
    ensures f.(tasks := q.tasks, handles := q.handles, runs := q.runs) == q
  {
    var run := q.runs[k];
    RemoveShrinks(q.handles, run.id);
    q.(tasks := UpdateIn(q.tasks, Outcome(run, o, now)),
       handles := q.handles - {run.id},
       runs := q.runs[..k] + q.runs[k + 1..])
  }

  /** Dropping an element never grows a set. */
  lemma RemoveShrinks(s: set<nat>, x: nat)
    ensures |s - {x}| <= |s|
  {
    if x in s {
      assert s == (s - {x}) + {x};
    } else {
      assert s - {x} == s;
    }
  }

  /** A progress report of a run: the snapshot, marked processing with the
      reported overall progress, replaces the task of that id. */
  function Report(q: Queue, k: nat, p: ProcessingProgress): (r: Queue)
    requires k < |q.runs|
    ensures r.(tasks := q.tasks) == q && |r.tasks| == |q.tasks|
    ensures forall i :: 0 <= i < |q.tasks| ==>
      if q.tasks[i].id == q.runs[k].id && IsFirst(q.tasks, i)
      then r.tasks[i] == q.runs[k].(status := Processing, progress := p.overallProgress)
      else r.tasks[i] == q.tasks[i]
  {
    q.(tasks := UpdateIn(q.tasks, q.runs[k].(status := Processing, progress := p.overallProgress)))
  }

  /** `cancelTask(id:)`: the handle goes at once, freeing its slot, and the
      task of that id is cancelled. The run itself is only asked to stop. */
  function Cancel(q: Queue, id: nat, now: real): (r: Queue)
    ensures r.(tasks := q.tasks, handles := q.handles) == q
    ensures r.handles == q.handles - {id} && |r.handles| <= |q.handles|
    ensures |r.tasks| == |q.tasks|
    ensures forall i :: 0 <= i < |q.tasks| ==>
      r.tasks[i] == (if q.tasks[i].id == id && IsFirst(q.tasks, i) then CancelTask(q.tasks[i], now) else q.tasks[i])
  {
    q.(handles := q.handles - {id}, tasks := CancelIn(q.tasks, id, now))
  }

  /** `keys` lists exactly the ids holding a handle, in the dictionary's
      order. */
  predicate Enumerates(keys: seq<nat>, handles: set<nat>) {
    (forall x :: x in keys ==> x in handles) && (forall x :: x in handles ==> x in keys)
  }

  /** `stopProcessing`: every task holding a handle is cancelled, the FIFO is
      emptied and processing stops. Tasks without a handle, pending ones in
      particular, are left as they are. */
  function Stop(q: Queue, keys: seq<nat>, now: real): (r: Queue)
    requires Enumerates(keys, q.handles)
    ensures r.handles == {} && r.fifo == [] && !r.isProcessing
    ensures r.runs == q.runs && r.maxConcurrent == q.maxConcurrent && r.nextId == q.nextId
    ensures |r.tasks| == |q.tasks|
    ensures forall i :: 0 <= i < |q.tasks| ==>
      r.tasks[i] == (if q.tasks[i].id in q.handles && IsFirst(q.tasks, i)
                     then CancelTask(q.tasks[i], now) else q.tasks[i])
    ensures forall i :: 0 <= i < |q.tasks| && q.tasks[i].id !in q.handles ==> r.tasks[i] == q.tasks[i]
  {
    var cancelled := CancelEach(q.tasks, keys, now);
    q.(tasks := cancelled, handles := {}, fifo := [], isProcessing := false)
  }

  // ---------------------------------------------------------------------
  // Editing the list

  /** `addTasks`: new tasks, with ids from the queue's counter, go to the
      end. */
  function Add(q: Queue, urls: seq<Url>, config: ProcessingConfiguration, now: real,
               sizes: map<Url, int>): (r: Queue)
    ensures r.(tasks := q.tasks, nextId := q.nextId) == q
    ensures r.nextId == q.nextId + |urls|
    ensures |r.tasks| == |q.tasks| + |urls| && r.tasks[..|q.tasks|] == q.tasks
    ensures forall i :: 0 <= i < |urls| ==>
      r.tasks[|q.tasks| + i].videoURL == urls[i] && r.tasks[|q.tasks| + i].status == Pending
      && r.tasks[|q.tasks| + i].config == config && r.tasks[|q.tasks| + i].id == q.nextId + i
  {
    var added := AddTasks(urls, config, q.nextId, now, sizes);
    assert (q.tasks + added)[..|q.tasks|] == q.tasks;
    q.(tasks := q.tasks + added, nextId := q.nextId + |urls|)
  }

  /** `addTasksFromFolder`: the folder's video files, sorted by name. */
  function AddFromFolder(q: Queue, listing: Option<seq<DirEntry>>, config: ProcessingConfiguration,
                         now: real, sizes: map<Url, int>): (r: Queue)
    ensures listing.None? ==> r.tasks == q.tasks
    ensures r.(tasks := q.tasks, nextId := q.nextId) == q
    ensures |r.tasks| == |q.tasks| + |FindVideoFiles(listing)| && r.tasks[..|q.tasks|] == q.tasks
    ensures forall i :: 0 <= i < |FindVideoFiles(listing)| ==>
      r.tasks[|q.tasks| + i].videoURL == FindVideoFiles(listing)[i]
      && r.tasks[|q.tasks| + i].id == q.nextId + i
  {
    Add(q, FindVideoFiles(listing), config, now, sizes)
  }

  /** `updateTask` on the queue. */
  function Update(q: Queue, t: ProcessingTask): (r: Queue)
    ensures r.(tasks := q.tasks) == q && |r.tasks| == |q.tasks|
    ensures forall i :: 0 <= i < |q.tasks| ==> r.tasks[i].id == q.tasks[i].id
    ensures (forall i :: 0 <= i < |q.tasks| ==> q.tasks[i].id != t.id) ==> r.tasks == q.tasks
    ensures FindTask(q.tasks, t.id).Some? ==> FindTask(r.tasks, t.id) == Some(t)
  {
    UpdateThenFind(q.tasks, t, t.id);
    q.(tasks := UpdateIn(q.tasks, t))
  }

  /** `removeTask(id:)`: the list loses the id; a running handle is kept. */
  function Remove(q: Queue, id: nat): (r: Queue)
    ensures r.(tasks := q.tasks) == q
    ensures forall i :: 0 <= i < |r.tasks| ==> r.tasks[i].id != id
    ensures forall i :: 0 <= i < |q.tasks| && q.tasks[i].id != id ==> q.tasks[i] in r.tasks
  {
    RemoveTaskKeepsOthers(id, q.tasks);
    q.(tasks := RemoveTask(id, q.tasks))
  }

  /** The ids of the tasks whose status is processing. */
  function ProcessingIds(tasks: seq<ProcessingTask>): set<nat> {
    set i | 0 <= i < |tasks| && tasks[i].status == Processing :: tasks[i].id
  }

  /** `removeAllTasks`: every processing task is cancelled (its handle goes),
      then the FIFO and the list are emptied and processing stops. Runs
      whose task was not processing keep their handles. */
  function RemoveAll(q: Queue): (r: Queue)
    ensures r.tasks == [] && r.fifo == [] && !r.isProcessing
    ensures r.runs == q.runs && r.maxConcurrent == q.maxConcurrent && r.nextId == q.nextId
    ensures forall x :: x in r.handles <==>
      x in q.handles && forall i :: 0 <= i < |q.tasks| && q.tasks[i].id == x ==> q.tasks[i].status != Processing
  {
    q.(handles := q.handles - ProcessingIds(q.tasks), fifo := [], tasks := [], isProcessing := false)
  }

  function IsUnfinished(t: ProcessingTask): bool { !TaskIsCompleted(t) }

  /** `removeCompletedTasks`: completed, failed and cancelled tasks leave the
      list; the others stay, in order. */
  function RemoveCompleted(q: Queue): (r: Queue)
    ensures r.(tasks := q.tasks) == q
    ensures forall i :: 0 <= i < |r.tasks| ==> !TaskIsCompleted(r.tasks[i])
    ensures forall i :: 0 <= i < |q.tasks| && !TaskIsCompleted(q.tasks[i]) ==> q.tasks[i] in r.tasks
    ensures multiset(r.tasks) <= multiset(q.tasks)
  {
    FilterKeeps(q.tasks, IsUnfinished);
    q.(tasks := Filter(q.tasks, IsUnfinished))
  }

  /** `updatePendingTasksConfig`: pending tasks take the new configuration;
      no other task and no other field changes. */
  function UpdatePendingConfig(q: Queue, config: ProcessingConfiguration): (r: Queue)
    ensures r.(tasks := q.tasks) == q && |r.tasks| == |q.tasks|
    ensures forall i :: 0 <= i < |q.tasks| ==>
      r.tasks[i].(config := q.tasks[i].config) == q.tasks[i]
      && (q.tasks[i].status == Pending ==> r.tasks[i].config == config)
      && (q.tasks[i].status != Pending ==> r.tasks[i] == q.tasks[i])
  {
    q.(tasks := seq(|q.tasks|, i requires 0 <= i < |q.tasks| =>
      if q.tasks[i].status == Pending then q.tasks[i].(config := config) else q.tasks[i]))
  }

  // ---------------------------------------------------------------------
  // The queue as a state machine

  datatype Event =
    | StartEvent(max: int)
    | FinishEvent(run: nat, outcome: RunOutcome, at: real)
    | ReportEvent(run: nat, progress: ProcessingProgress)
    | CancelEvent(id: nat, at: real)
    | StopEvent(keys: seq<nat>, at: real)
    | AddEvent(urls: seq<Url>, config: ProcessingConfiguration, at: real, sizes: map<Url, int>)
    | AddFolderEvent(listing: Option<seq<DirEntry>>, config: ProcessingConfiguration, at: real,
                     sizes: map<Url, int>)
    | UpdateEvent(task: ProcessingTask)
    | RemoveEvent(id: nat)
    | RemoveAllEvent
    | RemoveCompletedEvent
    | UpdateConfigEvent(config: ProcessingConfiguration)

  /** One event; an event that names a run that is not in flight, or a key
      list that is not the handle set, cannot occur and leaves the queue
      alone. */
  function Step(q: Queue, e: Event): Queue {
    match e
    case StartEvent(max) => Start(q, max)
    case FinishEvent(k, o, at) => if k < |q.runs| then Finish(q, k, o, at) else q
    case ReportEvent(k, p) => if k < |q.runs| then Report(q, k, p) else q
    case CancelEvent(id, at) => Cancel(q, id, at)
    case StopEvent(keys, at) => if Enumerates(keys, q.handles) then Stop(q, keys, at) else q
    case AddEvent(urls, c, at, sizes) => Add(q, urls, c, at, sizes)
    case AddFolderEvent(listing, c, at, sizes) => AddFromFolder(q, listing, c, at, sizes)
    case UpdateEvent(t) => Update(q, t)
    case RemoveEvent(id) => Remove(q, id)
    case RemoveAllEvent => RemoveAll(q)
    case RemoveCompletedEvent => RemoveCompleted(q)
    case UpdateConfigEvent(c) => UpdatePendingConfig(q, c)
  }

  /** Ids in the list are distinct and below the counter. */
  predicate IdsOk(q: Queue) {
    (forall i, j :: 0 <= i < j < |q.tasks| ==> q.tasks[i].id != q.tasks[j].id)
    && (forall i :: 0 <= i < |q.tasks| ==> q.tasks[i].id < q.nextId)
  }

  /** A filtered list keeps distinct ids distinct. */
  lemma {:induction false} FilterKeepsIdsDistinct(s: seq<ProcessingTask>, p: ProcessingTask -> bool)
    requires forall i, j :: 0 <= i < j < |s| ==> s[i].id != s[j].id
    ensures forall i, j :: 0 <= i < j < |Filter(s, p)| ==> Filter(s, p)[i].id != Filter(s, p)[j].id
    decreases |s|
  {
    if |s| > 0 {
      var rest := Filter(s[1..], p);
      FilterKeepsIdsDistinct(s[1..], p);
      forall j | 0 <= j < |rest| ensures rest[j].id != s[0].id {
        assert rest[j] in multiset(s[1..]);
        var m :| 0 <= m < |s[1..]| && s[1..][m] == rest[j];
        assert s[m + 1] == rest[j];
      }
      if p(s[0]) {
        var r := Filter(s, p);
        assert r == [s[0]] + rest;
        forall i, j | 0 <= i < j < |r| ensures r[i].id != r[j].id {
          assert r[j] == rest[j - 1];
          if i > 0 {
            assert r[i] == rest[i - 1];
            assert rest[i - 1].id != rest[j - 1].id;
          }
        }
      } else {
        assert Filter(s, p) == rest;
      }
    }
  }

  /** Every event keeps the ids in the list distinct and below the counter. */
  lemma StepKeepsIds(q: Queue, e: Event)
    requires IdsOk(q)
    ensures IdsOk(Step(q, e))
  {
    match e {
      case StartEvent(max) => StartKeepsIds(q, max);
      case FinishEvent(k, o, at) => if k < |q.runs| { FinishKeepsIds(q, k, o, at); }
      case ReportEvent(k, p) => if k < |q.runs| { ReportKeepsIds(q, k, p); }
      case CancelEvent(id, at) => CancelKeepsIds(q, id, at);
      case StopEvent(keys, at) => if Enumerates(keys, q.handles) { StopKeepsIds(q, keys, at); }
      case AddEvent(urls, c, at, sizes) => AddKeepsIds(q, urls, c, at, sizes);
      case AddFolderEvent(listing, c, at, sizes) => AddKeepsIds(q, FindVideoFiles(listing), c, at, sizes);
      case UpdateEvent(t) => SameIdsKeepIds(q, Update(q, t));
      case RemoveEvent(id) => RemoveKeepsIds(q, id);
      case RemoveAllEvent =>
      case RemoveCompletedEvent => RemoveCompletedKeepsIds(q);
      case UpdateConfigEvent(c) => SameIdsKeepIds(q, UpdatePendingConfig(q, c));
    }
  }

  lemma StartKeepsIds(q: Queue, max: int)
    requires IdsOk(q)
    ensures IdsOk(Start(q, max))
  {
    SameIdsKeepIds(q, Start(q, max));
  }

  lemma FinishKeepsIds(q: Queue, k: nat, o: RunOutcome, at: real)
    requires IdsOk(q) && k < |q.runs|
    ensures IdsOk(Finish(q, k, o, at))
  {
    SameIdsKeepIds(q, Finish(q, k, o, at));
  }

  lemma ReportKeepsIds(q: Queue, k: nat, p: ProcessingProgress)
    requires IdsOk(q) && k < |q.runs|
    ensures IdsOk(Report(q, k, p))
  {
    SameIdsKeepIds(q, Report(q, k, p));
  }

  lemma CancelKeepsIds(q: Queue, id: nat, at: real)
    requires IdsOk(q)
    ensures IdsOk(Cancel(q, id, at))
  {
    SameIdsKeepIds(q, Cancel(q, id, at));
  }

  lemma StopKeepsIds(q: Queue, keys: seq<nat>, at: real)
    requires IdsOk(q) && Enumerates(keys, q.handles)
    ensures IdsOk(Stop(q, keys, at))
  {
    SameIdsKeepIds(q, Stop(q, keys, at));
  }

  lemma RemoveKeepsIds(q: Queue, id: nat)
    requires IdsOk(q)
    ensures IdsOk(Remove(q, id))
  {
    var r := Remove(q, id);
    assert r.tasks == Filter(q.tasks, Others(id));
    FilterKeepsIdsDistinct(q.tasks, Others(id));
    SubsetKeepsBound(q.tasks, r.tasks, q.nextId);
  }

  lemma RemoveCompletedKeepsIds(q: Queue)
    requires IdsOk(q)
    ensures IdsOk(RemoveCompleted(q))
  {
    var r := RemoveCompleted(q);
    assert r.tasks == Filter(q.tasks, IsUnfinished);
    FilterKeepsIdsDistinct(q.tasks, IsUnfinished);
    SubsetKeepsBound(q.tasks, r.tasks, q.nextId);
  }

  /** A list with the same id at every position, under the same counter,
      keeps the id invariant. */
  lemma SameIdsKeepIds(q: Queue, r: Queue)
    requires IdsOk(q)
    requires |r.tasks| == |q.tasks| && r.nextId == q.nextId
    requires forall i :: 0 <= i < |q.tasks| ==> r.tasks[i].id == q.tasks[i].id
    ensures IdsOk(r)
  {
  }

  lemma SubsetKeepsBound(s: seq<ProcessingTask>, r: seq<ProcessingTask>, bound: nat)
    requires multiset(r) <= multiset(s)
    requires forall i :: 0 <= i < |s| ==> s[i].id < bound
    ensures forall i :: 0 <= i < |r| ==> r[i].id < bound
  {
    forall i | 0 <= i < |r| ensures r[i].id < bound {
      assert r[i] in multiset(s);
    }
  }

  lemma AddKeepsIds(q: Queue, urls: seq<Url>, c: ProcessingConfiguration, at: real, sizes: map<Url, int>)
    requires IdsOk(q)
    ensures IdsOk(Add(q, urls, c, at, sizes))
  {
    var added := AddTasks(urls, c, q.nextId, at, sizes);
    AddTasksFreshIds(urls, c, q.nextId, at, sizes, q.tasks);
    var r := Add(q, urls, c, at, sizes);
    assert r.tasks == q.tasks + added;
    forall i, j | 0 <= i < j < |r.tasks| ensures r.tasks[i].id != r.tasks[j].id {
      if j >= |q.tasks| && i >= |q.tasks| {
        assert added[i - |q.tasks|].id != added[j - |q.tasks|].id;
      } else if j >= |q.tasks| {
        assert added[j - |q.tasks|].id != q.tasks[i].id;
      }
    }
  }

  /** The handle bound: no event other than a restart with a smaller limit
      can take the number of running handles above the limit. */
  lemma StepKeepsBound(q: Queue, e: Event)
    requires |q.handles| <= q.maxConcurrent
    requires e.StartEvent? ==> |q.handles| <= e.max
    ensures |Step(q, e).handles| <= Step(q, e).maxConcurrent
  {
  }

  // A task cancelled while its snapshot waits in the FIFO still runs when a
  // slot frees up, and a successful run then marks it completed: the four
  // steps below, with one slot and two pending tasks `a` and `b`.

  function TaskA(): ProcessingTask { NewTask(0, Url([], "a.mp4"), DefaultConfig, 0.0) }

  /** Two pending tasks with the ids 0 and 1. */
  predicate TwoPending(a: ProcessingTask, b: ProcessingTask) {
    a.id == 0 && b.id == 1 && a.status == Pending && b.status == Pending
  }

  /** Starting with one slot runs the first task and queues the second. */
  lemma StaleExampleStart(a: ProcessingTask, b: ProcessingTask)
    requires TwoPending(a, b)
    ensures Start(Queue([a, b], false, {}, 3, [], [], 2), 1) == Queue([a, b], true, {0}, 1, [b], [a], 2)
  {
    var both := [a, b];
    BothPending(a, b);
    var q1 := Queue(both, true, {}, 1, both, [], 2);
    FirstOfTwo(q1, a, b);
  }

  /** Both tasks are waiting to run. */
  lemma BothPending(a: ProcessingTask, b: ProcessingTask)
    requires TwoPending(a, b)
    ensures Filter([a, b], IsPendingTask) == [a, b]
  {
    FilterAllOrNone([a, b], IsPendingTask);
  }

  /** With one slot free, only the first waiting task starts. */
  lemma FirstOfTwo(q: Queue, a: ProcessingTask, b: ProcessingTask)
    requires q.fifo == [a, b] && q.handles == {} && q.maxConcurrent == 1 && a.id == 0
    ensures StartNextBatch(q) == q.(handles := {0}, fifo := [b], runs := q.runs + [a])
  {
    assert BatchSize(q) == 1;
    assert q.fifo[..1] == [a] && q.fifo[1..] == [b];
    assert Ids([a]) == {0};
  }

  /** Cancelling the waiting task changes its entry but not the FIFO. */
  lemma StaleExampleCancel(a: ProcessingTask, b: ProcessingTask)
    requires TwoPending(a, b)
    ensures Cancel(Queue([a, b], true, {0}, 1, [b], [a], 2), 1, 5.0)
      == Queue([a, CancelTask(b, 5.0)], true, {0}, 1, [b], [a], 2)
  {
    assert IsFirst([a, b], 1);
  }

  /** When the first run ends, the cancelled task's snapshot is started. */
  lemma StaleExampleFinishFirst(a: ProcessingTask, b: ProcessingTask)
    requires TwoPending(a, b)
    ensures Finish(Queue([a, CancelTask(b, 5.0)], true, {0}, 1, [b], [a], 2), 0, Succeeded, 6.0)
      == Queue([Outcome(a, Succeeded, 6.0), CancelTask(b, 5.0)], true, {1}, 1, [], [b], 2)
  {
    var q := Queue([a, CancelTask(b, 5.0)], true, {0}, 1, [b], [a], 2);
    var f := Queue([Outcome(a, Succeeded, 6.0), CancelTask(b, 5.0)], true, {}, 1, [b], [], 2);
    FirstRunReleased(a, b);
    OnlyWaiting(f, b);
  }

  /** The first run's release writes its outcome back and frees its slot. */
  lemma FirstRunReleased(a: ProcessingTask, b: ProcessingTask)
    requires TwoPending(a, b)
    ensures Release(Queue([a, CancelTask(b, 5.0)], true, {0}, 1, [b], [a], 2), 0, Succeeded, 6.0)
      == Queue([Outcome(a, Succeeded, 6.0), CancelTask(b, 5.0)], true, {}, 1, [b], [], 2)
  {
    var q := Queue([a, CancelTask(b, 5.0)], true, {0}, 1, [b], [a], 2);
    assert IsFirst(q.tasks, 1);
  }

  /** With one slot free, the only waiting task starts. */
  lemma OnlyWaiting(q: Queue, b: ProcessingTask)
    requires q.fifo == [b] && q.handles == {} && q.maxConcurrent == 1 && b.id == 1
    ensures StartNextBatch(q) == q.(handles := {1}, fifo := [], runs := q.runs + [b])
  {
    assert BatchSize(q) == 1;
    assert q.fifo[..1] == [b] && q.fifo[1..] == [];
    assert Ids([b]) == {1};
  }

  /** Its run then succeeds, and the cancelled task ends up completed. */
  lemma StaleExampleFinishSecond(a: ProcessingTask, b: ProcessingTask)
    requires TwoPending(a, b)
    ensures var r := Finish(Queue([Outcome(a, Succeeded, 6.0), CancelTask(b, 5.0)], true, {1}, 1, [], [b], 2),
                            0, Succeeded, 7.0);
      r.tasks[1].status == Completed && !r.isProcessing && r.handles == {}
  {
    var q := Queue([Outcome(a, Succeeded, 6.0), CancelTask(b, 5.0)], true, {1}, 1, [], [b], 2);
    assert IsFirst(q.tasks, 1);
    assert BatchSize(Release(q, 0, Succeeded, 7.0)) == 0;
  }

  // ---------------------------------------------------------------------
  // Counts and progress

  function WithStatus(s: TaskStatus): ProcessingTask -> bool {
    (t: ProcessingTask) => t.status == s
  }

  function WithMode(m: ProcessingMode): ProcessingTask -> bool {
    (t: ProcessingTask) => t.config.mode == m
  }

  /** `tasks(with: status)`, and `pendingTasks`, `activeTasks`, … */
  function TasksWithStatus(tasks: seq<ProcessingTask>, s: TaskStatus): (r: seq<ProcessingTask>)
    ensures forall i :: 0 <= i < |r| ==> r[i].status == s
    ensures forall i :: 0 <= i < |tasks| && tasks[i].status == s ==> tasks[i] in r
    ensures multiset(r) <= multiset(tasks)
  {
    FilterKeeps(tasks, WithStatus(s));
    Filter(tasks, WithStatus(s))
  }

  /** `tasks(with: mode)`. */
  function TasksWithMode(tasks: seq<ProcessingTask>, m: ProcessingMode): (r: seq<ProcessingTask>)
    ensures forall i :: 0 <= i < |r| ==> r[i].config.mode == m
    ensures forall i :: 0 <= i < |tasks| && tasks[i].config.mode == m ==> tasks[i] in r
    ensures multiset(r) <= multiset(tasks)
  {
    FilterKeeps(tasks, WithMode(m));
    Filter(tasks, WithMode(m))
  }

  /** `finishedTasks`. */
  function FinishedTasks(tasks: seq<ProcessingTask>): (r: seq<ProcessingTask>)
    ensures forall i :: 0 <= i < |r| ==> TaskIsCompleted(r[i])
    ensures forall i :: 0 <= i < |tasks| && TaskIsCompleted(tasks[i]) ==> tasks[i] in r
  {
    FilterKeeps(tasks, TaskIsCompleted);
    Filter(tasks, TaskIsCompleted)
  }

  /** Pending, processing and finished tasks account for every task. */
  lemma CountsPartition(tasks: seq<ProcessingTask>)
    ensures |TasksWithStatus(tasks, Pending)| + |TasksWithStatus(tasks, Processing)|
          + |FinishedTasks(tasks)| == |tasks|
  {
    var p, q := WithStatus(Pending), WithStatus(Processing);
    forall i | 0 <= i < |tasks|
      ensures ExactlyOne(p, q, TaskIsCompleted, tasks[i])
    {
      assert p(tasks[i]) <==> tasks[i].status == Pending;
      assert q(tasks[i]) <==> tasks[i].status == Processing;
    }
    FilterSplit3(tasks, p, q, TaskIsCompleted);
  }

  /** `hasActiveTasks`: some task's status is processing (the handle set is
      not consulted). */
  function HasActiveTasks(tasks: seq<ProcessingTask>): (b: bool)
    ensures b <==> exists i :: 0 <= i < |tasks| && tasks[i].status == Processing
  {
    FilterEmptyIff(tasks, WithStatus(Processing));
    |TasksWithStatus(tasks, Processing)| > 0
  }

  /** A task's share of the overall progress. */
  function Share(t: ProcessingTask): real {
    match t.status
    case Completed => 1.0
    case Failed => 1.0
    case Cancelled => 1.0
    case Processing => t.progress
    case Pending => 0.0
  }

  /** Progress values of processing tasks lie in [0, 1]. */
  predicate ProgressInRange(tasks: seq<ProcessingTask>) {
    forall i :: 0 <= i < |tasks| && tasks[i].status == Processing ==> 0.0 <= tasks[i].progress <= 1.0
  }

  function ShareSum(tasks: seq<ProcessingTask>): (sum: real)
    ensures ProgressInRange(tasks) ==> 0.0 <= sum <= |tasks| as real
    ensures (forall i :: 0 <= i < |tasks| ==> TaskIsCompleted(tasks[i])) ==> sum == |tasks| as real
    ensures (forall i :: 0 <= i < |tasks| ==> tasks[i].status == Pending) ==> sum == 0.0
    decreases |tasks|
  {
    if |tasks| == 0 then 0.0
    else
      assert forall i :: 1 <= i < |tasks| ==> tasks[i] == tasks[1..][i - 1];
      Share(tasks[0]) + ShareSum(tasks[1..])
  }

  /** `overallProgress`: the mean share, finished tasks counting as done and
      pending ones as not started; 0 for an empty list. */
  function OverallProgress(tasks: seq<ProcessingTask>): (p: real)
    ensures |tasks| == 0 ==> p == 0.0
    ensures ProgressInRange(tasks) ==> 0.0 <= p <= 1.0
    ensures |tasks| > 0 && (forall i :: 0 <= i < |tasks| ==> TaskIsCompleted(tasks[i])) ==> p == 1.0
    ensures (forall i :: 0 <= i < |tasks| ==> tasks[i].status == Pending) ==> p == 0.0
  {
    if |tasks| == 0 then 0.0
    else
      var sum := ShareSum(tasks);
      var n := |tasks| as real;
      Quotient(sum, n)
  }

  /** `successRate`: completed over finished, 0 with nothing finished. */
  function SuccessRate(tasks: seq<ProcessingTask>): (r: real)
    ensures 0.0 <= r <= 1.0
    ensures r == 0.0 <==> (forall i :: 0 <= i < |tasks| ==> tasks[i].status != Completed)
    ensures r == 1.0 <==>
      (exists i :: 0 <= i < |tasks| && TaskIsCompleted(tasks[i]))
      && (forall i :: 0 <= i < |tasks| && TaskIsCompleted(tasks[i]) ==> tasks[i].status == Completed)
  {
    var finished := |FinishedTasks(tasks)|;
    var completed := |TasksWithStatus(tasks, Completed)|;
    CompletedWithinFinished(tasks);
    FilterEmptyIff(tasks, TaskIsCompleted);
    FilterEmptyIff(tasks, WithStatus(Completed));
    if finished == 0 then 0.0
    else
      Quotient(completed as real, finished as real)
  }

  /** The overall progress is the mean of the tasks' shares: added up once
      per task it gives their sum (`Repeated` is the product, see
      `RepeatedIsProduct`). */
  lemma OverallProgressIsMean(tasks: seq<ProcessingTask>)
    requires |tasks| > 0
    ensures Repeated(OverallProgress(tasks), |tasks|) == ShareSum(tasks)
  {
    QuotientRepeated(ShareSum(tasks), |tasks|);
  }

  /** The success rate added up once per finished task gives the number of
      completed ones. */
  lemma SuccessRateIsRatio(tasks: seq<ProcessingTask>)
    requires |FinishedTasks(tasks)| > 0
    ensures Repeated(SuccessRate(tasks), |FinishedTasks(tasks)|) == |TasksWithStatus(tasks, Completed)| as real
  {
    QuotientRepeated(|TasksWithStatus(tasks, Completed)| as real, |FinishedTasks(tasks)|);
  }

  /** `q` added up `k` times. */
  function Repeated(q: real, k: nat): real
  {
    if k == 0 then 0.0 else q + Repeated(q, k - 1)
  }

  /** Adding `q` up `k` times is multiplying it by `k`. */
  lemma {:induction false} RepeatedIsProduct(q: real, k: nat)
    ensures Repeated(q, k) == q * (k as real)
  {
    if k > 0 {
      RepeatedIsProduct(q, k - 1);
    }
  }

  /** A quotient by `k`, added up `k` times, gives the dividend back. */
  lemma QuotientRepeated(a: real, k: nat)
    requires k > 0
    ensures Repeated(Quotient(a, k as real), k) == a
  {
    RepeatedIsProduct(Quotient(a, k as real), k);
    assert a / (k as real) * (k as real) == a;
  }

  /** `a / n` for a positive whole `n`: times `n` it gives `a` back, it lies
      in [0, 1] when `a` does in [0, n], and it is 0 or 1 only at the ends. */
  function Quotient(a: real, n: real): (q: real)
    requires n > 0.0
    ensures 0.0 <= a <= n ==> 0.0 <= q <= 1.0
    ensures q == 0.0 <==> a == 0.0
    ensures q == 1.0 <==> a == n
  {
    assert a / n * n == a;
    a / n
  }

  /** Completed tasks are among the finished ones, and all of them exactly
      when no finished task failed or was cancelled. */
  lemma {:induction false} CompletedWithinFinished(tasks: seq<ProcessingTask>)
    ensures |Filter(tasks, WithStatus(Completed))| <= |Filter(tasks, TaskIsCompleted)|
    ensures |Filter(tasks, WithStatus(Completed))| == |Filter(tasks, TaskIsCompleted)| <==>
      forall i :: 0 <= i < |tasks| && TaskIsCompleted(tasks[i]) ==> tasks[i].status == Completed
    decreases |tasks|
  {
    if |tasks| > 0 {
      CompletedWithinFinished(tasks[1..]);
      assert forall i :: 1 <= i < |tasks| ==> tasks[i] == tasks[1..][i - 1];
    }
  }
}

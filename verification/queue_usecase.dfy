/** The queue-processing use case: a bounded pool that runs every pending
    task of a list, at most `maxConcurrent` at a time, starting them in list
    order, plus the updates it reports for each task. Which task finishes
    first is up to the executor, so the pool records a completion without
    saying which one it was (the task group does not say either). */
module QueueUseCase {
  import opened Wrappers
  import opened Seqs
  import opened Domain
  import opened TaskQueue

  /** What the pool does, one event at a time. */
  datatype PoolEvent = TaskStarted(task: ProcessingTask) | TaskEnded

  /** The tasks started so far, in start order. */
  function StartedTasks(events: seq<PoolEvent>): seq<ProcessingTask>
    decreases |events|
  {
    if |events| == 0 then []
    else
      var last := events[|events| - 1];
      StartedTasks(events[..|events| - 1]) + (if last.TaskStarted? then [last.task] else [])
  }

  /** The number of tasks running after the events. */
  function Active(events: seq<PoolEvent>): int
    decreases |events|
  {
    if |events| == 0 then 0
    else Active(events[..|events| - 1]) + (if events[|events| - 1].TaskStarted? then 1 else -1)
  }

  /** The largest number of tasks the pool may run at once. */
  function Bound(maxConcurrent: int): nat {
    if maxConcurrent > 0 then maxConcurrent else 0
  }

  /** Every prefix of the events keeps between 0 and `bound` tasks running. */
  ghost predicate NeverAbove(events: seq<PoolEvent>, bound: nat) {
    forall k :: 0 <= k <= |events| ==> 0 <= Active(events[..k]) <= bound
  }

  /** Appending one event moves the running count by one and extends the
      started list by the started task; the bound carries over when the
      new count is within it. */
  lemma Snoc(events: seq<PoolEvent>, x: PoolEvent, bound: nat)
    requires NeverAbove(events, bound)
    requires 0 <= Active(events) + (if x.TaskStarted? then 1 else -1) <= bound
    ensures Active(events + [x]) == Active(events) + (if x.TaskStarted? then 1 else -1)
    ensures StartedTasks(events + [x]) == StartedTasks(events) + (if x.TaskStarted? then [x.task] else [])
    ensures NeverAbove(events + [x], bound)
  {
    var next := events + [x];
    assert next[..|events|] == events;
    forall k | 0 <= k <= |next| ensures 0 <= Active(next[..k]) <= bound {
      if k <= |events| {
        assert next[..k] == events[..k];
      } else {
        assert next[..k] == next;
      }
    }
  }

  /** How many tasks the initial batch starts. */
  function FirstBatch(pending: seq<ProcessingTask>, maxConcurrent: int): (n: nat)
    ensures n <= |pending| && n <= Bound(maxConcurrent)
    ensures n == |pending| || n == Bound(maxConcurrent)
  {
    if maxConcurrent < |pending| then Bound(maxConcurrent) else |pending|
  }

  /** The first loop of the task group: start tasks while a slot is free and
      tasks are left. */
  method StartInitialBatch(pending: seq<ProcessingTask>, maxConcurrent: int)
    returns (events: seq<PoolEvent>, started: nat)
    ensures started == FirstBatch(pending, maxConcurrent) && |events| == started
    ensures forall k :: 0 <= k < started ==> events[k] == TaskStarted(pending[k])
    ensures StartedTasks(events) == pending[..started]
    ensures Active(events) == started
    ensures NeverAbove(events, Bound(maxConcurrent))
  {
    started := 0;
    events := [];
    var first := FirstBatch(pending, maxConcurrent);
    while started < maxConcurrent && started < |pending|
      invariant started <= first
      invariant |events| == started && forall k :: 0 <= k < started ==> events[k] == TaskStarted(pending[k])
      invariant StartedTasks(events) == pending[..started]
      invariant Active(events) == started
      invariant NeverAbove(events, Bound(maxConcurrent))
      invariant started < first ==> started < maxConcurrent && started < |pending|
    {
      Snoc(events, TaskStarted(pending[started]), Bound(maxConcurrent));
      assert pending[..started + 1] == pending[..started] + [pending[started]];
      events := events + [TaskStarted(pending[started])];
      started := started + 1;
    }
  }

  /** The second loop: each completion frees a slot, which the next task
      left, if any, takes at once; the loop ends when the group is empty. */
  method DrainGroup(pending: seq<ProcessingTask>, maxConcurrent: int, events0: seq<PoolEvent>, started: nat)
    returns (events: seq<PoolEvent>)
    requires started == FirstBatch(pending, maxConcurrent)
    requires StartedTasks(events0) == pending[..started] && Active(events0) == started
    requires NeverAbove(events0, Bound(maxConcurrent))
    ensures StartedTasks(events) == if maxConcurrent > 0 then pending else []
    ensures Active(events) == 0
    ensures NeverAbove(events, Bound(maxConcurrent))
    ensures |events0| <= |events| && events[..|events0|] == events0
  {
    var i := started;
    var active: int := started;
    events := events0;
    while active > 0
      invariant 0 <= i <= |pending| && 0 <= active <= Bound(maxConcurrent)
      invariant StartedTasks(events) == pending[..i]
      invariant Active(events) == active
      invariant NeverAbove(events, Bound(maxConcurrent))
      invariant maxConcurrent <= 0 ==> i == 0
      invariant active > 0 || i == |pending| || maxConcurrent <= 0
      invariant |events0| <= |events| && events[..|events0|] == events0
      decreases |pending| - i + active
    {
      events, i, active := Completion(pending, maxConcurrent, events, i, active, events0);
    }
    assert pending[..|pending|] == pending;
  }

  /** One pass of the second loop: a completion, then the next task if one
      is left. */
  method Completion(pending: seq<ProcessingTask>, maxConcurrent: int, events: seq<PoolEvent>, i: nat,
                    active: int, events0: seq<PoolEvent>)
    returns (events': seq<PoolEvent>, i': nat, active': int)
    requires i <= |pending| && 0 < active <= Bound(maxConcurrent)
    requires StartedTasks(events) == pending[..i] && Active(events) == active
    requires NeverAbove(events, Bound(maxConcurrent))
    requires |events0| <= |events| && events[..|events0|] == events0
    ensures i' <= |pending| && 0 <= active' <= Bound(maxConcurrent)
    ensures StartedTasks(events') == pending[..i'] && Active(events') == active'
    ensures NeverAbove(events', Bound(maxConcurrent))
    ensures |events0| <= |events'| && events'[..|events0|] == events0
    ensures i < |pending| ==> i' == i + 1 && active' == active
    ensures i == |pending| ==> i' == i && active' == active - 1
  {
    Snoc(events, TaskEnded, Bound(maxConcurrent));
    events' := events + [TaskEnded];
    assert events'[..|events0|] == events[..|events0|];
    i' := i;
    active' := active - 1;
    if i < |pending| {
      var before := events';
      Snoc(before, TaskStarted(pending[i]), Bound(maxConcurrent));
      assert pending[..i + 1] == pending[..i] + [pending[i]];
      events' := before + [TaskStarted(pending[i])];
      assert events'[..|events0|] == before[..|events0|];
      i' := i + 1;
      active' := active;
    }
  }

  /** The task group of `execute`: an initial batch of up to
      `maxConcurrent` tasks, then one new task per completion while any are
      left, until the group is empty. Every task is started once, in order,
      and the number running never exceeds the limit. */
  method RunPool(pending: seq<ProcessingTask>, maxConcurrent: int) returns (events: seq<PoolEvent>)
    ensures StartedTasks(events) == if maxConcurrent > 0 then pending else []
    ensures Active(events) == 0
    ensures NeverAbove(events, Bound(maxConcurrent))
    ensures var first := FirstBatch(pending, maxConcurrent);
      first <= |events| && forall k :: 0 <= k < first ==> events[k] == TaskStarted(pending[k])
  {
    var initial, started := StartInitialBatch(pending, maxConcurrent);
    events := DrainGroup(pending, maxConcurrent, initial, started);
    forall k | 0 <= k < started ensures events[k] == TaskStarted(pending[k]) {
      assert events[k] == events[..|initial|][k];
    }
  }

  /** `execute`: only pending tasks take part, in list order; with none, or
      with a limit of zero or less, nothing is started. */
  method Execute(tasks: seq<ProcessingTask>, maxConcurrent: int) returns (events: seq<PoolEvent>)
    ensures StartedTasks(events) == if maxConcurrent > 0 then Filter(tasks, IsPendingTask) else []
    ensures forall i :: 0 <= i < |StartedTasks(events)| ==> StartedTasks(events)[i].status == Pending
    ensures (forall i :: 0 <= i < |tasks| ==> tasks[i].status != Pending) ==> events == []
    ensures Active(events) == 0
    ensures NeverAbove(events, Bound(maxConcurrent))
  {
    var pending := Filter(tasks, IsPendingTask);
    FilterEmptyIff(tasks, IsPendingTask);
    if |pending| == 0 {
      return [];
    }
    events := RunPool(pending, maxConcurrent);
  }

  /** How one executor run ends: the task it returned, or an error message. */
  datatype RunResult = Returned(task: ProcessingTask) | Threw(message: string)

  /** The updates `processTask` reports for one task: first the task marked
      processing, then one per progress event (the snapshot with the
      event's step and overall progress), then the executor's returned task
      or, on an error, the snapshot marked failed with the message. */
  function TaskUpdates(t: ProcessingTask, progress: seq<ProcessingProgress>, result: RunResult,
                       now: real): (us: seq<ProcessingTask>)
    ensures |us| == |progress| + 2
    ensures us[0] == t.(status := Processing)
    ensures forall k :: 0 <= k < |progress| ==>
      us[k + 1].status == Processing && us[k + 1].currentStep == progress[k].step
      && us[k + 1].progress == progress[k].overallProgress
      && us[k + 1].(currentStep := t.currentStep, progress := t.progress, status := t.status) == t
    ensures result.Returned? ==> us[|us| - 1] == result.task
    ensures result.Threw? ==>
      us[|us| - 1].status == Failed && us[|us| - 1].error == Some(result.message)
      && us[|us| - 1].completedAt == Some(now) && us[|us| - 1].id == t.id
  {
    var marked := t.(status := Processing);
    var reports := seq(|progress|, k requires 0 <= k < |progress| =>
      t.(status := Processing, currentStep := progress[k].step, progress := progress[k].overallProgress));
    var last := match result
      case Returned(done) => done
      case Threw(msg) => t.(status := Failed, error := Some(msg), completedAt := Some(now));
    [marked] + reports + [last]
  }
}

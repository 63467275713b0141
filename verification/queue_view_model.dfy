/** The queue screen's view model: which tasks the list shows and in what
    order, which buttons are enabled, and how the selection follows removals.
    The locale-aware "file name contains the search text" test is a
    parameter, as it depends on the user's locale. */
module QueueViewModel {
  import opened Wrappers
  import opened Seqs
  import opened Sorting
  import opened Domain
  import TaskQueue

  /** The list's sort key. */
  datatype SortOrder = ByCreatedDate | ByFileName | ByStatus | ByProgress

  /** The view model's own state; the tasks live in the queue. */
  datatype ViewState = ViewState(
    selected: Option<nat>,
    sortOrder: SortOrder,
    filterStatus: Option<TaskStatus>,
    searchText: string,
    confirmingClearAll: bool)

  /** The initial view: nothing selected, newest first, no filter. */
  const InitialView := ViewState(None, ByCreatedDate, None, "", false)

  /** The queue together with the view of it. */
  datatype Screen = Screen(queue: TaskQueue.Queue, view: ViewState)

  // ---------------------------------------------------------------------
  // Filtering and sorting

  /** The "comes before" relation of each sort order: newest first, file
      names ascending, status raw values (strings) ascending, most progress
      first. */
  function Less(order: SortOrder): (ProcessingTask, ProcessingTask) -> bool {
    match order
    case ByCreatedDate => (a: ProcessingTask, b: ProcessingTask) => a.createdAt > b.createdAt
    case ByFileName => (a: ProcessingTask, b: ProcessingTask) => StringLess(FileName(a), FileName(b))
    case ByStatus => (a: ProcessingTask, b: ProcessingTask) => StringLess(StatusRaw(a.status), StatusRaw(b.status))
    case ByProgress => (a: ProcessingTask, b: ProcessingTask) => a.progress > b.progress
  }

  /** Every sort order is a strict order, so sorting by it yields an ordered
      list. */
  lemma LessIsStrictOrder(order: SortOrder)
    ensures StrictOrder(Less(order))
  {
    match order
    case ByCreatedDate =>
    case ByProgress =>
    case ByFileName =>
      var less := Less(order);
      forall a: ProcessingTask, b: ProcessingTask ensures less(a, b) ==> !less(b, a) {
        StringLessAsymmetric(FileName(a), FileName(b));
      }
      forall a: ProcessingTask, b: ProcessingTask, c: ProcessingTask | less(a, b) && less(b, c)
        ensures less(a, c)
      {
        StringLessTransitive(FileName(a), FileName(b), FileName(c));
      }
    case ByStatus =>
      var less := Less(order);
      forall a: ProcessingTask, b: ProcessingTask ensures less(a, b) ==> !less(b, a) {
        StringLessAsymmetric(StatusRaw(a.status), StatusRaw(b.status));
      }
      forall a: ProcessingTask, b: ProcessingTask, c: ProcessingTask | less(a, b) && less(b, c)
        ensures less(a, c)
      {
        StringLessTransitive(StatusRaw(a.status), StatusRaw(b.status), StatusRaw(c.status));
      }
  }

  /** What an ordered list looks like for each sort key, stated on the keys
      themselves. */
  predicate InKeyOrder(r: seq<ProcessingTask>, order: SortOrder) {
    match order
    case ByCreatedDate => forall i, j :: 0 <= i < j < |r| ==> r[i].createdAt >= r[j].createdAt
    case ByFileName => forall i, j :: 0 <= i < j < |r| ==> !StringLess(FileName(r[j]), FileName(r[i]))
    case ByStatus => forall i, j :: 0 <= i < j < |r| ==> !StringLess(StatusRaw(r[j].status), StatusRaw(r[i].status))
    case ByProgress => forall i, j :: 0 <= i < j < |r| ==> r[i].progress >= r[j].progress
  }

  /** Whether the list shows a task: it has the filtered status (if a filter
      is set) and its file name matches the search text (if any). */
  predicate Shown(t: ProcessingTask, v: ViewState, matches: (string, string) -> bool) {
    (v.filterStatus.None? || t.status == v.filterStatus.value)
    && (|v.searchText| == 0 || matches(FileName(t), v.searchText))
  }

  function ShownBy(v: ViewState, matches: (string, string) -> bool): ProcessingTask -> bool {
    (t: ProcessingTask) => Shown(t, v, matches)
  }

  function Searching(search: string, matches: (string, string) -> bool): ProcessingTask -> bool {
    (t: ProcessingTask) => matches(FileName(t), search)
  }

  /** `filteredTasks`: the status filter, then the search filter, then the
      sort. The result is a reordering of exactly the shown tasks, in the
      order of the chosen key. */
  function FilteredTasks(tasks: seq<ProcessingTask>, v: ViewState, matches: (string, string) -> bool)
    : (r: seq<ProcessingTask>)
    ensures multiset(r) == multiset(Filter(tasks, ShownBy(v, matches)))
    ensures InKeyOrder(r, v.sortOrder)
  {
    var byStatus := if v.filterStatus.Some? then TaskQueue.TasksWithStatus(tasks, v.filterStatus.value) else tasks;
    var bySearch := if |v.searchText| > 0 then Filter(byStatus, Searching(v.searchText, matches)) else byStatus;
    StagedFilters(tasks, v, matches);
    LessIsStrictOrder(v.sortOrder);
    SortBySorted(bySearch, Less(v.sortOrder));
    SortedInKeyOrder(SortBy(bySearch, Less(v.sortOrder)), v.sortOrder);
    SortBy(bySearch, Less(v.sortOrder))
  }

  /** The two filter stages together keep exactly the shown tasks. */
  lemma StagedFilters(tasks: seq<ProcessingTask>, v: ViewState, matches: (string, string) -> bool)
    ensures var byStatus := if v.filterStatus.Some? then Filter(tasks, TaskQueue.WithStatus(v.filterStatus.value)) else tasks;
            (if |v.searchText| > 0 then Filter(byStatus, Searching(v.searchText, matches)) else byStatus)
            == Filter(tasks, ShownBy(v, matches))
  {
    var shown := ShownBy(v, matches);
    match v.filterStatus
    case None =>
      if |v.searchText| > 0 {
        FilterTwice(tasks, (t: ProcessingTask) => true, Searching(v.searchText, matches), shown);
        FilterAllOrNone(tasks, (t: ProcessingTask) => true);
      } else {
        FilterAllOrNone(tasks, shown);
      }
    case Some(s) =>
      if |v.searchText| > 0 {
        FilterTwice(tasks, TaskQueue.WithStatus(s), Searching(v.searchText, matches), shown);
      } else {
        FilterTwice(tasks, TaskQueue.WithStatus(s), (t: ProcessingTask) => true, shown);
        FilterAllOrNone(Filter(tasks, TaskQueue.WithStatus(s)), (t: ProcessingTask) => true);
      }
  }

  /** An ordered list in the sense of the sort relation is ordered by key. */
  lemma SortedInKeyOrder(r: seq<ProcessingTask>, order: SortOrder)
    requires Sorted(r, Less(order))
    ensures InKeyOrder(r, order)
  {
    var less := Less(order);
    forall i, j | 0 <= i < j < |r| ensures !less(r[j], r[i]) {
    }
  }

  /** A task is listed exactly when it is in the queue and shown. */
  lemma FilteredTasksMembers(tasks: seq<ProcessingTask>, v: ViewState, matches: (string, string) -> bool,
                             t: ProcessingTask)
    ensures t in FilteredTasks(tasks, v, matches) <==> t in tasks && Shown(t, v, matches)
  {
    var r := FilteredTasks(tasks, v, matches);
    var f := Filter(tasks, ShownBy(v, matches));
    FilterKeeps(tasks, ShownBy(v, matches));
    assert t in r <==> t in multiset(r);
    assert t in f <==> t in multiset(f);
    if t in f {
      var k :| 0 <= k < |f| && f[k] == t;
      assert ShownBy(v, matches)(f[k]);
      assert t in multiset(tasks);
    }
  }

  /** With no filter and no search text the list is a reordering of the
      whole queue. */
  lemma UnfilteredShowsAll(tasks: seq<ProcessingTask>, v: ViewState, matches: (string, string) -> bool)
    requires v.filterStatus.None? && v.searchText == ""
    ensures multiset(FilteredTasks(tasks, v, matches)) == multiset(tasks)
  {
    FilterAllOrNone(tasks, ShownBy(v, matches));
  }

  /** Sorting by status compares raw-value strings, so the list runs
      cancelled, completed, failed, pending, processing: not the order in
      which the statuses are declared. */
  lemma StatusSortIsAlphabetical()
    ensures StringLess(StatusRaw(Cancelled), StatusRaw(Completed))
    ensures StringLess(StatusRaw(Completed), StatusRaw(Failed))
    ensures StringLess(StatusRaw(Failed), StatusRaw(Pending))
    ensures StringLess(StatusRaw(Pending), StatusRaw(Processing))
  {
    assert StringLess("ancelled", "ompleted");
    assert StringLess("ending", "rocessing");
  }

  // ---------------------------------------------------------------------
  // Button enablement

  /** The enabled state of the start, stop and clear-completed buttons. */
  datatype Buttons = Buttons(canStart: bool, canStop: bool, canClearCompleted: bool)

  /** Some task in the list has status `s`. */
  predicate HasStatus(tasks: seq<ProcessingTask>, s: TaskStatus) {
    exists i :: 0 <= i < |tasks| && tasks[i].status == s
  }

  /** `!taskQueue.tasks(with: s).isEmpty`, as the queue computes it. */
  function AnyWithStatus(tasks: seq<ProcessingTask>, s: TaskStatus): (b: bool)
    ensures b <==> HasStatus(tasks, s)
  {
    FilterEmptyIff(tasks, TaskQueue.WithStatus(s));
    |Filter(tasks, TaskQueue.WithStatus(s))| > 0
  }

  /** `canStart`, `canStop`, `canClearCompleted`. Clearing is offered only
      when some task completed successfully, even though clearing also
      removes failed and cancelled tasks. */
  function Enablement(q: TaskQueue.Queue): (b: Buttons)
    ensures b.canStart <==> HasStatus(q.tasks, Pending) && !q.isProcessing
    ensures b.canStop <==> q.isProcessing
    ensures b.canClearCompleted <==> HasStatus(q.tasks, Completed)
  {
    Buttons(AnyWithStatus(q.tasks, Pending) && !q.isProcessing, q.isProcessing, AnyWithStatus(q.tasks, Completed))
  }

  /** A queue holding only a failed task offers no clearing, yet clearing
      would empty it. */
  lemma ClearOfferedOnlyForSuccesses()
    ensures var q := TaskQueue.Initial.(tasks := [TaskQueue.TaskA().(status := Failed)]);
            !Enablement(q).canClearCompleted && TaskQueue.RemoveCompleted(q).tasks == []
  {
    var q := TaskQueue.Initial.(tasks := [TaskQueue.TaskA().(status := Failed)]);
    FilterAllOrNone(q.tasks, TaskQueue.IsUnfinished);
  }

  // ---------------------------------------------------------------------
  // Actions

  /** The concurrency bound `startProcessing` passes on: the stored setting,
      where 0 (never stored) means 3. */
  function StartMax(stored: int): (m: int)
    ensures stored != 0 ==> m == stored
    ensures stored == 0 ==> m == 3
    ensures stored >= 0 ==> m > 0
  {
    if stored == 0 then 3 else stored
  }

  /** `startProcessing`: the queue starts with the bound read from settings;
      the view is untouched. */
  function StartProcessing(s: Screen, stored: int): (r: Screen)
    ensures r.view == s.view
    ensures r.queue.isProcessing && r.queue.maxConcurrent == StartMax(stored)
    ensures r.queue.tasks == s.queue.tasks
  {
    Screen(TaskQueue.Start(s.queue, StartMax(stored)), s.view)
  }

  /** No selection, or one naming a task in the queue. */
  predicate SelectionValid(s: Screen) {
    s.view.selected.None? || TaskQueue.FindTask(s.queue.tasks, s.view.selected.value).Some?
  }

  /** `removeTask(id:)`: the task leaves the queue; the selection is cleared
      only when it named that task. */
  function RemoveTask(s: Screen, id: nat): (r: Screen)
    ensures r.queue == TaskQueue.Remove(s.queue, id)
    ensures r.view.(selected := s.view.selected) == s.view
    ensures s.view.selected == Some(id) ==> r.view.selected.None?
    ensures s.view.selected != Some(id) ==> r.view.selected == s.view.selected
    ensures SelectionValid(s) ==> SelectionValid(r)
  {
    if s.view.selected.Some? && s.view.selected != Some(id) && SelectionValid(s) then
      RemoveKeepsOtherTask(s.queue, id, s.view.selected.value);
      Screen(TaskQueue.Remove(s.queue, id), s.view)
    else
      Screen(TaskQueue.Remove(s.queue, id),
             if s.view.selected == Some(id) then s.view.(selected := None) else s.view)
  }

  /** Removing one id keeps a task carrying another. */
  lemma RemoveKeepsOtherTask(q: TaskQueue.Queue, id: nat, other: nat)
    requires other != id && TaskQueue.FindTask(q.tasks, other).Some?
    ensures TaskQueue.FindTask(TaskQueue.Remove(q, id).tasks, other).Some?
  {
    var t := TaskQueue.FindTask(q.tasks, other).value;
    var k :| 0 <= k < |q.tasks| && q.tasks[k] == t;
    var r := TaskQueue.Remove(q, id);
    assert t in r.tasks;
    var m :| 0 <= m < |r.tasks| && r.tasks[m] == t;
    assert r.tasks[m].id == other;
  }

  /** `removeCompletedTasks`: the finished tasks leave and the selection is
      cleared. */
  function RemoveCompletedTasks(s: Screen): (r: Screen)
    ensures r.queue == TaskQueue.RemoveCompleted(s.queue)
    ensures r.view == s.view.(selected := None)
    ensures forall i :: 0 <= i < |r.queue.tasks| ==> !TaskIsCompleted(r.queue.tasks[i])
    ensures SelectionValid(r)
  {
    Screen(TaskQueue.RemoveCompleted(s.queue), s.view.(selected := None))
  }

  /** `requestClearAll`: only the confirmation is requested. */
  function RequestClearAll(s: Screen): (r: Screen)
    ensures r.queue == s.queue && r.view.confirmingClearAll
    ensures r.view.(confirmingClearAll := s.view.confirmingClearAll) == s.view
  {
    s.(view := s.view.(confirmingClearAll := true))
  }

  /** `confirmRemoveAllTasks`: the queue is emptied, the selection and the
      confirmation are cleared. */
  function ConfirmRemoveAllTasks(s: Screen): (r: Screen)
    ensures r.queue.tasks == [] && !r.queue.isProcessing
    ensures r.view == s.view.(selected := None, confirmingClearAll := false)
    ensures SelectionValid(r)
  {
    Screen(TaskQueue.RemoveAll(s.queue), s.view.(selected := None, confirmingClearAll := false))
  }

  /** `selectTask(id:)`: any id may be selected; the selected task is looked
      up when shown. */
  function SelectTask(s: Screen, id: nat): (r: Screen)
    ensures r.queue == s.queue && r.view.selected == Some(id)
    ensures SelectionValid(r) <==> exists i :: 0 <= i < |s.queue.tasks| && s.queue.tasks[i].id == id
  {
    s.(view := s.view.(selected := Some(id)))
  }
}

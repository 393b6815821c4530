/** The tasks page: the search filter, the "mine / open / completed" tabs, the
    status buttons of a task card, the status update and task creation. */
module TasksPage {

  import opened Common
  import opened Types
  import Utils

  /** A task row as the page loads it; dates are millisecond timestamps. */
  datatype Task = Task(
    id: string,
    title: string,
    description: Option<string>,
    kind: TaskType,
    priority: TaskPriority,
    status: TaskStatus,
    authorId: string,
    assigneeId: Option<string>,
    dueDate: Option<int>)

  /** The fields of the "new task" dialog. */
  datatype TaskForm = TaskForm(
    title: string,
    description: string,
    kind: TaskType,
    priority: TaskPriority,
    assigneeId: string,
    branchId: string,
    dueDate: string)

  const DefaultForm: TaskForm := TaskForm("", "", Operations, Medium, "", "", "")

  /** The row inserted for a new task: the form, its author and its status. */
  datatype NewTaskRow = NewTaskRow(form: TaskForm, authorId: string, status: TaskStatus)

  /** The columns a status change writes. */
  datatype StatusUpdate = StatusUpdate(status: TaskStatus, closedAt: Option<int>)

  /** Done and rejected tasks are closed. */
  predicate IsClosed(s: TaskStatus) {
    s == Done || s == Rejected
  }

  /** `handleStatusChange`'s update, with the clock reading `now`: the new status,
      and the closing time exactly when the task is being closed. */
  method StatusChangeUpdates(newStatus: TaskStatus, now: int) returns (u: StatusUpdate)
    ensures u.status == newStatus
    ensures u.closedAt.Some? <==> IsClosed(newStatus)
    ensures u.closedAt.Some? ==> u.closedAt.value == now
  {
    u := StatusUpdate(newStatus, None);
    if newStatus == Done || newStatus == Rejected {
      u := u.(closedAt := Some(now));
    }
  }

  /** The single button a task card offers for its status, if any. */
  function OfferedTransition(s: TaskStatus): (r: Option<TaskStatus>)
    ensures IsClosed(s) <==> r.None?
  {
    match s
    case New => Some(TaskStatus.InProgress)
    case InProgress => Some(Done)
    case Done => None
    case Rejected => None
  }

  /** How far along a status is. */
  function Stage(s: TaskStatus): nat {
    match s
    case New => 0
    case InProgress => 1
    case Done => 2
    case Rejected => 2
  }

  /** The buttons only move a task forward, one stage at a time; only the second
      step closes it, and no button rejects a task. */
  lemma TransitionsForward(s: TaskStatus)
    requires OfferedTransition(s).Some?
    ensures Stage(OfferedTransition(s).value) == Stage(s) + 1
    ensures IsClosed(OfferedTransition(s).value) <==> s == TaskStatus.InProgress
    ensures OfferedTransition(s).value != Rejected
  {
  }

  /** At most two clicks take a task to a closed status, and then no button
      remains. */
  lemma TwoClicksClose(s: TaskStatus)
    requires s == New
    ensures OfferedTransition(OfferedTransition(s).value).value == Done
    ensures OfferedTransition(Done).None?
  {
  }

  /** The search: the title or the description contains the query, ignoring case. */
  predicate Matches(t: Task, query: string) {
    ContainsIgnoringCase(t.title, query) ||
    (t.description.Some? && ContainsIgnoringCase(t.description.value, query))
  }

  function FilteredTasks(tasks: seq<Task>, query: string): (r: seq<Task>)
    ensures forall i :: 0 <= i < |r| ==> Matches(r[i], query)
    ensures forall i :: 0 <= i < |tasks| && Matches(tasks[i], query) ==> tasks[i] in r
    ensures multiset(r) <= multiset(tasks)
  {
    var p := (t: Task) => Matches(t, query);
    FilterMembers(tasks, p);
    Filter(tasks, p)
  }

  /** An empty search keeps every task, in order. */
  lemma EmptyQueryKeepsAll(tasks: seq<Task>)
    ensures FilteredTasks(tasks, "") == tasks
  {
    forall t: Task ensures Matches(t, "") {
      EmptyQueryMatches(t.title);
    }
    FilterKeepsAll(tasks, t => Matches(t, ""));
  }

  /** The current user's tasks: assigned to them or written by them. With no user
      (`currentUser?.id` is undefined) no task is theirs. */
  predicate IsMine(t: Task, user: Option<string>) {
    user.Some? && (t.assigneeId == Some(user.value) || t.authorId == user.value)
  }

  function MyTasks(filtered: seq<Task>, user: Option<string>): (r: seq<Task>)
    ensures user.None? ==> r == []
    ensures forall i :: 0 <= i < |r| ==> r[i].authorId == user.value || r[i].assigneeId == user
    ensures forall i :: 0 <= i < |filtered| && IsMine(filtered[i], user) ==> filtered[i] in r
    ensures multiset(r) <= multiset(filtered)
  {
    var p := (t: Task) => IsMine(t, user);
    FilterMembers(filtered, p);
    if user.None? then
      FilterKeepsNone(filtered, p);
      Filter(filtered, p)
    else Filter(filtered, p)
  }

  function OpenTasks(filtered: seq<Task>): (r: seq<Task>)
    ensures forall i :: 0 <= i < |r| ==> !IsClosed(r[i].status)
  {
    Filter(filtered, (t: Task) => !IsClosed(t.status))
  }

  function CompletedTasks(filtered: seq<Task>): (r: seq<Task>)
    ensures forall i :: 0 <= i < |r| ==> IsClosed(r[i].status)
  {
    Filter(filtered, (t: Task) => IsClosed(t.status))
  }

  /** The open and completed tabs split the filtered list: every task is in
      exactly one of them. */
  lemma OpenCompletedPartition(filtered: seq<Task>)
    ensures |OpenTasks(filtered)| + |CompletedTasks(filtered)| == |filtered|
    ensures multiset(OpenTasks(filtered)) + multiset(CompletedTasks(filtered)) == multiset(filtered)
  {
    FilterPartition(filtered, (t: Task) => !IsClosed(t.status), (t: Task) => IsClosed(t.status));
  }

  /** A completed task is never shown as overdue. */
  lemma CompletedNeverOverdue(filtered: seq<Task>, now: int, i: nat)
    requires i < |CompletedTasks(filtered)|
    ensures !Utils.IsOverdue(CompletedTasks(filtered)[i].dueDate,
                             Some(TaskStatusName(CompletedTasks(filtered)[i].status)), now)
  {
    var t := CompletedTasks(filtered)[i];
    assert TaskStatusName(t.status) in Utils.ClosedStatuses;
  }

  /** The state of the page that task creation changes. */
  class TasksPageState {
    var tasks: seq<Task>
    var form: TaskForm
    var dialogOpen: bool

    constructor()
      ensures tasks == [] && form == DefaultForm && !dialogOpen
    {
      tasks := [];
      form := DefaultForm;
      dialogOpen := false;
    }

    /** `handleCreateTask`: with no user nothing happens; otherwise the form is
        inserted with the user as author and status "new". When the insert fails
        the page is left as it was; when it succeeds the dialog closes, the form
        returns to its defaults and the list is reloaded (`reloaded`). */
    method CreateTask(user: Option<string>, insertFails: bool, reloaded: seq<Task>) returns (inserted: Option<NewTaskRow>)
      modifies this
      ensures user.None? ==> inserted.None?
      ensures user.Some? ==> inserted == Some(NewTaskRow(old(form), user.value, New))
      ensures user.None? || insertFails ==>
        tasks == old(tasks) && form == old(form) && dialogOpen == old(dialogOpen)
      ensures user.Some? && !insertFails ==> tasks == reloaded && form == DefaultForm && !dialogOpen
    {
      if user.None? {
        return None;
      }
      inserted := Some(NewTaskRow(form, user.value, New));
      if insertFails {
        return;
      }
      dialogOpen := false;
      form := DefaultForm;
      tasks := reloaded;
    }
  }
}

/**
 * The tasks page: the add/edit modal's submit guard, the routing of save and
 * toggle to the store's task commands, the split of the list into active and
 * completed tasks, the collapsed preview of completed tasks, and the
 * confirmed clear-all. React state cells are the fields of `TaskBoard`;
 * `tasks` is the page's copy of the list, refreshed from the store by
 * `reload` after every command.
 */
module TasksPage {
  import opened Wrappers
  import opened Sequences
  import opened Document
  import opened Storage

  // -------- String.prototype.trim --------

  /** The characters `trim` removes: the ECMAScript WhiteSpace and LineTerminator code points. */
  const Whitespace: set<char> := {
    '\U{0009}', '\U{000A}', '\U{000B}', '\U{000C}', '\U{000D}', '\U{0020}', '\U{00A0}', '\U{1680}',
    '\U{2000}', '\U{2001}', '\U{2002}', '\U{2003}', '\U{2004}', '\U{2005}', '\U{2006}', '\U{2007}',
    '\U{2008}', '\U{2009}', '\U{200A}', '\U{2028}', '\U{2029}', '\U{202F}', '\U{205F}', '\U{3000}',
    '\U{FEFF}'
  }

  predicate IsWhitespace(c: char) {
    c in Whitespace
  }

  predicate AllWhitespace(s: string) {
    forall i :: 0 <= i < |s| ==> IsWhitespace(s[i])
  }

  /** `s` without its leading whitespace. */
  function TrimStart(s: string): (r: string)
    ensures |r| <= |s| && r == s[|s| - |r|..]
    ensures forall i :: 0 <= i < |s| - |r| ==> IsWhitespace(s[i])
    ensures r != [] ==> !IsWhitespace(r[0])
    decreases |s|
  {
    if s != [] && IsWhitespace(s[0]) then TrimStart(s[1..]) else s
  }

  /** `s` without its trailing whitespace. */
  function TrimEnd(s: string): (r: string)
    ensures |r| <= |s| && r == s[..|r|]
    ensures forall i :: |r| <= i < |s| ==> IsWhitespace(s[i])
    ensures r != [] ==> !IsWhitespace(r[|r| - 1])
    decreases |s|
  {
    if s != [] && IsWhitespace(s[|s| - 1]) then TrimEnd(s[..|s| - 1]) else s
  }

  /** `r` is the slice of `s` starting at `lo`, and only whitespace lies outside it. */
  predicate IsTrimmedSlice(s: string, lo: int, r: string) {
    && 0 <= lo <= |s| - |r| && r == s[lo..lo + |r|]
    && (forall i :: 0 <= i < lo ==> IsWhitespace(s[i]))
    && (forall i :: lo + |r| <= i < |s| ==> IsWhitespace(s[i]))
  }

  /** `s.trim()`. */
  function Trim(s: string): string {
    TrimEnd(TrimStart(s))
  }

  /**
   * `trim` returns the slice of `s` between its leading and its trailing
   * whitespace: it is empty exactly when `s` is all whitespace, and otherwise
   * starts and ends with a character `trim` keeps.
   */
  lemma TrimSpec(s: string)
    ensures Trim(s) == [] <==> AllWhitespace(s)
    ensures Trim(s) != [] ==> !IsWhitespace(Trim(s)[0]) && !IsWhitespace(Trim(s)[|Trim(s)| - 1])
    ensures IsTrimmedSlice(s, |s| - |TrimStart(s)|, Trim(s))
  {
    var t := TrimStart(s);
    var r := TrimEnd(t);
    SliceBetween(s, t, r);
    if r != [] {
      assert r[0] == t[0];
    } else {
      SliceBetweenEmpty(s, |s| - |t|);
    }
  }

  /** Whitespace before the suffix `t` and after its prefix `r` is whitespace outside `r` in `s`. */
  lemma SliceBetween(s: string, t: string, r: string)
    requires |t| <= |s| && t == s[|s| - |t|..]
    requires forall i :: 0 <= i < |s| - |t| ==> IsWhitespace(s[i])
    requires |r| <= |t| && r == t[..|r|]
    requires forall i :: |r| <= i < |t| ==> IsWhitespace(t[i])
    ensures IsTrimmedSlice(s, |s| - |t|, r)
  {
    var lo := |s| - |t|;
    forall i | lo + |r| <= i < |s|
      ensures IsWhitespace(s[i])
    {
      assert s[i] == t[i - lo];
    }
  }

  lemma SliceBetweenEmpty(s: string, lo: int)
    requires IsTrimmedSlice(s, lo, [])
    ensures AllWhitespace(s)
  {
  }

  /** Trimming twice is trimming once. */
  lemma TrimIdempotent(s: string)
    ensures Trim(Trim(s)) == Trim(s)
  {
    var r := Trim(s);
    TrimSpec(s);
    if r != [] {
      assert TrimStart(r) == r;
      assert TrimEnd(r) == r;
    }
  }

  /** A submit of the modal: the text handed to `onSave`, if any, and the modal's text afterwards. */
  datatype Submitted = Submitted(saved: Option<string>, remaining: string)

  /**
   * `AddTaskModal.handleSubmit`: only a text that is not all whitespace is
   * saved, and it is saved trimmed, after which the input is emptied; a
   * whitespace-only text saves nothing and stays in the input.
   */
  function HandleSubmit(text: string): (r: Submitted)
    ensures r.saved.Some? <==> !AllWhitespace(text)
    ensures r.saved.Some? ==> r.saved.value == Trim(text) && r.remaining == ""
    ensures r.saved.Some? ==> r.saved.value != [] && Trim(r.saved.value) == r.saved.value
    ensures r.saved.None? ==> r.remaining == text
  {
    var trimmed := Trim(text);
    TrimSpec(text);
    TrimIdempotent(text);
    if trimmed != [] then Submitted(Some(trimmed), "") else Submitted(None, text)
  }

  // -------- The derived lists --------

  function ActiveTasks(tasks: seq<Task>): seq<Task> {
    Filter(tasks, IsActive)
  }

  function CompletedTasks(tasks: seq<Task>): seq<Task> {
    Filter(tasks, IsDone)
  }

  /**
   * The active and the completed tasks partition the list: together they hold
   * each task as often as the list does, each holds exactly the tasks of its
   * kind, and each keeps the list's order.
   */
  lemma PartitionTasks(tasks: seq<Task>)
    ensures multiset(ActiveTasks(tasks)) + multiset(CompletedTasks(tasks)) == multiset(tasks)
    ensures |ActiveTasks(tasks)| + |CompletedTasks(tasks)| == |tasks|
    ensures forall i :: 0 <= i < |ActiveTasks(tasks)| ==> !ActiveTasks(tasks)[i].done
    ensures forall i :: 0 <= i < |CompletedTasks(tasks)| ==> CompletedTasks(tasks)[i].done
    ensures forall i :: 0 <= i < |tasks| ==>
      (tasks[i] in ActiveTasks(tasks) <==> !tasks[i].done) && (tasks[i] in CompletedTasks(tasks) <==> tasks[i].done)
    ensures Subsequence(ActiveTasks(tasks), tasks) && Subsequence(CompletedTasks(tasks), tasks)
  {
    FilterSplit(tasks, IsActive, IsDone);
    FilterSubsequence(tasks, IsActive);
    FilterSubsequence(tasks, IsDone);
  }

  /** `COMPLETED_PREVIEW_COUNT`. */
  const CompletedPreviewCount: nat := 3

  /** `completedToShow`: everything when expanded, otherwise the first few, as `slice(0, 3)` takes them. */
  function CompletedToShow(completed: seq<Task>, showAll: bool): (r: seq<Task>)
    ensures showAll ==> r == completed
    ensures !showAll ==>
      |r| == (if |completed| < CompletedPreviewCount then |completed| else CompletedPreviewCount)
      && r == completed[..|r|]
  {
    if showAll || |completed| <= CompletedPreviewCount then completed else completed[..CompletedPreviewCount]
  }

  /** `hiddenCount`: how many completed tasks the preview leaves out. */
  function HiddenCount(completed: seq<Task>, showAll: bool): (h: int)
    ensures h >= 0
    ensures showAll ==> h == 0
    ensures !showAll ==> h == if |completed| > CompletedPreviewCount then |completed| - CompletedPreviewCount else 0
    ensures |CompletedToShow(completed, showAll)| + h == |completed|
  {
    |completed| - |CompletedToShow(completed, showAll)|
  }

  /** The label of the expand/collapse button: `Show Less`, or `Load more (n left hidden)`. */
  datatype ToggleLabel = ShowLess | LoadMore(hidden: int)

  function Label(completed: seq<Task>, showAll: bool): ToggleLabel {
    if showAll then ShowLess else LoadMore(HiddenCount(completed, showAll))
  }

  /**
   * The expand/collapse button under the completed tasks, as written: it is
   * rendered only while `hiddenCount > 0`.
   */
  function ToggleButtonAsWritten(completed: seq<Task>, showAll: bool): (r: Option<ToggleLabel>)
    ensures r.Some? <==> !showAll && |completed| > CompletedPreviewCount
    ensures r.Some? ==> r.value == LoadMore(|completed| - CompletedPreviewCount)
  {
    if HiddenCount(completed, showAll) > 0 then Some(Label(completed, showAll)) else None
  }

  /** Once expanded, the button disappears: `Show Less` is never rendered, however many tasks there are. */
  lemma ShowLessNeverRendered(completed: seq<Task>)
    ensures ToggleButtonAsWritten(completed, true) == None
    ensures forall showAll: bool :: ToggleButtonAsWritten(completed, showAll) != Some(ShowLess)
  {
  }

  /** The button as evidently intended: shown whenever the preview can cut something off. */
  function ToggleButton(completed: seq<Task>, showAll: bool): (r: Option<ToggleLabel>)
    ensures r.Some? <==> |completed| > CompletedPreviewCount
    ensures r.Some? && showAll ==> r.value == ShowLess
    ensures r.Some? && !showAll ==> r.value == LoadMore(|completed| - CompletedPreviewCount)
  {
    if |completed| > CompletedPreviewCount then Some(Label(completed, showAll)) else None
  }

  /**
   * With the intended button, expanding and collapsing are both reachable:
   * from either state the button is there, expanded it reads `Show Less`, and
   * collapsed it counts exactly the tasks past the preview.
   */
  lemma ToggleButtonRoundTrip(completed: seq<Task>, showAll: bool)
    requires |completed| > CompletedPreviewCount
    ensures ToggleButton(completed, showAll).Some? && ToggleButton(completed, !showAll).Some?
    ensures ToggleButton(completed, true) == Some(ShowLess)
    ensures ToggleButton(completed, false) == Some(LoadMore(|completed| - CompletedPreviewCount))
    ensures |completed| - CompletedPreviewCount > 0
  {
  }

  /** `if (editingId)`: an id that is null or the empty string means "adding". */
  predicate IsEditing(editingId: Option<Id>) {
    editingId.Some? && editingId.value != ""
  }

  // -------- The page state --------

  class TaskBoard {
    const store: Store
    var tasks: seq<Task>
    var modalOpen: bool
    var editingId: Option<Id>
    var showAllCompleted: bool
    var clearAllModalOpen: bool

    /** The page after its mount effect has loaded the task list. */
    constructor Mount(store: Store)
      ensures this.store == store && tasks == store.tasks
      ensures !modalOpen && editingId == None && !showAllCompleted && !clearAllModalOpen
    {
      this.store := store;
      tasks := store.tasks;
      modalOpen := false;
      editingId := None;
      showAllCompleted := false;
      clearAllModalOpen := false;
    }

    /**
     * `handleSave(text)`: while editing, the text is written to the edited
     * task and nothing else about it; otherwise a new task is added. The list
     * is then reloaded and the modal is closed with no task being edited.
     */
    method HandleSave(text: string, id: Id, now: Timestamp)
      modifies this, store
      ensures IsEditing(old(editingId)) ==>
        store.tasks == UpdateTaskSpec(old(store.tasks), old(editingId).value, TaskUpdate(Some(text), None), now).list
      ensures !IsEditing(old(editingId)) ==> store.tasks == [Task(id, text, false, now, now)] + old(store.tasks)
      ensures store.sessions == old(store.sessions) && store.unfinished == old(store.unfinished)
      ensures tasks == store.tasks && !modalOpen && editingId == None
      ensures showAllCompleted == old(showAllCompleted) && clearAllModalOpen == old(clearAllModalOpen)
      ensures old(store.Valid()) && (IsEditing(old(editingId)) || !old(store.HasTask(id))) ==> store.Valid()
    {
      if IsEditing(editingId) {
        var _ := store.UpdateTask(editingId.value, TaskUpdate(Some(text), None), now);
      } else {
        var _ := store.AddTask(text, id, now);
      }
      tasks := store.tasks;
      modalOpen := false;
      editingId := None;
    }

    /** `handleToggle(id, done)`: sets `done` on that task and nothing else about it, then reloads. */
    method HandleToggle(taskId: Id, done: bool, now: Timestamp)
      modifies this, store
      ensures store.tasks == UpdateTaskSpec(old(store.tasks), taskId, TaskUpdate(None, Some(done)), now).list
      ensures store.sessions == old(store.sessions) && store.unfinished == old(store.unfinished)
      ensures tasks == store.tasks
      ensures modalOpen == old(modalOpen) && editingId == old(editingId)
      ensures showAllCompleted == old(showAllCompleted) && clearAllModalOpen == old(clearAllModalOpen)
      ensures old(store.Valid()) ==> store.Valid()
    {
      var _ := store.UpdateTask(taskId, TaskUpdate(None, Some(done)), now);
      tasks := store.tasks;
    }

    /** `handleDelete(id)`: only a confirmed delete removes the task and reloads; `confirmed` is the dialog's answer. */
    method HandleDelete(taskId: Id, confirmed: bool)
      modifies this, store
      ensures confirmed ==> store.tasks == Filter(old(store.tasks), TaskIdIsNot(taskId)) && tasks == store.tasks
      ensures !confirmed ==> unchanged(this) && unchanged(store)
      ensures store.sessions == old(store.sessions) && store.unfinished == old(store.unfinished)
      ensures modalOpen == old(modalOpen) && editingId == old(editingId)
      ensures showAllCompleted == old(showAllCompleted) && clearAllModalOpen == old(clearAllModalOpen)
      ensures old(store.Valid()) ==> store.Valid()
    {
      if confirmed {
        var _ := store.DeleteTask(taskId);
        tasks := store.tasks;
      }
    }

    /**
     * `onConfirmClearAll`: the completed tasks are removed, the active ones
     * stay in their order, the preview collapses and the dialog closes.
     */
    method OnConfirmClearAll()
      modifies this, store
      ensures store.tasks == ActiveTasks(old(store.tasks)) && tasks == store.tasks
      ensures CompletedTasks(tasks) == [] && ActiveTasks(tasks) == ActiveTasks(old(store.tasks))
      ensures store.sessions == old(store.sessions) && store.unfinished == old(store.unfinished)
      ensures !showAllCompleted && !clearAllModalOpen
      ensures modalOpen == old(modalOpen) && editingId == old(editingId)
      ensures old(store.Valid()) ==> store.Valid()
    {
      store.ClearCompletedTasks();
      ClearedHasNoCompleted(old(store.tasks));
      tasks := store.tasks;
      showAllCompleted := false;
      clearAllModalOpen := false;
    }
  }

  /** Clearing completed tasks leaves no completed task and exactly the active ones. */
  lemma ClearedHasNoCompleted(tasks: seq<Task>)
    ensures CompletedTasks(ActiveTasks(tasks)) == []
    ensures ActiveTasks(ActiveTasks(tasks)) == ActiveTasks(tasks)
  {
    FilterFilter(tasks, IsActive, IsDone, (t: Task) => false);
    FilterKeepsAll(ActiveTasks(tasks), IsActive);
    NothingPasses(tasks);
  }

  lemma {:induction false} NothingPasses(tasks: seq<Task>)
    ensures Filter(tasks, (t: Task) => false) == []
    decreases |tasks|
  {
    if tasks != [] {
      NothingPasses(tasks[1..]);
    }
  }
}

/**
 * The local document store: the task and session repositories, the
 * unfinished-session slot and the read-only aggregates.
 *
 * A `Store` holds the document as last saved. Every command of the source
 * loads the document, changes it and saves it whole; because loading what
 * was saved gives back the same document (`Document.LoadSaveRoundTrip`),
 * each command here starts from the fields and leaves in them what it saved.
 * A command that does not call `saveData` leaves the fields as they were.
 */
module Storage {
  import opened Wrappers
  import opened Sequences
  import opened Document
  import opened Calendar
  import opened Aggregates

  /** `Partial<Pick<Task, "text" | "done">>`. */
  datatype TaskUpdate = TaskUpdate(text: Option<string>, done: Option<bool>)

  /** `Partial<Pick<Session, "start" | "end">>`; a field that is absent or falsy is `None`. */
  datatype SessionUpdate = SessionUpdate(start: Option<Timestamp>, end: Option<Timestamp>)

  /** What an update returns (`null` is `None`) and the list it leaves. */
  datatype Updated<T> = Updated(result: Option<T>, list: seq<T>)

  /** The update gives some field a value different from the one it has. */
  predicate Changes(t: Task, u: TaskUpdate) {
    (u.text.Some? && u.text.value != t.text) || (u.done.Some? && u.done.value != t.done)
  }

  /**
   * `updateTask(id, u)` on the task list `tasks` at time `now`: null for an
   * unknown id; the task itself, with the list untouched, when nothing
   * differs; otherwise the edited task with a fresh `updatedAt`, moved to
   * the head.
   */
  function UpdateTaskSpec(tasks: seq<Task>, id: Id, u: TaskUpdate, now: Timestamp): (r: Updated<Task>)
    ensures r.result.None? <==> !HasKey(tasks, TaskId, id)
    ensures r.result.None? ==> r.list == tasks
    ensures r.result.Some? ==>
      var i := FirstIndex(tasks, TaskId, id).value;
      var was := tasks[i];
      var t := r.result.value;
      && t.id == id && t.createdAt == was.createdAt
      && t.text == u.text.GetOr(was.text) && t.done == u.done.GetOr(was.done)
      && (!Changes(was, u) ==> t == was && r.list == tasks)
      && (Changes(was, u) ==> t.updatedAt == now && r.list == MoveToFront(tasks, i, t))
  {
    match FirstIndex(tasks, TaskId, id)
    case None => Updated(None, tasks)
    case Some(i) =>
      var was := tasks[i];
      if !Changes(was, u) then Updated(Some(was), tasks)
      else
        var t := was.(text := u.text.GetOr(was.text), done := u.done.GetOr(was.done), updatedAt := now);
        Updated(Some(t), MoveToFront(tasks, i, t))
  }

  /** An update never changes the number of tasks nor makes two of them share an id. */
  lemma UpdateTaskKeepsIds(tasks: seq<Task>, id: Id, u: TaskUpdate, now: Timestamp)
    ensures |UpdateTaskSpec(tasks, id, u, now).list| == |tasks|
    ensures KeysDistinct(tasks, TaskId) ==> KeysDistinct(UpdateTaskSpec(tasks, id, u, now).list, TaskId)
  {
    var r := UpdateTaskSpec(tasks, id, u, now);
    if r.result.Some? && KeysDistinct(tasks, TaskId) {
      var i := FirstIndex(tasks, TaskId, id).value;
      if Changes(tasks[i], u) {
        MoveToFrontKeysDistinct(tasks, i, r.result.value, TaskId);
      }
    }
  }

  /**
   * `updateSession(id, u)`: null for an unknown id; otherwise the session
   * with the given `start`/`end` merged over its own, its duration
   * recomputed from the merged pair, moved to the head even when nothing
   * changed.
   */
  function UpdateSessionSpec(sessions: seq<Session>, id: Id, u: SessionUpdate): (r: Updated<Session>)
    ensures r.result.None? <==> !HasKey(sessions, SessionId, id)
    ensures r.result.None? ==> r.list == sessions
    ensures r.result.Some? ==>
      var i := FirstIndex(sessions, SessionId, id).value;
      var was := sessions[i];
      var s := r.result.value;
      && s.id == id
      && s.start == u.start.GetOr(was.start) && s.end == u.end.GetOr(was.end)
      && s.durationSec == DurationSec(s.start, s.end)
      && r.list == MoveToFront(sessions, i, s)
  {
    match FirstIndex(sessions, SessionId, id)
    case None => Updated(None, sessions)
    case Some(i) =>
      var was := sessions[i];
      var start := u.start.GetOr(was.start);
      var end := u.end.GetOr(was.end);
      var s := Session(was.id, start, end, DurationSec(start, end));
      Updated(Some(s), MoveToFront(sessions, i, s))
  }

  /** An update never changes the number of sessions, makes two of them share an id or makes a duration negative. */
  lemma UpdateSessionKeepsInvariants(sessions: seq<Session>, id: Id, u: SessionUpdate)
    ensures |UpdateSessionSpec(sessions, id, u).list| == |sessions|
    ensures KeysDistinct(sessions, SessionId) ==> KeysDistinct(UpdateSessionSpec(sessions, id, u).list, SessionId)
    ensures All(sessions, HasNonNegativeDuration) ==> All(UpdateSessionSpec(sessions, id, u).list, HasNonNegativeDuration)
  {
    var r := UpdateSessionSpec(sessions, id, u);
    if r.result.Some? {
      var i := FirstIndex(sessions, SessionId, id).value;
      if KeysDistinct(sessions, SessionId) {
        MoveToFrontKeysDistinct(sessions, i, r.result.value, SessionId);
      }
      if All(sessions, HasNonNegativeDuration) {
        MoveToFrontAll(sessions, i, r.result.value, HasNonNegativeDuration);
      }
    }
  }

  /** `t => t.id !== id`. */
  function TaskIdIsNot(id: Id): Task -> bool {
    (t: Task) => t.id != id
  }

  /** `s => s.id !== id`. */
  function SessionIdIsNot(id: Id): Session -> bool {
    (s: Session) => s.id != id
  }

  /** The session `addSession(start, end)` creates under the fresh id `id`. */
  function NewSession(id: Id, start: Timestamp, end: Timestamp): Session {
    Session(id, start, end, DurationSec(start, end))
  }

  function HasNonNegativeDuration(s: Session): bool {
    s.durationSec >= 0
  }

  /** `sumSec / days`, exactly: the average times the divisor gives back the sum. */
  function Average(sumSec: int, days: int): (avg: real)
    requires days > 0
    ensures avg * days as real == sumSec as real
  {
    sumSec as real / days as real
  }

  class Store {
    var tasks: seq<Task>
    var sessions: seq<Session>
    var unfinished: Option<Unfinished>

    /** The invariants of the document: ids are unique in each list and no duration is negative. */
    ghost predicate Valid()
      reads this
    {
      KeysDistinct(tasks, TaskId) && KeysDistinct(sessions, SessionId) && All(sessions, HasNonNegativeDuration)
    }

    ghost predicate HasTask(id: Id)
      reads this
    {
      HasKey(tasks, TaskId, id)
    }

    ghost predicate HasSession(id: Id)
      reads this
    {
      HasKey(sessions, SessionId, id)
    }

    /** The document `loadData()` returns for what the storage key holds. */
    constructor Open(stored: Stored)
      ensures Doc(tasks, sessions, unfinished) == LoadData(stored).doc
    {
      var loaded := LoadData(stored).doc;
      tasks := loaded.tasks;
      sessions := loaded.sessions;
      unfinished := loaded.unfinished;
    }

    // -------- Task repository --------

    /** `addTask(text)` at time `now`, with `id` the fresh identifier. */
    method AddTask(text: string, id: Id, now: Timestamp) returns (task: Task)
      modifies this
      ensures task == Task(id, text, false, now, now)
      ensures tasks == [task] + old(tasks)
      ensures sessions == old(sessions) && unfinished == old(unfinished)
      ensures old(Valid()) && !old(HasTask(id)) ==> Valid()
    {
      task := Task(id, text, false, now, now);
      if Valid() && !HasTask(id) {
        PrependKeysDistinct(tasks, task, TaskId);
      }
      tasks := [task] + tasks;
    }

    /** `updateTask(id, updates)` at time `now`. */
    method UpdateTask(id: Id, updates: TaskUpdate, now: Timestamp) returns (r: Option<Task>)
      modifies this
      ensures r == UpdateTaskSpec(old(tasks), id, updates, now).result
      ensures tasks == UpdateTaskSpec(old(tasks), id, updates, now).list
      ensures sessions == old(sessions) && unfinished == old(unfinished)
      ensures old(Valid()) ==> Valid()
    {
      UpdateTaskKeepsIds(tasks, id, updates, now);
      ghost var spec := UpdateTaskSpec(tasks, id, updates, now);
      var idx := FirstIndex(tasks, TaskId, id);
      if idx.None? {
        return None;
      }
      var i := idx.value;
      var task := tasks[i];
      var changed := false;
      if updates.text.Some? && updates.text.value != task.text {
        task := task.(text := updates.text.value);
        changed := true;
      }
      if updates.done.Some? && updates.done.value != task.done {
        task := task.(done := updates.done.value);
        changed := true;
      }
      if changed {
        task := task.(updatedAt := now);
        assert task == spec.result.value;
        MoveToFrontIsSplice(tasks, i, task);
        tasks := tasks[..i] + tasks[i + 1..];
        tasks := [task] + tasks;
      }
      r := Some(task);
    }

    /** `deleteTask(id)`: true exactly when some task had the id; those tasks are gone. */
    method DeleteTask(id: Id) returns (removed: bool)
      modifies this
      ensures removed <==> old(HasTask(id))
      ensures tasks == Filter(old(tasks), TaskIdIsNot(id))
      ensures sessions == old(sessions) && unfinished == old(unfinished)
      ensures old(Valid()) ==> Valid()
    {
      var filtered := Filter(tasks, TaskIdIsNot(id));
      FilterKeepsAll(tasks, TaskIdIsNot(id));
      if Valid() {
        FilterKeysDistinct(tasks, TaskIdIsNot(id), TaskId);
      }
      if |filtered| != |tasks| {
        tasks := filtered;
        removed := true;
      } else {
        removed := false;
      }
    }

    /** `clearCompletedTasks()`: keep the tasks that are not done. */
    method ClearCompletedTasks()
      modifies this
      ensures tasks == Filter(old(tasks), IsActive)
      ensures sessions == old(sessions) && unfinished == old(unfinished)
      ensures old(Valid()) ==> Valid()
    {
      if Valid() {
        FilterKeysDistinct(tasks, IsActive, TaskId);
      }
      tasks := Filter(tasks, IsActive);
    }

    // -------- Session repository --------

    /** `addSession(start, end)`, with `id` the fresh identifier. */
    method AddSession(start: Timestamp, end: Timestamp, id: Id) returns (session: Session)
      modifies this
      ensures session == NewSession(id, start, end)
      ensures sessions == [session] + old(sessions)
      ensures tasks == old(tasks) && unfinished == old(unfinished)
      ensures old(Valid()) && !old(HasSession(id)) ==> Valid()
    {
      var durationSec := (end - start) / 1000;
      if durationSec < 0 {
        durationSec := 0;
      }
      session := Session(id, start, end, durationSec);
      if Valid() && !HasSession(id) {
        PrependKeysDistinct(sessions, session, SessionId);
      }
      sessions := [session] + sessions;
    }

    /** `updateSession(id, updates)`. */
    method UpdateSession(id: Id, updates: SessionUpdate) returns (r: Option<Session>)
      modifies this
      ensures r == UpdateSessionSpec(old(sessions), id, updates).result
      ensures sessions == UpdateSessionSpec(old(sessions), id, updates).list
      ensures tasks == old(tasks) && unfinished == old(unfinished)
      ensures old(Valid()) ==> Valid()
    {
      UpdateSessionKeepsInvariants(sessions, id, updates);
      ghost var spec := UpdateSessionSpec(sessions, id, updates);
      var idx := FirstIndex(sessions, SessionId, id);
      if idx.None? {
        return None;
      }
      var i := idx.value;
      var sess := sessions[i];
      var start := sess.start;
      var end := sess.end;
      if updates.start.Some? {
        start := updates.start.value;
      }
      if updates.end.Some? {
        end := updates.end.value;
      }
      var durationSec := (end - start) / 1000;
      if durationSec < 0 {
        durationSec := 0;
      }
      var updated := Session(sess.id, start, end, durationSec);
      assert updated == spec.result.value;
      MoveToFrontIsSplice(sessions, i, updated);
      sessions := sessions[..i] + sessions[i + 1..];
      sessions := [updated] + sessions;
      r := Some(updated);
    }

    /** `deleteSession(id)`. */
    method DeleteSession(id: Id) returns (removed: bool)
      modifies this
      ensures removed <==> old(HasSession(id))
      ensures sessions == Filter(old(sessions), SessionIdIsNot(id))
      ensures tasks == old(tasks) && unfinished == old(unfinished)
      ensures old(Valid()) ==> Valid()
    {
      var filtered := Filter(sessions, SessionIdIsNot(id));
      FilterKeepsAll(sessions, SessionIdIsNot(id));
      if Valid() {
        FilterKeysDistinct(sessions, SessionIdIsNot(id), SessionId);
        FilterAll(sessions, SessionIdIsNot(id), HasNonNegativeDuration);
      }
      if |filtered| != |sessions| {
        sessions := filtered;
        removed := true;
      } else {
        removed := false;
      }
    }

    // -------- Unfinished session slot --------

    /** `setUnfinishedSession(start)` at time `now`: overwrite the slot. */
    method SetUnfinishedSession(start: Timestamp, now: Timestamp) returns (u: Unfinished)
      modifies this
      ensures u == Unfinished(start, now) && unfinished == Some(u)
      ensures tasks == old(tasks) && sessions == old(sessions)
    {
      u := Unfinished(start, now);
      unfinished := Some(u);
    }

    /** `updateLastActive()` at time `now`: refresh `lastActive` of an existing slot only. */
    method UpdateLastActive(now: Timestamp)
      modifies this
      ensures unfinished == if old(unfinished).Some? then Some(old(unfinished).value.(lastActive := now)) else None
      ensures tasks == old(tasks) && sessions == old(sessions)
    {
      if unfinished.Some? {
        unfinished := Some(unfinished.value.(lastActive := now));
      }
    }

    /** `clearUnfinishedSession()`. */
    method ClearUnfinishedSession()
      modifies this
      ensures unfinished == None
      ensures tasks == old(tasks) && sessions == old(sessions)
    {
      if unfinished.Some? {
        unfinished := None;
      }
    }

    // -------- Aggregates --------

    /**
     * `dailyTotalsForMonth(year, month)` in the local calendar `dayOf`: each day
     * of the month on which some session started, mapped to the seconds of the
     * sessions that started on it.
     */
    method DailyTotalsForMonth(year: int, month: int, dayOf: Timestamp -> CalendarDate) returns (totals: map<int, int>)
      ensures totals == Totals(sessions, DayBucket(year, month, dayOf))
      ensures forall day :: day in totals <==>
        exists i :: 0 <= i < |sessions| && dayOf(sessions[i].start) == CalendarDate(year, month, day)
      ensures SumValues(totals) == MatchedTotal(sessions, DayBucket(year, month, dayOf))
    {
      totals := map[];
      var i := 0;
      while i < |sessions|
        invariant 0 <= i <= |sessions|
        invariant totals == Totals(sessions[..i], DayBucket(year, month, dayOf))
      {
        var s := sessions[i];
        var d := dayOf(s.start);
        if d.year == year && d.month == month {
          var day := d.day;
          totals := totals[day := (if day in totals then totals[day] else 0) + s.durationSec];
        }
        assert sessions[..i + 1][..i] == sessions[..i];
        i := i + 1;
      }
      assert sessions[..i] == sessions;
      TotalsSum(sessions, DayBucket(year, month, dayOf));
      forall day ensures day in totals <==>
        exists i :: 0 <= i < |sessions| && dayOf(sessions[i].start) == CalendarDate(year, month, day)
      {
        TotalsKeys(sessions, DayBucket(year, month, dayOf), day);
      }
    }

    /** `averageDailyForMonth(year, month)`: the month's seconds over all its calendar days. */
    method AverageDailyForMonth(year: int, month: int, dayOf: Timestamp -> CalendarDate) returns (avg: real)
      ensures avg == Average(MatchedTotal(sessions, DayBucket(year, month, dayOf)), DaysInMonthOf(year, month))
    {
      var totals := DailyTotalsForMonth(year, month, dayOf);
      var daysInMonth := DaysInMonthOf(year, month);
      var sumSec := SumValues(totals);
      avg := Average(sumSec, daysInMonth);
    }

    /**
     * `monthlyTotalsForYear(year)`: each month of the year in which some session
     * started, mapped to the seconds of the sessions that started in it.
     */
    method MonthlyTotalsForYear(year: int, dayOf: Timestamp -> CalendarDate) returns (totals: map<int, int>)
      ensures totals == Totals(sessions, MonthBucket(year, dayOf))
      ensures forall month :: month in totals <==>
        exists i :: 0 <= i < |sessions| && dayOf(sessions[i].start).year == year && dayOf(sessions[i].start).month == month
      ensures SumValues(totals) == MatchedTotal(sessions, MonthBucket(year, dayOf))
    {
      totals := map[];
      var i := 0;
      while i < |sessions|
        invariant 0 <= i <= |sessions|
        invariant totals == Totals(sessions[..i], MonthBucket(year, dayOf))
      {
        var s := sessions[i];
        var d := dayOf(s.start);
        if d.year == year {
          var m := d.month;
          totals := totals[m := (if m in totals then totals[m] else 0) + s.durationSec];
        }
        assert sessions[..i + 1][..i] == sessions[..i];
        i := i + 1;
      }
      assert sessions[..i] == sessions;
      TotalsSum(sessions, MonthBucket(year, dayOf));
      forall month ensures month in totals <==>
        exists i :: 0 <= i < |sessions| && dayOf(sessions[i].start).year == year && dayOf(sessions[i].start).month == month
      {
        TotalsKeys(sessions, MonthBucket(year, dayOf), month);
      }
    }

    /** `averageDailyForYear(year)`: the year's seconds over its 365 or 366 days. */
    method AverageDailyForYear(year: int, dayOf: Timestamp -> CalendarDate) returns (avg: real)
      ensures avg == Average(MatchedTotal(sessions, MonthBucket(year, dayOf)), DaysInYearOf(year))
    {
      var monthly := MonthlyTotalsForYear(year, dayOf);
      var sumSec := SumValues(monthly);
      var days := DaysInYearOf(year);
      avg := Average(sumSec, days);
    }
  }
}

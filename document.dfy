/**
 * The persisted document and its entities, and the load/save pair that turns
 * the stored value into a document and back.
 *
 * Timestamps are milliseconds since the epoch; the source stores them as ISO
 * strings, which represent the same instants.
 */
module Document {
  import opened Wrappers

  type Id = string
  type Timestamp = int

  datatype Task = Task(id: Id, text: string, done: bool, createdAt: Timestamp, updatedAt: Timestamp)

  datatype Session = Session(id: Id, start: Timestamp, end: Timestamp, durationSec: int)

  /** The durable trace of a work phase that has not yet become a session. */
  datatype Unfinished = Unfinished(start: Timestamp, lastActive: Timestamp)

  /** `{tasks, study: {sessions, unfinished}}`. */
  datatype Doc = Doc(tasks: seq<Task>, sessions: seq<Session>, unfinished: Option<Unfinished>)

  function TaskId(t: Task): Id { t.id }
  function SessionId(s: Session): Id { s.id }
  function IsActive(t: Task): bool { !t.done }
  function IsDone(t: Task): bool { t.done }

  /** `defaultData()`. */
  function DefaultData(): Doc {
    Doc([], [], None)
  }

  /**
   * `Math.floor((end - start) / 1000)`, clamped at 0. Dafny's `/` with a
   * positive divisor rounds toward negative infinity, as `Math.floor` does.
   */
  function DurationSec(start: Timestamp, end: Timestamp): (d: int)
    ensures d >= 0
    ensures start <= end ==> d * 1000 <= end - start < d * 1000 + 1000
    ensures end < start ==> d == 0
  {
    var whole := (end - start) / 1000;
    if whole < 0 then 0 else whole
  }

  // ---- The stored value, after JSON.parse ----

  /**
   * A stored `unfinished` object. A field is `None` when it is absent or falsy,
   * which is what `u.start && u.lastActive` tests.
   */
  datatype RawUnfinished = RawUnfinished(start: Option<Timestamp>, lastActive: Option<Timestamp>)

  /** `sessions` is `None` unless it is an array; `unfinished` is `None` unless it is a truthy object. */
  datatype RawStudy = RawStudy(sessions: Option<seq<Session>>, unfinished: Option<RawUnfinished>)

  /** `tasks` is `None` unless it is an array; `study` is `None` unless it is truthy. */
  datatype RawDoc = RawDoc(tasks: Option<seq<Task>>, study: Option<RawStudy>)

  /**
   * What the storage key holds: nothing (or the empty string), a value whose
   * decoding throws, or a parsed value. Decoding throws on text `JSON.parse`
   * rejects, on `null` (reading `.tasks` of it), and on a `null` element of
   * `tasks` or of `study.sessions` (reading `.id` of it); every such value is
   * `Unparseable` and resets the whole document.
   */
  datatype Stored = Missing | Unparseable | Parsed(raw: RawDoc)

  /** The loaded document, and whether loading wrote the default document back. */
  datatype Loaded = Loaded(doc: Doc, reset: bool)

  /** The `unfinished` slot a loaded document gets from `study`. */
  function LoadUnfinished(study: RawStudy): Option<Unfinished> {
    match study.unfinished
    case Some(RawUnfinished(Some(start), Some(lastActive))) => Some(Unfinished(start, lastActive))
    case _ => None
  }

  /**
   * `loadData()`: missing or unparseable data yields the default document,
   * which is also persisted; otherwise every part is taken from the stored
   * value where it has the right shape and defaulted where it has not.
   */
  function LoadData(stored: Stored): (r: Loaded)
    ensures r.reset <==> !stored.Parsed?
    ensures r.reset ==> r.doc == DefaultData()
    ensures stored.Parsed? ==>
      r.doc.tasks == stored.raw.tasks.GetOr([]) &&
      r.doc.sessions == (if stored.raw.study.Some? then stored.raw.study.value.sessions.GetOr([]) else [])
    ensures r.doc.unfinished.Some? <==>
      stored.Parsed? && stored.raw.study.Some? && stored.raw.study.value.unfinished.Some? &&
      stored.raw.study.value.unfinished.value.start.Some? &&
      stored.raw.study.value.unfinished.value.lastActive.Some?
    ensures r.doc.unfinished.Some? ==>
      r.doc.unfinished.value.start == stored.raw.study.value.unfinished.value.start.value &&
      r.doc.unfinished.value.lastActive == stored.raw.study.value.unfinished.value.lastActive.value
  {
    match stored
    case Missing => Loaded(DefaultData(), true)
    case Unparseable => Loaded(DefaultData(), true)
    case Parsed(raw) =>
      var base := DefaultData();
      var tasks := if raw.tasks.Some? then raw.tasks.value else base.tasks;
      var study :=
        if raw.study.Some? then
          (if raw.study.value.sessions.Some? then raw.study.value.sessions.value else base.sessions,
           LoadUnfinished(raw.study.value))
        else (base.sessions, base.unfinished);
      Loaded(Doc(tasks, study.0, study.1), false)
  }

  /** `saveData(d)`: the value `JSON.stringify` writes for `d`, as it parses back. */
  function SaveData(d: Doc): RawDoc {
    var unfinished :=
      match d.unfinished
      case None => None
      case Some(u) => Some(RawUnfinished(Some(u.start), Some(u.lastActive)));
    RawDoc(Some(d.tasks), Some(RawStudy(Some(d.sessions), unfinished)))
  }

  /** Loading what was saved gives back the saved document and writes nothing. */
  lemma LoadSaveRoundTrip(d: Doc)
    ensures LoadData(Parsed(SaveData(d))) == Loaded(d, false)
  {
  }

  /** After the default has been written back, the next load reads the default and writes nothing. */
  lemma ResetIsStable(stored: Stored)
    requires LoadData(stored).reset
    ensures LoadData(Parsed(SaveData(LoadData(stored).doc))) == Loaded(DefaultData(), false)
  {
  }
}

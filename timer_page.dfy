/**
 * The Pomodoro timer page: two presets, a work/break phase machine driven by
 * a one-second tick, and the store commands each transition issues.
 *
 * React state setters become field assignments made in program order, each
 * effect and handler becomes a method, and the current time is the `now`
 * parameter. `Mount` is the mount-recovery effect; `Tick` is the body of the
 * interval; `CheckExpiry` is the effect that watches `timeLeft`.
 */
module TimerPage {
  import opened Wrappers
  import opened Document
  import opened Storage

  datatype Preset = Preset(caption: string, work: int, rest: int)

  /** The two configurations, in seconds. */
  const Presets: seq<Preset> := [Preset("25/5", 25 * 60, 5 * 60), Preset("50/10", 50 * 60, 10 * 60)]

  /** Two presets, `25/5` and `50/10` minutes: each break lasts a fifth of its work phase, in whole minutes. */
  lemma PresetTimes()
    ensures |Presets| == 2
    ensures Presets[0].caption == "25/5" && Presets[0].work == 1500 && Presets[0].rest == 300
    ensures Presets[1].caption == "50/10" && Presets[1].work == 3000 && Presets[1].rest == 600
    ensures forall i: PresetIndex :: Presets[i].work == 5 * Presets[i].rest && Presets[i].rest % 60 == 0
  {
  }

  /** An index of a preset button. */
  type PresetIndex = i: int | 0 <= i < |Presets|

  /** The cue the page plays (a tone and a spoken sentence) when a phase runs out. */
  datatype Signal = WorkComplete | BreakComplete

  /** The engine's phase, derived from its fields. */
  datatype Phase = NoPreset | Stopped(preset: PresetIndex) | Working(preset: PresetIndex) | OnBreak(preset: PresetIndex)

  /** The sessions after the open work session `u`, if any, is recorded as ending at `end` under the fresh id `id`. */
  function Finalized(sessions: seq<Session>, u: Option<Unfinished>, end: Timestamp, id: Id): seq<Session> {
    match u
    case None => sessions
    case Some(w) => [NewSession(id, w.start, end)] + sessions
  }

  /** The unfinished slot after a heartbeat at `now`: only `lastActive` moves, and an empty slot stays empty. */
  function Heartbeat(u: Option<Unfinished>, now: Timestamp): Option<Unfinished> {
    match u
    case None => None
    case Some(w) => Some(w.(lastActive := now))
  }

  // -------- formatTime --------

  predicate IsDigit(c: char) {
    '0' <= c <= '9'
  }

  predicate AllDigits(s: string) {
    forall i :: 0 <= i < |s| ==> IsDigit(s[i])
  }

  function DigitChar(d: int): (c: char)
    requires 0 <= d < 10
    ensures IsDigit(c) && c as int - '0' as int == d
  {
    ('0' as int + d) as char
  }

  /** The number a string of decimal digits denotes. */
  function DigitsValue(s: string): nat
    requires AllDigits(s)
    decreases |s|
  {
    if s == [] then 0
    else DigitsValue(s[..|s| - 1]) * 10 + (s[|s| - 1] as int - '0' as int)
  }

  /** `n.toString()` for a natural number: its decimal digits, without leading zeros. */
  function Decimal(n: nat): (s: string)
    ensures 1 <= |s| && AllDigits(s) && DigitsValue(s) == n
    ensures |s| <= 2 <==> n < 100
    ensures s[0] == '0' ==> n == 0
    decreases n
  {
    if n < 10 then [DigitChar(n)]
    else
      var high := Decimal(n / 10);
      var s := high + [DigitChar(n % 10)];
      assert s[..|s| - 1] == high;
      s
  }

  function Zeros(k: nat): (z: string)
    ensures |z| == k && AllDigits(z)
  {
    seq(k, _ => '0')
  }

  /** Leading zeros do not change the number a digit string denotes. */
  lemma {:induction false} LeadingZeros(k: nat, s: string)
    requires AllDigits(s)
    ensures AllDigits(Zeros(k) + s) && DigitsValue(Zeros(k) + s) == DigitsValue(s)
    decreases |s|
  {
    var z := Zeros(k);
    if s == [] {
      assert z + s == z;
      ZerosValue(k);
    } else {
      var init := s[..|s| - 1];
      LeadingZeros(k, init);
      assert (z + s)[..|z + s| - 1] == z + init;
    }
  }

  lemma {:induction false} ZerosValue(k: nat)
    ensures DigitsValue(Zeros(k)) == 0
    decreases k
  {
    if k > 0 {
      assert Zeros(k)[..k - 1] == Zeros(k - 1);
      ZerosValue(k - 1);
    }
  }

  /** `s.padStart(2, "0")`. */
  function PadStart2(s: string): (r: string)
    ensures |r| == if |s| < 2 then 2 else |s|
    ensures r == Zeros(|r| - |s|) + s
  {
    if |s| >= 2 then s else Zeros(2 - |s|) + s
  }

  /** `formatTime(sec)` for `sec >= 0`: minutes, a colon, then seconds, each padded to two digits. */
  function FormatTime(sec: nat): string {
    Clock(PadStart2(Decimal(sec / 60)), PadStart2(Decimal(sec % 60)))
  }

  /** The template `${m}:${s}`. */
  function Clock(m: string, s: string): string {
    m + ":" + s
  }

  /** With a two-character seconds part, the clock text splits back into its parts at the third character from the end. */
  lemma ClockParts(m: string, s: string)
    requires |s| == 2
    ensures var r := Clock(m, s);
      && |r| == |m| + 3 && r[|r| - 3] == ':' && r[..|r| - 3] == m && r[|r| - 2..] == s
  {
    var head := m + ":";
    assert Clock(m, s)[..|head|] == head;
    assert head[..|m|] == m;
  }

  /**
   * Reading a clock text back: the digits before the colon third from the
   * end are minutes, the two digits after it seconds; anything else is not a
   * clock text.
   */
  function ParseClock(r: string): Option<nat> {
    if |r| >= 3 && r[|r| - 3] == ':' && AllDigits(r[..|r| - 3]) && AllDigits(r[|r| - 2..]) then
      Some(DigitsValue(r[..|r| - 3]) * 60 + DigitsValue(r[|r| - 2..]))
    else
      None
  }

  /** A clock text with a two-character seconds part reads back through its two parts. */
  lemma ParseClockParts(m: string, s: string)
    requires |s| == 2 && AllDigits(m) && AllDigits(s)
    ensures ParseClock(Clock(m, s)) == Some(DigitsValue(m) * 60 + DigitsValue(s))
  {
    var r := Clock(m, s);
    ClockParts(m, s);
    assert r[..|r| - 3] == m;
    assert r[|r| - 2..] == s;
  }

  /**
   * The clock reads back: parsing `formatTime(sec)` gives `sec` again, and
   * below 100 minutes the text is `MM:SS`. `FormatTimeParts` states what the
   * two parts of the text are.
   */
  lemma FormatTimeReadsBack(sec: nat)
    ensures ParseClock(FormatTime(sec)) == Some(sec)
    ensures var r := FormatTime(sec); |r| >= 5 && (sec < 6000 <==> |r| == 5)
  {
    var mm := PadStart2(Decimal(sec / 60));
    var ss := PadStart2(Decimal(sec % 60));
    PaddedDecimal(sec / 60);
    PaddedDecimal(sec % 60);
    ParseClockParts(mm, ss);
    ClockParts(mm, ss);
    assert sec / 60 < 100 <==> sec < 6000;
  }

  /**
   * The text is the padded minutes, the colon third from the end, and the
   * padded seconds, which are exactly two digits denoting `sec % 60`.
   */
  lemma FormatTimeParts(sec: nat)
    ensures var r := FormatTime(sec);
      && |r| >= 5 && r[|r| - 3] == ':'
      && r[..|r| - 3] == PadStart2(Decimal(sec / 60))
      && r[|r| - 2..] == PadStart2(Decimal(sec % 60))
    ensures var ss := PadStart2(Decimal(sec % 60));
      |ss| == 2 && AllDigits(ss) && DigitsValue(ss) == sec % 60 < 60
  {
    var mm := PadStart2(Decimal(sec / 60));
    var ss := PadStart2(Decimal(sec % 60));
    PaddedDecimal(sec % 60);
    ClockParts(mm, ss);
  }

  /** A number padded to two digits still denotes that number, and takes exactly two digits below 100. */
  lemma PaddedDecimal(n: nat)
    ensures var p := PadStart2(Decimal(n));
      && |p| >= 2 && AllDigits(p) && DigitsValue(p) == n
      && (|p| == 2 <==> n < 100)
  {
    var d := Decimal(n);
    LeadingZeros(|PadStart2(d)| - |d|, d);
  }

  /** The clock at zero. */
  lemma FormatTimeZero()
    ensures FormatTime(0) == "00:00"
  {
    var zero := PadStart2(Decimal(0));
    assert Decimal(0) == ['0'];
    assert Zeros(1) == ['0'];
    assert zero == ['0', '0'];
    assert FormatTime(0) == Clock(zero, zero);
  }

  /** `formatTime(Math.max(timeLeft, 0))`: the display never shows a negative time. */
  function DisplayTime(timeLeft: int): (r: string)
    ensures timeLeft <= 0 ==> r == "00:00"
    ensures timeLeft >= 0 ==> r == FormatTime(timeLeft)
  {
    FormatTimeZero();
    FormatTime(if timeLeft < 0 then 0 else timeLeft)
  }

  /**
   * The status line under the clock. Each of the four texts names exactly one
   * combination of running, phase and preset choice.
   */
  function StatusLine(isRunning: bool, isWorkPhase: bool, hasPreset: bool): (r: string)
    ensures r == "Work phase" <==> isRunning && isWorkPhase
    ensures r == "Break phase" <==> isRunning && !isWorkPhase
    ensures r == "Paused" <==> !isRunning && hasPreset
    ensures r == "Select a preset to start" <==> !isRunning && !hasPreset
  {
    if isRunning then (if isWorkPhase then "Work phase" else "Break phase")
    else if hasPreset then "Paused"
    else "Select a preset to start"
  }

  // -------- The phase machine --------

  class Timer {
    const store: Store
    var presetIndex: Option<PresetIndex>
    var isRunning: bool
    var isWorkPhase: bool
    var timeLeft: int

    /**
     * A running timer has a preset, a stopped one is in the work phase, and the
     * unfinished slot is filled exactly while a work phase runs.
     */
    ghost predicate Valid()
      reads this, store
    {
      && (isRunning ==> presetIndex.Some?)
      && (!isRunning ==> isWorkPhase)
      && (store.unfinished.Some? <==> isRunning && isWorkPhase)
    }

    ghost function Phase(): Phase
      reads this
    {
      match presetIndex
      case None => NoPreset
      case Some(i) => if !isRunning then Stopped(i) else if isWorkPhase then Working(i) else OnBreak(i)
    }

    /**
     * The initial state, after the mount effect: a work session left open by an
     * earlier run is recorded as ending at its last heartbeat, and the slot is
     * cleared.
     */
    constructor Mount(store: Store, id: Id)
      modifies store
      ensures this.store == store
      ensures presetIndex == None && !isRunning && isWorkPhase && timeLeft == 0 && Phase() == NoPreset
      ensures store.unfinished == None && store.tasks == old(store.tasks)
      ensures store.sessions ==
        if old(store.unfinished).Some? then Finalized(old(store.sessions), old(store.unfinished), old(store.unfinished).value.lastActive, id)
        else old(store.sessions)
      ensures Valid()
      ensures old(store.Valid()) && !old(store.HasSession(id)) ==> store.Valid()
    {
      this.store := store;
      presetIndex := None;
      isRunning := false;
      isWorkPhase := true;
      timeLeft := 0;
      new;
      var unfinished := store.unfinished;
      if unfinished.Some? {
        var _ := store.AddSession(unfinished.value.start, unfinished.value.lastActive, id);
        store.ClearUnfinishedSession();
      }
    }

    /** One firing of the interval, which exists only while the timer runs. */
    method Tick(now: Timestamp)
      requires isRunning
      modifies this, store
      ensures timeLeft == old(timeLeft) - 1
      ensures presetIndex == old(presetIndex) && isRunning && isWorkPhase == old(isWorkPhase)
      ensures store.tasks == old(store.tasks) && store.sessions == old(store.sessions)
      ensures isWorkPhase ==> store.unfinished == Heartbeat(old(store.unfinished), now)
      ensures !isWorkPhase ==> unchanged(store)
      ensures old(Valid()) ==> Valid()
    {
      timeLeft := timeLeft - 1;
      if isWorkPhase {
        store.UpdateLastActive(now);
      }
    }

    /**
     * The effect on `timeLeft`: when a running phase has run out, a timer
     * without a preset stops; a work phase is recorded as a session ending
     * `now` and a break begins; a break ends in a new work phase with a fresh
     * unfinished slot. `id` is the fresh identifier of a recorded session.
     */
    method CheckExpiry(now: Timestamp, id: Id) returns (signal: Option<Signal>)
      modifies this, store
      ensures store.tasks == old(store.tasks)
      ensures !old(isRunning) || old(timeLeft) > 0 ==>
        signal == None && unchanged(this) && unchanged(store)
      ensures old(isRunning) && old(timeLeft) <= 0 && old(presetIndex).None? ==>
        && signal == None && !isRunning && isWorkPhase
        && presetIndex == None && timeLeft == old(timeLeft) && unchanged(store)
      ensures old(isRunning) && old(timeLeft) <= 0 && old(presetIndex).Some? && old(isWorkPhase) ==>
        && signal == Some(WorkComplete)
        && presetIndex == old(presetIndex) && isRunning && !isWorkPhase
        && timeLeft == Presets[presetIndex.value].rest
        && store.sessions == Finalized(old(store.sessions), old(store.unfinished), now, id)
        && store.unfinished == None
      ensures old(isRunning) && old(timeLeft) <= 0 && old(presetIndex).Some? && !old(isWorkPhase) ==>
        && signal == Some(BreakComplete)
        && presetIndex == old(presetIndex) && isRunning && isWorkPhase
        && timeLeft == Presets[presetIndex.value].work
        && store.sessions == old(store.sessions)
        && store.unfinished == Some(Unfinished(now, now))
      ensures old(Valid()) ==> Valid()
      ensures old(store.Valid()) && !old(store.HasSession(id)) ==> store.Valid()
    {
      signal := None;
      if !isRunning {
        return;
      }
      if timeLeft <= 0 {
        if presetIndex.None? {
          isRunning := false;
          isWorkPhase := true;
          return;
        }
        var preset := Presets[presetIndex.value];
        if isWorkPhase {
          signal := Some(WorkComplete);
          var unfinished := store.unfinished;
          if unfinished.Some? {
            var _ := store.AddSession(unfinished.value.start, now, id);
            store.ClearUnfinishedSession();
          }
          isWorkPhase := false;
          timeLeft := preset.rest;
        } else {
          signal := Some(BreakComplete);
          isWorkPhase := true;
          var _ := store.SetUnfinishedSession(now, now);
          timeLeft := preset.work;
        }
      }
    }

    /**
     * `handleStop`: a running work phase is recorded as a session ending `now`;
     * the timer then stops in the work phase and keeps its preset.
     */
    method HandleStop(now: Timestamp, id: Id)
      modifies this, store
      ensures !isRunning && isWorkPhase && presetIndex == old(presetIndex) && timeLeft == old(timeLeft)
      ensures store.tasks == old(store.tasks)
      ensures old(isRunning && isWorkPhase) ==>
        store.sessions == Finalized(old(store.sessions), old(store.unfinished), now, id) && store.unfinished == None
      ensures !old(isRunning && isWorkPhase) ==> unchanged(store)
      ensures old(Valid()) ==> Valid() && Phase() == (if presetIndex.Some? then Stopped(presetIndex.value) else NoPreset)
      ensures old(store.Valid()) && !old(store.HasSession(id)) ==> store.Valid()
    {
      if isRunning && isWorkPhase {
        var unfinished := store.unfinished;
        if unfinished.Some? {
          var _ := store.AddSession(unfinished.value.start, now, id);
          store.ClearUnfinishedSession();
        }
      }
      isRunning := false;
      isWorkPhase := true;
    }

    /**
     * `handlePresetClick(index)`: a running timer is stopped first, so an open
     * work session is recorded before the switch; then a work phase of the
     * chosen preset starts with a fresh unfinished slot.
     */
    method HandlePresetClick(index: PresetIndex, now: Timestamp, id: Id)
      modifies this, store
      ensures presetIndex == Some(index) && isRunning && isWorkPhase && timeLeft == Presets[index].work
      ensures Phase() == Working(index) && Valid()
      ensures store.unfinished == Some(Unfinished(now, now)) && store.tasks == old(store.tasks)
      ensures store.sessions ==
        if old(isRunning && isWorkPhase) then Finalized(old(store.sessions), old(store.unfinished), now, id)
        else old(store.sessions)
      ensures old(store.Valid()) && !old(store.HasSession(id)) ==> store.Valid()
    {
      if isRunning {
        HandleStop(now, id);
      }
      presetIndex := Some(index);
      var _ := store.SetUnfinishedSession(now, now);
      isWorkPhase := true;
      isRunning := true;
      timeLeft := Presets[index].work;
    }

    /** The Start button, shown only while the timer is stopped: resume work with the kept preset. */
    method Start(now: Timestamp)
      requires !isRunning
      modifies this, store
      ensures presetIndex == old(presetIndex)
      ensures presetIndex.None? ==> unchanged(this) && unchanged(store)
      ensures presetIndex.Some? ==>
        && isRunning && isWorkPhase && timeLeft == Presets[presetIndex.value].work
        && store.unfinished == Some(Unfinished(now, now))
        && store.tasks == old(store.tasks) && store.sessions == old(store.sessions)
        && Phase() == Working(presetIndex.value) && Valid()
    {
      if presetIndex.Some? {
        var _ := store.SetUnfinishedSession(now, now);
        isWorkPhase := true;
        isRunning := true;
        timeLeft := Presets[presetIndex.value].work;
      }
    }
  }

  // -------- Whole phases, second by second --------

  /**
   * A work phase of the running preset that starts at `t0` and runs to its
   * end: one tick per second, each followed by the expiry effect. Exactly
   * one session is recorded, from `t0` to the last second, lasting the
   * preset's whole work time, and the break begins.
   */
  method RunWorkPhase(timer: Timer, t0: Timestamp, id: Id) returns (signal: Option<Signal>)
    requires timer.Valid() && timer.isRunning && timer.isWorkPhase && timer.presetIndex.Some?
    requires timer.timeLeft == Presets[timer.presetIndex.value].work
    requires timer.store.unfinished == Some(Unfinished(t0, t0))
    modifies timer, timer.store
    ensures var p := old(timer.presetIndex.value);
      && signal == Some(WorkComplete)
      && timer.presetIndex == Some(p) && timer.isRunning && !timer.isWorkPhase
      && timer.timeLeft == Presets[p].rest && timer.Valid()
      && timer.store.unfinished == None && timer.store.tasks == old(timer.store.tasks)
      && timer.store.sessions == [NewSession(id, t0, t0 + 1000 * Presets[p].work)] + old(timer.store.sessions)
      && timer.store.sessions[0].durationSec == Presets[p].work
    ensures old(timer.store.Valid()) && !old(timer.store.HasSession(id)) ==> timer.store.Valid()
  {
    var p := timer.presetIndex.value;
    var work := Presets[p].work;
    var sessions, tasks := timer.store.sessions, timer.store.tasks;
    ghost var valid := timer.store.Valid();
    var k := 0;
    while k < work - 1
      invariant 0 <= k <= work - 1
      invariant timer.presetIndex == Some(p) && timer.isRunning && timer.isWorkPhase
      invariant timer.timeLeft == work - k && timer.Valid()
      invariant timer.store.sessions == sessions && timer.store.tasks == tasks
      invariant timer.store.unfinished.Some? && timer.store.unfinished.value.start == t0
      invariant valid ==> timer.store.Valid()
      decreases work - k
    {
      k := k + 1;
      timer.Tick(t0 + 1000 * k);
      var none := timer.CheckExpiry(t0 + 1000 * k, id);
    }
    var end := t0 + 1000 * work;
    timer.Tick(end);
    signal := timer.CheckExpiry(end, id);
    DurationOfWholeSeconds(t0, work);
  }

  /**
   * A break of the running preset that starts at `t1` and runs to its end:
   * no session is recorded, and a new work phase of the same preset begins
   * with a fresh slot opened at the last second.
   */
  method RunBreak(timer: Timer, t1: Timestamp, id: Id) returns (signal: Option<Signal>)
    requires timer.Valid() && timer.isRunning && !timer.isWorkPhase && timer.presetIndex.Some?
    requires timer.timeLeft == Presets[timer.presetIndex.value].rest
    modifies timer, timer.store
    ensures var p := old(timer.presetIndex.value);
      && signal == Some(BreakComplete)
      && timer.presetIndex == Some(p) && timer.isRunning && timer.isWorkPhase
      && timer.timeLeft == Presets[p].work && timer.Valid()
      && timer.store.unfinished == Some(Unfinished(t1 + 1000 * Presets[p].rest, t1 + 1000 * Presets[p].rest))
      && timer.store.sessions == old(timer.store.sessions) && timer.store.tasks == old(timer.store.tasks)
    ensures old(timer.store.Valid()) ==> timer.store.Valid()
  {
    var p := timer.presetIndex.value;
    var rest := Presets[p].rest;
    var k := 0;
    while k < rest - 1
      invariant 0 <= k <= rest - 1
      invariant timer.presetIndex == Some(p) && timer.isRunning && !timer.isWorkPhase
      invariant timer.timeLeft == rest - k && timer.Valid()
      invariant unchanged(timer.store)
      decreases rest - k
    {
      k := k + 1;
      timer.Tick(t1 + 1000 * k);
      var none := timer.CheckExpiry(t1 + 1000 * k, id);
    }
    var end := t1 + 1000 * rest;
    timer.Tick(end);
    signal := timer.CheckExpiry(end, id);
  }

  /**
   * One Pomodoro cycle from a stopped timer: choosing preset `index` at `t0`
   * starts work; the whole work phase is recorded as one session lasting the
   * preset's work time; the break that follows records nothing; and work
   * starts again with the full work time.
   */
  method RunCycle(timer: Timer, index: PresetIndex, t0: Timestamp, stopId: Id, id: Id)
    requires timer.Valid() && !timer.isRunning
    modifies timer, timer.store
    ensures var t1 := t0 + 1000 * Presets[index].work;
      var t2 := t1 + 1000 * Presets[index].rest;
      && timer.store.sessions == [NewSession(id, t0, t1)] + old(timer.store.sessions)
      && timer.store.sessions[0].durationSec == Presets[index].work
      && timer.store.unfinished == Some(Unfinished(t2, t2))
      && timer.store.tasks == old(timer.store.tasks)
      && timer.Phase() == Working(index) && timer.timeLeft == Presets[index].work && timer.Valid()
    ensures old(timer.store.Valid()) && !old(timer.store.HasSession(id)) ==> timer.store.Valid()
  {
    timer.HandlePresetClick(index, t0, stopId);
    var workEnd := RunWorkPhase(timer, t0, id);
    var breakEnd := RunBreak(timer, t0 + 1000 * Presets[index].work, id);
  }

  /** A session of `n` whole seconds lasts `n` seconds. */
  lemma DurationOfWholeSeconds(start: Timestamp, n: nat)
    ensures DurationSec(start, start + 1000 * n) == n
  {
  }
}

/**
 ffplay's external clock: a base value, the time it was set, and a speed that is
 nudged by the fill level of the packet queues.  Times and values are exact
 reals; NaN is kept apart.

 To change its speed or to pause, the clock is re-based: read, then set to what
 was read.  The system time is taken once for each, so an event has two times,
 and what the clock would have run between them is lost.
 */
module PlaybackClock {
  import opened Basics

  /** A `double`, which may be NaN. */
  datatype Value = NaN | Num(value: real)

  const SPEED_MIN := 0.900
  const SPEED_MAX := 1.010
  const SPEED_STEP := 0.001
  const MIN_FRAMES := 2
  const MAX_FRAMES := 10

  datatype Clock = Clock(pts: Value, ptsDrift: Value, lastUpdated: real,
                         speed: real, serial: int, paused: bool)

  /** `get_clock`: stale for another serial, still while paused. */
  function Get(c: Clock, queueSerial: int, now: real): (v: Value) {
    if queueSerial != c.serial then NaN
    else if c.paused then c.pts
    else if c.ptsDrift.NaN? then NaN
    else Num(c.ptsDrift.value + now - (now - c.lastUpdated) * (1.0 - c.speed))
  }

  /** The external clock is its own reference, so it is never stale. */
  function Reading(c: Clock, now: real): Value { Get(c, c.serial, now) }

  function SetAt(c: Clock, pts: Value, serial: int, now: real): Clock {
    c.(pts := pts, lastUpdated := now, serial := serial,
       ptsDrift := if pts.NaN? then NaN else Num(pts.value - now))
  }

  /** The clock is read at one time and set at another. */
  function Rebase(c: Clock, read: real, write: real): Clock { SetAt(c, Reading(c, read), c.serial, write) }

  function SetSpeed(c: Clock, speed: real, read: real, write: real): Clock { Rebase(c, read, write).(speed := speed) }

  function Init(now: real): Clock { SetAt(Clock(NaN, NaN, 0.0, 1.0, 0, false), NaN, -1, now) }

  // ----- What happens to the clock -----

  /** The fill level of the packet queues of the open streams. */
  datatype Level = Low | High | Middle

  function LevelOf(video: Option<nat>, audio: Option<nat>): Level {
    if (video.Some? && video.value <= MIN_FRAMES) || (audio.Some? && audio.value <= MIN_FRAMES) then Low
    else if (video.None? || video.value > MAX_FRAMES) && (audio.None? || audio.value > MAX_FRAMES) then High
    else Middle
  }

  function Larger(x: real, y: real): real { if x > y then x else y }

  function Smaller(x: real, y: real): real { if x < y then x else y }

  function Abs(x: real): real { if x < 0.0 then -x else x }

  function NextSpeed(speed: real, level: Level): real {
    match level
    case Low => if speed - SPEED_STEP > SPEED_MIN then speed - SPEED_STEP else SPEED_MIN
    case High => if speed + SPEED_STEP < SPEED_MAX then speed + SPEED_STEP else SPEED_MAX
    case Middle => if speed == 1.0 then speed else speed + SPEED_STEP * (1.0 - speed) / Abs(1.0 - speed)
  }

  datatype Event = TogglePause | Adjust(level: Level)

  function Apply(c: Clock, e: Event, read: real, write: real): Clock {
    match e
    case TogglePause => Rebase(c, read, write).(paused := !c.paused)
    case Adjust(level) =>
      if level == Middle && c.speed == 1.0 then c else SetSpeed(c, NextSpeed(c.speed, level), read, write)
  }

  datatype Timed = Timed(event: Event, read: real, write: real)

  function After(c: Clock, events: seq<Timed>): Clock
    decreases |events|
  {
    if events == [] then c
    else
      var last := events[|events| - 1];
      Apply(After(c, events[..|events| - 1]), last.event, last.read, last.write)
  }

  // ----- One event -----

  ghost predicate Coherent(c: Clock) {
    && (c.pts.NaN? <==> c.ptsDrift.NaN?)
    && (c.pts.Num? ==> c.ptsDrift.value == c.pts.value - c.lastUpdated)
  }

  ghost predicate InRange(speed: real) { SPEED_MIN <= speed <= SPEED_MAX }

  /** How fast the clock runs. */
  function Rate(c: Clock): real { if c.paused then 0.0 else c.speed }

  /** How far the clock moves in `dt`, and the most it may move. */
  function Progress(c: Clock, dt: real): real { Rate(c) * dt }

  function Most(dt: real): real { SPEED_MAX * dt }

  /** The drift formula is base plus speed times elapsed time. */
  lemma ReadingIsLinear(c: Clock, now: real)
    requires Coherent(c) && c.pts.Num?
    ensures Reading(c, now) == Num(c.pts.value + Rate(c) * (now - c.lastUpdated))
  {
    var dt := now - c.lastUpdated;
    if c.paused {
      assert Rate(c) * dt == 0.0;
    } else {
      assert dt * (1.0 - c.speed) == dt - c.speed * dt;
    }
  }

  /** A clock shows nothing until it is first set, then runs at normal speed, and only for the queue serial it was set with. */
  lemma FreshClock(made: real, value: real, serial: int, since: real, queueSerial: int, now: real)
    ensures Get(Init(made), queueSerial, now) == NaN && Init(made).serial == -1
    ensures Get(SetAt(Init(made), Num(value), serial, since), queueSerial, now) ==
            if queueSerial == serial then Num(value + (now - since)) else NaN
  {
    ReadingIsLinear(SetAt(Init(made), Num(value), serial, since), now);
    assert 1.0 * (now - since) == now - since;
  }

  lemma SettlingStep(speed: real)
    requires speed != 1.0
    ensures NextSpeed(speed, Middle) == if speed < 1.0 then speed + SPEED_STEP else speed - SPEED_STEP
  {
    var d := 1.0 - speed;
    if d > 0.0 { Cancel(SPEED_STEP, d); } else { Cancel(-SPEED_STEP, -d); }
  }

  lemma Cancel(x: real, d: real)
    requires d != 0.0
    ensures x * d / d == x
  {
    var q := x * d / d;
    assert (q - x) * d == 0.0;
  }

  /** From the packet counts alone: an open stream that runs dry slows the clock by a step, full queues everywhere speed it
      up by a step, each within the limits; otherwise it returns to the normal speed step by step. */
  lemma SpeedFollowsQueues(c: Clock, video: Option<nat>, audio: Option<nat>, read: real, write: real)
    requires InRange(c.speed)
    ensures var dry := (video.Some? && video.value <= 2) || (audio.Some? && audio.value <= 2);
            var full := (video.Some? ==> video.value > 10) && (audio.Some? ==> audio.value > 10);
            Apply(c, Adjust(LevelOf(video, audio)), read, write).speed ==
              if dry then Larger(0.900, c.speed - 0.001)
              else if full then Smaller(1.010, c.speed + 0.001)
              else if c.speed < 1.0 then c.speed + 0.001 else if c.speed > 1.0 then c.speed - 0.001 else 1.0
  {
    hide Reading;
    if c.speed != 1.0 { SettlingStep(c.speed); }
  }

  lemma SpeedStaysInRange(speed: real, level: Level)
    requires InRange(speed)
    ensures InRange(NextSpeed(speed, level))
  {
    if level == Middle && speed != 1.0 { SettlingStep(speed); }
  }

  /** Between events the clock moves at its rate. */
  lemma ClockMoves(c: Clock, a: real, b: real)
    requires Coherent(c) && c.pts.Num?
    ensures Reading(c, a).Num? && Reading(c, b) == Num(Reading(c, a).value + Progress(c, b - a))
  {
    ReadingIsLinear(c, a);
    ReadingIsLinear(c, b);
    var r, x, y := Rate(c), a - c.lastUpdated, b - a;
    assert r * (x + y) == r * x + r * y;
    assert b - c.lastUpdated == x + y;
  }

  /** Every event re-bases, except an adjustment that leaves the normal speed alone. */
  predicate Rebases(c: Clock, e: Event) { e == Adjust(Middle) ==> c.speed != 1.0 }

  /** What an event loses. */
  function Loss(c: Clock, e: Event, read: real, write: real): real {
    if Rebases(c, e) then Progress(c, write - read) else 0.0
  }

  lemma EventKeepsClock(c: Clock, e: Event, read: real, write: real)
    requires Coherent(c) && InRange(c.speed)
    ensures var d := Apply(c, e, read, write);
            && Coherent(d) && InRange(d.speed) && d.serial == c.serial && d.pts.NaN? == c.pts.NaN?
            && d.paused == (if e.TogglePause? then !c.paused else c.paused)
  {
    if e.Adjust? { SpeedStaysInRange(c.speed, e.level); }
  }

  /** An event sets the clock back by exactly its loss. */
  lemma EventSetsBack(c: Clock, e: Event, read: real, write: real)
    requires Coherent(c) && InRange(c.speed) && c.pts.Num?
    ensures Reading(c, write).Num?
    ensures Reading(Apply(c, e, read, write), write) == Num(Reading(c, write).value - Loss(c, e, read, write))
  {
    EventKeepsClock(c, e, read, write);
    ClockMoves(c, read, write);
    hide NextSpeed, InRange, Progress;
    if Rebases(c, e) {
      var d := Apply(c, e, read, write);
      ReadingIsLinear(d, write);
      assert Rate(d) * 0.0 == 0.0;
    }
  }

  /** An event goes unnoticed exactly if the clock does not run, is not re-based, or no time passes between the two readings. */
  lemma EventsAreContinuousExactly(c: Clock, e: Event, read: real, write: real)
    requires Coherent(c) && InRange(c.speed)
    ensures Reading(Apply(c, e, read, write), write) == Reading(c, write) <==>
            c.pts.NaN? || c.paused || !Rebases(c, e) || read == write
  {
    if c.pts.Num? {
      EventSetsBack(c, e, read, write);
      hide Apply, NextSpeed, Get;
      if Rebases(c, e) {
        ProgressIsZeroExactly(c, write - read);
      }
    } else {
      EventKeepsClock(c, e, read, write);
    }
  }

  lemma ProgressIsZeroExactly(c: Clock, dt: real)
    requires InRange(c.speed)
    ensures Progress(c, dt) == 0.0 <==> c.paused || dt == 0.0
  {
  }

  /** A running clock, read at 1.0 and set at 1.5, goes from 1.5 back to 1.0. */
  lemma PauseStepsBack()
    ensures var c := Clock(Num(0.0), Num(0.0), 0.0, 1.0, 0, false);
            && Coherent(c) && InRange(c.speed)
            && Reading(c, 1.5) == Num(1.5) && Reading(Apply(c, TogglePause, 1.0, 1.5), 1.5) == Num(1.0)
  {
    hide Apply, NextSpeed, Get;
    var c := Clock(Num(0.0), Num(0.0), 0.0, 1.0, 0, false);
    ReadingIsLinear(c, 1.5);
    EventSetsBack(c, TogglePause, 1.0, 1.5);
    assert Rate(c) == 1.0 && Loss(c, TogglePause, 1.0, 1.5) == 0.5;
  }

  // ----- Whole runs -----

  ghost predicate InOrder(start: real, events: seq<Timed>, end: real) {
    && (forall i :: 0 <= i < |events| ==> start <= events[i].read <= events[i].write <= end)
    && (forall i, j :: 0 <= i < j < |events| ==> events[i].write <= events[j].read)
    && start <= end
  }

  /** Speed times unpaused time, summed over the stretches between events. */
  function Played(c: Clock, start: real, events: seq<Timed>, end: real): real
    decreases |events|
  {
    if events == [] then Progress(c, end - start)
    else
      var last := events[|events| - 1];
      Played(c, start, events[..|events| - 1], last.write) + Progress(After(c, events), end - last.write)
  }

  /** What all events lose. */
  function Lost(c: Clock, events: seq<Timed>): real
    decreases |events|
  {
    if events == [] then 0.0
    else
      var front, last := events[..|events| - 1], events[|events| - 1];
      Lost(c, front) + Loss(After(c, front), last.event, last.read, last.write)
  }

  lemma {:induction false} RunStaysCoherent(c: Clock, events: seq<Timed>)
    requires Coherent(c) && InRange(c.speed)
    ensures var d := After(c, events);
            Coherent(d) && InRange(d.speed) && d.pts.NaN? == c.pts.NaN? && d.serial == c.serial
    decreases |events|
  {
    hide Apply, InRange;
    if events != [] {
      var front, last := events[..|events| - 1], events[|events| - 1];
      RunStaysCoherent(c, front);
      EventKeepsClock(After(c, front), last.event, last.read, last.write);
    }
  }

  /** The clock shows its start plus what was played, less what was lost. */
  lemma {:induction false} ClockShowsTimePlayed(c: Clock, start: real, events: seq<Timed>, end: real)
    requires Coherent(c) && InRange(c.speed) && c.pts.Num?
    ensures Reading(c, start).Num?
    ensures Reading(After(c, events), end) == Num(Reading(c, start).value + Played(c, start, events, end) - Lost(c, events))
    decreases |events|
  {
    hide Apply, NextSpeed, InRange, Get, Progress, Loss;
    if events == [] {
      ClockMoves(c, start, end);
    } else {
      var front, last := events[..|events| - 1], events[|events| - 1];
      ClockShowsTimePlayed(c, start, front, last.write);
      RunStaysCoherent(c, events);
      RunStaysCoherent(c, front);
      EventSetsBack(After(c, front), last.event, last.read, last.write);
      ClockMoves(After(c, events), last.write, end);
    }
  }

  lemma ProgressIsBounded(c: Clock, dt: real)
    requires InRange(c.speed) && dt >= 0.0
    ensures 0.0 <= Progress(c, dt) <= Most(dt)
  {
  }

  lemma Stretches(a: real, b: real, c: real)
    ensures Most(b - a) + Most(c - b) == Most(c - a)
  {
  }

  lemma ProgressSplits(c: Clock, x: real, y: real)
    ensures Progress(c, x + y) == Progress(c, x) + Progress(c, y)
  {
  }

  lemma PlayedSplits(c: Clock, start: real, events: seq<Timed>, middle: real, end: real)
    ensures Played(c, start, events, end) == Played(c, start, events, middle) + Progress(After(c, events), end - middle)
  {
    hide Progress;
    var from := if events == [] then start else events[|events| - 1].write;
    ProgressSplits(After(c, events), middle - from, end - middle);
    assert middle - from + (end - middle) == end - from;
  }

  /** What remains is never negative, and never more than one per cent above the time that passed. */
  lemma {:induction false} NetIsBounded(c: Clock, start: real, events: seq<Timed>, end: real)
    requires Coherent(c) && InRange(c.speed) && InOrder(start, events, end)
    ensures 0.0 <= Played(c, start, events, end) - Lost(c, events) <= Most(end - start)
    decreases |events|
  {
    hide Progress, Most, InRange, Apply;
    if events == [] {
      ProgressIsBounded(c, end - start);
    } else {
      var front, last := events[..|events| - 1], events[|events| - 1];
      NetIsBounded(c, start, front, last.read);
      PlayedSplits(c, start, front, last.read, last.write);
      RunStaysCoherent(c, front);
      RunStaysCoherent(c, events);
      ProgressIsBounded(After(c, front), last.write - last.read);
      ProgressIsBounded(After(c, events), end - last.write);
      Stretches(start, last.read, last.write);
      Stretches(start, last.write, end);
    }
  }

  /** Seen between events, the clock never runs back and never gains more than one per cent on the wall clock. */
  lemma ClockStaysInBounds(c: Clock, start: real, events: seq<Timed>, end: real)
    requires Coherent(c) && InRange(c.speed) && c.pts.Num? && InOrder(start, events, end)
    ensures Reading(c, start).Num? && Reading(After(c, events), end).Num?
    ensures 0.0 <= Reading(After(c, events), end).value - Reading(c, start).value <= Most(end - start)
  {
    hide Most, After, Reading, Played, Lost;
    ClockShowsTimePlayed(c, start, events, end);
    NetIsBounded(c, start, events, end);
  }

  /** While paused it stands still, through any adjustments. */
  lemma {:induction false} PausedClockStands(c: Clock, events: seq<Timed>, start: real, end: real)
    requires Coherent(c) && InRange(c.speed) && c.paused && c.pts.Num?
    requires forall i :: 0 <= i < |events| ==> events[i].event.Adjust?
    ensures After(c, events).paused
    ensures Reading(After(c, events), end) == Reading(c, start)
    decreases |events|
  {
    hide Apply, NextSpeed, InRange, Get, Progress;
    if events == [] {
      ClockMoves(c, start, end);
      NoProgress(c, end - start);
    } else {
      var front, last := events[..|events| - 1], events[|events| - 1];
      PausedClockStands(c, front, start, last.write);
      RunStaysCoherent(c, front);
      RunStaysCoherent(c, events);
      EventKeepsClock(After(c, front), last.event, last.read, last.write);
      EventSetsBack(After(c, front), last.event, last.read, last.write);
      NoProgress(After(c, front), last.write - last.read);
      ClockMoves(After(c, events), last.write, end);
      NoProgress(After(c, events), end - last.write);
    }
  }

  lemma NoProgress(c: Clock, dt: real)
    requires c.paused
    ensures Progress(c, dt) == 0.0
  {
  }

  // ----- The clock as the program updates it -----

  class ExternalClock {
    var pts: Value
    var ptsDrift: Value
    var lastUpdated: real
    var speed: real
    var serial: int
    var paused: bool

    ghost function View(): Clock
      reads this
    {
      Clock(pts, ptsDrift, lastUpdated, speed, serial, paused)
    }

    constructor (now: real)
      ensures View() == Init(now) && Coherent(View()) && InRange(speed)
    {
      pts, ptsDrift, lastUpdated, speed, serial, paused := NaN, NaN, now, 1.0, -1, false;
    }

    method GetClock(now: real) returns (v: Value)
      ensures v == Reading(View(), now)
    {
      if paused {
        return pts;
      }
      if ptsDrift.NaN? {
        return NaN;
      }
      v := Num(ptsDrift.value + now - (now - lastUpdated) * (1.0 - speed));
    }

    method SetClockAt(value: Value, newSerial: int, now: real)
      modifies this
      ensures View() == SetAt(old(View()), value, newSerial, now)
    {
      pts := value;
      lastUpdated := now;
      ptsDrift := if value.NaN? then NaN else Num(value.value - now);
      serial := newSerial;
    }

    /** `set_clock_speed`: the system time is taken by the reading and again by the setting. */
    method SetClockSpeed(newSpeed: real, read: real, write: real)
      modifies this
      ensures View() == SetSpeed(old(View()), newSpeed, read, write)
    {
      var v := GetClock(read);
      SetClockAt(v, serial, write);
      speed := newSpeed;
    }

    /** `check_external_clock_speed`, from the packet counts of the open streams. */
    method CheckSpeed(video: Option<nat>, audio: Option<nat>, read: real, write: real)
      modifies this
      ensures View() == Apply(old(View()), Adjust(LevelOf(video, audio)), read, write)
      ensures InRange(old(speed)) ==>
                var dry := (video.Some? && video.value <= 2) || (audio.Some? && audio.value <= 2);
                var full := (video.Some? ==> video.value > 10) && (audio.Some? ==> audio.value > 10);
                speed == (if dry then Larger(0.900, old(speed) - 0.001)
                          else if full then Smaller(1.010, old(speed) + 0.001)
                          else if old(speed) < 1.0 then old(speed) + 0.001
                          else if old(speed) > 1.0 then old(speed) - 0.001 else 1.0)
    {
      if InRange(speed) { SpeedFollowsQueues(View(), video, audio, read, write); }
      if (video.Some? && video.value <= MIN_FRAMES) || (audio.Some? && audio.value <= MIN_FRAMES) {
        SetClockSpeed(if speed - SPEED_STEP > SPEED_MIN then speed - SPEED_STEP else SPEED_MIN, read, write);
      } else if (video.None? || video.value > MAX_FRAMES) && (audio.None? || audio.value > MAX_FRAMES) {
        SetClockSpeed(if speed + SPEED_STEP < SPEED_MAX then speed + SPEED_STEP else SPEED_MAX, read, write);
      } else if speed != 1.0 {
        SetClockSpeed(speed + SPEED_STEP * (1.0 - speed) / Abs(1.0 - speed), read, write);
      }
    }

    /** The external clock's part of `stream_toggle_pause`. */
    method Toggle(read: real, write: real)
      modifies this
      ensures View() == Apply(old(View()), TogglePause, read, write)
    {
      var v := GetClock(read);
      SetClockAt(v, serial, write);
      paused := !paused;
    }
  }
}

/**
 Frame-rate conversion in ffmpeg: how often `do_video_out` repeats or drops each
 picture, which timestamp every copy gets, and what the duplicate and drop
 counters count.  Times are exact reals, counters mathematical integers.
 */
module VideoSync {
  import opened Basics
  import opened Rounding

  /** `video_sync_method` once VSYNC_AUTO has been resolved. */
  datatype Mode = Passthrough | Cfr | Vfr | Vscfr | Drop

  /** `dupLimit` is `dts_error_threshold * 30`; `recordingEnd` is the first value of
      `sync_opts` for which `check_recording_time` fails. */
  datatype Config = Config(mode: Mode, dropThreshold: real, maxFrames: nat, dupLimit: real,
                           recordingEnd: Option<int>)

  /** A picture with its start time and duration in encoder ticks, or the flush at the end. */
  datatype Input = Picture(ipts: real, duration: real) | Flush

  /** One frame handed to the encoder: which picture it shows, and its pts. */
  datatype Sent = Sent(pic: nat, pts: int)

  datatype Stream = Stream(
    syncOpts: int, frameNumber: nat,
    nb0: seq<int>,                 // last_nb0_frames, newest first
    lastDropped: bool, lastFrame: Option<nat>,
    dup: int, drop: int,           // nb_frames_dup, nb_frames_drop
    received: nat, sent: seq<Sent>)

  const Start := Stream(0, 0, [0, 0, 0], false, None, 0, 0, 0, [])

  ghost predicate Valid(cfg: Config, st: Stream) {
    && |st.nb0| == 3 && (forall i :: 0 <= i < 3 ==> 0 <= st.nb0[i])
    && st.frameNumber == |st.sent| && st.frameNumber <= cfg.maxFrames
  }

  // ----- The decision -----

  datatype Plan = Plan(syncOpts: int, nb: int, nb0: int)

  function Bit(b: bool): (r: int) { if b then 1 else 0 }

  /** `mid_pred`: the median of three. */
  function Median(a: int, b: int, c: int): (m: int)
    ensures m == a || m == b || m == c
    ensures (a <= m || b <= m) && (a <= m || c <= m) && (b <= m || c <= m)
    ensures (m <= a || m <= b) && (m <= a || m <= c) && (m <= b || m <= c)
  {
    Max(Min(a, b), Min(Max(a, b), c))
  }

  /** A picture that starts early but ends late is moved to the next output tick. */
  predicate Clips(mode: Mode, delta0: real, delta: real) {
    delta0 < 0.0 && delta > 0.0 && mode != Passthrough && mode != Drop
  }

  /** The constant-rate choice, from the drift of the picture's start and end. */
  function CfrPlan(cfg: Config, st: Stream, syncOpts: int, delta0: real, delta: real): (p: Plan)
    ensures p.syncOpts == syncOpts && 0 <= p.nb && 0 <= p.nb0
  {
    if cfg.dropThreshold != 0.0 && delta < cfg.dropThreshold && st.frameNumber != 0 then Plan(syncOpts, 0, 0)
    else if delta < -1.1 then Plan(syncOpts, 0, 0)
    else if delta > 1.1 then
      RintAtLeast(delta, 1);
      if delta0 > 1.1 then
        RintAtLeast(delta0 - 0.6, 0);
        Plan(syncOpts, Rint(delta), Rint(delta0 - 0.6))
      else Plan(syncOpts, Rint(delta), 0)
    else Plan(syncOpts, 1, 0)
  }

  function PicturePlan(cfg: Config, st: Stream, ipts: real, duration: real): (p: Plan)
    ensures 0 <= p.nb && 0 <= p.nb0
  {
    var rawDelta0 := ipts - st.syncOpts as real;
    var delta := rawDelta0 + duration;
    var clip := Clips(cfg.mode, rawDelta0, delta);
    var ipts' := if clip then st.syncOpts as real else ipts;
    var duration' := if clip then duration + rawDelta0 else duration;
    var delta0 := if clip then 0.0 else rawDelta0;
    match cfg.mode
    case Vscfr =>
      if st.frameNumber == 0 && delta0 >= 0.5 then CfrPlan(cfg, st, Rint(ipts'), 0.0, duration')
      else CfrPlan(cfg, st, st.syncOpts, delta0, delta)
    case Cfr => CfrPlan(cfg, st, st.syncOpts, delta0, delta)
    case Vfr =>
      if delta <= -0.6 then Plan(st.syncOpts, 0, 0)
      else if delta > 0.6 then Plan(Rint(ipts'), 1, 0)
      else Plan(st.syncOpts, 1, 0)
    case Drop => Plan(Rint(ipts'), 1, 0)
    case Passthrough => Plan(Rint(ipts'), 1, 0)
  }

  /** The plan after the cap on the number of frames. */
  function CappedPlan(cfg: Config, st: Stream, input: Input): (p: Plan)
    requires Valid(cfg, st)
    ensures Feasible(cfg, st, input, p)
    ensures input.Flush? ==> p.syncOpts == st.syncOpts
  {
    var p := match input
      case Picture(ipts, duration) => PicturePlan(cfg, st, ipts, duration)
      case Flush =>
        var m := Median(st.nb0[0], st.nb0[1], st.nb0[2]);
        Plan(st.syncOpts, m, m);
    var nb := Min(p.nb, cfg.maxFrames - st.frameNumber);
    Plan(p.syncOpts, nb, Min(p.nb0, nb))
  }

  // ----- One call -----

  /** The frames a call needs anyway: a late first copy of the dropped picture, and one of the new one. */
  function Needed(st: Stream, p: Plan): (n: int) {
    Bit(p.nb0 > 0 && st.lastDropped) + Bit(p.nb > p.nb0)
  }

  predicate Oversized(cfg: Config, st: Stream, p: Plan) {
    p.nb > Needed(st, p) && p.nb as real > cfg.dupLimit
  }

  /** The number of the picture an input brings. */
  function Next(st: Stream, input: Input): Option<nat> {
    if input.Picture? then Some(st.received) else None
  }

  /** The picture shown by copy `i`, if there is one to show. */
  function Shown(last: Option<nat>, next: Option<nat>, nb0: int, i: nat): Option<nat> {
    if i < nb0 && last.Some? then last else next
  }

  /** How many of the planned copies are handed over before a missing picture or the recording time stops the loop. */
  function Granted(recordingEnd: Option<int>, last: Option<nat>, next: Option<nat>, p: Plan): (k: nat)
    requires 0 <= p.nb
    ensures k <= p.nb
  {
    if next.None? && last.None? then 0
    else if recordingEnd.None? then p.nb
    else Min(p.nb, Max(0, recordingEnd.value - p.syncOpts))
  }

  function Copies(last: Option<nat>, next: Option<nat>, p: Plan, k: nat): (s: seq<Sent>)
    requires next.Some? || k == 0 || (last.Some? && k <= p.nb0)
    ensures |s| == k
    ensures forall i :: 0 <= i < k ==> s[i].pts == p.syncOpts + i
    ensures forall i :: 0 <= i < k ==> Some(s[i].pic) == Shown(last, next, p.nb0, i)
  {
    seq(k, i requires 0 <= i < k => Sent(Shown(last, next, p.nb0, i).value, p.syncOpts + i))
  }

  /** A plan within the bounds that `CappedPlan` guarantees. */
  predicate Feasible(cfg: Config, st: Stream, input: Input, p: Plan) {
    0 <= p.nb0 <= p.nb <= cfg.maxFrames - st.frameNumber && (input.Flush? ==> p.nb0 == p.nb)
  }

  /** Counting, sending and remembering, once the plan is made. */
  function Apply(cfg: Config, st: Stream, input: Input, p: Plan): (st': Stream)
    requires Valid(cfg, st) && Feasible(cfg, st, input, p)
    ensures Valid(cfg, st')
  {
    var received := st.received + Bit(input.Picture?);
    var nb0 := [p.nb0, st.nb0[0], st.nb0[1]];
    var drop := st.drop + Bit(p.nb0 == 0 && st.lastDropped);
    if Oversized(cfg, st, p) then
      st.(syncOpts := p.syncOpts, nb0 := nb0, drop := drop + 1, received := received)
    else
      var k := Granted(cfg.recordingEnd, st.lastFrame, Next(st, input), p);
      st.(syncOpts := p.syncOpts + k, frameNumber := st.frameNumber + k, nb0 := nb0,
          lastDropped := p.nb == p.nb0 && input.Picture?,
          lastFrame := if k < p.nb then st.lastFrame else Next(st, input),
          dup := st.dup + p.nb - Needed(st, p), drop := drop, received := received,
          sent := st.sent + Copies(st.lastFrame, Next(st, input), p, k))
  }

  /** The state after `do_video_out`. */
  function Step(cfg: Config, st: Stream, input: Input): (st': Stream)
    requires Valid(cfg, st)
    ensures Valid(cfg, st')
  {
    Apply(cfg, st, input, CappedPlan(cfg, st, input))
  }

  /** The state after a whole run of calls. */
  function Run(cfg: Config, st: Stream, inputs: seq<Input>): (st': Stream)
    requires Valid(cfg, st)
    ensures Valid(cfg, st')
    decreases |inputs|
  {
    if inputs == [] then st
    else Step(cfg, Run(cfg, st, inputs[..|inputs| - 1]), inputs[|inputs| - 1])
  }

  // ----- Conservation of frames -----

  /** Frames sent, plus a picture whose fate is still open, against pictures received and the two counters. */
  ghost predicate Balanced(st: Stream) {
    |st.sent| + Bit(st.lastDropped) == st.received + st.dup - st.drop
  }

  /** When a call keeps the balance, in terms of the guards of its early exits. */
  predicate PlanKeepsBalance(cfg: Config, st: Stream, input: Input, p: Plan)
    requires Feasible(cfg, st, input, p)
  {
    if Oversized(cfg, st, p) then input.Picture? && !(p.nb0 == 0 && st.lastDropped)
    else Granted(cfg.recordingEnd, st.lastFrame, Next(st, input), p) == p.nb
  }

  predicate KeepsBalance(cfg: Config, st: Stream, input: Input)
    requires Valid(cfg, st)
  {
    PlanKeepsBalance(cfg, st, input, CappedPlan(cfg, st, input))
  }

  lemma BalanceExactly(cfg: Config, st: Stream, input: Input, p: Plan)
    requires Valid(cfg, st) && Feasible(cfg, st, input, p) && Balanced(st)
    ensures Balanced(Apply(cfg, st, input, p)) <==> PlanKeepsBalance(cfg, st, input, p)
  {
    if !Oversized(cfg, st, p) {
      assert |Apply(cfg, st, input, p).sent| == |st.sent| + Granted(cfg.recordingEnd, st.lastFrame, Next(st, input), p);
    }
  }

  /** Every call of a run keeps the balance. */
  predicate AllKeepBalance(cfg: Config, inputs: seq<Input>)
    decreases |inputs|
  {
    inputs == [] ||
    (var front := inputs[..|inputs| - 1];
     AllKeepBalance(cfg, front) && KeepsBalance(cfg, Run(cfg, Start, front), inputs[|inputs| - 1]))
  }

  /** The last report adds the open picture to the drops. */
  function FinalDrops(st: Stream): int { st.drop + Bit(st.lastDropped) }

  lemma {:induction false} FramesAreConserved(cfg: Config, inputs: seq<Input>)
    requires AllKeepBalance(cfg, inputs)
    ensures Balanced(Run(cfg, Start, inputs))
    ensures var st := Run(cfg, Start, inputs); |st.sent| == st.received + st.dup - FinalDrops(st)
  {
    hide CappedPlan, Apply, PlanKeepsBalance;
    if inputs != [] {
      FramesAreConserved(cfg, inputs[..|inputs| - 1]);
      var st, input := Run(cfg, Start, inputs[..|inputs| - 1]), inputs[|inputs| - 1];
      BalanceExactly(cfg, st, input, CappedPlan(cfg, st, input));
    }
  }

  // ----- Runs that lose the balance -----

  lemma RunSnoc(cfg: Config, inputs: seq<Input>, input: Input)
    ensures Run(cfg, Start, inputs + [input]) == Step(cfg, Run(cfg, Start, inputs), input)
  {
    assert (inputs + [input])[..|inputs|] == inputs;
  }

  /** At most three copies in a row. */
  const Strict := Config(Cfr, 0.0, 100, 3.0, None)

  /** One picture sent, one dropped. */
  const OnTimeThenLate := Stream(1, 1, [0, 0, 0], true, Some(1), 0, 0, 2, [Sent(0, 0)])

  lemma OnTimeStep()
    ensures Step(Strict, Start, Picture(0.0, 1.0)) == Stream(1, 1, [0, 0, 0], false, Some(0), 0, 0, 1, [Sent(0, 0)])
  {
    assert CappedPlan(Strict, Start, Picture(0.0, 1.0)) == Plan(0, 1, 0);
    assert Copies(None, Some(0), Plan(0, 1, 0), 1) == [Sent(0, 0)];
  }

  lemma LateStep()
    ensures var st := Stream(1, 1, [0, 0, 0], false, Some(0), 0, 0, 1, [Sent(0, 0)]);
            Valid(Strict, st) && Step(Strict, st, Picture(-5.0, 0.0)) == OnTimeThenLate
  {
    var st := Stream(1, 1, [0, 0, 0], false, Some(0), 0, 0, 1, [Sent(0, 0)]);
    assert Valid(Strict, st) && CappedPlan(Strict, st, Picture(-5.0, 0.0)) == Plan(1, 0, 0);
    assert Copies(Some(0), Some(1), Plan(1, 0, 0), 0) == [];
  }

  lemma OversizedStep()
    ensures Valid(Strict, OnTimeThenLate)
    ensures Step(Strict, OnTimeThenLate, Picture(1.0, 9.0)) == OnTimeThenLate.(drop := 2, received := 3)
  {
    assert Rint(9.0) == 9;
    assert CappedPlan(Strict, OnTimeThenLate, Picture(1.0, 9.0)) == Plan(1, 9, 0);
  }

  /** An oversized duplication that meets a pending drop counts it, and the last report counts it again. */
  lemma PendingDropCountedTwice()
    ensures var st := Run(Strict, Start, [Picture(0.0, 1.0), Picture(-5.0, 0.0), Picture(1.0, 9.0)]);
            st.received == 3 && |st.sent| == 1 && st.dup == 0 && FinalDrops(st) == 3 && !Balanced(st)
  {
    hide Step;
    var a, b, c := Picture(0.0, 1.0), Picture(-5.0, 0.0), Picture(1.0, 9.0);
    RunSnoc(Strict, [], a);
    RunSnoc(Strict, [a], b);
    RunSnoc(Strict, [a, b], c);
    assert [] + [a] == [a] && [a] + [b] == [a, b] && [a, b] + [c] == [a, b, c];
    OnTimeStep();
    LateStep();
    OversizedStep();
  }

  const NoTime := Config(Cfr, 0.0, 100, 3000.0, Some(0))

  lemma NoTimeStep()
    ensures Step(NoTime, Start, Picture(0.0, 1.0)) == Start.(received := 1)
  {
    assert CappedPlan(NoTime, Start, Picture(0.0, 1.0)) == Plan(0, 1, 0);
    assert Copies(None, Some(0), Plan(0, 1, 0), 0) == [];
  }

  /** A picture cut off by the recording time is counted nowhere. */
  lemma RecordingTimeLosesPicture()
    ensures var st := Run(NoTime, Start, [Picture(0.0, 1.0)]);
            st.received == 1 && st.sent == [] && st.dup == 0 && FinalDrops(st) == 0 && !Balanced(st)
  {
    hide Step;
    RunSnoc(NoTime, [], Picture(0.0, 1.0));
    assert [] + [Picture(0.0, 1.0)] == [Picture(0.0, 1.0)];
    NoTimeStep();
  }

  lemma OversizedFirstStep(st: Stream)
    requires Valid(Strict, st) && st.syncOpts == 0 && st.frameNumber == 0 && !st.lastDropped
    ensures Step(Strict, st, Picture(3.0, 9.0)) ==
            st.(nb0 := [2, st.nb0[0], st.nb0[1]], drop := st.drop + 1, received := st.received + 1)
  {
    assert Rint(12.0) == 12 && Rint(2.4) == 2;
    assert CappedPlan(Strict, st, Picture(3.0, 9.0)) == Plan(0, 12, 2);
  }

  lemma EmptyFlushStep()
    ensures var st := Start.(nb0 := [2, 2, 0], drop := 2, received := 2);
            Valid(Strict, st) && Step(Strict, st, Flush) == st.(nb0 := [2, 2, 2], dup := 2)
  {
    var st := Start.(nb0 := [2, 2, 0], drop := 2, received := 2);
    assert Valid(Strict, st) && CappedPlan(Strict, st, Flush) == Plan(0, 2, 2);
    assert Copies(None, None, Plan(0, 2, 2), 0) == [];
  }

  /** A flush that has no picture to repeat counts its copies all the same. */
  lemma EmptyFlushCountsCopies()
    ensures var st := Run(Strict, Start, [Picture(3.0, 9.0), Picture(3.0, 9.0), Flush]);
            st.received == 2 && st.sent == [] && st.dup == 2 && FinalDrops(st) == 2 && !Balanced(st)
  {
    hide Step;
    var a := Picture(3.0, 9.0);
    RunSnoc(Strict, [], a);
    RunSnoc(Strict, [a], a);
    RunSnoc(Strict, [a, a], Flush);
    assert [] + [a] == [a] && [a] + [a] == [a, a] && [a, a] + [Flush] == [a, a, Flush];
    OversizedFirstStep(Start);
    OversizedFirstStep(Start.(nb0 := [2, 0, 0], drop := 1, received := 1));
    EmptyFlushStep();
  }

  // ----- What the counters mean -----

  ghost function PicsOf(sent: seq<Sent>): set<nat> { set s | s in sent :: s.pic }

  /** `dup` counts copies beyond each picture's first; `drop` and the open picture count pictures never shown. */
  ghost predicate Accurate(st: Stream) {
    && st.dup == |st.sent| - |PicsOf(st.sent)|
    && |PicsOf(st.sent)| == st.received - st.drop - Bit(st.lastDropped)
    && (forall q :: q in PicsOf(st.sent) ==> q < st.received)
    && (st.lastFrame.Some? ==> st.lastFrame.value < st.received &&
                               (st.lastDropped <==> st.lastFrame.value !in PicsOf(st.sent)))
    && (st.lastDropped ==> st.lastFrame.Some?)
  }

  predicate PlanCountsExactly(cfg: Config, st: Stream, input: Input, p: Plan)
    requires Feasible(cfg, st, input, p)
  {
    PlanKeepsBalance(cfg, st, input, p) &&
    (Oversized(cfg, st, p) || st.lastFrame.Some? || input.Flush? || p.nb0 == 0 || p.nb > p.nb0)
  }

  predicate CountsExactly(cfg: Config, st: Stream, input: Input)
    requires Valid(cfg, st)
  {
    PlanCountsExactly(cfg, st, input, CappedPlan(cfg, st, input))
  }

  predicate AllCountExactly(cfg: Config, inputs: seq<Input>)
    decreases |inputs|
  {
    inputs == [] ||
    (var front := inputs[..|inputs| - 1];
     AllCountExactly(cfg, front) && CountsExactly(cfg, Run(cfg, Start, front), inputs[|inputs| - 1]))
  }

  lemma PicsOfAppend(a: seq<Sent>, b: seq<Sent>)
    ensures PicsOf(a + b) == PicsOf(a) + PicsOf(b)
  {
    forall q | q in PicsOf(a) + PicsOf(b) ensures q in PicsOf(a + b) {
      var s :| (s in a || s in b) && s.pic == q;
      assert s in a + b;
    }
  }

  /** A call shows the saved picture in its first `nb0` copies and the new one in the rest. */
  lemma PicsOfCopies(last: Option<nat>, next: Option<nat>, p: Plan)
    requires 0 <= p.nb0 <= p.nb
    requires next.Some? || p.nb == 0 || (last.Some? && p.nb == p.nb0)
    ensures PicsOf(Copies(last, next, p, p.nb)) ==
            (if p.nb0 > 0 && last.Some? then {last.value} else {}) +
            (if p.nb > p.nb0 || (p.nb > 0 && last.None?) then {next.value} else {})
  {
    var c := Copies(last, next, p, p.nb);
    if p.nb > 0 {
      assert c[0] in c && c[p.nb - 1] in c;
      assert Some(c[0].pic) == Shown(last, next, p.nb0, 0);
      assert Some(c[p.nb - 1].pic) == Shown(last, next, p.nb0, p.nb - 1);
    }
  }

  lemma AccurateIsBalanced(st: Stream)
    requires Accurate(st)
    ensures Balanced(st)
  {
  }

  lemma CountersExactly(cfg: Config, st: Stream, input: Input, p: Plan)
    requires Valid(cfg, st) && Feasible(cfg, st, input, p) && Accurate(st)
    ensures Accurate(Apply(cfg, st, input, p)) <==> PlanCountsExactly(cfg, st, input, p)
  {
    var st' := Apply(cfg, st, input, p);
    AccurateIsBalanced(st);
    BalanceExactly(cfg, st, input, p);
    if !PlanKeepsBalance(cfg, st, input, p) {
      if Accurate(st') { AccurateIsBalanced(st'); }
    } else if !Oversized(cfg, st, p) {
      SentCountersExactly(cfg, st, input, p);
    }
  }

  lemma AddOne(s: set<nat>, x: nat)
    ensures |s + {x}| == |s| + Bit(x !in s)
  {
    if x in s { assert s + {x} == s; }
  }

  lemma AddedPics(before: set<nat>, last: Option<nat>, next: Option<nat>, late: bool, latest: bool) returns (pics: set<nat>)
    requires (late ==> last.Some?) && (latest ==> next.Some?)
    requires next.Some? ==> next.value !in before && next != last
    ensures pics == before + ((if late then {last.value} else {}) + (if latest then {next.value} else {}))
    ensures late ==> last.value in pics
    ensures |pics| == |before| + Bit(late && last.value !in before) + Bit(latest)
    ensures next.Some? ==> (next.value in pics <==> latest)
  {
    var a := if late then {last.value} else {};
    var b := if latest then {next.value} else {};
    pics := before + (a + b);
    assert pics == before + a + b;
    if late { AddOne(before, last.value); }
    if latest { AddOne(before + a, next.value); }
  }

  /** The pictures shown after a call that sends its whole plan, and how many of them are new. */
  lemma PicsAfter(cfg: Config, st: Stream, input: Input, p: Plan) returns (pics: set<nat>)
    requires Valid(cfg, st) && Feasible(cfg, st, input, p) && Accurate(st)
    requires !Oversized(cfg, st, p) && Granted(cfg.recordingEnd, st.lastFrame, Next(st, input), p) == p.nb
    ensures pics == PicsOf(Apply(cfg, st, input, p).sent)
    ensures |pics| == |PicsOf(st.sent)| + Bit(p.nb0 > 0 && st.lastDropped) +
                      Bit(p.nb > p.nb0 || (p.nb > 0 && st.lastFrame.None?))
    ensures st.lastFrame.Some? && (p.nb0 > 0 || !st.lastDropped) ==> st.lastFrame.value in pics
    ensures input.Picture? ==> (st.received in pics <==> p.nb > p.nb0 || (p.nb > 0 && st.lastFrame.None?))
    ensures forall q :: q in pics ==> q < st.received + Bit(input.Picture?)
  {
    hide PicsOf, Copies, Needed, Shown;
    var last, next := st.lastFrame, Next(st, input);
    PicsOfAppend(st.sent, Copies(last, next, p, p.nb));
    PicsOfCopies(last, next, p);
    pics := AddedPics(PicsOf(st.sent), last, next, p.nb0 > 0 && last.Some?, p.nb > p.nb0 || (p.nb > 0 && last.None?));
  }

  lemma SentCountersExactly(cfg: Config, st: Stream, input: Input, p: Plan)
    requires Valid(cfg, st) && Feasible(cfg, st, input, p) && Accurate(st)
    requires !Oversized(cfg, st, p) && Granted(cfg.recordingEnd, st.lastFrame, Next(st, input), p) == p.nb
    ensures Accurate(Apply(cfg, st, input, p)) <==> PlanCountsExactly(cfg, st, input, p)
  {
    var pics := PicsAfter(cfg, st, input, p);
    hide PicsOf, Copies;
  }

  /** Over any run that stays clear of the faulty branches the counters are exact. */
  lemma {:induction false} CountersAreExact(cfg: Config, inputs: seq<Input>)
    requires AllCountExactly(cfg, inputs)
    ensures Accurate(Run(cfg, Start, inputs))
  {
    hide CappedPlan, Apply, PlanCountsExactly;
    if inputs == [] {
      assert PicsOf(Start.sent) == {};
    } else {
      CountersAreExact(cfg, inputs[..|inputs| - 1]);
      var st, input := Run(cfg, Start, inputs[..|inputs| - 1]), inputs[|inputs| - 1];
      CountersExactly(cfg, st, input, CappedPlan(cfg, st, input));
    }
  }

  /** The pictures below `n` that are not in `shown`. */
  ghost function Absent(n: nat, shown: set<nat>): set<nat> { set q: nat | q < n && q !in shown }

  /** The reported drops are the received pictures that appear nowhere in the output. */
  lemma DropsAreNeverShown(st: Stream)
    requires Accurate(st)
    ensures |Absent(st.received, PicsOf(st.sent))| == FinalDrops(st)
  {
    NeverShown(st.received, PicsOf(st.sent));
  }

  lemma AbsentSplits(n: nat, shown: set<nat>)
    requires n > 0
    ensures Absent(n, shown) == Absent(n - 1, shown - {n - 1}) + if n - 1 in shown then {} else {n - 1}
    ensures n - 1 !in Absent(n - 1, shown - {n - 1})
  {
  }

  lemma {:induction false} NeverShown(n: nat, shown: set<nat>)
    requires forall q :: q in shown ==> q < n
    ensures |Absent(n, shown)| == n - |shown|
    decreases n
  {
    if n == 0 {
      assert shown == {};
    } else {
      NeverShown(n - 1, shown - {n - 1});
      AbsentSplits(n, shown);
      hide Absent;
    }
  }

  /** A first picture that starts late and lasts no time is sent twice and yet counted as dropped. */
  lemma FirstPictureMiscounted()
    ensures var cfg := Config(Cfr, 0.0, 100, 3000.0, None);
            var st := Run(cfg, Start, [Picture(2.3, 0.0)]);
            && PicsOf(st.sent) == {0} && st.received == 1
            && FinalDrops(st) == 1 && st.dup == 2
  {
    var cfg := Config(Cfr, 0.0, 100, 3000.0, None);
    var input := Picture(2.3, 0.0);
    assert [input][..0] == [];
    assert Run(cfg, Start, []) == Start;
    assert Rint(2.3) == 2 && Rint(1.7) == 2;
    var p := CappedPlan(cfg, Start, input);
    assert p == Plan(0, 2, 2);
    PicsOfCopies(None, Some(0), p);
    PicsOfAppend([], Copies(None, Some(0), p, 2));
  }

  // ----- Timestamps handed to the encoder -----

  ghost predicate StrictlyIncreasing(sent: seq<Sent>) {
    forall i, j :: 0 <= i < j < |sent| ==> sent[i].pts < sent[j].pts
  }

  ghost predicate Consecutive(sent: seq<Sent>) {
    forall i :: 0 <= i < |sent| ==> sent[i].pts == sent[0].pts + i
  }

  /** Every timestamp used so far lies below the next one to use. */
  ghost predicate Ordered(st: Stream) {
    StrictlyIncreasing(st.sent) && forall i :: 0 <= i < |st.sent| ==> st.sent[i].pts < st.syncOpts
  }

  ghost predicate Gapless(st: Stream) {
    Consecutive(st.sent) && (st.sent != [] ==> st.syncOpts == st.sent[0].pts + |st.sent|)
  }

  lemma PlanNeverGoesBack(cfg: Config, st: Stream, input: Input)
    requires Valid(cfg, st)
    requires cfg.mode == Cfr || cfg.mode == Vscfr || cfg.mode == Vfr
    ensures st.syncOpts <= CappedPlan(cfg, st, input).syncOpts
    ensures cfg.mode != Vfr && st.sent != [] ==> CappedPlan(cfg, st, input).syncOpts == st.syncOpts
  {
    if input.Picture? {
      var delta0 := input.ipts - st.syncOpts as real;
      var clip := Clips(cfg.mode, delta0, delta0 + input.duration);
      var ipts' := if clip then st.syncOpts as real else input.ipts;
      if st.syncOpts as real <= ipts' { RintAtLeast(ipts', st.syncOpts); }
    }
  }

  lemma ApplyKeepsOrder(cfg: Config, st: Stream, input: Input, p: Plan)
    requires Valid(cfg, st) && Feasible(cfg, st, input, p) && Ordered(st) && st.syncOpts <= p.syncOpts
    ensures Ordered(Apply(cfg, st, input, p))
    ensures Gapless(st) && (st.sent != [] ==> p.syncOpts == st.syncOpts) ==> Gapless(Apply(cfg, st, input, p))
  {
    hide Shown, Needed;
  }

  lemma StepKeepsOrder(cfg: Config, st: Stream, input: Input)
    requires Valid(cfg, st) && Ordered(st)
    requires cfg.mode == Cfr || cfg.mode == Vscfr || cfg.mode == Vfr
    ensures Ordered(Step(cfg, st, input))
    ensures cfg.mode != Vfr && Gapless(st) ==> Gapless(Step(cfg, st, input))
  {
    PlanNeverGoesBack(cfg, st, input);
    ApplyKeepsOrder(cfg, st, input, CappedPlan(cfg, st, input));
  }

  /** Whatever the input timestamps, frames reach the encoder with increasing timestamps, without gaps at a constant rate. */
  lemma {:induction false} EncoderTimestampsIncrease(cfg: Config, inputs: seq<Input>)
    requires cfg.mode == Cfr || cfg.mode == Vscfr || cfg.mode == Vfr
    ensures Ordered(Run(cfg, Start, inputs))
    ensures cfg.mode != Vfr ==> Gapless(Run(cfg, Start, inputs))
  {
    if inputs != [] {
      EncoderTimestampsIncrease(cfg, inputs[..|inputs| - 1]);
      StepKeepsOrder(cfg, Run(cfg, Start, inputs[..|inputs| - 1]), inputs[|inputs| - 1]);
    }
  }

  // ----- Drift at a constant rate -----

  function EndTime(input: Input): real
    requires input.Picture?
  {
    input.ipts + input.duration
  }

  /** Neither the drop threshold, the frame cap, the duplication limit nor the recording time interferes. */
  predicate Unhindered(cfg: Config, st: Stream, input: Input)
    requires Valid(cfg, st)
  {
    && input.Picture? && cfg.dropThreshold == 0.0 && cfg.recordingEnd.None?
    && PicturePlan(cfg, st, input.ipts, input.duration).nb <= cfg.maxFrames - st.frameNumber
    && !Oversized(cfg, st, CappedPlan(cfg, st, input))
  }

  predicate AllUnhindered(cfg: Config, inputs: seq<Input>)
    decreases |inputs|
  {
    inputs == [] ||
    (var front := inputs[..|inputs| - 1];
     AllUnhindered(cfg, front) && Unhindered(cfg, Run(cfg, Start, front), inputs[|inputs| - 1]))
  }

  /** How far the end of the picture lies beyond the output written so far. */
  function Drift(st: Stream, input: Input): real
    requires input.Picture?
  {
    EndTime(input) - st.syncOpts as real
  }

  lemma StepDrift(cfg: Config, st: Stream, input: Input)
    requires Valid(cfg, st) && Unhindered(cfg, st, input)
    requires cfg.mode == Cfr || (cfg.mode == Vscfr && input.duration >= 0.0)
    ensures Drift(Step(cfg, st, input), input) <= if cfg.mode == Cfr then 0.5 else 1.0
    ensures Drift(st, input) >= -2.1 ==> Drift(Step(cfg, st, input), input) >= -2.1
  {
    var p := CappedPlan(cfg, st, input);
    assert Step(cfg, st, input).syncOpts == p.syncOpts + p.nb;
  }

  lemma LaterEndDriftsFurther(st: Stream, a: Input, b: Input)
    requires a.Picture? && b.Picture? && EndTime(a) <= EndTime(b)
    ensures Drift(st, a) <= Drift(st, b)
    ensures EndTime(b) >= 0.0 ==> Drift(Start, b) >= 0.0
  {
  }

  ghost predicate EndTimesGrow(inputs: seq<Input>) {
    && (forall k :: 0 <= k < |inputs| ==> inputs[k].Picture? && EndTime(inputs[k]) >= 0.0)
    && (forall j, k :: 0 <= j < k < |inputs| ==> EndTime(inputs[j]) <= EndTime(inputs[k]))
  }

  /** The output never falls more than half a tick (one after the start-up jump of VSCFR) behind, and,
      for pictures that end in order, never runs more than 2.1 ticks ahead. */
  lemma {:induction false} DriftIsBounded(cfg: Config, inputs: seq<Input>)
    requires inputs != [] && AllUnhindered(cfg, inputs)
    requires cfg.mode == Cfr || cfg.mode == Vscfr
    requires cfg.mode == Vscfr ==> forall k :: 0 <= k < |inputs| ==> inputs[k].Picture? && inputs[k].duration >= 0.0
    ensures inputs[|inputs| - 1].Picture?
    ensures Drift(Run(cfg, Start, inputs), inputs[|inputs| - 1]) <= if cfg.mode == Cfr then 0.5 else 1.0
    ensures EndTimesGrow(inputs) ==> Drift(Run(cfg, Start, inputs), inputs[|inputs| - 1]) >= -2.1
  {
    hide Step, Oversized, PicturePlan, CappedPlan, Drift, EndTime;
    var front, last := inputs[..|inputs| - 1], inputs[|inputs| - 1];
    StepDrift(cfg, Run(cfg, Start, front), last);
    if front == [] {
      LaterEndDriftsFurther(Start, last, last);
    } else {
      DriftIsBounded(cfg, front);
      if EndTimesGrow(inputs) {
        LaterEndDriftsFurther(Run(cfg, Start, front), front[|front| - 1], last);
      }
    }
  }

  /** At a constant rate the new picture takes over close to its start: the old one fills the ticks before. */
  lemma TakesOverNearStart(cfg: Config, st: Stream, input: Input)
    requires Valid(cfg, st) && Unhindered(cfg, st, input) && cfg.mode == Cfr
    requires input.duration >= 0.0 && input.ipts - st.syncOpts as real > 1.1
    ensures var p := CappedPlan(cfg, st, input);
            && p.nb0 <= p.nb && p.syncOpts == st.syncOpts
            && input.ipts - 1.1 <= (p.syncOpts + p.nb0) as real <= input.ipts - 0.1
  {
    var delta0 := input.ipts - st.syncOpts as real;
    var a, b := Rint(delta0 + input.duration), Rint(delta0 - 0.6);
    assert (b - a) as real <= 0.4;
  }

  /** At a variable rate a picture is dropped exactly when it ends 0.6 ticks before the next free one,
      and is otherwise stamped within 0.6 ticks of the time it covers. */
  lemma VfrTracksInput(cfg: Config, st: Stream, input: Input)
    requires Valid(cfg, st) && cfg.mode == Vfr && input.Picture? && input.duration >= 0.0
    requires st.frameNumber < cfg.maxFrames
    ensures var p := CappedPlan(cfg, st, input);
            && p.nb == (if Drift(st, input) <= -0.6 then 0 else 1)
            && (p.nb == 1 ==> input.ipts - 0.6 <= p.syncOpts as real <= EndTime(input) + 0.6)
  {
  }

  // ----- What every picture becomes -----

  /** The picture a call shows in its frame `i`, when the saved one, if any, gets the first `before`. */
  function PictureAt(st: Stream, input: Input, i: int, before: int): Option<nat> {
    if i < before && st.lastFrame.Some? then st.lastFrame else if input.Picture? then Some(st.received) else None
  }

  /** A call hands over `n` frames, from tick `at` on, and saves its picture. */
  ghost predicate Hands(st: Stream, st': Stream, input: Input, at: int, n: nat, before: int) {
    var m := |st.sent|;
    && |st'.sent| == m + n && st'.frameNumber == st.frameNumber + n && st'.syncOpts == at + n
    && st'.lastFrame == (if input.Picture? then Some(st.received) else None)
    && st'.received == st.received + (if input.Picture? then 1 else 0)
    && (forall j :: 0 <= j < m ==> st'.sent[j] == st.sent[j])
    && (forall j :: m <= j < m + n ==>
          st'.sent[j].pts == at + j - m && Some(st'.sent[j].pic) == PictureAt(st, input, j - m, before))
  }

  /** Neither the duplication limit nor the recording time stops a call with `n` frames. */
  predicate Free(cfg: Config, n: int, before: int) {
    cfg.recordingEnd.None? && (n == 0 || (n == 1 && before <= 0) || n as real <= cfg.dupLimit)
  }

  lemma PlanIsHandedOver(cfg: Config, st: Stream, input: Input, p: Plan)
    requires Valid(cfg, st) && Feasible(cfg, st, input, p) && Free(cfg, p.nb, p.nb0)
    requires input.Picture? || st.lastFrame.Some?
    ensures Hands(st, Apply(cfg, st, input, p), input, p.syncOpts, p.nb, p.nb0)
  {
    var last, next := st.lastFrame, Next(st, input);
    assert !Oversized(cfg, st, p);
    assert Granted(cfg.recordingEnd, last, next, p) == p.nb;
    var copies := Copies(last, next, p, p.nb);
    assert Apply(cfg, st, input, p).sent == st.sent + copies;
    hide Apply, Copies;
    forall i | 0 <= i < p.nb ensures Some(copies[i].pic) == PictureAt(st, input, i, p.nb0) {
      assert Some(copies[i].pic) == Shown(last, next, p.nb0, i);
    }
  }

  /** Capping the number of saved copies changes nothing that is shown. */
  lemma CapIsEnough(st: Stream, st': Stream, input: Input, at: int, n: nat, before: int)
    requires Hands(st, st', input, at, n, Min(before, n))
    ensures Hands(st, st', input, at, n, before)
  {
    forall i | 0 <= i < n ensures PictureAt(st, input, i, Min(before, n)) == PictureAt(st, input, i, before) {
    }
  }

  /** At a constant rate: nothing for a picture that ends more than 1.1 ticks before the output does, or below the drop
      threshold once frames were sent; one frame up to 1.1 ticks beyond it; then as many as fill the gap.  The picture before
      fills the ticks up to 0.6 before the start of a picture that starts late. */
  lemma ConstantRateOutput(cfg: Config, st: Stream, input: Input)
    requires Valid(cfg, st) && input.Picture?
    requires cfg.mode == Cfr || (cfg.mode == Vscfr && (st.frameNumber > 0 || input.ipts - st.syncOpts as real < 0.5))
    ensures var d, d0 := Drift(st, input), input.ipts - st.syncOpts as real;
            var drops := d < -1.1 || (cfg.dropThreshold != 0.0 && d < cfg.dropThreshold && st.frameNumber > 0);
            var n := Min(if drops then 0 else if d <= 1.1 then 1 else Rint(d), cfg.maxFrames - st.frameNumber);
            var before := if drops || d <= 1.1 || d0 <= 1.1 then 0 else Rint(d0 - 0.6);
            0 <= n && (Free(cfg, n, Min(before, n)) ==> Hands(st, Step(cfg, st, input), input, st.syncOpts, n, before))
  {
    var p := CappedPlan(cfg, st, input);
    var d, d0 := Drift(st, input), input.ipts - st.syncOpts as real;
    var drops := d < -1.1 || (cfg.dropThreshold != 0.0 && d < cfg.dropThreshold && st.frameNumber > 0);
    var n := Min(if drops then 0 else if d <= 1.1 then 1 else Rint(d), cfg.maxFrames - st.frameNumber);
    var before := if drops || d <= 1.1 || d0 <= 1.1 then 0 else Rint(d0 - 0.6);
    assert p == Plan(st.syncOpts, n, Min(before, n));
    hide CappedPlan, Apply, Hands;
    if Free(cfg, n, Min(before, n)) {
      PlanIsHandedOver(cfg, st, input, p);
      CapIsEnough(st, Step(cfg, st, input), input, st.syncOpts, n, before);
    }
  }

  /** VSCFR begins at the first picture, however late that is, and fills its duration. */
  lemma VscfrStartsAtPicture(cfg: Config, st: Stream, input: Input)
    requires Valid(cfg, st) && input.Picture? && cfg.mode == Vscfr && st.frameNumber == 0
    requires input.ipts - st.syncOpts as real >= 0.5
    ensures var d := input.duration;
            var n := Min(if d < -1.1 then 0 else if d <= 1.1 then 1 else Rint(d), cfg.maxFrames);
            0 <= n && (Free(cfg, n, 0) ==> Hands(st, Step(cfg, st, input), input, Rint(input.ipts), n, 0))
  {
    var p, d := CappedPlan(cfg, st, input), input.duration;
    assert p == Plan(Rint(input.ipts), Min(if d < -1.1 then 0 else if d <= 1.1 then 1 else Rint(d), cfg.maxFrames), 0);
    hide CappedPlan, Apply, Hands;
    if Free(cfg, p.nb, 0) { PlanIsHandedOver(cfg, st, input, p); }
  }

  /** At a variable rate: nothing for a picture that ends 0.6 ticks before the output does, otherwise one frame, at the
      nearest tick to its start if it ends more than 0.6 ticks beyond the output, and else at the next free one. */
  lemma VariableRateOutput(cfg: Config, st: Stream, input: Input)
    requires Valid(cfg, st) && input.Picture? && cfg.mode == Vfr && cfg.recordingEnd.None?
    ensures var d := Drift(st, input);
            var n := if d <= -0.6 || st.frameNumber == cfg.maxFrames then 0 else 1;
            var at := if d > 0.6 && input.ipts >= st.syncOpts as real then Rint(input.ipts) else st.syncOpts;
            Hands(st, Step(cfg, st, input), input, at, n, 0)
  {
    var p := CappedPlan(cfg, st, input);
    RintOfInt(st.syncOpts);
    hide Apply, Hands;
    PlanIsHandedOver(cfg, st, input, p);
  }

  lemma RintOfInt(k: int)
    ensures Rint(k as real) == k
  {
  }

  /** Passthrough and drop mode hand over every picture once, at the nearest tick. */
  lemma PassthroughOutput(cfg: Config, st: Stream, input: Input)
    requires Valid(cfg, st) && input.Picture? && (cfg.mode == Passthrough || cfg.mode == Drop) && cfg.recordingEnd.None?
    ensures Hands(st, Step(cfg, st, input), input, Rint(input.ipts), if st.frameNumber == cfg.maxFrames then 0 else 1, 0)
  {
    var p := CappedPlan(cfg, st, input);
    hide Apply, Hands;
    PlanIsHandedOver(cfg, st, input, p);
  }

  /** The flush at the end repeats the saved picture as often as the middle one of the last three gaps was long. */
  lemma FlushOutput(cfg: Config, st: Stream)
    requires Valid(cfg, st) && st.lastFrame.Some?
    ensures var n := Min(Median(st.nb0[0], st.nb0[1], st.nb0[2]), cfg.maxFrames - st.frameNumber);
            0 <= n && (Free(cfg, n, n) ==> Hands(st, Step(cfg, st, Flush), Flush, st.syncOpts, n, n))
  {
    var p := CappedPlan(cfg, st, Flush);
    hide Apply, Hands;
    if Free(cfg, p.nb, p.nb) { PlanIsHandedOver(cfg, st, Flush, p); }
  }

  /** How many copies of the saved picture call `i` of a run plans. */
  function PlannedBefore(cfg: Config, inputs: seq<Input>, i: nat): int
    requires i < |inputs|
  {
    CappedPlan(cfg, Run(cfg, Start, inputs[..i]), inputs[i]).nb0
  }

  /** The history a flush looks at: the counts of the last three calls, newest first, whatever became of those calls. */
  lemma {:induction false} HistoryIsLastThree(cfg: Config, inputs: seq<Input>, j: nat)
    requires j < 3
    ensures Run(cfg, Start, inputs).nb0[j] == if j < |inputs| then PlannedBefore(cfg, inputs, |inputs| - 1 - j) else 0
    decreases |inputs|
  {
    hide CappedPlan;
    if inputs != [] && j > 0 {
      var front := inputs[..|inputs| - 1];
      HistoryIsLastThree(cfg, front, j - 1);
      if j < |inputs| { assert front[..|inputs| - 1 - j] == inputs[..|inputs| - 1 - j]; }
    }
  }

  /** The recording time cuts off exactly the frames at or after its end. */
  lemma RecordingTimeCuts(cfg: Config, st: Stream, input: Input, end: int)
    requires Valid(cfg, st)
    ensures var free, cut := cfg.(recordingEnd := None), cfg.(recordingEnd := Some(end));
            && Valid(free, st) && Valid(cut, st)
            && var all, kept := Step(free, st, input).sent, Step(cut, st, input).sent;
               && |st.sent| <= |kept| <= |all| && kept == all[..|kept|]
               && forall j :: |st.sent| <= j < |all| ==> (j < |kept| <==> all[j].pts < end)
  {
    var free, cut := cfg.(recordingEnd := None), cfg.(recordingEnd := Some(end));
    assert CappedPlan(cut, st, input) == CappedPlan(free, st, input);
    hide CappedPlan, Apply;
    RecordingTimeCutsPlan(cfg, st, input, CappedPlan(free, st, input), end);
  }

  lemma RecordingTimeCutsPlan(cfg: Config, st: Stream, input: Input, p: Plan, end: int)
    requires Valid(cfg, st) && Feasible(cfg, st, input, p)
    ensures var all := Apply(cfg.(recordingEnd := None), st, input, p).sent;
            var kept := Apply(cfg.(recordingEnd := Some(end)), st, input, p).sent;
            && |st.sent| <= |kept| <= |all| && kept == all[..|kept|]
            && forall j :: |st.sent| <= j < |all| ==> (j < |kept| <==> all[j].pts < end)
  {
    if !Oversized(cfg, st, p) {
      var last, next := st.lastFrame, Next(st, input);
      var n, k := Granted(None, last, next, p), Granted(Some(end), last, next, p);
      var copies, fewer := Copies(last, next, p, n), Copies(last, next, p, k);
      assert Apply(cfg.(recordingEnd := None), st, input, p).sent == st.sent + copies;
      assert Apply(cfg.(recordingEnd := Some(end)), st, input, p).sent == st.sent + fewer;
      assert fewer == copies[..k];
      hide Apply, Copies, Oversized;
      assert st.sent + fewer == (st.sent + copies)[..|st.sent| + k];
    }
  }

  // ----- The stream as the program updates it -----

  class OutputStream {
    var syncOpts: int
    var frameNumber: nat
    var nb0: seq<int>
    var lastDropped: bool
    var lastFrame: Option<nat>
    var dup: int
    var drop: int
    var received: nat
    var sent: seq<Sent>

    ghost function View(): Stream
      reads this
    {
      Stream(syncOpts, frameNumber, nb0, lastDropped, lastFrame, dup, drop, received, sent)
    }

    constructor ()
      ensures View() == Start
    {
      syncOpts, frameNumber, nb0, lastDropped, lastFrame := 0, 0, [0, 0, 0], false, None;
      dup, drop, received, sent := 0, 0, 0, [];
    }

    /** The switch on the sync method: drift variables are adjusted in place. */
    method Decide(cfg: Config, input: Input) returns (nb: int, before: int)
      requires Valid(cfg, View())
      modifies `syncOpts
      ensures Plan(syncOpts, nb, before) == CappedPlan(cfg, old(View()), input)
    {
      match input {
        case Flush =>
          nb := Median(nb0[0], nb0[1], nb0[2]);
          before := nb;
        case Picture(start, length) =>
          var ipts, duration := start, length;
          var delta0 := ipts - syncOpts as real;
          var delta := delta0 + duration;
          nb, before := 1, 0;
          if delta0 < 0.0 && delta > 0.0 && cfg.mode != Passthrough && cfg.mode != Drop {
            ipts := syncOpts as real;
            duration := duration + delta0;
            delta0 := 0.0;
          }
          if cfg.mode == Cfr || cfg.mode == Vscfr {
            if cfg.mode == Vscfr && frameNumber == 0 && delta0 >= 0.5 {
              delta, delta0 := duration, 0.0;
              syncOpts := Rint(ipts);
            }
            if cfg.dropThreshold != 0.0 && delta < cfg.dropThreshold && frameNumber != 0 {
              nb := 0;
            } else if delta < -1.1 {
              nb := 0;
            } else if delta > 1.1 {
              nb := Rint(delta);
              if delta0 > 1.1 {
                before := Rint(delta0 - 0.6);
              }
            }
          } else if cfg.mode == Vfr {
            if delta <= -0.6 {
              nb := 0;
            } else if delta > 0.6 {
              syncOpts := Rint(ipts);
            }
          } else {
            syncOpts := Rint(ipts);
          }
      }
      nb := Min(nb, cfg.maxFrames - frameNumber);
      before := Min(before, nb);
    }

    /** The loop over the planned copies; it stops early when there is nothing to show or the recording time is over. */
    method SendCopies(cfg: Config, next: Option<nat>, nb: nat, before: nat)
      requires before <= nb && (next.None? ==> before == nb)
      modifies `syncOpts, `frameNumber, `sent, `lastFrame
      ensures var p := Plan(old(syncOpts), nb, before);
              var k := Granted(cfg.recordingEnd, old(lastFrame), next, p);
              && syncOpts == p.syncOpts + k && frameNumber == old(frameNumber) + k
              && sent == old(sent) + Copies(old(lastFrame), next, p, k)
              && lastFrame == (if k < nb then old(lastFrame) else next)
    {
      ghost var p := Plan(syncOpts, nb, before);
      var i := 0;
      while i < nb
        invariant 0 <= i <= Granted(cfg.recordingEnd, lastFrame, next, p)
        invariant syncOpts == p.syncOpts + i && frameNumber == old(frameNumber) + i
        invariant lastFrame == old(lastFrame)
        invariant sent == old(sent) + Copies(lastFrame, next, p, i)
      {
        var shown := if i < before && lastFrame.Some? then lastFrame else next;
        if shown.None? {
          return;
        }
        if cfg.recordingEnd.Some? && syncOpts >= cfg.recordingEnd.value {
          return;
        }
        sent := sent + [Sent(shown.value, syncOpts)];
        syncOpts := syncOpts + 1;
        frameNumber := frameNumber + 1;
        assert Copies(lastFrame, next, p, i + 1) == Copies(lastFrame, next, p, i) + [Sent(shown.value, p.syncOpts + i)];
        i := i + 1;
      }
      lastFrame := next;
    }

    /** Drop and duplicate counting; `false` when the duplication is too large and the picture is skipped. */
    method Count(cfg: Config, nb: nat, before: nat, picture: bool) returns (go: bool)
      requires before <= nb && |nb0| == 3
      modifies `nb0, `drop, `dup, `lastDropped
      ensures nb0 == [before, old(nb0)[0], old(nb0)[1]]
      ensures go <==> !Oversized(cfg, old(View()), Plan(syncOpts, nb, before))
      ensures drop == old(drop) + Bit(before == 0 && old(lastDropped)) + Bit(!go)
      ensures dup == old(dup) + if go then nb - Needed(old(View()), Plan(syncOpts, nb, before)) else 0
      ensures lastDropped == if go then nb == before && picture else old(lastDropped)
    {
      nb0 := [before] + nb0[..2];
      if before == 0 && lastDropped {
        drop := drop + 1;
      }
      if nb > Bit(before != 0 && lastDropped) + Bit(nb > before) {
        if nb as real > cfg.dupLimit {
          drop := drop + 1;
          return false;
        }
        dup := dup + nb - Bit(before != 0 && lastDropped) - Bit(nb > before);
      }
      lastDropped := nb == before && picture;
      go := true;
    }

    /** One picture, or the flush. */
    method DoVideoOut(cfg: Config, input: Input)
      requires Valid(cfg, View())
      modifies this
      ensures View() == Step(cfg, old(View()), input)
    {
      hide CappedPlan, Granted, Copies;
      var next := if input.Picture? then Some(received) else None;
      var nb, before := Decide(cfg, input);
      received := received + Bit(input.Picture?);
      var go := Count(cfg, nb, before, input.Picture?);
      if go {
        SendCopies(cfg, next, nb, before);
      }
    }
  }
}

/**
 The audio callback of ffplay at full volume.  `audio_decode_frame` hands out a
 pointer into the frame queue's slot, not a copy, and the callback reads through
 it while the decoder goes on filling the queue.
 */
module AudioFeed {
  import opened Basics
  import opened Q = FrameQueue

  /** `audio_buf`: nothing yet, a slot of the queue, or memory of the player's own (silence, resampled audio). */
  datatype Buffer = NoBuffer | InSlot(index: nat) | Own(bytes: seq<nat>)

  /** Between frames the callback copies; otherwise it is inside `audio_decode_frame`,
      before, during or after the call of `frame_queue_next`. */
  datatype Phase = Copying | Peeked(index: nat) | Moving(index: nat) | Taken(index: nat)

  /** Where a stretch of output comes from: the k-th frame ever queued, that frame resampled, or silence. */
  datatype Source = FromFrame(k: nat, data: seq<nat>) | Converted(k: nat, data: seq<nat>) | Silence(data: seq<nat>)

  /** What became of a frame, and the packet queue's serial it was compared with. */
  datatype Verdict = Verdict(current: nat, played: bool)

  datatype State = State(
    ring: Ring, phase: Phase,
    buffer: Buffer, bufSize: nat, bufIndex: nat,
    delivered: seq<nat>, sources: seq<Source>, judged: seq<Verdict>)

  function Start(maxSize: nat): State { State(Empty(maxSize, true), Copying, NoBuffer, 0, 0, [], [], []) }

  /** `serial` is the packet queue's serial as the callback reads it; a failed conversion plays silence like `Resample`. */
  datatype Action =
    | Produce(step: Step)
    | Peek | BeginMove | AdvanceMove | EndMove
    | Accept(serial: nat) | Resample(serial: nat, bytes: seq<nat>) | SkipStale(serial: nat) | PlayOwn(bytes: seq<nat>)
    | Copy(n: nat)

  predicate Exhausted(s: State) { s.bufIndex >= s.bufSize }

  /** The serial of the frame just taken. */
  function TakenSerial(s: State): Option<nat> {
    if s.phase.Taken? && s.phase.index < |s.ring.slots| && s.ring.slots[s.phase.index].Full?
    then Some(s.ring.slots[s.phase.index].frame.serial) else None
  }

  predicate Enabled(s: State, a: Action) {
    match a
    case Produce(step) => OfProducer(step) && Q.Enabled(s.ring, step)
    case Peek => s.phase == Copying && Exhausted(s) && Remaining(s.ring) > 0 && |s.ring.slots| > 0
    case BeginMove => s.phase.Peeked? && Q.Enabled(s.ring, DoBeginNext)
    case AdvanceMove => s.phase.Moving? && Q.Enabled(s.ring, DoAdvanceRead)
    case EndMove => s.phase.Moving? && Q.Enabled(s.ring, DoCountOut)
    case Accept(serial) => TakenSerial(s) == Some(serial)
    case Resample(serial, _) => TakenSerial(s) == Some(serial)
    case SkipStale(serial) => TakenSerial(s).Some? && TakenSerial(s) != Some(serial)
    case PlayOwn(_) => s.phase == Copying && Exhausted(s)
    case Copy(n) => s.phase == Copying && 0 < n <= s.bufSize - s.bufIndex
  }

  /** The bytes behind `audio_buf` at this moment. */
  function Readable(s: State): seq<nat> {
    match s.buffer
    case NoBuffer => []
    case Own(bytes) => bytes
    case InSlot(i) => if i < |s.ring.slots| && s.ring.slots[i].Full? then s.ring.slots[i].frame.data else []
  }

  /** What a copy of `n` bytes reads; unmapped memory would be missing here. */
  function Window(bytes: seq<nat>, start: nat, n: nat): seq<nat> {
    if start + n <= |bytes| then bytes[start..start + n] else []
  }

  function Judge(s: State, serial: nat, played: bool): State { s.(judged := s.judged + [Verdict(serial, played)]) }

  function NewBuffer(s: State, buffer: Buffer, source: Source): State {
    s.(phase := Copying, buffer := buffer, bufSize := |source.data|, bufIndex := 0, sources := s.sources + [source])
  }

  function Do(s: State, a: Action): State
    requires Enabled(s, a)
  {
    match a
    case Produce(step) => s.(ring := Q.Do(s.ring, step))
    case Peek => s.(phase := Peeked(PeekIndex(s.ring)))
    case BeginMove =>
      var ring := BeginNext(s.ring);
      s.(ring := ring, phase := if ring.consumer == Ready then Taken(s.phase.index) else Moving(s.phase.index))
    case AdvanceMove => s.(ring := AdvanceRead(s.ring))
    case EndMove => s.(ring := CountOut(s.ring), phase := Taken(s.phase.index))
    case Accept(serial) =>
      NewBuffer(Judge(s, serial, true), InSlot(s.phase.index),
                FromFrame(s.ring.gone, s.ring.slots[s.phase.index].frame.data))
    case Resample(serial, bytes) => NewBuffer(Judge(s, serial, true), Own(bytes), Converted(s.ring.gone, bytes))
    case SkipStale(serial) => Judge(s, serial, false).(phase := Copying)
    case PlayOwn(bytes) => NewBuffer(s, Own(bytes), Silence(bytes))
    case Copy(n) =>
      s.(delivered := s.delivered + Window(Readable(s), s.bufIndex, n), bufIndex := s.bufIndex + n)
  }

  function After(maxSize: nat, run: seq<Action>): Option<State>
    decreases |run|
  {
    if run == [] then Some(Start(maxSize))
    else
      var s := After(maxSize, run[..|run| - 1]);
      if s.Some? && Enabled(s.value, run[|run| - 1]) then Some(Do(s.value, run[|run| - 1])) else None
  }

  // ----- The invariant -----

  function Flat(sources: seq<Source>): (r: seq<nat>) {
    if sources == [] then [] else Flat(sources[..|sources| - 1]) + sources[|sources| - 1].data
  }

  /** The slot named by the phase is the one the frame is in, or will be at `rindex`. */
  ghost predicate PhaseFits(s: State) {
    var f := s.ring;
    && Inv(f) && f.keepLast
    && (f.consumer == Ready <==> !s.phase.Moving?)
    && (s.phase != Copying ==> Exhausted(s))
    && (s.phase.Peeked? ==> Remaining(f) > 0 && s.phase.index == Pos(f.rindex, f.shown, |f.slots|))
    && (s.phase.Moving? ==> f.shown == 1)
    && (s.phase.Moving? && f.consumer == Released ==> s.phase.index == Pos(f.rindex, 1, |f.slots|) && f.size >= 2)
    && (s.phase.Moving? && f.consumer == Advanced ==> s.phase.index == f.rindex && f.size >= 2)
    && (s.phase.Taken? ==> f.shown == 1 && s.phase.index == f.rindex)
  }

  /** An unfinished buffer is readable and holds the last source. */
  ghost predicate BufferFits(s: State) {
    && s.bufIndex <= s.bufSize
    && (s.sources == [] ==> s.bufSize == 0 && s.delivered == [])
    && (s.sources != [] ==> s.bufSize == |s.sources[|s.sources| - 1].data|)
    && (!Exhausted(s) ==> s.sources != [] && Readable(s) == s.sources[|s.sources| - 1].data)
    && (!Exhausted(s) && s.buffer.InSlot? ==> s.ring.shown == 1 && s.buffer.index == s.ring.rindex)
  }

  /** The output so far: all sources but the last, and as much of the last as was copied. */
  ghost predicate OutputFits(s: State) {
    s.sources != [] ==>
      var last := s.sources[|s.sources| - 1].data;
      s.bufIndex <= |last| && s.delivered == Flat(s.sources[..|s.sources| - 1]) + last[..s.bufIndex]
  }

  /** Frames are used at most once, in the order they were queued, with the bytes they were queued with. */
  ghost predicate SourcesFit(s: State) {
    && (forall i :: 0 <= i < |s.sources| && s.sources[i].FromFrame? ==>
          s.sources[i].k < |s.ring.pushed| && s.sources[i].data == s.ring.pushed[s.sources[i].k].data)
    && (forall i, j :: 0 <= i < j < |s.sources| && s.sources[i].FromFrame? && s.sources[j].FromFrame? ==>
          s.sources[i].k < s.sources[j].k)
    && (forall i :: 0 <= i < |s.sources| && s.sources[i].FromFrame? ==>
          s.sources[i].k < s.ring.gone + Bit(s.ring.shown == 1 && !s.phase.Taken?))
  }

  /** The numbers of the frames behind the output, and of those found current. */
  function FrameNumbers(sources: seq<Source>): seq<nat>
    decreases |sources|
  {
    if sources == [] then []
    else
      var last := sources[|sources| - 1];
      FrameNumbers(sources[..|sources| - 1]) + if last.Silence? then [] else [last.k]
  }

  function PlayedNumbers(judged: seq<Verdict>): seq<nat>
    decreases |judged|
  {
    if judged == [] then []
    else PlayedNumbers(judged[..|judged| - 1]) + if judged[|judged| - 1].played then [|judged| - 1] else []
  }

  /** The verdicts fit the frames, and the output is made of the played ones. */
  ghost predicate Matches(judged: seq<Verdict>, pushed: seq<Frame>, sources: seq<Source>) {
    && |judged| <= |pushed|
    && (forall k :: 0 <= k < |judged| ==> (judged[k].played <==> pushed[k].serial == judged[k].current))
    && FrameNumbers(sources) == PlayedNumbers(judged)
  }

  /** Every frame taken was judged, one after another, and played exactly if its serial was the packet queue's. */
  ghost predicate VerdictsFit(s: State) {
    && |s.judged| == s.ring.gone + Bit(s.ring.shown == 1 && !s.phase.Taken?)
    && Matches(s.judged, s.ring.pushed, s.sources)
  }

  ghost predicate Sound(s: State) {
    PhaseFits(s) && BufferFits(s) && OutputFits(s) && SourcesFit(s) && VerdictsFit(s)
  }

  /** The frame taken last stays where it is. */
  lemma TakenFrameStays(f: Ring)
    requires Inv(f) && f.consumer == Ready && f.shown == 1
    ensures f.slots[f.rindex] == Full(f.pushed[f.gone])
  {
    PeeksAreSafe(f);
  }

  lemma ProducerOnlyAdds(f: Ring, step: Step)
    requires Inv(f) && Q.Enabled(f, step) && OfProducer(step)
    ensures var g := Q.Do(f, step);
            && Inv(g) && g.keepLast == f.keepLast && |g.slots| == |f.slots| && f.pushed <= g.pushed
            && g.rindex == f.rindex && g.shown == f.shown && g.gone == f.gone && g.consumer == f.consumer
            && f.size <= g.size
  {
    StepKeepsInv(f, step);
  }

  lemma KeepsPhase(s: State, a: Action)
    requires PhaseFits(s) && Enabled(s, a)
    ensures PhaseFits(Do(s, a))
  {
    var f := s.ring;
    hide Shape, Contents;
    match a {
      case Produce(step) =>
        ProducerOnlyAdds(f, step);
        hide Q.Do, Inv;
      case Peek => PeekedIndex(f);
      case BeginMove => StepKeepsInv(f, DoBeginNext); RingShape(f);
      case AdvanceMove => StepKeepsInv(f, DoAdvanceRead); RingShape(f);
      case EndMove => StepKeepsInv(f, DoCountOut);
      case _ =>
    }
  }

  lemma RingShape(f: Ring)
    requires Inv(f)
    ensures f.rindex < |f.slots| && f.shown <= 1 && f.size <= |f.slots|
  {
  }

  lemma PeekedIndex(f: Ring)
    requires Inv(f) && Remaining(f) > 0
    ensures |f.slots| > 0 && PeekIndex(f) == Pos(f.rindex, f.shown, |f.slots|)
  {
    ModWraps(f.rindex + f.shown, |f.slots|);
  }

  lemma KeepsBuffer(s: State, a: Action)
    requires Sound(s) && Enabled(s, a)
    ensures BufferFits(Do(s, a))
  {
    hide Inv, OutputFits, SourcesFit, VerdictsFit, Q.Do;
    match a {
      case Produce(step) => ProduceKeepsBuffer(s, step);
      case Accept(_) => TakenFrameIsKnown(s);
      case _ =>
    }
  }

  lemma ProduceKeepsBuffer(s: State, step: Step)
    requires PhaseFits(s) && BufferFits(s) && Enabled(s, Produce(step))
    ensures BufferFits(Do(s, Produce(step)))
  {
    var f := s.ring;
    ProducerOnlyAdds(f, step);
    if s.buffer.InSlot? && !Exhausted(s) {
      TakenFrameStays(f);
      TakenFrameStays(Q.Do(f, step));
    }
    hide Q.Do, Inv;
  }

  /** Changing buffers happens when the old one is used up. */
  lemma NewBufferKeepsOutput(s: State, buffer: Buffer, source: Source)
    requires BufferFits(s) && OutputFits(s) && Exhausted(s)
    ensures OutputFits(NewBuffer(s, buffer, source))
  {
    var t := s.sources + [source];
    assert t[..|t| - 1] == s.sources;
    if s.sources != [] {
      var last := s.sources[|s.sources| - 1].data;
      assert last[..s.bufIndex] == last;
    }
    assert s.delivered + [] == s.delivered;
  }

  lemma KeepsOutput(s: State, a: Action)
    requires Sound(s) && Enabled(s, a)
    ensures OutputFits(Do(s, a))
  {
    hide Inv, Q.Do, Flat, SourcesFit;
    match a {
      case Accept(serial) =>
        NewBufferKeepsOutput(Judge(s, serial, true), InSlot(s.phase.index),
                             FromFrame(s.ring.gone, s.ring.slots[s.phase.index].frame.data));
      case Resample(serial, bytes) =>
        NewBufferKeepsOutput(Judge(s, serial, true), Own(bytes), Converted(s.ring.gone, bytes));
      case PlayOwn(bytes) => NewBufferKeepsOutput(s, Own(bytes), Silence(bytes));
      case Copy(n) =>
        var last := s.sources[|s.sources| - 1].data;
        assert last[..s.bufIndex + n] == last[..s.bufIndex] + last[s.bufIndex..s.bufIndex + n];
      case _ =>
    }
  }

  lemma AcceptKeepsSources(s: State, serial: nat)
    requires PhaseFits(s) && SourcesFit(s) && Enabled(s, Accept(serial))
    ensures SourcesFit(Do(s, Accept(serial)))
  {
    TakenFrameStays(s.ring);
    assert s.ring.gone < |s.ring.pushed|;
    hide Inv;
  }

  lemma KeepsSources(s: State, a: Action)
    requires Sound(s) && Enabled(s, a)
    ensures SourcesFit(Do(s, a))
  {
    hide OutputFits, BufferFits, VerdictsFit, Contents, Shape, Window, Readable;
    match a {
      case Produce(step) =>
        ProducerOnlyAdds(s.ring, step);
        hide Q.Do, Inv;
      case Accept(serial) => AcceptKeepsSources(s, serial);
      case _ =>
    }
  }

  lemma NumbersSnoc(sources: seq<Source>, source: Source, judged: seq<Verdict>, v: Verdict)
    ensures FrameNumbers(sources + [source]) == FrameNumbers(sources) + if source.Silence? then [] else [source.k]
    ensures PlayedNumbers(judged + [v]) == PlayedNumbers(judged) + if v.played then [|judged|] else []
  {
    assert (sources + [source])[..|sources|] == sources && (judged + [v])[..|judged|] == judged;
  }

  lemma TakenFrameIsKnown(s: State)
    requires PhaseFits(s) && s.phase.Taken?
    ensures s.ring.gone < |s.ring.pushed| && TakenSerial(s) == Some(s.ring.pushed[s.ring.gone].serial)
    ensures s.phase.index < |s.ring.slots| && s.ring.slots[s.phase.index].Full? && s.ring.shown == 1
  {
    TakenFrameStays(s.ring);
  }

  lemma OneMoreVerdict(judged: seq<Verdict>, pushed: seq<Frame>, sources: seq<Source>, v: Verdict, source: Source)
    requires Matches(judged, pushed, sources) && |judged| < |pushed| && !source.Silence? && source.k == |judged|
    requires v.played <==> pushed[|judged|].serial == v.current
    ensures Matches(judged + [v], pushed, if v.played then sources + [source] else sources)
  {
    NumbersSnoc(sources, source, judged, v);
    hide FrameNumbers, PlayedNumbers;
  }

  /** A verdict on the frame just taken. */
  lemma JudgingKeepsVerdicts(s: State, a: Action)
    requires PhaseFits(s) && VerdictsFit(s) && Enabled(s, a) && (a.Accept? || a.Resample? || a.SkipStale?)
    ensures VerdictsFit(Do(s, a))
  {
    assert s.phase.Taken?;
    TakenFrameIsKnown(s);
    hide PhaseFits, FrameNumbers, PlayedNumbers, TakenSerial;
    var k, v := s.ring.gone, Verdict(a.serial, !a.SkipStale?);
    var source := if a.Resample? then Converted(k, a.bytes) else FromFrame(k, s.ring.slots[s.phase.index].frame.data);
    assert Matches(s.judged, s.ring.pushed, s.sources);
    OneMoreVerdict(s.judged, s.ring.pushed, s.sources, v, source);
    hide Matches;
    var t := Do(s, a);
    assert t.judged == s.judged + [v] && t.sources == if v.played then s.sources + [source] else s.sources;
  }

  lemma KeepsVerdicts(s: State, a: Action)
    requires Sound(s) && Enabled(s, a)
    ensures VerdictsFit(Do(s, a))
  {
    hide OutputFits, BufferFits, SourcesFit, Contents, Shape, FrameNumbers, PlayedNumbers;
    match a {
      case Produce(step) =>
        ProducerOnlyAdds(s.ring, step);
        hide Q.Do, Inv;
      case PlayOwn(bytes) => NumbersSnoc(s.sources, Silence(bytes), s.judged, Verdict(0, false));
      case Accept(_) => JudgingKeepsVerdicts(s, a);
      case Resample(_, _) => JudgingKeepsVerdicts(s, a);
      case SkipStale(_) => JudgingKeepsVerdicts(s, a);
      case _ => RingShape(s.ring);
    }
  }

  lemma StartIsSound(maxSize: nat)
    requires maxSize > 0
    ensures Sound(Start(maxSize))
  {
    EmptyInv(maxSize, true);
  }

  lemma {:induction false} RunIsSound(maxSize: nat, run: seq<Action>)
    requires maxSize > 0 && After(maxSize, run).Some?
    ensures Sound(After(maxSize, run).value)
    decreases |run|
  {
    if run == [] {
      StartIsSound(maxSize);
    } else {
      var s, a := After(maxSize, run[..|run| - 1]).value, run[|run| - 1];
      RunIsSound(maxSize, run[..|run| - 1]);
      hide Do, Enabled, PhaseFits, BufferFits, OutputFits, SourcesFit, VerdictsFit;
      KeepsPhase(s, a);
      KeepsBuffer(s, a);
      KeepsOutput(s, a);
      KeepsSources(s, a);
      KeepsVerdicts(s, a);
    }
  }

  /** Whatever the decoder does meanwhile, the bytes delivered are the buffers taken, one after another, short only of the
      unread rest of the last; frames appear in queue order, each at most once and unaltered. */
  lemma DeliveredIsConcatenation(maxSize: nat, run: seq<Action>)
    requires maxSize > 0 && After(maxSize, run).Some?
    ensures var s := After(maxSize, run).value;
            && s.bufIndex <= s.bufSize
            && |Flat(s.sources)| == |s.delivered| + s.bufSize - s.bufIndex
            && s.delivered <= Flat(s.sources)
            && SourcesFit(s)
  {
    RunIsSound(maxSize, run);
    hide After, PhaseFits, SourcesFit, OutputFits, VerdictsFit;
    OutputIsPrefix(After(maxSize, run).value);
  }

  lemma OutputIsPrefix(s: State)
    requires BufferFits(s) && OutputFits(s)
    ensures |Flat(s.sources)| == |s.delivered| + s.bufSize - s.bufIndex && s.delivered <= Flat(s.sources)
  {
    if s.sources != [] {
      var front, last := Flat(s.sources[..|s.sources| - 1]), s.sources[|s.sources| - 1].data;
      assert Flat(s.sources) == front + last;
      hide Flat;
      assert last == last[..s.bufIndex] + last[s.bufIndex..];
      assert front + last == s.delivered + last[s.bufIndex..];
    }
  }

  /** A frame just taken can always be judged, and is played only under the serial it was queued with. */
  lemma TakenFramesAreJudged(maxSize: nat, run: seq<Action>)
    requires maxSize > 0 && After(maxSize, run).Some? && After(maxSize, run).value.phase.Taken?
    ensures var s := After(maxSize, run).value;
            s.ring.gone < |s.ring.pushed| && TakenSerial(s) == Some(s.ring.pushed[s.ring.gone].serial)
  {
    RunIsSound(maxSize, run);
    hide After, PhaseFits, BufferFits, OutputFits, SourcesFit, VerdictsFit;
    TakenFrameIsKnown(After(maxSize, run).value);
  }

  /** No frame is passed over: frames are judged in queue order, each once, those of the current epoch are played and the
      others are not, and the output is made of exactly the played ones, in order, and silence. */
  lemma EveryFrameIsJudged(maxSize: nat, run: seq<Action>)
    requires maxSize > 0 && After(maxSize, run).Some?
    ensures var s := After(maxSize, run).value;
            && |s.judged| == s.ring.gone + Bit(s.ring.shown == 1 && !s.phase.Taken?) <= |s.ring.pushed|
            && (forall k :: 0 <= k < |s.judged| ==> (s.judged[k].played <==> s.ring.pushed[k].serial == s.judged[k].current))
            && FrameNumbers(s.sources) == PlayedNumbers(s.judged)
  {
    RunIsSound(maxSize, run);
    hide After, PhaseFits, BufferFits, OutputFits, SourcesFit, FrameNumbers, PlayedNumbers;
  }

  /** The callback can go on: copy, take the next frame or play silence, finish taking a frame, or judge it. */
  predicate CanGoOn(s: State, serial: nat) {
    match s.phase
    case Copying =>
      && (s.bufIndex < s.bufSize ==> Enabled(s, Copy(s.bufSize - s.bufIndex)))
      && (s.bufIndex == s.bufSize ==> Enabled(s, PlayOwn([])) && (Remaining(s.ring) > 0 ==> Enabled(s, Peek)))
    case Peeked(_) => Enabled(s, BeginMove)
    case Moving(_) => Enabled(s, AdvanceMove) || Enabled(s, EndMove)
    case Taken(_) => Enabled(s, Accept(serial)) || Enabled(s, SkipStale(serial))
  }

  lemma SoundGoesOn(s: State, serial: nat)
    requires PhaseFits(s)
    ensures CanGoOn(s, serial)
  {
    hide Contents;
    if s.phase.Taken? {
      TakenFrameStays(s.ring);
      hide Shape;
    }
  }

  /** It never gets stuck, whatever the decoder does. */
  lemma CallbackGoesOn(maxSize: nat, run: seq<Action>, serial: nat)
    requires maxSize > 0 && After(maxSize, run).Some?
    ensures CanGoOn(After(maxSize, run).value, serial)
  {
    RunIsSound(maxSize, run);
    hide After, PhaseFits, BufferFits, OutputFits, SourcesFit, VerdictsFit, CanGoOn;
    SoundGoesOn(After(maxSize, run).value, serial);
  }

  /** The steps of the queue that an action of the player is. */
  function RingSteps(a: Action): seq<Step> {
    match a
    case Produce(step) => [step]
    case BeginMove => [DoBeginNext]
    case AdvanceMove => [DoAdvanceRead]
    case EndMove => [DoCountOut]
    case _ => []
  }

  function RingRun(run: seq<Action>): seq<Step>
    decreases |run|
  {
    if run == [] then [] else RingRun(run[..|run| - 1]) + RingSteps(run[|run| - 1])
  }

  /** The callback touches the queue through the queue's own steps only: every run of the player is one of the queue. */
  lemma {:induction false} PlayerRunsAreQueueRuns(maxSize: nat, run: seq<Action>)
    requires After(maxSize, run).Some?
    ensures Q.After(Empty(maxSize, true), RingRun(run)) == Some(After(maxSize, run).value.ring)
    decreases |run|
  {
    if run == [] {
      NothingDone(Empty(maxSize, true));
    } else {
      var front, a := run[..|run| - 1], run[|run| - 1];
      PlayerRunsAreQueueRuns(maxSize, front);
      StepsOnRing(After(maxSize, front).value, a);
      hide Q.After, Q.Enabled, Q.Do, Do, Enabled;
      if |RingSteps(a)| == 1 {
        AfterSnoc(Empty(maxSize, true), RingRun(front), RingSteps(a)[0]);
        assert RingSteps(a) == [RingSteps(a)[0]];
      } else {
        assert RingRun(front) + [] == RingRun(front);
      }
    }
  }

  lemma StepsOnRing(s: State, a: Action)
    requires Enabled(s, a)
    ensures |RingSteps(a)| <= 1
    ensures |RingSteps(a)| == 0 ==> Do(s, a).ring == s.ring
    ensures |RingSteps(a)| == 1 ==> Q.Enabled(s.ring, RingSteps(a)[0]) && Do(s, a).ring == Q.Do(s.ring, RingSteps(a)[0])
  {
  }

  lemma PlayerAfterSnoc(maxSize: nat, run: seq<Action>, a: Action)
    ensures After(maxSize, run + [a]) ==
            var s := After(maxSize, run); if s.Some? && Enabled(s.value, a) then Some(Do(s.value, a)) else None
  {
    assert (run + [a])[..|run|] == run;
  }

  /** A callback that has used up its buffer can take the next queued frame and judge it, whatever the decoder is at. */
  lemma NextFrameIsTaken(maxSize: nat, run: seq<Action>, serial: nat) returns (more: seq<Action>)
    requires maxSize > 0 && After(maxSize, run).Some?
    requires var s := After(maxSize, run).value; s.phase == Copying && s.bufIndex == s.bufSize && Remaining(s.ring) > 0
    ensures After(maxSize, run + more).Some?
    ensures var s, t := After(maxSize, run).value, After(maxSize, run + more).value;
            && |t.judged| == |s.judged| + 1 && t.judged[|s.judged|].current == serial && t.phase == Copying
  {
    hide After, Do, Enabled, PhaseFits, CanGoOn;
    more := [Peek, BeginMove];
    RunIsSound(maxSize, run);
    PeekAndBegin(After(maxSize, run).value, serial);
    PlayerAfterSnoc(maxSize, run, Peek);
    PlayerAfterSnoc(maxSize, run + [Peek], BeginMove);
    assert run + [Peek] + [BeginMove] == run + more;
    var s := After(maxSize, run + more).value;
    if s.phase.Moving? {
      RunIsSound(maxSize, run + more);
      MoveOn(s);
      PlayerAfterSnoc(maxSize, run + more, AdvanceMove);
      PlayerAfterSnoc(maxSize, run + more + [AdvanceMove], EndMove);
      assert run + more + [AdvanceMove] + [EndMove] == run + (more + [AdvanceMove, EndMove]);
      more := more + [AdvanceMove, EndMove];
      s := After(maxSize, run + more).value;
    }
    RunIsSound(maxSize, run + more);
    TakenFrameIsKnown(s);
    var a := if TakenSerial(s) == Some(serial) then Accept(serial) else SkipStale(serial);
    JudgesNow(s, serial);
    PlayerAfterSnoc(maxSize, run + more, a);
    assert run + more + [a] == run + (more + [a]);
    more := more + [a];
  }

  lemma PeekAndBegin(s: State, serial: nat)
    requires PhaseFits(s) && s.phase == Copying && s.bufIndex == s.bufSize && Remaining(s.ring) > 0
    ensures Enabled(s, Peek) && Enabled(Do(s, Peek), BeginMove)
    ensures var t := Do(Do(s, Peek), BeginMove);
            t.judged == s.judged && (t.phase.Taken? || (t.phase.Moving? && t.ring.consumer == Released))
  {
    hide Contents;
  }

  lemma MoveOn(s: State)
    requires PhaseFits(s) && s.phase.Moving? && s.ring.consumer == Released
    ensures Enabled(s, AdvanceMove) && Enabled(Do(s, AdvanceMove), EndMove)
    ensures var t := Do(Do(s, AdvanceMove), EndMove); t.judged == s.judged && t.phase.Taken?
  {
  }

  lemma JudgesNow(s: State, serial: nat)
    requires s.phase.Taken? && TakenSerial(s).Some?
    ensures var a := if TakenSerial(s) == Some(serial) then Accept(serial) else SkipStale(serial);
            && Enabled(s, a)
            && var t := Do(s, a); t.phase == Copying && |t.judged| == |s.judged| + 1 && t.judged[|s.judged|].current == serial
  {
  }

  // ----- The callback itself -----

  /** The first `n` results of `audio_decode_frame`, silence included, one after another. */
  function Stream(decode: nat -> seq<nat>, n: nat): seq<nat> {
    if n == 0 then [] else Stream(decode, n - 1) + decode(n - 1)
  }

  lemma Refills(decode: nat -> seq<nat>, taken: nat, done: seq<nat>, rest: seq<nat>)
    requires done + rest == Stream(decode, taken) && rest == []
    ensures done + decode(taken)[0..] == Stream(decode, taken + 1)
  {
    assert done + rest == done;
  }

  lemma ChunkMoves(done: seq<nat>, buf: seq<nat>, index: nat, n: nat)
    requires index + n <= |buf|
    ensures done + buf[index..] == done + buf[index..index + n] + buf[index + n..]
  {
    assert buf[index..] == buf[index..index + n] + buf[index + n..];
  }

  /** `sdl_audio_callback` over a source of buffers. */
  class AudioOutput {
    var buf: seq<nat>
    var index: nat
    var taken: nat
    var delivered: seq<nat>
    const decode: nat -> seq<nat>

    ghost predicate Valid()
      reads this
    {
      index <= |buf| && delivered + buf[index..] == Stream(decode, taken)
    }

    constructor (decode: nat -> seq<nat>)
      ensures Valid() && delivered == [] && this.decode == decode
    {
      this.decode := decode;
      buf, index, taken, delivered := [], 0, 0, [];
    }

    /** `gap` bounds how many empty buffers can follow each other: without a bound the loop need not end. */
    method Callback(n: nat, ghost gap: nat -> nat) returns (out: seq<nat>)
      requires Valid() && forall k: nat :: decode(k) == [] ==> gap(k + 1) < gap(k)
      modifies this
      ensures Valid() && |out| == n && delivered == old(delivered) + out
    {
      hide Stream;
      out := [];
      while |out| < n
        invariant Valid() && |out| <= n && delivered == old(delivered) + out
        decreases n - |out|, index >= |buf|, gap(taken)
      {
        if index >= |buf| {
          Refills(decode, taken, delivered, buf[index..]);
          buf := decode(taken);
          taken := taken + 1;
          index := 0;
        } else {
          var len1 := |buf| - index;
          if len1 > n - |out| {
            len1 := n - |out|;
          }
          var chunk := buf[index..index + len1];
          ChunkMoves(delivered, buf, index, len1);
          assert old(delivered) + (out + chunk) == old(delivered) + out + chunk;
          out := out + chunk;
          delivered := delivered + chunk;
          index := index + len1;
        }
      }
    }
  }

  lemma {:induction false} StreamGrows(decode: nat -> seq<nat>, m: nat, n: nat)
    requires m <= n
    ensures Stream(decode, m) <= Stream(decode, n)
    decreases n
  {
    if m < n { StreamGrows(decode, m, n - 1); }
  }

  /** Two outputs over the same buffers agree wherever both have delivered, whatever lengths their callbacks asked for. */
  lemma CallbackSizesDoNotMatter(a: AudioOutput, b: AudioOutput)
    requires a.Valid() && b.Valid() && a.decode == b.decode && |a.delivered| <= |b.delivered|
    ensures a.delivered <= b.delivered
  {
    var m := if a.taken <= b.taken then b.taken else a.taken;
    StreamGrows(a.decode, a.taken, m);
    StreamGrows(a.decode, b.taken, m);
    var all := Stream(a.decode, m);
    assert a.delivered <= all && b.delivered <= all;
  }
}

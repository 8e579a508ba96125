/**
 ffplay's frame queue: a ring with one producer and one consumer.  The indices
 move outside the mutex and only `size` changes under it; with `keepLast` the
 frame last shown stays in its slot.  Every function below from a ring to a ring
 is one step that other threads can see, so a run is an interleaving.
 */
module FrameQueue {
  import opened Basics

  datatype Frame = Frame(serial: nat, data: seq<nat>)

  /** Released, being written, or holding a frame. */
  datatype Slot = Blank | Partial | Full(frame: Frame)

  /** The producer: elsewhere; writing its slot; slot written; index moved but frame not yet counted. */
  datatype Producer = Elsewhere | Writing | Written(frame: Frame) | Pushing(frame: Frame)

  /** The consumer: between calls; frame released; index moved but frame not yet uncounted. */
  datatype Consumer = Ready | Released | Advanced

  datatype Ring = Ring(
    slots: seq<Slot>, rindex: nat, windex: nat, size: nat, keepLast: bool, shown: nat,
    producer: Producer, consumer: Consumer,
    pushed: seq<Frame>, gone: nat)   // every frame counted in so far, and how many of them were uncounted again

  function Empty(maxSize: nat, keepLast: bool): Ring {
    Ring(seq(maxSize, _ => Blank), 0, 0, 0, keepLast, 0, Elsewhere, Ready, [], 0)
  }

  function Bump(i: nat, max: nat): nat { if i + 1 == max then 0 else i + 1 }

  // ----- The producer's steps -----

  /** `frame_queue_peek_writable` found room. */
  function Claim(f: Ring): Ring
    requires f.producer == Elsewhere && f.size < |f.slots| && f.windex < |f.slots|
  {
    f.(producer := Writing, slots := f.slots[f.windex := Partial])
  }

  /** The caller gives up, for instance because decoding failed. */
  function Abandon(f: Ring): Ring
    requires f.producer == Writing
  {
    f.(producer := Elsewhere)
  }

  function Fill(f: Ring, frame: Frame): Ring
    requires f.producer == Writing && f.windex < |f.slots|
  {
    f.(producer := Written(frame), slots := f.slots[f.windex := Full(frame)])
  }

  /** The two halves of `frame_queue_push`. */
  function AdvanceWrite(f: Ring): Ring
    requires f.producer.Written?
  {
    f.(producer := Pushing(f.producer.frame), windex := Bump(f.windex, |f.slots|))
  }

  function CountIn(f: Ring): Ring
    requires f.producer.Pushing?
  {
    f.(producer := Elsewhere, size := f.size + 1, pushed := f.pushed + [f.producer.frame])
  }

  // ----- The consumer's steps -----

  /** `frame_queue_nb_remaining`. */
  function Remaining(f: Ring): int { f.size - f.shown }

  /** `frame_queue_next` up to the release of the frame at `rindex`. */
  function BeginNext(f: Ring): Ring
    requires f.consumer == Ready && Remaining(f) > 0 && f.rindex < |f.slots|
  {
    if f.keepLast && f.shown == 0 then f.(shown := 1)
    else f.(consumer := Released, slots := f.slots[f.rindex := Blank])
  }

  function AdvanceRead(f: Ring): Ring
    requires f.consumer == Released
  {
    f.(consumer := Advanced, rindex := Bump(f.rindex, |f.slots|))
  }

  function CountOut(f: Ring): Ring
    requires f.consumer == Advanced && f.size > 0
  {
    f.(consumer := Ready, size := f.size - 1, gone := f.gone + 1)
  }

  /** `frame_queue_prev`. */
  function Prev(f: Ring): Ring
    requires f.consumer == Ready
  {
    f.(shown := 0)
  }

  /** The slots that the three peeks address. */
  function PeekIndex(f: Ring): nat
    requires |f.slots| > 0
  {
    (f.rindex + f.shown) % |f.slots|
  }

  function PeekNextIndex(f: Ring): nat
    requires |f.slots| > 0
  {
    (f.rindex + f.shown + 1) % |f.slots|
  }

  // ----- The invariant -----

  /** The slot `i` places after `r`. */
  function Pos(r: nat, i: nat, max: nat): nat { if r + i < max then r + i else r + i - max }

  function Bit(b: bool): nat { if b then 1 else 0 }

  /** Frames counted in and not yet passed by `rindex`. */
  function Live(f: Ring): int { f.size - Bit(f.consumer == Advanced) }

  ghost predicate Shape(f: Ring) {
    && f.rindex < |f.slots| && f.windex < |f.slots| && f.size <= |f.slots|
    && f.shown <= 1 && (f.shown == 1 ==> f.keepLast)
    && f.shown + Bit(f.consumer != Ready) <= f.size
    && (f.producer != Elsewhere ==> f.size < |f.slots|)
    && f.windex == Pos(f.rindex, Live(f) + Bit(f.producer.Pushing?), |f.slots|)
    && |f.pushed| == f.gone + f.size
  }

  /** Frame `i` places on from `rindex`, unless just released. */
  ghost predicate HoldsFrame(f: Ring, i: nat)
    requires Shape(f) && i < Live(f)
  {
    f.slots[Pos(f.rindex, i, |f.slots|)] == Full(f.pushed[f.gone + Bit(f.consumer == Advanced) + i])
  }

  ghost predicate Contents(f: Ring)
    requires Shape(f)
  {
    && (forall i: nat :: Bit(f.consumer == Released) <= i < Live(f) ==> HoldsFrame(f, i))
    && (f.producer.Written? || f.producer.Pushing? ==>
          f.slots[Pos(f.rindex, Live(f), |f.slots|)] == Full(f.producer.frame))
    && (f.producer == Writing ==> f.slots[f.windex] == Partial)
    && (f.consumer == Released ==> f.slots[f.rindex] == Blank)
  }

  ghost predicate Inv(f: Ring) { Shape(f) && Contents(f) }

  lemma EmptyInv(maxSize: nat, keepLast: bool)
    requires maxSize > 0
    ensures Inv(Empty(maxSize, keepLast))
  {
  }

  // ----- Runs -----

  datatype Step = DoClaim | DoAbandon | DoFill(frame: Frame) | DoAdvanceWrite | DoCountIn
                | DoBeginNext | DoAdvanceRead | DoCountOut | DoPrev

  predicate OfProducer(a: Step) { a.DoClaim? || a.DoAbandon? || a.DoFill? || a.DoAdvanceWrite? || a.DoCountIn? }

  predicate Enabled(f: Ring, a: Step) {
    match a
    case DoClaim => f.producer == Elsewhere && f.size < |f.slots| && f.windex < |f.slots|
    case DoAbandon => f.producer == Writing
    case DoFill(_) => f.producer == Writing && f.windex < |f.slots|
    case DoAdvanceWrite => f.producer.Written?
    case DoCountIn => f.producer.Pushing?
    case DoBeginNext => f.consumer == Ready && Remaining(f) > 0 && f.rindex < |f.slots|
    case DoAdvanceRead => f.consumer == Released
    case DoCountOut => f.consumer == Advanced && f.size > 0
    case DoPrev => f.consumer == Ready
  }

  function Do(f: Ring, a: Step): Ring
    requires Enabled(f, a)
  {
    match a
    case DoClaim => Claim(f)
    case DoAbandon => Abandon(f)
    case DoFill(frame) => Fill(f, frame)
    case DoAdvanceWrite => AdvanceWrite(f)
    case DoCountIn => CountIn(f)
    case DoBeginNext => BeginNext(f)
    case DoAdvanceRead => AdvanceRead(f)
    case DoCountOut => CountOut(f)
    case DoPrev => Prev(f)
  }

  function After(f: Ring, run: seq<Step>): Option<Ring>
    decreases |run|
  {
    if run == [] then Some(f)
    else
      var g := After(f, run[..|run| - 1]);
      if g.Some? && Enabled(g.value, run[|run| - 1]) then Some(Do(g.value, run[|run| - 1])) else None
  }

  lemma KeepsShape(f: Ring, a: Step)
    requires Inv(f) && Enabled(f, a)
    ensures Shape(Do(f, a))
  {
    hide Contents;
  }

  /** Writing happens beyond the live frames. */
  lemma WriteOutsideLive(f: Ring, i: nat)
    requires Shape(f) && i < Live(f) && (f.producer == Writing || f.size < |f.slots|) && !f.producer.Pushing?
    ensures Pos(f.rindex, i, |f.slots|) != f.windex
  {
  }

  lemma ProducerKeepsContents(f: Ring, a: Step)
    requires Inv(f) && Enabled(f, a) && OfProducer(a) && Shape(Do(f, a))
    ensures Contents(Do(f, a))
  {
    var g := Do(f, a);
    forall i: nat | Bit(g.consumer == Released) <= i < Live(g)
      ensures HoldsFrame(g, i)
    {
      if i < Live(f) {
        assert HoldsFrame(f, i);
        if a.DoClaim? || a.DoFill? { WriteOutsideLive(f, i); }
      }
    }
  }

  lemma BeginNextKeepsContents(f: Ring)
    requires Inv(f) && Enabled(f, DoBeginNext) && Shape(BeginNext(f))
    ensures Contents(BeginNext(f))
  {
    var g := BeginNext(f);
    forall i: nat | Bit(g.consumer == Released) <= i < Live(g)
      ensures HoldsFrame(g, i)
    {
      assert HoldsFrame(f, i);
    }
  }

  lemma ConsumerKeepsContents(f: Ring, a: Step)
    requires Inv(f) && Enabled(f, a) && !OfProducer(a) && Shape(Do(f, a))
    ensures Contents(Do(f, a))
  {
    hide BeginNext;
    if a.DoBeginNext? {
      BeginNextKeepsContents(f);
    } else {
      var g := Do(f, a);
      forall i: nat | i < Live(g)
        ensures HoldsFrame(g, i)
      {
        assert HoldsFrame(f, if a.DoAdvanceRead? then i + 1 else i);
      }
    }
  }

  lemma StepKeepsInv(f: Ring, a: Step)
    requires Inv(f) && Enabled(f, a)
    ensures Inv(Do(f, a)) && |Do(f, a).slots| == |f.slots| && Do(f, a).keepLast == f.keepLast
    ensures f.pushed <= Do(f, a).pushed
  {
    KeepsShape(f, a);
    if OfProducer(a) { ProducerKeepsContents(f, a); } else { ConsumerKeepsContents(f, a); }
  }

  /** A whole call of `frame_queue_next`, if nothing comes between. */
  lemma NextKeepsInv(f: Ring)
    requires Inv(f) && f.consumer == Ready && Remaining(f) > 0
    ensures f.rindex < |f.slots| && f.size > 0 && Inv(BeginNext(f))
    ensures !(f.keepLast && f.shown == 0) ==> Inv(CountOut(AdvanceRead(BeginNext(f))))
  {
    StepKeepsInv(f, DoBeginNext);
    if !(f.keepLast && f.shown == 0) {
      StepKeepsInv(BeginNext(f), DoAdvanceRead);
      StepKeepsInv(AdvanceRead(BeginNext(f)), DoCountOut);
    }
  }

  /** Every interleaving of producer and consumer keeps the ring in order. */
  lemma {:induction false} RunKeepsInv(maxSize: nat, keepLast: bool, run: seq<Step>)
    requires maxSize > 0 && After(Empty(maxSize, keepLast), run).Some?
    ensures var f := After(Empty(maxSize, keepLast), run).value;
            Inv(f) && |f.slots| == maxSize && f.keepLast == keepLast
    decreases |run|
  {
    if run == [] {
      EmptyInv(maxSize, keepLast);
    } else {
      RunKeepsInv(maxSize, keepLast, run[..|run| - 1]);
      hide Inv, Do;
      StepKeepsInv(After(Empty(maxSize, keepLast), run[..|run| - 1]).value, run[|run| - 1]);
    }
  }

  // ----- What the invariant means -----

  lemma ModWraps(x: nat, m: nat)
    requires 0 < m && x < 2 * m
    ensures x % m == if x < m then x else x - m
  {
    if x >= m { assert x == m + (x - m); }
  }

  /** The two indices differ by the frames in between, counting the steps in progress. */
  lemma IndexLaw(f: Ring)
    requires Inv(f)
    ensures f.windex == (f.rindex + f.size + Bit(f.producer.Pushing?) - Bit(f.consumer == Advanced)) % |f.slots|
  {
    ModWraps(f.rindex + Live(f) + Bit(f.producer.Pushing?), |f.slots|);
  }

  /** Whatever the producer is doing, the peeks that their callers' checks permit return the frames in push order,
      and never the slot being written. */
  lemma PeeksAreSafe(f: Ring)
    requires Inv(f) && f.consumer == Ready
    ensures Remaining(f) > 0 ==> f.slots[PeekIndex(f)] == Full(f.pushed[f.gone + f.shown])
    ensures Remaining(f) > 1 ==> f.slots[PeekNextIndex(f)] == Full(f.pushed[f.gone + f.shown + 1])
    ensures f.shown == 1 || Remaining(f) > 0 ==> f.slots[f.rindex] == Full(f.pushed[f.gone])
    ensures f.producer == Writing || f.producer.Written? ==>
              && (Remaining(f) > 0 ==> PeekIndex(f) != f.windex)
              && (Remaining(f) > 1 ==> PeekNextIndex(f) != f.windex)
              && (f.shown == 1 || Remaining(f) > 0 ==> f.rindex != f.windex)
  {
    var max := |f.slots|;
    if Remaining(f) > 0 {
      ModWraps(f.rindex + f.shown, max);
      assert HoldsFrame(f, f.shown);
    }
    if Remaining(f) > 1 {
      ModWraps(f.rindex + f.shown + 1, max);
      assert HoldsFrame(f, f.shown + 1);
    }
    if f.shown == 1 || Remaining(f) > 0 {
      assert HoldsFrame(f, 0);
    }
  }

  /** A release empties the slot at `rindex`, and never hits the one being written either. */
  lemma ReleaseIsSafe(f: Ring)
    requires Inv(f) && f.consumer == Released
    ensures f.slots[f.rindex] == Blank
    ensures f.producer == Writing || f.producer.Written? ==> f.rindex != f.windex
    ensures f.producer == Writing ==> f.slots[f.windex] == Partial
  {
  }

  // ----- Nobody waits without a reason -----

  /** The producer can always go on but for a full queue, the consumer but for an empty one. */
  lemma NobodyIsStuck(f: Ring, frame: Frame)
    requires Inv(f)
    ensures match f.producer
            case Elsewhere => Enabled(f, DoClaim) <==> f.size < |f.slots|
            case Writing => Enabled(f, DoFill(frame)) && Enabled(f, DoAbandon) && Enabled(Do(f, DoAbandon), DoClaim)
            case Written(_) => Enabled(f, DoAdvanceWrite)
            case Pushing(_) => Enabled(f, DoCountIn)
    ensures match f.consumer
            case Ready => Enabled(f, DoPrev) && (Enabled(f, DoBeginNext) <==> f.size > f.shown)
            case Released => Enabled(f, DoAdvanceRead)
            case Advanced => Enabled(f, DoCountOut)
  {
  }

  /** The four steps that bring a frame into the queue. */
  function PushSteps(frame: Frame): seq<Step> { [DoClaim, DoFill(frame), DoAdvanceWrite, DoCountIn] }

  lemma AfterSnoc(f: Ring, run: seq<Step>, a: Step)
    ensures After(f, run + [a]) ==
            var g := After(f, run); if g.Some? && Enabled(g.value, a) then Some(Do(g.value, a)) else None
  {
    assert (run + [a])[..|run|] == run;
  }

  lemma PushStepsWork(f: Ring, frame: Frame)
    requires Inv(f) && f.producer == Elsewhere && f.size < |f.slots|
    ensures Enabled(f, DoClaim) && Enabled(Claim(f), DoFill(frame)) && Enabled(Fill(Claim(f), frame), DoAdvanceWrite)
    ensures var g := CountIn(AdvanceWrite(Fill(Claim(f), frame)));
            && Inv(g) && g.producer == Elsewhere && |g.slots| == |f.slots|
            && g.pushed == f.pushed + [frame] && g.size == f.size + 1
  {
    StepKeepsInv(f, DoClaim);
    StepKeepsInv(Claim(f), DoFill(frame));
    StepKeepsInv(Fill(Claim(f), frame), DoAdvanceWrite);
    StepKeepsInv(AdvanceWrite(Fill(Claim(f), frame)), DoCountIn);
    hide Contents;
  }

  lemma PushTakesFrame(f: Ring, frame: Frame)
    requires Inv(f) && f.producer == Elsewhere && f.size < |f.slots|
    ensures var r := After(f, PushSteps(frame));
            && r.Some? && Inv(r.value) && r.value.producer == Elsewhere && |r.value.slots| == |f.slots|
            && r.value.pushed == f.pushed + [frame] && r.value.size == f.size + 1
  {
    hide Inv, After;
    PushStepsWork(f, frame);
    var a, b, c, d := DoClaim, DoFill(frame), DoAdvanceWrite, DoCountIn;
    NothingDone(f);
    AfterSnoc(f, [], a);
    AfterSnoc(f, [a], b);
    AfterSnoc(f, [a, b], c);
    AfterSnoc(f, [a, b, c], d);
    assert [] + [a] == [a] && [a] + [b] == [a, b] && [a, b] + [c] == [a, b, c] && [a, b, c] + [d] == PushSteps(frame);
  }

  lemma {:induction false} AfterConcat(f: Ring, run: seq<Step>, more: seq<Step>)
    requires After(f, run).Some?
    ensures After(f, run + more) == After(After(f, run).value, more)
    decreases |more|
  {
    if more == [] {
      assert run + more == run;
    } else {
      var front, last := more[..|more| - 1], more[|more| - 1];
      assert run + more == run + front + [last] && more == front + [last];
      AfterConcat(f, run, front);
      AfterSnoc(f, run + front, last);
      AfterSnoc(After(f, run).value, front, last);
    }
  }

  /** The queue can be filled to its last slot. */
  lemma {:induction false} QueueFillsUp(maxSize: nat, keepLast: bool, frames: seq<Frame>) returns (run: seq<Step>)
    requires 0 < |frames| <= maxSize
    ensures var r := After(Empty(maxSize, keepLast), run);
            && r.Some? && Inv(r.value) && r.value.producer == Elsewhere && |r.value.slots| == maxSize
            && r.value.pushed == frames && r.value.size == |frames|
    decreases |frames|
  {
    hide Inv, After;
    var front, last := frames[..|frames| - 1], frames[|frames| - 1];
    EmptyInv(maxSize, keepLast);
    NothingDone(Empty(maxSize, keepLast));
    run := [];
    if front != [] { run := QueueFillsUp(maxSize, keepLast, front); }
    PushTakesFrame(After(Empty(maxSize, keepLast), run).value, last);
    AfterConcat(Empty(maxSize, keepLast), run, PushSteps(last));
    assert front + [last] == frames;
    run := run + PushSteps(last);
  }

  lemma NothingDone(f: Ring)
    ensures After(f, []) == Some(f)
  {
  }

  // ----- The queue as the program updates it -----

  class FrameQueue {
    const slots: array<Slot>
    var rindex: nat
    var windex: nat
    var size: nat
    const keepLast: bool
    var shown: nat
    ghost var producer: Producer
    ghost var consumer: Consumer
    ghost var pushed: seq<Frame>
    ghost var gone: nat

    ghost function View(): Ring
      reads this, slots
    {
      Ring(slots[..], rindex, windex, size, keepLast, shown, producer, consumer, pushed, gone)
    }

    constructor (maxSize: nat, keepLast: bool)
      requires maxSize > 0
      ensures View() == Empty(maxSize, keepLast) && Inv(View()) && fresh(slots)
    {
      slots := new Slot[maxSize](_ => Blank);
      this.keepLast := keepLast;
      rindex, windex, size, shown := 0, 0, 0, 0;
      producer, consumer, pushed, gone := Elsewhere, Ready, [], 0;
      new;
      assert slots[..] == Empty(maxSize, keepLast).slots;
      EmptyInv(maxSize, keepLast);
    }

    /** Where the next frame goes, if there is room without waiting. */
    method PeekWritable() returns (i: Option<nat>)
      requires Inv(View()) && producer == Elsewhere
      modifies `producer, slots
      ensures i.Some? <==> old(size) < slots.Length
      ensures i.Some? ==> i.value == windex && View() == Claim(old(View()))
      ensures i.None? ==> View() == old(View())
    {
      if size >= slots.Length {
        return None;
      }
      slots[windex] := Partial;
      producer := Writing;
      i := Some(windex);
    }

    method Push()
      requires Inv(View()) && producer.Written?
      modifies this
      ensures View() == CountIn(AdvanceWrite(old(View()))) && Inv(View())
    {
      StepKeepsInv(View(), DoAdvanceWrite);
      StepKeepsInv(AdvanceWrite(View()), DoCountIn);
      hide Inv;
      windex := windex + 1;
      if windex == slots.Length {
        windex := 0;
      }
      size := size + 1;
      pushed := pushed + [producer.frame];
      producer := Elsewhere;
    }

    method Next()
      requires Inv(View()) && consumer == Ready && Remaining(View()) > 0
      modifies this, slots
      ensures keepLast && old(shown) == 0 ==> View() == BeginNext(old(View()))
      ensures !(keepLast && old(shown) == 0) ==> View() == CountOut(AdvanceRead(BeginNext(old(View()))))
      ensures Inv(View())
    {
      hide Inv;
      NextKeepsInv(View());
      if keepLast && shown == 0 {
        shown := 1;
        return;
      }
      slots[rindex] := Blank;
      rindex := rindex + 1;
      if rindex == slots.Length {
        rindex := 0;
      }
      size := size - 1;
      gone := gone + 1;
    }

    /** Back to the frame shown last; reports whether there was one. */
    method Previous() returns (r: nat)
      requires Inv(View()) && consumer == Ready
      modifies `shown
      ensures View() == Prev(old(View())) && Inv(View())
      ensures r == old(shown) && Remaining(View()) == old(Remaining(View())) + r
    {
      StepKeepsInv(View(), DoPrev);
      r := shown;
      shown := 0;
    }
  }
}

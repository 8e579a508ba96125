/**
 Looping an input file: `process_input` shifts every timestamp by the length of
 the passes already played, and `seek_to_start` recomputes that length from the
 largest and smallest timestamps seen.  All streams share one time base, no
 discontinuity is corrected, and the same packets come back in every pass.

 A stream that never sees a timestamp, such as a discarded one, still takes part
 in that computation, with `INT64_MIN - INT64_MAX`.  The C language leaves this
 subtraction undefined, so its result is the parameter `overflow` and everything
 below holds whatever it is; arithmetic that wraps gives 1.
 */
module InputLoop {
  import opened Basics

  const INT64_MIN: int := -0x8000_0000_0000_0000
  const INT64_MAX: int := 0x7fff_ffff_ffff_ffff

  type Timestamp = t: int | INT64_MIN <= t <= INT64_MAX witness 0

  /** A demuxed packet: its stream, and its pts if it has one. */
  datatype Packet = Packet(stream: nat, pts: Option<Timestamp>)

  /** `samples` is the length in ticks of the last decoded audio frame, if the stream is audio and
      decoded one; `frame` is the nominal frame length used when no stream has audio; packets of a
      stream marked `discard` are thrown away. */
  datatype InputStream = InputStream(minPts: int, maxPts: int, samples: Option<nat>, frame: nat, discard: bool)

  datatype File = File(duration: int, loop: int, streams: seq<InputStream>, overflow: int)

  /** No timestamp seen yet. */
  ghost predicate Fresh(f: File) {
    f.duration == 0 && forall i :: 0 <= i < |f.streams| ==> f.streams[i].minPts == INT64_MAX && f.streams[i].maxPts == INT64_MIN
  }

  // ----- The two operations -----

  /** Packets of streams that appeared later or are not wanted are thrown away. */
  predicate Kept(f: File, stream: nat) { stream < |f.streams| && !f.streams[stream].discard }

  /** The pts a packet leaves with. */
  function Shifted(f: File, p: Packet): (r: Option<int>) {
    if Kept(f, p.stream) && p.pts.Some? then Some(p.pts.value + f.duration) else None
  }

  function Process(f: File, p: Packet): (f': File)
    ensures |f'.streams| == |f.streams| && f' == f.(streams := f'.streams)
  {
    if Shifted(f, p).None? then f
    else
      var s, pts := f.streams[p.stream], Shifted(f, p).value;
      f.(streams := f.streams[p.stream := s.(maxPts := Max(pts, s.maxPts), minPts := Min(pts, s.minPts))])
  }

  predicate HasAudio(streams: seq<InputStream>) {
    exists i :: 0 <= i < |streams| && streams[i].samples.Some?
  }

  /** With audio present only audio streams set the length of the file. */
  predicate Contributes(hasAudio: bool, s: InputStream) { hasAudio ==> s.samples.Some? }

  function LastFrame(hasAudio: bool, s: InputStream): nat
    requires Contributes(hasAudio, s)
  {
    if hasAudio then s.samples.value else s.frame
  }

  /** `max_pts - min_pts`, which overflows for a stream that saw no timestamp. */
  function Extent(s: InputStream, overflow: int): int {
    if s.maxPts == INT64_MIN && s.minPts == INT64_MAX then overflow else s.maxPts - s.minPts
  }

  function StreamLength(hasAudio: bool, s: InputStream, overflow: int): int
    requires Contributes(hasAudio, s)
  {
    LastFrame(hasAudio, s) + Extent(s, overflow)
  }

  /** `duration_max` in one time base. */
  function DurationMax(length: int, duration: int): int {
    if duration == 0 || duration < length then length else duration
  }

  /** The file length after the first `n` streams have been considered. */
  function LengthAfter(f: File, n: nat): int
    requires n <= |f.streams|
  {
    if n == 0 then f.duration
    else
      var audio, s, d := HasAudio(f.streams), f.streams[n - 1], LengthAfter(f, n - 1);
      if Contributes(audio, s) then DurationMax(StreamLength(audio, s, f.overflow), d) else d
  }

  function SeekToStart(f: File): (f': File) {
    f.(duration := LengthAfter(f, |f.streams|), loop := if f.loop > 0 then f.loop - 1 else f.loop)
  }

  /** One pass over the packets. */
  function Pass(f: File, packets: seq<Packet>): (f': File)
    ensures |f'.streams| == |f.streams| && f' == f.(streams := f'.streams)
    decreases |packets|
  {
    if packets == [] then f else Process(Pass(f, packets[..|packets| - 1]), packets[|packets| - 1])
  }

  /** The file before pass `k`. */
  function BeforePass(f: File, packets: seq<Packet>, k: nat): (f': File)
    ensures |f'.streams| == |f.streams| && f'.overflow == f.overflow
  {
    if k == 0 then f else SeekToStart(Pass(BeforePass(f, packets, k - 1), packets))
  }

  // ----- The raw time span of a stream -----

  /** The largest and the smallest pts of stream `s`. */
  function Latest(packets: seq<Packet>, s: nat): Option<int>
    decreases |packets|
  {
    if packets == [] then None
    else
      var p, rest := packets[|packets| - 1], Latest(packets[..|packets| - 1], s);
      if p.stream != s || p.pts.None? then rest
      else if rest.None? then Some(p.pts.value) else Some(Max(p.pts.value, rest.value))
  }

  function Earliest(packets: seq<Packet>, s: nat): Option<int>
    decreases |packets|
  {
    if packets == [] then None
    else
      var p, rest := packets[|packets| - 1], Earliest(packets[..|packets| - 1], s);
      if p.stream != s || p.pts.None? then rest
      else if rest.None? then Some(p.pts.value) else Some(Min(p.pts.value, rest.value))
  }

  lemma SpanOfSnoc(packets: seq<Packet>, p: Packet, s: nat)
    ensures var hi, lo := Latest(packets, s), Earliest(packets, s);
            if p.stream != s || p.pts.None? then
              Latest(packets + [p], s) == hi && Earliest(packets + [p], s) == lo
            else
              && Latest(packets + [p], s) == Some(if hi.None? then p.pts.value else Max(p.pts.value, hi.value))
              && Earliest(packets + [p], s) == Some(if lo.None? then p.pts.value else Min(p.pts.value, lo.value))
  {
    assert (packets + [p])[..|packets|] == packets;
  }

  lemma {:induction false} SpanCovers(packets: seq<Packet>, s: nat)
    ensures Earliest(packets, s).Some? <==> Latest(packets, s).Some?
    ensures forall p :: p in packets && p.stream == s && p.pts.Some? ==>
              Latest(packets, s).Some? && Earliest(packets, s).Some? &&
              Earliest(packets, s).value <= p.pts.value <= Latest(packets, s).value
    ensures Latest(packets, s).Some? ==>
              && INT64_MIN <= Earliest(packets, s).value <= Latest(packets, s).value <= INT64_MAX
              && Packet(s, Some(Earliest(packets, s).value)) in packets
              && Packet(s, Some(Latest(packets, s).value)) in packets
    decreases |packets|
  {
    if packets != [] {
      var front := packets[..|packets| - 1];
      SpanCovers(front, s);
      assert packets == front + [packets[|packets| - 1]];
    }
  }

  /** Some timestamp of stream `i` gets past the discard test. */
  ghost predicate Seen(f: File, packets: seq<Packet>, i: nat) {
    Kept(f, i) && Latest(packets, i).Some? && Earliest(packets, i).Some?
  }

  /** What one pass does to the extremes of a stream. */
  lemma {:induction false} PassExtremes(f: File, packets: seq<Packet>, s: nat)
    requires s < |f.streams|
    ensures var before, after := f.streams[s], Pass(f, packets).streams[s];
            && after == before.(maxPts := after.maxPts, minPts := after.minPts)
            && (if Seen(f, packets, s)
                then && after.maxPts == Max(before.maxPts, Latest(packets, s).value + f.duration)
                     && after.minPts == Min(before.minPts, Earliest(packets, s).value + f.duration)
                else after == before)
    decreases |packets|
  {
    SpanCovers(packets, s);
    if packets != [] {
      SpanCovers(packets[..|packets| - 1], s);
      PassExtremes(f, packets[..|packets| - 1], s);
    }
  }

  // ----- The shift grows by a fixed period -----

  ghost predicate Sets(f: File, i: nat) { i < |f.streams| && Contributes(HasAudio(f.streams), f.streams[i]) }

  /** Last frame plus raw span, for a stream that counts. */
  ghost function Span(f: File, packets: seq<Packet>, i: nat): int
    requires Sets(f, i)
  {
    LastFrame(HasAudio(f.streams), f.streams[i]) +
    if Seen(f, packets, i) then Latest(packets, i).value - Earliest(packets, i).value else f.overflow
  }

  /** The longest span among those of the first `n` streams that have timestamps. */
  ghost function Period(f: File, packets: seq<Packet>, n: nat): (r: nat)
    requires n <= |f.streams|
  {
    if n == 0 then 0
    else
      var rest := Period(f, packets, n - 1);
      if Sets(f, n - 1) && Seen(f, packets, n - 1) then Max(rest, Span(f, packets, n - 1)) else rest
  }

  /** The longest among those that have none: it does not grow from pass to pass. */
  ghost function Idle(f: File, packets: seq<Packet>, n: nat): (r: nat)
    requires n <= |f.streams|
  {
    if n == 0 then 0
    else
      var rest := Idle(f, packets, n - 1);
      if Sets(f, n - 1) && !Seen(f, packets, n - 1) then Max(rest, Span(f, packets, n - 1)) else rest
  }

  /** The span of the last of the first `n` streams that counts. */
  ghost function LastSpan(f: File, packets: seq<Packet>, n: nat): int
    requires n <= |f.streams|
  {
    if n == 0 then 0 else if Sets(f, n - 1) then Span(f, packets, n - 1) else LastSpan(f, packets, n - 1)
  }

  /** `duration_max` takes a length of zero for an unset one, so a negative length can stay. */
  ghost predicate Regular(f: File, packets: seq<Packet>, n: nat)
    requires n <= |f.streams|
  {
    Period(f, packets, n) > 0 || Idle(f, packets, n) > 0 || LastSpan(f, packets, n) >= 0
  }

  /** The period covers every stream that sets it; one of positive length is enough to be regular. */
  lemma {:induction false} PeriodCovers(f: File, packets: seq<Packet>, n: nat, i: nat)
    requires i < n <= |f.streams| && Sets(f, i) && Seen(f, packets, i)
    ensures 0 <= Span(f, packets, i) <= Period(f, packets, n)
  {
    SpanCovers(packets, i);
    if i < n - 1 { PeriodCovers(f, packets, n - 1, i); }
  }

  /** The extremes kept for a stream: the first pass set the smallest, the last one the largest. */
  ghost predicate TracksStream(f0: File, packets: seq<Packet>, s: InputStream, i: nat, shift: int)
    requires i < |f0.streams|
  {
    && s == f0.streams[i].(minPts := s.minPts, maxPts := s.maxPts)
    && (if Seen(f0, packets, i)
        then && ((s.minPts == INT64_MAX && shift == 0) || s.minPts == Earliest(packets, i).value)
             && s.maxPts <= Max(INT64_MIN, Latest(packets, i).value + shift)
        else s.minPts == INT64_MAX && s.maxPts == INT64_MIN)
  }

  ghost predicate Tracks(f0: File, packets: seq<Packet>, f: File) {
    && |f.streams| == |f0.streams| && 0 <= f.duration && f.overflow == f0.overflow
    && forall i: nat :: i < |f.streams| ==> TracksStream(f0, packets, f.streams[i], i, f.duration)
  }

  lemma SameAudio(f: File, g: File)
    requires |f.streams| == |g.streams|
    requires forall i :: 0 <= i < |f.streams| ==> f.streams[i].samples == g.streams[i].samples
    ensures HasAudio(f.streams) == HasAudio(g.streams)
  {
    if HasAudio(f.streams) {
      var i :| 0 <= i < |f.streams| && f.streams[i].samples.Some?;
      assert g.streams[i].samples.Some?;
    }
    if HasAudio(g.streams) {
      var i :| 0 <= i < |g.streams| && g.streams[i].samples.Some?;
      assert f.streams[i].samples.Some?;
    }
  }

  /** After a pass a stream's length is its span, beyond the shift of that pass if it has timestamps. */
  lemma LengthAfterPass(f0: File, packets: seq<Packet>, f: File, i: nat)
    requires Tracks(f0, packets, f) && Sets(f0, i)
    ensures var after := Pass(f, packets).streams[i];
            && Contributes(HasAudio(f0.streams), after)
            && StreamLength(HasAudio(f0.streams), after, f.overflow) ==
               Span(f0, packets, i) + if Seen(f0, packets, i) then f.duration else 0
    ensures Seen(f0, packets, i) ==> Span(f0, packets, i) >= 0
  {
    SpanCovers(packets, i);
    PassExtremes(f, packets, i);
    assert TracksStream(f0, packets, f.streams[i], i, f.duration);
  }

  lemma PassKeepsAudio(f0: File, packets: seq<Packet>, f: File)
    requires Tracks(f0, packets, f)
    ensures HasAudio(Pass(f, packets).streams) == HasAudio(f0.streams)
  {
    hide Pass;
    forall i | 0 <= i < |f.streams|
      ensures Pass(f, packets).streams[i].samples == f0.streams[i].samples
    {
      PassExtremes(f, packets, i);
      assert TracksStream(f0, packets, f.streams[i], i, f.duration);
    }
    SameAudio(Pass(f, packets), f0);
  }

  /** The loop over the streams adds the period to the kept duration, but never falls below the longest idle stream. */
  lemma {:induction false} LengthIsPeriodic(f0: File, packets: seq<Packet>, f: File, n: nat)
    requires Tracks(f0, packets, f) && n <= |f.streams|
    ensures if f.duration > 0 || Regular(f0, packets, n)
            then LengthAfter(Pass(f, packets), n) == Max(f.duration + Period(f0, packets, n), Idle(f0, packets, n))
            else LengthAfter(Pass(f, packets), n) < 0
  {
    hide Pass, StreamLength, Span, Seen;
    if n > 0 {
      LengthIsPeriodic(f0, packets, f, n - 1);
      PassKeepsAudio(f0, packets, f);
      PassExtremes(f, packets, n - 1);
      assert TracksStream(f0, packets, f.streams[n - 1], n - 1, f.duration);
      if Sets(f0, n - 1) {
        LengthAfterPass(f0, packets, f, n - 1);
      }
    }
  }

  lemma PassKeepsTrackOf(f0: File, packets: seq<Packet>, f: File, i: nat, shift: int)
    requires Tracks(f0, packets, f) && i < |f.streams| && f.duration <= shift
    ensures TracksStream(f0, packets, Pass(f, packets).streams[i], i, shift)
  {
    SpanCovers(packets, i);
    PassExtremes(f, packets, i);
    assert TracksStream(f0, packets, f.streams[i], i, f.duration);
  }

  lemma PassKeepsTrack(f0: File, packets: seq<Packet>, f: File)
    requires Tracks(f0, packets, f) && Regular(f0, packets, |f0.streams|)
    ensures Tracks(f0, packets, SeekToStart(Pass(f, packets)))
    ensures SeekToStart(Pass(f, packets)).duration ==
            Max(f.duration + Period(f0, packets, |f0.streams|), Idle(f0, packets, |f0.streams|))
  {
    hide Pass, LengthAfter, TracksStream, Period, Idle, LastSpan;
    LengthIsPeriodic(f0, packets, f, |f.streams|);
    var next := SeekToStart(Pass(f, packets));
    forall i: nat | i < |next.streams|
      ensures TracksStream(f0, packets, next.streams[i], i, next.duration)
    {
      PassKeepsTrackOf(f0, packets, f, i, next.duration);
    }
  }

  /** How far pass `k + 1` is shifted beyond pass `k`. */
  ghost function Stride(f: File, packets: seq<Packet>, k: nat): nat {
    var period := Period(f, packets, |f.streams|);
    if k == 0 then Max(period, Idle(f, packets, |f.streams|)) else period
  }

  /** The second pass starts after the longest stream, every later one a period after the one before. */
  lemma {:induction false} ShiftIsPeriodic(f: File, packets: seq<Packet>, k: nat)
    requires Fresh(f) && Regular(f, packets, |f.streams|)
    ensures Tracks(f, packets, BeforePass(f, packets, k))
    ensures BeforePass(f, packets, k).duration ==
            if k == 0 then 0 else Stride(f, packets, 0) + (k - 1) * Period(f, packets, |f.streams|)
    ensures BeforePass(f, packets, k + 1).duration == BeforePass(f, packets, k).duration + Stride(f, packets, k)
  {
    hide Pass, SeekToStart, Period, Idle, LastSpan, TracksStream;
    if k == 0 {
      FreshTracks(f, packets);
    } else {
      ShiftIsPeriodic(f, packets, k - 1);
      PassKeepsTrack(f, packets, BeforePass(f, packets, k - 1));
      NextMultiple(k - 1, Period(f, packets, |f.streams|));
    }
    PassKeepsTrack(f, packets, BeforePass(f, packets, k));
  }

  lemma FreshTracks(f: File, packets: seq<Packet>)
    requires Fresh(f)
    ensures Tracks(f, packets, f)
  {
  }

  lemma NextMultiple(k: nat, period: nat)
    ensures (k + 1) * period == k * period + period && k * period >= 0
  {
  }

  /** A positive loop count is worked off pass by pass and stops at zero, where no pass follows; a negative one never
      changes, and the file loops for ever. */
  lemma {:induction false} LoopCountsDown(f: File, packets: seq<Packet>, k: nat)
    ensures BeforePass(f, packets, k).loop == if f.loop <= 0 then f.loop else Max(0, f.loop - k)
    ensures BeforePass(f, packets, k).loop != 0 <==> f.loop < 0 || k < f.loop
  {
    hide Pass, LengthAfter;
    if k > 0 { LoopCountsDown(f, packets, k - 1); }
  }

  // ----- Passes do not overlap -----

  /** Every pts of pass `k` leaves no later than every pts of pass `k + 1`, for stream `s`. */
  ghost predicate PassesInOrder(f: File, packets: seq<Packet>, s: nat, k: nat) {
    forall p, q :: p in packets && q in packets && p.stream == q.stream == s ==>
      Ordered(Shifted(BeforePass(f, packets, k), p), Shifted(BeforePass(f, packets, k + 1), q))
  }

  ghost predicate Ordered(t: Option<int>, u: Option<int>) { t.Some? && u.Some? ==> t.value <= u.value }

  lemma {:induction false} SameKept(f: File, packets: seq<Packet>, k: nat, s: nat)
    ensures Kept(BeforePass(f, packets, k), s) == Kept(f, s)
  {
    if k > 0 {
      SameKept(f, packets, k - 1, s);
      if s < |f.streams| { PassExtremes(BeforePass(f, packets, k - 1), packets, s); }
    }
  }

  /** A stream is in order around the end of pass `k` exactly when its raw span fits into the stride. */
  lemma InOrderByStride(f: File, packets: seq<Packet>, s: nat, k: nat)
    requires Seen(f, packets, s)
    ensures PassesInOrder(f, packets, s, k) <==>
            Latest(packets, s).value - Earliest(packets, s).value <=
            BeforePass(f, packets, k + 1).duration - BeforePass(f, packets, k).duration
  {
    SpanCovers(packets, s);
    SameKept(f, packets, k, s);
    SameKept(f, packets, k + 1, s);
    hide BeforePass, Latest, Earliest;
    var now, next := BeforePass(f, packets, k), BeforePass(f, packets, k + 1);
    var hi, lo := Packet(s, Some(Latest(packets, s).value)), Packet(s, Some(Earliest(packets, s).value));
    if PassesInOrder(f, packets, s, k) {
      assert Ordered(Shifted(now, hi), Shifted(next, lo));
    }
  }

  /** A file that is not regular gets a negative duration, and its second pass starts before its first. */
  lemma IrregularStepsBack(f: File, packets: seq<Packet>)
    requires Fresh(f) && !Regular(f, packets, |f.streams|)
    ensures BeforePass(f, packets, 1).duration < BeforePass(f, packets, 0).duration
  {
    hide Pass, LengthAfter, Period, Idle, LastSpan, TracksStream;
    FreshTracks(f, packets);
    LengthIsPeriodic(f, packets, f, |f.streams|);
    assert BeforePass(f, packets, 0) == f;
    assert BeforePass(f, packets, 1) == SeekToStart(Pass(f, packets));
  }

  /** Around one pass: any stream stays in order exactly when its raw span fits into the stride. */
  lemma PassesInOrderExactly(f: File, packets: seq<Packet>, s: nat, k: nat)
    requires Fresh(f) && Seen(f, packets, s) && Regular(f, packets, |f.streams|)
    ensures PassesInOrder(f, packets, s, k) <==> Latest(packets, s).value - Earliest(packets, s).value <= Stride(f, packets, k)
  {
    hide *;
    ShiftIsPeriodic(f, packets, k);
    InOrderByStride(f, packets, s, k);
  }

  /** Around all passes: exactly when it fits into the period. */
  lemma AlwaysInOrderExactly(f: File, packets: seq<Packet>, s: nat)
    requires Fresh(f) && Seen(f, packets, s)
    ensures (forall k: nat :: PassesInOrder(f, packets, s, k)) <==>
            && Regular(f, packets, |f.streams|)
            && Latest(packets, s).value - Earliest(packets, s).value <= Period(f, packets, |f.streams|)
  {
    hide PassesInOrder, BeforePass, Period, Idle, LastSpan, Regular, Latest, Earliest;
    SpanCovers(packets, s);
    if Regular(f, packets, |f.streams|) {
      forall k: nat
        ensures PassesInOrder(f, packets, s, k) <==>
                Latest(packets, s).value - Earliest(packets, s).value <= Stride(f, packets, k)
      {
        PassesInOrderExactly(f, packets, s, k);
      }
      assert PassesInOrder(f, packets, s, 1) <==>
             Latest(packets, s).value - Earliest(packets, s).value <= Stride(f, packets, 1);
    } else {
      IrregularStepsBack(f, packets);
      InOrderByStride(f, packets, s, 0);
      assert !PassesInOrder(f, packets, s, 0);
    }
  }

  /** A stream that sets the length of the file never overlaps itself, however often the file loops, exactly if the file is regular. */
  lemma ContributingInOrderExactly(f: File, packets: seq<Packet>, s: nat)
    requires Fresh(f) && Sets(f, s) && Seen(f, packets, s)
    ensures (forall k: nat :: PassesInOrder(f, packets, s, k)) <==> Regular(f, packets, |f.streams|)
  {
    PeriodCovers(f, packets, |f.streams|, s);
    AlwaysInOrderExactly(f, packets, s);
    hide PassesInOrder, Regular, Seen, Sets, Period;
    assert Latest(packets, s).value - Earliest(packets, s).value <= Span(f, packets, s);
  }

  /** A last frame that is not empty, or an overflow that is not negative, is enough. */
  lemma ContributingStreamsInOrder(f: File, packets: seq<Packet>, s: nat, k: nat)
    requires Fresh(f) && Sets(f, s)
    requires LastFrame(HasAudio(f.streams), f.streams[s]) > 0 || f.overflow >= 0
    ensures PassesInOrder(f, packets, s, k)
  {
    SpanCovers(packets, s);
    if Seen(f, packets, s) {
      PeriodCovers(f, packets, |f.streams|, s);
      if f.overflow >= 0 { SpansArePositive(f, packets, |f.streams|); }
      ContributingInOrderExactly(f, packets, s);
    } else {
      UnseenHasNoTimes(f, packets, s, k);
    }
  }

  lemma {:induction false} SpansArePositive(f: File, packets: seq<Packet>, n: nat)
    requires n <= |f.streams| && f.overflow >= 0
    ensures LastSpan(f, packets, n) >= 0
  {
    if n > 0 {
      SpanCovers(packets, n - 1);
      SpansArePositive(f, packets, n - 1);
    }
  }

  lemma UnseenHasNoTimes(f: File, packets: seq<Packet>, s: nat, k: nat)
    requires !Seen(f, packets, s)
    ensures PassesInOrder(f, packets, s, k)
  {
    SpanCovers(packets, s);
    SameKept(f, packets, k, s);
  }

  // ----- Files that do overlap -----

  /** A stream before its first packet. */
  function Unseen(samples: Option<nat>, frame: nat): InputStream { InputStream(INT64_MAX, INT64_MIN, samples, frame, false) }

  /** A video stream longer than the audio overlaps itself. */
  lemma LongVideoOverlaps(overflow: int)
    ensures var f := File(0, -1, [Unseen(Some(1), 1), Unseen(None, 1)], overflow);
            var packets := [Packet(0, Some(0)), Packet(1, Some(0)), Packet(1, Some(9))];
            Fresh(f) && Regular(f, packets, 2) && !PassesInOrder(f, packets, 1, 0)
  {
    var f := File(0, -1, [Unseen(Some(1), 1), Unseen(None, 1)], overflow);
    var a, b, c := Packet(0, Some(0)), Packet(1, Some(0)), Packet(1, Some(9));
    var packets := [a, b, c];
    assert f.streams[0].samples.Some?;
    SpanOfSnoc([], a, 0);
    SpanOfSnoc([a], b, 0);
    SpanOfSnoc([a, b], c, 0);
    SpanOfSnoc([], a, 1);
    SpanOfSnoc([a], b, 1);
    SpanOfSnoc([a, b], c, 1);
    assert [] + [a] == [a] && [a] + [b] == [a, b] && [a, b] + [c] == packets;
    assert Latest(packets, 0) == Some(0) && Earliest(packets, 0) == Some(0);
    assert Latest(packets, 1) == Some(9) && Earliest(packets, 1) == Some(0);
    assert Period(f, packets, 0) == 0 && Period(f, packets, 1) == 1 && Period(f, packets, 2) == 1;
    assert Idle(f, packets, 0) == 0 && Idle(f, packets, 1) == 0 && Idle(f, packets, 2) == 0;
    PassesInOrderExactly(f, packets, 1, 0);
  }

  /** With an overflow below zero, a stream of length zero followed by one without timestamps overlaps itself. */
  lemma NegativeOverflowOverlaps(overflow: int)
    requires overflow < 0
    ensures var f := File(0, -1, [Unseen(None, 0), Unseen(None, 0)], overflow);
            var packets := [Packet(0, Some(0))];
            Fresh(f) && Sets(f, 0) && !PassesInOrder(f, packets, 0, 0)
  {
    var f := File(0, -1, [Unseen(None, 0), Unseen(None, 0)], overflow);
    var a := Packet(0, Some(0));
    SpanOfSnoc([], a, 0);
    SpanOfSnoc([], a, 1);
    assert [] + [a] == [a];
    assert Latest([a], 0) == Some(0) && Earliest([a], 0) == Some(0) && Latest([a], 1) == None;
    assert Sets(f, 0) && Sets(f, 1) && Seen(f, [a], 0) && !Seen(f, [a], 1);
    assert Period(f, [a], 0) == 0 && Period(f, [a], 1) == 0 && Period(f, [a], 2) == 0;
    assert Idle(f, [a], 0) == 0 && Idle(f, [a], 1) == 0 && Idle(f, [a], 2) == 0;
    assert LastSpan(f, [a], 2) == overflow;
    IrregularStepsBack(f, [a]);
    InOrderByStride(f, [a], 0, 0);
  }

  // ----- The file as the program updates it -----

  class InputFile {
    var duration: int
    var loop: int
    var streams: seq<InputStream>
    /** What `INT64_MIN - INT64_MAX` yields. */
    const overflow: int

    ghost function View(): File
      reads this
    {
      File(duration, loop, streams, overflow)
    }

    method ProcessPacket(p: Packet) returns (pts: Option<int>)
      modifies `streams
      ensures View() == Process(old(View()), p)
      ensures pts == Shifted(old(View()), p)
    {
      pts := None;
      if p.stream >= |streams| {
        return;
      }
      var s := streams[p.stream];
      if s.discard {
        return;
      }
      if p.pts.Some? {
        var t := p.pts.value + duration;
        s := s.(maxPts := Max(t, s.maxPts));
        s := s.(minPts := Min(t, s.minPts));
        streams := streams[p.stream := s];
        pts := Some(t);
      }
    }

    method Rewind()
      modifies `duration, `loop
      ensures View() == SeekToStart(old(View()))
    {
      var audio := false;
      for i := 0 to |streams|
        invariant duration == old(duration) && loop == old(loop)
        invariant audio <==> exists j :: 0 <= j < i && streams[j].samples.Some?
      {
        if streams[i].samples.Some? {
          audio := true;
        }
      }
      assert audio == HasAudio(streams);
      for i := 0 to |streams|
        invariant duration == LengthAfter(old(View()), i) && loop == old(loop)
      {
        var s := streams[i];
        if audio && s.samples.None? {
          continue;
        }
        var length := if audio then s.samples.value else s.frame;
        length := length + Extent(s, overflow);
        if duration == 0 || duration < length {
          duration := length;
        }
      }
      if loop > 0 {
        loop := loop - 1;
      }
    }
  }
}

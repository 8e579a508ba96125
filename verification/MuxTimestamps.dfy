/**
 The timestamps that `write_frame` lets through to the muxer.  Timestamps are
 mathematical integers; `NOPTS` is the sentinel AV_NOPTS_VALUE and takes part in
 comparisons as a number, as it does in the program.
 */
module MuxTimestamps {
  import opened Basics

  const NOPTS: int := -0x8000_0000_0000_0000

  type Timestamp = t: int | NOPTS <= t witness 0

  datatype Kind = Video | Audio | Other

  datatype Packet = Packet(pts: Timestamp, dts: Timestamp)

  /** `discards`: VSYNC_DROP for video, or a negative audio sync method.
      `counted`: everything but encoded video is counted, and capped, here. */
  datatype Muxer = Muxer(kind: Kind, discards: bool, counted: bool, maxFrames: nat,
                         noTimestamps: bool, nonStrict: bool)

  /** The per-stream state, and what the muxer has been given. */
  datatype Stream = Stream(lastMuxDts: Timestamp, frameNumber: nat, written: seq<Packet>)

  const Start := Stream(NOPTS, 0, [])

  /** The replacement for a dts beyond its pts. */
  function Guess(p: Packet, last: Timestamp): (g: int) {
    p.pts + p.dts + last + 1
      - Min(Min(p.pts, p.dts), last + 1) - Max(Max(p.pts, p.dts), last + 1)
  }

  /** The guess is the next free dts, moved into the packet's own span. */
  lemma GuessClampsNextDts(p: Packet, last: Timestamp)
    requires p.pts < p.dts
    ensures Guess(p, last) == Max(p.pts, Min(p.dts, last + 1))
  {
  }

  /** First repair: a packet may not be decoded after it is shown. */
  function OrderPtsDts(p: Packet, last: Timestamp): (r: Packet)
    ensures r.dts == NOPTS <==> p.dts == NOPTS
    ensures r.pts != NOPTS && r.dts != NOPTS ==> r.dts <= r.pts
    ensures p.dts <= p.pts || p.pts == NOPTS ==> r == p
  {
    if p.dts != NOPTS && p.pts != NOPTS && p.dts > p.pts then Packet(Guess(p, last), Guess(p, last)) else p
  }

  /** Second repair: dts must move on from packet to packet. */
  function AdvanceDts(m: Muxer, p: Packet, last: Timestamp): (r: Packet)
    ensures r.dts == NOPTS <==> p.dts == NOPTS
  {
    var least := last + (if m.nonStrict then 0 else 1);
    if m.kind != Other && p.dts != NOPTS && last != NOPTS && p.dts < least then
      Packet(if p.pts >= p.dts then Max(p.pts, least) else p.pts, least)
    else p
  }

  function Repaired(m: Muxer, p: Packet, last: Timestamp): (r: Packet) {
    var q := if m.discards && m.kind != Other then Packet(NOPTS, NOPTS) else p;
    if m.noTimestamps then q else AdvanceDts(m, OrderPtsDts(q, last), last)
  }

  function Step(m: Muxer, st: Stream, p: Packet): (st': Stream) {
    if m.counted && st.frameNumber >= m.maxFrames then st
    else
      var q := Repaired(m, p, st.lastMuxDts);
      Stream(q.dts, st.frameNumber + if m.counted then 1 else 0, st.written + [q])
  }

  function Run(m: Muxer, st: Stream, packets: seq<Packet>): (st': Stream)
    decreases |packets|
  {
    if packets == [] then st else Run(m, Step(m, st, packets[0]), packets[1..])
  }

  // ----- What the muxer sees -----

  /** `b` may follow `a`. */
  predicate Follows(m: Muxer, a: Packet, b: Packet) { if m.nonStrict then a.dts <= b.dts else a.dts < b.dts }

  /** Packets `i` to `j` all carry a dts. */
  ghost predicate Stamped(s: seq<Packet>, i: nat, j: nat)
    requires j < |s|
  {
    forall k :: i <= k <= j ==> s[k].dts != NOPTS
  }

  /** Within every stretch of stamped packets dts moves on, and no packet is decoded after it is shown. */
  ghost predicate WellTimed(m: Muxer, s: seq<Packet>) {
    && (forall i: nat, j: nat :: i < j < |s| && Stamped(s, i, j) ==> Follows(m, s[i], s[j]))
    && (forall i :: 0 <= i < |s| && s[i].pts != NOPTS && s[i].dts != NOPTS ==> s[i].dts <= s[i].pts)
  }

  ghost predicate Valid(m: Muxer, st: Stream) {
    && WellTimed(m, st.written)
    && st.lastMuxDts == (if st.written == [] then NOPTS else st.written[|st.written| - 1].dts)
  }

  lemma RepairedFollows(m: Muxer, p: Packet, last: Timestamp)
    requires m.kind != Other && !m.noTimestamps
    ensures var q := Repaired(m, p, last);
            && (q.pts != NOPTS && q.dts != NOPTS ==> q.dts <= q.pts)
            && (q.dts != NOPTS && last != NOPTS ==> if m.nonStrict then last <= q.dts else last < q.dts)
  {
  }

  lemma StepKeepsTiming(m: Muxer, st: Stream, p: Packet)
    requires m.kind != Other && !m.noTimestamps && Valid(m, st)
    ensures Valid(m, Step(m, st, p))
  {
    RepairedFollows(m, p, st.lastMuxDts);
    hide Repaired;
    var s, t := st.written, Step(m, st, p).written;
    assert forall k {:trigger s[k]} :: 0 <= k < |s| ==> s[k] == t[k];
    forall i: nat, j: nat | i < j < |t| && Stamped(t, i, j)
      ensures Follows(m, t[i], t[j])
    {
      if j < |s| {
        assert Stamped(s, i, j);
      } else if i + 1 < j {
        assert s[j - 1] == t[j - 1];
        assert Stamped(s, i, j - 1);
      }
    }
  }

  /** Audio and video to a muxer that uses timestamps, over any run, whatever the packets carry. */
  lemma {:induction false} MuxedTimestampsAdvance(m: Muxer, st: Stream, packets: seq<Packet>)
    requires m.kind != Other && !m.noTimestamps && Valid(m, st)
    ensures Valid(m, Run(m, st, packets))
    decreases |packets|
  {
    if packets != [] {
      StepKeepsTiming(m, st, packets[0]);
      MuxedTimestampsAdvance(m, Step(m, st, packets[0]), packets[1..]);
    }
  }

  /** Order across a packet without a dts is lost: the guard compares with the previous packet only. */
  lemma UnstampedPacketResetsOrder()
    ensures var m := Muxer(Video, false, false, 0, false, false);
            var w := Run(m, Start, [Packet(10, 10), Packet(NOPTS, NOPTS), Packet(5, 5)]).written;
            |w| == 3 && w[2].dts < w[0].dts
  {
    var m := Muxer(Video, false, false, 0, false, false);
    var ps := [Packet(10, 10), Packet(NOPTS, NOPTS), Packet(5, 5)];
    assert ps[1..] == [ps[1], ps[2]] && ps[1..][1..] == [ps[2]] && ps[1..][1..][1..] == [];
    var s1 := Step(m, Start, ps[0]);
    assert s1 == Stream(10, 0, [ps[0]]);
    var s2 := Step(m, s1, ps[1]);
    assert s2 == Stream(NOPTS, 0, [ps[0], ps[1]]);
    assert Step(m, s2, ps[2]).written == [ps[0], ps[1], ps[2]];
    assert Run(m, s1, ps[1..]) == Run(m, s2, ps[1..][1..]);
  }

  /** Order among all packets that carry a dts, across those that carry none. */
  ghost predicate FullyOrdered(m: Muxer, s: seq<Packet>) {
    forall i, j :: 0 <= i < j < |s| && s[i].dts != NOPTS && s[j].dts != NOPTS ==> Follows(m, s[i], s[j])
  }

  /** The dts a packet would like to leave with. */
  function Wish(p: Packet): int { if p.pts != NOPTS then Min(p.pts, p.dts) else p.dts }

  lemma UnguardedLeavesAsWished(m: Muxer, p: Packet)
    requires !(m.discards && m.kind != Other) && !m.noTimestamps && p.dts != NOPTS
    ensures Repaired(m, p, NOPTS).dts == Wish(p)
  {
  }

  /** That order survives a packet exactly if its dts is discarded, it is beyond the cap, it has no dts, there is a previous
      dts to compare with, or it is late enough anyway. */
  lemma FullOrderKeptExactly(m: Muxer, st: Stream, p: Packet)
    requires m.kind != Other && !m.noTimestamps
    requires Valid(m, st) && FullyOrdered(m, st.written)
    ensures FullyOrdered(m, Step(m, st, p).written) <==>
            || m.discards || (m.counted && st.frameNumber >= m.maxFrames)
            || p.dts == NOPTS || st.lastMuxDts != NOPTS
            || forall i :: 0 <= i < |st.written| && st.written[i].dts != NOPTS ==> Follows(m, st.written[i], Packet(NOPTS, Wish(p)))
  {
    if m.counted && st.frameNumber >= m.maxFrames {
      return;
    }
    RepairedFollows(m, p, st.lastMuxDts);
    if !m.discards && p.dts != NOPTS { UnguardedLeavesAsWished(m, p); }
    var s, q := st.written, Repaired(m, p, st.lastMuxDts);
    assert q.dts == NOPTS <==> m.discards || p.dts == NOPTS;
    hide Repaired, WellTimed, Wish;
    var t := s + [q];
    assert Step(m, st, p).written == t && t[|s|] == q;
    assert forall i {:trigger s[i]} :: 0 <= i < |s| ==> s[i] == t[i];
  }

  /** Packets that are already in order pass through untouched. */
  lemma GoodTimestampsUntouched(m: Muxer, p: Packet, last: Timestamp)
    requires !(m.discards && m.kind != Other)
    requires p.dts <= p.pts || p.pts == NOPTS
    requires last == NOPTS || Follows(m, Packet(NOPTS, last), p)
    ensures Repaired(m, p, last) == p
  {
  }

  // ----- How far a repair goes -----

  /** The dts a packet asks for: its own or, beyond its pts, the next free one moved into the packet's own span. */
  function AskedDts(p: Packet, last: Timestamp): int {
    if p.pts != NOPTS && p.pts < p.dts then Max(p.pts, Min(p.dts, last + 1)) else p.dts
  }

  /** Audio and video leave with the least dts that is not below the one asked for and follows the last one, and are shown
      no later than they have to be. */
  lemma RepairIsLeast(m: Muxer, p: Packet, last: Timestamp)
    requires m.kind != Other && !m.noTimestamps && !m.discards && p.dts != NOPTS
    ensures var q := Repaired(m, p, last);
            && q.dts == (if last == NOPTS then AskedDts(p, last)
                         else Max(AskedDts(p, last), if m.nonStrict then last else last + 1))
            && q.pts == (if p.pts == NOPTS then NOPTS else Max(p.pts, q.dts))
  {
  }

  /** Subtitles and data are not held to the last dts; nothing at all happens to timestamps the muxer does not use or
      packets without a dts; discarding takes both timestamps away. */
  lemma RepairOfOthers(m: Muxer, p: Packet, last: Timestamp)
    ensures m.kind == Other && !m.noTimestamps && p.dts != NOPTS ==>
              Repaired(m, p, last) == Packet(if p.pts == NOPTS then NOPTS else Max(p.pts, AskedDts(p, last)), AskedDts(p, last))
    ensures (m.noTimestamps || p.dts == NOPTS) && (m.kind == Other || !m.discards) ==> Repaired(m, p, last) == p
    ensures m.kind != Other && m.discards ==> Repaired(m, p, last) == Packet(NOPTS, NOPTS)
  {
  }

  /** Every packet is written once, up to the cap where packets are counted, each repaired against the one before. */
  lemma {:induction false} PacketsAreWritten(m: Muxer, st: Stream, packets: seq<Packet>)
    ensures var w, st' := st.written, Run(m, st, packets);
            var n := if m.counted then Min(|packets|, Max(0, m.maxFrames - st.frameNumber)) else |packets|;
            && |st'.written| == |w| + n && st'.written[..|w|] == w
            && st'.frameNumber == st.frameNumber + (if m.counted then n else 0)
            && (forall i :: 0 <= i < n ==>
                  st'.written[|w| + i] == Repaired(m, packets[i], if i == 0 then st.lastMuxDts else st'.written[|w| + i - 1].dts))
            && st'.lastMuxDts == (if n == 0 then st.lastMuxDts else st'.written[|w| + n - 1].dts)
    decreases |packets|
  {
    hide Repaired;
    if packets != [] {
      PacketsAreWritten(m, Step(m, st, packets[0]), packets[1..]);
    }
  }

  // ----- The stream as the program updates it -----

  class OutputStream {
    var lastMuxDts: Timestamp
    var frameNumber: nat
    var written: seq<Packet>

    ghost function View(): Stream
      reads this
    {
      Stream(lastMuxDts, frameNumber, written)
    }

    constructor ()
      ensures View() == Start
    {
      lastMuxDts, frameNumber, written := NOPTS, 0, [];
    }

    method WriteFrame(m: Muxer, packet: Packet)
      modifies this
      ensures View() == Step(m, old(View()), packet)
      ensures m.kind != Other && !m.noTimestamps && !m.discards && packet.dts != NOPTS && written != old(written) ==>
                var last := old(lastMuxDts);
                lastMuxDts == if last == NOPTS then AskedDts(packet, last)
                              else Max(AskedDts(packet, last), if m.nonStrict then last else last + 1)
    {
      if m.kind != Other && !m.noTimestamps && !m.discards && packet.dts != NOPTS { RepairIsLeast(m, packet, lastMuxDts); }
      var pts, dts := packet.pts, packet.dts;
      if m.discards && m.kind != Other {
        pts, dts := NOPTS, NOPTS;
      }
      if m.counted {
        if frameNumber >= m.maxFrames {
          return;
        }
        frameNumber := frameNumber + 1;
      }
      if !m.noTimestamps {
        if dts != NOPTS && pts != NOPTS && dts > pts {
          pts := pts + dts + lastMuxDts + 1
            - Min(Min(pts, dts), lastMuxDts + 1) - Max(Max(pts, dts), lastMuxDts + 1);
          dts := pts;
        }
        if m.kind != Other && dts != NOPTS && lastMuxDts != NOPTS {
          var least := lastMuxDts + if m.nonStrict then 0 else 1;
          if dts < least {
            if pts >= dts {
              pts := Max(pts, least);
            }
            dts := least;
          }
        }
      }
      lastMuxDts := dts;
      written := written + [Packet(pts, dts)];
    }
  }
}

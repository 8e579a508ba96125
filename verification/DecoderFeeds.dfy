/**
 What the decoder thread of ffplay does with the packets it gets: in the runs of
 `DecoderEpochs`, no packet of the current epoch is lost, repeated or overtaken
 on its way from the reader to the codec, and a packet is fed until it is used up.
 */
module DecoderFeeds {
  import opened Basics
  import opened PacketQueue
  import opened DecoderEpochs

  // ----- Where the packets of an epoch are -----

  /** The packets of epoch `n` among some entries, flush packets left out. */
  function OfEpoch(entries: seq<Entry>, n: nat): seq<Entry>
    decreases |entries|
  {
    if entries == [] then []
    else
      var last := entries[|entries| - 1];
      OfEpoch(entries[..|entries| - 1], n) + if !last.pkt.Flush? && last.serial == n then [last] else []
  }

  /** The packets of epoch `n` that were fed, each once. */
  function PacketsFed(log: seq<Event>, n: nat): seq<Entry>
    decreases |log|
  {
    if log == [] then []
    else
      var last := log[|log| - 1];
      PacketsFed(log[..|log| - 1], n) + if last.Fed? && !last.again && last.entry.serial == n then [last.entry] else []
  }

  /** The packet of epoch `n` that has left the queue and is still to be fed; a stale one never will. */
  function InHand(s: State, n: nat): seq<Entry> {
    match s.decoder
    case Holding(e) => if !e.pkt.Flush? && e.serial == n == s.queue.serial then [e] else []
    case Decoding => if !s.again && s.pkt.serial == n then [s.pkt] else []
    case _ => []
  }

  /** The queue takes packets, and no seek has emptied it without having put its flush packet. */
  predicate Settled(s: State) { !s.queue.abort && s.reader != Restarting }

  /** Every packet of the current epoch was fed, or is in the decoder's hands, or is queued, in this order. */
  ghost predicate NoneLost(s: State) {
    var n := s.queue.serial;
    OfEpoch(s.puts, n) == PacketsFed(s.log, n) + InHand(s, n) + OfEpoch(s.queue.entries, n)
  }

  /** Of an earlier epoch the packets at the end may be missing, but none in between. */
  ghost predicate NoneSkipped(s: State, n: nat) { PacketsFed(s.log, n) + InHand(s, n) <= OfEpoch(s.puts, n) }

  /** A decoder that is not about to feed a new packet keeps only what is left of an old one; a queue that a seek has
      emptied holds no packets yet. */
  ghost predicate LeftOvers(s: State) {
    && (s.pending && (s.decoder == Top || s.decoder == Choosing || s.decoder == Returned) ==> s.again)
    && (s.reader == Restarting ==> forall e :: e in s.queue.entries ==> e.pkt.Flush?)
  }

  lemma OfEpochSnoc(entries: seq<Entry>, e: Entry, n: nat)
    ensures OfEpoch(entries + [e], n) == OfEpoch(entries, n) + if !e.pkt.Flush? && e.serial == n then [e] else []
  {
    assert (entries + [e])[..|entries|] == entries;
  }

  lemma {:induction false} OfEpochHead(entries: seq<Entry>, n: nat)
    requires entries != []
    ensures OfEpoch(entries, n) == OfEpoch(entries[..1], n) + OfEpoch(entries[1..], n)
    decreases |entries|
  {
    if |entries| == 1 {
      assert entries[..1] == entries;
    } else {
      var front, last := entries[..|entries| - 1], entries[|entries| - 1];
      OfEpochHead(front, n);
      assert front[..1] == entries[..1] && front[1..] == entries[1..][..|entries| - 2];
    }
  }

  lemma OfEpochOne(e: Entry, n: nat)
    ensures OfEpoch([e], n) == if !e.pkt.Flush? && e.serial == n then [e] else []
  {
    OfEpochSnoc([], e, n);
    assert [] + [e] == [e];
  }

  lemma PacketsFedSnoc(log: seq<Event>, e: Event, n: nat)
    ensures PacketsFed(log + [e], n) ==
            PacketsFed(log, n) + if e.Fed? && !e.again && e.entry.serial == n then [e.entry] else []
  {
    assert (log + [e])[..|log|] == log;
  }

  /** Nothing of an epoch that has not begun. */
  lemma {:induction false} NothingAhead(entries: seq<Entry>, n: nat)
    requires forall e :: e in entries ==> e.pkt.Flush? || e.serial != n
    ensures OfEpoch(entries, n) == []
    decreases |entries|
  {
    if entries != [] {
      assert entries[|entries| - 1] in entries;
      NothingAhead(entries[..|entries| - 1], n);
    }
  }

  lemma {:induction false} NothingFedAhead(log: seq<Event>, n: nat)
    requires forall i :: 0 <= i < |log| && log[i].Fed? ==> log[i].entry.serial != n
    ensures PacketsFed(log, n) == []
    decreases |log|
  {
    if log != [] {
      NothingFedAhead(log[..|log| - 1], n);
    }
  }

  /** A new epoch starts with empty hands. */
  lemma NewEpochIsEmpty(s: State, n: nat)
    requires Inv(s) && n > s.queue.serial
    ensures OfEpoch(s.puts, n) == [] && PacketsFed(s.log, n) == [] && OfEpoch(s.queue.entries, n) == []
    ensures s.pktSerial <= s.queue.serial
  {
    hide Phases, Held, Finished, CodecSerial;
    ChainedAscends(s.queue.entries, s.pktSerial);
    hide Epochs, Chained;
    NothingAhead(s.puts, n);
    NothingAhead(s.queue.entries, n);
    forall i | 0 <= i < |s.log| && s.log[i].Fed? ensures s.log[i].entry.serial != n {
      assert Fits(s.log[i], CodecSerial(s.log[..i]), s.puts);
    }
    NothingFedAhead(s.log, n);
  }

  // ----- Reader and main thread -----

  lemma PutKeepsNoneLost(s: State, p: Packet)
    requires !p.Flush? && !s.queue.abort && NoneLost(s)
    ensures NoneLost(ReaderPut(s, p))
  {
    var n := s.queue.serial;
    OfEpochSnoc(s.puts, Entry(p, n), n);
    OfEpochSnoc(s.queue.entries, Entry(p, n), n);
    hide OfEpoch, PacketsFed;
    assert InHand(ReaderPut(s, p), n) == InHand(s, n);
  }

  /** A flush packet opens an epoch of which nothing was read yet. */
  lemma FlushKeepsNoneLost(s: State, t: State)
    requires Inv(s) && t.queue.entries == s.queue.entries + [Entry(Flush, t.queue.serial)]
    requires t.queue.serial == s.queue.serial + 1 && t.puts == s.puts && t.log == s.log
    requires t.decoder == s.decoder && t.pkt == s.pkt
    ensures NoneLost(t)
  {
    var n := t.queue.serial;
    NewEpochIsEmpty(s, n);
    OfEpochSnoc(s.queue.entries, Entry(Flush, n), n);
    hide OfEpoch, PacketsFed, Phases, Epochs, FedInEpoch, Origins, Finished, CodecSerial;
    assert InHand(t, n) == [];
  }

  lemma ReaderKeepsNoneLost(s: State, a: Action)
    requires Inv(s) && Enabled(s, a) && OfReader(a) && (Settled(s) ==> NoneLost(s))
    ensures Settled(DoReader(s, a)) ==> NoneLost(DoReader(s, a))
  {
    hide OfEpoch, PacketsFed, Inv, ReaderPut;
    var t := DoReader(s, a);
    if Settled(t) {
      match a {
        case ReadData(size) => PutAborts(s, Data(size, s.origin)); PutKeepsNoneLost(s, Data(size, s.origin));
        case ReadEof => PutAborts(s, Null(s.origin)); PutKeepsNoneLost(s, Null(s.origin));
        case RestartQueue => FlushKeepsNoneLost(s, t);
        case _ =>
      }
    }
  }

  lemma PutAborts(s: State, p: Packet)
    ensures ReaderPut(s, p).queue.abort == s.queue.abort && ReaderPut(s, p).reader == s.reader
  {
  }

  lemma MainKeepsNoneLost(s: State, a: Action)
    requires Inv(s) && Enabled(s, a) && OfMain(a) && (Settled(s) ==> NoneLost(s))
    ensures Settled(DoMain(s, a)) ==> NoneLost(DoMain(s, a))
  {
    var t := DoMain(s, a);
    assert Phases(s);
    hide OfEpoch, PacketsFed, Inv;
    if a.StartQueue? {
      FlushKeepsNoneLost(s, t);
    }
  }

  // ----- The decoder -----

  lemma FetchKeepsNoneLost(s: State)
    requires Enabled(s, Fetch) && !s.queue.abort && NoneLost(s)
    ensures NoneLost(DoDecoder(s, Fetch))
  {
    hide OfEpoch, PacketsFed;
    var n := s.queue.serial;
    FetchMovesHead(s, n);
    Reassociate(PacketsFed(s.log, n), InHand(DoDecoder(s, Fetch), n), OfEpoch(s.queue.entries[1..], n));
  }

  lemma FetchMovesHead(s: State, n: nat)
    requires Enabled(s, Fetch) && !s.queue.abort && n == s.queue.serial
    ensures InHand(s, n) == []
    ensures OfEpoch(s.queue.entries, n) == InHand(DoDecoder(s, Fetch), n) + OfEpoch(s.queue.entries[1..], n)
  {
    var entries := s.queue.entries;
    OfEpochHead(entries, n);
    OfEpochOne(entries[0], n);
    assert entries[..1] == [entries[0]];
    hide OfEpoch;
  }

  lemma Reassociate(a: seq<Entry>, b: seq<Entry>, c: seq<Entry>)
    ensures a + [] + (b + c) == a + b + c
  {
  }

  lemma HandleKeepsHand(s: State, n: nat)
    requires Held(s) && Enabled(s, Handle)
    ensures var t := DoDecoder(s, Handle);
            InHand(t, n) == InHand(s, n) && PacketsFed(t.log, n) == PacketsFed(s.log, n)
  {
    PacketsFedSnoc(s.log, CodecFlushed(s.pktSerial), n);
    hide PacketsFed, CodecSerial;
  }

  lemma DecodeFeedsHand(s: State, outcome: Outcome, n: nat)
    requires s.decoder == Decoding
    ensures var t := AfterDecode(s, outcome);
            InHand(t, n) == [] && PacketsFed(t.log, n) == PacketsFed(s.log, n) + InHand(s, n)
  {
    var fed := Fed(s.pkt, s.again, outcome);
    PacketsFedSnoc(s.log, fed, n);
    PacketsFedSnoc(s.log + [fed], Drained(s.pktSerial), n);
    hide PacketsFed;
  }

  /** The other steps move no packet. */
  lemma OtherKeepsHand(s: State, a: Action, n: nat)
    requires LeftOvers(s) && (a.Enter? || a.Choose? || a.Return? || a.Quit?) && Enabled(s, a)
    ensures var t := DoDecoder(s, a);
            && t.queue == s.queue && t.puts == s.puts
            && InHand(t, n) == InHand(s, n) && PacketsFed(t.log, n) == PacketsFed(s.log, n)
  {
    PacketsFedSnoc(s.log, Drained(s.pktSerial), n);
    hide PacketsFed;
  }

  lemma DecoderKeepsNoneLost(s: State, a: Action)
    requires Held(s) && LeftOvers(s) && Enabled(s, a) && !OfReader(a) && !OfMain(a) && !s.queue.abort && NoneLost(s)
    ensures NoneLost(DoDecoder(s, a))
  {
    hide OfEpoch, PacketsFed, InHand, Held, LeftOvers, AfterDecode;
    var n := s.queue.serial;
    match a {
      case Fetch => FetchKeepsNoneLost(s);
      case Handle => HandleKeepsHand(s, n);
      case Decode(outcome) => DecodeFeedsHand(s, outcome, n); DecodeKeepsQueue(s, outcome);
      case _ => OtherKeepsHand(s, a, n);
    }
  }

  lemma DecodeKeepsQueue(s: State, outcome: Outcome)
    ensures var t := AfterDecode(s, outcome); t.queue == s.queue && t.puts == s.puts && t.reader == s.reader
  {
  }

  lemma KeepsNoneLost(s: State, a: Action)
    requires Inv(s) && LeftOvers(s) && Enabled(s, a) && (Settled(s) ==> NoneLost(s))
    ensures Settled(Do(s, a)) ==> NoneLost(Do(s, a))
  {
    assert Held(s);
    hide Inv, Held, LeftOvers, NoneLost, DoReader, DoMain, DoDecoder, Enabled;
    if OfReader(a) {
      ReaderKeepsNoneLost(s, a);
    } else if OfMain(a) {
      MainKeepsNoneLost(s, a);
    } else {
      DecoderOnlyTakes(s, a);
      if Settled(s) { DecoderKeepsNoneLost(s, a); }
    }
  }

  lemma KeepsLeftOvers(s: State, a: Action)
    requires Phases(s) && LeftOvers(s) && Enabled(s, a)
    ensures LeftOvers(Do(s, a))
  {
    if OfReader(a) {
      hide DoDecoder, DoMain;
    } else if OfMain(a) {
      hide DoDecoder, DoReader;
    } else {
      DecoderOnlyTakes(s, a);
      hide DoReader, DoMain;
    }
  }

  // ----- Earlier epochs -----

  lemma PrefixShrinks(a: seq<Entry>, b: seq<Entry>, c: seq<Entry>)
    requires a + b <= c
    ensures a + [] <= c
  {
    assert (a + b)[..|a|] == a;
  }

  lemma ReaderOnlyAdds(s: State, a: Action, n: nat)
    requires Enabled(s, a) && OfReader(a)
    ensures OfEpoch(s.puts, n) <= OfEpoch(DoReader(s, a).puts, n)
  {
    var q := s.queue.serial;
    match a {
      case ReadData(size) => OfEpochSnoc(s.puts, Entry(Data(size, s.origin), q), n);
      case ReadEof => OfEpochSnoc(s.puts, Entry(Null(s.origin), q), n);
      case _ =>
    }
    hide OfEpoch;
  }

  /** A new epoch makes the packet in hand stale, if anything. */
  lemma ReaderKeepsHand(s: State, a: Action, n: nat)
    requires Held(s) && s.pktSerial <= s.queue.serial && Enabled(s, a) && OfReader(a)
    ensures var t := DoReader(s, a); t.log == s.log && (InHand(t, n) == InHand(s, n) || InHand(t, n) == [])
  {
    hide CodecSerial;
  }

  lemma ReaderKeepsNoneSkipped(s: State, a: Action, n: nat)
    requires Inv(s) && Enabled(s, a) && OfReader(a) && NoneSkipped(s, n)
    ensures NoneSkipped(DoReader(s, a), n)
  {
    NewEpochIsEmpty(s, s.queue.serial + 1);
    assert Held(s);
    hide OfEpoch, PacketsFed, Inv, Held, InHand, DoReader;
    ReaderOnlyAdds(s, a, n);
    ReaderKeepsHand(s, a, n);
    PrefixShrinks(PacketsFed(s.log, n), InHand(s, n), OfEpoch(s.puts, n));
  }

  lemma MainKeepsNoneSkipped(s: State, a: Action, n: nat)
    requires Inv(s) && Enabled(s, a) && OfMain(a) && NoneSkipped(s, n)
    ensures NoneSkipped(DoMain(s, a), n)
  {
    assert Phases(s);
    PacketsFedSnoc(s.log, CodecOpened, n);
    hide OfEpoch, PacketsFed, Inv;
  }

  lemma FetchKeepsNoneSkipped(s: State, n: nat)
    requires LeftOvers(s) && Enabled(s, Fetch) && NoneSkipped(s, n) && (Settled(s) ==> NoneLost(s))
    ensures NoneSkipped(DoDecoder(s, Fetch), n)
  {
    hide OfEpoch, PacketsFed;
    var t := DoDecoder(s, Fetch);
    PrefixShrinks(PacketsFed(s.log, n), InHand(s, n), OfEpoch(s.puts, n));
    if Settled(s) && n == s.queue.serial {
      FetchKeepsNoneLost(s);
    } else if !s.queue.abort {
      assert s.queue.entries[0] in s.queue.entries;
      assert InHand(t, n) == [];
    }
  }

  lemma DecoderKeepsNoneSkipped(s: State, a: Action, n: nat)
    requires Held(s) && LeftOvers(s) && Enabled(s, a) && !OfReader(a) && !OfMain(a)
    requires NoneSkipped(s, n) && (Settled(s) ==> NoneLost(s))
    ensures NoneSkipped(DoDecoder(s, a), n)
  {
    hide OfEpoch, PacketsFed, InHand, Held, LeftOvers, AfterDecode, NoneLost;
    match a {
      case Fetch => FetchKeepsNoneSkipped(s, n);
      case Handle => HandleKeepsHand(s, n);
      case Decode(outcome) => DecodeFeedsHand(s, outcome, n); DecodeKeepsQueue(s, outcome);
      case _ => OtherKeepsHand(s, a, n);
    }
  }

  lemma KeepsNoneSkipped(s: State, a: Action, n: nat)
    requires Inv(s) && LeftOvers(s) && Enabled(s, a) && NoneSkipped(s, n) && (Settled(s) ==> NoneLost(s))
    ensures NoneSkipped(Do(s, a), n)
  {
    assert Held(s);
    hide Inv, Held, LeftOvers, NoneLost, NoneSkipped, Settled, DoReader, DoMain, DoDecoder, Enabled;
    if OfReader(a) {
      ReaderKeepsNoneSkipped(s, a, n);
    } else if OfMain(a) {
      MainKeepsNoneSkipped(s, a, n);
    } else {
      DecoderKeepsNoneSkipped(s, a, n);
    }
  }

  // ----- One packet in several pieces -----

  /** The codec asks for more of the same packet: data is left over, or draining still yields frames. */
  predicate Unfinished(e: Event) {
    e.Fed? && e.outcome.Decoded? && if e.entry.pkt.Data? then e.outcome.more else e.outcome.frame
  }

  /** The last feed since the codec was opened or flushed. */
  function LastFeed(log: seq<Event>): (r: Option<Event>)
    ensures r.Some? ==> r.value.Fed?
    decreases |log|
  {
    if log == [] then None
    else
      match log[|log| - 1]
      case CodecOpened => None
      case CodecFlushed(_) => None
      case Fed(_, _, _) => Some(log[|log| - 1])
      case Drained(_) => LastFeed(log[..|log| - 1])
  }

  predicate HalfDone(log: seq<Event>) { LastFeed(log).Some? && Unfinished(LastFeed(log).value) }

  /** A feed continues the one before it exactly if that one was not finished. */
  ghost predicate Joins(log: seq<Event>, e: Event) {
    e.Fed? ==> (e.again <==> HalfDone(log)) && (e.again ==> e.entry == LastFeed(log).value.entry)
  }

  ghost predicate AllJoin(log: seq<Event>) { forall i :: 0 <= i < |log| ==> Joins(log[..i], log[i]) }

  /** What the decoder keeps of a packet is what the codec left over. */
  ghost predicate PiecesKept(s: State) {
    && (s.decoder == Decoding ==> s.pending && Joins(s.log, Fed(s.pkt, s.again, Failed)))
    && (s.decoder == Top || s.decoder == Choosing || s.decoder == Returned ==>
          (s.pending <==> HalfDone(s.log)) && (s.pending ==> s.again && s.pkt == LastFeed(s.log).value.entry))
    && (s.decoder == Getting || (s.decoder.Holding? && !s.decoder.held.pkt.Flush?) ==>
          s.pktSerial == s.queue.serial ==> !HalfDone(s.log))
    && (s.main == Opening || s.main == Spawning ==> !HalfDone(s.log))
  }

  lemma LastFeedSnoc(log: seq<Event>, e: Event)
    ensures LastFeed(log + [e]) ==
            if e.Fed? then Some(e) else if e.Drained? then LastFeed(log) else None
  {
    assert (log + [e])[..|log|] == log;
  }

  lemma AllJoinSnoc(log: seq<Event>, e: Event)
    requires AllJoin(log) && Joins(log, e)
    ensures AllJoin(log + [e])
  {
    hide Joins;
    var all := log + [e];
    assert log[..|log|] == log;
    forall i | 0 <= i < |all| ensures Joins(all[..i], all[i]) {
      assert all[..i] == log[..i];
    }
  }

  lemma ReaderKeepsPieces(s: State, a: Action)
    requires PiecesKept(s) && s.pktSerial <= s.queue.serial && Enabled(s, a) && OfReader(a)
    ensures PiecesKept(DoReader(s, a))
  {
    hide LastFeed;
  }

  lemma MainKeepsPieces(s: State, a: Action)
    requires Phases(s) && PiecesKept(s) && Enabled(s, a) && OfMain(a)
    ensures PiecesKept(DoMain(s, a))
  {
    LastFeedSnoc(s.log, CodecOpened);
    hide LastFeed;
  }

  lemma DecodeKeepsPieces(s: State, outcome: Outcome)
    requires Phases(s) && PiecesKept(s) && s.decoder == Decoding
    ensures PiecesKept(AfterDecode(s, outcome))
  {
    var fed := Fed(s.pkt, s.again, outcome);
    LastFeedSnoc(s.log, fed);
    LastFeedSnoc(s.log + [fed], Drained(s.pktSerial));
    hide LastFeed;
  }

  lemma DecoderKeepsPieces(s: State, a: Action)
    requires Phases(s) && Epochs(s) && Held(s) && PiecesKept(s) && Enabled(s, a) && !OfReader(a) && !OfMain(a)
    ensures PiecesKept(DoDecoder(s, a))
  {
    LastFeedSnoc(s.log, CodecFlushed(s.pktSerial));
    LastFeedSnoc(s.log, Drained(s.pktSerial));
    hide LastFeed, AfterDecode, CodecSerial;
    match a {
      case Decode(outcome) => DecodeKeepsPieces(s, outcome);
      case Fetch => if !s.queue.abort { ChainedTail(s.queue.entries, s.pktSerial); }
      case _ =>
    }
  }

  lemma KeepsPieces(s: State, a: Action)
    requires Inv(s) && PiecesKept(s) && Enabled(s, a)
    ensures PiecesKept(Do(s, a))
  {
    NewEpochIsEmpty(s, s.queue.serial + 1);
    assert Phases(s) && Epochs(s) && Held(s);
    hide Inv, Phases, Epochs, Held, PiecesKept, DoReader, DoMain, DoDecoder, Enabled;
    if OfReader(a) {
      ReaderKeepsPieces(s, a);
    } else if OfMain(a) {
      MainKeepsPieces(s, a);
    } else {
      DecoderKeepsPieces(s, a);
    }
  }

  lemma KeepsAllJoin(s: State, a: Action)
    requires PiecesKept(s) && AllJoin(s.log) && Enabled(s, a)
    ensures AllJoin(Do(s, a).log)
  {
    hide AllJoin, LastFeed;
    match a {
      case Open => AllJoinSnoc(s.log, CodecOpened);
      case Handle => AllJoinSnoc(s.log, CodecFlushed(s.pktSerial));
      case Return(_) => AllJoinSnoc(s.log, Drained(s.pktSerial));
      case Decode(outcome) =>
        AllJoinSnoc(s.log, Fed(s.pkt, s.again, outcome));
        AllJoinSnoc(s.log + [Fed(s.pkt, s.again, outcome)], Drained(s.pktSerial));
      case _ =>
    }
  }

  // ----- What holds in every run -----

  ghost predicate FeedInv(s: State) {
    && LeftOvers(s) && PiecesKept(s) && AllJoin(s.log) && (Settled(s) ==> NoneLost(s)) && forall n: nat :: NoneSkipped(s, n)
  }

  lemma {:induction false} FeedInvariantHolds(run: seq<Action>)
    requires After(run).Some?
    ensures FeedInv(After(run).value)
    decreases |run|
  {
    if run != [] {
      var s, a := After(run[..|run| - 1]).value, run[|run| - 1];
      FeedInvariantHolds(run[..|run| - 1]);
      InvariantHolds(run[..|run| - 1]);
      assert Phases(s);
      hide Do, Enabled, Inv, Phases, LeftOvers, PiecesKept, AllJoin, NoneLost, NoneSkipped, Settled;
      KeepsLeftOvers(s, a);
      KeepsPieces(s, a);
      KeepsAllJoin(s, a);
      KeepsNoneLost(s, a);
      forall n: nat ensures NoneSkipped(Do(s, a), n) {
        KeepsNoneSkipped(s, a, n);
      }
    }
  }

  /** While the queue takes packets and no seek is under way, the packets the reader has put in the current epoch are those
      fed to the codec, then the one in the decoder's hands, then those queued: none lost, repeated or overtaken. */
  lemma NoPacketIsLost(run: seq<Action>)
    requires After(run).Some? && !After(run).value.queue.abort && After(run).value.reader != Restarting
    ensures var s := After(run).value; var n := s.queue.serial;
            OfEpoch(s.puts, n) == PacketsFed(s.log, n) + InHand(s, n) + OfEpoch(s.queue.entries, n)
  {
    FeedInvariantHolds(run);
    hide After, LeftOvers, PiecesKept, AllJoin, NoneSkipped;
  }

  /** Of every epoch, whatever seeks and restarts came between, the codec got a prefix of what the reader has put. */
  lemma PacketsAreFedInOrder(run: seq<Action>, n: nat)
    requires After(run).Some?
    ensures PacketsFed(After(run).value.log, n) <= OfEpoch(After(run).value.puts, n)
  {
    FeedInvariantHolds(run);
    hide After, LeftOvers, PiecesKept, AllJoin, NoneLost, OfEpoch, PacketsFed;
    var s := After(run).value;
    assert NoneSkipped(s, n);
    PrefixShrinks(PacketsFed(s.log, n), InHand(s, n), OfEpoch(s.puts, n));
  }

  /** Two feeds without a feed or a flush between them: the second is the same packet again exactly if the codec left some of
      it over, and otherwise a new one. */
  lemma LeftOverIsFedNext(run: seq<Action>, i: nat, k: nat)
    requires After(run).Some?
    requires var log := After(run).value.log;
             && i < k < |log| && log[i].Fed? && log[k].Fed?
             && forall j :: i < j < k ==> log[j].Drained?
    ensures var log := After(run).value.log;
            (log[k].again <==> Unfinished(log[i])) && (log[k].again ==> log[k].entry == log[i].entry)
  {
    FeedInvariantHolds(run);
    hide After, LeftOvers, PiecesKept, NoneLost, NoneSkipped;
    var log := After(run).value.log;
    assert Joins(log[..k], log[k]);
    LastFeedAt(log, i, k);
  }

  lemma {:induction false} LastFeedAt(log: seq<Event>, i: nat, k: nat)
    requires i < k <= |log| && log[i].Fed? && forall j :: i < j < k ==> log[j].Drained?
    ensures LastFeed(log[..k]) == Some(log[i])
    decreases k
  {
    LastFeedSnoc(log[..k - 1], log[k - 1]);
    assert log[..k - 1] + [log[k - 1]] == log[..k];
    if i < k - 1 { LastFeedAt(log, i, k - 1); }
  }

  // ----- A packet that is taken reaches the codec -----

  lemma AfterSnoc(run: seq<Action>, a: Action)
    ensures After(run + [a]) ==
            if After(run).Some? && Enabled(After(run).value, a) then Some(Do(After(run).value, a)) else None
  {
    assert (run + [a])[..|run|] == run;
  }

  predicate OfOthers(actions: seq<Action>) { forall a :: a in actions ==> OfReader(a) || OfMain(a) }

  lemma OthersKeepPacket(s: State, a: Action)
    requires Phases(s) && s.decoder == Decoding && Enabled(s, a) && (OfReader(a) || OfMain(a))
    ensures var t := Do(s, a);
            t.decoder == Decoding && t.pkt == s.pkt && t.again == s.again && t.pending == s.pending && t.log == s.log
  {
    hide DoDecoder;
  }

  lemma {:induction false} OthersWait(run: seq<Action>, others: seq<Action>)
    requires After(run + others).Some? && OfOthers(others)
    requires After(run).Some? && After(run).value.decoder == Decoding
    ensures var s, t := After(run).value, After(run + others).value;
            t.decoder == Decoding && t.pkt == s.pkt && t.again == s.again && t.pending == s.pending && t.log == s.log
    decreases |others|
  {
    if others == [] {
      assert run + others == run;
    } else {
      var front, a := others[..|others| - 1], others[|others| - 1];
      assert run + others == run + front + [a];
      AfterSnoc(run + front, a);
      OthersWait(run, front);
      InvariantHolds(run + front);
      hide After, Epochs, Held, FedInEpoch, Origins, Finished, Do, Enabled;
      OthersKeepPacket(After(run + front).value, a);
    }
  }

  /** A packet looked at while its epoch is the queue's becomes the pending one, and the next thing the decoder does,
      whatever the other threads do meanwhile, is to feed exactly it. */
  lemma CurrentPacketIsFed(run: seq<Action>, others: seq<Action>, a: Action)
    requires After(run + [Handle] + others + [a]).Some? && OfOthers(others) && !OfReader(a) && !OfMain(a)
    requires After(run).Some? && After(run).value.decoder.Holding?
    requires var s := After(run).value; !s.decoder.held.pkt.Flush? && s.decoder.held.serial == s.queue.serial
    ensures var s := After(run).value;
            var t, u := After(run + [Handle]).value, After(run + [Handle] + others + [a]).value;
            && t.pending && t.pkt == s.decoder.held && t.log == s.log
            && a.Decode? && s.log + [Fed(s.decoder.held, false, a.outcome)] <= u.log
  {
    var s := After(run).value;
    AfterSnoc(run, Handle);
    AfterSnoc(run + [Handle] + others, a);
    InvariantHolds(run);
    assert Held(s);
    hide After, Inv, Held, Do, OfReader, OfMain;
    HandleTakes(s);
    PrefixRuns(run + [Handle], others);
    OthersWait(run + [Handle], others);
    FeedIsLogged(After(run + [Handle] + others).value, a);
  }

  lemma {:induction false} PrefixRuns(run: seq<Action>, more: seq<Action>)
    requires After(run + more).Some?
    ensures After(run).Some?
    decreases |more|
  {
    if more == [] {
      assert run + more == run;
    } else {
      assert run + more == run + more[..|more| - 1] + [more[|more| - 1]];
      AfterSnoc(run + more[..|more| - 1], more[|more| - 1]);
      PrefixRuns(run, more[..|more| - 1]);
    }
  }

  lemma HandleTakes(s: State)
    requires Held(s) && s.decoder.Holding? && !s.decoder.held.pkt.Flush? && s.decoder.held.serial == s.queue.serial
    ensures var t := Do(s, Handle);
            t.decoder == Decoding && t.pending && t.pkt == s.decoder.held && !t.again && t.log == s.log
  {
  }

  lemma FeedIsLogged(s: State, a: Action)
    requires s.decoder == Decoding && Enabled(s, a) && !OfReader(a) && !OfMain(a)
    ensures a.Decode? && s.log + [Fed(s.pkt, s.again, a.outcome)] <= Do(s, a).log
  {
  }

  // ----- The end of a call -----

  /** A call returns exactly when the codec gave a frame or the end is on record, and the end goes on record exactly when
      draining gives no frame: nothing decoded is thrown away, and the loop does not stop early. */
  lemma CallReturnsExactly(run: seq<Action>, outcome: Outcome)
    requires After(run + [Decode(outcome)]).Some?
    ensures var s, t := After(run).value, After(run + [Decode(outcome)]).value;
            && (t.decoder == Returned <==> (outcome.Decoded? && outcome.frame) || t.finished > 0)
            && t.finished == if s.pkt.pkt.Null? && outcome.Decoded? && !outcome.frame then s.pkt.serial else s.finished
  {
    AfterSnoc(run, Decode(outcome));
    InvariantHolds(run);
    hide After, Phases, Epochs, FedInEpoch, Origins, Finished, CodecSerial;
  }

  /** The end of the filters behind the decoder ends the stream too, in the decoder's own epoch. */
  lemma FilterEndIsRecorded(run: seq<Action>, filterEof: bool)
    requires After(run + [Return(filterEof)]).Some?
    ensures var s, t := After(run).value, After(run + [Return(filterEof)]).value;
            && t.finished == (if filterEof then s.pktSerial else s.finished)
            && t.log == s.log + (if filterEof then [Drained(s.pktSerial)] else []) && t.decoder == Top
  {
    AfterSnoc(run, Return(filterEof));
    hide After;
  }

  // ----- Seeks and stops -----

  /** A seek leaves nothing of the old position in the queue: when its flush packet is in, no other packet is. */
  lemma SeekEmptiesQueue(run: seq<Action>)
    requires After(run + [RestartQueue]).Some? && !After(run + [RestartQueue]).value.queue.abort
    ensures var t := After(run + [RestartQueue]).value; var q := t.queue;
            && t.reader == Reading && q.serial == After(run).value.queue.serial + 1
            && q.entries != [] && q.entries[|q.entries| - 1] == Entry(Flush, q.serial)
            && forall e :: e in q.entries ==> e.pkt.Flush?
  {
    AfterSnoc(run, RestartQueue);
    FeedInvariantHolds(run);
    hide After, PiecesKept, AllJoin, NoneLost, NoneSkipped;
  }

  /** A seek empties the queue of a stream that is open, and leaves that of a closed one alone. */
  lemma SeekReachesOpenStreams(run: seq<Action>)
    requires After(run + [CheckOpen]).Some?
    ensures var s, t := After(run).value, After(run + [CheckOpen]).value;
            t.queue == s.queue && t.reader == if s.main == Idle then Reading else Flushing
  {
    AfterSnoc(run, CheckOpen);
    InvariantHolds(run);
    hide After, Epochs, Held, FedInEpoch, Origins, Finished;
  }

  function Seeks(run: seq<Action>): nat
    decreases |run|
  {
    if run == [] then 0 else Seeks(run[..|run| - 1]) + if run[|run| - 1].Seek? then 1 else 0
  }

  /** Packets carry the number of seeks before them, so two origins differ exactly if a seek lies between. */
  lemma {:induction false} OriginCountsSeeks(run: seq<Action>)
    requires After(run).Some?
    ensures After(run).value.origin == Seeks(run)
    decreases |run|
  {
    if run != [] {
      OriginCountsSeeks(run[..|run| - 1]);
      OnlySeekMoves(After(run[..|run| - 1]).value, run[|run| - 1]);
      hide Do, Enabled;
    }
  }

  lemma OnlySeekMoves(s: State, a: Action)
    requires Enabled(s, a)
    ensures Do(s, a).origin == s.origin + if a.Seek? then 1 else 0
  {
    if !OfReader(a) && !OfMain(a) { DecoderOnlyTakes(s, a); }
    hide DoDecoder;
  }

  /** What the reader puts carries its position and the queue's serial. */
  lemma ReaderPutsWhatItReads(run: seq<Action>, a: Action)
    requires After(run + [a]).Some? && (a.ReadData? || a.ReadEof?) && !After(run).value.queue.abort
    ensures var s, t := After(run).value, After(run + [a]).value;
            var e := Entry(if a.ReadData? then Data(a.size, s.origin) else Null(s.origin), s.queue.serial);
            t.puts == s.puts + [e] && t.queue == s.queue.(entries := s.queue.entries + [e])
  {
    AfterSnoc(run, a);
    hide After, DoDecoder, DoMain;
  }

  // ----- The decoder can always catch up -----

  /** What the decoder does next, with a codec that uses up every packet at once. */
  function NextAction(d: DecoderPc): Action
    requires d != Dead
  {
    match d
    case Top => Enter
    case Choosing => Choose
    case Getting => Fetch
    case Holding(_) => Handle
    case Decoding => Decode(Decoded(false, false))
    case Returned => Return(false)
  }

  /** How far it is to the next look at the queue. */
  function Distance(s: State): nat {
    match s.decoder
    case Dead => 0
    case Getting => 0
    case Choosing => if s.pending then 5 else 1
    case Top => if s.pending then 6 else 2
    case Returned => if s.pending then 7 else 3
    case Decoding => 4
    case Holding(_) => 8
  }

  lemma OneStepOn(s: State)
    requires s.decoder != Dead && !s.queue.abort && (s.decoder == Getting ==> s.queue.entries != [])
    ensures var a := NextAction(s.decoder);
            && Enabled(s, a) && !OfReader(a) && !OfMain(a)
            && var t := Do(s, a);
               && t.decoder != Dead
               && (if s.decoder == Getting then |t.queue.entries| < |s.queue.entries|
                   else t.queue.entries == s.queue.entries && Distance(t) < Distance(s))
  {
  }

  ghost predicate OfDecoder(actions: seq<Action>) { forall a :: a in actions ==> !OfReader(a) && !OfMain(a) }

  lemma {:induction false} DecoderDrains(run: seq<Action>) returns (more: seq<Action>)
    requires After(run).Some? && Settled(After(run).value) && After(run).value.decoder != Dead
    ensures OfDecoder(more) && After(run + more).Some?
    ensures var s, t := After(run).value, After(run + more).value;
            t.puts == s.puts && t.reader == s.reader && t.queue == s.queue.(entries := []) && t.decoder == Getting
    decreases |After(run).value.queue.entries|, Distance(After(run).value)
  {
    hide After, Do, Enabled, Distance, NextAction;
    var s := After(run).value;
    if s.decoder == Getting && s.queue.entries == [] {
      more := [];
      assert run + more == run;
    } else {
      var a := NextAction(s.decoder);
      OneStepOn(s);
      DoOnlyTakes(s, a);
      AfterSnoc(run, a);
      var rest := DecoderDrains(run + [a]);
      more := [a] + rest;
      assert run + [a] + rest == run + more;
    }
  }

  /** From every reachable state, as long as nobody interferes, the decoder comes to an empty queue with every packet of
      the current epoch fed. */
  lemma DecoderCatchesUp(run: seq<Action>) returns (more: seq<Action>)
    requires After(run).Some? && Settled(After(run).value) && After(run).value.decoder != Dead
    ensures OfDecoder(more) && After(run + more).Some?
    ensures var s, t := After(run).value, After(run + more).value;
            && t.puts == s.puts && t.queue == s.queue.(entries := [])
            && PacketsFed(t.log, t.queue.serial) == OfEpoch(t.puts, t.queue.serial)
  {
    more := DecoderDrains(run);
    NoPacketIsLost(run + more);
    assert OfEpoch([], After(run + more).value.queue.serial) == [];
    hide After, OfEpoch, PacketsFed;
  }

  lemma DoOnlyTakes(s: State, a: Action)
    requires Enabled(s, a) && !OfReader(a) && !OfMain(a)
    ensures var t := Do(s, a);
            t.puts == s.puts && t.reader == s.reader && t.queue == s.queue.(entries := t.queue.entries)
  {
    DecoderOnlyTakes(s, a);
  }

  // ----- A stream can always be closed and opened again -----

  /** How far an aborted decoder is from its end. */
  function StepsToEnd(d: DecoderPc): nat {
    match d
    case Dead => 0
    case Top => 1
    case Getting => 1
    case Returned => 2
    case Decoding => 3
    case Choosing => 4
    case Holding(_) => 4
  }

  lemma OneStepDown(s: State)
    requires s.decoder != Dead && s.queue.abort
    ensures var a := NextAction(s.decoder);
            && Enabled(s, a) && !OfReader(a) && !OfMain(a)
            && StepsToEnd(Do(s, a).decoder) < StepsToEnd(s.decoder) && Do(s, a).main == s.main
  {
  }

  /** The decoder thread ends soon after the queue is aborted. */
  lemma {:induction false} DecoderEnds(run: seq<Action>) returns (more: seq<Action>)
    requires After(run).Some? && After(run).value.queue.abort
    ensures OfDecoder(more) && |more| <= StepsToEnd(After(run).value.decoder) && After(run + more).Some?
    ensures var s, t := After(run).value, After(run + more).value;
            t.decoder == Dead && t.main == s.main && t.reader == s.reader && t.queue == s.queue.(entries := t.queue.entries)
    decreases StepsToEnd(After(run).value.decoder)
  {
    hide After, Do, Enabled, NextAction, StepsToEnd;
    var s := After(run).value;
    if s.decoder == Dead {
      more := [];
      assert run + more == run;
    } else {
      var a := NextAction(s.decoder);
      OneStepDown(s);
      DoOnlyTakes(s, a);
      AfterSnoc(run, a);
      var rest := DecoderEnds(run + [a]);
      more := [a] + rest;
      assert run + [a] + rest == run + more;
    }
  }

  /** The main thread's way from the end of the decoder to the next one. */
  lemma MainCycles(s: State)
    requires s.main == Aborting && s.decoder == Dead
    ensures Enabled(s, Join)
    ensures var t := Do(s, Join); Enabled(t, EmptyQueue) && t == s.(main := Joined)
    ensures var t := s.(main := Joined);
            Enabled(t, EmptyQueue) && Do(t, EmptyQueue) == s.(main := Emptied, queue := s.queue.(entries := []))
  {
  }

  lemma MainReopens(s: State)
    requires s.main == Emptied && s.decoder == Dead && s.queue.entries == []
    ensures Enabled(s, Close) && Enabled(Do(s, Close), Open)
    ensures var t := Do(Do(s, Close), Open);
            && t.main == Opening && t.decoder == Dead && t.queue == s.queue && !t.pending && t.finished == 0
            && t.log == s.log + [CodecOpened]
  {
  }

  lemma MainSpawns(s: State)
    requires s.main == Opening && s.decoder == Dead && s.queue.entries == []
    ensures Enabled(s, StartQueue) && Enabled(Do(s, StartQueue), Spawn)
    ensures Do(Do(s, StartQueue), Spawn) ==
            s.(main := Running, decoder := Top, queue := Queue([Entry(Flush, s.queue.serial + 1)], false, s.queue.serial + 1))
  {
  }

  lemma AfterTwo(run: seq<Action>, a: Action, b: Action)
    requires After(run).Some? && Enabled(After(run).value, a) && Enabled(Do(After(run).value, a), b)
    ensures After(run + [a, b]) == Some(Do(Do(After(run).value, a), b))
  {
    hide After, Do, Enabled;
    AfterSnoc(run, a);
    AfterSnoc(run + [a], b);
    assert run + [a, b] == run + [a] + [b];
  }

  /** A running stream can be closed and opened again, after which the queue holds nothing but the flush packet of a new
      epoch, and a fresh decoder is about to start. */
  lemma StreamCanBeReopened(run: seq<Action>) returns (more: seq<Action>)
    requires After(run).Some? && After(run).value.main == Running
    ensures After(run + more).Some?
    ensures var s, t := After(run).value, After(run + more).value;
            && t.main == Running && t.decoder == Top && !t.pending && t.finished == 0
            && t.queue == Queue([Entry(Flush, s.queue.serial + 1)], false, s.queue.serial + 1)
            && t.log != [] && t.log[|t.log| - 1] == CodecOpened
  {
    hide After, Do, Enabled;
    AfterSnoc(run, AbortQueue);
    AbortIsSeen(After(run).value);
    var stop := DecoderEnds(run + [AbortQueue]);
    var dead := run + [AbortQueue] + stop;
    MainCycles(After(dead).value);
    AfterTwo(dead, Join, EmptyQueue);
    var empty := dead + [Join, EmptyQueue];
    MainReopens(After(empty).value);
    AfterTwo(empty, Close, Open);
    var anew := empty + [Close, Open];
    MainSpawns(After(anew).value);
    AfterTwo(anew, StartQueue, Spawn);
    more := [AbortQueue] + stop + [Join, EmptyQueue] + [Close, Open] + [StartQueue, Spawn];
    assert run + more == anew + [StartQueue, Spawn];
  }

  lemma AbortIsSeen(s: State)
    requires s.main == Running
    ensures Enabled(s, AbortQueue) && Do(s, AbortQueue) == s.(main := Aborting, queue := s.queue.(abort := true))
  {
  }

  /** The thread may also end by itself, which leaves everything else as it is. */
  lemma QuitEndsThread(run: seq<Action>)
    requires After(run + [Quit]).Some?
    ensures After(run + [Quit]).value == After(run).value.(decoder := Dead)
  {
    AfterSnoc(run, Quit);
    hide After;
  }

  // ----- A seek from beginning to end -----

  lemma SeekStarts(s: State)
    requires s.reader == Reading && s.streamOpen
    ensures Enabled(s, Seek) && Enabled(Do(s, Seek), CheckOpen)
    ensures Do(Do(s, Seek), CheckOpen) == s.(reader := Flushing, origin := s.origin + 1)
  {
  }

  lemma SeekFlushes(s: State)
    requires s.reader == Flushing
    ensures Enabled(s, FlushQueue) && Enabled(Do(s, FlushQueue), RestartQueue)
    ensures var n := s.queue.serial + 1;
            Do(Do(s, FlushQueue), RestartQueue) ==
            s.(reader := Reading,
               queue := if s.queue.abort then s.queue.(entries := []) else Queue([Entry(Flush, n)], false, n))
  {
  }

  lemma OpenUnlessIdle(run: seq<Action>)
    requires After(run).Some?
    ensures After(run).value.streamOpen <==> After(run).value.main != Idle
  {
    InvariantHolds(run);
    hide After, Epochs, Held, FedInEpoch, Origins, Finished;
  }

  /** A seek that nothing interrupts replaces the queue of an open stream by the flush packet of a new epoch, and touches
      neither the decoder nor the codec; a queue that is being aborted is only emptied. */
  lemma SeekReplacesQueue(run: seq<Action>)
    requires After(run).Some? && After(run).value.reader == Reading && After(run).value.main != Idle
    ensures var s, r := After(run).value, After(run + [Seek, CheckOpen] + [FlushQueue, RestartQueue]);
            var n := s.queue.serial + 1;
            r == Some(s.(origin := s.origin + 1,
                         queue := if s.queue.abort then s.queue.(entries := []) else Queue([Entry(Flush, n)], false, n)))
  {
    hide After, Do, Enabled;
    OpenUnlessIdle(run);
    SeekStarts(After(run).value);
    AfterTwo(run, Seek, CheckOpen);
    SeekFlushes(After(run + [Seek, CheckOpen]).value);
    AfterTwo(run + [Seek, CheckOpen], FlushQueue, RestartQueue);
  }
}

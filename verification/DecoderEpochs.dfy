/**
 One stream of ffplay as three threads around a packet queue: the reader, which
 queues packets and seeks; the main thread, which closes and reopens the stream;
 and the decoder thread.  Every action below is one critical section or one read
 of shared state, so a run is an interleaving.  Codec and demuxer are oracles: an
 action carries the outcome it needs.
 */
module DecoderEpochs {
  import opened Basics
  import opened PacketQueue

  /** The reader: reading packets; has sought; saw the stream open; has flushed the queue. */
  datatype ReaderPc = Reading | Sought | Flushing | Restarting

  /** The main thread, through `decoder_abort`, closing, opening and `decoder_start`. */
  datatype MainPc = Running | Aborting | Joined | Emptied | Idle | Opening | Spawning

  /** The decoder thread inside `decoder_decode_frame`; `Holding` has a packet whose kind is not yet looked at. */
  datatype DecoderPc = Dead | Top | Choosing | Getting | Holding(held: Entry) | Decoding | Returned

  /** What happens to the codec, in order.  A packet is fed `again` as long as the codec has not used it up. */
  datatype Event = CodecOpened | CodecFlushed(serial: nat) | Drained(serial: nat)
                 | Fed(entry: Entry, again: bool, outcome: Outcome)

  datatype State = State(
    queue: Queue,
    streamOpen: bool,              // audio_stream >= 0, and the like
    reader: ReaderPc, origin: nat, // origin counts the successful seeks
    main: MainPc,
    decoder: DecoderPc, pktSerial: nat, finished: nat, pending: bool, pkt: Entry,
    again: bool,                   // pkt_temp is what the codec left over of pkt
    puts: seq<Entry>,              // the packets the reader got into the queue
    log: seq<Event>)

  const Start := State(Init, false, Reading, 0, Idle, Dead, 0, 0, false, Entry(Flush, 0), false, [], [])

  /** What the codec makes of a packet: an error; or a frame or none, with data left over or not. */
  datatype Outcome = Failed | Decoded(frame: bool, more: bool)

  datatype Action =
    | ReadData(size: nat) | ReadEof | Seek | CheckOpen | FlushQueue | RestartQueue
    | AbortQueue | Join | EmptyQueue | Close | Open | StartQueue | Spawn
    | Enter | Choose | Fetch | Handle | Decode(outcome: Outcome) | Return(filterEof: bool) | Quit

  predicate Enabled(s: State, a: Action) {
    match a
    case ReadData(_) => s.reader == Reading
    case ReadEof => s.reader == Reading
    case Seek => s.reader == Reading
    case CheckOpen => s.reader == Sought
    case FlushQueue => s.reader == Flushing
    case RestartQueue => s.reader == Restarting
    case AbortQueue => s.main == Running
    case Join => s.main == Aborting && s.decoder == Dead
    case EmptyQueue => s.main == Joined
    case Close => s.main == Emptied
    case Open => s.main == Idle
    case StartQueue => s.main == Opening
    case Spawn => s.main == Spawning
    case Enter => s.decoder == Top
    case Choose => s.decoder == Choosing
    case Fetch => s.decoder == Getting && (s.queue.abort || s.queue.entries != [])
    case Handle => s.decoder.Holding?
    case Decode(_) => s.decoder == Decoding
    case Return(_) => s.decoder == Returned
    case Quit => s.decoder == Returned
  }

  predicate OfReader(a: Action) { a.ReadData? || a.ReadEof? || a.Seek? || a.CheckOpen? || a.FlushQueue? || a.RestartQueue? }

  predicate OfMain(a: Action) {
    a.AbortQueue? || a.Join? || a.EmptyQueue? || a.Close? || a.Open? || a.StartQueue? || a.Spawn?
  }

  /** A put by the reader, which an aborted queue refuses. */
  function ReaderPut(s: State, p: Packet): State {
    var q := Put(s.queue, p);
    s.(queue := q, puts := if s.queue.abort then s.puts else s.puts + [Entry(p, q.serial)])
  }

  function DoReader(s: State, a: Action): State
    requires Enabled(s, a) && OfReader(a)
  {
    match a
    case ReadData(size) => ReaderPut(s, Data(size, s.origin))
    case ReadEof => ReaderPut(s, Null(s.origin))
    case Seek => s.(reader := Sought, origin := s.origin + 1)
    case CheckOpen => s.(reader := if s.streamOpen then Flushing else Reading)
    case FlushQueue => s.(queue := Flushed(s.queue), reader := Restarting)
    case RestartQueue => s.(queue := Put(s.queue, Flush), reader := Reading)
  }

  function DoMain(s: State, a: Action): State
    requires Enabled(s, a) && OfMain(a)
  {
    match a
    case AbortQueue => s.(queue := s.queue.(abort := true), main := Aborting)
    case Join => s.(main := Joined)
    case EmptyQueue => s.(queue := Flushed(s.queue), main := Emptied)
    case Close => s.(streamOpen := false, main := Idle)
    case Open =>
      s.(streamOpen := true, main := Opening, pktSerial := 0, finished := 0, pending := false, log := s.log + [CodecOpened])
    case StartQueue => s.(queue := Started(s.queue), main := Spawning)
    case Spawn => s.(decoder := Top, main := Running)
  }

  /** The part of `decoder_decode_frame` after the codec call. */
  function AfterDecode(s: State, outcome: Outcome): State {
    var fed := s.(again := true, log := s.log + [Fed(s.pkt, s.again, outcome)]);
    var frame := outcome.Decoded? && outcome.frame;
    var t :=
      if outcome.Failed? then fed.(pending := false)
      else if s.pkt.pkt.Data? then fed.(pending := outcome.more)
      else if frame then fed
      else fed.(pending := false, finished := s.pktSerial, log := fed.log + [Drained(s.pktSerial)]);
    t.(decoder := if !frame && t.finished == 0 then Top else Returned)
  }

  function DoDecoder(s: State, a: Action): State
    requires Enabled(s, a) && !OfReader(a) && !OfMain(a)
  {
    match a
    case Enter => s.(decoder := if s.queue.abort then Dead else Choosing)
    case Choose => s.(decoder := if !s.pending || s.queue.serial != s.pktSerial then Getting else Decoding)
    case Fetch =>
      if s.queue.abort then s.(decoder := Dead)
      else
        var e := s.queue.entries[0];
        s.(queue := Popped(s.queue), pktSerial := e.serial, decoder := Holding(e))
    case Handle =>
      var e := s.decoder.held;
      if e.pkt.Flush? then s.(finished := 0, decoder := Getting, log := s.log + [CodecFlushed(s.pktSerial)])
      else if s.queue.serial != s.pktSerial then s.(decoder := Getting)
      else s.(pkt := e, again := false, pending := true, decoder := Decoding)
    case Decode(outcome) => AfterDecode(s, outcome)
    case Return(filterEof) =>
      if filterEof then s.(finished := s.pktSerial, decoder := Top, log := s.log + [Drained(s.pktSerial)])
      else s.(decoder := Top)
    case Quit => s.(decoder := Dead)
  }

  function Do(s: State, a: Action): State
    requires Enabled(s, a)
  {
    if OfReader(a) then DoReader(s, a) else if OfMain(a) then DoMain(s, a) else DoDecoder(s, a)
  }

  /** The state a run leads to; `None` if one of its actions is not enabled. */
  function After(run: seq<Action>): (r: Option<State>)
    decreases |run|
  {
    if run == [] then Some(Start)
    else
      var t := After(run[..|run| - 1]);
      if t.Some? && Enabled(t.value, run[|run| - 1]) then Some(Do(t.value, run[|run| - 1])) else None
  }

  // ----- The invariant -----

  /** A packet continues the epoch before it, a flush packet opens a later one. */
  ghost predicate Continues(e: Entry, before: nat) {
    if e.pkt.Flush? then e.serial > before else e.serial == before > 0
  }

  ghost predicate Chained(entries: seq<Entry>, serial: nat) {
    && (entries != [] ==> Continues(entries[0], serial))
    && forall i, j :: 0 <= i && j == i + 1 < |entries| ==> Continues(entries[j], entries[i].serial)
  }

  function LastSerial(entries: seq<Entry>, serial: nat): nat {
    if entries == [] then serial else entries[|entries| - 1].serial
  }

  /** Which control points go together. */
  ghost predicate Phases(s: State) {
    && (s.main != Spawning && s.main != Running ==> s.queue.abort)
    && (s.main != Running && s.main != Aborting ==> s.decoder == Dead)
    && (s.main == Emptied || s.main == Idle || s.main == Opening ==> s.queue.entries == [])
    && (s.main != Idle <==> s.streamOpen)
    && (s.main == Opening || s.main == Spawning ==> !s.pending)
    && (!s.queue.abort ==> s.queue.serial > 0)
  }

  /** Epochs along the queue, from the decoder's to the queue's own. */
  ghost predicate Epochs(s: State) {
    && Chained(s.queue.entries, s.pktSerial)
    && LastSerial(s.queue.entries, s.pktSerial) <= s.queue.serial
    && (s.queue.abort || s.reader == Restarting || LastSerial(s.queue.entries, s.pktSerial) == s.queue.serial)
    && s.finished <= s.pktSerial
  }

  /** The epoch the codec was last flushed for; 0 for a fresh codec. */
  function CodecSerial(log: seq<Event>): nat {
    if log == [] then 0
    else
      match log[|log| - 1]
      case CodecOpened => 0
      case CodecFlushed(serial) => serial
      case _ => CodecSerial(log[..|log| - 1])
  }

  /** The packet in the decoder's hands belongs to the decoder's epoch. */
  ghost predicate Held(s: State) {
    && (s.decoder == Decoding || (s.pending && (s.decoder == Top || s.decoder == Choosing || s.decoder == Returned)) ==>
          s.pkt.serial == s.pktSerial > 0 && !s.pkt.pkt.Flush? && s.pkt in s.puts)
    && (s.decoder.Holding? ==> s.decoder.held.serial == s.pktSerial > 0 &&
                               (s.decoder.held.pkt.Flush? || s.decoder.held in s.puts))
    && (!(s.decoder.Holding? && s.decoder.held.pkt.Flush?) ==> CodecSerial(s.log) == s.pktSerial)
  }

  /** An event fits the epoch the codec is in: packets are fed in their own, the end is reached in the one it is recorded for. */
  ghost predicate Fits(e: Event, codec: nat, puts: seq<Entry>) {
    && (e.Fed? ==> e.entry.serial == codec > 0 && e.entry in puts)
    && (e.Drained? ==> e.serial == codec)
  }

  ghost predicate FedInEpoch(s: State) {
    forall i :: 0 <= i < |s.log| ==> Fits(s.log[i], CodecSerial(s.log[..i]), s.puts)
  }

  /** One epoch never holds packets from both sides of a seek. */
  ghost predicate Origins(s: State) {
    && (forall e :: e in s.queue.entries && !e.pkt.Flush? ==> e in s.puts)
    && (forall e :: e in s.puts ==> !e.pkt.Flush? && e.serial <= s.queue.serial)
    && (forall e, f :: e in s.puts && f in s.puts && e.serial == f.serial ==> e.pkt.origin == f.pkt.origin)
    && (s.queue.abort || s.reader != Reading ||
        forall e :: e in s.puts && e.serial == s.queue.serial ==> e.pkt.origin == s.origin)
  }

  /** An end of stream on record was reached by this codec since it was last flushed. */
  ghost predicate DrainedNow(log: seq<Event>, serial: nat) {
    exists j :: 0 <= j < |log| && log[j] == Drained(serial) &&
                forall k :: j < k < |log| ==> !log[k].CodecOpened? && !log[k].CodecFlushed?
  }

  ghost predicate Finished(s: State) { s.finished > 0 ==> DrainedNow(s.log, s.finished) }

  ghost predicate Inv(s: State) {
    Phases(s) && Epochs(s) && Held(s) && FedInEpoch(s) && Origins(s) && Finished(s)
  }

  // ----- Every action keeps it -----

  lemma KeepsPhases(s: State, a: Action)
    requires Phases(s) && Enabled(s, a)
    ensures Phases(Do(s, a))
  {
    if OfReader(a) {
      ReaderKeepsPhases(s, a);
    } else if !OfMain(a) {
      DecoderKeepsPhases(s, a);
    }
    hide DoReader, DoDecoder;
  }

  lemma ReaderKeepsPhases(s: State, a: Action)
    requires Phases(s) && Enabled(s, a) && OfReader(a)
    ensures Phases(DoReader(s, a))
  {
  }

  lemma DecoderKeepsPhases(s: State, a: Action)
    requires Phases(s) && Enabled(s, a) && !OfReader(a) && !OfMain(a)
    ensures Phases(DoDecoder(s, a))
  {
  }

  lemma ChainedSnoc(entries: seq<Entry>, serial: nat, e: Entry)
    requires Chained(entries, serial) && Continues(e, LastSerial(entries, serial))
    ensures Chained(entries + [e], serial)
  {
    hide Continues;
  }

  lemma ChainedTail(entries: seq<Entry>, serial: nat)
    requires Chained(entries, serial) && entries != []
    ensures Chained(entries[1..], entries[0].serial)
    ensures LastSerial(entries[1..], entries[0].serial) == LastSerial(entries, serial)
    ensures serial <= entries[0].serial && entries[0].serial > 0
    ensures !entries[0].pkt.Flush? ==> entries[0].serial == serial
  {
    assert Continues(entries[0], serial);
    hide Continues;
    var rest := entries[1..];
    forall i, j | 0 <= i && j == i + 1 < |rest| ensures Continues(rest[j], rest[i].serial) {
      assert rest[i] == entries[i + 1] && rest[j] == entries[j + 1];
    }
    if rest != [] { assert rest[0] == entries[1]; }
  }

  lemma {:induction false} ChainedAscends(entries: seq<Entry>, serial: nat)
    requires Chained(entries, serial)
    ensures serial <= LastSerial(entries, serial)
    decreases |entries|
  {
    if entries != [] {
      ChainedTail(entries, serial);
      ChainedAscends(entries[1..], entries[0].serial);
    }
  }

  /** A put into a queue that takes packets. */
  lemma PutKeepsEpochs(s: State, p: Packet)
    requires Phases(s) && Epochs(s) && !s.queue.abort
    requires p.Flush? || s.reader != Restarting
    ensures var q := Put(s.queue, p);
            Chained(q.entries, s.pktSerial) && LastSerial(q.entries, s.pktSerial) == q.serial
  {
    ChainedSnoc(s.queue.entries, s.pktSerial, Entry(p, Put(s.queue, p).serial));
  }

  lemma StartKeepsEpochs(q: Queue, serial: nat)
    requires Chained(q.entries, serial) && LastSerial(q.entries, serial) <= q.serial
    ensures Chained(Started(q).entries, serial) && LastSerial(Started(q).entries, serial) == Started(q).serial
  {
    ChainedSnoc(q.entries, serial, Entry(Flush, q.serial + 1));
  }

  lemma ReaderKeepsEpochs(s: State, a: Action)
    requires Phases(s) && Epochs(s) && Enabled(s, a) && OfReader(a)
    ensures Epochs(DoReader(s, a))
  {
    ChainedAscends(s.queue.entries, s.pktSerial);
    match a {
      case ReadData(size) => if !s.queue.abort { PutKeepsEpochs(s, Data(size, s.origin)); }
      case ReadEof => if !s.queue.abort { PutKeepsEpochs(s, Null(s.origin)); }
      case RestartQueue => if !s.queue.abort { PutKeepsEpochs(s, Flush); }
      case _ =>
    }
  }

  lemma KeepsEpochs(s: State, a: Action)
    requires Phases(s) && Epochs(s) && Enabled(s, a)
    ensures Epochs(Do(s, a))
  {
    hide DoReader, Continues;
    if OfReader(a) { ReaderKeepsEpochs(s, a); }
    ChainedAscends(s.queue.entries, s.pktSerial);
    match a {
      case StartQueue => StartKeepsEpochs(s.queue, s.pktSerial);
      case Fetch => if !s.queue.abort { ChainedTail(s.queue.entries, s.pktSerial); }
      case _ =>
    }
  }

  lemma CodecSerialOfSnoc(log: seq<Event>, e: Event)
    ensures CodecSerial(log + [e]) ==
            if e.CodecOpened? then 0 else if e.CodecFlushed? then e.serial else CodecSerial(log)
  {
    assert (log + [e])[..|log|] == log;
  }

  lemma ReaderKeepsHeld(s: State, a: Action)
    requires Held(s) && Enabled(s, a) && OfReader(a)
    ensures Held(DoReader(s, a))
  {
    hide CodecSerial, Put;
    assert forall e :: e in s.puts ==> e in DoReader(s, a).puts;
  }

  lemma MainKeepsHeld(s: State, a: Action)
    requires Phases(s) && Held(s) && Enabled(s, a) && OfMain(a)
    ensures Held(DoMain(s, a))
  {
    hide CodecSerial, Put;
    CodecSerialOfSnoc(s.log, CodecOpened);
  }

  lemma DecodeKeepsHeld(s: State, outcome: Outcome)
    requires Held(s) && s.decoder == Decoding
    ensures Held(AfterDecode(s, outcome))
  {
    hide CodecSerial;
    var fed := Fed(s.pkt, s.again, outcome);
    CodecSerialOfSnoc(s.log, fed);
    CodecSerialOfSnoc(s.log + [fed], Drained(s.pktSerial));
  }

  lemma DecoderKeepsHeld(s: State, a: Action)
    requires Epochs(s) && Held(s) && Origins(s) && Enabled(s, a) && !OfReader(a) && !OfMain(a)
    ensures Held(DoDecoder(s, a))
  {
    hide CodecSerial, Continues, AfterDecode;
    match a {
      case Fetch =>
        if !s.queue.abort {
          ChainedTail(s.queue.entries, s.pktSerial);
          assert s.queue.entries[0] in s.queue.entries;
        }
      case Handle => CodecSerialOfSnoc(s.log, CodecFlushed(s.pktSerial));
      case Decode(outcome) => DecodeKeepsHeld(s, outcome);
      case Return(_) => CodecSerialOfSnoc(s.log, Drained(s.pktSerial));
      case _ =>
    }
  }

  lemma KeepsHeld(s: State, a: Action)
    requires Phases(s) && Epochs(s) && Held(s) && Origins(s) && Enabled(s, a)
    ensures Held(Do(s, a))
  {
    hide Phases, Epochs, Held, Origins, DoReader, DoMain, DoDecoder, Enabled;
    if OfReader(a) { ReaderKeepsHeld(s, a); }
    else if OfMain(a) { MainKeepsHeld(s, a); }
    else { DecoderKeepsHeld(s, a); }
  }

  /** Entries at the end of the log leave the judgement on earlier ones alone. */
  lemma FedInEpochOfSnoc(s: State, e: Event)
    requires FedInEpoch(s) && Fits(e, CodecSerial(s.log), s.puts)
    ensures FedInEpoch(s.(log := s.log + [e]))
  {
    hide CodecSerial;
    var log := s.log + [e];
    assert s.log[..|s.log|] == s.log;
    forall i | 0 <= i < |log|
      ensures Fits(log[i], CodecSerial(log[..i]), s.puts)
    {
      assert log[..i] == s.log[..i];
    }
  }

  lemma DecodeKeepsFedInEpoch(s: State, outcome: Outcome)
    requires Held(s) && FedInEpoch(s) && s.decoder == Decoding
    ensures FedInEpoch(AfterDecode(s, outcome))
  {
    var fed := Fed(s.pkt, s.again, outcome);
    CodecSerialOfSnoc(s.log, fed);
    hide CodecSerial;
    FedInEpochOfSnoc(s, fed);
    FedInEpochOfSnoc(s.(log := s.log + [fed]), Drained(s.pktSerial));
  }

  lemma KeepsFedInEpoch(s: State, a: Action)
    requires Held(s) && FedInEpoch(s) && Enabled(s, a)
    ensures FedInEpoch(Do(s, a))
  {
    hide CodecSerial, AfterDecode, Put;
    match a {
      case Open => FedInEpochOfSnoc(s, CodecOpened);
      case Handle => FedInEpochOfSnoc(s, CodecFlushed(s.pktSerial));
      case Decode(outcome) => DecodeKeepsFedInEpoch(s, outcome);
      case Return(_) => FedInEpochOfSnoc(s, Drained(s.pktSerial));
      case _ =>
    }
  }

  /** The reader's own packets carry the position it reads from. */
  lemma ReaderPutKeepsOrigins(s: State, p: Packet)
    requires Origins(s) && s.reader == Reading && !p.Flush? && p.origin == s.origin
    ensures Origins(ReaderPut(s, p))
  {
  }

  lemma ReaderKeepsOrigins(s: State, a: Action)
    requires Phases(s) && Origins(s) && Enabled(s, a) && OfReader(a)
    ensures Origins(DoReader(s, a))
  {
    hide ReaderPut;
    match a {
      case ReadData(size) => ReaderPutKeepsOrigins(s, Data(size, s.origin));
      case ReadEof => ReaderPutKeepsOrigins(s, Null(s.origin));
      case _ =>
    }
  }

  lemma KeepsOrigins(s: State, a: Action)
    requires Phases(s) && Origins(s) && Enabled(s, a)
    ensures Origins(Do(s, a))
  {
    hide DoReader, DoDecoder, Phases;
    if OfReader(a) {
      ReaderKeepsOrigins(s, a);
    } else if !OfMain(a) {
      DecoderKeepsOrigins(s, a);
    }
  }

  lemma DecoderKeepsOrigins(s: State, a: Action)
    requires Origins(s) && Enabled(s, a) && !OfReader(a) && !OfMain(a)
    ensures Origins(DoDecoder(s, a))
  {
    DecoderOnlyTakes(s, a);
    hide DoDecoder;
  }

  /** The decoder leaves the reader and its packets alone and only takes entries from the queue. */
  lemma DecoderOnlyTakes(s: State, a: Action)
    requires Enabled(s, a) && !OfReader(a) && !OfMain(a)
    ensures var t := DoDecoder(s, a);
            && t.puts == s.puts && t.origin == s.origin && t.reader == s.reader
            && t.queue == s.queue.(entries := t.queue.entries)
            && forall e :: e in t.queue.entries ==> e in s.queue.entries
  {
  }

  lemma KeepsFinished(s: State, a: Action)
    requires Finished(s) && Enabled(s, a)
    ensures Finished(Do(s, a))
  {
    match a {
      case Decode(outcome) =>
        DrainedLater(s.log, s.finished, Fed(s.pkt, s.again, outcome));
        DrainedLast(s.log + [Fed(s.pkt, s.again, outcome)], s.pktSerial);
      case Return(_) => DrainedLast(s.log, s.pktSerial);
      case _ =>
    }
  }

  lemma DrainedLater(log: seq<Event>, serial: nat, e: Event)
    requires !e.CodecOpened? && !e.CodecFlushed?
    ensures DrainedNow(log, serial) ==> DrainedNow(log + [e], serial)
  {
    if DrainedNow(log, serial) {
      var j :| 0 <= j < |log| && log[j] == Drained(serial) &&
               forall k :: j < k < |log| ==> !log[k].CodecOpened? && !log[k].CodecFlushed?;
      assert (log + [e])[j] == Drained(serial);
    }
  }

  lemma DrainedLast(log: seq<Event>, serial: nat)
    ensures DrainedNow(log + [Drained(serial)], serial)
  {
    assert (log + [Drained(serial)])[|log|] == Drained(serial);
  }

  // ----- What holds in every run -----

  lemma {:induction false} InvariantHolds(run: seq<Action>)
    requires After(run).Some?
    ensures Inv(After(run).value)
    decreases |run|
  {
    if run == [] {
      assert FedInEpoch(Start);
    } else {
      var s, a := After(run[..|run| - 1]).value, run[|run| - 1];
      InvariantHolds(run[..|run| - 1]);
      hide Do, Enabled, Phases, Epochs, Held, FedInEpoch, Origins, Finished;
      KeepsPhases(s, a);
      KeepsEpochs(s, a);
      KeepsHeld(s, a);
      KeepsFedInEpoch(s, a);
      KeepsOrigins(s, a);
      KeepsFinished(s, a);
    }
  }

  /** No codec was opened or flushed between two places of a log. */
  ghost predicate SameCodecState(log: seq<Event>, lo: nat, hi: nat) {
    forall k :: lo <= k < hi && k < |log| ==> !log[k].CodecOpened? && !log[k].CodecFlushed?
  }

  lemma {:induction false} CodecSerialStable(log: seq<Event>, lo: nat, hi: nat)
    requires lo <= hi <= |log| && SameCodecState(log, lo, hi)
    ensures CodecSerial(log[..lo]) == CodecSerial(log[..hi])
    decreases hi
  {
    if lo < hi {
      CodecSerialStable(log, lo, hi - 1);
      CodecSerialOfSnoc(log[..hi - 1], log[hi - 1]);
      assert log[..hi] == log[..hi - 1] + [log[hi - 1]];
    }
  }

  /** The codec is in epoch `serial` because it was flushed for it. */
  lemma {:induction false} CodecWasFlushed(log: seq<Event>) returns (j: nat)
    requires CodecSerial(log) > 0
    ensures j < |log| && log[j] == CodecFlushed(CodecSerial(log)) && SameCodecState(log, j + 1, |log|)
    decreases |log|
  {
    j := |log| - 1;
    if !log[j].CodecFlushed? {
      var front := log[..j];
      j := CodecWasFlushed(front);
      assert forall k :: 0 <= k < |front| ==> front[k] == log[k];
    }
  }

  /** In every interleaving a packet reaches the codec only after the codec was flushed for the packet's own epoch,
      and no other flush lies between. */
  lemma FedAfterItsFlush(run: seq<Action>, i: nat) returns (j: nat)
    requires After(run).Some?
    requires var log := After(run).value.log; i < |log| && log[i].Fed?
    ensures var log := After(run).value.log;
            j < i && log[j] == CodecFlushed(log[i].entry.serial) && SameCodecState(log, j + 1, i)
  {
    InvariantHolds(run);
    var s := After(run).value;
    hide After, Phases, Epochs, Held, Origins, Finished;
    var log := s.log;
    assert Fits(log[i], CodecSerial(log[..i]), s.puts);
    j := CodecWasFlushed(log[..i]);
    assert forall k :: 0 <= k < i ==> log[..i][k] == log[k];
  }

  /** Packets that meet in the codec belong to one epoch and come from one side of every seek. */
  lemma SeekSidesNeverMix(run: seq<Action>, i: nat, k: nat)
    requires After(run).Some?
    requires var log := After(run).value.log;
             i < k < |log| && log[i].Fed? && log[k].Fed? && SameCodecState(log, i, k)
    ensures var log := After(run).value.log;
            && log[i].entry.serial == log[k].entry.serial
            && !log[i].entry.pkt.Flush? && !log[k].entry.pkt.Flush?
            && log[i].entry.pkt.origin == log[k].entry.pkt.origin
  {
    InvariantHolds(run);
    var s := After(run).value;
    hide After, Phases, Epochs, Held, Finished;
    assert Fits(s.log[i], CodecSerial(s.log[..i]), s.puts) && Fits(s.log[k], CodecSerial(s.log[..k]), s.puts);
    CodecSerialStable(s.log, i, k);
  }

  /** An end of stream that matches a started queue was reached in the queue's current epoch. */
  lemma EndOfStreamIsCurrent(run: seq<Action>)
    requires After(run).Some?
    ensures var s := After(run).value;
            && s.finished <= s.pktSerial <= s.queue.serial
            && (s.finished == s.queue.serial > 0 ==> DrainedNow(s.log, s.queue.serial))
  {
    InvariantHolds(run);
    var s := After(run).value;
    hide After, Phases, Held, FedInEpoch, Origins, DrainedNow;
    ChainedAscends(s.queue.entries, s.pktSerial);
  }

  /** A seek that reaches the queue makes every earlier end of stream stale. */
  lemma SeekInvalidatesEndOfStream(run: seq<Action>)
    requires After(run + [RestartQueue]).Some? && !After(run + [RestartQueue]).value.queue.abort
    ensures var s := After(run + [RestartQueue]).value; s.finished < s.queue.serial
  {
    assert (run + [RestartQueue])[..|run|] == run;
    EndOfStreamIsCurrent(run);
  }

  /** The decoder turns to a packet exactly if it is a new one of the queue's epoch or the rest of one of that epoch: current
      packets are used and stale ones dropped. */
  lemma DecoderStartsOnCurrentPackets(run: seq<Action>, a: Action)
    requires After(run).Some? && After(run).value.decoder != Decoding && Enabled(After(run).value, a)
    ensures var s, t := After(run).value, Do(After(run).value, a);
            && (t.decoder == Decoding <==>
                  || (a.Handle? && !s.decoder.held.pkt.Flush? && s.decoder.held.serial == s.queue.serial)
                  || (a.Choose? && s.pending && s.pkt.serial == s.queue.serial))
            && (t.decoder == Decoding ==> t.pending && t.pkt == if a.Handle? then s.decoder.held else s.pkt)
            && (t.decoder == Decoding ==> t.pkt.serial == t.queue.serial && !t.pkt.pkt.Flush?)
  {
    InvariantHolds(run);
    assert Held(After(run).value);
    hide After, Inv, CodecSerial, DoReader, DoMain;
    if OfReader(a) || OfMain(a) { OthersLeaveDecoder(After(run).value, a); }
  }

  lemma OthersLeaveDecoder(s: State, a: Action)
    requires Enabled(s, a) && (OfReader(a) || OfMain(a)) && s.decoder != Decoding
    ensures Do(s, a).decoder != Decoding
  {
  }
}

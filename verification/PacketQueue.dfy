/**
 ffplay's packet queue: a singly linked list with a tail pointer, two running
 totals and an epoch number ("serial") that every flush packet advances.  Each
 method is one critical section under the queue's mutex; allocation succeeds.
 */
module PacketQueue {

  /** `origin` tells which reading position of the demuxer a packet comes from. */
  datatype Packet = Flush | Null(origin: nat) | Data(size: nat, origin: nat)

  function SizeOf(p: Packet): nat { if p.Data? then p.size else 0 }

  datatype Entry = Entry(pkt: Packet, serial: nat)

  // ----- The queue as a value -----

  datatype Queue = Queue(entries: seq<Entry>, abort: bool, serial: nat)

  const Init := Queue([], true, 0)

  function Put(q: Queue, p: Packet): (q': Queue) {
    if q.abort then q
    else
      var serial := q.serial + if p.Flush? then 1 else 0;
      q.(entries := q.entries + [Entry(p, serial)], serial := serial)
  }

  function Flushed(q: Queue): (q': Queue) { q.(entries := []) }

  function Started(q: Queue): (q': Queue) { Put(q.(abort := false), Flush) }

  function Popped(q: Queue): (q': Queue)
    requires q.entries != []
  {
    q.(entries := q.entries[1..])
  }

  /** Serials never fall along the queue nor exceed the queue's own. */
  ghost predicate SerialsOrdered(q: Queue) {
    && (forall i, j :: 0 <= i < j < |q.entries| ==> q.entries[i].serial <= q.entries[j].serial)
    && (forall i :: 0 <= i < |q.entries| ==> q.entries[i].serial <= q.serial)
  }

  /** What the entries occupy, with `node` bytes for each list node. */
  function Footprint(entries: seq<Entry>, node: nat): nat {
    if entries == [] then 0
    else Footprint(entries[..|entries| - 1], node) + SizeOf(entries[|entries| - 1].pkt) + node
  }

  lemma FootprintOfSnoc(entries: seq<Entry>, e: Entry, node: nat)
    ensures Footprint(entries + [e], node) == Footprint(entries, node) + SizeOf(e.pkt) + node
  {
    assert (entries + [e])[..|entries|] == entries;
  }

  lemma {:induction false} FootprintFromFront(entries: seq<Entry>, node: nat)
    requires entries != []
    ensures Footprint(entries, node) == SizeOf(entries[0].pkt) + node + Footprint(entries[1..], node)
  {
    var front := entries[..|entries| - 1];
    if front != [] {
      FootprintFromFront(front, node);
      assert front[1..] == entries[1..][..|entries| - 2];
    }
  }

  /** The bytes of the data packets; flush and null packets carry none. */
  function DataBytes(entries: seq<Entry>): nat {
    if entries == [] then 0
    else
      var rest := DataBytes(entries[1..]);
      match entries[0].pkt case Data(size, _) => size + rest case _ => rest
  }

  /** The running byte total is the data of all queued packets plus a list node for each. */
  lemma {:induction false} FootprintIsDataPlusNodes(entries: seq<Entry>, node: nat)
    ensures Footprint(entries, node) == DataBytes(entries) + |entries| * node
  {
    if entries != [] {
      FootprintFromFront(entries, node);
      FootprintIsDataPlusNodes(entries[1..], node);
      assert |entries| * node == (|entries| - 1) * node + node;
    }
  }

  /** The running totals are right, serials are ordered, and what was accepted has left or is still queued, in order. */
  ghost predicate Books(q: Queue, nb: int, size: int, node: nat, accepted: seq<Entry>, left: seq<Entry>) {
    && nb == |q.entries| && size == Footprint(q.entries, node)
    && SerialsOrdered(q)
    && accepted == left + q.entries
  }

  lemma BooksAfterPut(q: Queue, p: Packet, nb: int, size: int, node: nat, accepted: seq<Entry>, left: seq<Entry>)
    requires Books(q, nb, size, node, accepted, left) && !q.abort
    ensures var q' := Put(q, p);
            Books(q', nb + 1, size + SizeOf(p) + node, node, accepted + [Entry(p, q'.serial)], left)
  {
    var e := Entry(p, Put(q, p).serial);
    FootprintOfSnoc(q.entries, e, node);
    assert left + q.entries + [e] == left + (q.entries + [e]);
  }

  lemma BooksAfterPop(q: Queue, nb: int, size: int, node: nat, accepted: seq<Entry>, left: seq<Entry>)
    requires Books(q, nb, size, node, accepted, left) && q.entries != []
    ensures var e := q.entries[0];
            Books(Popped(q), nb - 1, size - (SizeOf(e.pkt) + node), node, accepted, left + [e])
  {
    FootprintFromFront(q.entries, node);
    var rest := q.entries[1..];
    assert forall i :: 0 <= i < |rest| ==> rest[i] == q.entries[i + 1];
    assert left + q.entries == left + [q.entries[0]] + rest;
  }

  // ----- The linked list -----

  class Node {
    const entry: Entry
    var next: Node?

    constructor (entry: Entry)
      ensures this.entry == entry && next == null
    {
      this.entry := entry;
      next := null;
    }
  }

  ghost function EntriesOf(nodes: seq<Node>): (r: seq<Entry>)
    ensures |r| == |nodes| && forall i :: 0 <= i < |r| ==> r[i] == nodes[i].entry
  {
    seq(|nodes|, i requires 0 <= i < |nodes| => nodes[i].entry)
  }

  /** The nodes are distinct, each points to the next, and the two ends are these. */
  ghost predicate Chain(nodes: seq<Node>, first: Node?, last: Node?)
    reads nodes
  {
    && (forall i, j :: 0 <= i < j < |nodes| ==> nodes[i] != nodes[j])
    && (forall i :: 0 <= i < |nodes| - 1 ==> nodes[i].next == nodes[i + 1])
    && (nodes == [] ==> first == null && last == null)
    && (nodes != [] ==> first == nodes[0] && last == nodes[|nodes| - 1] && nodes[|nodes| - 1].next == null)
  }

  lemma EntriesOfSnoc(nodes: seq<Node>, node: Node)
    ensures EntriesOf(nodes + [node]) == EntriesOf(nodes) + [node.entry]
  {
  }

  lemma ChainTail(nodes: seq<Node>, first: Node, last: Node)
    requires Chain(nodes, first, last)
    ensures first.next == null <==> |nodes| == 1
    ensures Chain(nodes[1..], first.next, if first.next == null then null else last)
    ensures nodes != [] && EntriesOf(nodes)[0] == first.entry && EntriesOf(nodes[1..]) == EntriesOf(nodes)[1..]
  {
    assert |nodes| > 1 ==> nodes[0].next == nodes[1];
    assert forall i :: 0 <= i < |nodes| - 1 ==> nodes[1..][i] == nodes[i + 1];
  }

  datatype Fetch = Aborted | Empty | Got(entry: Entry)

  class PacketQueue {
    var firstPkt: Node?
    var lastPkt: Node?
    var nbPackets: int
    var size: int
    var abortRequest: bool
    var serial: nat
    const nodeSize: nat

    ghost var spine: seq<Node>
    /** Every entry ever accepted, and those that have left again. */
    ghost var accepted: seq<Entry>
    ghost var left: seq<Entry>

    ghost function Entries(): seq<Entry>
      reads this
    {
      EntriesOf(spine)
    }

    ghost function View(): Queue
      reads this
    {
      Queue(Entries(), abortRequest, serial)
    }

    ghost predicate Valid()
      reads this, spine
    {
      && Chain(spine, firstPkt, lastPkt)
      && Books(View(), nbPackets, size, nodeSize, accepted, left)
    }

    constructor (nodeSize: nat)
      ensures Valid() && View() == Init && accepted == []
    {
      this.nodeSize := nodeSize;
      firstPkt, lastPkt, nbPackets, size, abortRequest, serial := null, null, 0, 0, true, 0;
      spine, accepted, left := [], [], [];
    }

    /** Hangs a new node at the tail. */
    method Append(node: Node)
      requires Chain(spine, firstPkt, lastPkt) && node !in spine && node.next == null
      modifies `firstPkt, `lastPkt, `spine, lastPkt
      ensures spine == old(spine) + [node] && Chain(spine, firstPkt, lastPkt)
    {
      if lastPkt == null {
        firstPkt := node;
      } else {
        lastPkt.next := node;
      }
      lastPkt := node;
      spine := spine + [node];
    }

    /** `packet_queue_put_private`. */
    method PutPacket(p: Packet) returns (ok: bool)
      requires Valid()
      modifies this, lastPkt
      ensures Valid() && (forall n :: n in spine ==> n in old(spine) || fresh(n))
      ensures View() == Put(old(View()), p)
      ensures ok == !old(abortRequest)
      ensures left == old(left) && accepted == old(accepted) + if ok then [Entry(p, serial)] else []
    {
      hide Books, EntriesOf, Chain;
      if abortRequest {
        return false;
      }
      ghost var nodes := spine;
      BooksAfterPut(View(), p, nbPackets, size, nodeSize, accepted, left);
      if p.Flush? {
        serial := serial + 1;
      }
      var node := new Node(Entry(p, serial));
      Append(node);
      nbPackets := nbPackets + 1;
      size := size + SizeOf(p) + nodeSize;
      accepted := accepted + [node.entry];
      EntriesOfSnoc(nodes, node);
      ok := true;
    }

    /** Takes the head off the list. */
    method Unlink() returns (node: Node)
      requires Chain(spine, firstPkt, lastPkt) && spine != []
      modifies `firstPkt, `lastPkt, `spine
      ensures Chain(spine, firstPkt, lastPkt) && spine == old(spine)[1..]
      ensures EntriesOf(old(spine)) == [node.entry] + EntriesOf(spine)
    {
      node := firstPkt;
      ChainTail(spine, node, lastPkt);
      firstPkt := node.next;
      if firstPkt == null {
        lastPkt := null;
      }
      spine := spine[1..];
    }

    /** `packet_queue_get`, up to the point where a blocking call would wait. */
    method Get() returns (r: Fetch)
      requires Valid()
      modifies this
      ensures Valid() && accepted == old(accepted)
      ensures r.Aborted? <==> old(abortRequest)
      ensures r.Empty? <==> !old(abortRequest) && old(Entries()) == []
      ensures r.Got? ==> r.entry == old(Entries())[0] && View() == Popped(old(View())) && left == old(left) + [r.entry]
      ensures !r.Got? ==> View() == old(View()) && left == old(left)
    {
      hide Books, EntriesOf;
      if abortRequest {
        return Aborted;
      }
      if firstPkt == null {
        return Empty;
      }
      hide Chain;
      ghost var q := View();
      BooksAfterPop(q, nbPackets, size, nodeSize, accepted, left);
      var node := Unlink();
      nbPackets := nbPackets - 1;
      size := size - (SizeOf(node.entry.pkt) + nodeSize);
      left := left + [node.entry];
      r := Got(node.entry);
      assert q.entries[1..] == Entries();
    }

    /** `packet_queue_flush`: releases every packet, front to back. */
    method FlushAll() returns (released: seq<Entry>)
      requires Valid()
      modifies this
      ensures Valid() && View() == Flushed(old(View()))
      ensures released == old(Entries()) && left == accepted == old(accepted)
      ensures firstPkt == lastPkt == null && nbPackets == size == 0
    {
      released := [];
      var node := firstPkt;
      while node != null
        invariant |released| <= |spine| && released == Entries()[..|released|]
        invariant node == if |released| < |spine| then spine[|released|] else null
        decreases |spine| - |released|
      {
        released := released + [node.entry];
        node := node.next;
      }
      lastPkt, firstPkt := null, null;
      nbPackets, size := 0, 0;
      left := accepted;
      spine := [];
    }

    /** `packet_queue_abort`. */
    method Abort()
      requires Valid()
      modifies this
      ensures Valid() && View() == old(View()).(abort := true) && accepted == old(accepted) && left == old(left)
    {
      abortRequest := true;
      assert Entries() == old(Entries());
    }

    /** `packet_queue_start`. */
    method Start()
      requires Valid()
      modifies this, lastPkt
      ensures Valid() && View() == Started(old(View())) && left == old(left)
      ensures accepted == old(accepted) + [Entry(Flush, serial)]
    {
      abortRequest := false;
      assert Entries() == old(Entries());
      var ok := PutPacket(Flush);
    }
  }
}

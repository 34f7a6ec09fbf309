/**
 The queue from one shard to another: messages wait in a deque at the sender, move in batches to
 a bounded ring, and are received through a small prefetch pipeline.
 */
module LocalChannel {

  const QUEUE_LENGTH: nat := 128
  const BATCH_SIZE: nat := 16
  const PREFETCH: nat := 2

  /** A message in transit, with the tag it was sent under. */
  datatype Item = Item(id: nat, urgent: bool)

  /** The normal messages of a sequence, in order. */
  function Normals(s: seq<Item>): seq<Item> {
    if s == [] then []
    else (if s[0].urgent then [] else [s[0]]) + Normals(s[1..])
  }

  lemma {:induction false} NormalsAppend(a: seq<Item>, b: seq<Item>)
    ensures Normals(a + b) == Normals(a) + Normals(b)
  {
    if a == [] {
      assert a + b == b;
    } else {
      NormalsAppend(a[1..], b);
      assert (a + b)[1..] == a[1..] + b;
      var head := if a[0].urgent then [] else [a[0]];
      assert Normals(a) == head + Normals(a[1..]) && Normals(a + b) == head + (Normals(a[1..]) + Normals(b));
    }
  }

  class MessageQueue {
    var pendingFifo: seq<Item>
    var ring: seq<Item>
    var sent: nat
    var received: nat
    ghost var delivered: seq<Item>
    ghost var accepted: seq<Item>  // everything ever passed to send or sendUrgent, in call order

    /** Everything accepted, in the order the receiver sees it. */
    ghost function Flow(): seq<Item>
      reads this
    {
      delivered + ring + pendingFifo
    }

    /**
     Nothing is lost, duplicated or invented, normal messages keep their order, and the counters
     account for the ring.
     */
    ghost predicate Valid()
      reads this
    {
      && |ring| <= QUEUE_LENGTH
      && multiset(Flow()) == multiset(accepted)
      && Normals(Flow()) == Normals(accepted)
      && sent == received + |ring| && received == |delivered|
    }

    constructor ()
      ensures Valid() && Flow() == [] && accepted == []
    {
      pendingFifo, ring, sent, received, delivered, accepted := [], [], 0, 0, [], [];
    }

    /** Moves as long a prefix as the ring has room for. */
    method MovePending()
      requires |ring| <= QUEUE_LENGTH && sent == received + |ring|
      modifies this`pendingFifo, this`ring, this`sent
      ensures |ring| <= QUEUE_LENGTH && sent == received + |ring|
      ensures ring + pendingFifo == old(ring + pendingFifo) && old(ring) <= ring
      ensures pendingFifo == [] || |ring| == QUEUE_LENGTH
    {
      var room := QUEUE_LENGTH - |ring|;
      var nr := if |pendingFifo| <= room then |pendingFifo| else room;
      if nr == 0 { return; }
      ring := ring + pendingFifo[..nr];
      pendingFifo := pendingFifo[nr..];
      sent := sent + nr;
    }

    method Send(m: Item)
      requires Valid() && !m.urgent
      modifies this`pendingFifo, this`ring, this`sent, this`accepted
      ensures Valid() && accepted == old(accepted) + [m]
      ensures Flow() == old(Flow()) + [m]
      ensures |old(pendingFifo)| + 1 < BATCH_SIZE ==> ring == old(ring)
      ensures |pendingFifo| < BATCH_SIZE || |ring| == QUEUE_LENGTH
    {
      pendingFifo, accepted := pendingFifo + [m], accepted + [m];
      FlowAppends(old(Flow()), old(accepted), m);
      assert Flow() == old(Flow()) + [m];
      if |pendingFifo| >= BATCH_SIZE { Flush(); }
    }

    /** Overtakes what is still at the sender, and nothing that has left it. */
    method SendUrgent(m: Item)
      requires Valid() && m.urgent
      modifies this`pendingFifo, this`ring, this`sent, this`accepted
      ensures Valid() && accepted == old(accepted) + [m]
      ensures Flow() == old(delivered + ring) + ([m] + old(pendingFifo))
      ensures |old(pendingFifo)| + 1 < BATCH_SIZE ==> ring == old(ring)
      ensures |pendingFifo| < BATCH_SIZE || |ring| == QUEUE_LENGTH
    {
      pendingFifo, accepted := [m] + pendingFifo, accepted + [m];
      FlowInserts(delivered + ring, old(pendingFifo), old(accepted), m);
      assert Flow() == old(delivered + ring) + ([m] + old(pendingFifo));
      if |pendingFifo| >= BATCH_SIZE { Flush(); }
    }

    /** `move_pending` seen from the whole channel: the order of messages does not change. */
    method Flush()
      requires |ring| <= QUEUE_LENGTH && sent == received + |ring| && received == |delivered|
      requires multiset(Flow()) == multiset(accepted) && Normals(Flow()) == Normals(accepted)
      modifies this`pendingFifo, this`ring, this`sent
      ensures Valid() && Flow() == old(Flow()) && old(ring) <= ring
      ensures pendingFifo == [] || |ring| == QUEUE_LENGTH
    {
      MovePending();
      assert Flow() == delivered + (ring + pendingFifo);
      assert old(Flow()) == old(delivered) + old(ring + pendingFifo);
    }

    /**
     `process_incoming`.  `raced` says whether the sender moved another batch between the two
     pops, which is how as many as 129 messages can arrive in one call.
     */
    method ProcessIncoming(raced: bool) returns (nr: nat)
      requires Valid()
      modifies this
      ensures Valid() && Flow() == old(Flow()) && accepted == old(accepted)
      ensures |delivered| == |old(delivered)| + nr && old(delivered) <= delivered
      ensures nr == 0 <==> old(ring) == []
      ensures nr > 0 ==> ring == [] && old(delivered + ring) <= delivered && nr <= QUEUE_LENGTH + 1
    {
      if ring == [] { return 0; }
      var first, rest := PopTwice(raced);
      var popped := Pipeline(first, rest);
      nr := |popped|;
      delivered := delivered + popped;
      FlowMoves(old(delivered), popped, pendingFifo, old(ring), old(pendingFifo));
    }

    /** One pop, then everything the ring holds by the time of the second pop. */
    method PopTwice(raced: bool) returns (first: Item, rest: seq<Item>)
      requires |ring| <= QUEUE_LENGTH && sent == received + |ring| && ring != []
      modifies this`pendingFifo, this`ring, this`sent, this`received
      ensures ring == [] && sent == received && received == old(received) + 1 + |rest|
      ensures [first] + rest + pendingFifo == old(ring + pendingFifo)
      ensures old(ring) <= [first] + rest && |rest| <= QUEUE_LENGTH
    {
      first := ring[0];
      ring, received := ring[1..], received + 1;
      if raced { MovePending(); }
      rest := ring;
      assert [first] + rest + pendingFifo == [first] + (rest + pendingFifo);
      ring, received := [], received + |ring|;
    }

    static lemma FlowMoves(d: seq<Item>, popped: seq<Item>, p': seq<Item>, r: seq<Item>, p: seq<Item>)
      requires popped + p' == r + p && r <= popped
      ensures d + popped + [] + p' == d + r + p && d + r <= d + popped
    {
      assert d + popped + [] + p' == d + (popped + p') && d + r + p == d + (r + p);
    }

    /**
     The prefetching loop: `receive` gets the first message and then the buffered ones, each once
     and in order, and the loop reads only initialised cells of its buffer.
     */
    static method Pipeline(first: Item, rest: seq<Item>) returns (out: seq<Item>)
      requires |rest| <= QUEUE_LENGTH
      ensures out == [first] + rest
    {
      var messages := new Item[QUEUE_LENGTH + PREFETCH];
      var nr := |rest|;
      CopyAll(rest, messages);
      var last := if nr > 0 then messages[nr - 1] else first;
      messages[nr], messages[nr + 1] := last, last;
      assert messages[..nr] == rest;
      out := [];
      var tm, i := first, 0;
      ghost var all := [first] + rest;
      while i <= nr
        invariant i <= nr + 1 && messages[..nr] == rest && out == all[..i]
        invariant i <= nr ==> tm == all[i]
      {
        assert i + PREFETCH <= messages.Length;
        out := out + [tm];
        tm := messages[i];
        assert i < nr ==> tm == messages[..nr][i];
        i := i + 1;
      }
    }

    static method CopyAll(source: seq<Item>, target: array<Item>)
      requires |source| <= target.Length
      modifies target
      ensures target[..|source|] == source
    {
      for i := 0 to |source|
        invariant target[..i] == source[..i]
      {
        target[i] := source[i];
      }
    }

    static lemma FlowAppends(flow: seq<Item>, all: seq<Item>, m: Item)
      requires multiset(flow) == multiset(all) && Normals(flow) == Normals(all)
      ensures multiset(flow + [m]) == multiset(all + [m]) && Normals(flow + [m]) == Normals(all + [m])
    {
      NormalsAppend(flow, [m]);
      NormalsAppend(all, [m]);
    }

    static lemma NormalsInsert(a: seq<Item>, b: seq<Item>, m: Item)
      requires m.urgent
      ensures Normals(a + ([m] + b)) == Normals(a + b)
    {
      NormalsAppend(a, [m] + b);
      NormalsAppend(a, b);
      assert ([m] + b)[1..] == b;
    }

    static lemma FlowInserts(a: seq<Item>, b: seq<Item>, all: seq<Item>, m: Item)
      requires m.urgent && multiset(a + b) == multiset(all) && Normals(a + b) == Normals(all)
      ensures multiset(a + ([m] + b)) == multiset(all + [m]) && Normals(a + ([m] + b)) == Normals(all + [m])
    {
      NormalsInsert(a, b, m);
      NormalsAppend(all, [m]);
      assert Normals([m]) == [];
    }
  }
}

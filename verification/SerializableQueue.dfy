/**
 The queue of message buffers: an array of four that spills into a list of such arrays. Buffers
 that were taken out leave an empty buffer in their slot.
 */
module SerializableQueue {
  import opened Bytes
  import opened Wire

  type Buf = seq<byte>

  const CAP: nat := 4

  // ----- tmpbuf_array -----

  datatype Chunk = Chunk(size: nat, cur: nat, slots: seq<Buf>)

  predicate ChunkOk(c: Chunk) {
    && |c.slots| == CAP && c.cur <= c.size <= CAP
    && forall i :: 0 <= i < c.cur ==> c.slots[i] == []
  }

  function Live(c: Chunk): seq<Buf>
    requires ChunkOk(c)
  {
    c.slots[c.cur..c.size]
  }

  const EMPTY: Chunk := Chunk(0, 0, [[], [], [], []])

  function PushChunk(c: Chunk, b: Buf): (r: Chunk)
    requires ChunkOk(c) && c.size < CAP
    ensures ChunkOk(r) && Live(r) == Live(c) + [b] && r.size == c.size + 1
  {
    c.(size := c.size + 1, slots := c.slots[c.size := b])
  }

  function PopChunk(c: Chunk): (r: (Buf, Chunk))
    requires ChunkOk(c) && c.cur < c.size
    ensures ChunkOk(r.1) && Live(c) == [r.0] + Live(r.1) && r.1.size == c.size
  {
    (c.slots[c.cur], c.(cur := c.cur + 1, slots := c.slots[c.cur := []]))
  }

  // ----- tmpbuf_linked_list, head first -----

  predicate ListOk(list: seq<Chunk>) {
    && (forall i :: 0 <= i < |list| ==> ChunkOk(list[i]) && list[i].size > 0)
    && (forall i :: 0 <= i < |list| - 1 ==> list[i].size == CAP)
  }

  function Flat(list: seq<Chunk>): seq<Buf>
    requires ListOk(list)
  {
    if list == [] then [] else Live(list[0]) + Flat(list[1..])
  }

  lemma {:induction false} FlatAppend(list: seq<Chunk>, c: Chunk)
    requires ListOk(list + [c]) && ChunkOk(c)
    ensures ListOk(list) && Flat(list + [c]) == Flat(list) + Live(c)
  {
    ListPart(list, c);
    if list != [] {
      assert (list + [c])[1..] == list[1..] + [c];
      FlatAppend(list[1..], c);
    }
  }

  lemma ListPart(list: seq<Chunk>, c: Chunk)
    requires ListOk(list + [c])
    ensures ListOk(list)
  {
    assert forall i :: 0 <= i < |list| ==> (list + [c])[i] == list[i];
  }

  lemma {:induction false} TotalAppend(a: seq<Buf>, b: seq<Buf>)
    ensures TotalSize(a + b) == TotalSize(a) + TotalSize(b)
  {
    if a == [] {
      assert a + b == b;
    } else {
      assert (a + b)[1..] == a[1..] + b;
      TotalAppend(a[1..], b);
    }
  }

  /** The size loop of one chunk, in 32 bits. */
  method ChunkBytes(c: Chunk) returns (n: nat)
    requires ChunkOk(c)
    ensures n == Wrap(TotalSize(Live(c)))
  {
    n := 0;
    for i := c.cur to c.size
      invariant n == Wrap(TotalSize(c.slots[c.cur..i]))
    {
      TotalAppend(c.slots[c.cur..i], [c.slots[i]]);
      assert c.slots[c.cur..i + 1] == c.slots[c.cur..i] + [c.slots[i]];
      WrapAdd(TotalSize(c.slots[c.cur..i]), |c.slots[i]|);
      n := Wrap(n + |c.slots[i]|);
    }
  }

  datatype Read = Got(buf: Buf) | Outside

  // ----- The list after a push and after a pop -----

  /** A node counter of zero starts a new list; a full tail starts a new node. */
  function ListPushed(list: seq<Chunk>, nodes: int, b: Buf): seq<Chunk>
    requires ListOk(list) && (list == [] ==> nodes == 0)
  {
    var n := |list| - 1;
    if nodes == 0 then [PushChunk(EMPTY, b)]
    else if list[n].size == CAP then list + [PushChunk(EMPTY, b)]
    else list[..n] + [PushChunk(list[n], b)]
  }

  /** Drained nodes go, and the first other node gives up a buffer. */
  function ListPopped(list: seq<Chunk>): seq<Chunk>
    requires ListOk(list)
  {
    if list == [] then []
    else if list[0].cur == list[0].size then ListPopped(list[1..])
    else [PopChunk(list[0]).1] + list[1..]
  }

  lemma ListPushedOk(list: seq<Chunk>, nodes: int, b: Buf)
    requires ListOk(list) && (list == [] ==> nodes == 0)
    ensures var r := ListPushed(list, nodes, b);
      r != [] && ListOk(r) && Flat(r) == (if nodes == 0 then [] else Flat(list)) + [b]
  {
    if nodes == 0 {
      FlatAppend([], PushChunk(EMPTY, b));
    } else if list[|list| - 1].size == CAP {
      FlatAppend(list, PushChunk(EMPTY, b));
    } else {
      TailPushed(list[..|list| - 1], list[|list| - 1], b);
      assert list == list[..|list| - 1] + [list[|list| - 1]];
    }
  }

  /** The last node takes one more buffer. */
  lemma TailPushed(front: seq<Chunk>, tail: Chunk, b: Buf)
    requires ListOk(front + [tail]) && ChunkOk(tail) && tail.size < CAP
    ensures ListOk(front + [PushChunk(tail, b)])
    ensures Flat(front + [PushChunk(tail, b)]) == Flat(front + [tail]) + [b]
  {
    var t := PushChunk(tail, b);
    SwapTail(front, tail, t);
    FlatAppend(front, tail);
    FlatAppend(front, t);
    assert Flat(front) + (Live(tail) + [b]) == Flat(front) + Live(tail) + [b];
  }

  lemma SwapTail(front: seq<Chunk>, c: Chunk, d: Chunk)
    requires ListOk(front + [c]) && ChunkOk(d) && d.size > 0
    ensures ListOk(front + [d])
  {
    var f, g := front + [c], front + [d];
    assert forall i :: 0 <= i < |front| ==> g[i] == f[i];
  }

  lemma {:induction false} ListPoppedOk(list: seq<Chunk>)
    requires ListOk(list) && Flat(list) != []
    ensures var r := ListPopped(list);
      r != [] && ListOk(r) && |r| <= |list| && Flat(list) == [Flat(list)[0]] + Flat(r)
  {
    if list[0].cur == list[0].size {
      assert Flat(list) == Flat(list[1..]);
      ListPoppedOk(list[1..]);
    } else {
      HeadPopped(list[0], list[1..]);
      assert list == [list[0]] + list[1..];
    }
  }

  /** The first node gives up one buffer. */
  lemma HeadPopped(c: Chunk, rest: seq<Chunk>)
    requires ListOk([c] + rest) && ListOk(rest) && ChunkOk(c) && c.cur < c.size
    ensures ListOk([PopChunk(c).1] + rest)
    ensures Flat([c] + rest) == [PopChunk(c).0] + Flat([PopChunk(c).1] + rest)
  {
    var d := PopChunk(c).1;
    SwapHead(c, d, rest);
    assert ([c] + rest)[1..] == rest && ([d] + rest)[1..] == rest;
    assert [PopChunk(c).0] + Live(d) + Flat(rest) == [PopChunk(c).0] + (Live(d) + Flat(rest));
  }

  lemma SwapHead(c: Chunk, d: Chunk, rest: seq<Chunk>)
    requires ListOk([c] + rest) && ChunkOk(d) && d.size == c.size
    ensures ListOk([d] + rest)
  {
    var f, g := [c] + rest, [d] + rest;
    assert f[0] == c;
    assert forall i :: 0 < i < |f| ==> g[i] == f[i];
  }

  /** The bytes of the nodes, node by node. */
  function ListSize(list: seq<Chunk>): nat
    requires ListOk(list)
  {
    if list == [] then 0 else TotalSize(Live(list[0])) + ListSize(list[1..])
  }

  lemma {:induction false} ListSizeIsTotal(list: seq<Chunk>)
    requires ListOk(list)
    ensures ListSize(list) == TotalSize(Flat(list))
  {
    if list != [] {
      ListSizeIsTotal(list[1..]);
      TotalAppend(Live(list[0]), Flat(list[1..]));
    }
  }

  /** The size loop over the nodes, in 32 bits. */
  method ListBytes(list: seq<Chunk>) returns (n: nat)
    requires ListOk(list)
    ensures n == Wrap(ListSize(list))
  {
    n := 0;
    ghost var seen: nat := 0;
    var at := list;
    while at != []
      invariant ListOk(at) && n == Wrap(seen) && seen + ListSize(at) == ListSize(list)
    {
      var k := ChunkBytes(at[0]);
      ghost var size := TotalSize(Live(at[0]));
      WrapSum(seen, size);
      n, seen := Wrap(n + k), seen + size;
      at := at[1..];
    }
  }

  // ----- The queue -----

  class Queue {
    var arr: Chunk
    var list: seq<Chunk>
    // The node counter. It is unsigned in the source, where only its comparison with zero matters.
    var nodes: int
    var size: int

    /** Holds of every queue, moved ones included. */
    ghost predicate Shape()
      reads this
    {
      && ChunkOk(arr) && ListOk(list)
      && (list != [] ==> arr.size == CAP && nodes <= |list|)
      && (list == [] ==> nodes == 0)
    }

    /** The buffers that pops will return, in order. */
    ghost function Held(): seq<Buf>
      requires Shape()
      reads this
    {
      Live(arr) + Flat(list)
    }

    /** Holds of queues that were built by pushes and pops. */
    ghost predicate Valid()
      reads this
    {
      Shape() && nodes == |list| && size == |Held()|
    }

    constructor ()
      ensures Valid() && Held() == [] && arr.cur == 0
    {
      arr, list, nodes, size := EMPTY, [], 0, 0;
    }

    /** The move constructor: the array forgets its read position, the list its node count. */
    constructor Moved(other: Queue)
      requires other.Shape()
      modifies other
      ensures list == old(other.list) && nodes == 0 && size == old(other.size)
      ensures arr == old(other.arr).(cur := 0)
      ensures Shape() && Held() == old(other.arr).slots[..old(other.arr).size] + Flat(list)
      ensures other.list == [] && other.nodes == old(other.nodes) && other.size == old(other.size)
      ensures other.arr == old(other.arr).(slots := EMPTY.slots)
    {
      arr, list, nodes, size := other.arr.(cur := 0), other.list, 0, other.size;
      new;
      other.list := [];
      other.arr := other.arr.(slots := EMPTY.slots);
    }

    /**
     Append; but a queue whose array is full and whose counter is zero while its list is not
     empty, which only a move produces, drops that list.
     */
    method Push(b: Buf)
      requires Shape()
      modifies this
      ensures Shape() && size == old(size) + 1 && arr.cur == old(arr.cur)
      ensures Held() == (if old(arr.size == CAP && nodes == 0) then old(Live(arr)) else old(Held())) + [b]
      ensures old(Valid()) ==> Valid() && Held() == old(Held()) + [b]
      ensures old(arr.size) < CAP ==> arr == PushChunk(old(arr), b) && list == old(list)
      ensures old(arr.size) == CAP ==> arr == old(arr) && list == ListPushed(old(list), old(nodes), b)
    {
      size := size + 1;
      if arr.size == CAP {
        ListPush(b);
        assert Held() == Live(arr) + (if old(nodes) == 0 then [] else old(Flat(list))) + [b];
      } else {
        arr := PushChunk(arr, b);
        assert Held() == old(Live(arr)) + [b];
      }
    }

    method ListPush(b: Buf)
      requires Shape() && arr.size == CAP
      modifies this`list, this`nodes
      ensures Shape() && Flat(list) == (if old(nodes) == 0 then [] else old(Flat(list))) + [b]
      ensures old(nodes) == old(|list|) ==> nodes == |list|
      ensures list == ListPushed(old(list), old(nodes), b)
    {
      ListPushedOk(list, nodes, b);
      var n := |list| - 1;
      if nodes == 0 || list[n].size == CAP {
        var node := PushChunk(EMPTY, b);
        if nodes == 0 {
          list := [node];
        } else {
          list := list + [node];
        }
        nodes := nodes + 1;
      } else {
        list := list[..n] + [PushChunk(list[n], b)];
      }
    }

    /** First in, first out; the source asks for a buffer to be there. */
    method Pop() returns (b: Buf)
      requires Shape() && Held() != []
      modifies this
      ensures Shape() && [b] + Held() == old(Held()) && size == old(size) - 1
      ensures old(Valid()) ==> Valid()
      ensures old(arr.cur < arr.size) ==> arr == PopChunk(old(arr)).1 && list == old(list)
      ensures old(arr.cur == arr.size) ==> arr == old(arr) && list == ListPopped(old(list))
    {
      size := size - 1;
      if arr.cur == arr.size {
        b := ListPop();
      } else {
        var r := PopChunk(arr);
        b, arr := r.0, r.1;
      }
    }

    method ListPop() returns (b: Buf)
      requires Shape() && Flat(list) != []
      modifies this`list, this`nodes
      ensures Shape() && [b] + Flat(list) == old(Flat(list)) && list == ListPopped(old(list))
      ensures old(nodes) == old(|list|) ==> nodes == |list|
    {
      ListPoppedOk(list);
      while list[0].cur == list[0].size
        invariant ListOk(list) && list != [] && nodes <= |list| && (old(nodes) == old(|list|) ==> nodes == |list|)
        invariant Flat(list) == old(Flat(list)) && ListPopped(list) == ListPopped(old(list))
        decreases |list|
      {
        assert Flat(list) == Flat(list[1..]);
        nodes := nodes - 1;
        list := list[1..];
      }
      var r := PopChunk(list[0]);
      b := r.0;
      list := [r.1] + list[1..];
    }

    /** On a queue with buffers, peek shows the next pop exactly while the node it reads is not drained. */
    method Peek() returns (r: Read)
      requires Shape() && Held() != []
      ensures r == Got(Held()[0]) <==> arr.cur < arr.size || list[0].cur < list[0].size
      ensures r == Outside <==> arr.cur == arr.size && list[0].cur == list[0].size
    {
      if arr.cur == arr.size {
        assert Flat(list) == Live(list[0]) + Flat(list[1..]);
        assert list[0].cur == list[0].size ==> list[1..] != [];
        r := if list[0].cur < CAP then Got(list[0].slots[list[0].cur]) else Outside;
      } else {
        r := Got(arr.slots[arr.cur]);
      }
    }

    /** `get_buffer_size`: the array's bytes and those of every node, added up in 32 bits. */
    method BufferSize() returns (n: nat)
      requires Shape()
      ensures n == Wrap(TotalSize(Held()))
    {
      var first := ChunkBytes(arr);
      var rest := ListBytes(list);
      ListSizeIsTotal(list);
      TotalAppend(Live(arr), Flat(list));
      WrapSum(TotalSize(Live(arr)), TotalSize(Flat(list)));
      n := Wrap(first + rest);
    }

    /** As `serialize` empties it: pop until the size says empty. */
    method Drain() returns (out: seq<Buf>)
      requires Valid()
      modifies this
      ensures Valid() && out == old(Held()) && Held() == []
    {
      out := [];
      while size > 0
        invariant Valid() && out + Held() == old(Held())
        decreases size
      {
        var b := Pop();
        Regroup(out, b, Held());
        out := out + [b];
      }
    }

    /** The `n` next pops of a queue that may have been moved. */
    method PopMany(n: nat) returns (out: seq<Buf>)
      requires Shape() && n <= |Held()|
      modifies this
      ensures Shape() && out == old(Held())[..n]
    {
      ghost var all := Held();
      out := [];
      for i := 0 to n
        invariant Shape() && |out| == i && out + Held() == all
      {
        assert |Held()| == |all| - i;
        var b := Pop();
        Regroup(out, b, Held());
        out := out + [b];
      }
      assert out == all[..n];
    }
  }

  lemma WrapSum(a: nat, b: nat)
    ensures Wrap(Wrap(a) + Wrap(b)) == Wrap(a + b)
  {
    WrapAdd(a, Wrap(b));
    WrapAdd(b, a);
  }

  lemma Regroup(a: seq<Buf>, b: Buf, c: seq<Buf>)
    ensures a + ([b] + c) == a + [b] + c
  {
  }

  // ----- Moving -----

  predicate AllEmpty(s: seq<Buf>) {
    forall i :: 0 <= i < |s| ==> s[i] == []
  }

  /**
   A moved queue announces the right size; its next `size` pops return the buffers of the original
   exactly when the array had not been read from, or when nothing but empty buffers is left.
   */
  lemma MoveKeepsPopsIff(arr: Chunk, list: seq<Chunk>)
    requires ChunkOk(arr) && ListOk(list)
    ensures var held, moved := Live(arr) + Flat(list), arr.slots[..arr.size] + Flat(list);
      |held| <= |moved| && (moved[..|held|] == held <==> arr.cur == 0 || AllEmpty(held))
  {
    var held, moved := Live(arr) + Flat(list), arr.slots[..arr.size] + Flat(list);
    assert moved == arr.slots[..arr.cur] + held;
    if moved[..|held|] == held && arr.cur > 0 {
      Shifted(held, arr.slots[..arr.cur], |held|);
    }
  }

  lemma {:induction false} Shifted(s: seq<Buf>, front: seq<Buf>, n: nat)
    requires n <= |s| && front != [] && AllEmpty(front) && (front + s)[..|s|] == s
    ensures AllEmpty(s[..n])
    ensures n == |s| ==> AllEmpty(s)
  {
    if n > 0 {
      Shifted(s, front, n - 1);
      assert s[n - 1] == (front + s)[..|s|][n - 1];
      if n - 1 >= |front| { assert s[n - 1] == s[..n - 1][n - 1 - |front|]; }
      assert forall i :: 0 <= i < n - 1 ==> s[i] == s[..n - 1][i];
    }
  }

  // ----- The failing states are reached -----

  /** The nodes' sizes after `n` buffers have spilled into a list that was never read: four each. */
  predicate Spilled(list: seq<Chunk>, n: nat) {
    && n <= 5 && |list| == (if n == 0 then 0 else if n <= CAP then 1 else 2)
    && (n > 0 ==> list[0].cur == 0 && list[0].size == if n <= CAP then n else CAP)
    && (n > CAP ==> list[1].cur == 0 && list[1].size == 1)
  }

  method NinePushed(b: Buf) returns (q: Queue)
    ensures fresh(q) && q.Valid() && |q.Held()| == 9
    ensures q.arr.cur == 0 && q.arr.size == CAP && Spilled(q.list, 5)
  {
    q := new Queue();
    for i := 0 to 9
      invariant fresh(q) && q.Valid() && |q.Held()| == i && q.arr.cur == 0
      invariant q.arr.size == (if i <= CAP then i else CAP) && Spilled(q.list, if i <= CAP then 0 else i - CAP)
    {
      q.Push(b);
    }
  }

  /** Nine pushes and eight pops: the array and the first node are drained, and peek reads outside. */
  method PeekFails(b: Buf) returns (r: Read)
    ensures r == Outside
  {
    var q := NinePushed(b);
    for i := 0 to 8
      invariant fresh(q) && q.Valid() && |q.Held()| == 9 - i && q.arr.size == CAP && |q.list| == 2
      invariant q.arr.cur == if i <= CAP then i else CAP
      invariant q.list[0].size == CAP && q.list[0].cur == (if i <= CAP then 0 else i - CAP)
    {
      var _ := q.Pop();
    }
    r := q.Peek();
  }

  /** Two pushes and a pop. */
  method ReadOnce(b: Buf) returns (q: Queue)
    ensures fresh(q) && q.Valid() && q.list == [] && q.arr.cur == 1 && q.arr.size == 2 && q.Held() == [b]
  {
    q := new Queue();
    q.Push(b);
    q.Push(b);
    assert q.Held() == [b, b];
    var _ := q.Pop();
  }

  /** After a move of such a queue the next pop returns an empty buffer instead of the one owed. */
  method MoveFails(b: Buf) returns (popped: Buf, owed: Buf)
    ensures popped == [] && owed == b
  {
    var q := ReadOnce(b);
    var next := q.Peek();
    owed := next.buf;
    ghost var arr := q.arr;
    var m := new Queue.Moved(q);
    assert m.Held()[0] == arr.slots[0];
    popped := m.Pop();
  }

  /** Five pushes, a move and a push: the queue announces six buffers and holds five. */
  method PushAfterMoveDrops(b: Buf) returns (m: Queue)
    ensures fresh(m) && m.Shape() && m.size == 6 && |m.Held()| == 5
  {
    var q := new Queue();
    for i := 0 to 5
      invariant fresh(q) && q.Valid() && |q.Held()| == i && q.arr.cur == 0
      invariant q.arr.size == (if i <= CAP then i else CAP)
    {
      q.Push(b);
    }
    m := new Queue.Moved(q);
    m.Push(b);
  }
}

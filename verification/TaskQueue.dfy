/**
 The scheduling queue of an actor group: urgent tasks first in, first out; the others first in,
 first out without a comparator, and otherwise from a heap that is rebuilt lazily.
 */
module TaskQueue {
  import opened Options

  type Less<!T> = (T, T) -> bool

  /** A strict weak order, as the heap operations ask for. */
  ghost predicate StrictWeak<T(!new)>(less: Less<T>) {
    && (forall a: T, b: T :: less(a, b) ==> !less(b, a))
    && (forall a: T, b: T, c: T {:trigger less(a, b), less(b, c)} :: !less(a, b) && !less(b, c) ==> !less(a, c))
  }

  // ----- Heaps -----

  predicate Child(p: nat, c: nat) {
    c == 2 * p + 1 || c == 2 * p + 2
  }

  /** No child of a position at or after `k` outranks its parent. */
  ghost predicate HeapFrom<T>(h: seq<T>, k: nat, less: Less<T>) {
    forall p: nat, c: nat {:trigger Child(p, c)} :: k <= p && Child(p, c) && c < |h| ==> !less(h[p], h[c])
  }

  /** A heap from `k` but for position `at`, whose children its own parent still dominates. */
  ghost predicate HeapBut<T>(h: seq<T>, k: nat, at: nat, less: Less<T>) {
    && (forall p: nat, c: nat {:trigger Child(p, c)} ::
          k <= p && p != at && Child(p, c) && c < |h| ==> !less(h[p], h[c]))
    && (forall p: nat, c: nat {:trigger Child(p, at), Child(at, c)} ::
          k <= p && Child(p, at) && Child(at, c) && c < |h| ==> !less(h[p], h[c]))
  }

  /** The child that no other child outranks; `at` itself when it has none. */
  function BestChild<T>(h: seq<T>, at: nat, less: Less<T>): (c: nat)
    requires at < |h|
    ensures c < |h| && (c == at || Child(at, c)) && (c == at <==> 2 * at + 1 >= |h|)
  {
    var l, r := 2 * at + 1, 2 * at + 2;
    if l >= |h| then at
    else if r < |h| && less(h[l], h[r]) then r
    else l
  }

  function Swap<T>(h: seq<T>, i: nat, j: nat): (r: seq<T>)
    requires i < |h| && j < |h|
    ensures |r| == |h| && multiset(r) == multiset(h)
  {
    h[i := h[j]][j := h[i]]
  }

  /** Let the element at `at` sink to its place. */
  function Sink<T>(h: seq<T>, at: nat, less: Less<T>): (r: seq<T>)
    requires at < |h|
    ensures |r| == |h| && multiset(r) == multiset(h)
    decreases |h| - at
  {
    var c := BestChild(h, at, less);
    if c != at && less(h[at], h[c]) then Sink(Swap(h, at, c), c, less) else h
  }

  lemma {:induction false} SinkHeap<T(!new)>(h: seq<T>, k: nat, at: nat, less: Less<T>)
    requires StrictWeak(less) && k <= at < |h| && HeapBut(h, k, at, less)
    ensures HeapFrom(Sink(h, at, less), k, less)
    decreases |h| - at
  {
    var c := BestChild(h, at, less);
    if c != at && less(h[at], h[c]) {
      SwapKeeps(h, k, at, c, less);
      SinkHeap(Swap(h, at, c), k, c, less);
    } else {
      forall p: nat, d: nat | k <= p && Child(p, d) && d < |h| ensures !less(h[p], h[d]) {
        if p == at { BestIsBest(h, at, d, less); }
      }
    }
  }

  lemma BestIsBest<T(!new)>(h: seq<T>, at: nat, d: nat, less: Less<T>)
    requires StrictWeak(less) && at < |h| && Child(at, d) && d < |h|
    ensures Child(at, BestChild(h, at, less)) && !less(h[BestChild(h, at, less)], h[d])
    ensures !less(h[at], h[BestChild(h, at, less)]) ==> !less(h[at], h[d])
  {
    var c, l, r := BestChild(h, at, less), 2 * at + 1, 2 * at + 2;
    assert !less(h[l], h[l]) && !less(h[c], h[c]);
    assert c == r ==> !less(h[r], h[l]);
    assert d == l || d == r;
  }

  lemma SwapKeeps<T(!new)>(h: seq<T>, k: nat, at: nat, c: nat, less: Less<T>)
    requires StrictWeak(less) && k <= at < |h| && HeapBut(h, k, at, less)
    requires c == BestChild(h, at, less) && c != at && less(h[at], h[c])
    ensures HeapBut(Swap(h, at, c), k, c, less)
  {
    var g := Swap(h, at, c);
    assert Child(at, c);
    forall p: nat, d: nat | k <= p && p != c && Child(p, d) && d < |h| ensures !less(g[p], g[d]) {
      if p == at {
        BestIsBest(h, at, d, less);
      } else if d == at {
        assert Child(p, at) && Child(at, c);
      }
    }
    forall p: nat, d: nat | k <= p && Child(p, c) && Child(c, d) && d < |h| ensures !less(g[p], g[d]) {
      assert p == at;
    }
  }

  // ----- The library's heap operations -----

  /** `make_heap`. */
  method MakeHeap<T(!new)>(q: seq<T>, less: Less<T>) returns (h: seq<T>)
    requires StrictWeak(less)
    ensures |h| == |q| && multiset(h) == multiset(q) && HeapFrom(h, 0, less)
  {
    h := q;
    var k := |q| / 2;
    while k > 0
      invariant |h| == |q| && multiset(h) == multiset(q) && 0 <= k <= |q| / 2 && HeapFrom(h, k, less)
    {
      k := k - 1;
      SinkHeap(h, k, k, less);
      h := Sink(h, k, less);
    }
  }

  /** `pop_heap`, then taking the element it moved to the back. */
  method PopHeap<T(!new)>(h: seq<T>, less: Less<T>) returns (top: T, rest: seq<T>)
    requires StrictWeak(less) && h != [] && HeapFrom(h, 0, less)
    ensures top == h[0] && multiset(rest) + multiset{top} == multiset(h) && HeapFrom(rest, 0, less)
  {
    var n := |h| - 1;
    top := h[0];
    if n == 0 {
      rest := [];
    } else {
      LastToRoot(h, less);
      var g := h[..n][0 := h[n]];
      SinkHeap(g, 0, 0, less);
      rest := Sink(g, 0, less);
    }
  }

  /** The last element takes the place of the root. */
  lemma LastToRoot<T(!new)>(h: seq<T>, less: Less<T>)
    requires |h| > 1 && HeapFrom(h, 0, less)
    ensures var g := h[..|h| - 1][0 := h[|h| - 1]];
      HeapBut(g, 0, 0, less) && multiset(g) + multiset{h[0]} == multiset(h)
  {
    var n := |h| - 1;
    var f := h[..n];
    assert h == f + [h[n]];
    assert multiset(f[0 := h[n]]) == multiset(f)[h[0] := multiset(f)[h[0]] - 1] + multiset{h[n]};
  }

  /** Nothing in a heap outranks its root. */
  lemma {:induction false} RootIsMaximal<T(!new)>(h: seq<T>, i: nat, less: Less<T>)
    requires StrictWeak(less) && HeapFrom(h, 0, less) && i < |h|
    ensures !less(h[0], h[i])
  {
    if i > 0 {
      var p := (i - 1) / 2;
      assert Child(p, i);
      RootIsMaximal(h, p, less);
    } else {
      assert !less(h[0], h[0]);
    }
  }

  // ----- The queue -----

  class Queue<T(!new)> {
    var urgent: seq<T>
    var q: seq<T>
    var dirty: bool
    const less: Option<Less<T>>

    /** While the rebuild flag is clear, a queue with a comparator is a heap. */
    ghost predicate Valid()
      reads this
    {
      less.Some? ==> StrictWeak(less.value) && (!dirty ==> HeapFrom(q, 0, less.value))
    }

    constructor (comparator: Option<Less<T>>)
      requires comparator.Some? ==> StrictWeak(comparator.value)
      ensures Valid() && urgent == [] && q == [] && less == comparator
    {
      urgent, q, dirty, less := [], [], false, comparator;
    }

    method PushUrgent(t: T)
      requires Valid()
      modifies this
      ensures Valid() && urgent == old(urgent) + [t] && q == old(q)
    {
      urgent := urgent + [t];
    }

    method Push(t: T)
      requires Valid()
      modifies this
      ensures Valid() && urgent == old(urgent) && q == old(q) + [t] && dirty
    {
      q := q + [t];
      dirty := true;
    }

    /** Urgent tasks in order; then the oldest, or with a comparator one that no queued task outranks. */
    method Pop() returns (t: T)
      requires Valid() && (urgent != [] || q != [])
      modifies this
      ensures Valid()
      ensures old(urgent) != [] ==> [t] + urgent == old(urgent) && q == old(q)
      ensures old(urgent) == [] ==> urgent == [] && multiset(q) + multiset{t} == multiset(old(q))
      ensures old(urgent) == [] && less.None? ==> [t] + q == old(q)
      ensures old(urgent) == [] && less.Some? ==> Maximal(t, old(q), less.value)
    {
      if urgent != [] {
        t := urgent[0];
        urgent := urgent[1..];
      } else if less.None? {
        t := q[0];
        q := q[1..];
        assert [t] + q == old(q);
      } else {
        if dirty {
          q := MakeHeap(q, less.value);
          dirty := false;
        }
        ghost var heap := q;
        assert multiset(heap) == multiset(old(q));
        t, q := PopHeap(q, less.value);
        HeapTopMaximal(heap, old(q), less.value);
      }
    }

    method IsEmpty() returns (b: bool)
      ensures b <==> urgent == [] && q == []
    {
      b := |urgent| == 0 && |q| == 0;
    }
  }

  /** `t` is queued and nothing queued outranks it. */
  predicate Maximal<T(!new, ==)>(t: T, q: seq<T>, less: Less<T>) {
    t in q && forall i :: 0 <= i < |q| ==> !less(t, q[i])
  }

  lemma HeapTopMaximal<T(!new)>(h: seq<T>, q: seq<T>, less: Less<T>)
    requires StrictWeak(less) && HeapFrom(h, 0, less) && h != [] && multiset(h) == multiset(q)
    ensures Maximal(h[0], q, less)
  {
    assert h[0] in multiset(h) && h[0] in multiset(q);
    forall i | 0 <= i < |q| ensures !less(h[0], q[i]) {
      assert q[i] in multiset(q) && q[i] in multiset(h);
      var j :| 0 <= j < |h| && h[j] == q[i];
      RootIsMaximal(h, j, less);
    }
  }
}

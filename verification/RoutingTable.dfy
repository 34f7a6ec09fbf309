/**
 The network routing table: one array that holds the shard-to-machine map followed by one cell
 (size, cursor, proxy shards) per machine.
 */
module RoutingTable {
  import opened NetworkPlan

  // ----- Which shards are proxies of a machine -----

  predicate Distinct(ids: seq<nat>) {
    forall i, j :: 0 <= i < j < |ids| ==> ids[i] != ids[j]
  }

  /** `connection_table`: the connections of one shard and the machines they go to. */
  class ConnectionTable {
    var managed: seq<nat>
    var conns: seq<nat>

    ghost predicate Valid()
      reads this
    {
      Distinct(managed) && forall m :: m in managed <==> m in conns
    }

    constructor ()
      ensures Valid() && conns == []
    {
      managed, conns := [], [];
    }

    method Add(mid: nat)
      requires Valid()
      modifies this
      ensures Valid() && conns == old(conns) + [mid]
      ensures managed == old(managed) + if mid in old(conns) then [] else [mid]
    {
      if mid !in conns {
        managed := managed + [mid];
      }
      conns := conns + [mid];
    }
  }

  /** Local shards, in order, that manage a connection to machine `m`. */
  function Proxies(sharded: seq<seq<nat>>, m: nat): (r: seq<nat>)
    ensures |r| <= |sharded|
  {
    if sharded == [] then []
    else
      var n := |sharded| - 1;
      Proxies(sharded[..n], m) + (if m in sharded[n] then [n] else [])
  }

  /** A shard is a proxy of a machine exactly when it manages a connection to it; none is listed twice. */
  lemma {:induction false} ProxiesManage(sharded: seq<seq<nat>>, m: nat)
    ensures forall s: nat :: s in Proxies(sharded, m) <==> s < |sharded| && m in sharded[s]
    ensures Distinct(Proxies(sharded, m))
  {
    if sharded != [] {
      var n := |sharded| - 1;
      ProxiesManage(sharded[..n], m);
      assert sharded == sharded[..n] + [sharded[n]];
      var some := Proxies(sharded[..n], m);
      assert forall i :: 0 <= i < |some| ==> some[i] in some;
    }
  }

  lemma {:induction false} CountedSomewhere(servers: seq<seq<nat>>, m: nat) returns (s: nat)
    requires CountTo(servers, m) > 0
    ensures s < |servers| && m in servers[s]
  {
    var n := |servers| - 1;
    if m in servers[n] {
      s := n;
    } else {
      s := CountedSomewhere(servers[..n], m);
    }
  }

  /** Once a machine's planned client connections are up, every lower machine has a proxy. */
  lemma LowerMachinesHaveProxies(nodes: seq<Node>, p2p: nat, plans: seq<Plan>, i: nat, j: nat, sharded: seq<seq<nat>>)
    requires PlansFor(nodes, p2p, plans) && p2p > 0 && i < j < |nodes|
    requires |sharded| == |plans[j].servers|
    requires forall s :: 0 <= s < |sharded| ==> forall m :: m in plans[j].servers[s] ==> m in sharded[s]
    ensures Proxies(sharded, i) != []
  {
    OpensToEachLower(nodes, p2p, plans, i, j);
    var s := CountedSomewhere(plans[j].servers, i);
    ProxiesManage(sharded, i);
    assert s in Proxies(sharded, i);
  }

  // ----- Layout -----

  /** Where the cell of machine `m` begins. */
  function CellAt(head: nat, cell: nat, m: nat): nat {
    if m == 0 then head else CellAt(head, cell, m - 1) + cell
  }

  lemma {:induction false} CellAtIsLinear(head: nat, cell: nat, m: nat)
    ensures CellAt(head, cell, m) == head + cell * m
    decreases m
  {
    if m > 0 {
      CellAtIsLinear(head, cell, m - 1);
      assert cell * m == cell * (m - 1) + cell;
    }
  }

  lemma {:induction false} CellsApart(head: nat, cell: nat, a: nat, b: nat)
    requires a < b
    ensures CellAt(head, cell, a) + cell <= CellAt(head, cell, b) && head <= CellAt(head, cell, a)
    decreases b
  {
    if a + 1 < b {
      CellsApart(head, cell, a, b - 1);
    } else if a > 0 {
      CellsApart(head, cell, a - 1, a);
    }
  }

  /** In memory `t`, the cell that begins at `at` lists `list` and its cursor points into it. */
  predicate CellIs(t: seq<nat>, at: nat, cell: nat, list: seq<nat>) {
    && cell >= 2 && at + cell <= |t| && |list| + 2 <= cell
    && t[at] == |list|
    && t[at + 1] >= 2 && (t[at + 1] == 2 || t[at + 1] < 2 + |list|)
    && t[at + 2..at + 2 + |list|] == list
  }

  /** The two memories agree outside the cell that begins at `at`. */
  predicate SameBut(t: seq<nat>, u: seq<nat>, at: nat, cell: nat) {
    |t| == |u| && forall k :: 0 <= k < |t| && !(at <= k < at + cell) ==> u[k] == t[k]
  }

  lemma CellKept(t: seq<nat>, u: seq<nat>, head: nat, cell: nat, m: nat, o: nat, list: seq<nat>)
    requires m != o && SameBut(t, u, CellAt(head, cell, o), cell)
    requires CellIs(t, CellAt(head, cell, m), cell, list)
    ensures CellIs(u, CellAt(head, cell, m), cell, list)
  {
    if m < o { CellsApart(head, cell, m, o); } else { CellsApart(head, cell, o, m); }
    var at := CellAt(head, cell, m);
    assert u[at + 2..at + 2 + |list|] == t[at + 2..at + 2 + |list|];
  }

  ghost predicate MapIs(t: seq<nat>, nodes: seq<Node>, upTo: nat) {
    upTo <= |t| && upTo <= Anchor(nodes, |nodes|) && forall g :: 0 <= g < upTo ==> t[g] == Owner(nodes, g)
  }

  /** What the cell of machine `m` lists once the shards `done` and the machines `some` of the next are in. */
  function Entered(done: seq<seq<nat>>, some: seq<nat>, m: nat): seq<nat> {
    Proxies(done, m) + if m in some then [|done|] else []
  }

  ghost predicate CellsAre(t: seq<nat>, head: nat, cell: nat, n: nat, done: seq<seq<nat>>, some: seq<nat>) {
    forall m {:trigger Entered(done, some, m)} :: 0 <= m < n ==>
      CellIs(t, CellAt(head, cell, m), cell, Entered(done, some, m))
  }

  lemma EnteredNext(done: seq<seq<nat>>, ids: seq<nat>, m: nat)
    ensures Entered(done, ids, m) == Entered(done + [ids], [], m)
  {
    assert (done + [ids])[..|done|] == done;
  }

  lemma EnteredMore(done: seq<seq<nat>>, some: seq<nat>, mid: nat, m: nat)
    requires mid !in some
    ensures Entered(done, some + [mid], m) == Entered(done, some, m) + if m == mid then [|done|] else []
  {
    assert m in some + [mid] <==> m in some || m == mid;
  }

  /** The map names the owner of `g`, and the owner's cell lists its proxies. */
  lemma CellOf(t: seq<nat>, head: nat, cell: nat, nodes: seq<Node>, sharded: seq<seq<nat>>, g: nat)
    requires MapIs(t, nodes, head) && CellsAre(t, head, cell, |nodes|, sharded, []) && g < head
    ensures t[g] == Owner(nodes, g)
    ensures CellIs(t, CellAt(head, cell, Owner(nodes, g)), cell, Proxies(sharded, Owner(nodes, g)))
  {
    assert Entered(sharded, [], t[g]) == Proxies(sharded, t[g]);
  }

  lemma CellEntry(t: seq<nat>, at: nat, cell: nat, list: seq<nat>, q: nat)
    requires CellIs(t, at, cell, list) && q < |list|
    ensures t[at + 2 + q] == list[q] && list[q] in list
  {
    assert t[at + 2..at + 2 + |list|][q] == t[at + 2 + q];
  }

  datatype Destination = Destination(machine: nat, proxy: nat)

  class Table {
    var t: array<nat>
    var head: nat
    var cell: nat

    constructor ()
      ensures fresh(t)
    {
      t, head, cell := new nat[0], 0, 0;
    }

    /** The table routes for `nodes` through the proxies that `sharded` provides. */
    ghost predicate Routes(nodes: seq<Node>, sharded: seq<seq<nat>>)
      reads this, t
    {
      && head == Anchor(nodes, |nodes|) && cell == 2 + |sharded|
      && MapIs(t[..], nodes, head)
      && CellsAre(t[..], head, cell, |nodes|, sharded, [])
    }

    /** `insert`: append one proxy to a cell. */
    method Insert(mid: nat, sid: nat, ghost list: seq<nat>)
      requires CellIs(t[..], CellAt(head, cell, mid), cell, list) && |list| + 2 < cell
      modifies t
      ensures CellIs(t[..], CellAt(head, cell, mid), cell, list + [sid])
      ensures SameBut(old(t[..]), t[..], CellAt(head, cell, mid), cell)
    {
      var at := CellAt(head, cell, mid);
      t[at + t[at] + 2] := sid;
      assert t[..][at + 2..at + 2 + |list|] == list;
      t[at] := t[at] + 1;
      assert t[..][at + 2..at + 3 + |list|] == list + [sid];
    }

    /** `get_destination` with a fixed proxy per shard. */
    method FixedDestination(g: nat, ghost nodes: seq<Node>, ghost sharded: seq<seq<nat>>) returns (d: Destination)
      requires Routes(nodes, sharded) && g < head && Proxies(sharded, Owner(nodes, g)) != []
      ensures d.machine == Owner(nodes, g)
      ensures d.proxy < |sharded| && d.machine in sharded[d.proxy]
      ensures d.proxy == Proxies(sharded, d.machine)[g % |Proxies(sharded, d.machine)|]
    {
      var machine := t[g];
      ghost var list := Proxies(sharded, machine);
      CellOf(t[..], head, cell, nodes, sharded, g);
      var at := CellAt(head, cell, machine);
      RemainderIsMod(g, |list|);
      CellEntry(t[..], at, cell, list, Remainder(g, |list|));
      d := Destination(machine, t[at + (Remainder(g, t[at]) + 2)]);
      ProxiesManage(sharded, machine);
    }


    /** `get_destination` with a cursor that moves on. */
    method RoundRobinDestination(g: nat, ghost nodes: seq<Node>, ghost sharded: seq<seq<nat>>)
      returns (d: Destination)
      requires Routes(nodes, sharded) && g < head && Proxies(sharded, Owner(nodes, g)) != []
      modifies t
      ensures Routes(nodes, sharded) && d.machine == Owner(nodes, g)
      ensures d.proxy < |sharded| && d.machine in sharded[d.proxy]
      ensures var list := Proxies(sharded, d.machine);
        && 0 <= old(Cursor(d.machine)) < |list| && d.proxy == list[old(Cursor(d.machine))]
        && Cursor(d.machine) == Advance(old(Cursor(d.machine)), |list|)
      ensures forall m: nat :: m < |nodes| && m != d.machine ==> Cursor(m) == old(Cursor(m))
    {
      ghost var was := t[..];
      SendReads(was, head, cell, nodes, sharded, g);
      SendLeaves(was, head, cell, nodes, sharded, g);
      var machine := t[g];
      var at := CellAt(head, cell, machine);
      d := Destination(machine, t[at + t[at + 1]]);
      ProxiesManage(sharded, machine);
      t[at + 1] := Remainder(t[at + 1] + 1, t[at]) + 2;
      assert t[..] == Moved(was, at);
    }

    /** The position in machine `m`'s proxy list that the next round-robin send uses. */
    ghost function Cursor(m: nat): int
      reads this, t
    {
      CursorAt(t[..], CellAt(head, cell, m))
    }

    /** `build`. */
    method Build(nodes: seq<Node>, sharded: seq<seq<nat>>)
      requires forall i :: 0 <= i < |sharded| ==> Managed(sharded[i], |nodes|)
      modifies this
      ensures fresh(t) && Routes(nodes, sharded)
    {
      cell := 2 + |sharded|;
      head := Anchor(nodes, |nodes|);
      t := new nat[CellAt(head, cell, |nodes|)](_ => 0);
      CellAtIsLinear(head, cell, |nodes|);
      Populate(nodes);
      InitCells(nodes);
      for i := 0 to |sharded|
        invariant fresh(t) && cell == 2 + |sharded| && head == Anchor(nodes, |nodes|)
        invariant MapIs(t[..], nodes, head)
        invariant CellsAre(t[..], head, cell, |nodes|, sharded[..i], [])
      {
        InsertAll(nodes, sharded[i], i, sharded[..i]);
        assert sharded[..i + 1] == sharded[..i] + [sharded[i]];
        ShardEntered(t[..], head, cell, |nodes|, sharded[..i], sharded[i]);
      }
      assert sharded[..|sharded|] == sharded;
    }

    method Populate(nodes: seq<Node>)
      requires head == Anchor(nodes, |nodes|) <= t.Length
      modifies t
      ensures MapIs(t[..], nodes, head)
    {
      var pos := 0;
      for j := 0 to |nodes|
        invariant pos == Anchor(nodes, j) <= head && MapIs(t[..], nodes, pos)
      {
        AnchorsGrow(nodes, j + 1, |nodes|);
        for k := 0 to nodes[j].cores
          invariant pos == Anchor(nodes, j) + k && MapIs(t[..], nodes, pos)
        {
          RangesPartition(nodes, pos, j);
          t[pos] := j;
          pos := pos + 1;
        }
      }
    }

    method InitCells(nodes: seq<Node>)
      requires head == Anchor(nodes, |nodes|) && cell >= 2 && t.Length == CellAt(head, cell, |nodes|)
      requires MapIs(t[..], nodes, head)
      modifies t
      ensures MapIs(t[..], nodes, head) && CellsAre(t[..], head, cell, |nodes|, [], [])
    {
      for i := 0 to |nodes|
        invariant MapIs(t[..], nodes, head) && CellsAre(t[..], head, cell, i, [], [])
      {
        ghost var was := t[..];
        CellsApart(head, cell, i, |nodes|);
        var at := CellAt(head, cell, i);
        t[at] := 0;
        t[at + 1] := 2;
        CellInited(was, t[..], head, cell, nodes, i);
      }
    }

    /** The inner loop of the last part of `build`: every machine that shard `i` manages. */
    method InsertAll(nodes: seq<Node>, ids: seq<nat>, i: nat, ghost done: seq<seq<nat>>)
      requires head == Anchor(nodes, |nodes|) && |done| == i && i + 2 < cell && Managed(ids, |nodes|)
      requires MapIs(t[..], nodes, head) && CellsAre(t[..], head, cell, |nodes|, done, [])
      modifies t
      ensures MapIs(t[..], nodes, head) && CellsAre(t[..], head, cell, |nodes|, done, ids)
    {
      for j := 0 to |ids|
        invariant MapIs(t[..], nodes, head) && CellsAre(t[..], head, cell, |nodes|, done, ids[..j])
      {
        ghost var was := t[..];
        ghost var list := Entered(done, ids[..j], ids[j]);
        Insert(ids[j], i, list);
        assert ids[..j + 1] == ids[..j] + [ids[j]];
        MachineEntered(was, t[..], head, cell, nodes, done, ids[..j], ids[j]);
      }
      assert ids[..|ids|] == ids;
    }
  }

  function CursorAt(t: seq<nat>, at: nat): int {
    var c: int := if at + 1 < |t| then t[at + 1] else 2;
    c - 2
  }

  /** `x % n`, by repeated subtraction. */
  function Remainder(x: nat, n: nat): (r: nat)
    requires n > 0
    ensures r < n
    decreases x
  {
    if x < n then x else Remainder(x - n, n)
  }

  lemma {:induction false} RemainderIsMod(x: nat, n: nat)
    requires n > 0
    ensures Remainder(x, n) == x % n
    decreases x
  {
    if x < n {
      Unique(x, n, 0, x);
    } else {
      RemainderIsMod(x - n, n);
      var q, r := (x - n) / n, (x - n) % n;
      assert n * (q + 1) == n * q + n;
      Unique(x, n, q + 1, r);
    }
  }

  /** Three places on, in a list of `n`. */
  function Advance(q: nat, n: nat): nat
    requires n > 0
  {
    Remainder(q + 3, n)
  }

  /** What `managed_mach_ids` returns: no machine twice, all of them in the cluster. */
  predicate Managed(ids: seq<nat>, machines: nat) {
    Distinct(ids) && forall j :: 0 <= j < |ids| ==> ids[j] < machines
  }

  lemma MapKept(t: seq<nat>, u: seq<nat>, nodes: seq<Node>, head: nat, cell: nat, m: nat)
    requires MapIs(t, nodes, head) && SameBut(t, u, CellAt(head, cell, m), cell)
    ensures MapIs(u, nodes, head)
  {
    CellsApart(head, cell, m, m + 1);
  }

  /** The table still routes, and cursors other than that of `o` are where they were. */
  ghost predicate Untouched(t: seq<nat>, u: seq<nat>, head: nat, cell: nat, nodes: seq<Node>,
                            sharded: seq<seq<nat>>, o: nat)
  {
    && MapIs(u, nodes, head) && CellsAre(u, head, cell, |nodes|, sharded, [])
    && (forall m: nat :: m < |nodes| && m != o ==>
          CursorAt(u, CellAt(head, cell, m)) == CursorAt(t, CellAt(head, cell, m)))
  }

  /** After a write inside the cell of `o`, the other cells and cursors are as before. */
  lemma TouchedOne(t: seq<nat>, u: seq<nat>, head: nat, cell: nat, nodes: seq<Node>, sharded: seq<seq<nat>>, o: nat)
    requires MapIs(t, nodes, head) && CellsAre(t, head, cell, |nodes|, sharded, [])
    requires SameBut(t, u, CellAt(head, cell, o), cell)
    requires CellIs(u, CellAt(head, cell, o), cell, Proxies(sharded, o))
    ensures Untouched(t, u, head, cell, nodes, sharded, o)
  {
    MapKept(t, u, nodes, head, cell, o);
    forall m: nat | m < |nodes|
      ensures CellIs(u, CellAt(head, cell, m), cell, Entered(sharded, [], m))
      ensures m != o ==> CursorAt(u, CellAt(head, cell, m)) == CursorAt(t, CellAt(head, cell, m))
    {
      if m != o {
        CellKept(t, u, head, cell, m, o, Entered(sharded, [], m));
        if m < o { CellsApart(head, cell, m, o); } else { CellsApart(head, cell, o, m); }
      } else {
        assert Entered(sharded, [], m) == Proxies(sharded, m);
      }
    }
  }

  lemma CellInited(t: seq<nat>, u: seq<nat>, head: nat, cell: nat, nodes: seq<Node>, i: nat)
    requires MapIs(t, nodes, head) && CellsAre(t, head, cell, i, [], [])
    requires SameBut(t, u, CellAt(head, cell, i), cell) && cell >= 2 && CellAt(head, cell, i) + cell <= |u|
    requires u[CellAt(head, cell, i)] == 0 && u[CellAt(head, cell, i) + 1] == 2
    ensures MapIs(u, nodes, head) && CellsAre(u, head, cell, i + 1, [], [])
  {
    MapKept(t, u, nodes, head, cell, i);
    forall m: nat | m < i + 1
      ensures CellIs(u, CellAt(head, cell, m), cell, Entered([], [], m))
    {
      if m < i { CellKept(t, u, head, cell, m, i, Entered([], [], m)); }
    }
  }

  /** Moving the cursor leaves the cell's list alone. */
  lemma CursorMoved(t: seq<nat>, at: nat, cell: nat, list: seq<nat>, c: nat)
    requires CellIs(t, at, cell, list) && 2 <= c < 2 + |list|
    ensures CellIs(t[at + 1 := c], at, cell, list) && SameBut(t, t[at + 1 := c], at, cell)
  {
    assert t[at + 1 := c][at + 2..at + 2 + |list|] == t[at + 2..at + 2 + |list|];
  }

  /** The memory after the cursor of the cell at `at` has moved on. */
  function Moved(t: seq<nat>, at: nat): seq<nat>
    requires at + 1 < |t| && t[at] > 0
  {
    t[at + 1 := Remainder(t[at + 1] + 1, t[at]) + 2]
  }

  /** The cursor points at a listed proxy and moves three places on. */
  predicate CellReads(t: seq<nat>, at: nat, cell: nat, list: seq<nat>) {
    && at + cell <= |t| && 2 < cell && t[at] == |list| > 0 && 2 <= t[at + 1] < cell
    && 0 <= CursorAt(t, at) < |list|
    && t[at + t[at + 1]] == list[CursorAt(t, at)] && list[CursorAt(t, at)] in list
    && CursorAt(Moved(t, at), at) == Advance(CursorAt(t, at), |list|)
  }

  /** What a round-robin send reads in the cell it uses, and where its cursor goes. */
  lemma CursorRead(t: seq<nat>, at: nat, cell: nat, list: seq<nat>)
    requires CellIs(t, at, cell, list) && list != []
    ensures CellReads(t, at, cell, list)
    ensures CellIs(Moved(t, at), at, cell, list) && SameBut(t, Moved(t, at), at, cell)
  {
    CellEntry(t, at, cell, list, t[at + 1] - 2);
    CursorMoved(t, at, cell, list, Remainder(t[at + 1] + 1, t[at]) + 2);
  }

  lemma SendReads(t: seq<nat>, head: nat, cell: nat, nodes: seq<Node>, sharded: seq<seq<nat>>, g: nat)
    requires MapIs(t, nodes, head) && CellsAre(t, head, cell, |nodes|, sharded, []) && g < head
    requires Proxies(sharded, Owner(nodes, g)) != []
    ensures var m := Owner(nodes, g);
      t[g] == m && CellReads(t, CellAt(head, cell, m), cell, Proxies(sharded, m))
  {
    var m := Owner(nodes, g);
    CellOf(t, head, cell, nodes, sharded, g);
    CursorRead(t, CellAt(head, cell, m), cell, Proxies(sharded, m));
  }

  lemma SendLeaves(t: seq<nat>, head: nat, cell: nat, nodes: seq<Node>, sharded: seq<seq<nat>>, g: nat)
    requires MapIs(t, nodes, head) && CellsAre(t, head, cell, |nodes|, sharded, []) && g < head
    requires Proxies(sharded, Owner(nodes, g)) != []
    ensures var at := CellAt(head, cell, Owner(nodes, g));
      at + 1 < |t| && t[at] > 0 && Untouched(t, Moved(t, at), head, cell, nodes, sharded, Owner(nodes, g))
  {
    CellOf(t, head, cell, nodes, sharded, g);
    var at := CellAt(head, cell, t[g]);
    CursorRead(t, at, cell, Proxies(sharded, t[g]));
    TouchedOne(t, Moved(t, at), head, cell, nodes, sharded, t[g]);
  }

  lemma MachineEntered(t: seq<nat>, u: seq<nat>, head: nat, cell: nat, nodes: seq<Node>, done: seq<seq<nat>>,
                       some: seq<nat>, mid: nat)
    requires MapIs(t, nodes, head) && CellsAre(t, head, cell, |nodes|, done, some) && mid !in some
    requires SameBut(t, u, CellAt(head, cell, mid), cell)
    requires CellIs(u, CellAt(head, cell, mid), cell, Entered(done, some, mid) + [|done|])
    ensures MapIs(u, nodes, head) && CellsAre(u, head, cell, |nodes|, done, some + [mid])
  {
    MapKept(t, u, nodes, head, cell, mid);
    forall m: nat | m < |nodes|
      ensures CellIs(u, CellAt(head, cell, m), cell, Entered(done, some + [mid], m))
    {
      EnteredMore(done, some, mid, m);
      if m != mid {
        CellKept(t, u, head, cell, m, mid, Entered(done, some, m));
        assert Entered(done, some, m) + [] == Entered(done, some, m);
      }
    }
  }

  lemma ShardEntered(t: seq<nat>, head: nat, cell: nat, n: nat, done: seq<seq<nat>>, ids: seq<nat>)
    requires CellsAre(t, head, cell, n, done, ids)
    ensures CellsAre(t, head, cell, n, done + [ids], [])
  {
    forall m: nat | m < n
      ensures CellIs(t, CellAt(head, cell, m), cell, Entered(done + [ids], [], m))
    {
      EnteredNext(done, ids, m);
    }
  }

  // ----- Round-robin coverage -----

  /** The cursor after `k` further sends to the same machine. */
  function After(q: nat, n: nat, k: nat): (r: nat)
    requires q < n
    ensures r < n
  {
    if k == 0 then q else Advance(After(q, n, k - 1), n)
  }

  /** Among the next `n` sends from cursor `q`, number `k` is the only one through proxy `p`. */
  predicate UsedOnlyAt(q: nat, n: nat, p: nat, k: nat)
    requires q < n
  {
    k < n && After(q, n, k) == p && forall l: nat :: l < n && After(q, n, l) == p ==> l == k
  }

  predicate UsedOnce(q: nat, n: nat, p: nat)
    requires q < n
  {
    exists k: nat :: k < n && UsedOnlyAt(q, n, p, k)
  }

  /**
   Round-robin coverage: `n` consecutive sends use each of the `n` proxies exactly once if and
   only if 3 does not divide `n`.
   */
  lemma RoundRobinCoversIff(q: nat, n: nat)
    requires q < n
    ensures (forall p: nat :: p < n ==> UsedOnce(q, n, p)) <==> n % 3 != 0
  {
    if n % 3 != 0 {
      forall p: nat | p < n ensures UsedOnce(q, n, p) {
        var k := Hit(q, n, p);
        forall l: nat | l < n && After(q, n, l) == p ensures l == k {
          Injective(q, n, k, l);
        }
        assert UsedOnlyAt(q, n, p, k);
      }
    } else {
      AfterNear(q, n, n / 3);
      assert After(q, n, 0) == q && After(q, n, n / 3) == q;
      assert forall k: nat :: k < n ==> !UsedOnlyAt(q, n, q, k);
      assert !UsedOnce(q, n, q);
    }
  }

  /** The send that uses proxy `p`. */
  lemma Hit(q: nat, n: nat, p: nat) returns (k: nat)
    requires q < n && p < n && n % 3 != 0
    ensures k < n && After(q, n, k) == p
  {
    k := Third(if p >= q then p - q else p - q + n, n);
    AfterNear(q, n, k);
  }

  /** One of `d`, `d + n` and `d + 2 n` is three times something. */
  lemma Third(d: nat, n: nat) returns (k: nat)
    requires n % 3 != 0
    ensures 3 * k == d || 3 * k == d + n || 3 * k == d + 2 * n
  {
    k := if d % 3 == 0 then d / 3 else if (d + n) % 3 == 0 then (d + n) / 3 else (d + 2 * n) / 3;
  }

  lemma Injective(q: nat, n: nat, k: nat, l: nat)
    requires q < n && k < n && l < n && n % 3 != 0 && After(q, n, k) == After(q, n, l)
    ensures k == l
  {
    NotThrice(k - l, n);
    NotThrice(l - k, n);
    AfterNear(q, n, k);
    AfterNear(q, n, l);
    var w := 3 * (k - l);
    assert w == 0 || w == n || w == 2 * n || w == 3 * n || w == -1 * n || w == -2 * n || w == -3 * n;
  }

  lemma NotThrice(x: int, n: nat)
    requires n % 3 != 0
    ensures 3 * x != n && 3 * x != 2 * n
  {
    assert 3 * x == 2 * n ==> n == 3 * (n - x);
  }

  /** Within `n` sends the cursor has wrapped at most three times. */
  lemma AfterNear(q: nat, n: nat, k: nat)
    requires q < n && k <= n
    ensures var r := After(q, n, k);
      r == q + 3 * k || r == q + 3 * k - n || r == q + 3 * k - 2 * n || r == q + 3 * k - 3 * n
  {
    var c := AfterClosed(q, n, k);
    if c >= 4 { TimesAdd(n, c - 4, 4); }
    assert Times(n, 4) == 4 * n && Times(n, 3) == 3 * n && Times(n, 2) == 2 * n && Times(n, 1) == n;
  }

  /** In closed form: `q + 3 k`, less some multiple of `n`. */
  lemma {:induction false} AfterClosed(q: nat, n: nat, k: nat) returns (c: nat)
    requires q < n
    ensures After(q, n, k) + Times(n, c) == q + 3 * k
  {
    if k == 0 {
      c := 0;
    } else {
      c := AfterClosed(q, n, k - 1);
      var x := After(q, n, k - 1) + 3;
      var d := Reduce(x, n);
      TimesAdd(n, c, d);
      c := c + d;
    }
  }

  function Times(n: nat, c: nat): nat {
    if c == 0 then 0 else Times(n, c - 1) + n
  }

  lemma {:induction false} TimesAdd(n: nat, a: nat, b: nat)
    ensures Times(n, a + b) == Times(n, a) + Times(n, b)
  {
    if b > 0 { TimesAdd(n, a, b - 1); }
  }

  lemma {:induction false} Reduce(x: nat, n: nat) returns (c: nat)
    requires n > 0
    ensures Remainder(x, n) + Times(n, c) == x
    decreases x
  {
    if x < n {
      c := 0;
    } else {
      c := Reduce(x - n, n);
      c := c + 1;
    }
  }
}

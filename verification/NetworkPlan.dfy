/**
 The cluster's node list: its validation, the global shard numbering it induces, the connections
 each machine plans to accept and to open, and the branch `send` takes for a destination.
 */
module NetworkPlan {
  datatype Node = Node(mid: nat, cores: nat, ip: nat)

  datatype Verdict = Accepted | WrongMachine | WrongCores | WrongIds

  predicate Numbered(nodes: seq<Node>) {
    forall i :: 0 <= i < |nodes| ==> nodes[i].mid == i
  }

  predicate Accepts(nodes: seq<Node>, self: nat, cores: nat) {
    self < |nodes| && nodes[self].cores == cores && Numbered(nodes)
  }

  /** `load_worker_node_list` after the file is read. */
  method LoadNodeList(nodes: seq<Node>, self: nat, cores: nat) returns (v: Verdict)
    ensures v == Accepted <==> Accepts(nodes, self, cores)
    ensures v == WrongMachine <==> self >= |nodes|
    ensures v == WrongCores <==> self < |nodes| && nodes[self].cores != cores
  {
    if self >= |nodes| {
      return WrongMachine;
    }
    if cores != nodes[self].cores {
      return WrongCores;
    }
    for i := 0 to |nodes|
      invariant forall k :: 0 <= k < i ==> nodes[k].mid == k
    {
      if nodes[i].mid != i {
        return WrongIds;
      }
    }
    v := Accepted;
  }

  // ----- Global shard ids -----

  /** The first global shard id of machine `m`; for `m == |nodes|`, the number of shards. */
  function Anchor(nodes: seq<Node>, m: nat): nat
    requires m <= |nodes|
  {
    if m == 0 then 0 else Anchor(nodes, m - 1) + nodes[m - 1].cores
  }

  predicate Owns(nodes: seq<Node>, m: nat, g: nat)
    requires m < |nodes|
  {
    Anchor(nodes, m) <= g < Anchor(nodes, m + 1)
  }

  lemma {:induction false} AnchorsGrow(nodes: seq<Node>, a: nat, b: nat)
    requires a <= b <= |nodes|
    ensures Anchor(nodes, a) <= Anchor(nodes, b)
  {
    if a < b { AnchorsGrow(nodes, a, b - 1); }
  }

  /** The machine that runs shard `g`. */
  function Owner(nodes: seq<Node>, g: nat): (m: nat)
    requires g < Anchor(nodes, |nodes|)
    ensures m < |nodes| && Owns(nodes, m, g)
  {
    OwnerBelow(nodes, g, |nodes|)
  }

  function OwnerBelow(nodes: seq<Node>, g: nat, n: nat): (m: nat)
    requires n <= |nodes| && g < Anchor(nodes, n)
    ensures m < n && Owns(nodes, m, g)
  {
    if Anchor(nodes, n - 1) <= g then n - 1 else OwnerBelow(nodes, g, n - 1)
  }

  /** The machines' shard ranges partition the global ids. */
  lemma RangesPartition(nodes: seq<Node>, g: nat, m: nat)
    requires m < |nodes|
    ensures Owns(nodes, m, g) <==> g < Anchor(nodes, |nodes|) && Owner(nodes, g) == m
  {
    AnchorsGrow(nodes, m + 1, |nodes|);
    if g < Anchor(nodes, |nodes|) {
      var o := Owner(nodes, g);
      if o < m { AnchorsGrow(nodes, o + 1, m); }
      if m < o { AnchorsGrow(nodes, m + 1, o); }
    }
  }

  // ----- The branch taken by send -----

  datatype Branch = Receive | Local(index: nat) | Network

  /** `root_actor_group::send` on shard `sid` of machine `self`. */
  function Send(nodes: seq<Node>, self: nat, sid: nat, dest: nat): Branch
    requires self < |nodes| && sid < nodes[self].cores
  {
    var anchor := Anchor(nodes, self);
    var minSid, maxSid := anchor, anchor + nodes[self].cores - 1;
    if dest != anchor + sid then
      if minSid <= dest && dest <= maxSid then Local(dest - anchor) else Network
    else Receive
  }

  /** Each branch is taken exactly for the destinations it can serve. */
  lemma SendAgrees(nodes: seq<Node>, self: nat, sid: nat, dest: nat)
    requires self < |nodes| && sid < nodes[self].cores && dest < Anchor(nodes, |nodes|)
    ensures var b := Send(nodes, self, sid, dest);
      && (b.Receive? <==> dest == Anchor(nodes, self) + sid)
      && (b.Local? <==> Owner(nodes, dest) == self && !b.Receive?)
      && (b.Local? ==> b.index < nodes[self].cores && b.index != sid && dest == Anchor(nodes, self) + b.index)
      && (b.Network? <==> Owner(nodes, dest) != self)
  {
    RangesPartition(nodes, dest, self);
    assert Anchor(nodes, self + 1) == Anchor(nodes, self) + nodes[self].cores;
  }

  /** Whatever shard of the owning machine a network message comes in on, it is one local hop from home. */
  lemma OneNetworkHop(nodes: seq<Node>, start: nat, sid: nat, entry: nat, dest: nat)
    requires start < |nodes| && sid < nodes[start].cores && dest < Anchor(nodes, |nodes|)
    requires Send(nodes, start, sid, dest).Network? && entry < nodes[Owner(nodes, dest)].cores
    ensures var home := Owner(nodes, dest);
      var b := Send(nodes, home, entry, dest);
      && home != start && !b.Network?
      && dest == Anchor(nodes, home) + (if b.Local? then b.index else entry)
  {
    SendAgrees(nodes, start, sid, dest);
    SendAgrees(nodes, Owner(nodes, dest), entry, dest);
  }

  // ----- Connections -----

  function Repeat(m: nat, times: nat): (r: seq<nat>)
    ensures |r| == times && forall i :: 0 <= i < times ==> r[i] == m
  {
    seq(times, i => m)
  }

  /** The connections a machine opens, in order: `p2p` to each of the machines below `m`. */
  function Openings(m: nat, p2p: nat): seq<nat> {
    if m == 0 then [] else Openings(m - 1, p2p) + Repeat(m - 1, p2p)
  }

  /** The part of `list` that lands on shard `s` when it is dealt out one by one. */
  function Deal(list: seq<nat>, cores: nat, s: nat): seq<nat>
    requires cores > 0
  {
    if list == [] then []
    else
      var n := |list| - 1;
      Deal(list[..n], cores, s) + (if n % cores == s then [list[n]] else [])
  }

  /** The first machine of `lo..hi` at address `ip`, or `hi`. */
  function FirstAt(nodes: seq<Node>, ip: nat, lo: nat, hi: nat): (r: nat)
    requires lo <= hi <= |nodes|
    ensures lo <= r <= hi && (forall j :: lo <= j < r ==> nodes[j].ip != ip) && (r < hi ==> nodes[r].ip == ip)
    decreases hi - lo
  {
    if lo == hi then hi
    else if nodes[lo].ip == ip then lo
    else FirstAt(nodes, ip, lo + 1, hi)
  }

  /** The shard on which connections from machine `j` start to be accepted. */
  function StartShard(p2p: nat, cores: nat, j: nat): nat
    requires cores > 0 && j > 0
  {
    Mul(p2p, j - 1) % cores
  }

  /** `x` added up `y` times. */
  function Mul(x: nat, y: nat): nat {
    if y == 0 then 0 else Mul(x, y - 1) + x
  }

  lemma {:induction false} MulIsProduct(x: nat, y: nat)
    ensures Mul(x, y) == x * y
    decreases y
  {
    if y > 0 {
      MulIsProduct(x, y - 1);
      assert x * y == x * (y - 1) + x;
    }
  }

  /** `_addr_lsid_map`: one entry per address of a higher machine, set by the first machine there. */
  ghost predicate StartsOk(nodes: seq<Node>, self: nat, p2p: nat, cores: nat, upTo: nat, starts: map<nat, nat>)
    requires self < upTo <= |nodes| && cores > 0
  {
    forall ip: nat ::
      var j := FirstAt(nodes, ip, self + 1, upTo);
      (ip in starts <==> j < upTo) && (j < upTo ==> starts[ip] == StartShard(p2p, cores, j))
  }

  datatype Plan = Plan(wait: nat, anchor: nat, shards: nat, servers: seq<seq<nat>>, starts: map<nat, nat>)

  /** `set_network_config`. */
  method SetNetworkConfig(nodes: seq<Node>, self: nat, p2p: nat) returns (plan: Plan)
    requires self < |nodes| && nodes[self].cores > 0 && Numbered(nodes)
    ensures plan.anchor == Anchor(nodes, self) && plan.shards == Anchor(nodes, |nodes|)
    ensures plan.wait == p2p * (|nodes| - 1 - self)
    ensures |plan.servers| == nodes[self].cores
    ensures forall s :: 0 <= s < |plan.servers| ==>
              plan.servers[s] == Deal(Openings(self, p2p), nodes[self].cores, s)
    ensures StartsOk(nodes, self, p2p, nodes[self].cores, |nodes|, plan.starts)
  {
    var cores := nodes[self].cores;
    var wait: nat, anchor: nat, shards: nat, dst: nat := 0, 0, 0, 0;
    var servers: seq<seq<nat>> := seq(cores, _ => []);
    var starts: map<nat, nat> := map[];
    for j := 0 to |nodes|
      invariant shards == Anchor(nodes, j) && |servers| == cores
      invariant j <= self ==> ClientPart(nodes, j, p2p, anchor, dst, servers) && wait == 0 && starts == map[]
      invariant j > self ==>
          anchor == Anchor(nodes, self) && DealtOut(servers, Openings(self, p2p))
          && ServerPart(nodes, self, p2p, cores, j, wait, dst, starts)
    {
      if self != nodes[j].mid {
        if self < j {
          ServerStep(nodes, self, p2p, cores, j, wait, dst, starts);
          wait := wait + p2p;
          if nodes[j].ip !in starts {
            starts := starts[nodes[j].ip := dst];
          }
          dst := (dst + p2p) % cores;
        } else {
          anchor := anchor + nodes[j].cores;
          servers, dst := OpenTo(servers, Openings(j, p2p), dst, j, p2p);
        }
      } else {
        SelfStep(nodes, self, p2p, dst, servers);
      }
      shards := shards + nodes[j].cores;
    }
    MulIsProduct(p2p, |nodes| - 1 - self);
    plan := Plan(wait, anchor, shards, servers, starts);
  }

  /** The plan's fields while the machines below this one are passed. */
  predicate ClientPart(nodes: seq<Node>, j: nat, p2p: nat, anchor: nat, dst: nat, servers: seq<seq<nat>>)
    requires j <= |nodes|
  {
    && anchor == Anchor(nodes, j)
    && DealtOut(servers, Openings(j, p2p))
    && dst == |Openings(j, p2p)| % |servers|
  }

  /** The plan's fields while the machines above this one are passed. */
  ghost predicate ServerPart(nodes: seq<Node>, self: nat, p2p: nat, cores: nat, j: nat, wait: nat, dst: nat,
                             starts: map<nat, nat>)
    requires self < j <= |nodes| && cores > 0
  {
    && wait == Mul(p2p, j - 1 - self)
    && dst == StartShard(p2p, cores, j)
    && StartsOk(nodes, self, p2p, cores, j, starts)
  }

  /** Past this machine itself: the dealt connections leave the cursor where the servers start. */
  lemma SelfStep(nodes: seq<Node>, self: nat, p2p: nat, dst: nat, servers: seq<seq<nat>>)
    requires self < |nodes| && DealtOut(servers, Openings(self, p2p)) && dst == |Openings(self, p2p)| % |servers|
    ensures ServerPart(nodes, self, p2p, |servers|, self + 1, 0, dst, map[])
  {
    OpeningsLength(self, p2p);
  }

  lemma ServerStep(nodes: seq<Node>, self: nat, p2p: nat, cores: nat, j: nat, wait: nat, dst: nat,
                   starts: map<nat, nat>)
    requires self < j < |nodes| && cores > 0 && ServerPart(nodes, self, p2p, cores, j, wait, dst, starts)
    ensures ServerPart(nodes, self, p2p, cores, j + 1, wait + p2p, (dst + p2p) % cores,
                       if nodes[j].ip in starts then starts else starts[nodes[j].ip := dst])
  {
    StartsGrow(nodes, self, p2p, cores, j, starts);
    ModAdd(Mul(p2p, j - 1), p2p, cores);
  }

  predicate DealtOut(servers: seq<seq<nat>>, list: seq<nat>) {
    servers != [] && forall s :: 0 <= s < |servers| ==> servers[s] == Deal(list, |servers|, s)
  }

  /** The client loop for machine `mid`: one connection to each shard in turn. */
  method OpenTo(servers: seq<seq<nat>>, ghost list: seq<nat>, dst: nat, mid: nat, p2p: nat)
    returns (r: seq<seq<nat>>, next: nat)
    requires DealtOut(servers, list) && dst == |list| % |servers|
    ensures |r| == |servers| && DealtOut(r, list + Repeat(mid, p2p))
    ensures next == (|list| + p2p) % |servers|
  {
    r, next := servers, dst;
    assert list + Repeat(mid, 0) == list;
    for i := 0 to p2p
      invariant |r| == |servers| && DealtOut(r, list + Repeat(mid, i)) && next == (|list| + i) % |r|
    {
      OpenOne(r, list, mid, i);
      r := r[next := r[next] + [mid]];
      next := (next + 1) % |r|;
    }
  }

  /** One connection more: the next shard's list grows and the cursor moves on. */
  lemma OpenOne(r: seq<seq<nat>>, list: seq<nat>, mid: nat, i: nat)
    requires DealtOut(r, list + Repeat(mid, i))
    ensures var d := (|list| + i) % |r|;
      && 0 <= d < |r| && DealtOut(r[d := r[d] + [mid]], list + Repeat(mid, i + 1))
      && (d + 1) % |r| == (|list| + (i + 1)) % |r|
  {
    var done := list + Repeat(mid, i);
    assert list + Repeat(mid, i + 1) == done + [mid];
    DealtOne(r, done, mid);
    ModAdd(|done|, 1, |r|);
  }

  lemma DealtOne(r: seq<seq<nat>>, done: seq<nat>, mid: nat)
    requires DealtOut(r, done)
    ensures var d := |done| % |r|; DealtOut(r[d := r[d] + [mid]], done + [mid])
  {
    assert (done + [mid])[..|done|] == done;
  }

  lemma ModAdd(k: nat, p: nat, c: nat)
    requires c > 0
    ensures (k % c + p) % c == (k + p) % c
  {
    var q, r := (k % c + p) / c, (k % c + p) % c;
    assert k + p == c * (k / c) + c * q + r == c * (k / c + q) + r;
    Unique(k + p, c, k / c + q, r);
  }

  lemma Unique(v: nat, d: nat, q: int, r: nat)
    requires r < d && v == d * q + r
    ensures v / d == q && v % d == r
  {
    assert d * (v / d - q) == d * (v / d) - d * q == r - v % d;
    Apart(d, v / d - q);
  }

  lemma Apart(d: nat, x: int)
    ensures x > 0 ==> d * x >= d
    ensures x < 0 ==> d * x <= 0 - d
  {
    if x > 0 { assert d * (x - 1) >= 0; }
    if x < 0 { assert d * (-x - 1) >= 0; }
  }

  lemma {:induction false} OpeningsLength(m: nat, p2p: nat)
    ensures |Openings(m, p2p)| == Mul(p2p, m)
  {
    if m > 0 { OpeningsLength(m - 1, p2p); }
  }

  lemma StartsGrow(nodes: seq<Node>, self: nat, p2p: nat, cores: nat, j: nat, starts: map<nat, nat>)
    requires self < j < |nodes| && cores > 0 && StartsOk(nodes, self, p2p, cores, j, starts)
    ensures var ip := nodes[j].ip;
      StartsOk(nodes, self, p2p, cores, j + 1,
               if ip in starts then starts else starts[ip := StartShard(p2p, cores, j)])
  {
    forall ip: nat {:trigger FirstAt(nodes, ip, self + 1, j + 1)}
      ensures FirstAt(nodes, ip, self + 1, j + 1) ==
              var f := FirstAt(nodes, ip, self + 1, j);
              if f < j || nodes[j].ip == ip then f else j + 1
    {
      FirstNext(nodes, ip, self + 1, j);
    }
  }

  lemma FirstNext(nodes: seq<Node>, ip: nat, lo: nat, j: nat)
    requires lo <= j < |nodes|
    ensures var f := FirstAt(nodes, ip, lo, j);
      FirstAt(nodes, ip, lo, j + 1) == if f < j || nodes[j].ip == ip then f else j + 1
  {
  }

  // ----- Both ends agree, and the load is even -----

  /** How many of the connections in all shards' lists go to machine `m`. */
  function CountTo(servers: seq<seq<nat>>, m: nat): nat {
    if servers == [] then 0
    else CountTo(servers[..|servers| - 1], m) + multiset(servers[|servers| - 1])[m]
  }

  lemma {:induction false} CountTouched(a: seq<seq<nat>>, b: seq<seq<nat>>, d: nat, x: nat, m: nat)
    requires |a| == |b| && forall s :: 0 <= s < |a| ==> b[s] == if s == d then a[s] + [x] else a[s]
    ensures CountTo(b, m) == CountTo(a, m) + if d < |a| && x == m then 1 else 0
  {
    if a != [] { CountTouched(a[..|a| - 1], b[..|a| - 1], d, x, m); }
  }

  lemma {:induction false} CountNone(a: seq<seq<nat>>, m: nat)
    requires forall s :: 0 <= s < |a| ==> a[s] == []
    ensures CountTo(a, m) == 0
  {
    if a != [] { CountNone(a[..|a| - 1], m); }
  }

  lemma DealNext(servers: seq<seq<nat>>, before: seq<seq<nat>>, list: seq<nat>)
    requires list != [] && |before| == |servers| && DealtOut(servers, list) && DealtOut(before, list[..|list| - 1])
    ensures forall s :: 0 <= s < |servers| ==>
              servers[s] == if s == (|list| - 1) % |servers| then before[s] + [list[|list| - 1]] else before[s]
  {
  }

  /** Dealing loses and invents no connection. */
  lemma {:induction false} DealConserves(servers: seq<seq<nat>>, list: seq<nat>, m: nat)
    requires DealtOut(servers, list)
    ensures CountTo(servers, m) == multiset(list)[m]
    decreases |list|
  {
    if list == [] {
      CountNone(servers, m);
    } else {
      var n := |list| - 1;
      var before := Hands(list[..n], |servers|);
      DealConserves(before, list[..n], m);
      DealNext(servers, before, list);
      CountTouched(before, servers, n % |servers|, list[n], m);
      LastCounts(list, m);
    }
  }

  function Hands(list: seq<nat>, cores: nat): (r: seq<seq<nat>>)
    requires cores > 0
    ensures |r| == cores && DealtOut(r, list)
  {
    seq(cores, s requires 0 <= s => Deal(list, cores, s))
  }

  lemma LastCounts(list: seq<nat>, m: nat)
    requires list != []
    ensures var n := |list| - 1; multiset(list)[m] == multiset(list[..n])[m] + if list[n] == m then 1 else 0
  {
    var n := |list| - 1;
    assert list == list[..n] + [list[n]];
  }

  lemma {:induction false} OpeningsCount(j: nat, p2p: nat, m: nat)
    ensures multiset(Openings(j, p2p))[m] == if m < j then p2p else 0
  {
    if j > 0 {
      OpeningsCount(j - 1, p2p, m);
      RepeatCount(j - 1, p2p, m);
    }
  }

  lemma {:induction false} RepeatCount(x: nat, times: nat, m: nat)
    ensures multiset(Repeat(x, times))[m] == if x == m then times else 0
  {
    if times > 0 {
      RepeatCount(x, times - 1, m);
      assert Repeat(x, times) == Repeat(x, times - 1) + [x];
    }
  }

  /** What machines `i + 1 .. upTo` open towards machine `i`, from their own plans. */
  function OpenedTowards(plans: seq<Plan>, i: nat, upTo: nat): nat
    requires i < upTo <= |plans|
  {
    if upTo == i + 1 then 0 else OpenedTowards(plans, i, upTo - 1) + CountTo(plans[upTo - 1].servers, i)
  }

  /** What SetNetworkConfig promises of machine `j`'s plan. */
  predicate PlanFor(nodes: seq<Node>, p2p: nat, plan: Plan, j: nat)
    requires j < |nodes|
  {
    plan.wait == p2p * (|nodes| - 1 - j) && DealtOut(plan.servers, Openings(j, p2p))
  }

  ghost predicate PlansFor(nodes: seq<Node>, p2p: nat, plans: seq<Plan>) {
    |plans| == |nodes| && forall j {:trigger PlanFor(nodes, p2p, plans[j], j)} :: 0 <= j < |nodes| ==>
      PlanFor(nodes, p2p, plans[j], j)
  }

  /** Machine `j` opens exactly `p2p` connections to each lower machine and none to the others. */
  lemma OpensToEachLower(nodes: seq<Node>, p2p: nat, plans: seq<Plan>, i: nat, j: nat)
    requires PlansFor(nodes, p2p, plans) && i < |nodes| && j < |nodes|
    ensures CountTo(plans[j].servers, i) == if i < j then p2p else 0
  {
    assert PlanFor(nodes, p2p, plans[j], j);
    DealConserves(plans[j].servers, Openings(j, p2p), i);
    OpeningsCount(j, p2p, i);
  }

  /** A machine waits for exactly the connections the others open to it. */
  lemma AcceptedEqualsOpened(nodes: seq<Node>, p2p: nat, plans: seq<Plan>, i: nat)
    requires PlansFor(nodes, p2p, plans) && i < |nodes|
    ensures plans[i].wait == OpenedTowards(plans, i, |nodes|)
  {
    forall j | i < j < |plans| ensures CountTo(plans[j].servers, i) == p2p {
      OpensToEachLower(nodes, p2p, plans, i, j);
    }
    OpenedSum(p2p, plans, i, |nodes|);
    MulIsProduct(p2p, |nodes| - 1 - i);
    assert PlanFor(nodes, p2p, plans[i], i);
  }

  lemma {:induction false} OpenedSum(p2p: nat, plans: seq<Plan>, i: nat, upTo: nat)
    requires i < upTo <= |plans|
    requires forall j :: i < j < |plans| ==> CountTo(plans[j].servers, i) == p2p
    ensures OpenedTowards(plans, i, upTo) == Mul(p2p, upTo - 1 - i)
    decreases upTo
  {
    if upTo > i + 1 { OpenedSum(p2p, plans, i, upTo - 1); }
  }

  lemma {:induction false} DealLength(list: seq<nat>, cores: nat, s: nat)
    requires s < cores
    ensures |Deal(list, cores, s)| == |list| / cores + if s < |list| % cores then 1 else 0
  {
    if list != [] {
      var n := |list| - 1;
      DealLength(list[..n], cores, s);
      DivStep(n, cores);
    } else {
      Unique(0, cores, 0, 0);
    }
  }

  lemma DivStep(n: nat, c: nat)
    requires c > 0
    ensures n % c + 1 < c ==> (n + 1) / c == n / c && (n + 1) % c == n % c + 1
    ensures n % c + 1 == c ==> (n + 1) / c == n / c + 1 && (n + 1) % c == 0
  {
    var q, r := n / c, n % c;
    if r + 1 < c {
      Unique(n + 1, c, q, r + 1);
    } else {
      assert c * (q + 1) == c * q + c;
      Unique(n + 1, c, q + 1, 0);
    }
  }

  /** The client connections of two shards of one machine differ by at most one. */
  lemma EvenLoad(nodes: seq<Node>, p2p: nat, plan: Plan, j: nat, s: nat, t: nat)
    requires j < |nodes| && PlanFor(nodes, p2p, plan, j) && s < |plan.servers| && t < |plan.servers|
    ensures |plan.servers[s]| <= |plan.servers[t]| + 1
  {
    DealLength(Openings(j, p2p), |plan.servers|, s);
    DealLength(Openings(j, p2p), |plan.servers|, t);
  }
}

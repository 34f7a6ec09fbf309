/** What holds of every run of a shard's actor tree. */
module ActorRuns {
  import opened ActorTree

  /** A finite run from an empty shard: any interleaving of enabled steps. */
  ghost predicate IsRun(states: seq<State>, acts: seq<Action>) {
    && |states| == |acts| + 1 && states[0] == InitState()
    && (forall i {:trigger StepAt(states, acts, i)} :: 0 <= i < |acts| ==> StepAt(states, acts, i))
  }

  /** Step `i` is enabled and leads from state `i` to the next. */
  ghost predicate StepAt(states: seq<State>, acts: seq<Action>, i: nat)
    requires i < |acts| && |states| == |acts| + 1
  {
    Enabled(states[i], acts[i]) && states[i + 1] == Next(states[i], acts[i])
  }

  lemma InitOk()
    ensures Inv(InitState())
  {
    var s := InitState();
    assert LiveKeys(s.nodes, Root) == {};
    assert NodeOk(s, Root, {}, {}, {});
  }

  lemma {:induction false} RunInv(states: seq<State>, acts: seq<Action>, i: nat)
    requires IsRun(states, acts) && i < |states|
    ensures Inv(states[i])
  {
    if i == 0 {
      InitOk();
    } else {
      RunInv(states, acts, i - 1);
      assert StepAt(states, acts, i - 1);
      StepOk(states[i - 1], acts[i - 1]);
    }
  }

  /** Steps compose: a whole stretch of a run respects seals like one step does. */
  lemma {:induction false} RunSeals(states: seq<State>, acts: seq<Action>, i: nat, j: nat)
    requires IsRun(states, acts) && i <= j < |states|
    ensures SealStep(states[i], states[j])
    decreases j
  {
    if i == j {
      SealSelf(states[i]);
    } else {
      RunSeals(states, acts, i, j - 1);
      StepSeals(states, acts, j - 1);
      SealStepTrans(states[i], states[j - 1], states[j]);
    }
  }

  lemma StepSeals(states: seq<State>, acts: seq<Action>, i: nat)
    requires IsRun(states, acts) && i < |acts|
    ensures SealStep(states[i], states[i + 1])
  {
    RunInv(states, acts, i);
    assert StepAt(states, acts, i);
    StepOk(states[i], acts[i]);
  }

  // ----- No lost activation -----

  /** Work that only a run slice of the node itself can do. */
  predicate HasWork(n: Node) {
    MoreWork(n) || Deletable(n)
  }

  /** Queued at its parent, or on the call stack; for the root, the reactor itself. */
  ghost predicate Reached(s: State, a: Path) {
    && a in s.nodes && s.nodes[a].sched == Scheduled
    && (Anc(a, s.cur) || (a.Kid? && a.parent in s.nodes && a.key in s.nodes[a.parent].queue))
  }

  /** In every reachable state, an actor with work is reached along its whole ancestor chain. */
  lemma {:induction false} NoLostActivation(states: seq<State>, acts: seq<Action>, i: nat, q: Path, a: Path)
    requires IsRun(states, acts) && i < |states|
    requires q in states[i].nodes && HasWork(states[i].nodes[q]) && Anc(a, q)
    ensures Reached(states[i], a)
  {
    RunInv(states, acts, i);
    assert NodeOk(states[i], q, {}, {}, {});
    ChainReached(states[i], q, a);
  }

  lemma {:induction false} ChainReached(s: State, q: Path, a: Path)
    requires Inv(s) && q in s.nodes && s.nodes[q].sched == Scheduled && Anc(a, q)
    ensures Reached(s, a)
    decreases q
  {
    assert NodeOk(s, q, {}, {}, {});
    if q.Root? {
      RootAnc(s.cur);
    } else if Anc(q, s.cur) {
      AncTrans(a, q, s.cur);
      AncLive(s, a, s.cur);
      assert NodeOk(s, a, {}, {}, {});
    } else if a != q {
      assert NodeOk(s, q.parent, {}, {}, {});
      ChainReached(s, q.parent, a);
    }
  }

  /** With the reactor between slices, a scheduled node anywhere means a queued root child. */
  lemma {:induction false} ScheduledQueued(s: State, q: Path)
    requires Inv(s) && s.cur == Root && q in s.nodes && q.Kid? && s.nodes[q].sched == Scheduled
    ensures s.nodes[Root].queue != []
    decreases q
  {
    assert NodeOk(s, q, {}, {}, {});
    assert q.key in s.nodes[q.parent].queue;
    if q.parent.Kid? {
      assert NodeOk(s, q.parent, {}, {}, {});
      ScheduledQueued(s, q.parent);
    }
  }

  /** When the reactor has nothing queued, no actor or group has anything left to do. */
  lemma Quiescent(s: State)
    requires Inv(s) && s.cur == Root && s.nodes[Root].queue == []
    ensures forall q :: q in s.nodes && q.Kid? ==> !HasWork(s.nodes[q])
  {
    forall q | q in s.nodes && q.Kid? ensures !HasWork(s.nodes[q]) {
      assert NodeOk(s, q, {}, {}, {});
      if s.nodes[q].sched == Scheduled { ScheduledQueued(s, q); }
    }
  }

  lemma {:induction false} RootAnc(q: Path)
    ensures Anc(Root, q)
    decreases q
  {
    if q.Kid? { RootAnc(q.parent); }
  }

  lemma {:induction false} AncTrans(a: Path, b: Path, c: Path)
    requires Anc(a, b) && Anc(b, c)
    ensures Anc(a, c)
    decreases c
  {
    if b != c { AncTrans(a, b, c.parent); }
  }

  // ----- References and counting -----

  /** Maps and queues name live nodes only, and a node is queued once or running iff scheduled. */
  lemma ReferenceSafety(states: seq<State>, acts: seq<Action>, i: nat, p: Path, k: Key)
    requires IsRun(states, acts) && i < |states|
    requires p in states[i].nodes && states[i].nodes[p].isGroup
    ensures var s := states[i];
      var g, q := s.nodes[p], Kid(p, k);
      && (k in g.children && g.children[k] ==> q in s.nodes)
      && (k in g.queue <==> q in s.nodes && s.nodes[q].sched == Scheduled && !Anc(q, s.cur))
      && multiset(g.queue)[k] <= 1
      && g.managed == |LiveKeys(s.nodes, p)|
      && (q in s.nodes <==> k in LiveKeys(s.nodes, p))
  {
    var s := states[i];
    RunInv(states, acts, i);
    assert NodeOk(s, p, {}, {}, {});
    assert Kid(p, k) in s.nodes ==> NodeOk(s, Kid(p, k), {}, {}, {});
    NoDupOnce(s.nodes[p].queue, k);
  }

  lemma {:induction false} NoDupOnce(q: seq<Key>, k: Key)
    requires NoDup(q)
    ensures multiset(q)[k] <= 1
  {
    if q != [] {
      NoDupOnce(q[1..], k);
      assert q == [q[0]] + q[1..];
      if q[0] == k { assert k !in q[1..]; }
    }
  }

  // ----- Stop closure -----

  /** A stopping node is sealed for good: no user message, no child and no rebirth below it. */
  lemma StopClosure(states: seq<State>, acts: seq<Action>, i: nat, j: nat, p: Path, q: Path)
    requires IsRun(states, acts) && i <= j < |states|
    requires p.Kid? && p in states[i].nodes && states[i].nodes[p].stop != Running && Anc(p, q)
    ensures Sealed(states[j], q)
    ensures q in states[j].nodes ==> q in states[i].nodes
    ensures q in states[i].nodes && q in states[j].nodes ==>
              states[j].nodes[q].arrived == states[i].nodes[q].arrived
  {
    RunInv(states, acts, i);
    RunSeals(states, acts, i, j);
    assert NodeOk(states[i], p, {}, {}, {});
    SealedBelow(states[i], p, q);
    SealedForever(states[i], states[j], q);
  }

  lemma {:induction false} SealedBelow(s: State, p: Path, q: Path)
    requires Sealed(s, p) && Anc(p, q)
    ensures Sealed(s, q)
    decreases q
  {
    if p != q { SealedBelow(s, p, q.parent); }
  }

  /**
   A stop spreads and keeps going: in every reachable state, each live child of a stopping group is
   stopping or holds a stop message, and a stopping node is scheduled, has a chain in flight or
   has live children.
   */
  lemma StopSpreads(states: seq<State>, acts: seq<Action>, i: nat, p: Path, k: Key)
    requires IsRun(states, acts) && i < |states|
    requires p in states[i].nodes && states[i].nodes[p].stop != Running
    ensures var s := states[i];
      var n, q := s.nodes[p], Kid(p, k);
      && (q in s.nodes ==> s.nodes[q].stop != Running || HasStop(s.nodes[q].mailbox))
      && (|| n.sched == Scheduled
          || (!n.isGroup && n.inflight > 0)
          || (n.isGroup && LiveKeys(s.nodes, p) != {}))
  {
    var s := states[i];
    RunInv(states, acts, i);
    assert NodeOk(s, p, {}, {}, {});
    assert Kid(p, k) in s.nodes ==> NodeOk(s, Kid(p, k), {}, {}, {});
  }

  /** An address that lost its actor never gets another one on this shard. */
  lemma InstantiatedOnce(states: seq<State>, acts: seq<Action>, i: nat, j: nat, k: nat, q: Path)
    requires IsRun(states, acts) && i <= j <= k < |states|
    requires q in states[i].nodes && q !in states[j].nodes
    ensures q !in states[k].nodes
  {
    RunSeals(states, acts, i, j);
    RunSeals(states, acts, j, k);
  }

  // ----- A stopped subtree cannot get stuck -----

  /** Live strict and non-strict descendants. */
  ghost function Below(s: State, p: Path): set<Path> {
    set x | x in s.nodes && Anc(p, x)
  }

  /** Something below `p` will run: it is scheduled, or a chain in flight will resume it. */
  lemma {:induction false} NeverStuck(s: State, p: Path) returns (x: Path)
    requires Inv(s) && p in s.nodes
    requires s.nodes[p].stop != Running || HasStop(s.nodes[p].mailbox)
    ensures x in s.nodes && Anc(p, x)
    ensures s.nodes[x].sched == Scheduled || (!s.nodes[x].isGroup && s.nodes[x].inflight > 0)
    decreases Below(s, p)
  {
    var n := s.nodes[p];
    assert NodeOk(s, p, {}, {}, {});
    if n.sched == Scheduled || !n.isGroup {
      x := p;
    } else {
      var k :| k in LiveKeys(s.nodes, p);
      var q := Kid(p, k);
      assert NodeOk(s, q, {}, {}, {});
      BelowShrinks(s, p, q);
      x := NeverStuck(s, q);
      AncTrans(p, q, x);
    }
  }

  lemma BelowShrinks(s: State, p: Path, q: Path)
    requires q.Kid? && q.parent == p && p in s.nodes
    ensures Below(s, q) < Below(s, p)
  {
    AncParent(q);
    forall x | x in Below(s, q) ensures x in Below(s, p) {
      AncTrans(p, q, x);
    }
    assert p in Below(s, p) && p !in Below(s, q);
  }

  // ----- Concurrency and order -----

  /**
   The counter is the number of unfinished chains and stays within the cap; with a cap of one a
   user message starts only when no chain is left; messages start in arrival order.
   */
  lemma ConcurrencyCap(states: seq<State>, acts: seq<Action>, i: nat, q: Path)
    requires IsRun(states, acts) && i < |states|
    requires q in states[i].nodes && !states[i].nodes[q].isGroup
    ensures var n := states[i].nodes[q];
      && n.inflight == |n.chains| <= n.cap
      && (n.stop != ForceStopping ==> n.started <= n.arrived)
      && (i < |acts| && acts[i].Mail? && states[i].cur == q && n.cap == 1 ==>
            n.mailbox != [] && (n.mailbox[0].User? ==> n.chains == {}))
  {
    RunInv(states, acts, i);
    assert NodeOk(states[i], q, {}, {}, {});
    if i < |acts| { assert StepAt(states, acts, i); }
  }

  // ----- Shutdown -----

  /** The exit barrier is entered at most once, with no actor left, and nothing is created after. */
  lemma {:induction false} ExitOnce(states: seq<State>, acts: seq<Action>, i: nat, j: nat)
    requires IsRun(states, acts) && i <= j < |states|
    ensures states[i].exits <= states[j].exits <= 1
    ensures states[i].exits == 1 ==> states[j].nodes.Keys == {Root}
    decreases j
  {
    RunInv(states, acts, j);
    if i < j {
      ExitOnce(states, acts, i, j - 1);
      RunInv(states, acts, j - 1);
      assert StepAt(states, acts, j - 1);
      ExitStep(states[j - 1], acts[j - 1]);
    }
    if states[j].exits == 1 { ExitEmpty(states[j]); }
  }

  lemma ExitStep(s: State, a: Action)
    requires Inv(s) && Enabled(s, a)
    ensures s.exits <= Next(s, a).exits
  {
    StepOk(s, a);
    if s.exits == 1 { ExitStays(s, a); }
  }

  lemma {:induction false} RootHasKid(s: State, q: Path)
    requires Inv(s) && q in s.nodes && q.Kid?
    ensures LiveKeys(s.nodes, Root) != {}
    decreases q
  {
    assert NodeOk(s, q, {}, {}, {});
    if q.parent.Root? {
      assert q == Kid(Root, q.key) && q.key in LiveKeys(s.nodes, Root);
    } else {
      RootHasKid(s, q.parent);
    }
  }

  lemma ExitEmpty(s: State)
    requires Inv(s) && s.exits == 1
    ensures s.nodes.Keys == {Root} && s.cur == Root
  {
    assert NodeOk(s, Root, {}, {}, {});
    forall q | q in s.nodes ensures q == Root {
      if q.Kid? { RootHasKid(s, q); }
    }
  }

  lemma ExitStays(s: State, a: Action)
    requires Inv(s) && s.exits == 1 && Enabled(s, a)
    ensures Next(s, a).exits == 1
  {
    ExitEmpty(s);
    assert NodeOk(s, Root, {}, {}, {});
    if a.Run? {
      assert Kid(Root, s.nodes[Root].queue[a.i]) in s.nodes;
    } else if a.Receive? {
      ReceiveDead(s, a.dest, a.cap);
    }
  }

  lemma {:induction false} ReceiveDead(s: State, dest: Path, cap: nat)
    requires Inv(s) && s.nodes[Root].stop != Running && s.nodes.Keys == {Root}
    ensures Route(s, dest, cap).0 == s
    ensures Route(s, dest, cap).1 == if dest.Root? then At(Root) else Nowhere
    decreases dest
  {
    if dest.Kid? {
      ReceiveDead(s, dest.parent, cap);
      assert NodeOk(s, Root, {}, {}, {});
    }
  }
}

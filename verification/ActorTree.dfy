/**
 The actor tree of one shard: `actor`, `actor_group` and `root_actor_group` as one
 transition system.  A node is identified by its address below the root; the reactor is the
 root's own run loop.  Every function here is the effect of one piece of straight-line source
 code; the run loops are in module ShardEngine.
 */
module ActorTree {

  /** One address layer: the class type id and the actor id below it. */
  datatype Key = Key(tid: nat, id: nat)

  /** An address, as the chain of layers down from the shard's root actor group. */
  datatype Path = Root | Kid(parent: Path, key: Key)

  /** Type ids from 0xF000 upwards belong to actor groups. */
  predicate IsGroupType(k: Key) {
    k.tid >= 0xF000
  }

  datatype Sched = Initialized | Schedulable | Scheduled
  datatype Status = Running | PeaceStopping | ForceStopping
  datatype Msg = User(id: nat) | Stop(force: bool)

  /**
   A live node: the fields of `actor_base`, then those of `actor`, then those of `actor_group`
   (a leaf keeps the last three empty, a group the middle ones).  `children` is the instance
   map, `true` for a pointer and `false` for the null tombstone.  Three fields are auxiliary:
   `chains` names the unfinished `do_work` chains that `inflight` counts, `arrived` and
   `started` record user messages.
   */
  datatype Node = Node(
    isGroup: bool, sched: Sched, stop: Status, mailbox: seq<Msg>,
    cap: nat, inflight: nat, tasks: seq<nat>, chains: set<nat>, arrived: seq<nat>, started: seq<nat>,
    children: map<Key, bool>, managed: nat, queue: seq<Key>)

  /** Where the innermost running node stands in its `run_and_dispose`. */
  datatype Pc =
    | GMail | GTasks | GFinal
    | LTasks | LTask(chain: nat) | LMail | LWork(msg: nat) | LFinal

  /**
   `cur` is the innermost node now executing (`Root` between slices); all its ancestors are on
   the call stack.  `exits` counts arrivals of this shard at the exit barrier.
   */
  datatype State = State(nodes: map<Path, Node>, cur: Path, pc: Pc, exits: nat)

  predicate Anc(p: Path, q: Path)
    decreases q
  {
    p == q || (q.Kid? && Anc(p, q.parent))
  }

  ghost function Depth(p: Path): nat {
    if p.Root? then 0 else 1 + Depth(p.parent)
  }

  lemma {:induction false} AncShorter(p: Path, q: Path)
    ensures Anc(p, q) ==> Depth(p) <= Depth(q)
    decreases q
  {
    if p != q && q.Kid? { AncShorter(p, q.parent); }
  }

  lemma AncParent(p: Path)
    requires p.Kid?
    ensures !Anc(p, p.parent)
  {
    AncShorter(p, p.parent);
  }

  // ----- Specification vocabulary -----

  function Users(mailbox: seq<Msg>): seq<nat> {
    if mailbox == [] then []
    else (if mailbox[0].User? then [mailbox[0].id] else []) + Users(mailbox[1..])
  }

  predicate HasStop(mailbox: seq<Msg>) {
    exists i :: 0 <= i < |mailbox| && mailbox[i].Stop?
  }

  /** Stop messages are mailed at the front, user messages at the back. */
  predicate StopsFirst(mailbox: seq<Msg>) {
    forall i, j :: 0 <= i < j < |mailbox| && mailbox[j].Stop? ==> mailbox[i].Stop?
  }

  predicate NoDup<T(==)>(s: seq<T>) {
    forall i, j :: 0 <= i < j < |s| ==> s[i] != s[j]
  }

  /** Nothing a run slice could do for this node; a stopping node still waits for something. */
  predicate Idle(n: Node) {
    if n.isGroup then
      n.mailbox == [] && n.queue == [] && (n.stop != Running ==> n.managed > 0)
    else
      n.tasks == [] && (n.mailbox == [] || n.inflight == n.cap) && (n.stop != Running ==> n.inflight > 0)
  }

  ghost predicate LeafOk(n: Node) {
    && 1 <= n.cap
    && n.inflight == |n.chains| <= n.cap
    && (forall i :: 0 <= i < |n.tasks| ==> n.tasks[i] in n.chains)
    && (n.stop != ForceStopping ==> n.arrived == n.started + Users(n.mailbox))
  }

  ghost function LiveKeys(nodes: map<Path, Node>, p: Path): set<Key>
    requires p in nodes
  {
    set k | k in nodes[p].children && Kid(p, k) in nodes
  }

  ghost predicate GroupOk(nodes: map<Path, Node>, p: Path)
    requires p in nodes
  {
    && NoDup(nodes[p].queue)
    && nodes[p].managed == |LiveKeys(nodes, p)|
    && (forall k :: k in nodes[p].queue ==> Kid(p, k) in nodes)
    && (forall k :: k in nodes[p].children && nodes[p].children[k] ==> Kid(p, k) in nodes)
  }

  /** What ties a node to its parent. `K` and `Z` list nodes mid-way through being stopped. */
  ghost predicate LinkOk(s: State, q: Path, K: set<Path>, Z: set<Path>)
    requires q in s.nodes && q.Kid?
  {
    && q.parent in s.nodes && s.nodes[q.parent].isGroup
    && var g, n := s.nodes[q.parent], s.nodes[q];
    && q.key in g.children
    && (IsGroupType(q.key) <==> n.isGroup)
    && (q !in Z ==> (g.children[q.key] <==> n.stop == Running))
    && (q.key in g.queue <==> n.sched == Scheduled && !Anc(q, s.cur))
    && (q !in K && g.stop != Running ==> n.stop != Running || HasStop(n.mailbox))
  }

  ghost predicate NodeOk(s: State, q: Path, W: set<Path>, K: set<Path>, Z: set<Path>)
    requires q in s.nodes
  {
    var n := s.nodes[q];
    && n.sched != Initialized
    && (Anc(q, s.cur) ==> n.sched == Scheduled)
    && (q.Kid? ==> LinkOk(s, q, K, Z))
    && (q !in W && n.sched == Schedulable ==> Idle(n))
    && (!n.isGroup ==> LeafOk(n))
    && (n.isGroup ==> GroupOk(s.nodes, q))
  }

  /** The tree invariant, except for work pending at `W` and stops in progress at `K` and `Z`. */
  ghost predicate TreeInv(s: State, W: set<Path>, K: set<Path>, Z: set<Path>) {
    && Root in s.nodes && s.nodes[Root].isGroup && s.nodes[Root].sched == Scheduled
    && s.cur in s.nodes
    && (forall q {:trigger NodeOk(s, q, W, K, Z)} :: q in s.nodes ==> NodeOk(s, q, W, K, Z))
  }

  ghost predicate PcOk(s: State)
    requires s.cur in s.nodes
  {
    var n := s.nodes[s.cur];
    && (s.cur == Root ==> s.pc == GTasks)
    && (n.isGroup <==> s.pc.GMail? || s.pc.GTasks? || s.pc.GFinal?)
    && (s.pc.LTask? ==> s.pc.chain in n.chains)
    && (s.pc.LMail? || s.pc.LWork? ==> n.inflight < n.cap)
  }

  /** The exit barrier has been entered exactly when the root is stopping and manages nothing. */
  ghost predicate ExitOk(s: State)
    requires Root in s.nodes && s.nodes[Root].isGroup
  {
    s.exits == if s.nodes[Root].stop != Running && s.nodes[Root].managed == 0 then 1 else 0
  }

  ghost predicate Inv(s: State) {
    TreeInv(s, {}, {}, {}) && PcOk(s) && ExitOk(s)
  }

  /** The constructors of `actor` and `actor_group`; `set_max_concurrency` turns 0 into 1. */
  function NewNode(isGroup: bool, cap: nat): Node {
    Node(isGroup, Initialized, Running, [], if cap > 0 then cap else 1, 0, [], {}, [], [], map[], 0, [])
  }

  function InitState(): State {
    State(map[Root := NewNode(true, 1).(sched := Scheduled)], Root, GTasks, 0)
  }

  // ----- Activation -----

  function Put(s: State, p: Path, n: Node): State {
    s.(nodes := s.nodes[p := n])
  }

  predicate CanEnter(s: State, p: Path) {
    && p.Kid? && p in s.nodes && s.nodes[p].sched == Schedulable
    && p.parent in s.nodes && s.nodes[p.parent].isGroup
  }

  /** A schedulable node becomes scheduled and joins the end of its parent's queue. */
  function EnterQueue(s: State, p: Path): State
    requires CanEnter(s, p)
  {
    var g := s.nodes[p.parent];
    Put(Put(s, p, s.nodes[p].(sched := Scheduled)), p.parent, g.(queue := g.queue + [p.key]))
  }

  /** `activate`: a schedulable node enters its parent's queue, which activates the parent. */
  function Activate(s: State, p: Path): (r: State)
    decreases p
  {
    if CanEnter(s, p) then Activate(EnterQueue(s, p), p.parent) else s
  }

  /** Equal up to the two fields that scheduling writes. */
  predicate SameCore(n: Node, m: Node) {
    m == n.(sched := m.sched, queue := m.queue)
  }

  /** Activation touches nothing but schedule status and queues. */
  lemma {:induction false} ActivateFrame(s: State, p: Path)
    ensures var r := Activate(s, p);
      && r.nodes.Keys == s.nodes.Keys && r.cur == s.cur && r.pc == s.pc && r.exits == s.exits
      && (forall q :: q in s.nodes ==> SameCore(s.nodes[q], r.nodes[q]))
    decreases p
  {
    if CanEnter(s, p) {
      var s1 := EnterQueue(s, p);
      ActivateFrame(s1, p.parent);
      var r := Activate(s1, p.parent);
      forall q | q in s.nodes ensures SameCore(s.nodes[q], r.nodes[q]) {
        assert SameCore(s1.nodes[q], r.nodes[q]);
      }
    }
  }

  /** Activation writes only at `p` and above it. */
  lemma {:induction false} ActivateLocal(s: State, p: Path, q: Path)
    requires q in s.nodes
    ensures q in Activate(s, p).nodes
    ensures !Anc(q, p) ==> Activate(s, p).nodes[q] == s.nodes[q]
    ensures s.nodes[q].sched == Scheduled ==> Activate(s, p).nodes[q].sched == Scheduled
    decreases p
  {
    if CanEnter(s, p) {
      ActivateLocal(EnterQueue(s, p), p.parent, q);
    }
  }

  lemma LiveKeysFrame(nodes: map<Path, Node>, nodes': map<Path, Node>, p: Path)
    requires p in nodes && nodes.Keys == nodes'.Keys && nodes[p].children == nodes'[p].children
    ensures LiveKeys(nodes, p) == LiveKeys(nodes', p)
  {
  }

  lemma EnterQueueNode(s: State, p: Path, q: Path, W: set<Path>, K: set<Path>, Z: set<Path>)
    requires TreeInv(s, W, K, Z) && CanEnter(s, p) && q in s.nodes
    ensures q in EnterQueue(s, p).nodes
    ensures NodeOk(EnterQueue(s, p), q, (W - {p}) + {p.parent}, K, Z)
  {
    var r := EnterQueue(s, p);
    assert NodeOk(s, q, W, K, Z) && NodeOk(s, p, W, K, Z);
    if q.Kid? { EnterQueueLink(s, p, q, K, Z); }
    LiveKeysFrame(s.nodes, r.nodes, q);
  }

  lemma EnterQueueLink(s: State, p: Path, q: Path, K: set<Path>, Z: set<Path>)
    requires CanEnter(s, p) && q.Kid? && q in s.nodes && LinkOk(s, q, K, Z) && !Anc(p, s.cur)
    ensures q in EnterQueue(s, p).nodes && LinkOk(EnterQueue(s, p), q, K, Z)
  {
    AncParent(p);
  }

  lemma {:induction false} ActivateOk(s: State, p: Path, W: set<Path>, K: set<Path>, Z: set<Path>)
    requires TreeInv(s, W, K, Z) && p in s.nodes
    ensures TreeInv(Activate(s, p), W - {p}, K, Z)
    ensures p in Activate(s, p).nodes && Activate(s, p).nodes[p].sched == Scheduled
    decreases p
  {
    assert NodeOk(s, p, W, K, Z);
    if CanEnter(s, p) {
      var s1, W1 := EnterQueue(s, p), (W - {p}) + {p.parent};
      forall q | q in s1.nodes ensures NodeOk(s1, q, W1, K, Z) {
        EnterQueueNode(s, p, q, W, K, Z);
      }
      ActivateOk(s1, p.parent, W1, K, Z);
      ActivateLocal(s1, p.parent, p);
      Weaken(Activate(s1, p.parent), W1 - {p.parent}, W - {p}, K, Z);
    } else {
      forall q | q in s.nodes ensures NodeOk(s, q, W - {p}, K, Z) {
        assert NodeOk(s, q, W, K, Z);
      }
    }
  }

  /** More exemptions make a weaker invariant. */
  lemma Weaken(s: State, W: set<Path>, W': set<Path>, K: set<Path>, Z: set<Path>)
    requires TreeInv(s, W, K, Z) && W <= W'
    ensures TreeInv(s, W', K, Z)
  {
    forall q | q in s.nodes ensures NodeOk(s, q, W', K, Z) {
      assert NodeOk(s, q, W, K, Z);
    }
  }

  // ----- Updates that stay inside one node -----

  /** The links between `p` and its neighbours read the same before and after. */
  predicate SameLinks(n: Node, m: Node) {
    && m.isGroup == n.isGroup && m.sched == n.sched
    && m.children == n.children && m.managed == n.managed && m.queue == n.queue
  }

  lemma PutOk(s: State, p: Path, m: Node, W: set<Path>, K: set<Path>, Z: set<Path>,
              W': set<Path>, K': set<Path>, Z': set<Path>)
    requires TreeInv(s, W, K, Z) && p in s.nodes && SameLinks(s.nodes[p], m)
    requires W <= W' && K <= K' && Z <= Z'
    requires p in W' || m.sched == Scheduled || Idle(m)
    requires !m.isGroup ==> LeafOk(m)
    requires m.stop == s.nodes[p].stop || p in Z' || p == Root
    requires p in K' || m.stop != Running || (HasStop(s.nodes[p].mailbox) ==> HasStop(m.mailbox))
    requires s.nodes[p].stop == Running && m.stop != Running ==>
               forall k :: Kid(p, k) in s.nodes && s.nodes[Kid(p, k)].stop == Running ==> Kid(p, k) in K'
    requires s.nodes[p].stop != Running ==> m.stop != Running
    ensures TreeInv(Put(s, p, m), W', K', Z')
  {
    var r := Put(s, p, m);
    forall q | q in r.nodes ensures NodeOk(r, q, W', K', Z') {
      assert NodeOk(s, q, W, K, Z);
      LiveKeysFrame(s.nodes, r.nodes, q);
      if q.Kid? && q.parent == p { assert q == Kid(p, q.key); }
    }
  }

  /** `activate` after an update, in one step. */
  lemma PutActivateOk(s: State, p: Path, m: Node)
    requires TreeInv(s, {}, {}, {}) && p in s.nodes && SameLinks(s.nodes[p], m)
    requires !m.isGroup ==> LeafOk(m)
    requires m.stop == s.nodes[p].stop
    requires HasStop(s.nodes[p].mailbox) ==> HasStop(m.mailbox)
    ensures TreeInv(Activate(Put(s, p, m), p), {}, {}, {})
  {
    PutOk(s, p, m, {}, {}, {}, {p}, {}, {});
    ActivateOk(Put(s, p, m), p, {p}, {}, {});
    assert {p} - {p} == {};
  }

  // ----- Mailboxes -----

  /** `enque_message` for user messages, `enque_urgent_message` for the rest. */
  function Mailed(n: Node, m: Msg): Node {
    if m.User? then n.(mailbox := n.mailbox + [m], arrived := n.arrived + [m.id])
    else n.(mailbox := [m] + n.mailbox)
  }

  function Enqueue(s: State, p: Path, m: Msg): State
    requires p in s.nodes
  {
    Activate(Put(s, p, Mailed(s.nodes[p], m)), p)
  }

  lemma {:induction false} UsersAppend(a: seq<Msg>, b: seq<Msg>)
    ensures Users(a + b) == Users(a) + Users(b)
  {
    if a == [] {
      assert a + b == b;
    } else {
      UsersAppend(a[1..], b);
      assert (a + b)[1..] == a[1..] + b;
      var head, rest := if a[0].User? then [a[0].id] else [], Users(a[1..]);
      assert Users(a + b) == head + (rest + Users(b));
      assert head + (rest + Users(b)) == head + rest + Users(b);
    }
  }

  lemma MailedOk(n: Node, m: Msg)
    requires LeafOk(n)
    ensures LeafOk(Mailed(n, m))
  {
    if m.User? {
      UsersAppend(n.mailbox, [m]);
    } else {
      UsersAppend([m], n.mailbox);
    }
    assert Users([m]) == if m.User? then [m.id] else [];
  }

  lemma MailedKeepsStop(n: Node, m: Msg)
    ensures HasStop(n.mailbox) || m.Stop? ==> HasStop(Mailed(n, m).mailbox)
  {
    var r := Mailed(n, m).mailbox;
    if m.Stop? {
      assert r[0].Stop?;
    } else if HasStop(n.mailbox) {
      var i :| 0 <= i < |n.mailbox| && n.mailbox[i].Stop?;
      assert r[i].Stop?;
    }
  }

  lemma EnqueueOk(s: State, p: Path, m: Msg)
    requires TreeInv(s, {}, {}, {}) && p in s.nodes
    ensures TreeInv(Enqueue(s, p, m), {}, {}, {})
  {
    assert NodeOk(s, p, {}, {}, {});
    if !s.nodes[p].isGroup { MailedOk(s.nodes[p], m); }
    MailedKeepsStop(s.nodes[p], m);
    PutActivateOk(s, p, Mailed(s.nodes[p], m));
  }

  // ----- Routing and creation -----

  datatype Where = At(p: Path) | Nowhere

  /** A new child in the instance map, counted and schedulable. */
  function CreateBase(s: State, q: Path, cap: nat): State
    requires q.Kid? && q.parent in s.nodes
  {
    var g := s.nodes[q.parent];
    var n := NewNode(IsGroupType(q.key), cap).(sched := Schedulable);
    Put(Put(s, q.parent, g.(children := g.children[q.key := true], managed := g.managed + 1)), q, n)
  }

  function Create(s: State, q: Path, cap: nat): State
    requires q.Kid? && q.parent in s.nodes
  {
    Activate(CreateBase(s, q, cap), q)
  }

  /** One layer of `receive` / `get_actor_local`: look `q.key` up in the group above. */
  function Descend(s: State, q: Path, cap: nat): (State, Where)
    requires q.Kid? && q.parent in s.nodes
  {
    var g := s.nodes[q.parent];
    if q.key in g.children then (s, if g.children[q.key] then At(q) else Nowhere)
    else if q.parent == Root && g.stop != Running then (s, Nowhere)
    else (Create(s, q, cap), At(q))
  }

  /**
   The node a message for `dest` reaches, creating missing layers on the way.  A plain actor in
   the middle of the address keeps the message.
   */
  function Route(s: State, dest: Path, cap: nat): (r: (State, Where))
    decreases dest
  {
    if dest.Root? then (s, At(Root))
    else
      var (s1, w) := Route(s, dest.parent, cap);
      if w == At(dest.parent) && dest.parent in s1.nodes && s1.nodes[dest.parent].isGroup
      then Descend(s1, dest, cap)
      else (s1, w)
  }

  /** `receive` for a message to an actor; a disabled target leaves the tree alone. */
  function Deliver(s: State, dest: Path, m: Msg, cap: nat): State {
    var (s1, w) := Route(s, dest, cap);
    if w.At? && w.p in s1.nodes then Enqueue(s1, w.p, m) else s1
  }

  /** Every ancestor of a live node is live. */
  lemma {:induction false} AncLive(s: State, p: Path, q: Path)
    requires TreeInv(s, {}, {}, {}) && q in s.nodes && Anc(p, q)
    ensures p in s.nodes
    decreases q
  {
    assert NodeOk(s, q, {}, {}, {});
    if p != q { AncLive(s, p, q.parent); }
  }

  predicate Creatable(s: State, q: Path) {
    && q.Kid? && q !in s.nodes && q.parent in s.nodes && s.nodes[q.parent].isGroup
    && q.key !in s.nodes[q.parent].children && s.nodes[q.parent].stop == Running
  }

  lemma CreateSelf(s: State, q: Path, cap: nat)
    requires TreeInv(s, {}, {}, {}) && Creatable(s, q)
    ensures NodeOk(CreateBase(s, q, cap), q, {q}, {}, {})
  {
    var r := CreateBase(s, q, cap);
    assert NodeOk(s, q.parent, {}, {}, {});
    assert q.key !in s.nodes[q.parent].queue by { assert q == Kid(q.parent, q.key); }
    assert !Anc(q, s.cur) by { if Anc(q, s.cur) { AncLive(s, q, s.cur); } }
    assert LiveKeys(r.nodes, q) == {};
  }

  lemma CreateParent(s: State, q: Path, cap: nat)
    requires TreeInv(s, {}, {}, {}) && Creatable(s, q)
    ensures NodeOk(CreateBase(s, q, cap), q.parent, {q}, {}, {})
  {
    var r, p := CreateBase(s, q, cap), q.parent;
    assert NodeOk(s, p, {}, {}, {});
    assert p != q;
    assert LiveKeys(r.nodes, p) == LiveKeys(s.nodes, p) + {q.key};
  }

  lemma CreateOther(s: State, q: Path, cap: nat, x: Path)
    requires TreeInv(s, {}, {}, {}) && Creatable(s, q) && x in s.nodes && x != q.parent
    ensures NodeOk(CreateBase(s, q, cap), x, {q}, {}, {})
  {
    var r := CreateBase(s, q, cap);
    assert NodeOk(s, x, {}, {}, {});
    assert LiveKeys(r.nodes, x) == LiveKeys(s.nodes, x);
  }

  lemma CreateOk(s: State, q: Path, cap: nat)
    requires TreeInv(s, {}, {}, {}) && Creatable(s, q)
    ensures TreeInv(Create(s, q, cap), {}, {}, {}) && q in Create(s, q, cap).nodes
  {
    var r := CreateBase(s, q, cap);
    forall x | x in r.nodes ensures NodeOk(r, x, {q}, {}, {}) {
      if x == q { CreateSelf(s, q, cap); }
      else if x == q.parent { CreateParent(s, q, cap); }
      else { CreateOther(s, q, cap, x); }
    }
    ActivateOk(r, q, {q}, {}, {});
    assert {q} - {q} == {};
  }

  // ----- Sealed addresses -----

  predicate Tombstoned(s: State, q: Path) {
    && q.Kid? && q.parent in s.nodes
    && q.key in s.nodes[q.parent].children && !s.nodes[q.parent].children[q.key]
  }

  /** The address, or one above it, is disabled: no message can be routed there. */
  predicate Sealed(s: State, q: Path)
    decreases q
  {
    q.Kid? && (Tombstoned(s, q) || Sealed(s, q.parent))
  }

  /** What every step guarantees about sealed addresses. */
  ghost predicate SealStep(s: State, s': State) {
    && (forall q, k :: q in s.nodes && q in s'.nodes && k in s.nodes[q].children ==>
          k in s'.nodes[q].children && (s'.nodes[q].children[k] ==> s.nodes[q].children[k]))
    && (forall q :: q in s.nodes && q !in s'.nodes ==> Sealed(s', q))
    && (forall q :: q in s'.nodes && q !in s.nodes ==> !Sealed(s, q))
    && (forall q :: q in s.nodes && q in s'.nodes && Sealed(s, q) ==>
          s'.nodes[q].arrived == s.nodes[q].arrived)
  }

  lemma {:induction false} SealedForever(s: State, s': State, q: Path)
    requires SealStep(s, s') && Sealed(s, q)
    ensures Sealed(s', q)
    decreases q
  {
    if Tombstoned(s, q) {
      if q.parent in s'.nodes { assert Tombstoned(s', q); }
    } else {
      SealedForever(s, s', q.parent);
    }
  }

  lemma SealStepTrans(s: State, s1: State, s2: State)
    requires SealStep(s, s1) && SealStep(s1, s2)
    ensures SealStep(s, s2)
  {
    forall q | q in s.nodes && q in s2.nodes ensures q in s1.nodes {
      assert Sealed(s1, q) || q in s1.nodes;
    }
    forall q | q in s.nodes && q !in s2.nodes ensures Sealed(s2, q) {
      if q !in s1.nodes { SealedForever(s1, s2, q); }
    }
    forall q | q in s2.nodes && q !in s.nodes ensures !Sealed(s, q) {
      if Sealed(s, q) { SealedForever(s, s1, q); }
    }
    forall q | q in s.nodes && q in s2.nodes && Sealed(s, q)
      ensures s2.nodes[q].arrived == s.nodes[q].arrived
    {
      SealedForever(s, s1, q);
    }
  }

  /** A step that keeps the key set, the histories and every map entry except new tombstones. */
  ghost predicate Still(s: State, s': State) {
    && s'.nodes.Keys == s.nodes.Keys
    && (forall q :: q in s.nodes ==>
          s'.nodes[q].arrived == s.nodes[q].arrived && s'.nodes[q].children == s.nodes[q].children)
  }

  lemma StillSeals(s: State, s': State)
    requires Still(s, s')
    ensures SealStep(s, s')
  {
  }

  lemma ActivateStill(s: State, p: Path)
    ensures Still(s, Activate(s, p))
  {
    ActivateFrame(s, p);
    forall q | q in s.nodes
      ensures Activate(s, p).nodes[q].arrived == s.nodes[q].arrived
      ensures Activate(s, p).nodes[q].children == s.nodes[q].children
    {
      assert SameCore(s.nodes[q], Activate(s, p).nodes[q]);
    }
  }

  // ----- Stopping -----

  /**
   What one `stop` call leaves open: the iteration order of the child map, the chains that the
   cancelled tasks finish, and what those tasks mail to the still reachable actor.
   */
  datatype StopArg = StopArg(order: seq<Key>, finished: set<nat>, late: seq<Msg>)

  ghost predicate ValidArg(s: State, p: Path, force: bool, arg: StopArg)
    requires p in s.nodes
  {
    var n := s.nodes[p];
    && NoDup(arg.order)
    && (forall k :: k in arg.order <==> k in n.children && n.children[k])
    && arg.finished <= n.chains && StopsFirst(arg.late)
    && (!force || n.tasks == [] ==> arg.finished == {} && arg.late == [])
    && (s.cur == p && s.pc.LTask? ==> s.pc.chain !in arg.finished)
  }

  /** `stop_all_children`: an urgent stop message to every child in the map. */
  function StopKids(s: State, p: Path, keys: seq<Key>, force: bool): State
    decreases |keys|
  {
    if keys == [] then s
    else
      var q := Kid(p, keys[0]);
      StopKids(if q in s.nodes then Enqueue(s, q, Stop(force)) else s, p, keys[1..], force)
  }

  function StatusFor(force: bool): Status {
    if force then ForceStopping else PeaceStopping
  }

  /** `actor::stop` up to the activation: a forced stop empties the mailbox and drops queued tasks. */
  function StoppedLeaf(n: Node, force: bool, arg: StopArg): Node {
    if force then
      n.(stop := ForceStopping, mailbox := arg.late, tasks := [], chains := n.chains - arg.finished,
         inflight := if n.inflight >= |arg.finished| then n.inflight - |arg.finished| else 0)
    else n.(stop := PeaceStopping)
  }

  function StopLeaf(s: State, p: Path, force: bool, arg: StopArg): State
    requires p in s.nodes
  {
    var n := StoppedLeaf(s.nodes[p], force, arg);
    if n.inflight == 0 then Activate(Put(s, p, n), p) else Put(s, p, n)
  }

  function CleanMailbox(s: State, p: Path): State
    requires p in s.nodes
  {
    Put(s, p, s.nodes[p].(mailbox := []))
  }

  /** `actor_group::stop`. */
  function StopGroup(s: State, p: Path, force: bool, arg: StopArg): State
    requires p in s.nodes
  {
    var s1 := StopKids(Put(s, p, s.nodes[p].(stop := StatusFor(force))), p, arg.order, force);
    var s2 := if force && p in s1.nodes then CleanMailbox(s1, p) else s1;
    if s.nodes[p].managed == 0 then Activate(s2, p) else s2
  }

  function Tombstone(s: State, p: Path): State
    requires p.Kid?
  {
    if p.parent in s.nodes then
      var g := s.nodes[p.parent];
      Put(s, p.parent, g.(children := g.children[p.key := false]))
    else s
  }

  /** The stop of a node still in its parent's map, followed by the tombstone. */
  function StopNode(s: State, p: Path, force: bool, arg: StopArg): State
    requires p.Kid? && p in s.nodes
  {
    Tombstone(if s.nodes[p].isGroup then StopGroup(s, p, force, arg) else StopLeaf(s, p, force, arg), p)
  }

  /** `stop_child_actor`, which a node calls on its own parent: a no-op on a null entry. */
  function StopChild(s: State, p: Path, force: bool, arg: StopArg): State
    requires p.Kid? && p in s.nodes
  {
    if Tombstoned(s, p) then s else StopNode(s, p, force, arg)
  }

  // -- the tree invariant across a stop

  lemma WeakenAll(s: State, W: set<Path>, K: set<Path>, Z: set<Path>, W': set<Path>, K': set<Path>, Z': set<Path>)
    requires TreeInv(s, W, K, Z) && W <= W' && K <= K' && Z <= Z'
    ensures TreeInv(s, W', K', Z')
  {
    forall q | q in s.nodes ensures NodeOk(s, q, W', K', Z') {
      assert NodeOk(s, q, W, K, Z);
    }
  }

  lemma StopMailOk(s: State, q: Path, force: bool, W: set<Path>, K: set<Path>, Z: set<Path>)
    requires TreeInv(s, W, K, Z) && q in s.nodes
    ensures TreeInv(Enqueue(s, q, Stop(force)), W, K - {q}, Z)
  {
    var n := Mailed(s.nodes[q], Stop(force));
    assert NodeOk(s, q, W, K, Z);
    if !s.nodes[q].isGroup { MailedOk(s.nodes[q], Stop(force)); }
    MailedKeepsStop(s.nodes[q], Stop(force));
    PutOk(s, q, n, W, K, Z, W + {q}, K, Z);
    var s1 := Put(s, q, n);
    forall x | x in s1.nodes ensures NodeOk(s1, x, W + {q}, K - {q}, Z) {
      assert NodeOk(s1, x, W + {q}, K, Z);
    }
    ActivateOk(s1, q, W + {q}, K - {q}, Z);
    WeakenAll(Activate(s1, q), W + {q} - {q}, K - {q}, Z, W, K - {q}, Z);
  }

  /** Equal up to scheduling and mailbox. */
  predicate SameButMail(n: Node, m: Node) {
    m == n.(sched := m.sched, queue := m.queue, mailbox := m.mailbox)
  }

  /** Fields that stop messages to other nodes cannot change. */
  ghost predicate OnlyMail(s: State, s': State) {
    && s'.nodes.Keys == s.nodes.Keys && s'.cur == s.cur && s'.pc == s.pc && s'.exits == s.exits
    && (forall q :: q in s.nodes ==> SameButMail(s.nodes[q], s'.nodes[q]))
  }

  lemma ActivateOnlyMail(s: State, p: Path)
    ensures OnlyMail(s, Activate(s, p))
  {
    ActivateFrame(s, p);
    forall q | q in s.nodes ensures SameButMail(s.nodes[q], Activate(s, p).nodes[q]) {
      assert SameCore(s.nodes[q], Activate(s, p).nodes[q]);
    }
  }

  lemma OnlyMailTrans(s: State, s1: State, s2: State)
    requires OnlyMail(s, s1) && OnlyMail(s1, s2)
    ensures OnlyMail(s, s2)
  {
    forall q | q in s.nodes ensures SameButMail(s.nodes[q], s2.nodes[q]) {
      assert SameButMail(s.nodes[q], s1.nodes[q]) && SameButMail(s1.nodes[q], s2.nodes[q]);
    }
  }

  lemma StopMailFrame(s: State, q: Path, force: bool)
    requires q in s.nodes
    ensures OnlyMail(s, Enqueue(s, q, Stop(force)))
    ensures forall x :: x in s.nodes && x != q ==>
              Enqueue(s, q, Stop(force)).nodes[x].mailbox == s.nodes[x].mailbox
  {
    var s1 := Put(s, q, Mailed(s.nodes[q], Stop(force)));
    assert OnlyMail(s, s1);
    ActivateOnlyMail(s1, q);
    OnlyMailTrans(s, s1, Activate(s1, q));
    ActivateFrame(s1, q);
    forall x | x in s.nodes && x != q ensures Activate(s1, q).nodes[x].mailbox == s.nodes[x].mailbox {
      assert SameCore(s1.nodes[x], Activate(s1, q).nodes[x]);
    }
  }

  lemma {:induction false} StopKidsFrame(s: State, p: Path, keys: seq<Key>, force: bool)
    ensures OnlyMail(s, StopKids(s, p, keys, force))
    ensures p in s.nodes ==> StopKids(s, p, keys, force).nodes[p].mailbox == s.nodes[p].mailbox
    decreases |keys|
  {
    if keys != [] {
      var q := Kid(p, keys[0]);
      if q in s.nodes {
        var s1 := Enqueue(s, q, Stop(force));
        StopMailFrame(s, q, force);
        StopKidsFrame(s1, p, keys[1..], force);
        OnlyMailTrans(s, s1, StopKids(s, p, keys, force));
      } else {
        StopKidsFrame(s, p, keys[1..], force);
      }
    }
  }

  ghost function KidsOf(p: Path, keys: seq<Key>): set<Path> {
    set k | k in keys :: Kid(p, k)
  }

  lemma {:induction false} StopKidsOk(s: State, p: Path, keys: seq<Key>, force: bool,
                                      W: set<Path>, K: set<Path>, Z: set<Path>)
    requires TreeInv(s, W, K, Z)
    requires forall k :: k in keys ==> Kid(p, k) in s.nodes
    ensures TreeInv(StopKids(s, p, keys, force), W, K - KidsOf(p, keys), Z)
    decreases |keys|
  {
    if keys == [] {
      assert K - KidsOf(p, keys) == K;
    } else {
      var q := Kid(p, keys[0]);
      assert keys[0] in keys;
      StopMailOk(s, q, force, W, K, Z);
      var s1 := Enqueue(s, q, Stop(force));
      ActivateFrame(Put(s, q, Mailed(s.nodes[q], Stop(force))), q);
      StopKidsOk(s1, p, keys[1..], force, W, K - {q}, Z);
      assert K - {q} - KidsOf(p, keys[1..]) == K - KidsOf(p, keys) by {
        assert KidsOf(p, keys) == {q} + KidsOf(p, keys[1..]) by {
          forall k | k in keys ensures k == keys[0] || k in keys[1..] { }
        }
      }
    }
  }

  /** What a stop of `p` can change in the node at `q`. */
  predicate StopFrameNode(n: Node, m: Node, p: Path, q: Path)
    requires p.Kid?
  {
    && m.isGroup == n.isGroup && m.managed == n.managed && m.cap == n.cap
    && m.arrived == n.arrived && m.started == n.started
    && (q != p ==> m.stop == n.stop && m.tasks == n.tasks && m.chains == n.chains && m.inflight == n.inflight)
    && m.children == if q == p.parent then n.children[p.key := false] else n.children
  }

  ghost predicate StopFrame(s: State, s': State, p: Path, force: bool)
    requires p in s.nodes && p.Kid?
  {
    && s'.nodes.Keys == s.nodes.Keys && s'.cur == s.cur && s'.pc == s.pc && s'.exits == s.exits
    && (forall q :: q in s.nodes ==> StopFrameNode(s.nodes[q], s'.nodes[q], p, q))
    && s'.nodes[p].stop == StatusFor(force)
    && s'.nodes[p].inflight <= s.nodes[p].inflight
  }

  /** A stopped node, scheduling and stop mail aside, and then the tombstone. */
  lemma StopFrameFrom(s: State, n: Node, r: State, p: Path, force: bool)
    requires p.Kid? && p in s.nodes && p.parent in s.nodes && OnlyMail(Put(s, p, n), r)
    requires n.isGroup == s.nodes[p].isGroup && n.managed == s.nodes[p].managed && n.cap == s.nodes[p].cap
    requires n.arrived == s.nodes[p].arrived && n.started == s.nodes[p].started
    requires n.children == s.nodes[p].children && n.stop == StatusFor(force)
    requires n.inflight <= s.nodes[p].inflight
    ensures StopFrame(s, Tombstone(r, p), p, force)
  {
    var s0, t := Put(s, p, n), Tombstone(r, p);
    forall q | q in s.nodes ensures StopFrameNode(s.nodes[q], t.nodes[q], p, q) {
      assert SameButMail(s0.nodes[q], r.nodes[q]);
    }
    assert SameButMail(s0.nodes[p], r.nodes[p]);
  }

  lemma TombOk(s: State, p: Path, W: set<Path>, K: set<Path>, Z: set<Path>)
    requires TreeInv(s, W, K, Z) && p.Kid? && p in s.nodes && s.nodes[p].stop != Running
    ensures TreeInv(Tombstone(s, p), W, K, Z - {p})
  {
    var r := Tombstone(s, p);
    assert NodeOk(s, p, W, K, Z);
    forall q | q in r.nodes ensures NodeOk(r, q, W, K, Z - {p}) {
      assert NodeOk(s, q, W, K, Z);
      assert LiveKeys(r.nodes, q) == LiveKeys(s.nodes, q);
    }
  }

  lemma StoppedLeafOk(n: Node, force: bool, arg: StopArg)
    requires LeafOk(n) && n.stop == Running && arg.finished <= n.chains
    ensures LeafOk(StoppedLeaf(n, force, arg))
    ensures StoppedLeaf(n, force, arg).inflight <= n.inflight
  {
    SubsetSize(arg.finished, n.chains);
  }

  lemma SubsetSize<T>(a: set<T>, b: set<T>)
    requires a <= b
    ensures |a| <= |b| && |b - a| == |b| - |a|
  {
    assert b == a + (b - a);
  }

  lemma StopLeafFrame(s: State, p: Path, force: bool, arg: StopArg)
    requires p.Kid? && p in s.nodes && p.parent in s.nodes && ValidArg(s, p, force, arg)
    requires LeafOk(s.nodes[p]) && s.nodes[p].stop == Running
    ensures StopFrame(s, Tombstone(StopLeaf(s, p, force, arg), p), p, force)
    ensures StopLeaf(s, p, force, arg).nodes.Keys == s.nodes.Keys
    ensures StopLeaf(s, p, force, arg).nodes[p].stop == StatusFor(force)
  {
    var n := StoppedLeaf(s.nodes[p], force, arg);
    StoppedLeafOk(s.nodes[p], force, arg);
    var s1 := Put(s, p, n);
    var r := StopLeaf(s, p, force, arg);
    assert OnlyMail(s1, r) by { ActivateOnlyMail(s1, p); }
    StopFrameFrom(s, n, r, p, force);
    assert SameButMail(s1.nodes[p], r.nodes[p]);
  }

  lemma NoKids(s: State, p: Path, W: set<Path>, K: set<Path>, Z: set<Path>)
    requires TreeInv(s, W, K, Z) && p in s.nodes && !s.nodes[p].isGroup
    ensures forall k :: Kid(p, k) !in s.nodes
  {
    forall k ensures Kid(p, k) !in s.nodes {
      assert Kid(p, k) in s.nodes ==> NodeOk(s, Kid(p, k), W, K, Z);
    }
  }

  lemma StopLeafOk(s: State, p: Path, force: bool, arg: StopArg, K: set<Path>, Z: set<Path>)
    requires TreeInv(s, {}, K, Z) && p.Kid? && p in s.nodes && !s.nodes[p].isGroup
    requires s.nodes[p].stop == Running && ValidArg(s, p, force, arg)
    ensures TreeInv(StopLeaf(s, p, force, arg), {}, K - {p}, Z + {p})
    ensures StopFrame(s, Tombstone(StopLeaf(s, p, force, arg), p), p, force)
    ensures StopLeaf(s, p, force, arg).nodes.Keys == s.nodes.Keys
    ensures StopLeaf(s, p, force, arg).nodes[p].stop == StatusFor(force)
  {
    assert NodeOk(s, p, {}, K, Z);
    StopLeafFrame(s, p, force, arg);
    var n := StoppedLeaf(s.nodes[p], force, arg);
    StoppedLeafOk(s.nodes[p], force, arg);
    NoKids(s, p, {}, K, Z);
    if n.inflight == 0 {
      PutOk(s, p, n, {}, K, Z, {p}, K, Z + {p});
      ActivateOk(Put(s, p, n), p, {p}, K, Z + {p});
      assert {p} - {p} == {};
    } else {
      PutOk(s, p, n, {}, K, Z, {}, K, Z + {p});
    }
    DropStopped(StopLeaf(s, p, force, arg), p, K, Z + {p});
  }

  lemma DropStopped(s: State, p: Path, K: set<Path>, Z: set<Path>)
    requires TreeInv(s, {}, K, Z) && p in s.nodes && s.nodes[p].stop != Running
    ensures TreeInv(s, {}, K - {p}, Z)
  {
    forall q | q in s.nodes ensures NodeOk(s, q, {}, K - {p}, Z) {
      assert NodeOk(s, q, {}, K, Z);
    }
  }

  lemma CleanOnlyMail(s: State, p: Path)
    requires p in s.nodes
    ensures OnlyMail(s, s) && OnlyMail(s, CleanMailbox(s, p))
  {
  }

  lemma StopGroupOnlyMail(s: State, p: Path, force: bool, arg: StopArg)
    requires p in s.nodes
    ensures OnlyMail(Put(s, p, s.nodes[p].(stop := StatusFor(force))), StopGroup(s, p, force, arg))
  {
    var s0 := Put(s, p, s.nodes[p].(stop := StatusFor(force)));
    var s1 := StopKids(s0, p, arg.order, force);
    StopKidsFrame(s0, p, arg.order, force);
    CleanOnlyMail(s1, p);
    var s2 := if force then CleanMailbox(s1, p) else s1;
    OnlyMailTrans(s0, s1, s2);
    ActivateOnlyMail(s2, p);
    OnlyMailTrans(s0, s2, Activate(s2, p));
  }

  lemma StopGroupFrame(s: State, p: Path, force: bool, arg: StopArg)
    requires p.Kid? && p in s.nodes && p.parent in s.nodes
    ensures StopFrame(s, Tombstone(StopGroup(s, p, force, arg), p), p, force)
    ensures StopGroup(s, p, force, arg).nodes.Keys == s.nodes.Keys
    ensures StopGroup(s, p, force, arg).nodes[p].stop == StatusFor(force)
  {
    var n := s.nodes[p].(stop := StatusFor(force));
    var r := StopGroup(s, p, force, arg);
    StopGroupOnlyMail(s, p, force, arg);
    StopFrameFrom(s, n, r, p, force);
    assert SameButMail(Put(s, p, n).nodes[p], r.nodes[p]);
  }

  lemma StopGroupOk(s: State, p: Path, force: bool, arg: StopArg, K: set<Path>, Z: set<Path>)
    requires TreeInv(s, {}, K, Z) && p.Kid? && p in s.nodes && s.nodes[p].isGroup
    requires s.nodes[p].stop == Running && ValidArg(s, p, force, arg)
    requires forall k :: Kid(p, k) in s.nodes ==> Kid(p, k) !in Z
    ensures TreeInv(StopGroup(s, p, force, arg), {}, K - {p}, Z + {p})
  {
    var n := s.nodes[p].(stop := StatusFor(force));
    assert NodeOk(s, p, {}, K, Z);
    var W, K1, Z1 := if n.managed == 0 then {p} else {}, K + KidsOf(p, arg.order), Z + {p};
    forall k | Kid(p, k) in s.nodes && s.nodes[Kid(p, k)].stop == Running ensures Kid(p, k) in K1 {
      assert NodeOk(s, Kid(p, k), {}, K, Z);
    }
    var s0 := Put(s, p, n);
    PutOk(s, p, n, {}, K, Z, W, K1, Z1);
    StopKidsOk(s0, p, arg.order, force, W, K1, Z1);
    StopKidsFrame(s0, p, arg.order, force);
    var s1 := StopKids(s0, p, arg.order, force);
    WeakenAll(s1, W, K1 - KidsOf(p, arg.order), Z1, W, K, Z1);
    StopGroupEnd(s1, p, force, W, K, Z1);
    StopGroupFrame(s, p, force, arg);
    DropStopped(StopGroup(s, p, force, arg), p, K, Z1);
  }

  /** The end of `actor_group::stop`: drop the mailbox, then wake unless children remain. */
  lemma StopGroupEnd(s1: State, p: Path, force: bool, W: set<Path>, K: set<Path>, Z: set<Path>)
    requires TreeInv(s1, W, K, Z) && p in s1.nodes && s1.nodes[p].isGroup && s1.nodes[p].stop != Running
    requires W == if s1.nodes[p].managed == 0 then {p} else {}
    ensures var s2 := if force then CleanMailbox(s1, p) else s1;
            TreeInv(if s1.nodes[p].managed == 0 then Activate(s2, p) else s2, {}, K, Z)
  {
    var s2 := if force then CleanMailbox(s1, p) else s1;
    assert NodeOk(s1, p, W, K, Z);
    if force { PutOk(s1, p, s1.nodes[p].(mailbox := []), W, K, Z, W, K, Z); }
    if s1.nodes[p].managed == 0 {
      ActivateOk(s2, p, W, K, Z);
      assert W - {p} == {};
    }
  }

  lemma StopNodeOk(s: State, p: Path, force: bool, arg: StopArg, K: set<Path>)
    requires TreeInv(s, {}, K, {}) && p.Kid? && p in s.nodes
    requires s.nodes[p].stop == Running && ValidArg(s, p, force, arg)
    ensures TreeInv(StopNode(s, p, force, arg), {}, K - {p}, {})
    ensures StopFrame(s, StopNode(s, p, force, arg), p, force)
  {
    assert NodeOk(s, p, {}, K, {});
    var none: set<Path> := {};
    assert {p} - {p} == none && none + {p} == {p};
    if s.nodes[p].isGroup {
      StopGroupFrame(s, p, force, arg);
      StopGroupOk(s, p, force, arg, K, {});
      TombOk(StopGroup(s, p, force, arg), p, {}, K - {p}, {p});
    } else {
      StopLeafOk(s, p, force, arg, K, {});
      TombOk(StopLeaf(s, p, force, arg), p, {}, K - {p}, {p});
    }
  }

  lemma StopFrameSeals(s: State, s': State, p: Path, force: bool)
    requires p in s.nodes && p.Kid? && StopFrame(s, s', p, force)
    ensures SealStep(s, s')
  {
  }

  // -- the whole shard

  /** `stop_actor_system`, over the root children in map order. */
  function StopAll(s: State, force: bool, keys: seq<Key>, args: map<Key, StopArg>): State
    decreases |keys|
  {
    if keys == [] then s
    else
      var p := Kid(Root, keys[0]);
      var s1 := if p in s.nodes && keys[0] in args then StopNode(s, p, force, args[keys[0]]) else s;
      StopAll(s1, force, keys[1..], args)
  }

  function StopSystem(s: State, force: bool, keys: seq<Key>, args: map<Key, StopArg>): State
    requires Root in s.nodes
  {
    if s.nodes[Root].stop != Running then s
    else
      var s1 := Put(s, Root, s.nodes[Root].(stop := StatusFor(force)));
      var s2 := StopAll(s1, force, keys, args);
      if s.nodes[Root].managed == 0 then s2.(exits := s2.exits + 1) else s2
  }

  ghost predicate ValidSystemArgs(s: State, force: bool, keys: seq<Key>, args: map<Key, StopArg>)
    requires Root in s.nodes
  {
    && NoDup(keys)
    && (forall k :: k in keys <==> k in s.nodes[Root].children && s.nodes[Root].children[k])
    && (forall k :: k in keys ==> k in args && Kid(Root, k) in s.nodes && ValidArg(s, Kid(Root, k), force, args[k]))
  }

  // ----- Run slices -----

  function RemoveAt(q: seq<Key>, i: nat): (r: seq<Key>)
    requires i < |q|
  {
    q[..i] + q[i + 1..]
  }

  /** A group (or the reactor) takes the `i`-th queued child and runs it. */
  function Begin(s: State, i: nat): State
    requires s.cur in s.nodes && i < |s.nodes[s.cur].queue|
  {
    var g := s.nodes[s.cur];
    var q := Kid(s.cur, g.queue[i]);
    Put(s, s.cur, g.(queue := RemoveAt(g.queue, i)))
      .(cur := q, pc := if IsGroupType(g.queue[i]) then GMail else LTasks)
  }

  /** Back in the parent's loop, which goes on or gives up its slice; the reactor goes on. */
  function BackTo(p: Path, quit: bool): Pc {
    if p != Root && quit then GFinal else GTasks
  }

  /** `set_activatable` on the way out, with `activate` when work is left. */
  function Leave(s: State, again: bool, quit: bool): State
    requires s.cur.Kid? && s.cur in s.nodes
  {
    var q := s.cur;
    var s1 := Put(s, q, s.nodes[q].(sched := Schedulable)).(cur := q.parent, pc := BackTo(q.parent, quit));
    if again then Activate(s1, q) else s1
  }

  /** `notify_child_stopped` on the parent, then `delete this`. */
  function Delete(s: State, quit: bool): State
    requires s.cur.Kid? && s.cur.parent in s.nodes
  {
    var q, p := s.cur, s.cur.parent;
    var g := s.nodes[p];
    var left := if g.managed > 0 then g.managed - 1 else 0;
    s.(nodes := s.nodes[p := g.(managed := left)] - {q}, cur := p, pc := BackTo(p, quit),
       exits := if p == Root && left == 0 && g.stop != Running then s.exits + 1 else s.exits)
  }

  predicate Deletable(n: Node) {
    && n.stop != Running && n.mailbox == []
    && if n.isGroup then n.managed == 0 && n.queue == [] else n.inflight == 0
  }

  predicate MoreWork(n: Node) {
    if n.isGroup then n.mailbox != [] || n.queue != []
    else n.tasks != [] || (n.mailbox != [] && n.inflight < n.cap)
  }

  /** The common tail of both `run_and_dispose` bodies. */
  function Finish(s: State, quit: bool): State
    requires s.cur.Kid? && s.cur in s.nodes && s.cur.parent in s.nodes
  {
    var n := s.nodes[s.cur];
    if Deletable(n) then Delete(s, quit) else Leave(s, MoreWork(n), quit)
  }

  lemma RemoveAtOk(q: seq<Key>, i: nat)
    requires i < |q| && NoDup(q)
    ensures NoDup(RemoveAt(q, i))
    ensures forall k :: k in RemoveAt(q, i) <==> k in q && k != q[i]
  {
    var r := RemoveAt(q, i);
    forall k | k in q && k != q[i] ensures k in r {
      var j :| 0 <= j < |q| && q[j] == k;
      assert r[if j < i then j else j - 1] == k;
    }
  }

  lemma BeginOk(s: State, i: nat)
    requires TreeInv(s, {}, {}, {}) && s.nodes[s.cur].isGroup && i < |s.nodes[s.cur].queue|
    ensures TreeInv(Begin(s, i), {}, {}, {})
  {
    var r, p := Begin(s, i), s.cur;
    var g := s.nodes[p];
    var q := Kid(p, g.queue[i]);
    assert NodeOk(s, p, {}, {}, {});
    RemoveAtOk(g.queue, i);
    assert g.queue[i] in g.queue;
    assert NodeOk(s, q, {}, {}, {});
    forall x | x in r.nodes ensures NodeOk(r, x, {}, {}, {}) {
      assert NodeOk(s, x, {}, {}, {});
      LiveKeysFrame(s.nodes, r.nodes, x);
    }
  }

  lemma LeaveBase(s: State, quit: bool)
    requires TreeInv(s, {}, {}, {}) && s.cur.Kid?
    ensures TreeInv(Leave(s, false, quit), {s.cur}, {}, {})
  {
    var r, q := Leave(s, false, quit), s.cur;
    AncParent(q);
    assert NodeOk(s, q, {}, {}, {});
    forall x | x in r.nodes ensures NodeOk(r, x, {q}, {}, {}) {
      assert NodeOk(s, x, {}, {}, {});
      LiveKeysFrame(s.nodes, r.nodes, x);
    }
  }

  lemma LeaveOk(s: State, again: bool, quit: bool)
    requires TreeInv(s, {}, {}, {}) && s.cur.Kid?
    requires !again ==> Idle(s.nodes[s.cur])
    ensures TreeInv(Leave(s, again, quit), {}, {}, {})
  {
    LeaveBase(s, quit);
    var r, q := Leave(s, false, quit), s.cur;
    if again {
      ActivateOk(r, q, {q}, {}, {});
      assert {q} - {q} == {};
    } else {
      forall x | x in r.nodes ensures NodeOk(r, x, {}, {}, {}) {
        assert NodeOk(r, x, {q}, {}, {});
      }
    }
  }

  lemma DeleteOk(s: State, quit: bool)
    requires TreeInv(s, {}, {}, {}) && s.cur.Kid? && Deletable(s.nodes[s.cur])
    requires s.cur.parent in s.nodes
    ensures TreeInv(Delete(s, quit), {}, {}, {})
    ensures s.nodes[s.cur.parent].managed > 0
  {
    var r, q, p := Delete(s, quit), s.cur, s.cur.parent;
    AncParent(q);
    assert NodeOk(s, q, {}, {}, {}) && NodeOk(s, p, {}, {}, {});
    assert q.key in LiveKeys(s.nodes, p) by { assert q == Kid(p, q.key); }
    assert LiveKeys(r.nodes, p) == LiveKeys(s.nodes, p) - {q.key};
    forall x | x in r.nodes ensures NodeOk(r, x, {}, {}, {}) {
      DeleteOther(s, quit, x);
    }
  }

  lemma NoLiveKids(s: State, q: Path)
    requires TreeInv(s, {}, {}, {}) && q in s.nodes && Deletable(s.nodes[q])
    ensures forall x :: x in s.nodes && x.Kid? ==> x.parent != q
  {
    assert NodeOk(s, q, {}, {}, {});
    forall x | x in s.nodes && x.Kid? ensures x.parent != q {
      assert NodeOk(s, x, {}, {}, {});
      assert x == Kid(x.parent, x.key);
      assert x.key in LiveKeys(s.nodes, x.parent);
    }
  }

  lemma DeleteOther(s: State, quit: bool, x: Path)
    requires TreeInv(s, {}, {}, {}) && s.cur.Kid? && Deletable(s.nodes[s.cur])
    requires s.cur.parent in s.nodes && s.nodes[s.cur.parent].managed > 0
    requires s.nodes[s.cur.parent].managed - 1 == |LiveKeys(Delete(s, quit).nodes, s.cur.parent)|
    requires x in Delete(s, quit).nodes
    ensures NodeOk(Delete(s, quit), x, {}, {}, {})
  {
    var r, q, p := Delete(s, quit), s.cur, s.cur.parent;
    AncParent(q);
    assert NodeOk(s, x, {}, {}, {}) && NodeOk(s, q, {}, {}, {});
    NoLiveKids(s, q);
    if x != p { assert LiveKeys(r.nodes, x) == LiveKeys(s.nodes, x); }
    assert q == Kid(p, q.key);
  }

  // ----- The step relation -----

  /** How the synchronous part of `do_work` ended. */
  datatype Outcome = Done(stop: bool) | Suspended(chain: nat)

  /**
   One atomic step.  `quit` is the answer of `need_yield`; `arg` resolves a stop.
   - environment: Receive, Shutdown, Resume (also what running user code does meanwhile)
   - reactor and groups: Run, GroupMail, GroupMailEnd, GroupQueueEnd, GroupEnd
   - actors: Task, TaskEnd, TasksEnd, Mail, Work, MailEnd, ActorEnd
   */
  datatype Action =
    | Receive(dest: Path, m: Msg, cap: nat)
    | Shutdown(force: bool, keys: seq<Key>, args: map<Key, StopArg>)
    | Resume(p: Path, chain: nat, urgent: bool)
    | Run(i: nat)
    | GroupMail(arg: StopArg, quit: bool)
    | GroupMailEnd
    | GroupQueueEnd
    | GroupEnd(quit: bool)
    | Task
    | TaskEnd(finished: bool, stop: bool, arg: StopArg, quit: bool)
    | TasksEnd(quit: bool)
    | Mail(arg: StopArg, quit: bool)
    | Work(outcome: Outcome, arg: StopArg, quit: bool)
    | MailEnd
    | ActorEnd(quit: bool)

  /** A stop argument is only consulted when the entry is not a tombstone yet. */
  ghost predicate StopReady(s: State, force: bool, arg: StopArg)
    requires s.cur in s.nodes
  {
    !Tombstoned(s, s.cur) ==> ValidArg(s, s.cur, force, arg)
  }

  ghost predicate Enabled(s: State, a: Action) {
    && Root in s.nodes && s.cur in s.nodes
    && var n := s.nodes[s.cur];
    match a
    case Receive(dest, _, _) => dest.Kid?
    case Shutdown(force, keys, args) => ValidSystemArgs(s, force, keys, args)
    case Resume(p, chain, _) => p in s.nodes && !s.nodes[p].isGroup && chain in s.nodes[p].chains
    case Run(i) => s.pc.GTasks? && i < |n.queue|
    case GroupMail(arg, _) =>
      s.cur.Kid? && s.pc.GMail? && n.mailbox != [] &&
      (n.mailbox[0].Stop? ==> StopReady(s, n.mailbox[0].force, arg))
    case GroupMailEnd => s.pc.GMail? && n.mailbox == []
    case GroupQueueEnd => s.cur.Kid? && s.pc.GTasks? && n.queue == []
    case GroupEnd(_) => s.cur.Kid? && s.cur.parent in s.nodes && s.pc.GFinal?
    case Task => s.pc.LTasks? && n.tasks != []
    case TaskEnd(finished, stop, arg, _) =>
      s.cur.Kid? && s.pc.LTask? && (finished ==> s.pc.chain !in n.tasks) &&
      (finished && stop ==> s.pc.chain !in arg.finished && StopReady(s, true, arg))
    case TasksEnd(_) => s.cur.Kid? && s.pc.LTasks? && n.tasks == []
    case Mail(arg, _) =>
      s.cur.Kid? && s.pc.LMail? && n.mailbox != [] &&
      (n.mailbox[0].Stop? ==> StopReady(s, n.mailbox[0].force, arg))
    case Work(outcome, arg, _) =>
      s.cur.Kid? && s.pc.LWork? &&
      (match outcome
       case Done(stop) => stop ==> StopReady(s, true, arg)
       case Suspended(chain) => chain !in n.chains)
    case MailEnd => s.pc.LMail? && n.mailbox == []
    case ActorEnd(_) => s.cur.Kid? && s.cur.parent in s.nodes && s.pc.LFinal?
  }

  function PopMail(n: Node): Node
    requires n.mailbox != []
  {
    var m := n.mailbox[0];
    n.(mailbox := n.mailbox[1..], started := if m.User? then n.started + [m.id] else n.started)
  }

  function PopTask(n: Node): Node
    requires n.tasks != []
  {
    n.(tasks := n.tasks[1..])
  }

  function EndChain(n: Node, chain: nat): Node {
    n.(chains := n.chains - {chain}, inflight := if n.inflight > 0 then n.inflight - 1 else 0)
  }

  function AddTask(n: Node, chain: nat, urgent: bool): Node {
    n.(tasks := if urgent then [chain] + n.tasks else n.tasks + [chain])
  }

  function MaybeStop(s: State, stop: bool, force: bool, arg: StopArg): State
    requires s.cur.Kid? && s.cur in s.nodes
  {
    if stop then StopChild(s, s.cur, force, arg) else s
  }

  /** The state after an enabled step. */
  function Next(s: State, a: Action): State
    requires Enabled(s, a)
  {
    var n := s.nodes[s.cur];
    match a
    case Receive(dest, m, cap) => Deliver(s, dest, m, cap)
    case Shutdown(force, keys, args) => StopSystem(s, force, keys, args)
    case Resume(p, chain, urgent) => Activate(Put(s, p, AddTask(s.nodes[p], chain, urgent)), p)
    case Run(i) => Begin(s, i)
    case GroupMail(arg, quit) =>
      var m, s1 := n.mailbox[0], Put(s, s.cur, PopMail(n));
      MaybeStop(s1, m.Stop?, m.Stop? && m.force, arg).(pc := if quit then GFinal else GMail)
    case GroupMailEnd => s.(pc := GTasks)
    case GroupQueueEnd => s.(pc := GFinal)
    case GroupEnd(quit) => Finish(s, quit)
    case Task => Put(s, s.cur, PopTask(n)).(pc := LTask(n.tasks[0]))
    case TaskEnd(finished, stop, arg, quit) =>
      var s1 := if finished then Put(s, s.cur, EndChain(n, s.pc.chain)) else s;
      MaybeStop(s1, finished && stop, true, arg).(pc := if quit then LFinal else LTasks)
    case TasksEnd(quit) => if n.inflight == n.cap then Leave(s, false, quit) else s.(pc := LMail)
    case Mail(arg, quit) =>
      var m, s1 := n.mailbox[0], Put(s, s.cur, PopMail(n));
      if m.User? then s1.(pc := LWork(m.id))
      else MaybeStop(s1, true, m.force, arg).(pc := if quit then LFinal else LMail)
    case Work(outcome, arg, quit) =>
      (match outcome
       case Done(stop) => MaybeStop(s, stop, true, arg).(pc := if quit then LFinal else LMail)
       case Suspended(chain) =>
         Put(s, s.cur, SuspendNode(n, chain))
           .(pc := if quit || n.inflight + 1 == n.cap then LFinal else LMail))
    case MailEnd => s.(pc := LFinal)
    case ActorEnd(quit) => Finish(s, quit)
  }

  // ----- Every step keeps the invariant and the seals -----

  /** What routing may change in a node that already exists. */
  predicate RouteFrameNode(n: Node, m: Node) {
    m == n.(sched := m.sched, queue := m.queue, children := m.children, managed := m.managed)
  }

  ghost predicate RouteFrame(s: State, s': State) {
    && s'.cur == s.cur && s'.pc == s.pc && s'.exits == s.exits && s.nodes.Keys <= s'.nodes.Keys
    && (forall q :: q in s.nodes ==> RouteFrameNode(s.nodes[q], s'.nodes[q]))
  }

  lemma CreateFrame(s: State, q: Path, cap: nat)
    requires TreeInv(s, {}, {}, {}) && Creatable(s, q) && !Sealed(s, q)
    ensures RouteFrame(s, Create(s, q, cap)) && SealStep(s, Create(s, q, cap))
    ensures q in Create(s, q, cap).nodes
  {
    var s1, r := CreateBase(s, q, cap), Create(s, q, cap);
    ActivateFrame(s1, q);
    forall x | x in s.nodes ensures RouteFrameNode(s.nodes[x], r.nodes[x]) {
      assert SameCore(s1.nodes[x], r.nodes[x]);
    }
    CreateSeals(s, q, cap);
  }

  lemma CreateSeals(s: State, q: Path, cap: nat)
    requires Creatable(s, q) && !Sealed(s, q)
    ensures SealStep(s, Create(s, q, cap))
  {
    var s1, r := CreateBase(s, q, cap), Create(s, q, cap);
    ActivateStill(s1, q);
    StillSeals(s1, r);
    SealStepTrans(s, s1, r);
  }

  lemma RouteFrameTrans(s: State, s1: State, s2: State)
    requires RouteFrame(s, s1) && RouteFrame(s1, s2)
    ensures RouteFrame(s, s2)
  {
    forall q | q in s.nodes ensures RouteFrameNode(s.nodes[q], s2.nodes[q]) {
      assert RouteFrameNode(s.nodes[q], s1.nodes[q]) && RouteFrameNode(s1.nodes[q], s2.nodes[q]);
    }
  }

  lemma DescendOk(s: State, q: Path, cap: nat)
    requires Inv(s) && q.Kid? && q.parent in s.nodes && s.nodes[q.parent].isGroup && !Sealed(s, q.parent)
    ensures var (s1, w) := Descend(s, q, cap);
      && Inv(s1) && RouteFrame(s, s1) && SealStep(s, s1)
      && (w.At? ==> w.p == q && q in s1.nodes && !Sealed(s1, q))
  {
    var g := s.nodes[q.parent];
    assert NodeOk(s, q.parent, {}, {}, {});
    var (s1, w) := Descend(s, q, cap);
    if q.key in g.children {
      assert q == Kid(q.parent, q.key);
      StillSeals(s, s);
    } else if q.parent == Root && g.stop != Running {
      StillSeals(s, s);
    } else {
      assert q.parent.Kid? ==> !Tombstoned(s, q.parent);
      assert Creatable(s, q) by { assert q in s.nodes ==> NodeOk(s, q, {}, {}, {}); }
      CreateOk(s, q, cap);
      CreateFrame(s, q, cap);
      CreateRest(s, q, cap);
    }
  }

  lemma CreateRest(s: State, q: Path, cap: nat)
    requires Inv(s) && Creatable(s, q) && !Sealed(s, q.parent)
    requires TreeInv(Create(s, q, cap), {}, {}, {}) && RouteFrame(s, Create(s, q, cap))
    ensures PcOk(Create(s, q, cap)) && ExitOk(Create(s, q, cap)) && !Sealed(Create(s, q, cap), q)
  {
    var s1 := CreateBase(s, q, cap);
    var r := Create(s, q, cap);
    ActivateFrame(s1, q);
    assert SameCore(s1.nodes[q.parent], r.nodes[q.parent]) && SameCore(s1.nodes[Root], r.nodes[Root]);
    assert RouteFrameNode(s.nodes[s.cur], r.nodes[s.cur]) && RouteFrameNode(s.nodes[Root], r.nodes[Root]);
    CreateUnsealed(s, q, cap, q.parent);
  }

  lemma {:induction false} CreateUnsealed(s: State, q: Path, cap: nat, x: Path)
    requires TreeInv(s, {}, {}, {}) && Creatable(s, q) && !Sealed(s, x) && x in s.nodes
    ensures !Sealed(Create(s, q, cap), x)
    decreases x
  {
    var s1 := CreateBase(s, q, cap);
    ActivateFrame(s1, q);
    if x.Kid? {
      assert NodeOk(s, x, {}, {}, {});
      assert SameCore(s1.nodes[x.parent], Create(s, q, cap).nodes[x.parent]);
      CreateUnsealed(s, q, cap, x.parent);
    }
  }

  lemma {:induction false} RouteOk(s: State, dest: Path, cap: nat)
    requires Inv(s)
    ensures var (s1, w) := Route(s, dest, cap);
      && Inv(s1) && RouteFrame(s, s1) && SealStep(s, s1)
      && (w.At? ==> w.p in s1.nodes && !Sealed(s1, w.p))
    decreases dest
  {
    if dest.Root? {
      StillSeals(s, s);
    } else {
      RouteOk(s, dest.parent, cap);
      var (s1, w) := Route(s, dest.parent, cap);
      if w == At(dest.parent) && s1.nodes[dest.parent].isGroup {
        DescendOk(s1, dest, cap);
        RouteFrameTrans(s, s1, Descend(s1, dest, cap).0);
        SealStepTrans(s, s1, Descend(s1, dest, cap).0);
      }
    }
  }

  lemma EnqueueRest(s: State, p: Path, m: Msg)
    requires Inv(s) && p in s.nodes && !Sealed(s, p)
    ensures Inv(Enqueue(s, p, m)) && SealStep(s, Enqueue(s, p, m))
  {
    EnqueueOk(s, p, m);
    var s1 := Put(s, p, Mailed(s.nodes[p], m));
    var r := Enqueue(s, p, m);
    ActivateFrame(s1, p);
    assert SameCore(s1.nodes[s.cur], r.nodes[s.cur]) && SameCore(s1.nodes[Root], r.nodes[Root]);
    ActivateStill(s1, p);
    StillSeals(s1, r);
    assert SealStep(s, s1);
    SealStepTrans(s, s1, r);
  }

  lemma ReceiveOk(s: State, dest: Path, m: Msg, cap: nat)
    requires Inv(s)
    ensures Inv(Deliver(s, dest, m, cap)) && SealStep(s, Deliver(s, dest, m, cap))
  {
    RouteOk(s, dest, cap);
    var (s1, w) := Route(s, dest, cap);
    if w.At? {
      EnqueueRest(s1, w.p, m);
      SealStepTrans(s, s1, Enqueue(s1, w.p, m));
    }
  }

  lemma AddTaskOk(n: Node, chain: nat, urgent: bool)
    requires LeafOk(n) && chain in n.chains
    ensures LeafOk(AddTask(n, chain, urgent))
  {
  }

  lemma ResumeOk(s: State, p: Path, chain: nat, urgent: bool)
    requires Inv(s) && p in s.nodes && !s.nodes[p].isGroup && chain in s.nodes[p].chains
    ensures var r := Activate(Put(s, p, AddTask(s.nodes[p], chain, urgent)), p);
            Inv(r) && SealStep(s, r)
  {
    var n := AddTask(s.nodes[p], chain, urgent);
    var s1 := Put(s, p, n);
    var r := Activate(s1, p);
    assert NodeOk(s, p, {}, {}, {});
    AddTaskOk(s.nodes[p], chain, urgent);
    PutActivateOk(s, p, n);
    ActivateFrame(s1, p);
    assert SameCore(s1.nodes[s.cur], r.nodes[s.cur]) && SameCore(s1.nodes[Root], r.nodes[Root]);
    ActivateStill(s1, p);
    StillSeals(s1, r);
    assert SealStep(s, s1);
    SealStepTrans(s, s1, r);
  }

  lemma BeginRest(s: State, i: nat)
    requires Inv(s) && Enabled(s, Run(i))
    ensures Inv(Begin(s, i)) && SealStep(s, Begin(s, i))
  {
    var g := s.nodes[s.cur];
    assert NodeOk(s, s.cur, {}, {}, {});
    BeginOk(s, i);
    assert g.queue[i] in g.queue;
    assert NodeOk(s, Kid(s.cur, g.queue[i]), {}, {}, {});
    assert Still(s, Begin(s, i));
    StillSeals(s, Begin(s, i));
  }

  lemma LeaveRest(s: State, again: bool, quit: bool)
    requires Inv(s) && s.cur.Kid? && (!again ==> Idle(s.nodes[s.cur]))
    ensures Inv(Leave(s, again, quit)) && SealStep(s, Leave(s, again, quit))
  {
    LeaveOk(s, again, quit);
    var q, r := s.cur, Leave(s, again, quit);
    var s1 := Leave(s, false, quit);
    assert NodeOk(s, q, {}, {}, {});
    ActivateFrame(s1, q);
    ActivateStill(s1, q);
    assert r.nodes[Root].stop == s.nodes[Root].stop && r.nodes[Root].managed == s.nodes[Root].managed
        && r.nodes[q.parent].isGroup by {
      assert SameCore(s1.nodes[Root], Activate(s1, q).nodes[Root]);
      assert SameCore(s1.nodes[q.parent], Activate(s1, q).nodes[q.parent]);
    }
    assert Still(s, s1);
    StillSeals(s, r);
  }

  lemma DeleteRest(s: State, quit: bool)
    requires Inv(s) && s.cur.Kid? && s.cur.parent in s.nodes && Deletable(s.nodes[s.cur])
    ensures Inv(Delete(s, quit)) && SealStep(s, Delete(s, quit))
  {
    var r, q := Delete(s, quit), s.cur;
    DeleteOk(s, quit);
    assert NodeOk(s, q, {}, {}, {});
    assert Tombstoned(s, q);
    assert r.nodes[q.parent].children == s.nodes[q.parent].children;
    assert Tombstoned(r, q);
    assert NodeOk(s, q.parent, {}, {}, {}) && NodeOk(s, Root, {}, {}, {});
  }

  lemma FinishOk(s: State, quit: bool)
    requires Inv(s) && s.cur.Kid? && s.cur.parent in s.nodes
    ensures Inv(Finish(s, quit)) && SealStep(s, Finish(s, quit))
  {
    var n := s.nodes[s.cur];
    assert NodeOk(s, s.cur, {}, {}, {});
    if Deletable(n) {
      DeleteRest(s, quit);
    } else {
      assert !n.isGroup && n.tasks != [] ==> n.tasks[0] in n.chains && n.inflight > 0;
      LeaveRest(s, MoreWork(n), quit);
    }
  }

  // -- stops

  ghost predicate RootKidReady(s: State, k: Key, force: bool, args: map<Key, StopArg>) {
    && k in args && Kid(Root, k) in s.nodes && s.nodes[Kid(Root, k)].stop == Running
    && ValidArg(s, Kid(Root, k), force, args[k])
  }

  /** What stopping root children leaves alone. */
  ghost predicate StopsKeep(s: State, r: State)
    requires Root in s.nodes && s.cur in s.nodes
  {
    && r.cur == s.cur && r.pc == s.pc && r.exits == s.exits && r.nodes.Keys == s.nodes.Keys
    && r.nodes[Root].stop == s.nodes[Root].stop && r.nodes[Root].managed == s.nodes[Root].managed
    && r.nodes[s.cur].isGroup == s.nodes[s.cur].isGroup && r.nodes[s.cur].cap == s.nodes[s.cur].cap
    && r.nodes[s.cur].inflight <= s.nodes[s.cur].inflight
    && (s.pc.LTask? && s.pc.chain in s.nodes[s.cur].chains ==> s.pc.chain in r.nodes[s.cur].chains)
  }

  lemma {:induction false} StopAllOk(s: State, force: bool, keys: seq<Key>, args: map<Key, StopArg>, K: set<Path>)
    requires TreeInv(s, {}, K, {}) && NoDup(keys)
    requires forall k :: k in keys ==> RootKidReady(s, k, force, args)
    ensures var r := StopAll(s, force, keys, args);
      && TreeInv(r, {}, K - KidsOf(Root, keys), {}) && SealStep(s, r)
      && StopsKeep(s, r)
    decreases |keys|
  {
    if keys == [] {
      assert K - KidsOf(Root, keys) == K;
      StillSeals(s, s);
    } else {
      var k, p := keys[0], Kid(Root, keys[0]);
      assert k in keys && RootKidReady(s, k, force, args);
      var arg := args[k];
      StopNodeOk(s, p, force, arg, K);
      var s1 := StopNode(s, p, force, arg);
      StopFrameSeals(s, s1, p, force);
      StopAllOnward(s, p, force, keys, args);
      StopAllOk(s1, force, keys[1..], args, K - {p});
      SealStepTrans(s, s1, StopAll(s1, force, keys[1..], args));
      StopKeepsRunningChain(s, p, force, arg);
      assert K - {p} - KidsOf(Root, keys[1..]) == K - KidsOf(Root, keys) by { KidsOfSplit(Root, keys); }
      assert StopFrameNode(s.nodes[Root], s1.nodes[Root], p, Root);
      assert StopFrameNode(s.nodes[s.cur], s1.nodes[s.cur], p, s.cur);
    }
  }

  lemma KidsOfSplit(p: Path, keys: seq<Key>)
    requires keys != []
    ensures KidsOf(p, keys) == {Kid(p, keys[0])} + KidsOf(p, keys[1..])
  {
    forall k | k in keys ensures k == keys[0] || k in keys[1..] { }
  }

  lemma StopAllOnward(s: State, p: Path, force: bool, keys: seq<Key>, args: map<Key, StopArg>)
    requires keys != [] && NoDup(keys) && p == Kid(Root, keys[0]) && p in s.nodes && keys[0] in args
    requires StopFrame(s, StopNode(s, p, force, args[keys[0]]), p, force)
    requires forall k :: k in keys ==> RootKidReady(s, k, force, args)
    ensures var s1 := StopNode(s, p, force, args[keys[0]]);
            forall k :: k in keys[1..] ==> RootKidReady(s1, k, force, args)
  {
    var s1 := StopNode(s, p, force, args[keys[0]]);
    forall k | k in keys[1..] ensures RootKidReady(s1, k, force, args) {
      assert k in keys && k != keys[0] && RootKidReady(s, k, force, args);
      assert StopFrameNode(s.nodes[Kid(Root, k)], s1.nodes[Kid(Root, k)], p, Kid(Root, k));
    }
  }

  /** The chain whose task is on the call stack survives a stop. */
  lemma StopKeepsRunningChain(s: State, p: Path, force: bool, arg: StopArg)
    requires p in s.nodes && p.Kid? && s.cur in s.nodes && ValidArg(s, p, force, arg)
    requires StopFrame(s, StopNode(s, p, force, arg), p, force)
    ensures s.pc.LTask? && s.pc.chain in s.nodes[s.cur].chains ==>
              s.pc.chain in StopNode(s, p, force, arg).nodes[s.cur].chains
  {
    var r := StopNode(s, p, force, arg);
    assert StopFrameNode(s.nodes[s.cur], r.nodes[s.cur], p, s.cur);
    if s.cur == p {
      if s.nodes[p].isGroup {
        StopGroupOnlyMail(s, p, force, arg);
        var s0 := Put(s, p, s.nodes[p].(stop := StatusFor(force)));
        assert SameButMail(s0.nodes[p], StopGroup(s, p, force, arg).nodes[p]);
      } else {
        var s1 := Put(s, p, StoppedLeaf(s.nodes[p], force, arg));
        ActivateFrame(s1, p);
        assert SameCore(s1.nodes[p], Activate(s1, p).nodes[p]);
      }
    }
  }

  lemma ShutdownStart(s: State, force: bool, keys: seq<Key>, args: map<Key, StopArg>)
    requires Inv(s) && ValidSystemArgs(s, force, keys, args) && s.nodes[Root].stop == Running
    ensures var s1 := Put(s, Root, s.nodes[Root].(stop := StatusFor(force)));
      && TreeInv(s1, {}, KidsOf(Root, keys), {}) && SealStep(s, s1)
      && (forall k :: k in keys ==> RootKidReady(s1, k, force, args))
  {
    var n := s.nodes[Root].(stop := StatusFor(force));
    var s1 := Put(s, Root, n);
    assert NodeOk(s, Root, {}, {}, {});
    var K := KidsOf(Root, keys);
    forall k | Kid(Root, k) in s.nodes && s.nodes[Kid(Root, k)].stop == Running ensures Kid(Root, k) in K {
      assert NodeOk(s, Kid(Root, k), {}, {}, {});
    }
    PutOk(s, Root, n, {}, {}, {}, {}, K, {});
    forall k | k in keys ensures RootKidReady(s1, k, force, args) {
      assert NodeOk(s, Kid(Root, k), {}, {}, {});
    }
    assert Still(s, s1);
    StillSeals(s, s1);
  }

  lemma SealSelf(s: State)
    ensures SealStep(s, s)
  {
    StillSeals(s, s);
  }

  lemma ShutdownOk(s: State, force: bool, keys: seq<Key>, args: map<Key, StopArg>)
    requires Inv(s) && ValidSystemArgs(s, force, keys, args)
    ensures var r := StopSystem(s, force, keys, args); Inv(r) && SealStep(s, r)
  {
    if s.nodes[Root].stop != Running {
      SealSelf(s);
    } else {
      ShutdownAll(s, Put(s, Root, s.nodes[Root].(stop := StatusFor(force))), force, keys, args);
    }
  }

  lemma ShutdownAll(s: State, s1: State, force: bool, keys: seq<Key>, args: map<Key, StopArg>)
    requires Inv(s) && ValidSystemArgs(s, force, keys, args) && s.nodes[Root].stop == Running
    requires s1 == Put(s, Root, s.nodes[Root].(stop := StatusFor(force)))
    ensures var s2 := StopAll(s1, force, keys, args);
      var r := if s.nodes[Root].managed == 0 then s2.(exits := s2.exits + 1) else s2;
      Inv(r) && SealStep(s, r)
  {
    ShutdownStart(s, force, keys, args);
    var K := KidsOf(Root, keys);
    StopAllOk(s1, force, keys, args, K);
    assert K - K == {};
    var s2 := StopAll(s1, force, keys, args);
    SealStepTrans(s, s1, s2);
    ShutdownEnd(s, s1, s2, force);
  }

  lemma ShutdownEnd(s: State, s1: State, s2: State, force: bool)
    requires Inv(s) && s.nodes[Root].stop == Running
    requires s1 == Put(s, Root, s.nodes[Root].(stop := StatusFor(force)))
    requires TreeInv(s2, {}, {}, {}) && SealStep(s, s2)
    requires Root in s1.nodes && s1.cur in s1.nodes && StopsKeep(s1, s2)
    ensures var r := if s.nodes[Root].managed == 0 then s2.(exits := s2.exits + 1) else s2;
            Inv(r) && SealStep(s, r)
  {
    var r := if s.nodes[Root].managed == 0 then s2.(exits := s2.exits + 1) else s2;
    forall q | q in r.nodes ensures NodeOk(r, q, {}, {}, {}) {
      assert NodeOk(s2, q, {}, {}, {});
    }
    assert r.nodes == s2.nodes;
    SealNodes(s, s2, r);
  }

  lemma SealNodes(s: State, s2: State, r: State)
    requires SealStep(s, s2) && r.nodes == s2.nodes
    ensures SealStep(s, r)
  {
    forall q ensures Sealed(s2, q) == Sealed(r, q) {
      SealedSame(s2, r, q);
    }
  }

  lemma {:induction false} SealedSame(s: State, r: State, q: Path)
    requires r.nodes == s.nodes
    ensures Sealed(s, q) == Sealed(r, q)
    decreases q
  {
    if q.Kid? { SealedSame(s, r, q.parent); }
  }

  /** A stop the running node asks for itself, in a state where only its own stop mail is missing. */
  lemma SelfStopOk(s: State, force: bool, arg: StopArg, K: set<Path>)
    requires TreeInv(s, {}, K, {}) && K <= {s.cur} && PcOk(s) && ExitOk(s)
    requires s.cur.Kid? && s.cur in s.nodes && StopReady(s, force, arg)
    requires s.nodes[s.cur].stop != Running ==> K == {}
    ensures var r := StopChild(s, s.cur, force, arg);
            Inv(r) && SealStep(s, r) && r.cur == s.cur && r.pc == s.pc
  {
    var p := s.cur;
    assert NodeOk(s, p, {}, K, {});
    if Tombstoned(s, p) {
      StillSeals(s, s);
    } else {
      StopNodeOk(s, p, force, arg, K);
      var r := StopNode(s, p, force, arg);
      StopFrameSeals(s, r, p, force);
      StopKeepsRunningChain(s, p, force, arg);
      assert K - {p} == {};
      assert StopFrameNode(s.nodes[Root], r.nodes[Root], p, Root);
      assert StopFrameNode(s.nodes[p], r.nodes[p], p, p);
    }
  }

  /** Changing only the program counter, where the new one fits the node. */
  lemma PcChange(s: State, pc: Pc)
    requires TreeInv(s, {}, {}, {}) && ExitOk(s) && PcOk(s.(pc := pc))
    ensures Inv(s.(pc := pc)) && SealStep(s, s.(pc := pc))
  {
    var r := s.(pc := pc);
    forall q | q in r.nodes ensures NodeOk(r, q, {}, {}, {}) {
      assert NodeOk(s, q, {}, {}, {});
    }
    StillSeals(s, r);
  }

  lemma PopMailNode(n: Node)
    requires n.mailbox != []
    ensures LeafOk(n) ==> LeafOk(PopMail(n))
    ensures n.mailbox[0].User? && HasStop(n.mailbox) ==> HasStop(PopMail(n).mailbox)
  {
    UsersAppend([n.mailbox[0]], n.mailbox[1..]);
    assert [n.mailbox[0]] + n.mailbox[1..] == n.mailbox;
    if n.mailbox[0].User? && HasStop(n.mailbox) {
      var i :| 0 <= i < |n.mailbox| && n.mailbox[i].Stop?;
      assert n.mailbox[1..][i - 1].Stop?;
    }
  }

  /** Taking the first message off the running node's mailbox. */
  lemma PopOk(s: State)
    requires Inv(s) && s.cur.Kid? && s.nodes[s.cur].mailbox != []
    ensures var n := s.nodes[s.cur];
            var K := if n.mailbox[0].Stop? && n.stop == Running then {s.cur} else {};
            var r := Put(s, s.cur, PopMail(n));
            TreeInv(r, {}, K, {}) && PcOk(r) && ExitOk(r) && SealStep(s, r)
  {
    var p, n := s.cur, s.nodes[s.cur];
    var K := if n.mailbox[0].Stop? && n.stop == Running then {p} else {};
    assert NodeOk(s, p, {}, {}, {});
    PopMailNode(n);
    PutOk(s, p, PopMail(n), {}, {}, {}, {}, K, {});
    assert Still(s, Put(s, p, PopMail(n)));
    StillSeals(s, Put(s, p, PopMail(n)));
  }

  /** The body of both mailbox loops for a stop message. */
  lemma StopMessageOk(s: State, arg: StopArg)
    requires Inv(s) && s.cur.Kid? && s.nodes[s.cur].mailbox != [] && s.nodes[s.cur].mailbox[0].Stop?
    requires StopReady(s, s.nodes[s.cur].mailbox[0].force, arg)
    ensures var n := s.nodes[s.cur];
            var r := StopChild(Put(s, s.cur, PopMail(n)), s.cur, n.mailbox[0].force, arg);
            Inv(r) && SealStep(s, r) && r.cur == s.cur && r.pc == s.pc
  {
    var n := s.nodes[s.cur];
    PopOk(s);
    var s1 := Put(s, s.cur, PopMail(n));
    var K := if n.stop == Running then {s.cur} else {};
    assert NodeOk(s1, s.cur, {}, K, {});
    SelfStopOk(s1, n.mailbox[0].force, arg, K);
    SealStepTrans(s, s1, StopChild(s1, s.cur, n.mailbox[0].force, arg));
  }

  lemma GroupMailOk(s: State, arg: StopArg, quit: bool)
    requires Inv(s) && Enabled(s, GroupMail(arg, quit))
    ensures Inv(Next(s, GroupMail(arg, quit))) && SealStep(s, Next(s, GroupMail(arg, quit)))
  {
    var n := s.nodes[s.cur];
    var s1 := Put(s, s.cur, PopMail(n));
    PopOk(s);
    var m, pc := n.mailbox[0], if quit then GFinal else GMail;
    if m.Stop? {
      StopMessageOk(s, arg);
      var s2 := StopChild(s1, s.cur, m.force, arg);
      PcChange(s2, pc);
      SealStepTrans(s, s2, s2.(pc := pc));
    } else {
      PcChange(s1, pc);
      SealStepTrans(s, s1, s1.(pc := pc));
    }
  }

  lemma MailOk(s: State, arg: StopArg, quit: bool)
    requires Inv(s) && Enabled(s, Mail(arg, quit))
    ensures Inv(Next(s, Mail(arg, quit))) && SealStep(s, Next(s, Mail(arg, quit)))
  {
    var n := s.nodes[s.cur];
    var s1 := Put(s, s.cur, PopMail(n));
    PopOk(s);
    var m := n.mailbox[0];
    if m.User? {
      PcChange(s1, LWork(m.id));
      SealStepTrans(s, s1, s1.(pc := LWork(m.id)));
    } else {
      StopMessageOk(s, arg);
      var s2, pc := StopChild(s1, s.cur, m.force, arg), if quit then LFinal else LMail;
      PcChange(s2, pc);
      SealStepTrans(s, s2, s2.(pc := pc));
    }
  }

  lemma TaskOk(s: State)
    requires Inv(s) && Enabled(s, Task)
    ensures Inv(Next(s, Task)) && SealStep(s, Next(s, Task))
  {
    var p, n := s.cur, s.nodes[s.cur];
    var s1 := Put(s, p, PopTask(n));
    assert NodeOk(s, p, {}, {}, {});
    assert n.tasks[0] in n.chains;
    PutOk(s, p, PopTask(n), {}, {}, {}, {}, {}, {});
    PcChange(s1, LTask(n.tasks[0]));
    StillSeals(s, s1);
    SealStepTrans(s, s1, s1.(pc := LTask(n.tasks[0])));
  }

  lemma EndChainNode(n: Node, chain: nat)
    requires LeafOk(n) && chain in n.chains && chain !in n.tasks
    ensures LeafOk(EndChain(n, chain))
  {
    forall i | 0 <= i < |n.tasks| ensures n.tasks[i] in n.chains - {chain} {
      assert n.tasks[i] in n.tasks;
    }
  }

  lemma EndChainOk(s: State, quit: bool)
    requires Inv(s) && s.cur.Kid? && s.pc.LTask? && s.pc.chain !in s.nodes[s.cur].tasks
    ensures var r := Put(s, s.cur, EndChain(s.nodes[s.cur], s.pc.chain)).(pc := if quit then LFinal else LTasks);
            Inv(r) && SealStep(s, r)
  {
    var p, n := s.cur, s.nodes[s.cur];
    var s1 := Put(s, p, EndChain(n, s.pc.chain));
    assert NodeOk(s, p, {}, {}, {});
    EndChainNode(n, s.pc.chain);
    PutOk(s, p, EndChain(n, s.pc.chain), {}, {}, {}, {}, {}, {});
    var pc := if quit then LFinal else LTasks;
    PcChange(s1, pc);
    StillSeals(s, s1);
    SealStepTrans(s, s1, s1.(pc := pc));
  }

  lemma EndChainStopOk(s: State, arg: StopArg, quit: bool)
    requires Inv(s) && s.cur.Kid? && s.pc.LTask? && s.pc.chain !in s.nodes[s.cur].tasks
    requires s.pc.chain !in arg.finished && StopReady(s, true, arg)
    ensures var r := StopChild(Put(s, s.cur, EndChain(s.nodes[s.cur], s.pc.chain)), s.cur, true, arg)
                       .(pc := if quit then LFinal else LTasks);
            Inv(r) && SealStep(s, r)
  {
    var s1 := Put(s, s.cur, EndChain(s.nodes[s.cur], s.pc.chain));
    EndChainOk(s, true);
    var t := s1.(pc := LFinal);
    assert StopReady(t, true, arg);
    SelfStopOk(t, true, arg, {});
    var s2, pc := StopChild(t, s.cur, true, arg), if quit then LFinal else LTasks;
    PcChange(s2, pc);
    SealStepTrans(s, t, s2);
    SealStepTrans(s, s2, s2.(pc := pc));
    StopChildPc(s1, LFinal, s.cur, true, arg);
  }

  /** Stopping neither reads nor writes the program counter. */
  lemma StopChildPc(s: State, at: Pc, p: Path, force: bool, arg: StopArg)
    requires p.Kid? && p in s.nodes
    ensures StopChild(s.(pc := at), p, force, arg) == StopChild(s, p, force, arg).(pc := at)
  {
    var t := s.(pc := at);
    if !Tombstoned(s, p) {
      if s.nodes[p].isGroup {
        var st := s.nodes[p].(stop := StatusFor(force));
        StopKidsPc(Put(s, p, st), at, p, arg.order, force);
        var s1 := StopKids(Put(s, p, st), p, arg.order, force);
        ActivatePc(if force && p in s1.nodes then CleanMailbox(s1, p) else s1, at, p);
      } else {
        ActivatePc(Put(s, p, StoppedLeaf(s.nodes[p], force, arg)), at, p);
      }
    }
  }

  lemma {:induction false} ActivatePc(s: State, at: Pc, p: Path)
    ensures Activate(s.(pc := at), p) == Activate(s, p).(pc := at)
    decreases p
  {
    if CanEnter(s, p) {
      assert EnterQueue(s.(pc := at), p) == EnterQueue(s, p).(pc := at);
      ActivatePc(EnterQueue(s, p), at, p.parent);
    }
  }

  lemma {:induction false} StopKidsPc(s: State, at: Pc, p: Path, keys: seq<Key>, force: bool)
    ensures StopKids(s.(pc := at), p, keys, force) == StopKids(s, p, keys, force).(pc := at)
    decreases |keys|
  {
    if keys != [] {
      var q := Kid(p, keys[0]);
      if q in s.nodes {
        ActivatePc(Put(s, q, Mailed(s.nodes[q], Stop(force))), at, q);
        StopKidsPc(Enqueue(s, q, Stop(force)), at, p, keys[1..], force);
      } else {
        StopKidsPc(s, at, p, keys[1..], force);
      }
    }
  }

  lemma TaskEndOk(s: State, finished: bool, stop: bool, arg: StopArg, quit: bool)
    requires Inv(s) && Enabled(s, TaskEnd(finished, stop, arg, quit))
    ensures var r := Next(s, TaskEnd(finished, stop, arg, quit)); Inv(r) && SealStep(s, r)
  {
    if !finished {
      PcChange(s, if quit then LFinal else LTasks);
    } else if stop {
      EndChainStopOk(s, arg, quit);
    } else {
      EndChainOk(s, quit);
    }
  }

  lemma TasksEndOk(s: State, quit: bool)
    requires Inv(s) && Enabled(s, TasksEnd(quit))
    ensures Inv(Next(s, TasksEnd(quit))) && SealStep(s, Next(s, TasksEnd(quit)))
  {
    assert NodeOk(s, s.cur, {}, {}, {});
    if s.nodes[s.cur].inflight == s.nodes[s.cur].cap {
      LeaveRest(s, false, quit);
    } else {
      PcChange(s, LMail);
    }
  }

  function SuspendNode(n: Node, chain: nat): Node {
    n.(chains := n.chains + {chain}, inflight := n.inflight + 1)
  }

  lemma SuspendNodeOk(n: Node, chain: nat)
    requires LeafOk(n) && n.inflight < n.cap && chain !in n.chains
    ensures LeafOk(SuspendNode(n, chain))
  {
  }

  lemma SuspendOk(s: State, chain: nat, quit: bool)
    requires Inv(s) && s.cur.Kid? && s.pc.LWork? && chain !in s.nodes[s.cur].chains
    ensures var n := s.nodes[s.cur];
            var pc := if quit || n.inflight + 1 == n.cap then LFinal else LMail;
            var r := Put(s, s.cur, SuspendNode(n, chain)).(pc := pc);
            Inv(r) && SealStep(s, r)
  {
    var p, n := s.cur, s.nodes[s.cur];
    assert NodeOk(s, p, {}, {}, {});
    SuspendNodeOk(n, chain);
    var t := s.(pc := LFinal);
    PcChange(s, LFinal);
    PutOk(t, p, SuspendNode(n, chain), {}, {}, {}, {}, {}, {});
    var s1, pc := Put(t, p, SuspendNode(n, chain)), if quit || n.inflight + 1 == n.cap then LFinal else LMail;
    PcChange(s1, pc);
    assert Still(s, s1);
    StillSeals(s, s1);
    SealStepTrans(s, s1, s1.(pc := pc));
  }

  lemma WorkOk(s: State, outcome: Outcome, arg: StopArg, quit: bool)
    requires Inv(s) && Enabled(s, Work(outcome, arg, quit))
    ensures var r := Next(s, Work(outcome, arg, quit)); Inv(r) && SealStep(s, r)
  {
    match outcome
    case Done(stop) =>
      var pc := if quit then LFinal else LMail;
      if stop {
        SelfStopOk(s, true, arg, {});
        var s1 := StopChild(s, s.cur, true, arg);
        PcChange(s1, pc);
        SealStepTrans(s, s1, s1.(pc := pc));
      } else {
        PcChange(s, pc);
      }
    case Suspended(chain) =>
      SuspendOk(s, chain, quit);
  }

  /** The inductive step of everything below: a step keeps the invariant and every seal. */
  lemma StepOk(s: State, a: Action)
    requires Inv(s) && Enabled(s, a)
    ensures Inv(Next(s, a)) && SealStep(s, Next(s, a))
  {
    match a
    case Receive(dest, m, cap) => ReceiveOk(s, dest, m, cap);
    case Shutdown(force, keys, args) => ShutdownOk(s, force, keys, args);
    case Resume(p, chain, urgent) => ResumeOk(s, p, chain, urgent);
    case Run(i) => BeginRest(s, i);
    case GroupMail(arg, quit) => GroupMailOk(s, arg, quit);
    case GroupMailEnd => PcChange(s, GTasks);
    case GroupQueueEnd => PcChange(s, GFinal);
    case GroupEnd(quit) => FinishOk(s, quit);
    case Task => TaskOk(s);
    case TaskEnd(finished, stop, arg, quit) => TaskEndOk(s, finished, stop, arg, quit);
    case TasksEnd(quit) => TasksEndOk(s, quit);
    case Mail(arg, quit) => MailOk(s, arg, quit);
    case Work(outcome, arg, quit) => WorkOk(s, outcome, arg, quit);
    case MailEnd => PcChange(s, LFinal);
    case ActorEnd(quit) => FinishOk(s, quit);
  }

  // ----- Where nodes come from -----

  lemma {:induction false} RouteKeys(s: State, dest: Path, cap: nat, q: Path)
    requires q in Route(s, dest, cap).0.nodes
    ensures q in s.nodes || Anc(q, dest)
    decreases dest
  {
    if dest.Kid? {
      var (s1, w) := Route(s, dest.parent, cap);
      if w == At(dest.parent) && dest.parent in s1.nodes && s1.nodes[dest.parent].isGroup {
        if q !in s1.nodes { ActivateFrame(CreateBase(s1, dest, cap), dest); }
      }
      if q in s1.nodes { RouteKeys(s, dest.parent, cap, q); }
    }
  }

  /** Only a received message creates nodes, and only along its own address. */
  lemma StepKeys(s: State, a: Action, q: Path)
    requires Inv(s) && Enabled(s, a) && q in Next(s, a).nodes
    ensures q in s.nodes || (a.Receive? && Anc(q, a.dest))
  {
    match a
    case Receive(dest, m, cap) =>
      var (s1, w) := Route(s, dest, cap);
      if w.At? && w.p in s1.nodes { ActivateFrame(Put(s1, w.p, Mailed(s1.nodes[w.p], m)), w.p); }
      RouteKeys(s, dest, cap, q);
    case Shutdown(force, keys, args) =>
      if s.nodes[Root].stop == Running {
        ShutdownStart(s, force, keys, args);
        StopAllOk(Put(s, Root, s.nodes[Root].(stop := StatusFor(force))), force, keys, args, KidsOf(Root, keys));
      }
    case Resume(p, chain, urgent) => ActivateFrame(Put(s, p, AddTask(s.nodes[p], chain, urgent)), p);
    case GroupEnd(quit) => FinishKeys(s, quit);
    case ActorEnd(quit) => FinishKeys(s, quit);
    case TasksEnd(quit) => ActivateFrame(Leave(s, false, quit), s.cur);
    case GroupMail(arg, _) => StopChildKeys(Put(s, s.cur, PopMail(s.nodes[s.cur])), true, arg);
                              StopChildKeys(Put(s, s.cur, PopMail(s.nodes[s.cur])), false, arg);
    case Mail(arg, _) => StopChildKeys(Put(s, s.cur, PopMail(s.nodes[s.cur])), true, arg);
                         StopChildKeys(Put(s, s.cur, PopMail(s.nodes[s.cur])), false, arg);
    case TaskEnd(_, _, arg, _) => StopChildKeys(Put(s, s.cur, EndChain(s.nodes[s.cur], s.pc.chain)), true, arg);
    case Work(_, arg, _) => StopChildKeys(s, true, arg);
    case _ =>
  }

  lemma FinishKeys(s: State, quit: bool)
    requires s.cur.Kid? && s.cur in s.nodes && s.cur.parent in s.nodes
    ensures Finish(s, quit).nodes.Keys <= s.nodes.Keys
  {
    ActivateFrame(Leave(s, false, quit), s.cur);
  }

  lemma StopChildKeys(s: State, force: bool, arg: StopArg)
    requires s.cur.Kid? && s.cur in s.nodes
    ensures StopChild(s, s.cur, force, arg).nodes.Keys == s.nodes.Keys
  {
    if !Tombstoned(s, s.cur) {
      if s.nodes[s.cur].isGroup {
        StopGroupOnlyMail(s, s.cur, force, arg);
      } else {
        ActivateFrame(Put(s, s.cur, StoppedLeaf(s.nodes[s.cur], force, arg)), s.cur);
      }
    }
  }
}

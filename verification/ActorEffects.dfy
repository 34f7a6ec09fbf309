/**
 What each step does to each node, said node by node in terms of mailboxes, tasks, chains and stop
 status.  Scheduling and the instance maps are covered by the invariant.
 */
module ActorEffects {
  import opened ActorTree
  import opened ActorRuns
  import opened Options

  /** Everything but scheduling, the child map and the count of children. */
  predicate SameData(n: Node, m: Node) {
    && m.isGroup == n.isGroup && m.stop == n.stop && m.mailbox == n.mailbox && m.cap == n.cap
    && m.inflight == n.inflight && m.tasks == n.tasks && m.chains == n.chains
    && m.arrived == n.arrived && m.started == n.started
  }

  // ----- Where a message goes -----

  /** The first plain actor on the way to `dest`, or `dest` itself. */
  function Addressee(dest: Path): (t: Path)
    ensures dest.Kid? ==> t.Kid?
    ensures Anc(t, dest)
    decreases dest
  {
    if dest.Root? then Root
    else
      var t := Addressee(dest.parent);
      if t == dest.parent && (t.Root? || IsGroupType(t.key)) then dest else t
  }

  function TopKey(p: Path): Key
    requires p.Kid?
    decreases p
  {
    if p.parent.Root? then p.key else TopKey(p.parent)
  }

  /** No delivery: a tombstone on the way, or a new root child of a shard that is shutting down. */
  predicate Refused(s: State, t: Path)
    requires Root in s.nodes && t.Kid?
  {
    Sealed(s, t) || (s.nodes[Root].stop != Running && TopKey(t) !in s.nodes[Root].children)
  }

  /** A node as its constructor leaves it. */
  predicate Blank(n: Node, p: Path, cap: nat)
    requires p.Kid?
  {
    && n.isGroup == IsGroupType(p.key) && n.stop == Running && n.mailbox == []
    && n.cap == (if cap > 0 then cap else 1)
    && n.inflight == 0 && n.tasks == [] && n.chains == {} && n.arrived == [] && n.started == []
  }

  /** The state and the place a route ends with, for the addressee `t`. */
  ghost predicate Reaches(s: State, r: (State, Where), dest: Path, cap: nat)
    requires Root in s.nodes
  {
    var (s1, w) := r;
    var t := Addressee(dest);
    && (t.Kid? && Refused(s, t) ==> w == Nowhere && s1 == s)
    && (t.Root? || !Refused(s, t) ==> w == At(t) && t in s1.nodes)
    && (t in s.nodes ==> s1 == s)
    && (t.Kid? && t !in s.nodes && t in s1.nodes ==> s1.nodes[t].children == map[])
    && (forall q :: q in s1.nodes && q !in s.nodes ==> q.Kid? && Anc(q, dest) && Blank(s1.nodes[q], q, cap))
  }

  /** Below an address that is not refused, only the last layer decides. */
  lemma RefusedStep(s: State, dest: Path)
    requires Root in s.nodes && dest.Kid? && (dest.parent.Kid? ==> !Refused(s, dest.parent))
    ensures Refused(s, dest) <==>
            Tombstoned(s, dest) ||
            (dest.parent == Root && s.nodes[Root].stop != Running && dest.key !in s.nodes[Root].children)
  {
    assert Sealed(s, dest) <==> Tombstoned(s, dest) || Sealed(s, dest.parent);
    if dest.parent.Kid? {
      assert TopKey(dest) == TopKey(dest.parent);
    } else {
      assert !Sealed(s, dest.parent) && TopKey(dest) == dest.key;
    }
  }

  lemma RefusedBelow(s: State, dest: Path)
    requires Root in s.nodes && dest.Kid? && dest.parent.Kid? && Refused(s, dest.parent)
    ensures Refused(s, dest)
  {
    assert TopKey(dest) == TopKey(dest.parent);
  }

  lemma CreateReaches(s: State, q: Path, cap: nat)
    requires q.Kid? && q.parent in s.nodes && q !in s.nodes
    ensures var r := Create(s, q, cap);
      && r.nodes.Keys == s.nodes.Keys + {q} && Blank(r.nodes[q], q, cap) && r.nodes[q].children == map[]
      && (forall x :: x in s.nodes ==> RouteFrameNode(s.nodes[x], r.nodes[x]))
  {
    var s1, r := CreateBase(s, q, cap), Create(s, q, cap);
    ActivateFrame(s1, q);
    assert SameCore(s1.nodes[q], r.nodes[q]);
    forall x | x in s.nodes ensures RouteFrameNode(s.nodes[x], r.nodes[x]) {
      assert SameCore(s1.nodes[x], r.nodes[x]);
    }
  }

  /** One layer down from a live group: the child is there, disabled, refused or new. */
  lemma DescendLive(s: State, dest: Path, cap: nat)
    requires Inv(s) && dest.Kid? && Addressee(dest) == dest
    requires dest.parent in s.nodes && s.nodes[dest.parent].isGroup
    requires dest.parent.Kid? ==> !Refused(s, dest.parent)
    ensures Reaches(s, Descend(s, dest, cap), dest, cap)
  {
    var g := s.nodes[dest.parent];
    RefusedStep(s, dest);
    if dest.key in g.children {
      KnownKid(s, dest);
    } else if dest.parent != Root || g.stop == Running {
      assert dest !in s.nodes by { assert dest in s.nodes ==> NodeOk(s, dest, {}, {}, {}); }
      CreateReaches(s, dest, cap);
    } else {
      assert dest !in s.nodes by { assert dest in s.nodes ==> NodeOk(s, dest, {}, {}, {}); }
    }
  }

  lemma KnownKid(s: State, dest: Path)
    requires Inv(s) && dest.Kid? && dest.parent in s.nodes && s.nodes[dest.parent].isGroup
    requires dest.key in s.nodes[dest.parent].children
    ensures !Tombstoned(s, dest) ==> dest in s.nodes
  {
    assert NodeOk(s, dest.parent, {}, {}, {});
    assert dest == Kid(dest.parent, dest.key);
  }

  /** One layer down from a group that this very message has created. */
  lemma DescendNew(s: State, s1: State, dest: Path, cap: nat)
    requires Inv(s) && Inv(s1) && dest.Kid? && dest.parent.Kid? && Addressee(dest) == dest
    requires !Refused(s, dest.parent) && dest.parent !in s.nodes
    requires dest.parent in s1.nodes && s1.nodes[dest.parent].children == map[]
    requires forall q :: q in s1.nodes && q !in s.nodes ==> q.Kid? && Anc(q, dest.parent) && Blank(s1.nodes[q], q, cap)
    requires forall q :: q in s.nodes ==> q in s1.nodes
    ensures Reaches(s, Descend(s1, dest, cap), dest, cap)
  {
    RefusedStep(s, dest);
    assert dest !in s1.nodes by { assert dest in s1.nodes ==> NodeOk(s1, dest, {}, {}, {}); }
    CreateReaches(s1, dest, cap);
    var r := Create(s1, dest, cap);
    forall q | q in r.nodes && q !in s.nodes ensures q.Kid? && Anc(q, dest) && Blank(r.nodes[q], q, cap) {
      if q != dest { assert RouteFrameNode(s1.nodes[q], r.nodes[q]) && Blank(s1.nodes[q], q, cap); }
    }
  }

  lemma {:induction false} RouteReaches(s: State, dest: Path, cap: nat)
    requires Inv(s)
    ensures Reaches(s, Route(s, dest, cap), dest, cap)
    decreases dest
  {
    if dest.Kid? {
      RouteReaches(s, dest.parent, cap);
      RouteOk(s, dest.parent, cap);
      var (s1, w) := Route(s, dest.parent, cap);
      var t := Addressee(dest.parent);
      if t == dest.parent && (t.Root? || IsGroupType(t.key)) {
        if t.Kid? && Refused(s, t) {
          RefusedBelow(s, dest);
          RouteRefused(s, dest, cap);
        } else {
          RouteOnward(s, s1, dest, cap);
        }
      } else {
        assert t in s1.nodes ==> NodeOk(s1, t, {}, {}, {});
      }
    }
  }

  lemma RouteRefused(s: State, dest: Path, cap: nat)
    requires Inv(s) && dest.Kid? && Route(s, dest.parent, cap) == (s, Nowhere)
    requires Addressee(dest) == dest && Refused(s, dest)
    ensures Reaches(s, Route(s, dest, cap), dest, cap)
  {
  }

  lemma RouteOnward(s: State, s1: State, dest: Path, cap: nat)
    requires Inv(s) && Inv(s1) && dest.Kid? && Addressee(dest) == dest && RouteFrame(s, s1)
    requires Route(s, dest.parent, cap) == (s1, At(dest.parent)) && Addressee(dest.parent) == dest.parent
    requires Reaches(s, (s1, At(dest.parent)), dest.parent, cap)
    requires dest.parent.Kid? ==> !Refused(s, dest.parent) && IsGroupType(dest.parent.key)
    ensures Reaches(s, Route(s, dest, cap), dest, cap)
  {
    assert NodeOk(s1, dest.parent, {}, {}, {});
    if dest.parent in s.nodes {
      DescendLive(s, dest, cap);
    } else {
      DescendNew(s, s1, dest, cap);
    }
  }

  // ----- Receive -----

  /** The mailbox with one more message: user messages last, all others first. */
  function WithMail(mailbox: seq<Msg>, m: Msg): seq<Msg> {
    if m.User? then mailbox + [m] else [m] + mailbox
  }

  /** The addressee has the message, at the right end of its mailbox, and is scheduled. */
  ghost predicate TargetGot(s: State, s': State, t: Path, m: Msg, cap: nat)
    requires t.Kid?
  {
    && t in s'.nodes && s'.nodes[t].sched == Scheduled
    && (t in s.nodes ==>
          SameData(s.nodes[t].(mailbox := WithMail(s.nodes[t].mailbox, m),
                               arrived := s.nodes[t].arrived + if m.User? then [m.id] else []), s'.nodes[t]))
    && (t !in s.nodes ==>
          && s'.nodes[t].mailbox == [m] && s'.nodes[t].arrived == (if m.User? then [m.id] else [])
          && Blank(s'.nodes[t].(mailbox := [], arrived := []), t, cap))
  }

  /** No other node is touched. */
  ghost predicate OthersSame(s: State, s': State, t: Path) {
    forall q :: q in s.nodes && q != t ==> q in s'.nodes && SameData(s.nodes[q], s'.nodes[q])
  }

  /** New nodes lie on the way to the destination and are empty; none is made for a live addressee. */
  ghost predicate OnlyNew(s: State, s': State, t: Path, dest: Path, cap: nat) {
    && (t in s.nodes ==> s'.nodes.Keys == s.nodes.Keys)
    && (forall q :: q in s'.nodes && q !in s.nodes && q != t ==>
          q.Kid? && Anc(q, dest) && Blank(s'.nodes[q], q, cap))
  }

  /** What a received message leaves behind. */
  ghost predicate Received(s: State, s': State, dest: Path, m: Msg, cap: nat) {
    && Root in s.nodes && dest.Kid?
    && var t := Addressee(dest);
    if Refused(s, t) then s' == s
    else TargetGot(s, s', t, m, cap) && OthersSame(s, s', t) && OnlyNew(s, s', t, dest, cap)
  }

  lemma EnqueueData(s: State, p: Path, m: Msg)
    requires p in s.nodes
    ensures var s', n := Enqueue(s, p, m), s.nodes[p];
      && s'.nodes.Keys == s.nodes.Keys
      && SameData(n.(mailbox := WithMail(n.mailbox, m), arrived := n.arrived + if m.User? then [m.id] else []),
                  s'.nodes[p])
      && (forall q :: q in s.nodes && q != p ==> SameCore(s.nodes[q], s'.nodes[q]))
  {
    var s1 := Put(s, p, Mailed(s.nodes[p], m));
    var s' := Activate(s1, p);
    ActivateFrame(s1, p);
    assert SameCore(s1.nodes[p], s'.nodes[p]);
    forall q | q in s.nodes && q != p ensures SameCore(s.nodes[q], s'.nodes[q]) {
      assert SameCore(s1.nodes[q], s'.nodes[q]);
    }
  }

  lemma EnqueueSchedules(s: State, p: Path, m: Msg)
    requires Inv(s) && p in s.nodes && !Sealed(s, p)
    ensures p in Enqueue(s, p, m).nodes && Enqueue(s, p, m).nodes[p].sched == Scheduled
  {
    EnqueueData(s, p, m);
    EnqueueRest(s, p, m);
    assert NodeOk(s, p, {}, {}, {});
    var n := Mailed(s.nodes[p], m);
    var s1 := Put(s, p, n);
    if n.sched == Scheduled {
      ActivateLocal(s1, p, p);
    } else {
      assert CanEnter(s1, p);
      ActivateLocal(EnterQueue(s1, p), p.parent, p);
    }
  }

  /** A message is delivered exactly once, to its addressee only, unless the addressee is refused. */
  lemma ReceiveEffect(s: State, dest: Path, m: Msg, cap: nat)
    requires Inv(s) && dest.Kid?
    ensures Received(s, Next(s, Receive(dest, m, cap)), dest, m, cap)
  {
    var t := Addressee(dest);
    RouteReaches(s, dest, cap);
    RouteOk(s, dest, cap);
    var (s1, w) := Route(s, dest, cap);
    if !Refused(s, t) {
      EnqueueData(s1, t, m);
      EnqueueSchedules(s1, t, m);
      var s' := Enqueue(s1, t, m);
      GotByTarget(s, s1, s', t, m, cap, dest);
      OthersKept(s, s1, s', t);
      NewOnWay(s, s1, s', t, cap, dest);
    }
  }

  lemma GotByTarget(s: State, s1: State, s': State, t: Path, m: Msg, cap: nat, dest: Path)
    requires Root in s.nodes && t.Kid? && t == Addressee(dest) && Reaches(s, (s1, At(t)), dest, cap) && t in s1.nodes
    requires t in s'.nodes && s'.nodes[t].sched == Scheduled
    requires var n := s1.nodes[t];
      SameData(n.(mailbox := WithMail(n.mailbox, m), arrived := n.arrived + if m.User? then [m.id] else []),
               s'.nodes[t])
    ensures TargetGot(s, s', t, m, cap)
  {
    if t !in s.nodes { assert Blank(s1.nodes[t], t, cap); }
  }

  lemma NewOnWay(s: State, s1: State, s': State, t: Path, cap: nat, dest: Path)
    requires Root in s.nodes && t == Addressee(dest) && Reaches(s, (s1, At(t)), dest, cap)
    requires s'.nodes.Keys == s1.nodes.Keys
    requires forall q :: q in s1.nodes && q != t ==> SameCore(s1.nodes[q], s'.nodes[q])
    ensures OnlyNew(s, s', t, dest, cap)
  {
    forall q | q in s'.nodes && q !in s.nodes && q != t ensures q.Kid? && Anc(q, dest) && Blank(s'.nodes[q], q, cap) {
      assert SameCore(s1.nodes[q], s'.nodes[q]) && Blank(s1.nodes[q], q, cap);
    }
  }

  lemma OthersKept(s: State, s1: State, s': State, t: Path)
    requires RouteFrame(s, s1) && s'.nodes.Keys == s1.nodes.Keys
    requires forall q :: q in s1.nodes && q != t ==> SameCore(s1.nodes[q], s'.nodes[q])
    ensures OthersSame(s, s', t)
  {
    forall q | q in s.nodes && q != t ensures q in s'.nodes && SameData(s.nodes[q], s'.nodes[q]) {
      assert RouteFrameNode(s.nodes[q], s1.nodes[q]) && SameCore(s1.nodes[q], s'.nodes[q]);
    }
  }

  // ----- Stops -----

  predicate Listed(g: Node, k: Key) {
    k in g.children && g.children[k]
  }

  /** The stop argument resolves what the stop of this node leaves open. */
  ghost predicate Resolves(n: Node, arg: StopArg) {
    && NoDup(arg.order) && (forall k :: k in arg.order <==> Listed(n, k))
    && arg.finished <= n.chains && (!n.isGroup ==> LeafOk(n))
  }

  /**
   The node at `x` after a stop of `p`.  A forced stop of an actor drops its mail and its queued
   tasks and ends the chains these finish; a peaceful one keeps them.  A group drops its mail when
   forced, and in either case each child in its map gets a stop message of the same kind.
   */
  ghost function StoppedData(s: State, p: Path, force: bool, arg: StopArg, x: Path): Node
    requires p in s.nodes && x in s.nodes
  {
    var n := s.nodes[x];
    if x == p then
      if n.isGroup then n.(stop := if force then ForceStopping else PeaceStopping,
                           mailbox := if force then [] else n.mailbox)
      else if force then n.(stop := ForceStopping, mailbox := arg.late, tasks := [],
                            chains := n.chains - arg.finished, inflight := |n.chains - arg.finished|)
      else n.(stop := PeaceStopping)
    else if s.nodes[p].isGroup && x.Kid? && x.parent == p && Listed(s.nodes[p], x.key) then
      n.(mailbox := [Stop(force)] + n.mailbox)
    else n
  }

  ghost predicate StoppedAs(s: State, s': State, p: Path, force: bool, arg: StopArg, x: Path)
    requires p in s.nodes && x in s.nodes && p.Kid?
  {
    && x in s'.nodes && SameData(StoppedData(s, p, force, arg, x), s'.nodes[x])
    && s'.nodes[x].children == (if x == p.parent then s.nodes[x].children[p.key := false] else s.nodes[x].children)
  }

  lemma {:induction false} StopKidsData(s: State, p: Path, keys: seq<Key>, force: bool, x: Path)
    requires NoDup(keys) && x in s.nodes
    ensures var s' := StopKids(s, p, keys, force);
      var n := s.nodes[x];
      x in s'.nodes &&
      SameCore(if x.Kid? && x.parent == p && x.key in keys then n.(mailbox := [Stop(force)] + n.mailbox) else n,
               s'.nodes[x])
    decreases |keys|
  {
    if keys != [] {
      var q := Kid(p, keys[0]);
      assert keys == [keys[0]] + keys[1..];
      assert NoDup(keys[1..]) && keys[0] !in keys[1..];
      if q in s.nodes {
        var s1 := Enqueue(s, q, Stop(force));
        EnqueueStop(s, q, force);
        StopKidsData(s1, p, keys[1..], force, x);
      } else {
        StopKidsData(s, p, keys[1..], force, x);
      }
    }
  }

  lemma EnqueueStop(s: State, p: Path, force: bool)
    requires p in s.nodes
    ensures var s', n := Enqueue(s, p, Stop(force)), s.nodes[p];
      && s'.nodes.Keys == s.nodes.Keys && SameCore(n.(mailbox := [Stop(force)] + n.mailbox), s'.nodes[p])
      && (forall q :: q in s.nodes && q != p ==> SameCore(s.nodes[q], s'.nodes[q]))
  {
    EnqueueData(s, p, Stop(force));
    var s1 := Put(s, p, Mailed(s.nodes[p], Stop(force)));
    ActivateFrame(s1, p);
    assert SameCore(s1.nodes[p], Activate(s1, p).nodes[p]);
  }

  lemma StopLeafData(s: State, p: Path, force: bool, arg: StopArg, x: Path)
    requires p in s.nodes && p.Kid? && x in s.nodes && !s.nodes[p].isGroup && Resolves(s.nodes[p], arg)
    ensures x in StopLeaf(s, p, force, arg).nodes
    ensures var m := StopLeaf(s, p, force, arg).nodes[x];
      SameData(StoppedData(s, p, force, arg, x), m) && m.children == s.nodes[x].children
  {
    SubsetSize(arg.finished, s.nodes[p].chains);
    var s1 := Put(s, p, StoppedLeaf(s.nodes[p], force, arg));
    ActivateFrame(s1, p);
    assert SameCore(s1.nodes[x], Activate(s1, p).nodes[x]);
  }

  lemma StopGroupData(s: State, p: Path, force: bool, arg: StopArg, x: Path)
    requires p in s.nodes && p.Kid? && x in s.nodes && s.nodes[p].isGroup && Resolves(s.nodes[p], arg)
    ensures x in StopGroup(s, p, force, arg).nodes
    ensures var m := StopGroup(s, p, force, arg).nodes[x];
      SameData(StoppedData(s, p, force, arg, x), m) && m.children == s.nodes[x].children
  {
    var s1 := StopKids(Put(s, p, s.nodes[p].(stop := StatusFor(force))), p, arg.order, force);
    StopGroupMail(s, p, force, arg, x);
    StopGroupMail(s, p, force, arg, p);
    var s2 := if force then CleanMailbox(s1, p) else s1;
    ActivateFrame(s2, p);
    assert SameCore(s2.nodes[x], Activate(s2, p).nodes[x]);
  }

  /** The group's own mail aside, the children have been told. */
  lemma StopGroupMail(s: State, p: Path, force: bool, arg: StopArg, x: Path)
    requires p in s.nodes && p.Kid? && x in s.nodes && s.nodes[p].isGroup && Resolves(s.nodes[p], arg)
    ensures var s1 := StopKids(Put(s, p, s.nodes[p].(stop := StatusFor(force))), p, arg.order, force);
      && x in s1.nodes && s1.nodes[x].children == s.nodes[x].children
      && SameData(if x == p then s.nodes[p].(stop := StatusFor(force)) else StoppedData(s, p, force, arg, x),
                  s1.nodes[x])
  {
    var s0 := Put(s, p, s.nodes[p].(stop := StatusFor(force)));
    AncParent(p);
    StopKidsData(s0, p, arg.order, force, x);
  }

  lemma StopNodeData(s: State, p: Path, force: bool, arg: StopArg, x: Path)
    requires p in s.nodes && p.Kid? && p.parent in s.nodes && x in s.nodes && Resolves(s.nodes[p], arg)
    ensures StoppedAs(s, StopNode(s, p, force, arg), p, force, arg, x)
  {
    AncParent(p);
    if s.nodes[p].isGroup {
      StopGroupData(s, p, force, arg, x);
      StopGroupData(s, p, force, arg, p.parent);
    } else {
      StopLeafData(s, p, force, arg, x);
      StopLeafData(s, p, force, arg, p.parent);
    }
  }

  // ----- Shutdown -----

  /** The node at `x` after the root children `keys` have been stopped. */
  ghost function AllStopped(s: State, keys: seq<Key>, force: bool, args: map<Key, StopArg>, x: Path): Node
    requires x in s.nodes && forall k :: k in keys ==> k in args && Kid(Root, k) in s.nodes
  {
    if x.Kid? && x.parent == Root && x.key in keys then StoppedData(s, x, force, args[x.key], x)
    else if x.Kid? && x.parent.Kid? && x.parent.parent == Root && x.parent.key in keys then
      assert x.parent == Kid(Root, x.parent.key);
      StoppedData(s, x.parent, force, args[x.parent.key], x)
    else s.nodes[x]
  }

  ghost predicate AllResolve(s: State, keys: seq<Key>, args: map<Key, StopArg>) {
    forall k :: k in keys ==> k in args && Kid(Root, k) in s.nodes && Resolves(s.nodes[Kid(Root, k)], args[k])
  }

  /** Stopping one root child leaves what the others' stops read alone. */
  lemma ResolveOnward(s: State, p: Path, force: bool, keys: seq<Key>, args: map<Key, StopArg>)
    requires keys != [] && NoDup(keys) && p == Kid(Root, keys[0]) && Root in s.nodes && AllResolve(s, keys, args)
    ensures keys[0] in args && p in s.nodes && AllResolve(StopNode(s, p, force, args[keys[0]]), keys[1..], args)
  {
    assert keys[0] in keys;
    var s1 := StopNode(s, p, force, args[keys[0]]);
    forall k | k in keys[1..]
      ensures k in args && Kid(Root, k) in s1.nodes && Resolves(s1.nodes[Kid(Root, k)], args[k])
    {
      assert k in keys && k != keys[0];
      StopNodeData(s, p, force, args[keys[0]], Kid(Root, k));
    }
  }

  lemma {:induction false} StopAllData(s: State, keys: seq<Key>, force: bool, args: map<Key, StopArg>, x: Path)
    requires NoDup(keys) && Root in s.nodes && AllResolve(s, keys, args) && x in s.nodes
    ensures var s' := StopAll(s, force, keys, args);
      x in s'.nodes && SameData(AllStopped(s, keys, force, args, x), s'.nodes[x])
    decreases |keys|
  {
    if keys != [] {
      var p := Kid(Root, keys[0]);
      ResolveOnward(s, p, force, keys, args);
      var s1 := StopNode(s, p, force, args[keys[0]]);
      forall y | y in s.nodes ensures StoppedAs(s, s1, p, force, args[keys[0]], y) {
        StopNodeData(s, p, force, args[keys[0]], y);
      }
      assert StoppedAs(s, s1, p, force, args[keys[0]], Root) && StoppedAs(s, s1, p, force, args[keys[0]], x);
      StopAllData(s1, keys[1..], force, args, x);
      StopAllStep(s, s1, keys, force, args, x);
    }
  }

  /** One stop and then the others, seen from `x`, is all of them. */
  lemma StopAllStep(s: State, s1: State, keys: seq<Key>, force: bool, args: map<Key, StopArg>, x: Path)
    requires keys != [] && NoDup(keys) && AllResolve(s, keys, args) && AllResolve(s1, keys[1..], args)
    requires keys[0] in keys && x in s.nodes && StoppedAs(s, s1, Kid(Root, keys[0]), force, args[keys[0]], x)
    requires forall y :: y in s.nodes ==> StoppedAs(s, s1, Kid(Root, keys[0]), force, args[keys[0]], y)
    ensures SameData(AllStopped(s, keys, force, args, x), AllStopped(s1, keys[1..], force, args, x))
  {
    assert forall k :: k in keys <==> k == keys[0] || k in keys[1..];
    assert keys[0] !in keys[1..];
    if x.Kid? && x.parent.Kid? && x.parent.parent == Root && x.parent.key in keys {
      assert x.parent == Kid(Root, x.parent.key);
      assert StoppedAs(s, s1, Kid(Root, keys[0]), force, args[keys[0]], x.parent);
    }
  }

  // ----- Every step -----

  /** The running node after its own part of a step, before a stop it may ask for. */
  ghost function OwnPart(s: State, a: Action): Node
    requires Enabled(s, a)
  {
    var n := s.nodes[s.cur];
    if a.GroupMail? || a.Mail? then
      n.(mailbox := n.mailbox[1..], started := n.started + Users(n.mailbox[..1]))
    else if a.Task? then n.(tasks := n.tasks[1..])
    else if a.TaskEnd? && a.finished then
      n.(chains := n.chains - {s.pc.chain}, inflight := |n.chains - {s.pc.chain}|)
    else if a.Work? && a.outcome.Suspended? then
      n.(chains := n.chains + {a.outcome.chain}, inflight := |n.chains + {a.outcome.chain}|)
    else n
  }

  /** The kind of stop that the running node gives itself: by message, or by a stop reaction. */
  ghost function SelfStop(s: State, a: Action): Option<(bool, StopArg)>
    requires Enabled(s, a)
  {
    var n := s.nodes[s.cur];
    if (a.GroupMail? || a.Mail?) && n.mailbox[0].Stop? then Some((n.mailbox[0].force, a.arg))
    else if a.TaskEnd? && a.finished && a.stop then Some((true, a.arg))
    else if a.Work? && a.outcome == Done(true) then Some((true, a.arg))
    else None
  }

  /** The data of the live node `x` after the step. */
  ghost function After(s: State, a: Action, x: Path): Node
    requires Enabled(s, a) && x in s.nodes
  {
    var n := s.nodes[x];
    if a.Receive? then
      if x.Kid? && x == Addressee(a.dest) && !Refused(s, x) then
        n.(mailbox := WithMail(n.mailbox, a.m), arrived := n.arrived + if a.m.User? then [a.m.id] else [])
      else n
    else if a.Shutdown? then
      if s.nodes[Root].stop != Running then n
      else if x == Root then n.(stop := if a.force then ForceStopping else PeaceStopping)
      else AllStopped(s, a.keys, a.force, a.args, x)
    else if a.Resume? then
      if x == a.p then n.(tasks := if a.urgent then [a.chain] + n.tasks else n.tasks + [a.chain]) else n
    else
      var stop := SelfStop(s, a);
      if stop.Some? && s.nodes[s.cur].stop == Running then
        StoppedData(Put(s, s.cur, OwnPart(s, a)), s.cur, stop.value.0, stop.value.1, x)
      else if x == s.cur then OwnPart(s, a) else n
  }

  lemma ShutdownData(s: State, a: Action, x: Path)
    requires Inv(s) && Enabled(s, a) && a.Shutdown? && x in s.nodes
    ensures x in Next(s, a).nodes && SameData(After(s, a, x), Next(s, a).nodes[x])
  {
    if s.nodes[Root].stop == Running {
      var s1 := Put(s, Root, s.nodes[Root].(stop := StatusFor(a.force)));
      forall k | k in a.keys ensures Kid(Root, k) in s1.nodes && Resolves(s1.nodes[Kid(Root, k)], a.args[k]) {
        assert NodeOk(s, Kid(Root, k), {}, {}, {});
      }
      StopAllData(s1, a.keys, a.force, a.args, x);
      AllStoppedBelow(s, s1, a.keys, a.force, a.args, x);
    }
  }

  lemma AllStoppedBelow(s: State, s1: State, keys: seq<Key>, force: bool, args: map<Key, StopArg>, x: Path)
    requires Root in s.nodes && Root in s1.nodes && s1 == Put(s, Root, s1.nodes[Root]) && x in s.nodes
    requires forall k :: k in keys ==> k in args && Kid(Root, k) in s.nodes
    ensures AllStopped(s1, keys, force, args, x) ==
            if x == Root then s1.nodes[Root] else AllStopped(s, keys, force, args, x)
  {
  }

  lemma ResumeData(s: State, a: Action, x: Path)
    requires Inv(s) && Enabled(s, a) && a.Resume? && x in s.nodes
    ensures x in Next(s, a).nodes && SameData(After(s, a, x), Next(s, a).nodes[x])
  {
    ResumedNode(s, a.p, a.chain, a.urgent, x);
  }

  /** The continuation is queued at its end, its actor is scheduled, and nothing else changes. */
  ghost predicate Requeued(s: State, s': State, p: Path, chain: nat, urgent: bool) {
    && p in s.nodes && s'.nodes.Keys == s.nodes.Keys && s'.nodes[p].sched == Scheduled
    && SameData(s.nodes[p].(tasks := if urgent then [chain] + s.nodes[p].tasks else s.nodes[p].tasks + [chain]),
                s'.nodes[p])
    && OthersSame(s, s', p)
  }

  lemma ResumeEffect(s: State, p: Path, chain: nat, urgent: bool)
    requires Inv(s) && Enabled(s, Resume(p, chain, urgent))
    ensures Requeued(s, Next(s, Resume(p, chain, urgent)), p, chain, urgent)
  {
    var s' := Next(s, Resume(p, chain, urgent));
    ActivateFrame(Put(s, p, AddTask(s.nodes[p], chain, urgent)), p);
    forall x | x in s.nodes ensures x in s'.nodes && (x != p ==> SameData(s.nodes[x], s'.nodes[x])) {
      ResumedNode(s, p, chain, urgent, x);
    }
    ResumedNode(s, p, chain, urgent, p);
    ResumeSchedules(s, p, chain, urgent);
  }

  lemma ResumeSchedules(s: State, p: Path, chain: nat, urgent: bool)
    requires Inv(s) && Enabled(s, Resume(p, chain, urgent))
    ensures var s' := Next(s, Resume(p, chain, urgent)); p in s'.nodes && s'.nodes[p].sched == Scheduled
  {
    StepOk(s, Resume(p, chain, urgent));
    ResumedNode(s, p, chain, urgent, p);
    assert NodeOk(Next(s, Resume(p, chain, urgent)), p, {}, {}, {});
  }

  lemma ResumedNode(s: State, p: Path, chain: nat, urgent: bool, x: Path)
    requires p in s.nodes && x in s.nodes
    ensures var n, s' := s.nodes[x], Activate(Put(s, p, AddTask(s.nodes[p], chain, urgent)), p);
      && x in s'.nodes
      && SameCore(if x == p then n.(tasks := if urgent then [chain] + n.tasks else n.tasks + [chain]) else n,
                  s'.nodes[x])
  {
    var s1 := Put(s, p, AddTask(s.nodes[p], chain, urgent));
    ActivateFrame(s1, p);
    assert SameCore(s1.nodes[x], Activate(s1, p).nodes[x]);
  }

  /** The running node stops itself, or finds that it is stopping already. */
  lemma SelfStopData(s: State, n: Node, stop: bool, force: bool, arg: StopArg, x: Path)
    requires Inv(s) && s.cur.Kid? && x in s.nodes && n.children == s.nodes[s.cur].children
    requires stop && s.nodes[s.cur].stop == Running ==> Resolves(n, arg)
    ensures var s1 := Put(s, s.cur, n);
      var s' := MaybeStop(s1, stop, force, arg);
      && x in s'.nodes
      && SameData(if stop && s.nodes[s.cur].stop == Running then StoppedData(s1, s.cur, force, arg, x)
                  else s1.nodes[x], s'.nodes[x])
  {
    var s1 := Put(s, s.cur, n);
    assert NodeOk(s, s.cur, {}, {}, {});
    AncParent(s.cur);
    assert Tombstoned(s1, s.cur) <==> s.nodes[s.cur].stop != Running;
    if stop && s.nodes[s.cur].stop == Running { StopNodeData(s1, s.cur, force, arg, x); }
  }

  lemma MailData(s: State, a: Action, x: Path)
    requires Inv(s) && Enabled(s, a) && (a.GroupMail? || a.Mail?) && x in s.nodes
    ensures x in Next(s, a).nodes && SameData(After(s, a, x), Next(s, a).nodes[x])
  {
    var n := s.nodes[s.cur];
    var m := n.mailbox[0];
    PoppedPart(s, a);
    SelfStopData(s, PopMail(n), m.Stop?, m.Stop? && m.force, a.arg, x);
  }

  lemma PoppedPart(s: State, a: Action)
    requires Inv(s) && Enabled(s, a) && (a.GroupMail? || a.Mail?)
    ensures var n := s.nodes[s.cur];
      && OwnPart(s, a) == PopMail(n)
      && (n.mailbox[0].Stop? && n.stop == Running ==> Resolves(PopMail(n), a.arg))
  {
    var n := s.nodes[s.cur];
    assert NodeOk(s, s.cur, {}, {}, {});
    if !n.isGroup { PopMailNode(n); }
    assert Users(n.mailbox[..1]) == if n.mailbox[0].User? then [n.mailbox[0].id] else [];
  }

  lemma TaskEndData(s: State, a: Action, x: Path)
    requires Inv(s) && Enabled(s, a) && a.TaskEnd? && x in s.nodes
    ensures x in Next(s, a).nodes && SameData(After(s, a, x), Next(s, a).nodes[x])
  {
    var n := s.nodes[s.cur];
    assert NodeOk(s, s.cur, {}, {}, {});
    if a.finished {
      EndChainNode(n, s.pc.chain);
      assert OwnPart(s, a) == EndChain(n, s.pc.chain);
      SelfStopData(s, EndChain(n, s.pc.chain), a.stop, true, a.arg, x);
    } else {
      assert Put(s, s.cur, n) == s;
    }
  }

  lemma WorkData(s: State, a: Action, x: Path)
    requires Inv(s) && Enabled(s, a) && a.Work? && x in s.nodes
    ensures x in Next(s, a).nodes && SameData(After(s, a, x), Next(s, a).nodes[x])
  {
    var n := s.nodes[s.cur];
    assert NodeOk(s, s.cur, {}, {}, {});
    if a.outcome.Done? {
      SelfStopData(s, n, a.outcome.stop, true, a.arg, x);
      assert Put(s, s.cur, n) == s;
    }
  }

  lemma QuietData(s: State, a: Action, x: Path)
    requires Inv(s) && Enabled(s, a) && x in s.nodes
    requires a.Run? || a.GroupMailEnd? || a.GroupQueueEnd? || a.Task? || a.MailEnd?
    ensures x in Next(s, a).nodes && SameData(After(s, a, x), Next(s, a).nodes[x])
  {
  }

  lemma TasksEndData(s: State, a: Action, x: Path)
    requires Inv(s) && Enabled(s, a) && x in s.nodes && a.TasksEnd?
    ensures x in Next(s, a).nodes && SameData(After(s, a, x), Next(s, a).nodes[x])
  {
    LeaveData(s, false, a.quit, x);
  }

  lemma EndData(s: State, a: Action, x: Path)
    requires Inv(s) && Enabled(s, a) && x in s.nodes && x in Next(s, a).nodes && (a.GroupEnd? || a.ActorEnd?)
    ensures SameData(After(s, a, x), Next(s, a).nodes[x])
  {
    FinishData(s, a.quit, x);
  }

  lemma FinishData(s: State, quit: bool, x: Path)
    requires s.cur.Kid? && s.cur in s.nodes && s.cur.parent in s.nodes && x in s.nodes && x in Finish(s, quit).nodes
    ensures SameData(s.nodes[x], Finish(s, quit).nodes[x])
  {
    if !Deletable(s.nodes[s.cur]) { LeaveData(s, MoreWork(s.nodes[s.cur]), quit, x); }
  }

  lemma LeaveData(s: State, again: bool, quit: bool, x: Path)
    requires s.cur.Kid? && s.cur in s.nodes && x in s.nodes
    ensures x in Leave(s, again, quit).nodes && SameData(s.nodes[x], Leave(s, again, quit).nodes[x])
  {
    var s1 := Leave(s, false, quit);
    ActivateFrame(s1, s.cur);
    assert SameCore(s1.nodes[x], Activate(s1, s.cur).nodes[x]);
  }

  /** Every step changes the data of every surviving node as `After` says. */
  lemma StepEffect(s: State, a: Action, x: Path)
    requires Inv(s) && Enabled(s, a) && x in s.nodes && x in Next(s, a).nodes
    ensures SameData(After(s, a, x), Next(s, a).nodes[x])
  {
    if a.Receive? { ReceiveEffect(s, a.dest, a.m, a.cap); }
    else if a.Shutdown? { ShutdownData(s, a, x); }
    else if a.Resume? { ResumeData(s, a, x); }
    else if a.GroupMail? || a.Mail? { MailData(s, a, x); }
    else if a.TaskEnd? { TaskEndData(s, a, x); }
    else if a.Work? { WorkData(s, a, x); }
    else if a.TasksEnd? { TasksEndData(s, a, x); }
    else if a.GroupEnd? || a.ActorEnd? { EndData(s, a, x); }
    else { QuietData(s, a, x); }
  }

  /** A node goes exactly when its slice ends with it stopping, its mail read and nothing left below or in flight. */
  lemma DeletedIff(s: State, a: Action, x: Path)
    requires Inv(s) && Enabled(s, a) && x in s.nodes
    ensures var n := s.nodes[x];
      x !in Next(s, a).nodes <==>
      && (a.ActorEnd? || a.GroupEnd?) && x == s.cur && n.stop != Running && n.mailbox == []
      && if n.isGroup then LiveKeys(s.nodes, x) == {} && n.queue == [] else n.chains == {}
  {
    assert NodeOk(s, s.cur, {}, {}, {});
    if a.ActorEnd? || a.GroupEnd? {
      FinishKeeps(s, a.quit, x);
    } else {
      StepKeeps(s, a, x);
    }
  }

  lemma FinishKeeps(s: State, quit: bool, x: Path)
    requires s.cur.Kid? && s.cur in s.nodes && s.cur.parent in s.nodes && x in s.nodes
    ensures x in Finish(s, quit).nodes <==> !(x == s.cur && Deletable(s.nodes[s.cur]))
  {
    AncParent(s.cur);
    LeaveData(s, MoreWork(s.nodes[s.cur]), quit, x);
  }

  lemma StepKeeps(s: State, a: Action, x: Path)
    requires Inv(s) && Enabled(s, a) && x in s.nodes && !a.ActorEnd? && !a.GroupEnd?
    ensures x in Next(s, a).nodes
  {
    if a.Receive? { ReceiveKeeps(s, a.dest, a.m, a.cap, x); }
    else if a.Shutdown? { ShutdownData(s, a, x); }
    else if a.Resume? { ResumeData(s, a, x); }
    else if a.GroupMail? || a.Mail? { MailData(s, a, x); }
    else if a.TaskEnd? { TaskEndData(s, a, x); }
    else if a.Work? { WorkData(s, a, x); }
    else if a.TasksEnd? { TasksEndData(s, a, x); }
    else { QuietData(s, a, x); }
  }

  lemma ReceiveKeeps(s: State, dest: Path, m: Msg, cap: nat, x: Path)
    requires Inv(s) && dest.Kid? && x in s.nodes
    ensures x in Next(s, Receive(dest, m, cap)).nodes
  {
    ReceiveEffect(s, dest, m, cap);
  }
}

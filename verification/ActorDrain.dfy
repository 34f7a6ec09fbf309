/** A stopped subtree drains: a well-founded measure that no step but a resume can raise. */
module ActorDrain {
  import opened ActorTree
  import opened ActorRuns

  // ----- Sums over finite maps -----

  ghost function Total(m: map<Path, nat>): nat
    decreases |m|
  {
    if m == map[] then 0 else var k :| k in m; m[k] + Total(m - {k})
  }

  lemma {:induction false} TotalPick(m: map<Path, nat>, k: Path)
    requires k in m
    ensures Total(m) == m[k] + Total(m - {k})
    decreases |m|
  {
    var j :| j in m && Total(m) == m[j] + Total(m - {j});
    if j != k {
      TotalPick(m - {j}, k);
      TotalPick(m - {k}, j);
      assert m - {j} - {k} == m - {k} - {j};
    }
  }

  lemma {:induction false} TotalLe(m: map<Path, nat>, m': map<Path, nat>)
    requires m'.Keys <= m.Keys && forall k :: k in m' ==> m'[k] <= m[k]
    ensures Total(m') <= Total(m)
    decreases |m'|
  {
    if m' != map[] {
      var k :| k in m';
      TotalPick(m, k);
      TotalPick(m', k);
      TotalLe(m - {k}, m' - {k});
    }
  }

  lemma TotalLt(m: map<Path, nat>, m': map<Path, nat>, x: Path)
    requires m'.Keys <= m.Keys && forall k :: k in m' ==> m'[k] <= m[k]
    requires x in m && (if x in m' then m'[x] < m[x] else m[x] > 0)
    ensures Total(m') < Total(m)
  {
    TotalPick(m, x);
    if x in m' {
      TotalPick(m', x);
      TotalLe(m - {x}, m' - {x});
    } else {
      TotalLe(m - {x}, m');
    }
  }

  // ----- The measure -----

  function RunningWeight(n: Node): nat {
    if n.stop == Running then 1 else 0
  }

  /** A message weighs two because it may become a chain, which weighs one. */
  function LoadWeight(s: State, x: Path): nat
    requires x in s.nodes
  {
    2 * |s.nodes[x].mailbox| + |s.nodes[x].chains| + 1 + (if s.cur == x && s.pc.LWork? then 1 else 0)
  }

  ghost function RunningSum(s: State, r: Path): nat {
    Total(map x | x in Below(s, r) :: RunningWeight(s.nodes[x]))
  }

  ghost function LoadSum(s: State, r: Path): nat {
    Total(map x | x in Below(s, r) :: LoadWeight(s, x))
  }

  ghost function TaskSum(s: State, r: Path): nat {
    Total(map x | x in Below(s, r) :: |s.nodes[x].tasks|)
  }

  /** Lexicographic: nodes not yet stopping, then messages, chains and nodes, then queued tasks. */
  ghost predicate Less(s': State, s: State, r: Path) {
    || RunningSum(s', r) < RunningSum(s, r)
    || (RunningSum(s', r) == RunningSum(s, r) &&
        (|| LoadSum(s', r) < LoadSum(s, r)
         || (LoadSum(s', r) == LoadSum(s, r) && TaskSum(s', r) < TaskSum(s, r))))
  }

  ghost predicate NotMore(s': State, s: State, r: Path) {
    || Less(s', s, r)
    || (RunningSum(s', r) == RunningSum(s, r) && LoadSum(s', r) == LoadSum(s, r) && TaskSum(s', r) == TaskSum(s, r))
  }

  /** No node below `r` weighs more than before. */
  ghost predicate Calm(s: State, s': State, r: Path) {
    && Below(s', r) <= Below(s, r)
    && (forall x :: x in Below(s', r) ==> CalmNode(s, s', x))
  }

  predicate CalmNode(s: State, s': State, x: Path)
    requires x in s.nodes && x in s'.nodes
  {
    && RunningWeight(s'.nodes[x]) <= RunningWeight(s.nodes[x])
    && LoadWeight(s', x) <= LoadWeight(s, x)
    && |s'.nodes[x].tasks| <= |s.nodes[x].tasks|
  }

  /** One node below `r` weighs strictly less, or is gone. */
  ghost predicate Lighter(s: State, s': State, r: Path, x: Path) {
    && x in Below(s, r)
    && (x in Below(s', r) ==>
          || RunningWeight(s'.nodes[x]) < RunningWeight(s.nodes[x])
          || LoadWeight(s', x) < LoadWeight(s, x)
          || |s'.nodes[x].tasks| < |s.nodes[x].tasks|)
  }

  lemma CalmNotMore(s: State, s': State, r: Path)
    requires Calm(s, s', r)
    ensures NotMore(s', s, r)
    ensures RunningSum(s', r) <= RunningSum(s, r) && LoadSum(s', r) <= LoadSum(s, r) && TaskSum(s', r) <= TaskSum(s, r)
  {
    forall x | x in Below(s', r) ensures CalmNode(s, s', x) { }
    TotalLe(map x | x in Below(s, r) :: RunningWeight(s.nodes[x]),
            map x | x in Below(s', r) :: RunningWeight(s'.nodes[x]));
    TotalLe(map x | x in Below(s, r) :: LoadWeight(s, x), map x | x in Below(s', r) :: LoadWeight(s', x));
    TotalLe(map x | x in Below(s, r) :: |s.nodes[x].tasks|,
            map x | x in Below(s', r) :: |s'.nodes[x].tasks|);
  }

  lemma LighterLess(s: State, s': State, r: Path, x: Path)
    requires Calm(s, s', r) && Lighter(s, s', r, x)
    ensures Less(s', s, r)
  {
    CalmNotMore(s, s', r);
    forall y | y in Below(s', r) ensures CalmNode(s, s', y) { }
    var a, a' := map y | y in Below(s, r) :: RunningWeight(s.nodes[y]),
                 map y | y in Below(s', r) :: RunningWeight(s'.nodes[y]);
    var b, b' := map y | y in Below(s, r) :: LoadWeight(s, y), map y | y in Below(s', r) :: LoadWeight(s', y);
    var c, c' := map y | y in Below(s, r) :: |s.nodes[y].tasks|, map y | y in Below(s', r) :: |s'.nodes[y].tasks|;
    if x !in Below(s', r) || LoadWeight(s', x) < LoadWeight(s, x) {
      TotalLt(b, b', x);
    } else if RunningWeight(s'.nodes[x]) < RunningWeight(s.nodes[x]) {
      TotalLt(a, a', x);
    } else {
      TotalLt(c, c', x);
    }
  }

  /** A node below `r` begins to stop: what it sends its children no longer matters. */
  lemma StopLess(s: State, s': State, r: Path, p: Path)
    requires Below(s', r) <= Below(s, r) && p in Below(s', r)
    requires forall x :: x in Below(s', r) ==> RunningWeight(s'.nodes[x]) <= RunningWeight(s.nodes[x])
    requires s.nodes[p].stop == Running && s'.nodes[p].stop != Running
    ensures Less(s', s, r)
  {
    TotalLt(map y | y in Below(s, r) :: RunningWeight(s.nodes[y]),
            map y | y in Below(s', r) :: RunningWeight(s'.nodes[y]), p);
  }

  // ----- What each kind of step does to the nodes below `r` -----

  /** The fields the measure reads. */
  predicate SameLoad(n: Node, m: Node) {
    m.stop == n.stop && m.mailbox == n.mailbox && m.chains == n.chains && m.tasks == n.tasks
  }

  ghost predicate Stopped(s: State, r: Path) {
    r.Kid? && r in s.nodes && s.nodes[r].stop != Running
  }

  lemma BelowSealed(s: State, r: Path)
    requires Inv(s) && Stopped(s, r)
    ensures forall x :: Anc(r, x) ==> Sealed(s, x)
  {
    assert NodeOk(s, r, {}, {}, {});
    forall x | Anc(r, x) ensures Sealed(s, x) { SealedBelow(s, r, x); }
  }

  lemma BelowKeeps(s: State, s': State, r: Path)
    requires Inv(s) && Stopped(s, r) && SealStep(s, s')
    ensures Below(s', r) <= Below(s, r)
  {
    BelowSealed(s, r);
  }

  /** A step whose only effect on loads is at the running node. */
  ghost predicate OnlyCur(s: State, s': State) {
    && (s'.pc.LWork? ==> s'.cur == s.cur)
    && (forall x :: x in s.nodes && x in s'.nodes && x != s.cur ==> SameLoad(s.nodes[x], s'.nodes[x]))
  }

  lemma CurCalm(s: State, s': State, r: Path)
    requires Inv(s) && Stopped(s, r) && SealStep(s, s') && OnlyCur(s, s')
    requires s.cur in s'.nodes && s.cur in Below(s, r) ==> CalmNode(s, s', s.cur)
    ensures Calm(s, s', r)
  {
    BelowKeeps(s, s', r);
    forall x | x in Below(s', r) ensures CalmNode(s, s', x) {
      if x != s.cur { assert SameLoad(s.nodes[x], s'.nodes[x]); }
    }
  }

  lemma ReceiveCalm(s: State, dest: Path, m: Msg, cap: nat, r: Path)
    requires Inv(s) && Stopped(s, r)
    ensures Calm(s, Deliver(s, dest, m, cap), r)
  {
    var s' := Deliver(s, dest, m, cap);
    ReceiveOk(s, dest, m, cap);
    BelowKeeps(s, s', r);
    RouteOk(s, dest, cap);
    var (s1, w) := Route(s, dest, cap);
    BelowSealed(s, r);
    forall x | x in Below(s', r) ensures CalmNode(s, s', x) {
      assert RouteFrameNode(s.nodes[x], s1.nodes[x]);
      if w.At? {
        SealedForever(s, s1, x);
        MailedElsewhere(s1, w.p, m, x);
      }
    }
  }

  /** Mail to one node leaves what another one weighs alone. */
  lemma MailedElsewhere(s: State, p: Path, m: Msg, x: Path)
    requires p in s.nodes && x in s.nodes && x != p
    ensures var s' := Enqueue(s, p, m);
      x in s'.nodes && SameLoad(s.nodes[x], s'.nodes[x]) && s'.cur == s.cur && s'.pc == s.pc
  {
    var s2 := Put(s, p, Mailed(s.nodes[p], m));
    ActivateFrame(s2, p);
    assert SameCore(s2.nodes[x], Activate(s2, p).nodes[x]);
  }

  // -- stops elsewhere

  lemma {:induction false} StopKidsQuiet(s: State, p: Path, keys: seq<Key>, force: bool, x: Path)
    requires x in s.nodes && !(x.Kid? && x.parent == p && x.key in keys)
    ensures x in StopKids(s, p, keys, force).nodes
    ensures StopKids(s, p, keys, force).nodes[x].mailbox == s.nodes[x].mailbox
    decreases |keys|
  {
    if keys != [] {
      var q := Kid(p, keys[0]);
      if q in s.nodes {
        StopMailFrame(s, q, force);
        StopKidsQuiet(Enqueue(s, q, Stop(force)), p, keys[1..], force, x);
      } else {
        StopKidsQuiet(s, p, keys[1..], force, x);
      }
    }
  }

  lemma StopGroupQuiet(s: State, p: Path, force: bool, arg: StopArg, x: Path)
    requires p in s.nodes && x in s.nodes && x != p
    requires !(x.Kid? && x.parent == p && x.key in arg.order)
    ensures x in StopGroup(s, p, force, arg).nodes
    ensures StopGroup(s, p, force, arg).nodes[x].mailbox == s.nodes[x].mailbox
  {
    var s0 := Put(s, p, s.nodes[p].(stop := StatusFor(force)));
    StopKidsQuiet(s0, p, arg.order, force, x);
    StopKidsFrame(s0, p, arg.order, force);
    var s1 := StopKids(s0, p, arg.order, force);
    var s2 := if force && p in s1.nodes then CleanMailbox(s1, p) else s1;
    ActivateFrame(s2, p);
    assert SameCore(s2.nodes[x], Activate(s2, p).nodes[x]);
  }

  lemma StopLeafQuiet(s: State, p: Path, force: bool, arg: StopArg, x: Path)
    requires p in s.nodes && x in s.nodes && x != p
    ensures x in StopLeaf(s, p, force, arg).nodes && SameLoad(s.nodes[x], StopLeaf(s, p, force, arg).nodes[x])
  {
    var s1 := Put(s, p, StoppedLeaf(s.nodes[p], force, arg));
    ActivateFrame(s1, p);
    assert SameCore(s1.nodes[x], Activate(s1, p).nodes[x]);
  }

  lemma StopNodeQuiet(s: State, p: Path, force: bool, arg: StopArg, x: Path)
    requires p.Kid? && p in s.nodes && x in s.nodes && x != p
    requires !(x.Kid? && x.parent == p && x.key in arg.order)
    ensures x in StopNode(s, p, force, arg).nodes
    ensures SameLoad(s.nodes[x], StopNode(s, p, force, arg).nodes[x])
  {
    if s.nodes[p].isGroup {
      StopGroupQuiet(s, p, force, arg, x);
      StopGroupOnlyMail(s, p, force, arg);
      var s0 := Put(s, p, s.nodes[p].(stop := StatusFor(force)));
      assert SameButMail(s0.nodes[x], StopGroup(s, p, force, arg).nodes[x]);
    } else {
      StopLeafQuiet(s, p, force, arg, x);
    }
  }

  lemma {:induction false} StopAllQuiet(s: State, force: bool, keys: seq<Key>, args: map<Key, StopArg>, x: Path)
    requires x in s.nodes
    requires forall k :: k in keys && k in args ==>
               x != Kid(Root, k) && !(x.Kid? && x.parent == Kid(Root, k) && x.key in args[k].order)
    ensures x in StopAll(s, force, keys, args).nodes
    ensures SameLoad(s.nodes[x], StopAll(s, force, keys, args).nodes[x])
    decreases |keys|
  {
    if keys != [] {
      var k := keys[0];
      assert k in keys;
      var p := Kid(Root, k);
      var s1 := if p in s.nodes && k in args then StopNode(s, p, force, args[k]) else s;
      if p in s.nodes && k in args { StopNodeQuiet(s, p, force, args[k], x); }
      StopAllQuiet(s1, force, keys[1..], args, x);
    }
  }

  /** A child still in the map of a node outside the stopped subtree is outside it too. */
  lemma OutsideKid(s: State, r: Path, p: Path, x: Path)
    requires Inv(s) && Stopped(s, r) && p in s.nodes && !Anc(r, p) && Anc(r, x)
    ensures x != p
    ensures x.Kid? && x.parent == p ==> x == r && x.key in s.nodes[p].children && !s.nodes[p].children[x.key]
  {
    assert NodeOk(s, r, {}, {}, {});
  }

  lemma ShutdownCalm(s: State, force: bool, keys: seq<Key>, args: map<Key, StopArg>, r: Path)
    requires Inv(s) && ValidSystemArgs(s, force, keys, args) && Stopped(s, r)
    ensures Calm(s, StopSystem(s, force, keys, args), r)
  {
    var s' := StopSystem(s, force, keys, args);
    ShutdownOk(s, force, keys, args);
    BelowKeeps(s, s', r);
    forall x | x in Below(s', r) ensures CalmNode(s, s', x) {
      if s.nodes[Root].stop == Running {
        ShutdownQuiet(s, force, keys, args, r, x);
      }
    }
  }

  lemma ShutdownQuiet(s: State, force: bool, keys: seq<Key>, args: map<Key, StopArg>, r: Path, x: Path)
    requires Inv(s) && ValidSystemArgs(s, force, keys, args) && Stopped(s, r) && x in Below(s, r)
    requires s.nodes[Root].stop == Running
    ensures x in StopSystem(s, force, keys, args).nodes && CalmNode(s, StopSystem(s, force, keys, args), x)
  {
    var s1 := Put(s, Root, s.nodes[Root].(stop := StatusFor(force)));
    assert NodeOk(s, r, {}, {}, {});
    forall k | k in keys && k in args
      ensures x != Kid(Root, k) && !(x.Kid? && x.parent == Kid(Root, k) && x.key in args[k].order)
    {
      assert r != Kid(Root, k);
      OutsideKid(s, r, Kid(Root, k), x);
    }
    assert x != Root by { AncShorter(r, x); }
    StopAllQuiet(s1, force, keys, args, x);
    ShutdownStart(s, force, keys, args);
    StopAllOk(s1, force, keys, args, KidsOf(Root, keys));
  }

  // -- steps of the running node

  /** `StopChild` by the running node after it lost `popped` load: strictly less below `r`. */
  lemma SelfStopDrains(s: State, s1: State, force: bool, arg: StopArg, pc: Pc, r: Path)
    requires Inv(s) && Stopped(s, r) && s.cur.Kid? && StopReady(s, force, arg) && !pc.LWork?
    requires s1.cur == s.cur && s1.nodes.Keys == s.nodes.Keys
    requires forall x :: x in s.nodes && x != s.cur ==> s1.nodes[x] == s.nodes[x]
    requires s1.nodes[s.cur].stop == s.nodes[s.cur].stop && s1.nodes[s.cur].children == s.nodes[s.cur].children
    requires s1.nodes[s.cur].isGroup == s.nodes[s.cur].isGroup
    requires SealStep(s, StopChild(s1, s.cur, force, arg).(pc := pc))
    requires 2 * |s1.nodes[s.cur].mailbox| + |s1.nodes[s.cur].chains| < LoadWeight(s, s.cur) - 1
    requires |s1.nodes[s.cur].tasks| <= |s.nodes[s.cur].tasks|
    ensures var s' := StopChild(s1, s.cur, force, arg).(pc := pc);
            NotMore(s', s, r) && (s.cur in Below(s, r) ==> Less(s', s, r))
  {
    var p := s.cur;
    var s' := StopChild(s1, p, force, arg).(pc := pc);
    assert NodeOk(s, p, {}, {}, {});
    assert p.parent != p by { AncParent(p); }
    assert Tombstoned(s1, p) <==> Tombstoned(s, p);
    if Tombstoned(s, p) {
      CurCalm(s, s', r);
      CalmNotMore(s, s', r);
      if p in Below(s, r) { LighterLess(s, s', r, p); }
    } else if Anc(r, p) {
      BelowKeeps(s, s', r);
      forall x | x in Below(s', r) && x != p ensures s'.nodes[x].stop == s.nodes[x].stop {
        StopNodeStops(s1, p, force, arg, x);
      }
      StopNodeStops(s1, p, force, arg, p);
      StopLess(s, s', r, p);
    } else {
      forall x | x in Below(s', r) && x in s.nodes ensures SameLoad(s.nodes[x], s'.nodes[x]) {
        OutsideKid(s, r, p, x);
        StopNodeQuiet(s1, p, force, arg, x);
      }
      BelowKeeps(s, s', r);
      assert Calm(s, s', r);
      CalmNotMore(s, s', r);
    }
  }

  lemma StopNodeStops(s: State, p: Path, force: bool, arg: StopArg, x: Path)
    requires p.Kid? && p in s.nodes && x in s.nodes
    ensures x in StopNode(s, p, force, arg).nodes
    ensures StopNode(s, p, force, arg).nodes[x].stop == if x == p then StatusFor(force) else s.nodes[x].stop
  {
    if s.nodes[p].isGroup {
      StopGroupStops(s, p, force, arg, x);
    } else {
      StopLeafStops(s, p, force, arg, x);
    }
  }

  lemma StopGroupStops(s: State, p: Path, force: bool, arg: StopArg, x: Path)
    requires p in s.nodes && x in s.nodes
    ensures x in StopGroup(s, p, force, arg).nodes
    ensures StopGroup(s, p, force, arg).nodes[x].stop == if x == p then StatusFor(force) else s.nodes[x].stop
  {
    StopGroupOnlyMail(s, p, force, arg);
    var s0 := Put(s, p, s.nodes[p].(stop := StatusFor(force)));
    assert SameButMail(s0.nodes[x], StopGroup(s, p, force, arg).nodes[x]);
  }

  lemma StopLeafStops(s: State, p: Path, force: bool, arg: StopArg, x: Path)
    requires p in s.nodes && x in s.nodes
    ensures x in StopLeaf(s, p, force, arg).nodes
    ensures StopLeaf(s, p, force, arg).nodes[x].stop == if x == p then StatusFor(force) else s.nodes[x].stop
  {
    var s1 := Put(s, p, StoppedLeaf(s.nodes[p], force, arg));
    ActivateFrame(s1, p);
    assert SameCore(s1.nodes[x], Activate(s1, p).nodes[x]);
  }

  /** Steps that do a unit of work: handle a message, run a task, end a chain, delete a node. */
  predicate Works(s: State, a: Action)
    requires s.cur in s.nodes
  {
    || a.GroupMail? || a.Mail? || a.Task?
    || (a.TaskEnd? && a.finished) || (a.Work? && a.outcome.Done?)
    || ((a.GroupEnd? || a.ActorEnd?) && Deletable(s.nodes[s.cur]))
  }

  ghost predicate Drains(s: State, a: Action, r: Path)
    requires Enabled(s, a)
  {
    NotMore(Next(s, a), s, r) && (Anc(r, s.cur) && Works(s, a) ==> Less(Next(s, a), s, r))
  }

  /** A step of the running node that sends no stop. */
  lemma CurDrains(s: State, s': State, r: Path, works: bool)
    requires Inv(s) && Stopped(s, r) && SealStep(s, s') && OnlyCur(s, s')
    requires s.cur in s'.nodes ==> CalmNode(s, s', s.cur)
    requires works && s.cur in s'.nodes ==>
               LoadWeight(s', s.cur) < LoadWeight(s, s.cur) || |s'.nodes[s.cur].tasks| < |s.nodes[s.cur].tasks|
    ensures NotMore(s', s, r) && (works && s.cur in Below(s, r) ==> Less(s', s, r))
  {
    CurCalm(s, s', r);
    CalmNotMore(s, s', r);
    if works && s.cur in Below(s, r) { LighterLess(s, s', r, s.cur); }
  }

  lemma LeaveLoads(s: State, again: bool, quit: bool, x: Path)
    requires s.cur.Kid? && s.cur in s.nodes && x in s.nodes
    ensures x in Leave(s, again, quit).nodes && SameLoad(s.nodes[x], Leave(s, again, quit).nodes[x])
    ensures !Leave(s, again, quit).pc.LWork?
  {
    var s1 := Leave(s, false, quit);
    ActivateFrame(s1, s.cur);
    assert SameCore(s1.nodes[x], Activate(s1, s.cur).nodes[x]);
  }

  lemma LeaveDrains(s: State, again: bool, quit: bool, r: Path)
    requires Inv(s) && Stopped(s, r) && s.cur.Kid? && (!again ==> Idle(s.nodes[s.cur])) && !s.pc.LWork?
    ensures NotMore(Leave(s, again, quit), s, r)
  {
    var s' := Leave(s, again, quit);
    LeaveRest(s, again, quit);
    forall x | x in s.nodes ensures x in s'.nodes && SameLoad(s.nodes[x], s'.nodes[x]) {
      LeaveLoads(s, again, quit, x);
    }
    LeaveLoads(s, again, quit, s.cur);
    CurDrains(s, s', r, false);
  }

  lemma FinishDrains(s: State, quit: bool, r: Path)
    requires Inv(s) && Stopped(s, r) && s.cur.Kid? && s.cur.parent in s.nodes && !s.pc.LWork?
    ensures var s' := Finish(s, quit);
            NotMore(s', s, r) && (Deletable(s.nodes[s.cur]) && s.cur in Below(s, r) ==> Less(s', s, r))
  {
    var n := s.nodes[s.cur];
    FinishOk(s, quit);
    if Deletable(n) {
      CurDrains(s, Delete(s, quit), r, true);
    } else {
      assert NodeOk(s, s.cur, {}, {}, {});
      assert !n.isGroup && n.tasks != [] ==> n.tasks[0] in n.chains && n.inflight > 0;
      LeaveDrains(s, MoreWork(n), quit, r);
    }
  }

  lemma MailDrains(s: State, a: Action, r: Path)
    requires Inv(s) && Enabled(s, a) && Stopped(s, r) && (a.GroupMail? || a.Mail?)
    ensures Drains(s, a, r)
  {
    var n := s.nodes[s.cur];
    var s1 := Put(s, s.cur, PopMail(n));
    StepOk(s, a);
    if n.mailbox[0].Stop? {
      SelfStopDrains(s, s1, n.mailbox[0].force, a.arg, Next(s, a).pc, r);
    } else {
      CurDrains(s, Next(s, a), r, true);
    }
  }

  lemma TaskEndDrains(s: State, a: Action, r: Path)
    requires Inv(s) && Enabled(s, a) && Stopped(s, r) && a.TaskEnd?
    ensures Drains(s, a, r)
  {
    var n := s.nodes[s.cur];
    StepOk(s, a);
    if a.finished && a.stop {
      SelfStopDrains(s, Put(s, s.cur, EndChain(n, s.pc.chain)), true, a.arg, Next(s, a).pc, r);
    } else {
      CurDrains(s, Next(s, a), r, a.finished);
    }
  }

  lemma WorkDrains(s: State, a: Action, r: Path)
    requires Inv(s) && Enabled(s, a) && Stopped(s, r) && a.Work?
    ensures Drains(s, a, r)
  {
    StepOk(s, a);
    if a.outcome.Done? && a.outcome.stop {
      SelfStopDrains(s, s, true, a.arg, Next(s, a).pc, r);
    } else {
      CurDrains(s, Next(s, a), r, a.outcome.Done?);
    }
  }

  lemma TaskDrains(s: State, r: Path)
    requires Inv(s) && Enabled(s, Task) && Stopped(s, r)
    ensures Drains(s, Task, r)
  {
    TaskOk(s);
    CurDrains(s, Next(s, Task), r, true);
  }

  lemma RunDrains(s: State, i: nat, r: Path)
    requires Inv(s) && Enabled(s, Run(i)) && Stopped(s, r)
    ensures Drains(s, Run(i), r)
  {
    BeginRest(s, i);
    CurDrains(s, Begin(s, i), r, false);
  }

  lemma PlainDrains(s: State, a: Action, r: Path)
    requires Inv(s) && Enabled(s, a) && Stopped(s, r)
    requires a.GroupMailEnd? || a.GroupQueueEnd? || a.MailEnd?
    ensures Drains(s, a, r)
  {
    var s' := s.(pc := if a.GroupMailEnd? then GTasks else if a.GroupQueueEnd? then GFinal else LFinal);
    assert Still(s, s');
    StillSeals(s, s');
    CurDrains(s, s', r, false);
  }

  lemma TasksEndDrains(s: State, quit: bool, r: Path)
    requires Inv(s) && Enabled(s, TasksEnd(quit)) && Stopped(s, r)
    ensures Drains(s, TasksEnd(quit), r)
  {
    assert NodeOk(s, s.cur, {}, {}, {});
    if s.nodes[s.cur].inflight == s.nodes[s.cur].cap {
      LeaveDrains(s, false, quit, r);
    } else {
      StepOk(s, TasksEnd(quit));
      CurDrains(s, Next(s, TasksEnd(quit)), r, false);
    }
  }

  lemma ReceiveDrains(s: State, a: Action, r: Path)
    requires Inv(s) && Enabled(s, a) && Stopped(s, r) && a.Receive?
    ensures Drains(s, a, r)
  {
    ReceiveCalm(s, a.dest, a.m, a.cap, r);
    CalmNotMore(s, Deliver(s, a.dest, a.m, a.cap), r);
  }

  lemma ShutdownDrains(s: State, a: Action, r: Path)
    requires Inv(s) && Enabled(s, a) && Stopped(s, r) && a.Shutdown?
    ensures Drains(s, a, r)
  {
    ShutdownCalm(s, a.force, a.keys, a.args, r);
    CalmNotMore(s, StopSystem(s, a.force, a.keys, a.args), r);
  }

  lemma EndDrains(s: State, a: Action, r: Path)
    requires Inv(s) && Enabled(s, a) && Stopped(s, r) && (a.GroupEnd? || a.ActorEnd?)
    ensures Drains(s, a, r)
  {
    FinishDrains(s, a.quit, r);
  }

  lemma ResumeCalm(s: State, p: Path, chain: nat, urgent: bool, r: Path)
    requires Inv(s) && Stopped(s, r) && !Anc(r, p)
    requires p in s.nodes && !s.nodes[p].isGroup && chain in s.nodes[p].chains
    ensures NotMore(Activate(Put(s, p, AddTask(s.nodes[p], chain, urgent)), p), s, r)
  {
    var s1 := Put(s, p, AddTask(s.nodes[p], chain, urgent));
    var s' := Activate(s1, p);
    ResumeOk(s, p, chain, urgent);
    BelowKeeps(s, s', r);
    ActivateFrame(s1, p);
    forall x | x in Below(s', r) ensures CalmNode(s, s', x) {
      assert SameCore(s1.nodes[x], s'.nodes[x]);
    }
    CalmNotMore(s, s', r);
  }

  lemma ResumeDrains(s: State, a: Action, r: Path)
    requires Inv(s) && Enabled(s, a) && Stopped(s, r) && a.Resume? && !Anc(r, a.p)
    ensures Drains(s, a, r)
  {
    ResumeCalm(s, a.p, a.chain, a.urgent, r);
  }

  /**
   Below a stopping node every unit of work strictly lowers the measure, and nothing but the
   resumption of a chain in flight there can raise it.
   */
  lemma DrainStep(s: State, a: Action, r: Path)
    requires Inv(s) && Enabled(s, a) && Stopped(s, r)
    requires !(a.Resume? && Anc(r, a.p))
    ensures NotMore(Next(s, a), s, r)
    ensures Anc(r, s.cur) && Works(s, a) ==> Less(Next(s, a), s, r)
  {
    assert Drains(s, a, r) by {
      if a.Receive? { ReceiveDrains(s, a, r); }
      else if a.Shutdown? { ShutdownDrains(s, a, r); }
      else if a.Resume? { ResumeDrains(s, a, r); }
      else if a.GroupMail? || a.Mail? { MailDrains(s, a, r); }
      else if a.GroupEnd? || a.ActorEnd? { EndDrains(s, a, r); }
      else if a.TaskEnd? { TaskEndDrains(s, a, r); }
      else if a.Work? { WorkDrains(s, a, r); }
      else if a.TasksEnd? { TasksEndDrains(s, a.quit, r); }
      else if a.Task? { TaskDrains(s, r); }
      else if a.Run? { RunDrains(s, a.i, r); }
      else { PlainDrains(s, a, r); }
    }
  }

  /**
   The resumption of a chain, wherever it is, adds to the queued tasks only: the count of nodes
   not yet stopping and the load of messages, chains and nodes never rise below a stopping node.
   */
  lemma ResumeOnlyTasks(s: State, a: Action, r: Path)
    requires Enabled(s, a) && a.Resume?
    ensures RunningSum(Next(s, a), r) == RunningSum(s, r) && LoadSum(Next(s, a), r) == LoadSum(s, r)
  {
    ResumeSums(s, a.p, a.chain, a.urgent, r);
  }

  /** The fields that the first two sums read. */
  predicate SameButTasks(n: Node, m: Node) {
    m.stop == n.stop && m.mailbox == n.mailbox && m.chains == n.chains
  }

  lemma ResumeSums(s: State, p: Path, chain: nat, urgent: bool, r: Path)
    requires p in s.nodes
    ensures var s' := Activate(Put(s, p, AddTask(s.nodes[p], chain, urgent)), p);
      RunningSum(s', r) == RunningSum(s, r) && LoadSum(s', r) == LoadSum(s, r)
  {
    var s1 := Put(s, p, AddTask(s.nodes[p], chain, urgent));
    var s' := Activate(s1, p);
    ActivateFrame(s1, p);
    forall x | x in s.nodes ensures SameButTasks(s.nodes[x], s'.nodes[x]) {
      assert SameCore(s1.nodes[x], s'.nodes[x]);
    }
    SameSums(s, s', r);
  }

  lemma SameSums(s: State, s': State, r: Path)
    requires s.nodes.Keys == s'.nodes.Keys && s'.cur == s.cur && s'.pc == s.pc
    requires forall x :: x in s.nodes ==> SameButTasks(s.nodes[x], s'.nodes[x])
    ensures RunningSum(s', r) == RunningSum(s, r) && LoadSum(s', r) == LoadSum(s, r)
  {
    assert Below(s', r) == Below(s, r);
    assert forall x :: x in s.nodes ==> RunningWeight(s'.nodes[x]) == RunningWeight(s.nodes[x]);
    SameRunning(s, s', r);
    assert forall x :: x in s.nodes ==> LoadWeight(s', x) == LoadWeight(s, x);
    SameLoads(s, s', r);
  }

  lemma SameRunning(s: State, s': State, r: Path)
    requires Below(s', r) == Below(s, r)
    requires forall x :: x in Below(s, r) ==> RunningWeight(s'.nodes[x]) == RunningWeight(s.nodes[x])
    ensures RunningSum(s', r) == RunningSum(s, r)
  {
    var a := map x | x in Below(s, r) :: RunningWeight(s.nodes[x]);
    assert a == map x | x in Below(s', r) :: RunningWeight(s'.nodes[x]);
  }

  lemma SameLoads(s: State, s': State, r: Path)
    requires Below(s', r) == Below(s, r) && forall x :: x in Below(s, r) ==> LoadWeight(s', x) == LoadWeight(s, x)
    ensures LoadSum(s', r) == LoadSum(s, r)
  {
    assert (map x | x in Below(s, r) :: LoadWeight(s, x)) == map x | x in Below(s', r) :: LoadWeight(s', x);
  }

  // ----- Whole runs -----

  lemma StoppedStays(s: State, s': State, r: Path)
    requires Inv(s) && Inv(s') && SealStep(s, s') && Stopped(s, r) && r in s'.nodes
    ensures Stopped(s', r)
  {
    assert NodeOk(s, r, {}, {}, {}) && NodeOk(s', r, {}, {}, {});
  }

  /** A stopping node is still stopping at any later time, or gone. */
  lemma StoppedOrGone(states: seq<State>, acts: seq<Action>, i: nat, k: nat, r: Path)
    requires IsRun(states, acts) && i <= k < |states| && Stopped(states[i], r)
    ensures Inv(states[k]) && (r in states[k].nodes ==> Stopped(states[k], r))
  {
    RunInv(states, acts, i);
    RunInv(states, acts, k);
    RunSeals(states, acts, i, k);
    if r in states[k].nodes { StoppedStays(states[i], states[k], r); }
  }

  /** Step `k` resumes a chain in flight at or below `r`. */
  predicate Resumes(a: Action, r: Path) {
    a.Resume? && Anc(r, a.p)
  }

  /** The resumptions at or below `r` that the run still has in store. */
  ghost function Left(acts: seq<Action>, r: Path, i: nat): nat
    requires i <= |acts|
    decreases |acts| - i
  {
    if i == |acts| then 0 else Left(acts, r, i + 1) + if Resumes(acts[i], r) then 1 else 0
  }

  /** Nodes not yet stopping; messages, chains and nodes; resumptions to come; queued tasks. */
  datatype Measure = Measure(running: nat, load: nat, left: nat, tasks: nat)

  ghost function MeasureOf(s: State, left: nat, r: Path): Measure {
    Measure(RunningSum(s, r), LoadSum(s, r), left, TaskSum(s, r))
  }

  predicate Below4(a: Measure, b: Measure) {
    || a.running < b.running
    || (a.running == b.running && a.load < b.load)
    || (a.running == b.running && a.load == b.load && a.left < b.left)
    || (a.running == b.running && a.load == b.load && a.left == b.left && a.tasks < b.tasks)
  }

  lemma Below4Trans(a: Measure, b: Measure, c: Measure)
    requires (Below4(a, b) || a == b) && (Below4(b, c) || b == c)
    ensures Below4(a, c) || a == c
    ensures Below4(a, b) || Below4(b, c) ==> Below4(a, c)
  {
  }

  /** From a step's lexicographic triple to the quadruple. */
  lemma ThreeToFour(s: State, s': State, r: Path, left: nat)
    requires NotMore(s', s, r)
    ensures Below4(MeasureOf(s', left, r), MeasureOf(s, left, r)) || MeasureOf(s', left, r) == MeasureOf(s, left, r)
    ensures Less(s', s, r) ==> Below4(MeasureOf(s', left, r), MeasureOf(s, left, r))
  {
  }

  lemma NothingBelow(s: State, r: Path)
    requires Inv(s) && r !in s.nodes
    ensures Below(s, r) == {} && !Anc(r, s.cur)
  {
    forall x | x in s.nodes ensures !Anc(r, x) {
      if Anc(r, x) { AncLive(s, r, x); }
    }
  }

  /** The load at or below an address is zero exactly when its node is gone. */
  lemma LoadZeroIffGone(s: State, r: Path)
    requires Inv(s)
    ensures LoadSum(s, r) == 0 <==> r !in s.nodes
  {
    var m := map x | x in Below(s, r) :: LoadWeight(s, x);
    if r in s.nodes {
      TotalPick(m, r);
    } else {
      NothingBelow(s, r);
      assert m == map[];
    }
  }

  lemma GoneSums(s: State, r: Path)
    requires Inv(s) && r !in s.nodes
    ensures RunningSum(s, r) == 0 && LoadSum(s, r) == 0 && TaskSum(s, r) == 0
  {
    var a := map x | x in Below(s, r) :: RunningWeight(s.nodes[x]);
    var b := map x | x in Below(s, r) :: LoadWeight(s, x);
    var c := map x | x in Below(s, r) :: |s.nodes[x].tasks|;
    NothingBelow(s, r);
    assert a == map[] && b == map[] && c == map[];
  }

  /** Progress below `r`: a unit of work there, or the resumption of a chain. */
  predicate Progress(s: State, a: Action, r: Path)
    requires s.cur in s.nodes
  {
    Resumes(a, r) || (Anc(r, s.cur) && Works(s, a))
  }

  lemma MeasureStep(s: State, a: Action, r: Path, left: nat)
    requires Inv(s) && Enabled(s, a) && Stopped(s, r)
    ensures var m, m' := MeasureOf(s, left + if Resumes(a, r) then 1 else 0, r), MeasureOf(Next(s, a), left, r);
      (Below4(m', m) || m' == m) && (Progress(s, a, r) ==> Below4(m', m))
  {
    if Resumes(a, r) {
      ResumeOnlyTasks(s, a, r);
    } else {
      DrainStep(s, a, r);
      ThreeToFour(s, Next(s, a), r, left);
    }
  }

  lemma GoneStep(s: State, a: Action, s': State, r: Path, left: nat)
    requires Inv(s) && Inv(s') && Enabled(s, a) && r !in s.nodes && r !in s'.nodes
    ensures MeasureOf(s', left, r) == MeasureOf(s, left, r) && !Progress(s, a, r)
  {
    GoneSums(s, r);
    GoneSums(s', r);
    NothingBelow(s, r);
    assert a.Resume? ==> a.p in s.nodes;
  }

  ghost function MeasureAt(states: seq<State>, acts: seq<Action>, r: Path, i: nat): Measure
    requires |states| == |acts| + 1 && i < |states|
  {
    MeasureOf(states[i], Left(acts, r, i), r)
  }

  /** Step `k` makes progress below `r`. */
  ghost predicate ProgressAt(states: seq<State>, acts: seq<Action>, r: Path, k: nat) {
    k < |acts| && k < |states| && states[k].cur in states[k].nodes && Progress(states[k], acts[k], r)
  }

  /** One step of a run, with the stopping node alive or gone. */
  lemma DrainOne(states: seq<State>, acts: seq<Action>, i: nat, k: nat, r: Path)
    requires IsRun(states, acts) && i <= k < |acts| && Stopped(states[i], r)
    ensures var m, m' := MeasureAt(states, acts, r, k), MeasureAt(states, acts, r, k + 1);
      (Below4(m', m) || m' == m) && (ProgressAt(states, acts, r, k) ==> Below4(m', m))
  {
    StoppedOrGone(states, acts, i, k, r);
    StoppedOrGone(states, acts, i, k + 1, r);
    assert StepAt(states, acts, k);
    if r in states[k].nodes {
      MeasureStep(states[k], acts[k], r, Left(acts, r, k + 1));
    } else {
      InstantiatedOnce(states, acts, i, k, k + 1, r);
      GoneStep(states[k], acts[k], states[k + 1], r, Left(acts, r, k + 1));
    }
  }

  /** No rise from `l` to the next, and a fall if `l` is marked. */
  predicate NoRise(ms: seq<Measure>, marked: seq<bool>, l: nat)
    requires |marked| == |ms| && l + 1 < |ms|
  {
    (Below4(ms[l + 1], ms[l]) || ms[l + 1] == ms[l]) && (marked[l] ==> Below4(ms[l + 1], ms[l]))
  }

  lemma {:induction false} Descends(ms: seq<Measure>, marked: seq<bool>, i: nat, k: nat, j: nat)
    requires |marked| == |ms| && i <= k <= j < |ms|
    requires forall l {:trigger NoRise(ms, marked, l)} :: i <= l < j ==> NoRise(ms, marked, l)
    ensures Below4(ms[j], ms[i]) || ms[j] == ms[i]
    ensures k < j && marked[k] ==> Below4(ms[j], ms[i])
    decreases j
  {
    if i < j {
      Descends(ms, marked, i, if k < j then k else j - 1, j - 1);
      assert NoRise(ms, marked, j - 1);
      Below4Trans(ms[j], ms[j - 1], ms[i]);
    }
  }

  /**
   Over any stretch of any run that begins with a stopping node, the measure never rises, and it
   has fallen if any work was done or any chain resumed at or below the node.
   */
  lemma DrainRun(states: seq<State>, acts: seq<Action>, i: nat, k: nat, j: nat, r: Path)
    requires IsRun(states, acts) && i <= k <= j < |states| && Stopped(states[i], r)
    ensures var m, m' := MeasureAt(states, acts, r, i), MeasureAt(states, acts, r, j);
      && (Below4(m', m) || m' == m)
      && (k < j && ProgressAt(states, acts, r, k) ==> Below4(m', m))
  {
    var ms, marked := Measures(states, acts, r), Marks(states, acts, r);
    forall l | i <= l < j ensures NoRise(ms, marked, l) {
      NoRiseAt(states, acts, i, l, r);
    }
    Descends(ms, marked, i, k, j);
  }

  ghost function Measures(states: seq<State>, acts: seq<Action>, r: Path): (ms: seq<Measure>)
    requires |states| == |acts| + 1
    ensures |ms| == |states| && forall l :: 0 <= l < |ms| ==> ms[l] == MeasureAt(states, acts, r, l)
  {
    seq(|states|, l requires 0 <= l < |states| => MeasureAt(states, acts, r, l))
  }

  ghost function Marks(states: seq<State>, acts: seq<Action>, r: Path): (marked: seq<bool>)
    ensures |marked| == |states| && forall l :: 0 <= l < |marked| ==> marked[l] == ProgressAt(states, acts, r, l)
  {
    seq(|states|, l requires 0 <= l < |states| => ProgressAt(states, acts, r, l))
  }

  lemma NoRiseAt(states: seq<State>, acts: seq<Action>, i: nat, l: nat, r: Path)
    requires IsRun(states, acts) && i <= l < |acts| && Stopped(states[i], r)
    ensures NoRise(Measures(states, acts, r), Marks(states, acts, r), l)
  {
    DrainOne(states, acts, i, l, r);
  }

  /** Every chain at or below `r` has ended. */
  ghost predicate NoChains(s: State, r: Path) {
    forall x :: x in Below(s, r) ==> s.nodes[x].inflight == 0
  }

  lemma QuietMeansGone(s: State, r: Path)
    requires Inv(s) && s.cur == Root && s.nodes[Root].queue == [] && NoChains(s, r)
    ensures !Stopped(s, r)
  {
    if Stopped(s, r) {
      var x := NeverStuck(s, r);
      assert x in Below(s, r) && x.Kid?;
      ScheduledQueued(s, x);
    }
  }

  /**
   A stopped subtree is deleted: once the reactor is idle and no chain is in flight below it, the
   node and everything below it are gone, and they stay gone.
   */
  lemma DrainedToNothing(states: seq<State>, acts: seq<Action>, i: nat, j: nat, l: nat, r: Path)
    requires IsRun(states, acts) && i <= j <= l < |states| && Stopped(states[i], r)
    requires states[j].cur == Root && Root in states[j].nodes && states[j].nodes[Root].queue == []
    requires NoChains(states[j], r)
    ensures r !in states[l].nodes && Below(states[l], r) == {} && MeasureAt(states, acts, r, l).load == 0
  {
    StoppedOrGone(states, acts, i, j, r);
    QuietMeansGone(states[j], r);
    InstantiatedOnce(states, acts, i, j, l, r);
    RunInv(states, acts, l);
    NothingBelow(states[l], r);
    LoadZeroIffGone(states[l], r);
  }
}

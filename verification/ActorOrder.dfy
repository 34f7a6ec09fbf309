/** Stop messages overtake: in every mailbox of every reachable state they come first. */
module ActorOrder {
  import opened ActorTree
  import opened ActorRuns

  ghost predicate Ordered(s: State) {
    forall q {:trigger s.nodes[q]} :: q in s.nodes ==> StopsFirst(s.nodes[q].mailbox)
  }

  // ----- Parts of steps -----

  lemma PutOrdered(s: State, p: Path, n: Node)
    requires Ordered(s) && StopsFirst(n.mailbox)
    ensures Ordered(Put(s, p, n))
  {
    var r := Put(s, p, n);
    forall q | q in r.nodes ensures StopsFirst(r.nodes[q].mailbox) {
      assert q != p ==> r.nodes[q] == s.nodes[q];
    }
  }

  lemma ActivateOrdered(s: State, p: Path)
    requires Ordered(s)
    ensures Ordered(Activate(s, p))
  {
    var r := Activate(s, p);
    ActivateFrame(s, p);
    forall q | q in r.nodes ensures StopsFirst(r.nodes[q].mailbox) {
      assert SameCore(s.nodes[q], r.nodes[q]);
    }
  }

  lemma EnqueueOrdered(s: State, p: Path, m: Msg)
    requires Ordered(s) && p in s.nodes
    ensures Ordered(Enqueue(s, p, m))
  {
    assert StopsFirst(s.nodes[p].mailbox);
    PutOrdered(s, p, Mailed(s.nodes[p], m));
    ActivateOrdered(Put(s, p, Mailed(s.nodes[p], m)), p);
  }

  lemma CreateOrdered(s: State, q: Path, cap: nat)
    requires Ordered(s) && q.Kid? && q.parent in s.nodes
    ensures Ordered(Create(s, q, cap))
  {
    var g := s.nodes[q.parent];
    var s1 := Put(s, q.parent, g.(children := g.children[q.key := true], managed := g.managed + 1));
    PutOrdered(s, q.parent, s1.nodes[q.parent]);
    PutOrdered(s1, q, NewNode(IsGroupType(q.key), cap).(sched := Schedulable));
    ActivateOrdered(CreateBase(s, q, cap), q);
  }

  lemma {:induction false} RouteOrdered(s: State, dest: Path, cap: nat)
    requires Ordered(s)
    ensures Ordered(Route(s, dest, cap).0)
    decreases dest
  {
    if dest.Kid? {
      RouteOrdered(s, dest.parent, cap);
      var s1 := Route(s, dest.parent, cap).0;
      if dest.parent in s1.nodes { CreateOrdered(s1, dest, cap); }
    }
  }

  lemma DeliverOrdered(s: State, dest: Path, m: Msg, cap: nat)
    requires Ordered(s)
    ensures Ordered(Deliver(s, dest, m, cap))
  {
    RouteOrdered(s, dest, cap);
    var (s1, w) := Route(s, dest, cap);
    if w.At? && w.p in s1.nodes { EnqueueOrdered(s1, w.p, m); }
  }

  lemma {:induction false} StopKidsOrdered(s: State, p: Path, keys: seq<Key>, force: bool)
    requires Ordered(s)
    ensures Ordered(StopKids(s, p, keys, force))
    decreases |keys|
  {
    if keys != [] {
      var q := Kid(p, keys[0]);
      if q in s.nodes { EnqueueOrdered(s, q, Stop(force)); }
      StopKidsOrdered(if q in s.nodes then Enqueue(s, q, Stop(force)) else s, p, keys[1..], force);
    }
  }

  lemma StopLeafOrdered(s: State, p: Path, force: bool, arg: StopArg)
    requires Ordered(s) && p in s.nodes && StopsFirst(arg.late)
    ensures Ordered(StopLeaf(s, p, force, arg))
  {
    var n := StoppedLeaf(s.nodes[p], force, arg);
    assert StopsFirst(s.nodes[p].mailbox);
    PutOrdered(s, p, n);
    ActivateOrdered(Put(s, p, n), p);
  }

  lemma StopGroupOrdered(s: State, p: Path, force: bool, arg: StopArg)
    requires Ordered(s) && p in s.nodes
    ensures Ordered(StopGroup(s, p, force, arg))
  {
    var s0 := Put(s, p, s.nodes[p].(stop := StatusFor(force)));
    PutOrdered(s, p, s0.nodes[p]);
    StopKidsOrdered(s0, p, arg.order, force);
    var s1 := StopKids(s0, p, arg.order, force);
    if p in s1.nodes { PutOrdered(s1, p, s1.nodes[p].(mailbox := [])); }
    ActivateOrdered(if force && p in s1.nodes then CleanMailbox(s1, p) else s1, p);
  }

  lemma StopNodeOrdered(s: State, p: Path, force: bool, arg: StopArg)
    requires Ordered(s) && p.Kid? && p in s.nodes && StopsFirst(arg.late)
    ensures Ordered(StopNode(s, p, force, arg))
  {
    if s.nodes[p].isGroup { StopGroupOrdered(s, p, force, arg); } else { StopLeafOrdered(s, p, force, arg); }
    var r := if s.nodes[p].isGroup then StopGroup(s, p, force, arg) else StopLeaf(s, p, force, arg);
    if p.parent in r.nodes {
      var g := r.nodes[p.parent];
      PutOrdered(r, p.parent, g.(children := g.children[p.key := false]));
    }
  }

  lemma {:induction false} StopAllOrdered(s: State, force: bool, keys: seq<Key>, args: map<Key, StopArg>)
    requires Ordered(s) && forall k :: k in keys && k in args ==> StopsFirst(args[k].late)
    ensures Ordered(StopAll(s, force, keys, args))
    decreases |keys|
  {
    if keys != [] {
      var p := Kid(Root, keys[0]);
      if p in s.nodes && keys[0] in args {
        assert keys[0] in keys;
        StopNodeOrdered(s, p, force, args[keys[0]]);
        StopAllOrdered(StopNode(s, p, force, args[keys[0]]), force, keys[1..], args);
      } else {
        StopAllOrdered(s, force, keys[1..], args);
      }
    }
  }

  lemma ShutdownOrdered(s: State, force: bool, keys: seq<Key>, args: map<Key, StopArg>)
    requires Ordered(s) && Root in s.nodes && ValidSystemArgs(s, force, keys, args)
    ensures Ordered(StopSystem(s, force, keys, args))
  {
    var s1 := Put(s, Root, s.nodes[Root].(stop := StatusFor(force)));
    PutOrdered(s, Root, s1.nodes[Root]);
    StopAllOrdered(s1, force, keys, args);
  }

  /** A node pops its mail or ends a chain, then may stop itself. */
  lemma MaybeStopOrdered(s: State, n: Node, stop: bool, force: bool, arg: StopArg)
    requires Ordered(s) && s.cur.Kid? && s.cur in s.nodes && StopsFirst(n.mailbox)
    requires stop && !Tombstoned(s, s.cur) ==> StopsFirst(arg.late)
    requires n.children == s.nodes[s.cur].children
    ensures Ordered(MaybeStop(Put(s, s.cur, n), stop, force, arg))
  {
    var s1 := Put(s, s.cur, n);
    PutOrdered(s, s.cur, n);
    AncParent(s.cur);
    assert Tombstoned(s1, s.cur) <==> Tombstoned(s, s.cur);
    if stop && !Tombstoned(s, s.cur) { StopNodeOrdered(s1, s.cur, force, arg); }
  }

  lemma FinishOrdered(s: State, quit: bool)
    requires Ordered(s) && s.cur.Kid? && s.cur in s.nodes && s.cur.parent in s.nodes
    ensures Ordered(Finish(s, quit))
  {
    LeaveOrdered(s, MoreWork(s.nodes[s.cur]), quit);
    var r := Delete(s, quit);
    forall q | q in r.nodes ensures StopsFirst(r.nodes[q].mailbox) {
      assert r.nodes[q].mailbox == s.nodes[q].mailbox;
    }
  }

  lemma LeaveOrdered(s: State, again: bool, quit: bool)
    requires Ordered(s) && s.cur.Kid? && s.cur in s.nodes
    ensures Ordered(Leave(s, again, quit))
  {
    PutOrdered(s, s.cur, s.nodes[s.cur].(sched := Schedulable));
    var s1 := Leave(s, false, quit);
    assert s1.nodes == Put(s, s.cur, s.nodes[s.cur].(sched := Schedulable)).nodes;
    ActivateOrdered(s1, s.cur);
  }

  // ----- Steps -----

  lemma MailStep(s: State, a: Action)
    requires Ordered(s) && Enabled(s, a) && (a.GroupMail? || a.Mail?)
    ensures Ordered(Next(s, a))
  {
    var n := s.nodes[s.cur];
    var m := n.mailbox[0];
    assert StopsFirst(n.mailbox);
    MaybeStopOrdered(s, PopMail(n), m.Stop?, m.Stop? && m.force, a.arg);
  }

  lemma TaskStep(s: State, a: Action)
    requires Ordered(s) && Enabled(s, a) && (a.Task? || a.TaskEnd?)
    ensures Ordered(Next(s, a))
  {
    var n := s.nodes[s.cur];
    assert StopsFirst(n.mailbox);
    if a.Task? {
      PutOrdered(s, s.cur, PopTask(n));
    } else if a.finished {
      MaybeStopOrdered(s, EndChain(n, s.pc.chain), a.stop, true, a.arg);
    }
  }

  lemma WorkStep(s: State, a: Action)
    requires Ordered(s) && Enabled(s, a) && a.Work?
    ensures Ordered(Next(s, a))
  {
    var n := s.nodes[s.cur];
    assert StopsFirst(n.mailbox);
    if a.outcome.Done? {
      MaybeStopOrdered(s, n, a.outcome.stop, true, a.arg);
      assert Put(s, s.cur, n) == s;
    } else {
      PutOrdered(s, s.cur, SuspendNode(n, a.outcome.chain));
    }
  }

  lemma OtherStep(s: State, a: Action)
    requires Ordered(s) && Enabled(s, a) && !a.GroupMail? && !a.Mail? && !a.Task? && !a.TaskEnd? && !a.Work?
    ensures Ordered(Next(s, a))
  {
    var n := s.nodes[s.cur];
    assert StopsFirst(n.mailbox);
    if a.Receive? {
      DeliverOrdered(s, a.dest, a.m, a.cap);
    } else if a.Shutdown? {
      ShutdownOrdered(s, a.force, a.keys, a.args);
    } else if a.Resume? {
      EnqueuedTask(s, a.p, a.chain, a.urgent);
    } else if a.Run? {
      PutOrdered(s, s.cur, n.(queue := RemoveAt(n.queue, a.i)));
    } else if a.GroupEnd? || a.ActorEnd? {
      FinishOrdered(s, a.quit);
    } else if a.TasksEnd? {
      LeaveOrdered(s, false, a.quit);
    }
  }

  lemma EnqueuedTask(s: State, p: Path, chain: nat, urgent: bool)
    requires Ordered(s) && p in s.nodes
    ensures Ordered(Activate(Put(s, p, AddTask(s.nodes[p], chain, urgent)), p))
  {
    assert StopsFirst(s.nodes[p].mailbox);
    PutOrdered(s, p, AddTask(s.nodes[p], chain, urgent));
    ActivateOrdered(Put(s, p, AddTask(s.nodes[p], chain, urgent)), p);
  }

  lemma OrderedStep(s: State, a: Action)
    requires Ordered(s) && Enabled(s, a)
    ensures Ordered(Next(s, a))
  {
    if a.GroupMail? || a.Mail? { MailStep(s, a); }
    else if a.Task? || a.TaskEnd? { TaskStep(s, a); }
    else if a.Work? { WorkStep(s, a); }
    else { OtherStep(s, a); }
  }

  // ----- Runs -----

  lemma {:induction false} RunOrdered(states: seq<State>, acts: seq<Action>, i: nat)
    requires IsRun(states, acts) && i < |states|
    ensures Ordered(states[i])
  {
    if i > 0 {
      RunOrdered(states, acts, i - 1);
      assert StepAt(states, acts, i - 1);
      OrderedStep(states[i - 1], acts[i - 1]);
    }
  }

  /**
   In every reachable state a waiting stop message is the next one its node handles: a user
   message starts only when no stop is waiting.
   */
  lemma StopsOvertake(states: seq<State>, acts: seq<Action>, i: nat, q: Path)
    requires IsRun(states, acts) && i < |states| && q in states[i].nodes
    ensures var mailbox := states[i].nodes[q].mailbox;
      && StopsFirst(mailbox)
      && (HasStop(mailbox) <==> mailbox != [] && mailbox[0].Stop?)
  {
    RunOrdered(states, acts, i);
    assert StopsFirst(states[i].nodes[q].mailbox);
  }
}

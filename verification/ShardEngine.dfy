/**
 The run loops of one shard, as code: `activate`, `enque_message`, `receive`,
 `stop_child_actor`, `stop_actor_system` and both `run_and_dispose` bodies.  The object records
 every step it takes, and its invariant is that the record is a run of module ActorRuns, so every
 theorem about runs is a theorem about these methods.
 */
module ShardEngine {
  import opened ActorTree
  import opened ActorRuns
  import Address
  import opened ActorEffects

  /** What a piece of user code asks the engine to do while it runs. */
  datatype Call =
    | SendTo(dest: Path, m: Msg, cap: nat)
    | Wake(p: Path, chain: nat, urgent: bool)
    | ExitAll(force: bool, plans: map<Key, StopArg>)

  /**
   One answer of the world outside the engine: the calls user code makes, how a task or a
   `do_work` ended, what a stop leaves behind, which queued child the group's queue yields, and
   whether `need_yield` says stop.
   */
  datatype Answer = Answer(calls: seq<Call>, finished: bool, stop: bool, suspended: bool, chain: nat,
                           plan: StopArg, pick: nat, quit: bool)

  /** Number of address layers below the shard id. */
  function Layers(p: Path): (n: nat)
    ensures n == Depth(p)
  {
    if p.Root? then 0 else 1 + Layers(p.parent)
  }

  /** The nearest possible reading of a proposed stop: every possible stop is its own reading. */
  function Fit(n: Node, busy: set<nat>, force: bool, plan: StopArg, order: seq<Key>): StopArg {
    if !force || n.tasks == [] then StopArg(order, {}, [])
    else StopArg(order, (plan.finished * n.chains) - busy, if StopsFirst(plan.late) then plan.late else [])
  }

  /** What the engine does about a call of user code in state `s`, if it does anything. */
  ghost predicate Answers(c: Call, s: State, a: Action) {
    match c
    case SendTo(dest, m, cap) => a == Action.Receive(dest, m, cap)
    case Wake(p, chain, urgent) => a == Resume(p, chain, urgent)
    case ExitAll(force, _) => a.Shutdown? && a.force == force
  }

  /** A send needs an address, a wakeup a chain in flight. */
  predicate Possible(c: Call, s: State) {
    match c
    case SendTo(dest, _, _) => dest.Kid? && Layers(dest) <= Address.MAX_LAYER
    case Wake(p, chain, _) => p in s.nodes && !s.nodes[p].isGroup && chain in s.nodes[p].chains
    case ExitAll(_, _) => true
  }

  /** The steps `u` from `s` carry out the calls, each possible one once and in order. */
  ghost predicate Follows(calls: seq<Call>, s: State, u: seq<Action>)
    decreases |calls|
  {
    if calls == [] then u == []
    else if Possible(calls[0], s) then
      u != [] && Answers(calls[0], s, u[0]) && Enabled(s, u[0]) && Follows(calls[1..], Next(s, u[0]), u[1..])
    else Follows(calls[1..], s, u)
  }

  /** One step that carries out a call. */
  ghost predicate Carried(c: Call, s: State, step: seq<Action>, s': State) {
    |step| == 1 && Answers(c, s, step[0]) && Enabled(s, step[0]) && s' == Next(s, step[0])
  }

  lemma FollowsNext(calls: seq<Call>, s: State, step: seq<Action>, s': State, rest: seq<Action>)
    requires calls != [] && Follows(calls[1..], s', rest)
    requires if Possible(calls[0], s) then Carried(calls[0], s, step, s') else step == [] && s' == s
    ensures Follows(calls, s, step + rest)
  {
    if Possible(calls[0], s) {
      assert (step + rest)[0] == step[0] && (step + rest)[1..] == rest;
    } else {
      assert step + rest == rest;
    }
  }

  const SILENCE: Answer := Answer([], false, false, false, 0, StopArg([], {}, []), 0, true)

  /** The next answer of the outside world; when it has no more, `need_yield` is true. */
  function Upcoming(script: seq<Answer>): Answer {
    if script == [] then SILENCE else script[0]
  }

  /** Steps were added, and answers used up in order, at most one for each step. */
  predicate Went(script: seq<Answer>, acts: seq<Action>, script': seq<Answer>, acts': seq<Action>) {
    && acts <= acts' && |script'| <= |script| && script' == script[|script| - |script'|..]
    && |script| - |script'| <= |acts'| - |acts|
  }

  function Tail(script: seq<Answer>): seq<Answer> {
    if script == [] then [] else script[1..]
  }

  lemma WentSelf(script: seq<Answer>, acts: seq<Action>)
    ensures Went(script, acts, script, acts)
  {
  }

  lemma WentOne(script: seq<Answer>, acts: seq<Action>, acts': seq<Action>)
    requires acts < acts'
    ensures Went(script, acts, Tail(script), acts')
  {
  }

  lemma WentOn(s0: seq<Answer>, a0: seq<Action>, s1: seq<Answer>, a1: seq<Action>, s2: seq<Answer>, a2: seq<Action>)
    requires Went(s0, a0, s1, a1) && Went(s1, a1, s2, a2)
    ensures Went(s0, a0, s2, a2) && (a0 < a1 || a1 < a2 ==> a0 < a2)
  {
  }

  lemma RunExtends(trace: seq<State>, acts: seq<Action>, s: State, a: Action)
    requires IsRun(trace, acts) && trace[|acts|] == s && Enabled(s, a)
    ensures IsRun(trace + [Next(s, a)], acts + [a])
  {
    var trace', acts' := trace + [Next(s, a)], acts + [a];
    forall i | 0 <= i < |acts'| ensures StepAt(trace', acts', i) {
      if i < |acts| {
        assert StepAt(trace, acts, i);
        assert trace'[i] == trace[i] && trace'[i + 1] == trace[i + 1] && acts'[i] == acts[i];
      }
    }
  }

  class Shard {
    var nodes: map<Path, Node>
    var cur: Path
    var exits: nat
    var script: seq<Answer>
    var busy: set<nat>  // the chain whose continuation is now on the call stack
    ghost var pc: Pc
    ghost var acts: seq<Action>
    ghost var trace: seq<State>

    ghost function St(): State
      reads this
    {
      State(nodes, cur, pc, exits)
    }

    ghost predicate Recorded(s: State)
      reads this
    {
      IsRun(trace, acts) && trace[|acts|] == s
    }

    ghost predicate Valid()
      reads this
    {
      && Recorded(St()) && (pc.LTask? ==> busy == {pc.chain})
      && (forall q :: q in nodes ==> Depth(q) <= Address.MAX_LAYER)
    }

    constructor (script: seq<Answer>)
      ensures Valid() && acts == [] && this.script == script
    {
      nodes, cur, exits, busy := InitState().nodes, Root, 0, {};
      this.script := script;
      pc, acts, trace := GTasks, [], [InitState()];
    }

    lemma Good()
      requires Valid()
      ensures Inv(St())
    {
      RunInv(trace, acts, |acts|);
    }

    /** Appends the step from `s` to the present state to the record. */
    ghost method Commit(s: State, a: Action)
      requires Recorded(s) && Enabled(s, a) && St() == Next(s, a)
      requires forall q :: q in s.nodes ==> Depth(q) <= Address.MAX_LAYER
      requires a.Receive? ==> Depth(a.dest) <= Address.MAX_LAYER
      requires pc.LTask? ==> busy == {pc.chain}
      modifies this`acts, this`trace
      ensures Valid() && acts == old(acts) + [a]
    {
      RunInv(trace, acts, |acts|);
      forall q | q in nodes ensures Depth(q) <= Address.MAX_LAYER {
        StepKeys(s, a, q);
        if a.Receive? { AncShorter(q, a.dest); }
      }
      RunExtends(trace, acts, s, a);
      acts, trace := acts + [a], trace + [St()];
    }

    /** The next answer; with none left, `need_yield` is true. */
    method Ask() returns (a: Answer)
      modifies this`script
      ensures a == Upcoming(old(script)) && script == Tail(old(script))
    {
      if script == [] {
        a := SILENCE;
      } else {
        a, script := script[0], script[1..];
      }
    }

    // ----- actor_base -----

    /** `activate`: up the tree until a node is found that is scheduled already. */
    method Activate(p: Path)
      modifies this`nodes
      ensures St() == ActorTree.Activate(old(St()), p)
    {
      var q := p;
      while CanEnter(State(nodes, cur, GTasks, 0), q)
        invariant ActorTree.Activate(St(), q) == ActorTree.Activate(old(St()), p)
        invariant cur == old(cur) && exits == old(exits)
        decreases q
      {
        ghost var before := St();
        var n, g := nodes[q], nodes[q.parent];
        nodes := nodes[q := n.(sched := Scheduled)][q.parent := g.(queue := g.queue + [q.key])];
        assert St() == EnterQueue(before, q);
        q := q.parent;
      }
    }

    /** `enque_message` and `enque_urgent_message`. */
    method Enque(p: Path, m: Msg)
      requires p in nodes
      modifies this`nodes
      ensures St() == Enqueue(old(St()), p, m) && nodes.Keys == old(nodes).Keys
      ensures nodes[p].mailbox == WithMail(old(nodes)[p].mailbox, m)
      ensures forall q :: q in old(nodes) && q != p ==> nodes[q].mailbox == old(nodes)[q].mailbox
    {
      EnqueueData(St(), p, m);
      nodes := nodes[p := Mailed(nodes[p], m)];
      Activate(p);
    }

    // ----- routing -----

    /** The layers of `receive` and `get_actor_local`, creating what is missing. */
    method Locate(dest: Path, cap: nat) returns (w: Where)
      modifies this`nodes
      ensures (St(), w) == Route(old(St()), dest, cap)
      decreases dest
    {
      if dest.Root? { return At(Root); }
      w := Locate(dest.parent, cap);
      if w == At(dest.parent) && dest.parent in nodes && nodes[dest.parent].isGroup {
        var g := nodes[dest.parent];
        if dest.key in g.children {
          w := if g.children[dest.key] then At(dest) else Nowhere;
        } else if dest.parent == Root && g.stop != Running {
          w := Nowhere;
        } else {
          ghost var before := St();
          var child := NewNode(IsGroupType(dest.key), cap).(sched := Schedulable);
          nodes := nodes[dest.parent := g.(children := g.children[dest.key := true], managed := g.managed + 1)];
          nodes := nodes[dest := child];
          assert St() == CreateBase(before, dest, cap);
          Activate(dest);
          w := At(dest);
        }
      }
    }

    /** `receive` for a message below the root. */
    method Receive(dest: Path, m: Msg, cap: nat)
      requires Valid() && dest.Kid? && Depth(dest) <= Address.MAX_LAYER
      modifies this`nodes, this`acts, this`trace
      ensures Valid() && acts == old(acts) + [Action.Receive(dest, m, cap)]
      ensures Received(old(St()), St(), dest, m, cap)
      ensures Enabled(old(St()), Action.Receive(dest, m, cap)) && St() == Next(old(St()), Action.Receive(dest, m, cap))
    {
      ghost var before := St();
      Good();
      RouteAndMail(dest, m, cap);
      ReceiveEffect(before, dest, m, cap);
      Commit(before, Action.Receive(dest, m, cap));
    }

    method RouteAndMail(dest: Path, m: Msg, cap: nat)
      modifies this`nodes
      ensures St() == Deliver(old(St()), dest, m, cap)
    {
      var w := Locate(dest, cap);
      if w.At? && w.p in nodes { Enque(w.p, m); }
    }

    /** A continuation becomes ready: `add_task` or `add_urgent_task` on its actor. */
    method AddReady(p: Path, chain: nat, urgent: bool)
      requires Valid() && p in nodes && !nodes[p].isGroup && chain in nodes[p].chains
      modifies this`nodes, this`acts, this`trace
      ensures Valid() && acts == old(acts) + [Resume(p, chain, urgent)]
      ensures Requeued(old(St()), St(), p, chain, urgent)
      ensures Enabled(old(St()), Resume(p, chain, urgent)) && St() == Next(old(St()), Resume(p, chain, urgent))
    {
      ghost var before := St();
      Good();
      ResumeEffect(before, p, chain, urgent);
      nodes := nodes[p := AddTask(nodes[p], chain, urgent)];
      Activate(p);
      Commit(before, Resume(p, chain, urgent));
    }

    // ----- stopping -----

    /** The children still in the map, in the order the loop happens to visit them. */
    method Children(p: Path) returns (order: seq<Key>)
      requires p in nodes
      ensures NoDup(order) && forall k :: k in order <==> k in nodes[p].children && nodes[p].children[k]
    {
      order := [];
      var todo := set k | k in nodes[p].children && nodes[p].children[k];
      while todo != {}
        invariant NoDup(order) && (forall k :: k in order ==> k !in todo)
        invariant forall k :: k in order || k in todo <==> k in nodes[p].children && nodes[p].children[k]
        decreases todo
      {
        var k :| k in todo;
        todo, order := todo - {k}, order + [k];
      }
    }

    method StopAllChildren(p: Path, order: seq<Key>, force: bool)
      modifies this`nodes
      ensures St() == StopKids(old(St()), p, order, force)
    {
      var i := 0;
      while i < |order|
        invariant i <= |order| && cur == old(cur) && exits == old(exits)
        invariant StopKids(St(), p, order[i..], force) == StopKids(old(St()), p, order, force)
      {
        var q := Kid(p, order[i]);
        assert order[i..][1..] == order[i + 1..] && order[i..][0] == order[i];
        if q in nodes { Enque(q, Stop(force)); }
        i := i + 1;
      }
      assert order[i..] == [];
    }

    /** `actor::stop` and `actor_group::stop`, then the tombstone in the parent's map. */
    method StopAndDisable(p: Path, force: bool, arg: StopArg)
      requires p.Kid? && p in nodes
      modifies this`nodes
      ensures St() == StopNode(old(St()), p, force, arg)
    {
      var n := nodes[p];
      if n.isGroup {
        nodes := nodes[p := n.(stop := StatusFor(force))];
        StopAllChildren(p, arg.order, force);
        if force && p in nodes { nodes := nodes[p := nodes[p].(mailbox := [])]; }
        if n.managed == 0 { Activate(p); }
      } else {
        nodes := nodes[p := StoppedLeaf(n, force, arg)];
        if nodes[p].inflight == 0 { Activate(p); }
      }
      if p.parent in nodes {
        nodes := nodes[p.parent := nodes[p.parent].(children := nodes[p.parent].children[p.key := false])];
      }
    }

    /** `stop_child_actor` as the running node calls it on its parent. */
    method StopSelf(force: bool, plan: StopArg, ghost s: State) returns (arg: StopArg)
      requires cur.Kid? && cur in nodes && Inv(s) && s.cur == cur && (s.pc.LTask? ==> busy == {s.pc.chain})
      requires nodes[cur].children == s.nodes[cur].children && nodes[cur].tasks == s.nodes[cur].tasks
      requires nodes[cur].chains <= s.nodes[cur].chains
      modifies this`nodes
      ensures StopReady(s, force, arg) && St() == StopChild(old(St()), cur, force, arg)
      ensures s.pc.LTask? ==> s.pc.chain !in arg.finished
    {
      var order := Children(cur);
      arg := Fit(nodes[cur], busy, force, plan, order);
      var siblings := if cur.parent in nodes then nodes[cur.parent].children else map[];
      var disabled := cur.key in siblings && !siblings[cur.key];
      if !disabled { StopAndDisable(cur, force, arg); }
    }

    /** For every root child, what its stop will leave behind. */
    method PlanStops(force: bool, plans: map<Key, StopArg>) returns (keys: seq<Key>, args: map<Key, StopArg>)
      requires Valid()
      ensures Root in nodes && ValidSystemArgs(St(), force, keys, args)
    {
      Good();
      keys := Children(Root);
      args := map[];
      var i := 0;
      while i < |keys|
        invariant i <= |keys|
        invariant forall j :: 0 <= j < i ==>
          keys[j] in args && Kid(Root, keys[j]) in nodes && ValidArg(St(), Kid(Root, keys[j]), force, args[keys[j]])
      {
        var p := Kid(Root, keys[i]);
        assert keys[i] in keys && NodeOk(St(), Root, {}, {}, {});
        var order := Children(p);
        var plan := if keys[i] in plans then plans[keys[i]] else StopArg([], {}, []);
        var arg := Fit(nodes[p], if cur == p then busy else {}, force, plan, order);
        args := args[keys[i] := arg];
        i := i + 1;
      }
    }

    /** `stop_actor_system`. */
    method StopActorSystem(force: bool, plans: map<Key, StopArg>) returns (ghost step: Action)
      requires Valid()
      modifies this`nodes, this`exits, this`acts, this`trace
      ensures Valid() && acts == old(acts) + [step] && step.Shutdown? && step.force == force
      ensures Enabled(old(St()), step) && St() == Next(old(St()), step)
    {
      ghost var before := St();
      Good();
      var keys, args := PlanStops(force, plans);
      StopEveryChild(force, keys, args);
      step := Shutdown(force, keys, args);
      Commit(before, step);
    }

    method StopEveryChild(force: bool, keys: seq<Key>, args: map<Key, StopArg>)
      requires Root in nodes
      modifies this`nodes, this`exits
      ensures St() == StopSystem(old(St()), force, keys, args)
    {
      var root := nodes[Root];
      if root.stop != Running { return; }
      nodes := nodes[Root := root.(stop := StatusFor(force))];
      ghost var s1 := St();
      var i := 0;
      while i < |keys|
        invariant i <= |keys| && cur == s1.cur && exits == s1.exits
        invariant StopAll(St(), force, keys[i..], args) == StopAll(s1, force, keys, args)
      {
        var p := Kid(Root, keys[i]);
        assert keys[i..][1..] == keys[i + 1..] && keys[i..][0] == keys[i];
        if p in nodes && keys[i] in args { StopAndDisable(p, force, args[keys[i]]); }
        i := i + 1;
      }
      assert keys[i..] == [];
      if root.managed == 0 { exits := exits + 1; }
    }

    /** One call of user code into the engine. */
    method OneCall(c: Call) returns (ghost step: seq<Action>)
      requires Valid()
      modifies this`nodes, this`exits, this`acts, this`trace
      ensures Valid() && acts == old(acts) + step
      ensures if Possible(c, old(St())) then Carried(c, old(St()), step, St()) else step == [] && St() == old(St())
    {
      step := [];
      match c {
        case SendTo(dest, m, cap) =>
          if dest.Kid? && Layers(dest) <= Address.MAX_LAYER {
            Receive(dest, m, cap);
            step := [Action.Receive(dest, m, cap)];
          }
        case Wake(p, chain, urgent) =>
          if p in nodes && !nodes[p].isGroup && chain in nodes[p].chains {
            AddReady(p, chain, urgent);
            step := [Resume(p, chain, urgent)];
          }
        case ExitAll(force, plans) =>
          ghost var a := StopActorSystem(force, plans);
          step := [a];
      }
    }

    /** User code calling into the engine while a task or a `do_work` runs. */
    method UserCode(calls: seq<Call>) returns (ghost u: seq<Action>)
      requires Valid()
      modifies this`nodes, this`exits, this`acts, this`trace
      ensures Valid() && acts == old(acts) + u && Follows(calls, old(St()), u)
      decreases |calls|
    {
      if calls == [] {
        return [];
      }
      ghost var step := OneCall(calls[0]);
      ghost var s1 := St();
      ghost var rest := UserCode(calls[1..]);
      u := step + rest;
      FollowsNext(calls, old(St()), step, s1, rest);
    }

    // ----- actor::run_and_dispose -----

    /** A task leaves the front of the queue and runs; it may end its chain and ask to stop. */
    method RunTask() returns (quit: bool, ghost u: seq<Action>, ghost end: Action)
      requires Valid() && cur.Kid? && pc == LTasks && cur in nodes && nodes[cur].tasks != []
      modifies this`nodes, this`exits, this`script, this`busy, this`pc, this`acts, this`trace
      ensures Valid() && acts == old(acts) + [Task] + u + [end] && pc == if quit then LFinal else LTasks
      ensures var a := Upcoming(old(script));
        && quit == a.quit && Enabled(old(St()), Task) && Follows(a.calls, Next(old(St()), Task), u)
        && end.TaskEnd? && end.stop == a.stop && end.quit == a.quit
      ensures script == Tail(old(script))
    {
      ghost var s := St();
      Good();
      var chain := nodes[cur].tasks[0];
      nodes, pc, busy := nodes[cur := PopTask(nodes[cur])], LTask(chain), {chain};
      Commit(s, Task);
      var a := Ask();
      u := UserCode(a.calls);
      quit := a.quit;
      Good();
      end := EndTask(chain, a);
    }

    method EndTask(chain: nat, a: Answer) returns (ghost end: Action)
      requires Valid() && cur.Kid? && pc == LTask(chain) && cur in nodes
      modifies this`nodes, this`pc, this`acts, this`trace
      ensures Valid() && acts == old(acts) + [end] && pc == if a.quit then LFinal else LTasks
      ensures end.TaskEnd? && end.stop == a.stop && end.quit == a.quit
      ensures end.finished == (a.finished && chain !in old(nodes)[cur].tasks)
    {
      ghost var s := St();
      Good();
      var finished := a.finished && chain !in nodes[cur].tasks;
      var arg := a.plan;
      if finished {
        nodes := nodes[cur := EndChain(nodes[cur], chain)];
        if a.stop { arg := StopSelf(true, a.plan, s); }
      }
      pc := if a.quit then LFinal else LTasks;
      end := TaskEnd(finished, a.stop, arg, a.quit);
      Commit(s, end);
    }

    /** The head of the mailbox: a stop is obeyed at once, a user message goes to `do_work`. */
    method RunMessage() returns (quit: bool, ghost u: seq<Action>, ghost end: Action)
      requires Valid() && cur.Kid? && pc == LMail && cur in nodes && nodes[cur].mailbox != []
      modifies this`nodes, this`exits, this`script, this`pc, this`acts, this`trace
      ensures Valid() && old(acts) < acts && pc == if quit then LFinal else LMail
      ensures var a := Upcoming(old(script));
        && (a.quit ==> quit)
        && (old(nodes)[cur].mailbox[0].Stop? ==> u == [] && end.Mail? && acts == old(acts) + [end])
        && (old(nodes)[cur].mailbox[0].User? ==>
              && acts == old(acts) + [Mail(a.plan, a.quit)] + u + [end] && end.Work?
              && Enabled(old(St()), Mail(a.plan, a.quit))
              && Follows(a.calls, Next(old(St()), Mail(a.plan, a.quit)), u))
      ensures script == Tail(old(script))
    {
      var a := Ask();
      u := [];
      if nodes[cur].mailbox[0].Stop? {
        quit := a.quit;
        end := ObeyStop(a.plan, quit);
      } else {
        StartWork(a);
        u := UserCode(a.calls);
        Good();
        quit, end := EndWork(a);
      }
    }

    /** A user message leaves the mailbox for `do_work`. */
    method StartWork(a: Answer)
      requires Valid() && cur.Kid? && pc == LMail && cur in nodes
      requires nodes[cur].mailbox != [] && nodes[cur].mailbox[0].User?
      modifies this`nodes, this`pc, this`acts, this`trace
      ensures Valid() && acts == old(acts) + [Mail(a.plan, a.quit)] && pc.LWork?
      ensures Enabled(old(St()), Mail(a.plan, a.quit)) && St() == Next(old(St()), Mail(a.plan, a.quit))
    {
      ghost var s := St();
      Good();
      var n := nodes[cur];
      nodes, pc := nodes[cur := PopMail(n)], LWork(n.mailbox[0].id);
      Commit(s, Mail(a.plan, a.quit));
    }

    method ObeyStop(plan: StopArg, quit: bool) returns (ghost end: Action)
      requires Valid() && cur.Kid? && pc == LMail && cur in nodes
      requires nodes[cur].mailbox != [] && nodes[cur].mailbox[0].Stop?
      modifies this`nodes, this`pc, this`acts, this`trace
      ensures Valid() && acts == old(acts) + [end] && end.Mail? && pc == if quit then LFinal else LMail
    {
      ghost var s := St();
      Good();
      var n := nodes[cur];
      nodes := nodes[cur := PopMail(n)];
      var arg := StopSelf(n.mailbox[0].force, plan, s);
      pc := if quit then LFinal else LMail;
      end := Mail(arg, quit);
      Commit(s, end);
    }

    /** How `do_work` ended decides: a new chain in flight, or a finished message and its stop reaction. */
    method EndWork(a: Answer) returns (quit: bool, ghost end: Action)
      requires Valid() && cur.Kid? && pc.LWork? && cur in nodes
      modifies this`nodes, this`pc, this`acts, this`trace
      ensures Valid() && acts == old(acts) + [end] && pc == if quit then LFinal else LMail
      ensures end.Work? && end.quit == a.quit && (a.quit ==> quit)
      ensures end.outcome ==
              if a.suspended && a.chain !in old(nodes)[cur].chains then Suspended(a.chain) else Done(a.stop)
    {
      ghost var s := St();
      Good();
      var n := nodes[cur];
      var arg := a.plan;
      if a.suspended && a.chain !in n.chains {
        nodes := nodes[cur := n.(chains := n.chains + {a.chain}, inflight := n.inflight + 1)];
        quit := a.quit || n.inflight + 1 == n.cap;
        pc := if quit then LFinal else LMail;
        end := Work(Suspended(a.chain), arg, a.quit);
      } else {
        quit := a.quit;
        if a.stop { arg := StopSelf(true, a.plan, s); }
        pc := if quit then LFinal else LMail;
        end := Work(Done(a.stop), arg, quit);
      }
      Commit(s, end);
    }

    /** `notify_child_stopped` on the parent, then `delete this`. */
    method DeleteSelf(quit: bool)
      requires cur.Kid? && cur.parent in nodes
      modifies this`nodes, this`exits, this`cur, this`pc
      ensures St() == Delete(old(St()), quit)
    {
      var me, g := cur, nodes[cur.parent];
      var left := if g.managed > 0 then g.managed - 1 else 0;
      if me.parent == Root && left == 0 && g.stop != Running { exits := exits + 1; }
      nodes := nodes[me.parent := g.(managed := left)] - {me};
      cur, pc := me.parent, BackTo(me.parent, quit);
    }

    method LeaveSelf(again: bool, quit: bool)
      requires cur.Kid? && cur in nodes
      modifies this`nodes, this`cur, this`pc
      ensures St() == Leave(old(St()), again, quit)
      ensures cur == old(cur).parent && pc == BackTo(cur, quit)
    {
      var me := cur;
      nodes := nodes[me := nodes[me].(sched := Schedulable)];
      cur, pc := me.parent, BackTo(me.parent, quit);
      if again { Activate(me); }
    }

    /** The tail of both loops: delete, or become schedulable and re-enter the queue. */
    method Final() returns (quit: bool)
      requires Valid() && cur.Kid? && (pc == LFinal || pc == GFinal)
      modifies this`nodes, this`exits, this`cur, this`script, this`pc, this`acts, this`trace
      ensures Valid() && old(acts) < acts && cur == old(cur).parent && pc == BackTo(cur, quit)
      ensures Went(old(script), old(acts), script, acts) && (|script| == |old(script)| ==> quit)
    {
      ghost var s := St();
      Good();
      assert NodeOk(s, cur, {}, {}, {});
      var a := Ask();
      quit := a.quit;
      if Deletable(nodes[cur]) {
        DeleteSelf(quit);
      } else {
        LeaveSelf(MoreWork(nodes[cur]), quit);
      }
      Commit(s, if s.pc.LFinal? then ActorEnd(quit) else GroupEnd(quit));
      WentOne(old(script), old(acts), acts);
    }

    /** The loop over queued tasks. */
    method RunTasks(me: Path) returns (stop: bool)
      requires Valid() && cur == me && me.Kid? && me in nodes && pc == LTasks
      modifies this
      ensures Valid() && cur == me && me in nodes && Went(old(script), old(acts), script, acts)
      ensures pc == if stop then LFinal else LTasks
      ensures !stop ==> nodes[me].tasks == []
    {
      stop := false;
      while !stop && nodes[me].tasks != []
        invariant Valid() && cur == me && me in nodes && Went(old(script), old(acts), script, acts)
        invariant pc == if stop then LFinal else LTasks
        decreases |script|, !stop
      {
        ghost var script1, acts1 := script, acts;
        stop := TaskTurn(me);
        WentOn(old(script), old(acts), script1, acts1, script, acts);
      }
    }

    /** One turn of the loop over queued tasks. */
    method TaskTurn(me: Path) returns (stop: bool)
      requires Valid() && cur == me && me.Kid? && me in nodes && pc == LTasks && nodes[me].tasks != []
      modifies this
      ensures Valid() && cur == me && me in nodes && pc == if stop then LFinal else LTasks
      ensures Went(old(script), old(acts), script, acts) && (|script| == |old(script)| ==> stop)
    {
      ghost var u, end;
      stop, u, end := RunTask();
      WentOne(old(script), old(acts), acts);
      Good();
    }

    /** `actor::run_and_dispose`; the result is the parent's `need_yield` afterwards. */
    method RunActor() returns (quit: bool)
      requires Valid() && cur.Kid? && pc == LTasks
      modifies this
      ensures Valid() && old(acts) < acts && cur == old(cur).parent && pc == BackTo(cur, quit)
      ensures Went(old(script), old(acts), script, acts) && (|script| == |old(script)| ==> quit)
    {
      Good();
      var me := cur;
      var stop := RunTasks(me);
      ghost var script1, acts1 := script, acts;
      if !stop {
        var limited := OpenMailbox();
        if limited {
          quit := LeaveAtLimit();
          WentOn(old(script), old(acts), script1, acts1, script, acts);
          return;
        }
        ReadMailbox(me);
        WentOn(old(script), old(acts), script1, acts1, script, acts);
      }
      ghost var script2, acts2 := script, acts;
      quit := Final();
      WentOn(old(script), old(acts), script2, acts2, script, acts);
    }

    /** With no task left: at the concurrency limit the mailbox stays shut. */
    method OpenMailbox() returns (limited: bool)
      requires Valid() && cur.Kid? && pc == LTasks && cur in nodes && nodes[cur].tasks == []
      modifies this`pc, this`acts, this`trace
      ensures Valid() && limited == (nodes[cur].inflight == nodes[cur].cap)
      ensures acts == old(acts) + if limited then [] else [TasksEnd(false)]
      ensures pc == if limited then LTasks else LMail
    {
      limited := nodes[cur].inflight == nodes[cur].cap;
      if !limited {
        ghost var s := St();
        Good();
        pc := LMail;
        Commit(s, TasksEnd(false));
      }
    }

    method LeaveAtLimit() returns (quit: bool)
      requires Valid() && cur.Kid? && pc == LTasks && cur in nodes && nodes[cur].tasks == []
      requires nodes[cur].inflight == nodes[cur].cap
      modifies this
      ensures Valid() && old(acts) < acts && cur == old(cur).parent && pc == BackTo(cur, quit)
      ensures Went(old(script), old(acts), script, acts) && (|script| == |old(script)| ==> quit)
    {
      var a := Ask();
      quit := a.quit;
      ghost var s := St();
      Good();
      LeaveSelf(false, quit);
      Commit(s, TasksEnd(quit));
      WentOne(old(script), old(acts), acts);
    }

    method ReadMailbox(me: Path)
      requires Valid() && cur == me && me.Kid? && me in nodes && pc == LMail
      modifies this
      ensures Valid() && cur == me && pc == LFinal && old(acts) < acts && Went(old(script), old(acts), script, acts)
    {
      var stop := false;
      while !stop && nodes[me].mailbox != []
        invariant Valid() && cur == me && me in nodes && Went(old(script), old(acts), script, acts)
        invariant (stop ==> old(acts) < acts) && pc == if stop then LFinal else LMail
        decreases |script|, !stop
      {
        ghost var script1, acts1 := script, acts;
        stop := MailTurn(me);
        WentOn(old(script), old(acts), script1, acts1, script, acts);
      }
      if !stop {
        ghost var s := St();
        Good();
        pc := LFinal;
        Commit(s, MailEnd);
      }
    }

    /** One turn of the mailbox loop. */
    method MailTurn(me: Path) returns (stop: bool)
      requires Valid() && cur == me && me.Kid? && me in nodes && pc == LMail && nodes[me].mailbox != []
      modifies this
      ensures Valid() && cur == me && me in nodes && pc == if stop then LFinal else LMail
      ensures old(acts) < acts && Went(old(script), old(acts), script, acts) && (|script| == |old(script)| ==> stop)
    {
      ghost var u, end;
      stop, u, end := RunMessage();
      WentOne(old(script), old(acts), acts);
      Good();
    }

    // ----- actor_group::run_and_dispose -----

    method GroupMessage() returns (quit: bool)
      requires Valid() && cur.Kid? && pc == GMail && cur in nodes && nodes[cur].mailbox != []
      modifies this`nodes, this`script, this`pc, this`acts, this`trace
      ensures Valid() && old(acts) < acts && pc == if quit then GFinal else GMail
      ensures script == Tail(old(script)) && (old(script) == [] ==> quit)
    {
      ghost var s := St();
      Good();
      var a := Ask();
      var n, arg := nodes[cur], a.plan;
      quit := a.quit;
      nodes := nodes[cur := PopMail(n)];
      if n.mailbox[0].Stop? { arg := StopSelf(n.mailbox[0].force, a.plan, s); }
      pc := if quit then GFinal else GMail;
      Commit(s, GroupMail(arg, quit));
    }

    /** `pop_task`: the queue yields a child, which goes on the call stack. */
    method EnterChild(pick: nat)
      requires Valid() && pc == GTasks && cur in nodes && nodes[cur].queue != []
      modifies this`nodes, this`cur, this`pc, this`acts, this`trace
      ensures Valid() && old(acts) < acts && cur.Kid? && cur.parent == old(cur) && cur in nodes
      ensures pc == if IsGroupType(cur.key) then GMail else LTasks
    {
      ghost var s := St();
      Good();
      var me, g := cur, nodes[cur];
      var i := pick % |g.queue|;
      var child := Kid(me, g.queue[i]);
      assert g.queue[i] in g.queue && NodeOk(s, me, {}, {}, {});
      nodes := nodes[me := g.(queue := RemoveAt(g.queue, i))];
      cur, pc := child, if IsGroupType(child.key) then GMail else LTasks;
      Commit(s, Run(i));
      Good();
    }

    /** A child taken from the queue, and its whole slice. */
    method RunChild() returns (quit: bool)
      requires Valid() && pc == GTasks && cur in nodes && nodes[cur].queue != []
      modifies this
      ensures Valid() && old(acts) < acts && cur == old(cur) && pc == BackTo(cur, quit)
      ensures Went(old(script), old(acts), script, acts) && (|script| == |old(script)| ==> quit && script == [])
      decreases Address.MAX_LAYER - Layers(cur), 1
    {
      var a := Ask();
      EnterChild(a.pick);
      WentOne(old(script), old(acts), acts);
      ghost var script1, acts1 := script, acts;
      if IsGroupType(cur.key) {
        quit := RunGroup();
      } else {
        quit := RunActor();
      }
      WentOn(old(script), old(acts), script1, acts1, script, acts);
    }

    method RunGroup() returns (quit: bool)
      requires Valid() && cur.Kid? && cur in nodes && pc == GMail
      modifies this
      ensures Valid() && old(acts) < acts && cur == old(cur).parent && pc == BackTo(cur, quit)
      ensures Went(old(script), old(acts), script, acts) && (|script| == |old(script)| ==> quit)
      decreases Address.MAX_LAYER - Layers(cur), 3
    {
      var me, stop := cur, false;
      while !stop && nodes[me].mailbox != []
        invariant Valid() && cur == me && me in nodes && Went(old(script), old(acts), script, acts)
        invariant pc == if stop then GFinal else GMail
        decreases |script|, !stop
      {
        ghost var script1, acts1 := script, acts;
        stop := GroupMessage();
        WentOne(script1, acts1, acts);
        WentOn(old(script), old(acts), script1, acts1, script, acts);
        Good();
      }
      if !stop {
        ghost var script1, acts1 := script, acts;
        RunQueue(me);
        WentOn(old(script), old(acts), script1, acts1, script, acts);
      }
      ghost var script2, acts2 := script, acts;
      quit := Final();
      WentOn(old(script), old(acts), script2, acts2, script, acts);
    }

    method RunQueue(me: Path)
      requires Valid() && cur == me && me.Kid? && me in nodes && pc == GMail && nodes[me].mailbox == []
      modifies this
      ensures Valid() && cur == me && pc == GFinal && Went(old(script), old(acts), script, acts)
      decreases Address.MAX_LAYER - Layers(me), 2
    {
      ghost var s := St();
      Good();
      pc := GTasks;
      Commit(s, GroupMailEnd);
      var stop := false;
      while !stop && nodes[me].queue != []
        invariant Valid() && cur == me && me in nodes && Went(old(script), old(acts), script, acts)
        invariant pc == if stop then GFinal else GTasks
        decreases |script|, !stop
      {
        ghost var script1, acts1 := script, acts;
        stop := RunChild();
        WentOn(old(script), old(acts), script1, acts1, script, acts);
        Good();
      }
      if !stop {
        ghost var s2 := St();
        Good();
        pc := GFinal;
        Commit(s2, GroupQueueEnd);
      }
    }

    /** The reactor: run queued root children until the script of the outside world ends. */
    method RunReactor()
      requires Valid() && cur == Root
      modifies this
      ensures Valid() && cur == Root && Went(old(script), old(acts), script, acts)
      ensures script == [] || Resting()
    {
      AtRoot();
      WentSelf(script, acts);
      while script != [] && nodes[Root].queue != []
        invariant Valid() && cur == Root && Root in nodes && pc == GTasks
        invariant Went(old(script), old(acts), script, acts)
        decreases |script|
      {
        ghost var script1, acts1 := script, acts;
        ReactorTurn();
        WentOn(old(script), old(acts), script1, acts1, script, acts);
      }
      if script != [] { AtRest(); }
    }

    /** No node below the root has runnable work. */
    ghost predicate Resting()
      reads this
    {
      forall q :: q in nodes && q.Kid? ==> !HasWork(nodes[q])
    }

    lemma AtRoot()
      requires Valid() && cur == Root
      ensures Root in nodes && pc == GTasks
    {
      Good();
    }

    /** One queued root child and its slice. */
    method ReactorTurn()
      requires Valid() && cur == Root && Root in nodes && pc == GTasks && nodes[Root].queue != [] && script != []
      modifies this
      ensures Valid() && cur == Root && Root in nodes && pc == GTasks
      ensures Went(old(script), old(acts), script, acts) && |script| < |old(script)|
    {
      var quit := RunChild();
      Good();
    }

    lemma AtRest()
      requires Valid() && cur == Root && Root in nodes && nodes[Root].queue == []
      ensures Resting()
    {
      Good();
      Quiescent(St());
    }
  }
}

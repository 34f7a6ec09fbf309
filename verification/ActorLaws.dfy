/** Laws of whole runs: what is mailed is started, what is resumed runs, what is suspended ends. */
module ActorLaws {
  import opened ActorTree
  import opened ActorRuns
  import opened ActorEffects

  // ----- Chains and tasks -----

  /** Per actor: continuations queued and run, chains opened and ended. */
  datatype Tally = Tally(resumed: multiset<nat>, ran: multiset<nat>, suspended: multiset<nat>, finished: multiset<nat>)

  function When(b: bool, c: nat): multiset<nat> {
    if b then multiset{c} else multiset{}
  }

  /** What one step, from `s` to `s'`, adds to the tally of the actor `q`. */
  ghost function Entry(s: State, a: Action, s': State, q: Path): Tally {
    Tally(
      if a.Resume? then When(a.p == q, a.chain) else multiset{},
      if a.Task? && s'.pc.LTask? then When(s.cur == q, s'.pc.chain) else multiset{},
      if a.Work? && a.outcome.Suspended? then When(s.cur == q, a.outcome.chain) else multiset{},
      if a.TaskEnd? && a.finished && s.pc.LTask? then When(s.cur == q, s.pc.chain) else multiset{})
  }

  function Plus(t: Tally, u: Tally): Tally {
    Tally(t.resumed + u.resumed, t.ran + u.ran, t.suspended + u.suspended, t.finished + u.finished)
  }

  const NOTHING: Tally := Tally(multiset{}, multiset{}, multiset{}, multiset{})

  /** The tally of `q` over the first `i` steps. */
  ghost function TallyOf(states: seq<State>, acts: seq<Action>, q: Path, i: nat): Tally
    requires |states| == |acts| + 1 && i <= |acts|
  {
    if i == 0 then NOTHING
    else Plus(TallyOf(states, acts, q, i - 1), Entry(states[i - 1], acts[i - 1], states[i], q))
  }

  /** Queued is resumed but not run; in flight is suspended but not finished. */
  predicate Balanced(n: Node, t: Tally) {
    t.resumed == t.ran + multiset(n.tasks) && t.suspended == t.finished + multiset(n.chains)
  }

  /** What a step leaves of an actor, and the chain that a task step takes up. */
  ghost predicate Moved(s: State, a: Action, s': State, q: Path)
    requires Enabled(s, a) && q in s.nodes
  {
    && q in s'.nodes && SameData(After(s, a, q), s'.nodes[q])
    && (a.Task? ==> s'.pc == LTask(s.nodes[s.cur].tasks[0]))
  }

  lemma StepMoves(s: State, a: Action, q: Path)
    requires Inv(s) && Enabled(s, a) && q in s.nodes && q in Next(s, a).nodes
    ensures Moved(s, a, Next(s, a), q)
  {
    StepEffect(s, a, q);
  }

  /** An actor's tasks over a step: `queued` is resumed, `taken` is run, at most one of them. */
  predicate TasksMove(n: Node, m: Node, queued: multiset<nat>, taken: multiset<nat>) {
    multiset(m.tasks) + taken == multiset(n.tasks) + queued
  }

  predicate ChainsMove(n: Node, m: Node, begun: multiset<nat>, ended: multiset<nat>) {
    multiset(m.chains) + ended == multiset(n.chains) + begun
  }

  lemma TasksAfter(s: State, a: Action, q: Path)
    requires Enabled(s, a) && q in s.nodes && !s.nodes[q].isGroup && After(s, a, q).stop != ForceStopping
    ensures var n, m := s.nodes[q], After(s, a, q);
      m.tasks == (if a.Resume? && a.p == q then (if a.urgent then [a.chain] + n.tasks else n.tasks + [a.chain])
                  else if a.Task? && s.cur == q then n.tasks[1..] else n.tasks)
  {
  }

  lemma ChainsAfter(s: State, a: Action, q: Path)
    requires Enabled(s, a) && PcOk(s) && q in s.nodes && !s.nodes[q].isGroup && After(s, a, q).stop != ForceStopping
    ensures var n, m := s.nodes[q], After(s, a, q);
      && (a.Work? && a.outcome.Suspended? && s.cur == q ==>
            a.outcome.chain !in n.chains && m.chains == n.chains + {a.outcome.chain})
      && (a.TaskEnd? && a.finished && s.cur == q ==>
            s.pc.LTask? && s.pc.chain in n.chains && m.chains == n.chains - {s.pc.chain})
      && (!(a.Work? && a.outcome.Suspended? && s.cur == q) && !(a.TaskEnd? && a.finished && s.cur == q) ==>
            m.chains == n.chains)
  {
  }

  lemma TasksBalance(s: State, a: Action, s': State, q: Path)
    requires Inv(s) && Enabled(s, a) && q in s.nodes && !s.nodes[q].isGroup && Moved(s, a, s', q)
    requires s'.nodes[q].stop != ForceStopping
    ensures TasksMove(s.nodes[q], s'.nodes[q], Entry(s, a, s', q).resumed, Entry(s, a, s', q).ran)
  {
    TasksAfter(s, a, q);
    var n := s.nodes[q];
    if a.Task? && s.cur == q { assert n.tasks == [n.tasks[0]] + n.tasks[1..]; }
  }

  lemma ChainsBalance(s: State, a: Action, s': State, q: Path)
    requires Inv(s) && Enabled(s, a) && q in s.nodes && !s.nodes[q].isGroup && Moved(s, a, s', q)
    requires s'.nodes[q].stop != ForceStopping
    ensures ChainsMove(s.nodes[q], s'.nodes[q], Entry(s, a, s', q).suspended, Entry(s, a, s', q).finished)
  {
    ChainsAfter(s, a, q);
  }

  lemma Balances(n: Node, m: Node, t: Tally, e: Tally)
    requires Balanced(n, t) && TasksMove(n, m, e.resumed, e.ran) && ChainsMove(n, m, e.suspended, e.finished)
    ensures Balanced(m, Plus(t, e))
  {
    Shift(t.resumed, t.ran, e.resumed, e.ran, multiset(n.tasks), multiset(m.tasks));
    Shift(t.suspended, t.finished, e.suspended, e.finished, multiset(n.chains), multiset(m.chains));
  }

  lemma Shift(all: multiset<nat>, gone: multiset<nat>, more: multiset<nat>, goes: multiset<nat>,
              here: multiset<nat>, then_: multiset<nat>)
    requires all == gone + here && then_ + goes == here + more
    ensures all + more == (gone + goes) + then_
  {
    assert all + more == gone + (here + more);
    assert gone + (then_ + goes) == (gone + goes) + then_;
  }

  /** Nothing is entered for an address before there is an actor. */
  lemma {:induction false} NothingBefore(states: seq<State>, acts: seq<Action>, q: Path, i: nat)
    requires IsRun(states, acts) && i <= |acts| && forall l :: 0 <= l < i ==> q !in states[l].nodes
    ensures TallyOf(states, acts, q, i) == NOTHING
    decreases i
  {
    if i > 0 {
      NothingBefore(states, acts, q, i - 1);
      assert StepAt(states, acts, i - 1);
      NoEntry(states[i - 1], acts[i - 1], states[i], q);
    }
  }

  lemma NoEntry(s: State, a: Action, s': State, q: Path)
    requires Enabled(s, a) && q !in s.nodes
    ensures Entry(s, a, s', q) == NOTHING
  {
  }

  /** An address that has an actor now, and had none before step `i`, never had one. */
  lemma NeverBefore(states: seq<State>, acts: seq<Action>, q: Path, i: nat)
    requires IsRun(states, acts) && i + 1 < |states| && q !in states[i].nodes && q in states[i + 1].nodes
    ensures forall l :: 0 <= l < i + 1 ==> q !in states[l].nodes
  {
    forall l | 0 <= l < i + 1 ensures q !in states[l].nodes {
      if q in states[l].nodes { InstantiatedOnce(states, acts, l, i, i + 1, q); }
    }
  }

  lemma NewIsBlank(s: State, a: Action, q: Path)
    requires Inv(s) && Enabled(s, a) && q !in s.nodes && q in Next(s, a).nodes
    ensures a.Receive? && q.Kid?
    ensures var n := Next(s, a).nodes[q];
      && n.tasks == [] && n.chains == {} && n.started == []
      && n.arrived == (if a.m.User? && q == Addressee(a.dest) then [a.m.id] else [])
      && (q == Addressee(a.dest) ==> !Refused(s, q))
  {
    StepKeys(s, a, q);
    ReceiveEffect(s, a.dest, a.m, a.cap);
  }

  /**
   Of every actor not stopped by force, in every reachable state: each continuation that became
   ready has run or is queued, and each chain that was suspended has ended or is in flight, once.
   */
  lemma {:induction false} TallyLaw(states: seq<State>, acts: seq<Action>, q: Path, i: nat)
    requires IsRun(states, acts) && i < |states| && q in states[i].nodes && !states[i].nodes[q].isGroup
    requires states[i].nodes[q].stop != ForceStopping
    ensures Balanced(states[i].nodes[q], TallyOf(states, acts, q, i))
    decreases i
  {
    if i > 0 {
      assert StepAt(states, acts, i - 1);
      RunInv(states, acts, i - 1);
      var s, a := states[i - 1], acts[i - 1];
      if q in s.nodes {
        StepMoves(s, a, q);
        StaysForced(s, a, q);
        TallyLaw(states, acts, q, i - 1);
        TasksBalance(s, a, states[i], q);
        ChainsBalance(s, a, states[i], q);
        Balances(s.nodes[q], states[i].nodes[q], TallyOf(states, acts, q, i - 1), Entry(s, a, states[i], q));
      } else {
        NeverBefore(states, acts, q, i - 1);
        NothingBefore(states, acts, q, i - 1);
        NoEntry(s, a, states[i], q);
        NewIsBlank(s, a, q);
      }
    }
  }

  lemma StaysForced(s: State, a: Action, q: Path)
    requires Inv(s) && Enabled(s, a) && q in s.nodes && q in Next(s, a).nodes
    ensures Next(s, a).nodes[q].isGroup == s.nodes[q].isGroup
    ensures s.nodes[q].stop == ForceStopping ==> Next(s, a).nodes[q].stop == ForceStopping
  {
    StepEffect(s, a, q);
    StatusAfter(s, a, q);
  }

  lemma StatusAfter(s: State, a: Action, q: Path)
    requires Inv(s) && Enabled(s, a) && q in s.nodes
    ensures After(s, a, q).isGroup == s.nodes[q].isGroup
    ensures s.nodes[q].stop != Running ==> After(s, a, q).stop == s.nodes[q].stop
  {
    assert NodeOk(s, q, {}, {}, {});
    StatusKept(s, a, q);
  }

  lemma StatusKept(s: State, a: Action, q: Path)
    requires Enabled(s, a) && q in s.nodes
    requires q.Kid? && s.nodes[q].stop != Running ==> Tombstoned(s, q)
    ensures After(s, a, q).isGroup == s.nodes[q].isGroup
    ensures s.nodes[q].stop != Running ==> After(s, a, q).stop == s.nodes[q].stop
  {
  }

  // ----- Messages -----

  /** The user message, if any, that a step delivers to `q`. */
  ghost function Delivered(s: State, a: Action, q: Path): seq<nat> {
    if a.Receive? && a.m.User? && q.Kid? && q == Addressee(a.dest) && Root in s.nodes && !Refused(s, q) then [a.m.id]
    else []
  }

  /** The user messages received for `q` and not refused, over the first `i` steps. */
  ghost function Arrivals(states: seq<State>, acts: seq<Action>, q: Path, i: nat): seq<nat>
    requires |states| == |acts| + 1 && i <= |acts|
  {
    if i == 0 then [] else Arrivals(states, acts, q, i - 1) + Delivered(states[i - 1], acts[i - 1], q)
  }

  lemma ArrivedAfter(s: State, a: Action, q: Path)
    requires Enabled(s, a) && q in s.nodes
    ensures After(s, a, q).arrived == s.nodes[q].arrived + Delivered(s, a, q)
  {
  }

  lemma {:induction false} NoArrivalsBefore(states: seq<State>, acts: seq<Action>, q: Path, i: nat)
    requires IsRun(states, acts) && i <= |acts| && forall l :: 0 <= l < i + 1 ==> q !in states[l].nodes
    ensures Arrivals(states, acts, q, i) == []
    decreases i
  {
    if i > 0 {
      NoArrivalsBefore(states, acts, q, i - 1);
      assert StepAt(states, acts, i - 1);
      RunInv(states, acts, i - 1);
      NotDelivered(states[i - 1], acts[i - 1], q);
    }
  }

  /** A delivery creates its addressee. */
  lemma NotDelivered(s: State, a: Action, q: Path)
    requires Inv(s) && Enabled(s, a) && q !in Next(s, a).nodes
    ensures Delivered(s, a, q) == []
  {
    if a.Receive? { ReceiveEffect(s, a.dest, a.m, a.cap); }
  }

  /** A node's record of arrivals is exactly what was received for it. */
  lemma {:induction false} ArrivalLaw(states: seq<State>, acts: seq<Action>, q: Path, i: nat)
    requires IsRun(states, acts) && i < |states| && q in states[i].nodes
    ensures states[i].nodes[q].arrived == Arrivals(states, acts, q, i)
    decreases i
  {
    if i > 0 {
      assert StepAt(states, acts, i - 1);
      RunInv(states, acts, i - 1);
      var s, a := states[i - 1], acts[i - 1];
      if q in s.nodes {
        ArrivalLaw(states, acts, q, i - 1);
        StepEffect(s, a, q);
        ArrivedAfter(s, a, q);
      } else {
        NeverBefore(states, acts, q, i - 1);
        NoArrivalsBefore(states, acts, q, i - 1);
        NewIsBlank(s, a, q);
      }
    }
  }

  /**
   Of every actor not stopped by force, in every reachable state: the user messages received for it
   are those it has started, in that order, followed by those waiting in its mailbox.
   */
  lemma MessageLaw(states: seq<State>, acts: seq<Action>, q: Path, i: nat)
    requires IsRun(states, acts) && i < |states| && q in states[i].nodes && !states[i].nodes[q].isGroup
    requires states[i].nodes[q].stop != ForceStopping
    ensures var n := states[i].nodes[q]; Arrivals(states, acts, q, i) == n.started + Users(n.mailbox)
  {
    ArrivalLaw(states, acts, q, i);
    RunInv(states, acts, i);
    assert NodeOk(states[i], q, {}, {}, {});
  }

  /** A peaceful stop completes everything: at its deletion the actor has started and ended all it got. */
  lemma PeacefulCompletes(states: seq<State>, acts: seq<Action>, q: Path, i: nat)
    requires IsRun(states, acts) && i < |acts| && q in states[i].nodes && q !in states[i + 1].nodes
    requires !states[i].nodes[q].isGroup && states[i].nodes[q].stop != ForceStopping
    ensures states[i].nodes[q].stop == PeaceStopping
    ensures Arrivals(states, acts, q, i) == states[i].nodes[q].started
    ensures var t := TallyOf(states, acts, q, i); t.resumed == t.ran && t.suspended == t.finished
  {
    var n := states[i].nodes[q];
    RunInv(states, acts, i);
    assert StepAt(states, acts, i);
    DeletedIff(states[i], acts[i], q);
    assert NodeOk(states[i], q, {}, {}, {});
    MessageLaw(states, acts, q, i);
    TallyLaw(states, acts, q, i);
  }

  // ----- Forced stops -----

  /** Started and waiting together: what a step can add to but not reorder. */
  function Flow(n: Node): seq<nat> {
    n.started + Users(n.mailbox)
  }

  lemma UsersOfStop(force: bool, mailbox: seq<Msg>)
    ensures Users([Stop(force)] + mailbox) == Users(mailbox)
  {
    assert ([Stop(force)] + mailbox)[1..] == mailbox;
  }

  lemma FlowPopped(n: Node)
    requires n.mailbox != []
    ensures n.started + Users(n.mailbox[..1]) + Users(n.mailbox[1..]) == Flow(n)
  {
    UsersAppend(n.mailbox[..1], n.mailbox[1..]);
    assert n.mailbox[..1] + n.mailbox[1..] == n.mailbox;
  }

  /** A stopping actor gets no further user message. */
  lemma StoppingFlow(s: State, a: Action, q: Path)
    requires Inv(s) && Enabled(s, a) && q in s.nodes && !s.nodes[q].isGroup && s.nodes[q].stop != Running
    ensures Flow(After(s, a, q)) == Flow(s.nodes[q])
  {
    assert NodeOk(s, q, {}, {}, {});
    if a.Receive? && q == Addressee(a.dest) && a.m.Stop? { UsersOfStop(a.m.force, s.nodes[q].mailbox); }
    if (a.Mail? || a.GroupMail?) && q == s.cur { FlowPopped(s.nodes[q]); }
  }

  /** The mail that the tasks cancelled by a forced stop sent to their own actor. */
  function LateMail(a: Action, q: Path): seq<Msg> {
    if a.Shutdown? then (if q.Kid? && q.key in a.args then a.args[q.key].late else [])
    else if a.GroupMail? || a.Mail? || a.TaskEnd? || a.Work? then a.arg.late
    else []
  }

  lemma ForcedNow(s: State, a: Action, q: Path)
    requires Inv(s) && Enabled(s, a) && q in s.nodes && !s.nodes[q].isGroup && s.nodes[q].stop == Running
    requires After(s, a, q).stop == ForceStopping
    ensures var n, m := s.nodes[q], After(s, a, q);
      && m.mailbox == LateMail(a, q) && m.tasks == [] && m.started == n.started && m.chains <= n.chains
      && m.inflight == |m.chains|
  {
    if (a.Mail? || a.GroupMail?) && q == s.cur { assert Users(s.nodes[q].mailbox[..1]) == []; }
  }

  /** A stop message, or a stop reaction, stops a running node, in its kind; a stopping one ignores it. */
  lemma StopObeyed(s: State, a: Action)
    requires Inv(s) && Enabled(s, a) && SelfStop(s, a).Some?
    ensures s.cur in Next(s, a).nodes
    ensures var n, m := s.nodes[s.cur], Next(s, a).nodes[s.cur];
      m.stop == if n.stop != Running then n.stop
                else if SelfStop(s, a).value.0 then ForceStopping else PeaceStopping
  {
    StepKeeps(s, a, s.cur);
    StepEffect(s, a, s.cur);
  }

  /** An actor that a step stops: by force it is emptied, peacefully it keeps all but the stop message. */
  lemma ActorStops(s: State, a: Action, q: Path)
    requires Inv(s) && Enabled(s, a) && q in s.nodes && !s.nodes[q].isGroup && s.nodes[q].stop == Running
    requires q in Next(s, a).nodes && Next(s, a).nodes[q].stop != Running
    ensures var n, m := s.nodes[q], Next(s, a).nodes[q];
      && m.started == n.started && m.arrived == n.arrived && m.inflight == |m.chains|
      && (m.stop == ForceStopping ==> m.mailbox == LateMail(a, q) && m.tasks == [] && m.chains <= n.chains)
      && (m.stop == PeaceStopping ==>
            && m.mailbox == (if a.Mail? && q == s.cur then n.mailbox[1..] else n.mailbox)
            && m.tasks == n.tasks && m.chains == n.chains)
  {
    assert NodeOk(s, q, {}, {}, {});
    StepEffect(s, a, q);
    if After(s, a, q).stop == ForceStopping { ForcedNow(s, a, q); } else { PeacefulNow(s, a, q); }
    ArrivedAfter(s, a, q);
  }

  lemma PeacefulNow(s: State, a: Action, q: Path)
    requires Enabled(s, a) && q in s.nodes && !s.nodes[q].isGroup && s.nodes[q].stop == Running
    requires After(s, a, q).stop == PeaceStopping
    requires a.Mail? ==> !s.nodes[s.cur].isGroup
    requires a.GroupMail? ==> s.nodes[s.cur].isGroup
    ensures var n, m := s.nodes[q], After(s, a, q);
      && m.mailbox == (if a.Mail? && q == s.cur then n.mailbox[1..] else n.mailbox) && m.tasks == n.tasks
      && m.chains == n.chains && m.inflight == n.inflight && m.started == n.started && m.arrived == n.arrived
  {
    if a.Mail? && q == s.cur { assert Users(s.nodes[q].mailbox[..1]) == []; }
  }

  /** A group that obeys a stop tells each child in its map, in the same kind, and by force drops its own mail. */
  lemma GroupStops(s: State, a: Action, k: Key)
    requires Inv(s) && Enabled(s, a) && a.GroupMail? && SelfStop(s, a).Some? && s.nodes[s.cur].stop == Running
    ensures var s', force := Next(s, a), SelfStop(s, a).value.0;
      var g, q := s.nodes[s.cur], Kid(s.cur, k);
      && s.cur in s'.nodes && s'.nodes[s.cur].mailbox == (if force then [] else g.mailbox[1..])
      && (q in s.nodes ==>
            q in s'.nodes &&
            s'.nodes[q].mailbox == if Listed(g, k) then [Stop(force)] + s.nodes[q].mailbox else s.nodes[q].mailbox)
  {
    assert NodeOk(s, s.cur, {}, {}, {});
    StepKeeps(s, a, s.cur);
    StepEffect(s, a, s.cur);
    var q := Kid(s.cur, k);
    if q in s.nodes {
      StepKeeps(s, a, q);
      StepEffect(s, a, q);
    }
  }

  /**
   Nothing that was waiting at a forced stop is ever started: whatever starts later is mail that
   the actor's own cancelled tasks sent it during the stop.
   */
  lemma {:induction false} ForcedDrops(states: seq<State>, acts: seq<Action>, q: Path, i: nat, j: nat)
    requires IsRun(states, acts) && i < j < |states| && q in states[i].nodes && q in states[j].nodes
    requires !states[i].nodes[q].isGroup && states[i].nodes[q].stop == Running
    requires q in states[i + 1].nodes && states[i + 1].nodes[q].stop == ForceStopping
    ensures !states[j].nodes[q].isGroup && states[j].nodes[q].stop == ForceStopping
    ensures Flow(states[j].nodes[q]) == states[i].nodes[q].started + Users(LateMail(acts[i], q))
    decreases j
  {
    RunInv(states, acts, j - 1);
    assert StepAt(states, acts, j - 1);
    var s, a := states[j - 1], acts[j - 1];
    if j == i + 1 {
      StepEffect(s, a, q);
      StatusAfter(s, a, q);
      ForcedNow(s, a, q);
    } else {
      assert q in s.nodes by { if q !in s.nodes { InstantiatedOnce(states, acts, i, j - 1, j, q); } }
      ForcedDrops(states, acts, q, i, j - 1);
      StepEffect(s, a, q);
      StatusAfter(s, a, q);
      StoppingFlow(s, a, q);
    }
  }
}

/**
 Shutdown of one machine: the actor trees of all its shards together with the exit barrier, where
 every shard but the first signals a semaphore that the first one waits on before it clears the
 system.
 */
module Shutdown {
  import opened ActorTree
  import opened ActorRuns

  /** `posted` counts signals on their way to shard 0, `sem` those that have arrived. */
  datatype Machine = Machine(shards: seq<State>, posted: nat, sem: nat, waiting: bool, cleared: bool)

  datatype Move =
    | Local(i: nat, a: Action)  // a step of one shard's tree
    | Signal                    // a posted signal reaches the semaphore
    | Clear                     // shard 0 passes the barrier and clears the system

  ghost predicate CanMove(m: Machine, v: Move) {
    match v
    case Local(i, a) => i < |m.shards| && Enabled(m.shards[i], a)
    case Signal => m.posted > 0
    case Clear => m.waiting && !m.cleared && |m.shards| > 0 && m.sem >= |m.shards| - 1
  }

  /** A shard that enters the exit barrier posts a signal, or waits if it is shard 0. */
  function Move1(m: Machine, v: Move): Machine
    requires CanMove(m, v)
  {
    match v
    case Local(i, a) =>
      var s' := Next(m.shards[i], a);
      var m' := m.(shards := m.shards[i := s']);
      if s'.exits == m.shards[i].exits then m'
      else if i == 0 then m'.(waiting := true)
      else m'.(posted := m.posted + 1)
    case Signal => m.(posted := m.posted - 1, sem := m.sem + 1)
    case Clear => m.(sem := m.sem - (|m.shards| - 1), cleared := true)
  }

  /** How many of the shards `1..k` have entered the barrier. */
  function Entered(shards: seq<State>, k: nat): nat
    requires k <= |shards|
  {
    if k <= 1 then 0 else Entered(shards, k - 1) + if shards[k - 1].exits == 1 then 1 else 0
  }

  ghost predicate MachineInv(m: Machine) {
    && |m.shards| > 0
    && (forall i :: 0 <= i < |m.shards| ==> Inv(m.shards[i]))
    && m.posted + m.sem + (if m.cleared then |m.shards| - 1 else 0) == Entered(m.shards, |m.shards|)
    && (m.waiting <==> m.shards[0].exits == 1)
    && (m.cleared ==> m.waiting)
  }

  lemma {:induction false} EnteredUpdate(shards: seq<State>, i: nat, s: State, k: nat)
    requires k <= |shards| && i < |shards| && s.exits <= 1 && shards[i].exits <= s.exits
    ensures Entered(shards[i := s], k) ==
            Entered(shards, k) + if 0 < i < k && shards[i].exits != s.exits then 1 else 0
  {
    if k > 1 { EnteredUpdate(shards, i, s, k - 1); }
  }

  lemma {:induction false} EnteredAll(shards: seq<State>, k: nat)
    requires k <= |shards|
    ensures Entered(shards, k) <= if k == 0 then 0 else k - 1
    ensures k > 0 && Entered(shards, k) == k - 1 ==> forall i :: 0 < i < k ==> shards[i].exits == 1
  {
    if k > 1 { EnteredAll(shards, k - 1); }
  }

  lemma MoveOk(m: Machine, v: Move)
    requires MachineInv(m) && CanMove(m, v)
    ensures MachineInv(Move1(m, v)) && (m.cleared ==> Move1(m, v).cleared)
  {
    if v.Local? {
      var s, s' := m.shards[v.i], Next(m.shards[v.i], v.a);
      StepOk(s, v.a);
      ExitStep(s, v.a);
      EnteredUpdate(m.shards, v.i, s', |m.shards|);
    }
  }

  ghost predicate IsMachineRun(n: nat, ms: seq<Machine>, vs: seq<Move>) {
    && |ms| == |vs| + 1 && n > 0 && ms[0] == Machine(seq(n, _ => InitState()), 0, 0, false, false)
    && (forall i {:trigger vs[i]} :: 0 <= i < |vs| ==> CanMove(ms[i], vs[i]) && ms[i + 1] == Move1(ms[i], vs[i]))
  }

  lemma {:induction false} NoneEntered(shards: seq<State>, k: nat)
    requires k <= |shards| && forall i :: 0 <= i < |shards| ==> shards[i].exits == 0
    ensures Entered(shards, k) == 0
  {
    if k > 1 { NoneEntered(shards, k - 1); }
  }

  lemma {:induction false} MachineRunInv(n: nat, ms: seq<Machine>, vs: seq<Move>, i: nat)
    requires IsMachineRun(n, ms, vs) && i < |ms|
    ensures MachineInv(ms[i]) && |ms[i].shards| == n
  {
    if i == 0 {
      InitOk();
      NoneEntered(ms[0].shards, n);
    } else {
      MachineRunInv(n, ms, vs, i - 1);
      MoveOk(ms[i - 1], vs[i - 1]);
    }
  }

  lemma {:induction false} ClearedStays(n: nat, ms: seq<Machine>, vs: seq<Move>, i: nat, j: nat)
    requires IsMachineRun(n, ms, vs) && i <= j < |ms| && ms[i].cleared
    ensures ms[j].cleared
    decreases j
  {
    if i < j {
      ClearedStays(n, ms, vs, i, j - 1);
      assert ms[j] == Move1(ms[j - 1], vs[j - 1]);
    }
  }

  lemma ClearedNow(m: Machine, k: nat)
    requires MachineInv(m) && m.cleared && k < |m.shards|
    ensures m.shards[k].exits == 1 && m.shards[k].nodes.Keys == {Root}
  {
    EnteredAll(m.shards, |m.shards|);
    ExitEmpty(m.shards[k]);
  }

  /**
   The system is cleared only after every shard of the machine has stopped and emptied its actor
   tree, and from then on no shard ever holds an actor again.
   */
  lemma ClearedMeansEmpty(n: nat, ms: seq<Machine>, vs: seq<Move>, i: nat, j: nat, k: nat)
    requires IsMachineRun(n, ms, vs) && i <= j < |ms| && ms[i].cleared && k < n
    ensures ms[j].cleared && k < |ms[j].shards|
    ensures ms[j].shards[k].exits == 1 && ms[j].shards[k].nodes.Keys == {Root}
  {
    ClearedStays(n, ms, vs, i, j);
    MachineRunInv(n, ms, vs, j);
    ClearedNow(ms[j], k);
  }

  lemma {:induction false} AllEntered(shards: seq<State>, k: nat)
    requires k <= |shards| && forall i :: 0 < i < k ==> shards[i].exits == 1
    ensures Entered(shards, k) == if k == 0 then 0 else k - 1
  {
    if k > 1 { AllEntered(shards, k - 1); }
  }

  /** Once every shard has arrived, signals get through and shard 0 clears the system. */
  lemma ArrivedClears(m: Machine)
    requires MachineInv(m) && !m.cleared && forall i :: 0 <= i < |m.shards| ==> m.shards[i].exits == 1
    ensures m.posted > 0 ==> CanMove(m, Signal) && Move1(m, Signal).posted == m.posted - 1
    ensures m.posted == 0 ==> CanMove(m, Clear) && Move1(m, Clear).cleared
  {
    AllEntered(m.shards, |m.shards|);
  }
}

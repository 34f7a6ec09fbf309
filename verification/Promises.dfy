/**
 Response promises: the table that recycles promise ids through an intrusive free list, and the
 request/response protocol that runs over it.
 */
module Promises {

  datatype Slot = Slot(nextAvl: nat, active: bool)

  /** `pr_manager` without the promises themselves; slot 0 is the end of the free list. */
  datatype Table = Table(slots: seq<Slot>, available: nat)

  function InitTable(): Table {
    Table([Slot(0, false)], 0)
  }

  predicate Active(t: Table, id: nat) {
    id < |t.slots| && t.slots[id].active
  }

  /** The `i`-th free id is inactive and links to the next one, or to 0. */
  predicate Link(t: Table, free: seq<nat>, i: nat)
    requires i < |free|
  {
    && 0 < free[i] < |t.slots| && !t.slots[free[i]].active
    && t.slots[free[i]].nextAvl == if i + 1 < |free| then free[i + 1] else 0
  }

  /** `free` spells out the chain from `available` to slot 0: exactly the inactive ids but 0. */
  ghost predicate FreeList(t: Table, free: seq<nat>) {
    && |t.slots| > 0 && !t.slots[0].active
    && t.available == (if free == [] then 0 else free[0])
    && (forall i, j :: 0 <= i < j < |free| ==> free[i] != free[j])
    && (forall i {:trigger Link(t, free, i)} :: 0 <= i < |free| ==> Link(t, free, i))
    && (forall id :: 0 < id < |t.slots| && !t.slots[id].active ==> id in free)
  }

  ghost predicate WellFormed(t: Table) {
    exists free :: FreeList(t, free)
  }

  function Acquire(t: Table): (r: (Table, nat))
    requires t.available < |t.slots|
  {
    if t.available == 0 then (Table(t.slots + [Slot(0, true)], 0), |t.slots|)
    else
      var id := t.available;
      (Table(t.slots[id := t.slots[id].(active := true)], t.slots[id].nextAvl), id)
  }

  function Remove(t: Table, id: nat): Table
    requires id < |t.slots|
  {
    Table(t.slots[id := Slot(t.available, false)], id)
  }

  lemma AcquireList(t: Table, free: seq<nat>)
    requires FreeList(t, free) && free != []
    ensures t.available < |t.slots| && FreeList(Acquire(t).0, free[1..])
  {
    assert Link(t, free, 0);
    var t', rest := Acquire(t).0, free[1..];
    forall i | 0 <= i < |rest| ensures Link(t', rest, i) {
      assert Link(t, free, i + 1);
    }
    forall id | 0 < id < |t'.slots| && !t'.slots[id].active ensures id in rest {
      assert id in free && id != free[0];
    }
    if rest != [] { assert Link(t, free, 1); }
  }

  lemma AcquireOk(t: Table)
    requires WellFormed(t)
    ensures t.available < |t.slots|
    ensures var (t', id) := Acquire(t);
      && WellFormed(t') && t'.available < |t'.slots| && 0 < id && !Active(t, id)
      && (forall x :: Active(t', x) <==> Active(t, x) || x == id)
  {
    var free :| FreeList(t, free);
    if free == [] {
      assert FreeList(Acquire(t).0, []);
    } else {
      assert Link(t, free, 0);
      AcquireList(t, free);
      if |free| > 1 { assert Link(t, free, 1); }
    }
  }

  lemma RemoveOk(t: Table, id: nat)
    requires WellFormed(t) && Active(t, id)
    ensures WellFormed(Remove(t, id))
    ensures forall x :: Active(Remove(t, id), x) <==> Active(t, x) && x != id
  {
    var free :| FreeList(t, free);
    var t', free' := Remove(t, id), [id] + free;
    forall i | 0 <= i < |free'| ensures Link(t', free', i) {
      if i > 0 {
        assert Link(t, free, i - 1);
        if i < |free| { assert Link(t, free, i); }
      }
    }
    forall x | 0 < x < |t'.slots| && !t'.slots[x].active ensures x in free' {
      assert free'[0] == id;
      if x != id { assert x in free; }
    }
    forall i, j | 0 <= i < j < |free'| ensures free'[i] != free'[j] {
      assert Link(t, free, j - 1);
    }
    assert FreeList(t', free');
  }

  /** A free list that starts at `id` and goes on into the old list comes back to `id`. */
  lemma {:induction false} ChainRepeats(t: Table, free: seq<nat>, t': Table, free': seq<nat>, id: nat, j: nat)
    requires FreeList(t, free) && FreeList(t', free') && j < |free|
    requires 0 < id < |t.slots| && t' == Remove(t, id) && id !in free[..j]
    ensures j + 1 < |free'| && free'[j + 1] == free[j]
    decreases j
  {
    assert Link(t', free', 0) && Link(t, free, 0);
    if j == 0 {
      assert free'[0] == id && t'.slots[id].nextAvl == free[0];
    } else {
      assert forall x :: x in free[..j - 1] ==> x in free[..j];
      ChainRepeats(t, free, t', free', id, j - 1);
      assert free[j - 1] in free[..j];
      assert Link(t', free', j) && Link(t, free, j - 1) && Link(t, free, j);
      assert t'.slots[free'[j]].nextAvl == free[j];
    }
  }

  lemma FirstIndex(s: seq<nat>, x: nat) returns (i: nat)
    requires x in s
    ensures i < |s| && s[i] == x && x !in s[..i]
  {
    i := 0;
    while s[i] != x
      invariant i < |s| && x !in s[..i]
      decreases |s| - i
    {
      assert x in s[i..] by { assert s == s[..i] + s[i..]; }
      i := i + 1;
    }
  }

  /** Releasing an id keeps the table sound exactly when the id is active. */
  lemma RemoveSoundIffActive(t: Table, id: nat)
    requires WellFormed(t) && 0 < id < |t.slots|
    ensures WellFormed(Remove(t, id)) <==> Active(t, id)
  {
    if Active(t, id) {
      RemoveOk(t, id);
    } else if WellFormed(Remove(t, id)) {
      var free :| FreeList(t, free);
      var free' :| FreeList(Remove(t, id), free');
      var j := FirstIndex(free, id);
      ChainRepeats(t, free, Remove(t, id), free', id, j);
    }
  }

  /** Releasing twice hands the same id to the next two requests. */
  lemma DoubleRemoveAliases(t: Table, id: nat)
    requires WellFormed(t) && Active(t, id)
    ensures var t1 := Remove(Remove(t, id), id);
      && t1.available < |t1.slots| && Acquire(t1).1 == id
      && Acquire(t1).0.available < |t1.slots| && Acquire(Acquire(t1).0).1 == id
  {
    var free :| FreeList(t, free);
    assert id > 0;
  }

  /** The loop of `stop_actor_system` that cancels and releases every active promise. */
  function Sweep(t: Table, from: nat): Table
    decreases |t.slots| - from
  {
    if from >= |t.slots| then t
    else Sweep(if t.slots[from].active then Remove(t, from) else t, from + 1)
  }

  lemma {:induction false} SweepOk(t: Table, from: nat)
    requires WellFormed(t)
    ensures WellFormed(Sweep(t, from)) && |Sweep(t, from).slots| == |t.slots|
    ensures forall x: nat :: Active(Sweep(t, from), x) ==> Active(t, x) && x < from
    decreases |t.slots| - from
  {
    if from < |t.slots| {
      if t.slots[from].active { RemoveOk(t, from); }
      SweepOk(if t.slots[from].active then Remove(t, from) else t, from + 1);
    }
  }

  /** After the shutdown sweep, the continuation of any pending request breaks the free list. */
  lemma SweepThenContinueBreaks(t: Table, id: nat)
    requires WellFormed(t) && Active(t, id)
    ensures id < |Sweep(t, 0).slots| && WellFormed(Sweep(t, 0)) && !WellFormed(Remove(Sweep(t, 0), id))
  {
    SweepOk(t, 0);
    var free :| FreeList(t, free);
    RemoveSoundIffActive(Sweep(t, 0), id);
  }

  class PrManager {
    var prArray: seq<Slot>
    var available: nat

    ghost function View(): Table
      reads this
    {
      Table(prArray, available)
    }

    constructor ()
      ensures View() == InitTable() && WellFormed(View())
    {
      prArray, available := [Slot(0, false)], 0;
      assert FreeList(InitTable(), []);
    }

    method AcquirePr() returns (id: nat)
      requires WellFormed(View())
      modifies this
      ensures old(available) < |old(prArray)| && WellFormed(View()) && !Active(old(View()), id) && id > 0
      ensures (View(), id) == Acquire(old(View()))
      ensures forall x :: Active(View(), x) <==> Active(old(View()), x) || x == id
    {
      AcquireOk(View());
      if available == 0 {
        prArray := prArray + [Slot(0, true)];
        id := |prArray| - 1;
      } else {
        id := available;
        available := prArray[id].nextAvl;
        prArray := prArray[id := prArray[id].(active := true)];
      }
    }

    /** The shutdown sweep over the whole table. */
    method CancelAll()
      requires WellFormed(View())
      modifies this
      ensures WellFormed(View()) && View() == Sweep(old(View()), 0)
      ensures forall x :: !Active(View(), x)
    {
      SweepOk(View(), 0);
      var id := 0;
      while id < |prArray|
        invariant id <= |prArray| && WellFormed(View()) && Sweep(View(), id) == Sweep(old(View()), 0)
        decreases |prArray| - id
      {
        if prArray[id].active { RemovePr(id); }
        id := id + 1;
      }
    }

    method RemovePr(id: nat)
      requires WellFormed(View()) && Active(View(), id)
      modifies this
      ensures WellFormed(View()) && View() == Remove(old(View()), id)
      ensures forall x :: Active(View(), x) <==> Active(old(View()), x) && x != id
    {
      RemoveOk(View(), id);
      prArray := prArray[id := Slot(available, false)];
      available := id;
    }
  }

  // ----- Request and response -----

  datatype Kind = Request | Response

  /** A message carrying promise `id`; `req` names the request it belongs to (auxiliary). */
  datatype Msg = Msg(kind: Kind, id: nat, req: nat)

  /**
   One requesting shard.  `owner` and the `req` tags are auxiliary; `resolved` holds the promises
   set but not yet continued, with the request whose response set them; `done` pairs each
   completed request with the request its response answered; `dropped` are those served without
   a reply.
   */
  datatype Shard = Shard(table: Table, owner: map<nat, nat>, wire: multiset<Msg>, resolved: map<nat, nat>,
                         done: seq<(nat, nat)>, dropped: set<nat>, issued: nat)

  datatype Step =
    | Issue                            // acquire_pr and send
    | Serve(id: nat, req: nat, reply: bool)  // the callee consumes the request; a forced stop sends no reply
    | Deliver(id: nat, req: nat)       // receive of a RESPONSE or EXCEPTION_RESPONSE
    | Continue(id: nat)                // the continuation of send_and_wait

  ghost predicate CanStep(s: Shard, a: Step) {
    match a
    case Issue => s.table.available < |s.table.slots|
    case Serve(id, req, _) => Msg(Request, id, req) in s.wire
    case Deliver(id, req) => Msg(Response, id, req) in s.wire
    case Continue(id) => id in s.resolved && id in s.owner && id < |s.table.slots|
  }

  ghost function Do(s: Shard, a: Step): Shard
    requires CanStep(s, a)
  {
    match a
    case Issue =>
      var (t, id) := Acquire(s.table);
      s.(table := t, owner := s.owner[id := s.issued], wire := s.wire + multiset{Msg(Request, id, s.issued)},
         issued := s.issued + 1)
    case Serve(id, req, reply) =>
      var left := s.wire - multiset{Msg(Request, id, req)};
      if reply then s.(wire := left + multiset{Msg(Response, id, req)})
      else s.(wire := left, dropped := s.dropped + {req})
    case Deliver(id, req) =>
      var t := s.(wire := s.wire - multiset{Msg(Response, id, req)});
      if Active(s.table, id) then t.(resolved := s.resolved[id := req]) else t
    case Continue(id) =>
      s.(table := Remove(s.table, id), owner := s.owner - {id}, resolved := s.resolved - {id},
         done := s.done + [(s.owner[id], s.resolved[id])])
  }

  /** Each message on the wire belongs to the present holder of its id, and is the only one. */
  ghost predicate WireOk(s: Shard) {
    forall m :: m in s.wire ==>
      && s.wire[m] == 1 && m.id in s.owner && s.owner[m.id] == m.req && m.id !in s.resolved
      && (forall x :: x in s.wire && x.id == m.id ==> x == m)
  }

  /** Live requests are distinct; completed ones got their own response, once. */
  ghost predicate DoneOk(s: Shard) {
    && (forall id :: id in s.owner ==> s.owner[id] < s.issued)
    && (forall x, y :: x in s.owner && y in s.owner && s.owner[x] == s.owner[y] ==> x == y)
    && (forall i :: 0 <= i < |s.done| ==> s.done[i].0 == s.done[i].1 < s.issued)
    && (forall i, id :: 0 <= i < |s.done| && id in s.owner ==> s.owner[id] != s.done[i].0)
    && (forall i, j :: 0 <= i < j < |s.done| ==> s.done[i].0 != s.done[j].0)
  }

  ghost predicate Inv(s: Shard) {
    && WellFormed(s.table)
    && (forall id :: id in s.owner <==> Active(s.table, id))
    && WireOk(s) && DoneOk(s)
    && (forall id :: id in s.resolved ==> id in s.owner && s.resolved[id] == s.owner[id])
  }

  function InitShard(): Shard {
    Shard(InitTable(), map[], multiset{}, map[], [], {}, 0)
  }

  lemma IssueWire(s: Shard)
    requires Inv(s) && CanStep(s, Issue)
    ensures WireOk(Do(s, Issue))
  {
    AcquireOk(s.table);
    var s', id := Do(s, Issue), Acquire(s.table).1;
    var q := Msg(Request, id, s.issued);
    assert forall m :: m in s.wire ==> m.id in s.owner && m.id != id;
    assert forall m :: m in s'.wire ==> m == q || m in s.wire;
  }

  lemma IssueOk(s: Shard)
    requires Inv(s) && CanStep(s, Issue)
    ensures Inv(Do(s, Issue))
  {
    IssueWire(s);
    AcquireOk(s.table);
    assert DoneOk(Do(s, Issue));
  }

  lemma DeliverOk(s: Shard, id: nat, req: nat)
    requires Inv(s) && CanStep(s, Deliver(id, req))
    ensures Inv(Do(s, Deliver(id, req))) && id in s.owner && s.owner[id] == req
  {
    var r := Msg(Response, id, req);
    assert r in s.wire && s.wire[r] == 1;
    DeliverWire(s, id, req);
    assert DoneOk(Do(s, Deliver(id, req)));
  }

  lemma DeliverWire(s: Shard, id: nat, req: nat)
    requires WireOk(s) && CanStep(s, Deliver(id, req))
    ensures WireOk(Do(s, Deliver(id, req)))
  {
    var r, s' := Msg(Response, id, req), Do(s, Deliver(id, req));
    assert r in s.wire && s.wire[r] == 1;
    assert forall m :: m in s'.wire ==> m in s.wire && m != r;
  }

  lemma ContinueOk(s: Shard, id: nat)
    requires Inv(s) && CanStep(s, Continue(id))
    ensures Inv(Do(s, Continue(id)))
  {
    RemoveOk(s.table, id);
    ContinueWire(s, id);
    ContinueDone(s, id);
  }

  lemma ContinueWire(s: Shard, id: nat)
    requires WireOk(s) && CanStep(s, Continue(id))
    ensures WireOk(Do(s, Continue(id)))
  {
    assert forall m :: m in s.wire ==> m.id != id;
  }

  lemma ContinueDone(s: Shard, id: nat)
    requires DoneOk(s) && CanStep(s, Continue(id)) && s.resolved[id] == s.owner[id]
    ensures DoneOk(Do(s, Continue(id)))
  {
  }

  lemma StepOk(s: Shard, a: Step)
    requires Inv(s) && CanStep(s, a)
    ensures Inv(Do(s, a))
  {
    match a
    case Issue => IssueOk(s);
    case Serve(id, req, reply) => ServeOk(s, id, req, reply);
    case Deliver(id, req) => DeliverOk(s, id, req);
    case Continue(id) => ContinueOk(s, id);
  }

  lemma ServeOk(s: Shard, id: nat, req: nat, reply: bool)
    requires Inv(s) && CanStep(s, Serve(id, req, reply))
    ensures WireOk(Do(s, Serve(id, req, reply)))
  {
    var q, r := Msg(Request, id, req), Msg(Response, id, req);
    assert q in s.wire && s.wire[q] == 1;
    assert r !in s.wire by { assert r in s.wire ==> r == q; }
  }

  ghost predicate IsRun(states: seq<Shard>, steps: seq<Step>) {
    && |states| == |steps| + 1 && states[0] == InitShard()
    && (forall i {:trigger steps[i]} :: 0 <= i < |steps| ==>
          CanStep(states[i], steps[i]) && states[i + 1] == Do(states[i], steps[i]))
  }

  lemma {:induction false} RunInv(states: seq<Shard>, steps: seq<Step>, i: nat)
    requires IsRun(states, steps) && i < |states|
    ensures Inv(states[i])
  {
    if i == 0 {
      assert FreeList(InitTable(), []);
    } else {
      RunInv(states, steps, i - 1);
      StepOk(states[i - 1], steps[i - 1]);
    }
  }

  /**
   Every response is delivered to the request that allocated its id, never to a later holder;
   no response finds its id inactive; no request completes twice.
   */
  lemma ResponsesMatch(states: seq<Shard>, steps: seq<Step>, i: nat)
    requires IsRun(states, steps) && i < |states|
    ensures forall j :: 0 <= j < |states[i].done| ==> states[i].done[j].0 == states[i].done[j].1
    ensures forall j, k :: 0 <= j < k < |states[i].done| ==> states[i].done[j].0 != states[i].done[k].0
    ensures i < |steps| && steps[i].Deliver? ==>
      Active(states[i].table, steps[i].id) && steps[i].id in states[i].owner &&
      states[i].owner[steps[i].id] == steps[i].req
  {
    RunInv(states, steps, i);
    if i < |steps| && steps[i].Deliver? { DeliverOk(states[i], steps[i].id, steps[i].req); }
  }

  // ----- Every request is somewhere -----

  function One(b: bool): nat {
    if b then 1 else 0
  }

  /** The places in which the request that holds `id` can be. */
  ghost function Places(s: Shard, id: nat): nat
    requires id in s.owner
  {
    One(Msg(Request, id, s.owner[id]) in s.wire) + One(Msg(Response, id, s.owner[id]) in s.wire)
    + One(id in s.resolved) + One(s.owner[id] in s.dropped)
  }

  /** Each holder of an id is in exactly one place; each request issued holds an id or is done. */
  ghost predicate Kept(s: Shard) {
    && (forall id :: id in s.owner ==> Places(s, id) == 1)
    && (forall r :: r in s.dropped ==> r < s.issued)
    && (forall r: nat :: r < s.issued ==> Holds(s, r) || IsDone(s, r))
  }

  ghost predicate Holds(s: Shard, r: nat) {
    exists id :: id in s.owner && s.owner[id] == r
  }

  ghost predicate IsDone(s: Shard, r: nat) {
    exists j :: 0 <= j < |s.done| && s.done[j].0 == r
  }

  lemma IssueKeeps(s: Shard)
    requires Inv(s) && Kept(s) && CanStep(s, Issue)
    ensures Kept(Do(s, Issue))
  {
    AcquireOk(s.table);
    var s', n := Do(s, Issue), Acquire(s.table).1;
    assert n !in s.owner && n !in s.resolved;
    forall id | id in s'.owner ensures Places(s', id) == 1 {
      IssuePlaces(s, id);
    }
    assert s'.owner[n] == s.issued;
    StillHeld(s, s');
  }

  lemma IssuePlaces(s: Shard, id: nat)
    requires WireOk(s) && CanStep(s, Issue) && Acquire(s.table).1 !in s.owner && Acquire(s.table).1 !in s.resolved
    requires forall x :: x in s.owner ==> Places(s, x) == 1
    requires forall r :: r in s.dropped ==> r < s.issued
    requires id in Do(s, Issue).owner
    ensures Places(Do(s, Issue), id) == 1
  {
    var n := Acquire(s.table).1;
    if id != n {
      assert Places(s, id) == 1;
    } else {
      assert forall m :: m in s.wire ==> m.id != n;
    }
  }

  /** Requests that held an id or were done still do or are. */
  lemma StillHeld(s: Shard, s': Shard)
    requires forall id :: id in s.owner ==> id in s'.owner && s'.owner[id] == s.owner[id]
    requires s.done <= s'.done
    ensures forall r: nat :: Holds(s, r) || IsDone(s, r) ==> Holds(s', r) || IsDone(s', r)
  {
    forall r: nat | Holds(s, r) || IsDone(s, r) ensures Holds(s', r) || IsDone(s', r) {
      if Holds(s, r) {
        var id :| id in s.owner && s.owner[id] == r;
        assert id in s'.owner && s'.owner[id] == r;
      } else {
        var j :| 0 <= j < |s.done| && s.done[j].0 == r;
        assert s'.done[j].0 == r;
      }
    }
  }

  lemma ServeKeeps(s: Shard, id: nat, req: nat, reply: bool)
    requires Inv(s) && Kept(s) && CanStep(s, Serve(id, req, reply))
    ensures Kept(Do(s, Serve(id, req, reply)))
  {
    var s', q := Do(s, Serve(id, req, reply)), Msg(Request, id, req);
    assert q in s.wire && s.wire[q] == 1 && s.owner[id] == req;
    forall x | x in s'.owner ensures Places(s', x) == 1 {
      assert Places(s, x) == 1;
      assert x != id ==> s.owner[x] != req;
      ServePlaces(s, id, req, reply, x);
    }
    StillHeld(s, s');
  }

  lemma ServePlaces(s: Shard, id: nat, req: nat, reply: bool, x: nat)
    requires CanStep(s, Serve(id, req, reply)) && s.wire[Msg(Request, id, req)] == 1
    requires id in s.owner && s.owner[id] == req && x in s.owner && (x != id ==> s.owner[x] != req)
    requires Places(s, x) == 1
    ensures x in Do(s, Serve(id, req, reply)).owner && Places(Do(s, Serve(id, req, reply)), x) == 1
  {
  }

  lemma DeliverKeeps(s: Shard, id: nat, req: nat)
    requires Inv(s) && Kept(s) && CanStep(s, Deliver(id, req))
    ensures Kept(Do(s, Deliver(id, req)))
  {
    var s', q := Do(s, Deliver(id, req)), Msg(Response, id, req);
    assert q in s.wire && s.wire[q] == 1 && s.owner[id] == req;
    forall x | x in s'.owner ensures Places(s', x) == 1 {
      assert Places(s, x) == 1;
    }
    StillHeld(s, s');
  }

  lemma ContinueKeeps(s: Shard, id: nat)
    requires Inv(s) && Kept(s) && CanStep(s, Continue(id))
    ensures Kept(Do(s, Continue(id)))
  {
    var s' := Do(s, Continue(id));
    forall x | x in s'.owner ensures Places(s', x) == 1 {
      assert Places(s, x) == 1;
    }
    assert s'.done[|s.done|].0 == s.owner[id];
    forall r: nat | r < s'.issued ensures Holds(s', r) || IsDone(s', r) {
      if IsDone(s, r) {
        var j :| 0 <= j < |s.done| && s.done[j].0 == r;
        assert s'.done[j].0 == r;
      } else {
        var x :| x in s.owner && s.owner[x] == r;
        assert x != id ==> x in s'.owner && s'.owner[x] == r;
      }
    }
  }

  lemma {:induction false} RunKept(states: seq<Shard>, steps: seq<Step>, i: nat)
    requires IsRun(states, steps) && i < |states|
    ensures Kept(states[i])
  {
    if i > 0 {
      RunKept(states, steps, i - 1);
      RunInv(states, steps, i - 1);
      var s := states[i - 1];
      match steps[i - 1]
      case Issue => IssueKeeps(s);
      case Serve(id, req, reply) => ServeKeeps(s, id, req, reply);
      case Deliver(id, req) => DeliverKeeps(s, id, req);
      case Continue(id) => ContinueKeeps(s, id);
    }
  }

  ghost predicate OnWire(s: Shard, kind: Kind, r: nat) {
    exists m :: m in s.wire && m.kind == kind && m.req == r
  }

  ghost predicate IsResolved(s: Shard, r: nat) {
    exists id :: id in s.resolved && s.resolved[id] == r
  }

  /** Where the request `r` is: as a request or a response on the wire, resolved, dropped or done. */
  ghost function PlacesOf(s: Shard, r: nat): nat {
    One(OnWire(s, Request, r)) + One(OnWire(s, Response, r)) + One(IsResolved(s, r))
    + One(r in s.dropped && Holds(s, r)) + One(IsDone(s, r))
  }

  /** No request is lost or doubled: in every run each one issued is in exactly one place. */
  lemma RequestsConserved(states: seq<Shard>, steps: seq<Step>, i: nat, r: nat)
    requires IsRun(states, steps) && i < |states| && r < states[i].issued
    ensures PlacesOf(states[i], r) == 1
  {
    RunInv(states, steps, i);
    RunKept(states, steps, i);
    var s := states[i];
    if IsDone(s, r) {
      NowhereElse(s, r);
    } else {
      var id :| id in s.owner && s.owner[id] == r;
      assert Places(s, id) == 1 && Holds(s, r);
      HolderOnWire(s, id, Request);
      HolderOnWire(s, id, Response);
      HolderResolved(s, id);
    }
  }

  /** What is done holds no id. */
  lemma NowhereElse(s: Shard, r: nat)
    requires Inv(s) && IsDone(s, r)
    ensures !Holds(s, r) && !OnWire(s, Request, r) && !OnWire(s, Response, r) && !IsResolved(s, r)
  {
    var j :| 0 <= j < |s.done| && s.done[j].0 == r;
    assert forall id :: id in s.owner ==> s.owner[id] != r;
  }

  lemma HolderOnWire(s: Shard, id: nat, kind: Kind)
    requires WireOk(s) && DoneOk(s) && id in s.owner
    ensures OnWire(s, kind, s.owner[id]) <==> Msg(kind, id, s.owner[id]) in s.wire
  {
    var r := s.owner[id];
    if OnWire(s, kind, r) {
      var m :| m in s.wire && m.kind == kind && m.req == r;
      assert m.id in s.owner && s.owner[m.id] == r;
      assert m == Msg(kind, id, r);
    }
  }

  lemma HolderResolved(s: Shard, id: nat)
    requires DoneOk(s) && id in s.owner
    requires forall x :: x in s.resolved ==> x in s.owner && s.resolved[x] == s.owner[x]
    ensures IsResolved(s, s.owner[id]) <==> id in s.resolved
  {
    if id in s.resolved { assert s.resolved[id] == s.owner[id]; }
  }

  /** A delivered response resolves its own request's promise, and the request can go on. */
  lemma DeliveryResolves(states: seq<Shard>, steps: seq<Step>, i: nat)
    requires IsRun(states, steps) && i < |steps| && steps[i].Deliver?
    ensures states[i + 1].resolved == states[i].resolved[steps[i].id := steps[i].req]
    ensures states[i + 1].owner == states[i].owner && CanStep(states[i + 1], Continue(steps[i].id))
  {
    RunInv(states, steps, i);
    DeliverOk(states[i], steps[i].id, steps[i].req);
  }

  function CountIssues(steps: seq<Step>, i: nat): nat
    requires i <= |steps|
  {
    if i == 0 then 0 else CountIssues(steps, i - 1) + One(steps[i - 1].Issue?)
  }

  function CountContinues(steps: seq<Step>, i: nat): nat
    requires i <= |steps|
  {
    if i == 0 then 0 else CountContinues(steps, i - 1) + One(steps[i - 1].Continue?)
  }

  /** Every issue numbers a new request and every continuation completes one. */
  lemma {:induction false} RequestsCounted(states: seq<Shard>, steps: seq<Step>, i: nat)
    requires IsRun(states, steps) && i < |states|
    ensures states[i].issued == CountIssues(steps, i) && |states[i].done| == CountContinues(steps, i)
  {
    if i > 0 {
      RequestsCounted(states, steps, i - 1);
      assert CanStep(states[i - 1], steps[i - 1]) && states[i] == Do(states[i - 1], steps[i - 1]);
    }
  }
}

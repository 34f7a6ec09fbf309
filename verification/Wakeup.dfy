/**
 The sleep and wake handshake between the shards of one machine.  Every shard is at once a
 producer for the others and a consumer going to sleep; steps are the single loads and stores of
 the flag, under sequential consistency, and a reactor wakeup is a sticky token.
 */
module Wakeup {

  /** Where a shard's thread is in its poll loop. `Polling` is the poll inside try_enter_interrupt_mode. */
  datatype Phase = Working | Entering | Polling(next: nat, got: bool) | Asleep

  /** Where it is inside `move_pending` towards a peer: pushed, then about to clear the flag, then about to wake. */
  datatype Tx = Idle | Pushed(to: nat) | Clearing(to: nat) | Waking(to: nat)

  /** `ring[c][p]` is the number of messages in the ring from `p` to `c`. */
  datatype State = State(phase: seq<Phase>, tx: seq<Tx>, sleeping: seq<bool>, token: seq<bool>, ring: seq<seq<nat>>)

  datatype Action =
    | Push(p: nat, c: nat, k: nat)   // items enter the ring
    | Load(p: nat)                   // maybe_wakeup reads the flag
    | Clear(p: nat)                  // ... clears it
    | Wake(p: nat)                   // ... and wakes the reactor
    | Drain(c: nat, p: nat, left: nat)
    | Enter(c: nat)
    | Barrier(c: nat, done: bool)
    | Poll(c: nat, left: nat)
    | PollEnd(c: nat)
    | Resume(c: nat, woken: bool)

  const CAPACITY: nat := 128

  ghost predicate Shape(s: State, n: nat) {
    && |s.phase| == n && |s.tx| == n && |s.sleeping| == n && |s.token| == n && |s.ring| == n
    && (forall c :: 0 <= c < n ==> |s.ring[c]| == n)
  }

  ghost predicate Enabled(s: State, n: nat, a: Action) {
    && Shape(s, n)
    && match a
       case Push(p, c, k) =>
         p < n && c < n && p != c && s.tx[p].Idle? && (s.phase[p].Working? || s.phase[p].Polling?) &&
         0 < k && s.ring[c][p] + k <= CAPACITY
       case Load(p) => p < n && s.tx[p].Pushed? && s.tx[p].to < n
       case Clear(p) => p < n && s.tx[p].Clearing? && s.tx[p].to < n
       case Wake(p) => p < n && s.tx[p].Waking? && s.tx[p].to < n
       case Drain(c, p, left) => c < n && p < n && s.tx[c].Idle? && s.phase[c].Working? && left < s.ring[c][p]
       case Enter(c) => c < n && s.tx[c].Idle? && s.phase[c].Working?
       case Barrier(c, _) => c < n && s.phase[c].Entering?
       case Poll(c, left) =>
         c < n && s.tx[c].Idle? && s.phase[c].Polling? && s.phase[c].next < n &&
         (s.ring[c][s.phase[c].next] > 0 ==> left < s.ring[c][s.phase[c].next])
       case PollEnd(c) => c < n && s.tx[c].Idle? && s.phase[c].Polling? && s.phase[c].next == n
       case Resume(c, woken) => c < n && s.phase[c].Asleep? && (woken ==> s.token[c])
  }

  function SetRing(s: State, c: nat, p: nat, k: nat): State
    requires c < |s.ring| && p < |s.ring[c]|
  {
    var row: seq<nat> := s.ring[c][p := k];
    s.(ring := s.ring[c := row])
  }

  ghost function Next(s: State, n: nat, a: Action): State
    requires Enabled(s, n, a)
  {
    match a
    case Push(p, c, k) => SetRing(s, c, p, s.ring[c][p] + k).(tx := s.tx[p := Pushed(c)])
    case Load(p) =>
      s.(tx := s.tx[p := if s.sleeping[s.tx[p].to] then Clearing(s.tx[p].to) else Idle])
    case Clear(p) =>
      s.(sleeping := s.sleeping[s.tx[p].to := false], tx := s.tx[p := Waking(s.tx[p].to)])
    case Wake(p) => s.(token := s.token[s.tx[p].to := true], tx := s.tx[p := Idle])
    case Drain(c, p, left) => SetRing(s, c, p, left)
    case Enter(c) => s.(sleeping := s.sleeping[c := true], phase := s.phase[c := Entering])
    case Barrier(c, done) =>
      if done then s.(phase := s.phase[c := Polling(0, false)])
      else s.(sleeping := s.sleeping[c := false], phase := s.phase[c := Working])
    case Poll(c, left) =>
      var j := s.phase[c].next;
      if s.ring[c][j] == 0 then s.(phase := s.phase[c := Polling(j + 1, s.phase[c].got)])
      else SetRing(s, c, j, left).(phase := s.phase[c := Polling(j + 1, true)])
    case PollEnd(c) =>
      if s.phase[c].got then s.(sleeping := s.sleeping[c := false], phase := s.phase[c := Working])
      else s.(phase := s.phase[c := Asleep])
    case Resume(c, woken) =>
      s.(sleeping := s.sleeping[c := false], phase := s.phase[c := Working],
         token := if woken then s.token[c := false] else s.token)
  }

  /** Some producer has seen the flag and has not yet woken the reactor of `c`. */
  ghost predicate WakeDue(s: State, c: nat) {
    exists q :: 0 <= q < |s.tx| && (s.tx[q] == Clearing(c) || s.tx[q] == Waking(c))
  }

  ghost predicate WakeStored(s: State, c: nat) {
    exists q :: 0 <= q < |s.tx| && s.tx[q] == Waking(c)
  }

  /** The consumer is committed to sleep on what it has seen of the first `Seen` rings. */
  predicate Settling(f: Phase) {
    f.Entering? || f.Asleep? || (f.Polling? && !f.got)
  }

  function Seen(f: Phase, n: nat): nat {
    if f.Asleep? then n else if f.Polling? then f.next else 0
  }

  /** While `c` settles: a cleared flag has a wakeup behind it ... */
  ghost predicate FlagOk(s: State, c: nat)
    requires c < |s.phase| && c < |s.sleeping| && c < |s.token|
  {
    Settling(s.phase[c]) && !s.sleeping[c] ==> s.token[c] || WakeStored(s, c)
  }

  /** ... and a ring it found empty that has filled since has a producer or a wakeup behind it. */
  ghost predicate RingOk(s: State, n: nat, c: nat, p: nat)
    requires Shape(s, n) && c < n && p < n
  {
    Settling(s.phase[c]) && p < Seen(s.phase[c], n) && p != c && s.ring[c][p] > 0 ==>
      s.tx[p] == Pushed(c) || WakeDue(s, c) || s.token[c]
  }

  ghost predicate Inv(s: State, n: nat) {
    && Shape(s, n)
    && (forall c :: 0 <= c < n ==> FlagOk(s, c))
    && (forall c, p :: 0 <= c < n && 0 <= p < n ==> RingOk(s, n, c, p))
    && (forall c :: 0 <= c < n && s.phase[c].Polling? ==> s.phase[c].next <= n)
    && (forall c :: 0 <= c < n ==> s.ring[c][c] == 0)
    && (forall c :: 0 <= c < n && (s.phase[c].Entering? || s.phase[c].Asleep?) ==> s.tx[c].Idle?)
  }

  ghost function InitState(n: nat): State {
    State(seq(n, _ => Working), seq(n, _ => Idle), seq(n, _ => false), seq(n, _ => false),
          seq(n, _ => seq(n, _ => 0)))
  }

  lemma InitOk(n: nat)
    ensures Inv(InitState(n), n)
  {
  }

  /** Pending wakeups survive any step of another thread that is not itself such a wakeup. */
  lemma DueKept(s: State, s': State, c: nat, p: nat)
    requires |s'.tx| == |s.tx| && p < |s.tx| && s'.tx == s.tx[p := s'.tx[p]]
    requires s.tx[p] == Clearing(c) ==> s'.tx[p] == Waking(c)
    requires s.tx[p] == Waking(c) ==> s'.tx[p] == Waking(c)
    ensures WakeDue(s, c) ==> WakeDue(s', c)
    ensures WakeStored(s, c) ==> WakeStored(s', c)
  {
    if WakeDue(s, c) {
      var q :| 0 <= q < |s.tx| && (s.tx[q] == Clearing(c) || s.tx[q] == Waking(c));
      assert s'.tx[q] == Clearing(c) || s'.tx[q] == Waking(c);
    }
    if WakeStored(s, c) {
      var q :| 0 <= q < |s.tx| && s.tx[q] == Waking(c);
      assert s'.tx[q] == Waking(c);
    }
  }

  lemma TxStep(s: State, n: nat, a: Action)
    requires Inv(s, n) && Enabled(s, n, a) && (a.Load? || a.Clear? || a.Wake?)
    ensures Inv(Next(s, n, a), n)
  {
    var s', p := Next(s, n, a), a.p;
    var to := s.tx[p].to;
    if a.Clear? { assert s'.tx[p] == Waking(to); }
    if a.Load? && s.sleeping[to] { assert s'.tx[p] == Clearing(to); }
    forall c | 0 <= c < n ensures FlagOk(s', c) {
      assert FlagOk(s, c);
      if !(a.Wake? && c == to) { DueKept(s, s', c, p); }
    }
    forall c, x | 0 <= c < n && 0 <= x < n ensures RingOk(s', n, c, x) {
      assert RingOk(s, n, c, x) && FlagOk(s, c);
      if !(a.Wake? && c == to) {
        DueKept(s, s', c, p);
        assert WakeStored(s, c) ==> WakeDue(s, c);
      }
    }
  }

  lemma RingStep(s: State, n: nat, a: Action)
    requires Inv(s, n) && Enabled(s, n, a) && (a.Push? || a.Drain? || a.Poll?)
    requires a.Drain? ==> a.p != a.c || s.ring[a.c][a.p] == 0
    ensures Inv(Next(s, n, a), n)
  {
    var s' := Next(s, n, a);
    forall c | 0 <= c < n ensures FlagOk(s', c) {
      assert FlagOk(s, c);
      if a.Push? { DueKept(s, s', c, a.p); }
      else { assert s'.tx == s.tx; }
    }
    forall c, x | 0 <= c < n && 0 <= x < n ensures RingOk(s', n, c, x) {
      assert RingOk(s, n, c, x);
      if a.Push? { DueKept(s, s', c, a.p); }
      else { assert s'.tx == s.tx; }
    }
  }

  lemma PhaseStep(s: State, n: nat, a: Action)
    requires Inv(s, n) && Enabled(s, n, a) && (a.Enter? || a.Barrier? || a.PollEnd? || a.Resume?)
    ensures Inv(Next(s, n, a), n)
  {
    var s' := Next(s, n, a);
    assert s'.tx == s.tx;
    forall c | 0 <= c < n ensures FlagOk(s', c) {
      assert FlagOk(s, c);
    }
    forall c, x | 0 <= c < n && 0 <= x < n ensures RingOk(s', n, c, x) {
      assert RingOk(s, n, c, x);
    }
  }

  lemma StepOk(s: State, n: nat, a: Action)
    requires Inv(s, n) && Enabled(s, n, a)
    ensures Inv(Next(s, n, a), n)
  {
    if a.Load? || a.Clear? || a.Wake? { TxStep(s, n, a); }
    else if a.Push? || a.Drain? || a.Poll? { RingStep(s, n, a); }
    else { PhaseStep(s, n, a); }
  }

  ghost predicate IsRun(n: nat, states: seq<State>, acts: seq<Action>) {
    && |states| == |acts| + 1 && states[0] == InitState(n)
    && (forall i {:trigger acts[i]} :: 0 <= i < |acts| ==>
          Enabled(states[i], n, acts[i]) && states[i + 1] == Next(states[i], n, acts[i]))
  }

  lemma {:induction false} RunInv(n: nat, states: seq<State>, acts: seq<Action>, i: nat)
    requires IsRun(n, states, acts) && i < |states|
    ensures Inv(states[i], n)
  {
    if i == 0 {
      InitOk(n);
    } else {
      RunInv(n, states, acts, i - 1);
      StepOk(states[i - 1], n, acts[i - 1]);
    }
  }

  ghost predicate SleepsOnWork(s: State, n: nat, c: nat, p: nat) {
    Shape(s, n) && c < n && p < n && s.phase[c].Asleep? && s.ring[c][p] > 0
  }

  /**
   No lost wakeup, for any number of shards and any interleaving: behind a non-empty ring of a
   sleeping shard there is a wakeup outstanding, or a producer whose next step is enabled.
   */
  lemma NoLostWakeup(n: nat, states: seq<State>, acts: seq<Action>, i: nat, c: nat, p: nat)
    requires IsRun(n, states, acts) && i < |states| && SleepsOnWork(states[i], n, c, p)
    ensures var s := states[i];
      || (s.token[c] && Enabled(s, n, Resume(c, true)))
      || (s.tx[p] == Pushed(c) && Enabled(s, n, Load(p)))
      || exists q :: 0 <= q < n && (s.tx[q] == Clearing(c) || s.tx[q] == Waking(c))
  {
    var s := states[i];
    RunInv(n, states, acts, i);
    assert RingOk(s, n, c, p);
  }

  /** The state after a sequence of steps, each enabled in turn. */
  ghost predicate Leads(s: State, n: nat, acts: seq<Action>, t: State)
    decreases |acts|
  {
    if acts == [] then t == s
    else Enabled(s, n, acts[0]) && Leads(Next(s, n, acts[0]), n, acts[1..], t)
  }

  lemma WakeFrom(s: State, n: nat, c: nat, q: nat) returns (acts: seq<Action>, t: State)
    requires Inv(s, n) && c < n && q < n && (s.tx[q] == Clearing(c) || s.tx[q] == Waking(c))
    ensures Leads(s, n, acts, t) && |acts| <= 2 && Inv(t, n) && t.phase == s.phase && t.ring == s.ring && t.token[c]
  {
    if s.tx[q].Clearing? {
      var s1 := Next(s, n, Clear(q));
      StepOk(s, n, Clear(q));
      t := Next(s1, n, Wake(q));
      StepOk(s1, n, Wake(q));
      acts := [Clear(q), Wake(q)];
      assert acts[1..] == [Wake(q)] && Leads(s1, n, [Wake(q)], t);
    } else {
      t := Next(s, n, Wake(q));
      StepOk(s, n, Wake(q));
      acts := [Wake(q)];
    }
  }

  /** The producers alone, in at most three of their own steps, bring a needed wakeup about. */
  lemma WakeupComes(s: State, n: nat, c: nat, p: nat) returns (acts: seq<Action>, t: State)
    requires Inv(s, n) && SleepsOnWork(s, n, c, p)
    ensures Leads(s, n, acts, t) && |acts| <= 3 && Inv(t, n) && t.phase == s.phase && t.ring == s.ring
    ensures Enabled(t, n, Resume(c, true))
  {
    assert RingOk(s, n, c, p) && FlagOk(s, c);
    if s.token[c] {
      acts, t := [], s;
    } else if WakeDue(s, c) {
      var q :| 0 <= q < n && (s.tx[q] == Clearing(c) || s.tx[q] == Waking(c));
      acts, t := WakeFrom(s, n, c, q);
    } else {
      var s1 := Next(s, n, Load(p));
      StepOk(s, n, Load(p));
      assert WakeStored(s, c) ==> WakeDue(s, c);
      var rest;
      rest, t := WakeFrom(s1, n, c, p);
      acts := [Load(p)] + rest;
      assert acts[1..] == rest;
    }
  }

  /** A woken shard works again: its flag is down, the wakeup is used up, and it can drain its rings. */
  lemma WokenWorks(s: State, n: nat, c: nat, p: nat)
    requires Inv(s, n) && SleepsOnWork(s, n, c, p) && Enabled(s, n, Resume(c, true))
    ensures var t := Next(s, n, Resume(c, true));
      && t.phase[c].Working? && !t.sleeping[c] && !t.token[c] && t.ring == s.ring && t.tx == s.tx
      && Enabled(t, n, Drain(c, p, 0)) && Next(t, n, Drain(c, p, 0)).ring[c][p] == 0
  {
  }

  /** From sleep on a non-empty ring to that ring drained, in at most five steps. */
  lemma SleeperDrains(s: State, n: nat, c: nat, p: nat) returns (acts: seq<Action>, t: State)
    requires Inv(s, n) && SleepsOnWork(s, n, c, p)
    ensures Leads(s, n, acts, t) && |acts| <= 5 && Shape(t, n) && t.phase[c].Working? && t.ring[c][p] == 0
  {
    var wake, u := WakeupComes(s, n, c, p);
    WokenWorks(u, n, c, p);
    var v := Next(u, n, Resume(c, true));
    t := Next(v, n, Drain(c, p, 0));
    var last := [Resume(c, true), Drain(c, p, 0)];
    assert last[1..] == [Drain(c, p, 0)] && Leads(v, n, [Drain(c, p, 0)], t);
    LeadsMore(s, n, wake, u, last, t);
    acts := wake + last;
  }

  lemma {:induction false} LeadsMore(s: State, n: nat, a: seq<Action>, u: State, b: seq<Action>, t: State)
    requires Leads(s, n, a, u) && Leads(u, n, b, t)
    ensures Leads(s, n, a + b, t)
    decreases |a|
  {
    if a == [] {
      assert a + b == b;
    } else {
      assert (a + b)[0] == a[0] && (a + b)[1..] == a[1..] + b;
      LeadsMore(Next(s, n, a[0]), n, a[1..], u, b, t);
    }
  }

  /** The flag goes down with the first wakeup: another producer that pushed for `c` meanwhile need not wake it. */
  lemma OneWakeup(s: State, n: nat, c: nat, p: nat, q: nat)
    requires Shape(s, n) && c < n && p < n && q < n && p != q && s.tx[p] == Clearing(c) && s.tx[q] == Pushed(c)
    ensures Enabled(s, n, Clear(p))
    ensures var t := Next(s, n, Clear(p));
      t.tx[p] == Waking(c) && !t.sleeping[c] && Enabled(t, n, Load(q)) && Next(t, n, Load(q)).tx[q].Idle?
  {
  }

  // ----- Going to sleep -----

  ghost predicate NoMail(s: State, n: nat, c: nat) {
    Shape(s, n) && c < n && s.tx[c].Idle? && forall p :: 0 <= p < n ==> s.ring[c][p] == 0
  }

  lemma {:induction false} PollsToSleep(s: State, n: nat, c: nat) returns (acts: seq<Action>, t: State)
    requires NoMail(s, n, c) && s.phase[c].Polling? && !s.phase[c].got && s.phase[c].next <= n
    ensures Leads(s, n, acts, t) && Shape(t, n) && t.phase[c].Asleep? && t.sleeping == s.sleeping
    decreases n - s.phase[c].next
  {
    if s.phase[c].next == n {
      t := Next(s, n, PollEnd(c));
      acts := [PollEnd(c)];
    } else {
      var s1 := Next(s, n, Poll(c, 0));
      var rest;
      rest, t := PollsToSleep(s1, n, c);
      acts := [Poll(c, 0)] + rest;
      assert acts[1..] == rest;
    }
  }

  /** A working shard that finds all its rings empty falls asleep with its flag up. */
  lemma QuietSleeps(s: State, n: nat, c: nat) returns (acts: seq<Action>, t: State)
    requires NoMail(s, n, c) && s.phase[c].Working?
    ensures Leads(s, n, acts, t) && Shape(t, n) && t.phase[c].Asleep? && t.sleeping[c]
  {
    var s1 := Next(s, n, Enter(c));
    var s2 := Next(s1, n, Barrier(c, true));
    var rest;
    rest, t := PollsToSleep(s2, n, c);
    acts := [Enter(c), Barrier(c, true)] + rest;
    assert acts[1..] == [Barrier(c, true)] + rest && acts[1..][1..] == rest;
  }

  // ----- Messages in the rings -----

  function AllPushed(acts: seq<Action>, p: nat, c: nat, i: nat): nat
    requires i <= |acts|
  {
    if i == 0 then 0
    else
      var a := acts[i - 1];
      AllPushed(acts, p, c, i - 1) + if a.Push? && a.p == p && a.c == c then a.k else 0
  }

  /** What the consumer takes from the ring `p` to `c` in one step. */
  ghost function Taken(s: State, n: nat, a: Action, p: nat, c: nat): nat
    requires Enabled(s, n, a) && p < n && c < n
  {
    if a.Drain? && a.c == c && a.p == p then s.ring[c][p] - a.left
    else if a.Poll? && a.c == c && s.phase[c].next == p && s.ring[c][p] > 0 then s.ring[c][p] - a.left
    else 0
  }

  ghost function AllTaken(n: nat, states: seq<State>, acts: seq<Action>, p: nat, c: nat, i: nat): nat
    requires IsRun(n, states, acts) && i <= |acts| && p < n && c < n
  {
    if i == 0 then 0 else AllTaken(n, states, acts, p, c, i - 1) + Taken(states[i - 1], n, acts[i - 1], p, c)
  }

  /** In every run a ring holds what was pushed into it and not taken out. */
  lemma {:induction false} RingLaw(n: nat, states: seq<State>, acts: seq<Action>, p: nat, c: nat, i: nat)
    requires IsRun(n, states, acts) && i < |states| && p < n && c < n
    ensures Shape(states[i], n) && states[i].ring[c][p] + AllTaken(n, states, acts, p, c, i) == AllPushed(acts, p, c, i)
  {
    if i > 0 {
      RingLaw(n, states, acts, p, c, i - 1);
      RingStepLaw(states[i - 1], n, acts[i - 1], p, c);
    }
  }

  lemma RingStepLaw(s: State, n: nat, a: Action, p: nat, c: nat)
    requires Enabled(s, n, a) && p < n && c < n
    ensures var t := Next(s, n, a);
      Shape(t, n) && t.ring[c][p] + Taken(s, n, a, p, c) ==
      s.ring[c][p] + if a.Push? && a.p == p && a.c == c then a.k else 0
  {
  }
}

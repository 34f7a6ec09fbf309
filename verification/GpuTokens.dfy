/**
 The stream tokens of one GPU device. A submitter takes a stream id from the candidate queue,
 raises the stream's task count and puts the id back while the count is below the limit; a
 completion that brings the count down from the limit puts the id back as well. Every atomic
 access is one step, so all interleavings of submitters and completions are runs.
 */
module GpuTokens {
  datatype State = State(
    candidates: seq<nat>,     // the lock-free queue of stream ids
    held: multiset<nat>,      // taken by a submitter that has not counted its task yet
    putting: multiset<nat>,   // about to be pushed back
    count: seq<nat>,          // per stream, the shared task counter
    running: multiset<nat>)   // submitted tasks whose completion has not been counted

  datatype Step = Take | Submit(stream: nat) | Put(stream: nat) | Complete(stream: nat)

  predicate Enabled(st: State, a: Step) {
    match a
    case Take => st.candidates != []
    case Submit(s) => s < |st.count| && s in st.held
    case Put(s) => s in st.putting
    case Complete(s) => s < |st.count| && s in st.running && st.count[s] > 0
  }

  function Next(st: State, a: Step, limit: nat): State
    requires Enabled(st, a)
  {
    match a
    case Take => st.(candidates := st.candidates[1..], held := st.held + multiset{st.candidates[0]})
    case Submit(s) =>
      var c := st.count[s] + 1;
      State(st.candidates, st.held - multiset{s},
            if c < limit then st.putting + multiset{s} else st.putting,
            st.count[s := c], st.running + multiset{s})
    case Put(s) => st.(candidates := st.candidates + [s], putting := st.putting - multiset{s})
    case Complete(s) =>
      var c := st.count[s];
      State(st.candidates, st.held,
            if c == limit then st.putting + multiset{s} else st.putting,
            st.count[s := c - 1], st.running - multiset{s})
  }

  /** `configure`: every stream is a candidate and idle. */
  predicate Initial(st: State) {
    && |st.candidates| == |st.count|
    && (forall s :: 0 <= s < |st.count| ==> st.candidates[s] == s && st.count[s] == 0)
    && st.held == multiset{} && st.putting == multiset{} && st.running == multiset{}
  }

  ghost predicate IsRun(run: seq<State>, limit: nat) {
    && run != [] && Initial(run[0])
    && forall i :: 0 <= i < |run| - 1 ==> Stepped(run[i], run[i + 1], limit)
  }

  ghost predicate Stepped(a: State, b: State, limit: nat) {
    exists step: Step :: Enabled(a, step) && b == Next(a, step, limit)
  }

  /** Copies of the stream's token, wherever they are. */
  function Tokens(st: State, s: nat): nat {
    multiset(st.candidates)[s] + st.held[s] + st.putting[s]
  }

  /** One token below the limit, none at it, and never more tasks than the limit. */
  predicate TokenLaw(st: State, s: nat, limit: nat)
    requires s < |st.count|
  {
    && st.count[s] == st.running[s] <= limit
    && Tokens(st, s) == if st.count[s] < limit then 1 else 0
  }

  ghost predicate Inv(st: State, limit: nat) {
    forall s: nat :: IdOk(st, s, limit)
  }

  lemma {:induction false} InitialTokens(q: seq<nat>, s: nat)
    requires forall i :: 0 <= i < |q| ==> q[i] == i
    ensures multiset(q)[s] == if s < |q| then 1 else 0
  {
    if q != [] {
      var n := |q| - 1;
      InitialTokens(q[..n], s);
      assert q == q[..n] + [q[n]];
    }
  }

  lemma InitialOk(st: State, limit: nat)
    requires Initial(st) && limit >= 1
    ensures Inv(st, limit)
  {
    forall s: nat ensures IdOk(st, s, limit) {
      InitialTokens(st.candidates, s);
    }
  }

  /** What the invariant says of one id, stream or not. */
  predicate IdOk(st: State, s: nat, limit: nat) {
    if s < |st.count| then TokenLaw(st, s, limit) else Tokens(st, s) == 0 && st.running[s] == 0
  }

  lemma TakeOk(a: State, limit: nat, s: nat)
    requires IdOk(a, s, limit) && Enabled(a, Take)
    ensures IdOk(Next(a, Take, limit), s, limit)
  {
    var b := Next(a, Take, limit);
    assert a.candidates == [a.candidates[0]] + b.candidates;
    assert multiset(a.candidates) == multiset{a.candidates[0]} + multiset(b.candidates);
  }

  lemma SubmitOk(a: State, x: nat, limit: nat, s: nat)
    requires IdOk(a, s, limit) && Enabled(a, Submit(x))
    ensures IdOk(Next(a, Submit(x), limit), s, limit)
  {
    assert s == x ==> Tokens(a, x) >= a.held[x] > 0;
  }

  lemma PutOk(a: State, x: nat, limit: nat, s: nat)
    requires IdOk(a, s, limit) && Enabled(a, Put(x))
    ensures IdOk(Next(a, Put(x), limit), s, limit)
  {
    assert multiset(a.candidates + [x]) == multiset(a.candidates) + multiset{x};
  }

  lemma CompleteOk(a: State, x: nat, limit: nat, s: nat)
    requires IdOk(a, s, limit) && Enabled(a, Complete(x))
    ensures IdOk(Next(a, Complete(x), limit), s, limit)
  {
  }

  lemma StepOk(a: State, step: Step, limit: nat)
    requires Inv(a, limit) && Enabled(a, step)
    ensures Inv(Next(a, step, limit), limit) && |Next(a, step, limit).count| == |a.count|
  {
    forall s: nat ensures IdOk(Next(a, step, limit), s, limit) {
      assert IdOk(a, s, limit);
      match step
      case Take => TakeOk(a, limit, s);
      case Submit(x) => SubmitOk(a, x, limit, s);
      case Put(x) => PutOk(a, x, limit, s);
      case Complete(x) => CompleteOk(a, x, limit, s);
    }
  }

  lemma {:induction false} RunInv(run: seq<State>, limit: nat, i: nat)
    requires IsRun(run, limit) && i < |run| && limit >= 1
    ensures Inv(run[i], limit) && |run[i].count| == |run[0].count|
  {
    if i == 0 {
      InitialOk(run[0], limit);
    } else {
      RunInv(run, limit, i - 1);
      assert Stepped(run[i - 1], run[i], limit);
      var step :| Enabled(run[i - 1], step) && run[i] == Next(run[i - 1], step, limit);
      StepOk(run[i - 1], step, limit);
    }
  }

  // ----- What every run keeps -----

  /** The candidate queue never holds a stream twice and the limit is never exceeded. */
  lemma NoDuplicates(run: seq<State>, limit: nat, i: nat)
    requires IsRun(run, limit) && i < |run| && limit >= 1
    ensures forall j, k :: 0 <= j < k < |run[i].candidates| ==> run[i].candidates[j] != run[i].candidates[k]
    ensures forall s: nat :: s < |run[i].count| ==> run[i].count[s] <= limit
  {
    RunInv(run, limit, i);
    var st := run[i];
    forall j, k | 0 <= j < k < |st.candidates| ensures st.candidates[j] != st.candidates[k] {
      var s := st.candidates[j];
      TwicePresent(st.candidates, j, k);
      assert IdOk(st, s, limit);
      assert Tokens(st, s) <= 1;
    }
    forall s: nat | s < |st.count| ensures st.count[s] <= limit {
      assert IdOk(st, s, limit);
    }
  }

  lemma TwicePresent(q: seq<nat>, j: nat, k: nat)
    requires j < k < |q|
    ensures q[j] == q[k] ==> multiset(q)[q[j]] >= 2
  {
    assert q == q[..k] + ([q[k]] + q[k + 1..]);
    assert q[j] == q[..k][j];
    assert q[j] in multiset(q[..k]);
  }

  /** The stream can still come back: it has a token, or a task whose completion will be counted. */
  predicate Alive(st: State, s: nat) {
    Tokens(st, s) > 0 || st.running[s] > 0
  }

  /** Every stream stays usable in every state of every run. */
  ghost predicate AllAlive(limit: nat) {
    forall run: seq<State>, i: nat, s: nat ::
      IsRun(run, limit) && i < |run| && s < |run[i].count| ==> Alive(run[i], s)
  }

  /** No run loses a stream exactly when the per-stream limit is at least one. */
  lemma NoStreamLostIff(limit: nat)
    ensures AllAlive(limit) <==> limit >= 1
  {
    if limit >= 1 {
      forall run: seq<State>, i: nat, s: nat | IsRun(run, limit) && i < |run| && s < |run[i].count|
        ensures Alive(run[i], s)
      {
        RunInv(run, limit, i);
        assert IdOk(run[i], s, limit);
      }
    } else {
      LostAtZero();
      assert !Alive(LostRun()[3], 0);
    }
  }

  /** One stream: taken, submitted to and completed under limit zero. */
  function LostRun(): seq<State> {
    var a := State([0], multiset{}, multiset{}, [0], multiset{});
    var b := State([], multiset{0}, multiset{}, [0], multiset{});
    var c := State([], multiset{}, multiset{}, [1], multiset{0});
    var d := State([], multiset{}, multiset{}, [0], multiset{});
    [a, b, c, d]
  }

  /** With limit zero one submission uses a stream up for good. */
  lemma LostAtZero()
    ensures IsRun(LostRun(), 0) && |LostRun()[3].count| == 1 && !Alive(LostRun()[3], 0)
  {
    var run := LostRun();
    assert run[1] == Next(run[0], Take, 0);
    assert run[2] == Next(run[1], Submit(0), 0);
    assert run[3] == Next(run[2], Complete(0), 0);
  }

  // ----- Tasks -----

  /** A run with the steps it takes. */
  ghost predicate IsRunOf(run: seq<State>, steps: seq<Step>, limit: nat) {
    && |run| == |steps| + 1 && Initial(run[0])
    && forall i {:trigger steps[i]} :: 0 <= i < |steps| ==>
      Enabled(run[i], steps[i]) && run[i + 1] == Next(run[i], steps[i], limit)
  }

  function CountSteps(steps: seq<Step>, step: Step, i: nat): nat
    requires i <= |steps|
  {
    if i == 0 then 0 else CountSteps(steps, step, i - 1) + if steps[i - 1] == step then 1 else 0
  }

  /** In every run a stream's counter is the number of tasks submitted to it and not completed. */
  lemma {:induction false} TaskLaw(run: seq<State>, steps: seq<Step>, limit: nat, s: nat, i: nat)
    requires IsRunOf(run, steps, limit) && i < |run| && s < |run[0].count|
    ensures |run[i].count| == |run[0].count|
    ensures run[i].count[s] == run[i].running[s]
    ensures run[i].count[s] + CountSteps(steps, Complete(s), i) == CountSteps(steps, Submit(s), i)
  {
    if i > 0 {
      TaskLaw(run, steps, limit, s, i - 1);
      TaskStep(run[i - 1], steps[i - 1], limit, s);
    }
  }

  lemma TaskStep(a: State, step: Step, limit: nat, s: nat)
    requires Enabled(a, step) && s < |a.count|
    ensures var b := Next(a, step, limit);
      && |b.count| == |a.count|
      && b.count[s] == a.count[s] + (if step == Submit(s) then 1 else 0) - (if step == Complete(s) then 1 else 0)
      && b.running[s] == a.running[s] + (if step == Submit(s) then 1 else 0) - (if step == Complete(s) then 1 else 0)
  {
  }
}

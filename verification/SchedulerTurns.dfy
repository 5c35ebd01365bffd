/** What a worker does while it has a queue: how many messages it dispatches in one turn. */
module SchedulerTurns {
  import opened SchedulerModel
  import opened SchedulerProof
  import opened SchedulerRuns

  // ---------------------------------------------------------------- nobody else takes messages

  /** A step changes the queue of another thread only by putting messages at its end, or marking it. */
  ghost predicate KeepsQueue(s: State, t: nat, a: Action, q: Handle)
    requires Can(s, t, a) && Safe(s, t, a)
  {
    q in s.queues ==> q in Step(s, t, a).queues && s.queues[q].msgs <= Step(s, t, a).queues[q].msgs
  }

  lemma QueueKept(s: State, t: nat, a: Action, q: Handle)
    requires Can(s, t, a) && Safe(s, t, a) && Holds(s.threads[t], Owns, q) == 0
    ensures KeepsQueue(s, t, a, q)
  {
    hide Step, Safe, KeepsQueue, Holds;
    if Launches(s.threads[t]) { LaunchKeepsQueue(s, t, a, q); }
    else if Works(s.threads[t]) { WorkKeepsQueue(s, t, a, q); }
    else { OtherKeepsQueue(s, t, a, q); }
  }

  lemma LaunchKeepsQueue(s: State, t: nat, a: Action, q: Handle)
    requires Can(s, t, a) && Safe(s, t, a) && Launches(s.threads[t])
    ensures KeepsQueue(s, t, a, q)
  {
    hide Moves, Without, Halved, Continue, Log;
  }

  lemma WorkKeepsQueue(s: State, t: nat, a: Action, q: Handle)
    requires Can(s, t, a) && Safe(s, t, a) && Works(s.threads[t]) && Holds(s.threads[t], Owns, q) == 0
    ensures KeepsQueue(s, t, a, q)
  {
    hide Moves, Halved, Continue, Log;
  }

  lemma OtherKeepsQueue(s: State, t: nat, a: Action, q: Handle)
    requires Can(s, t, a) && Safe(s, t, a) && !Launches(s.threads[t]) && !Works(s.threads[t])
    ensures KeepsQueue(s, t, a, q)
  {
    hide Moves, Without, Halved, Continue, Log;
  }

  // ---------------------------------------------------------------- a turn never finds too little

  /** The first message is dispatched before the worker knows how many there are to be. */
  function AtLeastOne(n: nat): nat { if n == 0 then 1 else n }

  /** A worker that has begun to dispatch so many messages finds that many. */
  ghost predicate Supplied(s: State, x: Thread) {
    match x
    case Looping(q, i, n) =>
      (i == 0 ==> n == 1) && i <= AtLeastOne(n) && (0 < i < n ==> q in s.queues && n - i <= |s.queues[q].msgs|)
    case Popped(q, _, i, n) => i < n && (i == 0 ==> n == 1) && q in s.queues && n - i <= |s.queues[q].msgs| + 1
    case Ready(q, _, i, n) => (i == 0 || i < n) && q in s.queues && n - i <= |s.queues[q].msgs| + 1
    case _ => true
  }

  ghost predicate AllSupplied(s: State) {
    forall u :: 0 <= u < |s.threads| ==> Supplied(s, s.threads[u])
  }

  lemma {:induction false} HalvedLess(n: nat, weight: nat)
    ensures Halved(n, weight) <= n
    decreases weight
  {
    if weight > 0 { HalvedLess(n / 2, weight - 1); }
  }

  /** The thread that takes the step */
  lemma MoverSupplied(s: State, t: nat, a: Action)
    requires Inv(s) && Can(s, t, a) && Safe(s, t, a) && Supplied(s, s.threads[t])
    ensures Supplied(Step(s, t, a), Step(s, t, a).threads[t])
  {
    hide Inv, Step, Safe, Supplied;
    var x := s.threads[t];
    if x.Looping? && x.i < x.n { PopSupplied(s, t, a); }
    else if x.Popped? { MeasureSupplied(s, t, a); }
    else if x.Ready? { DispatchSupplied(s, t, a); }
    else { OthersSupplied(s, t, a); }
  }

  lemma PopSupplied(s: State, t: nat, a: Action)
    requires Can(s, t, a) && Safe(s, t, a) && s.threads[t].Looping? && s.threads[t].i < s.threads[t].n
    requires Supplied(s, s.threads[t])
    ensures Supplied(Step(s, t, a), Step(s, t, a).threads[t])
  {
    hide Moves, Without, Halved, Log;
  }

  lemma MeasureSupplied(s: State, t: nat, a: Action)
    requires Can(s, t, a) && Safe(s, t, a) && s.threads[t].Popped? && Supplied(s, s.threads[t])
    ensures Supplied(Step(s, t, a), Step(s, t, a).threads[t])
  {
    hide Moves, Without, Halved, Log;
    if a.weight >= 0 { HalvedLess(|s.queues[s.threads[t].q].msgs|, a.weight); }
  }

  lemma DispatchSupplied(s: State, t: nat, a: Action)
    requires Can(s, t, a) && Safe(s, t, a) && s.threads[t].Ready? && Supplied(s, s.threads[t])
    ensures Supplied(Step(s, t, a), Step(s, t, a).threads[t])
  {
    hide Moves, Without, Halved, Log;
  }

  /** All other steps lead into no turn, or to its beginning. */
  ghost predicate Begins(s: State, t: nat, a: Action)
    requires Can(s, t, a) && Safe(s, t, a)
  {
    var y := Step(s, t, a).threads[t];
    !y.Popped? && !y.Ready? && (y.Looping? ==> y.i == 0 && y.n == 1)
  }

  lemma OthersSupplied(s: State, t: nat, a: Action)
    requires Can(s, t, a) && Safe(s, t, a)
    requires var x := s.threads[t]; !x.Popped? && !x.Ready? && !(x.Looping? && x.i < x.n)
    ensures Supplied(Step(s, t, a), Step(s, t, a).threads[t])
  {
    hide Safe, Step;
    assert Begins(s, t, a) by {
      if Launches(s.threads[t]) { LaunchBegins(s, t, a); }
      else if Works(s.threads[t]) { WorkBegins(s, t, a); }
      else { OtherBegins(s, t, a); }
    }
  }

  lemma LaunchBegins(s: State, t: nat, a: Action)
    requires Can(s, t, a) && Safe(s, t, a) && Launches(s.threads[t])
    ensures Begins(s, t, a)
  {
    hide Moves, Without, Halved, Log, Accepting, Taken, Marked;
  }

  lemma WorkBegins(s: State, t: nat, a: Action)
    requires Can(s, t, a) && Safe(s, t, a) && Works(s.threads[t])
    requires var x := s.threads[t]; !x.Popped? && !x.Ready? && !(x.Looping? && x.i < x.n)
    ensures Begins(s, t, a)
  {
    hide Moves, Without, Halved, Log, Accepting, Taken, Marked;
  }

  lemma OtherBegins(s: State, t: nat, a: Action)
    requires Can(s, t, a) && Safe(s, t, a) && !Launches(s.threads[t]) && !Works(s.threads[t])
    ensures Begins(s, t, a)
  {
    hide Moves, Without, Halved, Log, Accepting, Taken, Marked;
  }

  /** Nobody but its owner takes messages from a queue. */
  lemma StaysSupplied(s: State, t: nat, a: Action, u: nat)
    requires Inv(s) && Can(s, t, a) && Safe(s, t, a) && u < |s.threads| && u != t && Supplied(s, s.threads[u])
    ensures Supplied(Step(s, t, a), s.threads[u])
  {
    hide Inv, Step, Safe, Total;
    var x := s.threads[u];
    if x.Looping? || x.Popped? || x.Ready? {
      GoodOwners(s, x.q);
      if t < u { TotalTwo(s.threads, t, u, Owns, x.q); } else { TotalTwo(s.threads, u, t, Owns, x.q); }
      QueueKept(s, t, a, x.q);
    }
  }

  lemma StepSupplied(s: State, t: nat, a: Action)
    requires Inv(s) && AllSupplied(s) && Can(s, t, a) && Safe(s, t, a)
    ensures AllSupplied(Step(s, t, a))
  {
    hide Inv, Step, Safe, Supplied;
    var s1 := Step(s, t, a);
    StepMoves(s, t, a);
    forall u | 0 <= u < |s1.threads| ensures Supplied(s1, s1.threads[u]) {
      if u == t { MoverSupplied(s, t, a); } else { StaysSupplied(s, t, a, u); }
    }
  }

  lemma StepMoves(s: State, t: nat, a: Action)
    requires Can(s, t, a) && Safe(s, t, a)
    ensures Moves(s, t, Step(s, t, a))
  {
    hide Step, Safe, Moves;
  }

  lemma {:induction false} RunSupplied(s: State, run: Run)
    requires Inv(s) && AllSupplied(s) && Possible(s, run)
    ensures AllSupplied(Final(s, run))
    decreases |run|
  {
    hide Inv, AllSupplied, Step, Can, Safe;
    if run != [] {
      StepKeeps(s, run[0].0, run[0].1);
      StepSupplied(s, run[0].0, run[0].1);
      RunSupplied(Step(s, run[0].0, run[0].1), run[1..]);
    }
  }

  lemma ReachableSupplied(s: State)
    requires Reachable(s)
    ensures AllSupplied(s)
  {
    hide Inv, Possible, Supplied;
    var n: nat, run: Run :| Possible(Start(n), run) && s == Final(Start(n), run);
    StartGood(n);
    forall u | 0 <= u < |Start(n).threads| ensures Supplied(Start(n), Start(n).threads[u]) { StartSupplied(n, u); }
    RunSupplied(Start(n), run);
  }

  lemma StartSupplied(n: nat, u: nat)
    requires u < n
    ensures Supplied(Start(n), Start(n).threads[u])
  {
  }

  // ---------------------------------------------------------------- how many messages a turn dispatches

  function Pow2(n: nat): (p: nat)
    ensures p > 0
  {
    if n == 0 then 1 else 2 * Pow2(n - 1)
  }

  function Shifted(n: nat, weight: nat): nat {
    NotNegative(n, Pow2(weight));
    n / Pow2(weight)
  }

  lemma NotNegative(n: nat, p: nat)
    requires p > 0
    ensures n / p >= 0
  {
    var q := n / p;
    assert n == p * q + n % p;
    assert n < p * (q + 1) by { assert p * (q + 1) == p * q + p; }
    Signs(p, q + 1);
  }

  lemma Signs(p: nat, k: int)
    ensures k <= 0 ==> p * k <= 0
  {
  }

  /** Shifting right is dividing by a power of two. */
  lemma {:induction false} HalvedIs(n: nat, weight: nat)
    ensures Halved(n, weight) == Shifted(n, weight)
    decreases weight
  {
    if weight > 0 {
      HalvedIs(n / 2, weight - 1);
      Quarter(n, Pow2(weight - 1));
    }
  }

  lemma Quarter(n: nat, p: nat)
    requires p > 0
    ensures n / 2 / p == n / (2 * p)
  {
    var q := n / (2 * p);
    var r := n % (2 * p);
    assert n == 2 * p * q + r;
    assert n / 2 == p * q + r / 2 by { assert n == 2 * (p * q) + r; }
    Divided(n / 2, p, q, r / 2);
  }

  lemma Divided(n: nat, p: nat, q: nat, r: nat)
    requires p > 0 && r < p && n == p * q + r
    ensures n / p == q
  {
    var k := n / p;
    assert n == p * k + n % p;
    if k < q { Steps(p, k, q); }
    if q < k { Steps(p, q, k); }
  }

  lemma Steps(p: nat, a: nat, b: nat)
    requires a < b
    ensures p * a + p <= p * b
  {
    var d := b - a - 1;
    assert p * b == p * a + p + p * d by { assert b == a + 1 + d; }
    assert p * d >= 0;
  }

  /** All along the run, thread `t` dispatches messages of service `q`. */
  ghost predicate InTurn(s: State, run: Run, t: nat, q: Handle)
    requires Possible(s, run)
    decreases |run|
  {
    t < |s.threads| && Serves(s.threads[t], q) &&
    (run != [] ==> InTurn(Step(s, run[0].0, run[0].1), run[1..], t, q))
  }

  /** How many messages thread `t` dispatches in a run. */
  ghost function Dispatched(s: State, run: Run, t: nat): nat
    requires Possible(s, run)
    decreases |run|
  {
    if run == [] then 0
    else
      var here := if run[0].0 == t && run[0].1.Dispatch? then 1 else 0;
      here + Dispatched(Step(s, run[0].0, run[0].1), run[1..], t)
  }

  /** How many messages a worker sets out to dispatch, `n` having been the number before: when the first one has been
      taken out, the number of those that are left, divided by a power of two, unless the weight is negative. */
  function Intended(s: State, t: nat, u: nat, a: Action, n: nat): nat
    requires t < |s.threads|
  {
    match s.threads[t]
    case Popped(q, _, i, _) =>
      if u == t && i == 0 && a.Measure? && a.weight >= 0 && q in s.queues then Shifted(|s.queues[q].msgs|, a.weight)
      else n
    case _ => n
  }

  ghost function Plan(s: State, run: Run, t: nat, n: nat): nat
    requires Possible(s, run) && t < |s.threads|
    decreases |run|
  {
    if run == [] then n
    else Plan(Step(s, run[0].0, run[0].1), run[1..], t, Intended(s, t, run[0].0, run[0].1, n))
  }

  /** In a turn the worker's two numbers are what it has dispatched and what it has set out to dispatch. */
  lemma {:induction false} TurnCounts(s: State, run: Run, t: nat, q: Handle)
    requires Possible(s, run) && InTurn(s, run, t, q)
    ensures var x, s1 := s.threads[t], Final(s, run);
            && t < |s1.threads| && Serves(s1.threads[t], q)
            && s1.threads[t].i == x.i + Dispatched(s, run, t) && s1.threads[t].n == Plan(s, run, t, x.n)
    decreases |run|
  {
    hide Step, Can, Safe, Intended;
    if run != [] {
      var (u, a) := run[0];
      StepCounts(s, u, a, t, q);
      TurnCounts(Step(s, u, a), run[1..], t, q);
    }
  }

  lemma StepCounts(s: State, u: nat, a: Action, t: nat, q: Handle)
    requires Can(s, u, a) && Safe(s, u, a) && t < |s.threads| && t < |Step(s, u, a).threads|
    requires Serves(s.threads[t], q) && Serves(Step(s, u, a).threads[t], q)
    ensures var x, y := s.threads[t], Step(s, u, a).threads[t];
            y.i == x.i + (if u == t && a.Dispatch? then 1 else 0) && y.n == Intended(s, t, u, a, x.n)
  {
    hide Without, Halved, Log, Accepting, Taken, Marked, Shifted;
    if u != t {
      StepMoves(s, u, a);
    } else if s.threads[t].Popped? && a.weight >= 0 {
      HalvedIs(|s.queues[q].msgs|, a.weight);
    }
  }

  /** A worker that comes to the end of its loop has dispatched one message, and if it goes on behind that, as many as
      it has set out to: the number of those left behind the first one, divided by two to the power of its weight. */
  lemma TurnDispatches(s: State, run: Run, t: nat, q: Handle)
    requires Reachable(s) && Possible(s, run) && InTurn(s, run, t, q) && s.threads[t] == Looping(q, 0, 1)
    requires var s1 := Final(s, run);
             t < |s1.threads| && s1.threads[t].Looping? && s1.threads[t].i >= s1.threads[t].n
    ensures Dispatched(s, run, t) == AtLeastOne(Plan(s, run, t, 1))
  {
    hide Possible, InTurn, Step, Dispatched, Plan, Final;
    TurnCounts(s, run, t, q);
    FinalReachable(s, run);
    ReachableSupplied(Final(s, run));
    assert Supplied(Final(s, run), Final(s, run).threads[t]);
  }

  lemma {:induction false} FinalReachable(s: State, run: Run)
    requires Reachable(s) && Possible(s, run)
    ensures Reachable(Final(s, run))
    decreases |run|
  {
    hide Reachable, Step, Can, Safe;
    if run != [] {
      StepReachable(s, run[0].0, run[0].1);
      FinalReachable(Step(s, run[0].0, run[0].1), run[1..]);
    }
  }

  /** It never finds the queue empty before that, except at the first message. */
  lemma TurnFinds(s: State, t: nat, i: nat, n: nat, q: Handle)
    requires Reachable(s) && t < |s.threads| && s.threads[t] == Looping(q, i, n) && 0 < i < n
    ensures q in s.queues && |s.queues[q].msgs| >= n - i
  {
    ReachableSupplied(s);
    assert Supplied(s, s.threads[t]);
  }
}

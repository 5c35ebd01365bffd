/** What holds in every interleaving of sends, dispatches, launches and retires. */
module SchedulerRuns {
  import opened SchedulerModel
  import opened SchedulerProof

  /** No service yet, and `n` threads. */
  function Start(n: nat): State {
    State({}, map[], map[], [], seq(n, _ => Idle), 1, {}, map[], map[])
  }

  /** A run: which thread moves, and how. */
  type Run = seq<(nat, Action)>

  ghost predicate Possible(s: State, run: Run)
    decreases |run|
  {
    run != [] ==>
      && Can(s, run[0].0, run[0].1) && Safe(s, run[0].0, run[0].1)
      && Possible(Step(s, run[0].0, run[0].1), run[1..])
  }

  function Final(s: State, run: Run): State
    requires Possible(s, run)
    decreases |run|
  {
    if run == [] then s else Final(Step(s, run[0].0, run[0].1), run[1..])
  }

  /** The states that some run of some number of threads leads to. */
  ghost predicate Reachable(s: State) {
    exists n: nat, run: Run :: Possible(Start(n), run) && s == Final(Start(n), run)
  }

  lemma {:induction false} IdleHolds(n: nat, share: Share, h: Handle)
    ensures Total(seq(n, _ => Idle), share, h) == 0 && InFlight(seq(n, _ => Idle), h) == []
    decreases n
  {
    if n > 0 {
      IdleHolds(n - 1, share, h);
      assert seq(n, _ => Idle)[1..] == seq(n - 1, _ => Idle);
    }
  }

  lemma StartGood(n: nat)
    ensures Inv(Start(n))
  {
    forall h: Handle ensures Good(LocalOf(Start(n), h)) {
      forall share ensures Total(Start(n).threads, share, h) == 0 &&
          InFlight(Start(n).threads, h) == [] { IdleHolds(n, share, h); }
    }
  }

  lemma {:induction false} RunKeeps(s: State, run: Run)
    requires Inv(s) && Possible(s, run)
    ensures Inv(Final(s, run))
    decreases |run|
  {
    hide Inv, Step, Can, Safe;
    if run != [] {
      StepKeeps(s, run[0].0, run[0].1);
      RunKeeps(Step(s, run[0].0, run[0].1), run[1..]);
    }
  }

  lemma ReachableGood(s: State)
    requires Reachable(s)
    ensures Inv(s)
  {
    hide Inv, Possible, Start;
    var n: nat, run: Run :| Possible(Start(n), run) && s == Final(Start(n), run);
    StartGood(n);
    RunKeeps(Start(n), run);
  }

  // ---------------------------------------------------------------- the promises

  /** How many hold queue `q`: entries of the global list, workers and creators. */
  function Owners(s: State, q: Handle): nat {
    multiset(s.global)[q] + Total(s.threads, Owns, q)
  }

  /** In every interleaving, a step touches no context or queue that is freed or not set up, gives back no
      reference that the thread does not have, and runs no callback of a service that is not initialized, if
      and only if it is not one of two: a message sent to a service that has no queue yet, and what its creator
      does to a new service, after giving back its reference, when nothing refers to it any more. */
  lemma NeverUnsafe(s: State, t: nat, a: Action)
    requires Reachable(s) && Can(s, t, a)
    ensures Safe(s, t, a) <==> Sound(s, t, a)
    ensures Sound(s, t, a) ==> Reachable(Step(s, t, a))
  {
    hide Inv, Step, Can, Safe, Sound, Start;
    ReachableGood(s);
    StepSafe(s, t, a);
    if Sound(s, t, a) { StepReachable(s, t, a); }
  }

  lemma StepReachable(s: State, t: nat, a: Action)
    requires Reachable(s) && Can(s, t, a) && Safe(s, t, a)
    ensures Reachable(Step(s, t, a))
  {
    hide Step, Can, Safe, Start;
    var n: nat, run: Run :| Possible(Start(n), run) && s == Final(Start(n), run);
    FinalMore(Start(n), run, t, a);
    assert Possible(Start(n), run + [(t, a)]);
  }

  lemma {:induction false} FinalMore(s: State, run: Run, t: nat, a: Action)
    requires Possible(s, run) && Can(Final(s, run), t, a) && Safe(Final(s, run), t, a)
    ensures Possible(s, run + [(t, a)]) && Final(s, run + [(t, a)]) == Step(Final(s, run), t, a)
    decreases |run|
  {
    hide Step, Can, Safe;
    if run == [] {
      assert run + [(t, a)] == [(t, a)];
      assert [(t, a)][1..] == [];
    } else {
      FinalMore(Step(s, run[0].0, run[0].1), run[1..], t, a);
      assert (run + [(t, a)])[1..] == run[1..] + [(t, a)];
    }
  }

  /** Each queue has one owner at most. */
  lemma OneOwner(s: State, q: Handle)
    requires Reachable(s)
    ensures Owners(s, q) <= 1
  {
    hide Inv, Good;
    ReachableGood(s);
    GoodOwners(s, q);
  }

  /** A queue that holds messages, or whose context is gone, is never without an owner. */
  lemma NeverStranded(s: State, q: Handle)
    requires Reachable(s) && q in s.queues && (s.queues[q].msgs != [] || s.queues[q].release)
    ensures Owners(s, q) == 1
  {
    hide Inv;
    ReachableGood(s);
    GoodAt(s, q);
  }

  /** Whether a worker is dispatching the messages of service `q`. */
  predicate Serves(x: Thread, q: Handle) {
    (x.Looping? || x.Popped? || x.Ready?) && x.q == q
  }

  /** No two workers ever run the callback of the same service. */
  lemma OneWorker(s: State, t: nat, u: nat, q: Handle)
    requires Reachable(s) && t < |s.threads| && u < |s.threads| && Serves(s.threads[t], q) && Serves(s.threads[u], q)
    ensures t == u
  {
    hide Inv, Good, Total;
    OneOwner(s, q);
    if t < u { TotalTwo(s.threads, t, u, Owns, q); }
    if u < t { TotalTwo(s.threads, u, t, Owns, q); }
  }

  /** A step leaves the global list as it is, takes its first queue out, or puts one queue at its end.  That
      queue is not in the list before: its `next` is null. */
  lemma NextIsNull(s: State, t: nat, a: Action)
    requires Reachable(s) && Can(s, t, a) && Safe(s, t, a)
    ensures var before, after := s.global, Step(s, t, a).global;
            || after == before
            || (before != [] && after == before[1..])
            || (after != [] && after == before + [after[|after| - 1]] && after[|after| - 1] !in before)
  {
    hide Step, Can, Safe, Total;
    Puts(s, t, a);
    StepReachable(s, t, a);
    var s1 := Step(s, t, a);
    if s1.global != [] {
      var q := s1.global[|s1.global| - 1];
      OneOwner(s1, q);
      if s1.global == s.global + [q] { assert multiset(s1.global)[q] == multiset(s.global)[q] + 1; }
    }
  }

  /** What a step does to the global list. */
  ghost predicate PutsOne(before: seq<Handle>, after: seq<Handle>) {
    || after == before
    || (before != [] && after == before[1..])
    || (after != [] && after == before + [after[|after| - 1]])
  }

  lemma Puts(s: State, t: nat, a: Action)
    requires Can(s, t, a) && Safe(s, t, a)
    ensures PutsOne(s.global, Step(s, t, a).global)
  {
    hide Step, Safe, PutsOne;
    if Launches(s.threads[t]) { LaunchPuts(s, t, a); }
    else if Works(s.threads[t]) { WorkPuts(s, t, a); }
    else { OtherPuts(s, t, a); }
  }

  lemma LaunchPuts(s: State, t: nat, a: Action)
    requires Can(s, t, a) && Safe(s, t, a) && Launches(s.threads[t])
    ensures PutsOne(s.global, Step(s, t, a).global)
  {
    hide Moves, Log, Without, Halved, Continue;
  }

  lemma WorkPuts(s: State, t: nat, a: Action)
    requires Can(s, t, a) && Safe(s, t, a) && Works(s.threads[t])
    ensures PutsOne(s.global, Step(s, t, a).global)
  {
    hide Moves, Log, Without, Halved, Continue;
  }

  lemma OtherPuts(s: State, t: nat, a: Action)
    requires Can(s, t, a) && Safe(s, t, a) && !Launches(s.threads[t]) && !Works(s.threads[t])
    ensures PutsOne(s.global, Step(s, t, a).global)
  {
    hide Moves, Log, Without, Halved, Continue;
  }

  /** As long as its context is there, a queue in the global list is flagged, so that a send or a deletion
      does not put it there twice. */
  lemma ListedFlagged(s: State, q: Handle)
    requires Reachable(s) && q in s.global && q in s.refs
    ensures q in s.queues && s.queues[q].inGlobal
  {
    hide Inv, Total;
    ReachableGood(s);
    GoodAt(s, q);
  }

  /** Whatever the interleaving: the messages accepted by a service are those consumed, by dispatch or
      by drop, in the order in which they were accepted, then the one a worker has in hand, then
      those in its queue.  When the queue is gone, all of them have been consumed. */
  lemma Conservation(s: State, q: Handle)
    requires Reachable(s)
    ensures Log(s.pushed, q) == Log(s.consumed, q) + InFlight(s.threads, q) + if q in s.queues then s.queues[q].msgs
            else []
    ensures q !in s.queues ==> Log(s.pushed, q) == Log(s.consumed, q)
    ensures |InFlight(s.threads, q)| <= 1
  {
    hide Inv, Total;
    ReachableGood(s);
    GoodAt(s, q);
    AtMostOne(s.threads, q);
    if q !in s.queues { MakersHaveNone(s.threads, q); }
  }

  lemma {:induction false} AtMostOne(threads: seq<Thread>, h: Handle)
    ensures |InFlight(threads, h)| <= Total(threads, Owns, h)
  {
    if threads != [] { AtMostOne(threads[1..], h); }
  }

  /** A context is deleted only when its handle is retired and everything that was grabbed has been
      given back; until then its queue is not marked, so no message can reach a queue after the last
      drain has begun. */
  lemma DeletedLast(s: State, t: nat, c: Handle)
    requires Reachable(s) && t < |s.threads| && s.threads[t].Deleting? && s.threads[t].c == c
    ensures c !in s.slots && Total(s.threads, Refs, c) == 0 && Total(s.threads, Deletes, c) == 1
  {
    hide Inv, Total;
    ReachableGood(s);
    IsDeleting(s, t, c);
    GoodAt(s, c);
  }

  lemma NoLateSend(s: State, t: nat, m: Message)
    requires Reachable(s) && Can(s, t, Send(m))
    ensures var c := s.threads[t].c; c in s.refs && (c in s.queues ==> !s.queues[c].release)
    ensures forall u :: 0 <= u < |s.threads| && s.threads[u].Draining? ==> s.threads[u].q != s.threads[t].c
  {
    hide Inv, Total;
    ReachableGood(s);
    HoldsSomething(s.threads[t]);
    RefersTo(s, t, s.threads[t].c);
    forall u | 0 <= u < |s.threads| && s.threads[u].Draining?
        ensures s.threads[u].q != s.threads[t].c { InvThread(s, u); }
  }
}

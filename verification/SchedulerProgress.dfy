/** No message is forgotten: an idle worker, all by itself, gets to every queue in the global list. */
module SchedulerProgress {
  import opened SchedulerModel
  import opened SchedulerProof
  import opened SchedulerRuns

  /** Thread `u` can lead from one state to the other while no other thread moves. */
  ghost predicate Alone(s: State, u: nat, s1: State) {
    exists run: Run :: Possible(s, run) && Final(s, run) == s1 && forall k :: 0 <= k < |run| ==> run[k].0 == u
  }

  lemma AloneStays(s: State, u: nat)
    ensures Alone(s, u, s)
  {
    var run: Run := [];
    assert Possible(s, run) && Final(s, run) == s;
  }

  lemma AloneStep(s: State, u: nat, a: Action, s1: State)
    requires Can(s, u, a) && Safe(s, u, a) && Alone(Step(s, u, a), u, s1)
    ensures Alone(s, u, s1)
  {
    hide Can, Safe, Step;
    var rest: Run :| Possible(Step(s, u, a), rest) && Final(Step(s, u, a), rest) == s1 &&
                     forall k :: 0 <= k < |rest| ==> rest[k].0 == u;
    var run: Run := [(u, a)] + rest;
    assert run[1..] == rest;
    assert Possible(s, run) && Final(s, run) == s1;
  }

  /** What a worker does is always safe. */
  lemma WorkSafe(s: State, u: nat, a: Action)
    requires Inv(s) && Can(s, u, a)
    requires var x := s.threads[u]; Works(x) || x.Releasing? || x.Idle?
    ensures Safe(s, u, a) && Inv(Step(s, u, a))
  {
    hide Inv, Safe, Step;
    StepSafe(s, u, a);
    StepKeeps(s, u, a);
  }

  /** Service `q` is registered, `m` is the first message that waits for it, and `log` has been dispatched. */
  ghost predicate Waits(s: State, q: Handle, m: Message, log: seq<Message>) {
    q in s.slots && q in s.queues && s.queues[q].msgs != [] && s.queues[q].msgs[0] == m && Log(s.consumed, q) == log
  }

  // ---------------------------------------------------------------- the steps of a worker, one by one

  lemma GrabsOwn(s: State, u: nat, p: Handle)
    requires Inv(s) && u < |s.threads| && s.threads[u] == HasQueue(p)
    ensures Can(s, u, GrabOwn) && Safe(s, u, GrabOwn)
    ensures var s1 := Step(s, u, GrabOwn);
            && Inv(s1) && |s1.threads| == |s.threads| && s1.global == s.global && s1.slots == s.slots
            && s1.queues == s.queues && s1.consumed == s.consumed
            && s1.threads[u] == if p in s.slots then Looping(p, 0, 1) else Orphan(p)
  {
    hide Inv, Safe;
    WorkSafe(s, u, GrabOwn);
  }

  lemma Pops(s: State, u: nat, p: Handle)
    requires Inv(s) && u < |s.threads| && s.threads[u] == Looping(p, 0, 1)
    ensures Can(s, u, Pop) && Safe(s, u, Pop) && p in s.queues
    ensures var s1, msgs := Step(s, u, Pop), s.queues[p].msgs;
            && Inv(s1) && |s1.threads| == |s.threads| && s1.global == s.global && s1.slots == s.slots
            && s1.queues == s.queues[p := Taken(s.queues[p])] && s1.consumed == s.consumed
            && s1.threads[u] == if msgs == [] then Releasing(p, ToIdle) else Popped(p, msgs[0], 0, 1)
  {
    hide Inv;
    WorkSafe(s, u, Pop);
  }

  lemma Measures(s: State, u: nat, p: Handle, m: Message)
    requires Inv(s) && u < |s.threads| && s.threads[u] == Popped(p, m, 0, 1)
    ensures Can(s, u, Measure(-1)) && Safe(s, u, Measure(-1))
    ensures var s1 := Step(s, u, Measure(-1));
            && Inv(s1) && |s1.threads| == |s.threads| && s1.global == s.global && s1.slots == s.slots
            && s1.queues == s.queues && s1.consumed == s.consumed && s1.threads[u] == Ready(p, m, 0, 1)
  {
    hide Inv;
    WorkSafe(s, u, Measure(-1));
  }

  lemma Dispatches(s: State, u: nat, p: Handle, m: Message)
    requires Inv(s) && u < |s.threads| && s.threads[u] == Ready(p, m, 0, 1)
    ensures Can(s, u, Dispatch) && Safe(s, u, Dispatch)
    ensures var s1 := Step(s, u, Dispatch);
            && Inv(s1) && |s1.threads| == |s.threads| && s1.global == s.global && s1.slots == s.slots
            && s1.queues == s.queues && s1.threads[u] == Looping(p, 1, 1)
            && s1.consumed == s.consumed[p := Log(s.consumed, p) + [m]]
  {
    hide Inv;
    WorkSafe(s, u, Dispatch);
  }

  lemma EndsLoop(s: State, u: nat, p: Handle)
    requires Inv(s) && u < |s.threads| && s.threads[u] == Looping(p, 1, 1) && s.global != []
    ensures Can(s, u, EndLoop) && Safe(s, u, EndLoop)
    ensures var s1 := Step(s, u, EndLoop);
            && Inv(s1) && |s1.threads| == |s.threads| && s1.global == s.global[1..] && s1.slots == s.slots
            && s1.queues == s.queues && s1.consumed == s.consumed && s1.threads[u] == Switching(p, s.global[0])
  {
    hide Inv;
    WorkSafe(s, u, EndLoop);
  }

  lemma PutsBack(s: State, u: nat, p: Handle, next: Handle)
    requires Inv(s) && u < |s.threads| && s.threads[u] == Switching(p, next)
    ensures Can(s, u, PutBack) && Safe(s, u, PutBack)
    ensures var s1 := Step(s, u, PutBack);
            && Inv(s1) && |s1.threads| == |s.threads| && s1.global == s.global + [p] && s1.slots == s.slots
            && s1.queues == s.queues && s1.consumed == s.consumed && s1.threads[u] == Releasing(p, ToQueue(next))
  {
    hide Inv;
    WorkSafe(s, u, PutBack);
  }

  /** The service is still registered, so the worker's reference is not the last one. */
  lemma Releases(s: State, u: nat, p: Handle, then_: After)
    requires Inv(s) && u < |s.threads| && s.threads[u] == Releasing(p, then_) && p in s.slots
    ensures Can(s, u, Release) && Safe(s, u, Release)
    ensures var s1 := Step(s, u, Release);
            && Inv(s1) && |s1.threads| == |s.threads| && s1.global == s.global && s1.slots == s.slots
            && s1.queues == s.queues && s1.consumed == s.consumed && s1.threads[u] == Continue(p, then_)
  {
    hide Inv, Total;
    WorkSafe(s, u, Release);
    NotTheLast(s, u, p);
  }

  lemma NotTheLast(s: State, u: nat, p: Handle)
    requires Inv(s) && u < |s.threads| && s.threads[u].Releasing? && s.threads[u].c == p && p in s.slots
    ensures p in s.refs && s.refs[p] >= 2
  {
    GoodAt(s, p);
    Shift(s, u, Idle, p);
  }

  lemma Takes(s: State, u: nat)
    requires Inv(s) && u < |s.threads| && s.threads[u] == Idle && s.global != []
    ensures Can(s, u, TakeQueue) && Safe(s, u, TakeQueue)
    ensures var s1 := Step(s, u, TakeQueue);
            && Inv(s1) && |s1.threads| == |s.threads| && s1.global == s.global[1..] && s1.slots == s.slots
            && s1.queues == s.queues && s1.consumed == s.consumed && s1.threads[u] == HasQueue(s.global[0])
  {
    hide Inv;
    WorkSafe(s, u, TakeQueue);
  }

  lemma GoesIntoRelease(s: State, u: nat, p: Handle)
    requires Inv(s) && u < |s.threads| && s.threads[u] == Orphan(p)
    ensures Can(s, u, Action.MqRelease) && Safe(s, u, Action.MqRelease) && p in s.queues
    ensures var s1 := Step(s, u, Action.MqRelease);
            && Inv(s1) && |s1.threads| == |s.threads| && s1.slots == s.slots
            && s1.queues == s.queues && s1.consumed == s.consumed
            && if s.queues[p].release then s1.global == s.global && s1.threads[u] == Draining(p)
               else s1.global == s.global + [p] && s1.threads[u] == Idle
  {
    hide Inv;
    WorkSafe(s, u, Action.MqRelease);
  }

  lemma Drains(s: State, u: nat, p: Handle)
    requires Inv(s) && u < |s.threads| && s.threads[u] == Draining(p)
    ensures Can(s, u, DrainOne) && Safe(s, u, DrainOne) && p in s.queues && p !in s.slots
    ensures var s1, msgs := Step(s, u, DrainOne), s.queues[p].msgs;
            && Inv(s1) && |s1.threads| == |s.threads| && s1.slots == s.slots && s1.global == s.global
            && if msgs == [] then
                 s1.queues == Without(s.queues, p) && s1.consumed == s.consumed && s1.threads[u] == Idle
               else
                 && s1.queues == s.queues[p := Taken(s.queues[p])] && s1.threads[u] == Draining(p)
                 && s1.consumed == s.consumed[p := Log(s.consumed, p) + [msgs[0]]]
  {
    hide Inv;
    WorkSafe(s, u, DrainOne);
    DrainedGone(s, u, p);
  }

  lemma DrainedGone(s: State, u: nat, p: Handle)
    requires Inv(s) && u < |s.threads| && s.threads[u] == Draining(p)
    ensures p !in s.slots
  {
    InvThread(s, u);
    if p in s.slots { RegisteredAlive(s, p); }
  }

  // ---------------------------------------------------------------- turns

  lemma {:induction false} RunsJoin(s: State, first: Run, second: Run)
    requires Possible(s, first) && Possible(Final(s, first), second)
    ensures Possible(s, first + second) && Final(s, first + second) == Final(Final(s, first), second)
    decreases |first|
  {
    hide Step, Can, Safe;
    if first == [] {
      assert first + second == second;
    } else {
      RunsJoin(Step(s, first[0].0, first[0].1), first[1..], second);
      assert (first + second)[1..] == first[1..] + second;
    }
  }

  lemma AloneJoins(s: State, u: nat, s1: State, s2: State)
    requires Alone(s, u, s1) && Alone(s1, u, s2)
    ensures Alone(s, u, s2)
  {
    hide Possible, Final;
    var first: Run :| Possible(s, first) && Final(s, first) == s1 && forall k :: 0 <= k < |first| ==> first[k].0 == u;
    var second: Run :| Possible(s1, second) && Final(s1, second) == s2 &&
                       forall k :: 0 <= k < |second| ==> second[k].0 == u;
    RunsJoin(s, first, second);
  }

  /** A step and what follows it */
  lemma OneStep(s: State, u: nat, a: Action)
    requires Can(s, u, a) && Safe(s, u, a)
    ensures Alone(s, u, Step(s, u, a))
  {
    hide Can, Safe, Step, Alone;
    AloneStays(Step(s, u, a), u);
    AloneStep(s, u, a, Step(s, u, a));
  }

  /** A worker that has a queue in which a message waits dispatches it. */
  lemma Serving(s: State, u: nat, q: Handle, m: Message, log: seq<Message>) returns (s1: State)
    requires Inv(s) && u < |s.threads| && s.threads[u] == HasQueue(q) && Waits(s, q, m, log)
    ensures Alone(s, u, s1) && Inv(s1) && |s1.threads| == |s.threads| && s1.threads[u] == Looping(q, 1, 1)
    ensures Log(s1.consumed, q) == log + [m] && s1.global == s.global && s1.slots == s.slots
    ensures forall c :: c != q ==> Log(s1.consumed, c) == Log(s.consumed, c)
    ensures forall c :: c != q && c in s.queues ==> c in s1.queues && s1.queues[c] == s.queues[c]
  {
    hide Inv, Can, Safe, Step, Alone;
    GrabsOwn(s, u, q);
    OneStep(s, u, GrabOwn);
    var a := Step(s, u, GrabOwn);
    Pops(a, u, q);
    OneStep(a, u, Pop);
    AloneJoins(s, u, a, Step(a, u, Pop));
    var b := Step(a, u, Pop);
    Measures(b, u, q, m);
    OneStep(b, u, Measure(-1));
    var c := Step(b, u, Measure(-1));
    AloneJoins(s, u, b, c);
    Dispatches(c, u, q, m);
    OneStep(c, u, Dispatch);
    s1 := Step(c, u, Dispatch);
    AloneJoins(s, u, c, s1);
  }

  /** Other queues than `p` are as they were, and so are the messages consumed. */
  ghost predicate Others(s: State, s1: State, p: Handle) {
    && s1.slots == s.slots && |s1.threads| == |s.threads|
    && (forall c :: c != p && c in s.queues ==> c in s1.queues && s1.queues[c] == s.queues[c])
    && forall c :: c != p ==> Log(s1.consumed, c) == Log(s.consumed, c)
  }

  /** A queue whose service is gone is drained: all its messages are dropped, and it is freed. */
  lemma {:induction false} DrainsAll(s: State, u: nat, p: Handle) returns (s1: State)
    requires Inv(s) && u < |s.threads| && s.threads[u] == Draining(p)
    ensures p in s.queues && p !in s1.queues && Log(s1.consumed, p) == Log(s.consumed, p) + s.queues[p].msgs
    ensures Alone(s, u, s1) && Inv(s1) && Others(s, s1, p) && s1.threads[u] == Idle && s1.global == s.global
    decreases if p in s.queues then |s.queues[p].msgs| else 0
  {
    hide Inv, Can, Safe, Step, Alone;
    Drains(s, u, p);
    OneStep(s, u, DrainOne);
    s1 := Step(s, u, DrainOne);
    if s.queues[p].msgs != [] {
      var a := s1;
      s1 := DrainsAll(a, u, p);
      AloneJoins(s, u, a, s1);
      assert s.queues[p].msgs == [s.queues[p].msgs[0]] + a.queues[p].msgs;
    }
  }

  /** `q` is at place `k` of the global list. */
  ghost predicate At(s: State, k: nat, q: Handle) { k < |s.global| && s.global[k] == q }

  /** A worker that has another queue comes back without one, or with the first one of the global list; other
      queues are put at its end only. */
  lemma Turn(s: State, u: nat, p: Handle, q: Handle, k: nat) returns (s1: State)
    requires Inv(s) && u < |s.threads| && s.threads[u] == HasQueue(p) && p != q && At(s, k, q)
    ensures Alone(s, u, s1) && Inv(s1) && Others(s, s1, p)
    ensures || (s1.threads[u] == Idle && At(s1, k, q))
            || (s1.threads[u] == HasQueue(s.global[0]) && (k > 0 ==> At(s1, k - 1, q)))
  {
    hide Inv, Can, Safe, Step, Alone;
    if p !in s.slots {
      s1 := OrphanTurn(s, u, p, q, k);
    } else {
      GrabsOwn(s, u, p);
      OneStep(s, u, GrabOwn);
      var a := Step(s, u, GrabOwn);
      Pops(a, u, p);
      if a.queues[p].msgs == [] {
        s1 := EmptyTurn(a, u, p);
        AloneJoins(s, u, a, s1);
      } else {
        s1 := FullTurn(s, u, p);
      }
    }
  }

  lemma EmptyTurn(s: State, u: nat, p: Handle) returns (s1: State)
    requires Inv(s) && u < |s.threads| && s.threads[u] == Looping(p, 0, 1) && p in s.slots
    requires p in s.queues && s.queues[p].msgs == []
    ensures Alone(s, u, s1) && Inv(s1) && Others(s, s1, p) && s1.threads[u] == Idle && s1.global == s.global
  {
    hide Inv, Can, Safe, Step, Alone;
    Pops(s, u, p);
    OneStep(s, u, Pop);
    var a := Step(s, u, Pop);
    Releases(a, u, p, ToIdle);
    OneStep(a, u, Release);
    s1 := Step(a, u, Release);
    AloneJoins(s, u, a, s1);
  }

  lemma FullTurn(s: State, u: nat, p: Handle) returns (s1: State)
    requires Inv(s) && u < |s.threads| && s.threads[u] == HasQueue(p) && p in s.slots && s.global != []
    requires p in s.queues && s.queues[p].msgs != []
    ensures Alone(s, u, s1) && Inv(s1) && Others(s, s1, p)
    ensures s1.threads[u] == HasQueue(s.global[0]) && s1.global == s.global[1..] + [p]
  {
    hide Inv, Can, Safe, Step, Alone;
    var a := Serving(s, u, p, s.queues[p].msgs[0], Log(s.consumed, p));
    EndsLoop(a, u, p);
    OneStep(a, u, EndLoop);
    var b := Step(a, u, EndLoop);
    AloneJoins(s, u, a, b);
    PutsBack(b, u, p, s.global[0]);
    OneStep(b, u, PutBack);
    var c := Step(b, u, PutBack);
    AloneJoins(s, u, b, c);
    Releases(c, u, p, ToQueue(s.global[0]));
    OneStep(c, u, Release);
    s1 := Step(c, u, Release);
    AloneJoins(s, u, c, s1);
  }

  lemma OrphanTurn(s: State, u: nat, p: Handle, q: Handle, k: nat) returns (s1: State)
    requires Inv(s) && u < |s.threads| && s.threads[u] == HasQueue(p) && p !in s.slots && At(s, k, q)
    ensures Alone(s, u, s1) && Inv(s1) && Others(s, s1, p) && s1.threads[u] == Idle && At(s1, k, q)
  {
    hide Inv, Can, Safe, Step, Alone;
    GrabsOwn(s, u, p);
    OneStep(s, u, GrabOwn);
    var a := Step(s, u, GrabOwn);
    GoesIntoRelease(a, u, p);
    OneStep(a, u, Action.MqRelease);
    s1 := Step(a, u, Action.MqRelease);
    AloneJoins(s, u, a, s1);
    if a.queues[p].release {
      var b := s1;
      s1 := DrainsAll(b, u, p);
      AloneJoins(s, u, b, s1);
    }
  }

  // ---------------------------------------------------------------- progress

  lemma {:induction false} GetsThere(s: State, u: nat, q: Handle, k: nat, m: Message, log: seq<Message>)
      returns (s1: State)
    requires Inv(s) && u < |s.threads| && Waits(s, q, m, log)
    requires s.threads[u].Idle? || (s.threads[u].HasQueue? && s.threads[u].q != q)
    requires At(s, k, q)
    ensures Alone(s, u, s1) && Inv(s1) && |s1.threads| == |s.threads| && Log(s1.consumed, q) == log + [m]
    decreases k, if s.threads[u].Idle? then 0 else 1
  {
    hide Inv, Can, Safe, Step, Alone;
    var a, first := s, s.global[0];
    if s.threads[u].Idle? {
      Takes(s, u);
      OneStep(s, u, TakeQueue);
      a := Step(s, u, TakeQueue);
    } else {
      a := Turn(s, u, s.threads[u].q, q, k);
    }
    if a.threads[u] == HasQueue(q) {
      s1 := Serving(a, u, q, m, log);
    } else if a.threads[u].Idle? {
      s1 := GetsThere(a, u, q, k, m, log);
    } else {
      s1 := GetsThere(a, u, q, k - 1, m, log);
    }
    AloneJoins(s, u, a, s1);
  }

  /** Whatever has happened: if a message waits for a registered service, its queue is in the global list, and a worker
      is idle, that worker alone, without any other thread moving, gets to dispatch the message. */
  lemma WaitingDispatched(s: State, u: nat, q: Handle) returns (s1: State)
    requires Reachable(s) && u < |s.threads| && s.threads[u] == Idle
    requires q in s.global && q in s.slots && q in s.queues && s.queues[q].msgs != []
    ensures Alone(s, u, s1) && Log(s1.consumed, q) == Log(s.consumed, q) + [s.queues[q].msgs[0]]
  {
    hide Inv, Reachable, Alone;
    ReachableGood(s);
    var k: nat :| k < |s.global| && s.global[k] == q;
    s1 := GetsThere(s, u, q, k, s.queues[q].msgs[0], Log(s.consumed, q));
  }

  /** And a queue in the global list whose service has been deleted is drained and freed in the same way. */
  lemma {:induction false} GetsToDrain(s: State, u: nat, q: Handle, k: nat, log: seq<Message>) returns (s1: State)
    requires Inv(s) && u < |s.threads|
    requires q !in s.slots && q in s.queues && s.queues[q].release && Log(s.consumed, q) + s.queues[q].msgs == log
    requires s.threads[u].Idle? || (s.threads[u].HasQueue? && s.threads[u].q != q)
    requires At(s, k, q)
    ensures Alone(s, u, s1) && Inv(s1) && q !in s1.queues && Log(s1.consumed, q) == log
    decreases k, if s.threads[u].Idle? then 0 else 1
  {
    hide Inv, Can, Safe, Step, Alone;
    var a := s;
    if s.threads[u].Idle? {
      Takes(s, u);
      OneStep(s, u, TakeQueue);
      a := Step(s, u, TakeQueue);
    } else {
      a := Turn(s, u, s.threads[u].q, q, k);
    }
    if a.threads[u] == HasQueue(q) {
      GrabsOwn(a, u, q);
      OneStep(a, u, GrabOwn);
      var b := Step(a, u, GrabOwn);
      GoesIntoRelease(b, u, q);
      OneStep(b, u, Action.MqRelease);
      var c := Step(b, u, Action.MqRelease);
      AloneJoins(a, u, b, c);
      s1 := DrainsAll(c, u, q);
      AloneJoins(a, u, c, s1);
    } else if a.threads[u].Idle? {
      s1 := GetsToDrain(a, u, q, k, log);
    } else {
      s1 := GetsToDrain(a, u, q, k - 1, log);
    }
    AloneJoins(s, u, a, s1);
  }

  lemma DeletedDrained(s: State, u: nat, q: Handle) returns (s1: State)
    requires Reachable(s) && u < |s.threads| && s.threads[u] == Idle
    requires q in s.global && q !in s.refs
    ensures q in s.queues && Alone(s, u, s1) && q !in s1.queues
    ensures Log(s1.consumed, q) == Log(s.consumed, q) + s.queues[q].msgs
  {
    hide Inv, Reachable, Alone;
    ReachableGood(s);
    ListedThere(s, q);
    DeletedMarked(s, q);
    var k: nat :| k < |s.global| && s.global[k] == q;
    s1 := GetsToDrain(s, u, q, k, Log(s.consumed, q) + s.queues[q].msgs);
  }

  lemma DeletedMarked(s: State, q: Handle)
    requires Inv(s) && q in s.queues && q !in s.refs
    ensures q !in s.slots && s.queues[q].release
  {
    GoodAt(s, q);
  }
}

/** When launching a service is safe.  For a moment the new service is registered without a queue, and at the
    end its creator uses it without a reference.  Runs that do not interfere with that are safe altogether. */
module SchedulerLaunch {
  import opened Basics
  import opened SchedulerModel
  import opened SchedulerProof
  import opened SchedulerRuns

  // ---------------------------------------------------------------- what goes wrong

  /** One step more, from a state that is known to a state that is known. */
  lemma OneMore(run: Run, s: State, t: nat, a: Action, s1: State)
    requires Possible(Start(2), run) && Final(Start(2), run) == s
    requires Can(s, t, a) && Safe(s, t, a) && Step(s, t, a) == s1
    ensures Possible(Start(2), run + [(t, a)]) && Final(Start(2), run + [(t, a)]) == s1
  {
    hide Step, Can, Safe, Start;
    FinalMore(Start(2), run, t, a);
  }

  /** Two threads and the service 1. */
  function Two(slots: set<Handle>, refs: map<Handle, nat>, queues: map<Handle, Queue>, x: Thread, y: Thread): State {
    State(slots, refs, queues, [], [x, y], 2, {}, map[], map[])
  }

  lemma Launched()
    ensures Possible(Start(2), [(0, Launch)])
    ensures Final(Start(2), [(0, Launch)]) == Two({1}, map[1 := 2], map[], Creating(1), Idle)
  {
    assert Start(2).threads[0 := Creating(1)] == [Creating(1), Idle];
    OneMore([], Start(2), 0, Launch, Two({1}, map[1 := 2], map[], Creating(1), Idle));
    assert [] + [(0, Launch)] == [(0, Launch)];
  }

  /** A handle is known before there is a queue: a message sent then has nowhere to go. */
  lemma EarlySend(m: Message)
    ensures var run := [(0, Launch), (1, Grab(1))];
            && Possible(Start(2), run)
            && Can(Final(Start(2), run), 1, Send(m)) && !Safe(Final(Start(2), run), 1, Send(m))
  {
    hide Possible, Final, Start;
    Launched();
    OneMore([(0, Launch)], Two({1}, map[1 := 2], map[], Creating(1), Idle), 1, Grab(1),
            Two({1}, map[1 := 3], map[], Creating(1), Holding(1)));
    assert [(0, Launch)] + [(1, Grab(1))] == [(0, Launch), (1, Grab(1))];
  }

  lemma Succeeded()
    ensures var run := [(0, Launch), (0, CreateQueue), (0, LaunchOk)];
            && Possible(Start(2), run)
            && Final(Start(2), run) == Two({1}, map[1 := 1], map[1 := Queue([], true, false)], Storing(1), Idle)
  {
    hide Possible, Final, Start;
    Launched();
    var q := map[1 := Queue([], true, false)];
    OneMore([(0, Launch)], Two({1}, map[1 := 2], map[], Creating(1), Idle), 0, CreateQueue,
            Two({1}, map[1 := 2], q, Launching(1), Idle));
    assert [(0, Launch)] + [(0, CreateQueue)] == [(0, Launch), (0, CreateQueue)];
    OneMore([(0, Launch), (0, CreateQueue)], Two({1}, map[1 := 2], q, Launching(1), Idle), 0, LaunchOk,
            Two({1}, map[1 := 1], q, Storing(1), Idle));
    assert [(0, Launch), (0, CreateQueue)] + [(0, LaunchOk)] == [(0, Launch), (0, CreateQueue), (0, LaunchOk)];
  }

  lemma Retired()
    ensures var run := [(0, Launch), (0, CreateQueue), (0, LaunchOk)] + [(1, Retire(1))];
            && Possible(Start(2), run)
            && Final(Start(2), run) ==
                 Two({}, map[1 := 1], map[1 := Queue([], true, false)], Storing(1), Releasing(1, ToIdle))
  {
    hide Possible, Final, Start;
    Succeeded();
    var q := map[1 := Queue([], true, false)];
    OneMore([(0, Launch), (0, CreateQueue), (0, LaunchOk)], Two({1}, map[1 := 1], q, Storing(1), Idle), 1, Retire(1),
            Two({}, map[1 := 1], q, Storing(1), Releasing(1, ToIdle)));
  }

  lemma Released()
    ensures var run := [(0, Launch), (0, CreateQueue), (0, LaunchOk)] + [(1, Retire(1))] + [(1, Release)];
            && Possible(Start(2), run)
            && Final(Start(2), run) ==
                 Two({}, map[1 := 0], map[1 := Queue([], true, false)], Storing(1), Deleting(1, ToIdle))
  {
    hide Possible, Final, Start;
    Retired();
    var q := map[1 := Queue([], true, false)];
    OneMore([(0, Launch), (0, CreateQueue), (0, LaunchOk)] + [(1, Retire(1))],
            Two({}, map[1 := 1], q, Storing(1), Releasing(1, ToIdle)), 1, Release,
            Two({}, map[1 := 0], q, Storing(1), Deleting(1, ToIdle)));
  }

  /** The service is retired, and deleted, between giving back the reference and the store to `init`. */
  lemma LateStore()
    ensures var run := [(0, Launch), (0, CreateQueue), (0, LaunchOk)] + [(1, Retire(1))] + [(1, Release)] +
                       [(1, MarkRelease)];
            && Possible(Start(2), run)
            && Can(Final(Start(2), run), 0, StoreInit) && !Safe(Final(Start(2), run), 0, StoreInit)
  {
    hide Possible, Final, Start;
    Released();
    assert Without(map[1 := 0], 1) == map[];
    OneMore([(0, Launch), (0, CreateQueue), (0, LaunchOk)] + [(1, Retire(1))] + [(1, Release)],
            Two({}, map[1 := 0], map[1 := Queue([], true, false)], Storing(1), Deleting(1, ToIdle)), 1, MarkRelease,
            Two({}, map[], map[1 := Queue([], true, true)], Storing(1), Idle));
  }

  // ---------------------------------------------------------------- runs in which nothing does

  /** The service that a thread launches. */
  function LaunchOf(x: Thread): Option<Handle> {
    match x
    case Creating(c) => Some(c)
    case Launching(c) => Some(c)
    case Storing(c) => Some(c)
    case Publishing(c, _) => Some(c)
    case Reporting(c) => Some(c)
    case FailRetire(c) => Some(c)
    case Releasing(c, then_) => if then_.ToRetire? || then_.ToPublish? then Some(c) else None
    case Deleting(c, then_) => if then_.ToRetire? || then_.ToPublish? then Some(c) else None
    case _ => None
  }

  /** Whether the launch is under way and has not failed. */
  predicate Going(x: Thread) {
    x.Creating? || x.Launching? || x.Storing? || (x.Publishing? && x.report) || x.Reporting?
  }

  /** Nobody grabs a service before it has a queue, or retires it before its launch is over. */
  predicate Patient(s: State, t: nat, a: Action)
    requires t < |s.threads|
  {
    s.threads[t].Idle? ==>
      && (a.Grab? ==> forall u :: 0 <= u < |s.threads| ==> s.threads[u] != Creating(a.h))
      && (a.Retire? ==> forall u :: 0 <= u < |s.threads| && Going(s.threads[u]) ==>
                          LaunchOf(s.threads[u]) != Some(a.h))
  }

  ghost predicate PatientRun(s: State, run: Run)
    decreases |run|
  {
    run != [] ==>
      var (t, a) := run[0];
      Can(s, t, a) && Patient(s, t, a) && (Safe(s, t, a) ==> PatientRun(Step(s, t, a), run[1..]))
  }

  /** Each service has one creator at most.  While the launch is going on it stays registered, and before
      there is a queue nobody else refers to it. */
  ghost predicate Apart(s: State, u: nat, v: nat)
    requires u < |s.threads| && v < |s.threads|
  {
    var x, y := s.threads[u], s.threads[v];
    LaunchOf(x).Some? ==>
      && LaunchOf(x).value < s.next
      && (Going(x) ==> LaunchOf(x).value in s.slots)
      && (u != v ==> LaunchOf(x) != LaunchOf(y) && (x.Creating? ==> Holds(y, Refs, x.c) == 0))
  }

  ghost predicate Undisturbed(s: State) {
    forall u, v :: 0 <= u < |s.threads| && 0 <= v < |s.threads| ==> Apart(s, u, v)
  }

  lemma {:induction false} NoMakers(threads: seq<Thread>, h: Handle)
    requires forall u :: 0 <= u < |threads| ==> threads[u] != Creating(h)
    ensures Total(threads, Makes, h) == 0
  {
    if threads != [] {
      assert threads[0] != Creating(h);
      NoMakers(threads[1..], h);
    }
  }

  lemma UndisturbedSound(s: State, t: nat, a: Action)
    requires Undisturbed(s) && Can(s, t, a)
    ensures Sound(s, t, a)
  {
    hide Total;
    var x := s.threads[t];
    assert Apart(s, t, t);
    if x.Holding? {
      forall u | 0 <= u < |s.threads| ensures s.threads[u] != Creating(x.c) { assert Apart(s, u, t); }
      NoMakers(s.threads, x.c);
    }
  }

  /** What a step adds to what its thread has to do with services, and what it unregisters. */
  ghost predicate Touches(s: State, t: nat, a: Action)
    requires Can(s, t, a) && Safe(s, t, a)
  {
    var x, s1 := s.threads[t], Step(s, t, a);
    var x1, begins := s1.threads[t], x.Idle? && a.Launch?;
    && (begins ==> x1 == Creating(s.next) && s1.slots == s.slots + {s.next} && s1.next == s.next + 1)
    && (!begins && LaunchOf(x1).Some? ==> LaunchOf(x1) == LaunchOf(x) && (Going(x1) ==> Going(x)) && !x1.Creating?)
    && (forall c :: c in s.slots && c !in s1.slots ==> (x.Idle? && a == Retire(c)) || x == FailRetire(c))
  }

  ghost predicate TakesRefs(s: State, t: nat, a: Action)
    requires Can(s, t, a) && Safe(s, t, a)
  {
    var x, x1 := s.threads[t], Step(s, t, a).threads[t];
    forall c :: Holds(x1, Refs, c) > 0 ==>
      || Holds(x, Refs, c) > 0
      || (x.Idle? && (a == Grab(c) || a == Retire(c) || (a.Launch? && c == s.next)))
      || x == HasQueue(c) || x == FailRetire(c)
  }

  lemma StepTouches(s: State, t: nat, a: Action)
    requires Can(s, t, a) && Safe(s, t, a)
    ensures Touches(s, t, a) && TakesRefs(s, t, a)
  {
    hide Safe, Step, Touches, TakesRefs;
    if Launches(s.threads[t]) { LaunchTouches(s, t, a); LaunchTakes(s, t, a); }
    else if Works(s.threads[t]) { WorkTouches(s, t, a); WorkTakes(s, t, a); }
    else { OtherTouches(s, t, a); OtherTakes(s, t, a); }
  }

  lemma LaunchTouches(s: State, t: nat, a: Action)
    requires Can(s, t, a) && Safe(s, t, a) && Launches(s.threads[t])
    ensures Touches(s, t, a)
  {
    hide Moves, Log, Without, Halved, Holds;
  }

  lemma LaunchTakes(s: State, t: nat, a: Action)
    requires Can(s, t, a) && Safe(s, t, a) && Launches(s.threads[t])
    ensures TakesRefs(s, t, a)
  {
    hide Moves, Log, Without, Halved, LaunchOf;
  }

  lemma WorkTouches(s: State, t: nat, a: Action)
    requires Can(s, t, a) && Safe(s, t, a) && Works(s.threads[t])
    ensures Touches(s, t, a)
  {
    hide Moves, Log, Without, Halved, Holds;
  }

  lemma WorkTakes(s: State, t: nat, a: Action)
    requires Can(s, t, a) && Safe(s, t, a) && Works(s.threads[t])
    ensures TakesRefs(s, t, a)
  {
    hide Moves, Log, Without, Halved, LaunchOf;
  }

  lemma OtherTouches(s: State, t: nat, a: Action)
    requires Can(s, t, a) && Safe(s, t, a) && !Launches(s.threads[t]) && !Works(s.threads[t])
    ensures Touches(s, t, a)
  {
    hide Moves, Log, Without, Halved, Holds;
  }

  lemma OtherTakes(s: State, t: nat, a: Action)
    requires Can(s, t, a) && Safe(s, t, a) && !Launches(s.threads[t]) && !Works(s.threads[t])
    ensures TakesRefs(s, t, a)
  {
    hide Moves, Log, Without, Halved, LaunchOf;
  }

  lemma StepUndisturbed(s: State, t: nat, a: Action)
    requires Inv(s) && Undisturbed(s) && Can(s, t, a) && Safe(s, t, a) && Patient(s, t, a)
    ensures Undisturbed(Step(s, t, a))
  {
    hide Inv, Safe, Step, Patient, Apart;
    var s1 := Step(s, t, a);
    forall u, v | 0 <= u < |s1.threads| && 0 <= v < |s1.threads| ensures Apart(s1, u, v) {
      StepApart(s, t, a, u, v);
    }
  }

  lemma StepApart(s: State, t: nat, a: Action, u: nat, v: nat)
    requires Inv(s) && Undisturbed(s) && Can(s, t, a) && Safe(s, t, a) && Patient(s, t, a)
    requires u < |s.threads| && v < |s.threads|
    ensures Apart(Step(s, t, a), u, v)
  {
    hide Inv, Safe, Step, Holds;
    StepTouches(s, t, a);
    assert Apart(s, u, v) && Apart(s, u, t) && Apart(s, v, u) && Apart(s, t, t);
    if u != v && t == v && s.threads[u].Creating? { NobodyElse(s, u, v, s.threads[u].c); }
    if u != v && t == u { NewUnknown(s, v); }
  }

  /** A queue that is being created is in no worker's hands. */
  lemma NobodyElse(s: State, u: nat, v: nat, c: Handle)
    requires Inv(s) && u < |s.threads| && v < |s.threads| && u != v && s.threads[u] == Creating(c)
    ensures s.threads[v] != HasQueue(c)
  {
    hide Inv, Total;
    GoodOwners(s, c);
    if s.threads[v] == HasQueue(c) {
      if u < v { TotalTwo(s.threads, u, v, Owns, c); } else { TotalTwo(s.threads, v, u, Owns, c); }
    }
  }

  lemma NewUnknown(s: State, v: nat)
    requires Inv(s) && v < |s.threads|
    ensures Holds(s.threads[v], Refs, s.next) == 0
  {
    hide Inv, Holds;
    if Holds(s.threads[v], Refs, s.next) > 0 { RefersTo(s, v, s.next); }
  }

  lemma {:induction false} PatientKeeps(s: State, run: Run)
    requires Inv(s) && Undisturbed(s) && PatientRun(s, run)
    ensures Possible(s, run)
    decreases |run|
  {
    hide Inv, Undisturbed, Step, Can, Safe, Patient, Sound;
    if run != [] {
      var (t, a) := run[0];
      UndisturbedSound(s, t, a);
      StepSafe(s, t, a);
      StepKeeps(s, t, a);
      StepUndisturbed(s, t, a);
      PatientKeeps(Step(s, t, a), run[1..]);
    }
  }

  /** With any number of threads, as long as nobody grabs a service before it has a queue, or retires it before
      its launch is over, no step touches what is freed or not set up. */
  lemma PatientSafe(n: nat, run: Run)
    requires PatientRun(Start(n), run)
    ensures Possible(Start(n), run)
  {
    hide Inv, PatientRun, Possible;
    StartGood(n);
    PatientKeeps(Start(n), run);
  }
}

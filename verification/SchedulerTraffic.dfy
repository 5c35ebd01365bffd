/** What is sent to a service and what becomes of it, read off the steps of a run. */
module SchedulerTraffic {
  import opened SchedulerModel
  import opened SchedulerProof
  import opened SchedulerRuns

  /** The message that a step sends to service `c`, if it does. */
  function SentBy(s: State, t: nat, a: Action, c: Handle): seq<Message>
    requires Can(s, t, a)
  {
    if s.threads[t] == Holding(c) && a.Send? then [a.m] else []
  }

  /** The message of service `c` that a step dispatches or drops, if it does. */
  function DoneBy(s: State, t: nat, a: Action, c: Handle): seq<Message>
    requires Can(s, t, a)
  {
    match s.threads[t]
    case Ready(q, m, _, _) => if q == c then [m] else []
    case Draining(q) => if q == c && c in s.queues && s.queues[c].msgs != [] then [s.queues[c].msgs[0]] else []
    case _ => []
  }

  /** All messages that a run sends to service `c`, */
  ghost function Sent(s: State, run: Run, c: Handle): seq<Message>
    requires Possible(s, run)
    decreases |run|
  {
    if run == [] then []
    else SentBy(s, run[0].0, run[0].1, c) + Sent(Step(s, run[0].0, run[0].1), run[1..], c)
  }

  /** and all that are dispatched or dropped. */
  ghost function Done(s: State, run: Run, c: Handle): seq<Message>
    requires Possible(s, run)
    decreases |run|
  {
    if run == [] then []
    else DoneBy(s, run[0].0, run[0].1, c) + Done(Step(s, run[0].0, run[0].1), run[1..], c)
  }

  /** A step writes what it sends into the log of messages sent, and what it dispatches or drops into the other. */
  ghost predicate Logs(s: State, t: nat, a: Action, c: Handle)
    requires Can(s, t, a) && Safe(s, t, a)
  {
    var s1 := Step(s, t, a);
    Log(s1.pushed, c) == Log(s.pushed, c) + SentBy(s, t, a, c) &&
    Log(s1.consumed, c) == Log(s.consumed, c) + DoneBy(s, t, a, c)
  }

  lemma StepLogs(s: State, t: nat, a: Action, c: Handle)
    requires Can(s, t, a) && Safe(s, t, a)
    ensures Logs(s, t, a, c)
  {
    hide Step, Safe, Logs;
    if Launches(s.threads[t]) { LaunchLogs(s, t, a, c); }
    else if Works(s.threads[t]) { WorkLogs(s, t, a, c); }
    else { OtherLogs(s, t, a, c); }
  }

  lemma LaunchLogs(s: State, t: nat, a: Action, c: Handle)
    requires Can(s, t, a) && Safe(s, t, a) && Launches(s.threads[t])
    ensures Logs(s, t, a, c)
  {
    hide Moves, Without, Halved, Continue, Accepting, Taken, Marked, Log;
    assert Step(s, t, a).pushed == s.pushed && Step(s, t, a).consumed == s.consumed;
  }

  lemma WorkLogs(s: State, t: nat, a: Action, c: Handle)
    requires Can(s, t, a) && Safe(s, t, a) && Works(s.threads[t])
    ensures Logs(s, t, a, c)
  {
    hide Step, Safe, Logs;
    if s.threads[t].Ready? || s.threads[t].Draining? { DoneLogs(s, t, a, c); } else { QuietLogs(s, t, a, c); }
  }

  lemma DoneLogs(s: State, t: nat, a: Action, c: Handle)
    requires Can(s, t, a) && Safe(s, t, a) && (s.threads[t].Ready? || s.threads[t].Draining?)
    ensures Logs(s, t, a, c)
  {
    hide Moves, Without, Halved, Continue;
    assert Step(s, t, a).pushed == s.pushed;
  }

  lemma QuietLogs(s: State, t: nat, a: Action, c: Handle)
    requires Can(s, t, a) && Safe(s, t, a) && Works(s.threads[t]) && !s.threads[t].Ready? && !s.threads[t].Draining?
    ensures Logs(s, t, a, c)
  {
    hide Moves, Without, Halved, Continue, Accepting, Taken, Marked, Log;
    assert Step(s, t, a).pushed == s.pushed && Step(s, t, a).consumed == s.consumed;
  }

  lemma OtherLogs(s: State, t: nat, a: Action, c: Handle)
    requires Can(s, t, a) && Safe(s, t, a) && !Launches(s.threads[t]) && !Works(s.threads[t])
    ensures Logs(s, t, a, c)
  {
    hide Step, Safe, Logs;
    if s.threads[t].Holding? { HolderLogs(s, t, a, c); } else { IdleLogs(s, t, a, c); }
  }

  lemma HolderLogs(s: State, t: nat, a: Action, c: Handle)
    requires Can(s, t, a) && Safe(s, t, a) && s.threads[t].Holding?
    ensures Logs(s, t, a, c)
  {
    hide Moves, Without, Halved, Continue;
  }

  lemma IdleLogs(s: State, t: nat, a: Action, c: Handle)
    requires Can(s, t, a) && Safe(s, t, a)
    requires s.threads[t].Idle? || s.threads[t].Releasing? || s.threads[t].Deleting?
    ensures Logs(s, t, a, c)
  {
    hide Moves, Without, Halved, Continue, Accepting, Taken, Marked, Log;
    assert Step(s, t, a).pushed == s.pushed && Step(s, t, a).consumed == s.consumed;
  }

  /** The logs hold what the steps send, dispatch and drop, and nothing else. */
  lemma {:induction false} RunLogs(s: State, run: Run, c: Handle)
    requires Possible(s, run)
    ensures Log(Final(s, run).pushed, c) == Log(s.pushed, c) + Sent(s, run, c)
    ensures Log(Final(s, run).consumed, c) == Log(s.consumed, c) + Done(s, run, c)
    decreases |run|
  {
    hide Step, Can, Safe, SentBy, DoneBy, Log;
    if run != [] {
      var (t, a) := run[0];
      StepLogs(s, t, a, c);
      RunLogs(Step(s, t, a), run[1..], c);
    }
  }

  /** In every run: the messages sent to a service are those dispatched or dropped, in the order in which they were
      sent, then the one that a worker has in hand, then those in its queue. */
  lemma Delivered(n: nat, run: Run, c: Handle)
    requires Possible(Start(n), run)
    ensures var s := Final(Start(n), run);
            Sent(Start(n), run, c) ==
              Done(Start(n), run, c) + InFlight(s.threads, c) + if c in s.queues then s.queues[c].msgs else []
  {
    hide Possible, Step, InFlight, SentBy, DoneBy, Sent, Done, Final;
    RunLogs(Start(n), run, c);
    assert [] + Sent(Start(n), run, c) == Sent(Start(n), run, c);
    assert [] + Done(Start(n), run, c) == Done(Start(n), run, c);
    assert Reachable(Final(Start(n), run));
    Conservation(Final(Start(n), run), c);
  }
}

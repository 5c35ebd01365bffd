/** Who owns what in the scheduler: the invariant behind its flags and reference counts. */
module SchedulerProof {
  import opened SchedulerModel

  // ---------------------------------------------------------------- what threads hold

  /** What to count: references to a context, threads about to delete it, threads that own its
      queue, among those its creator, and that one while there is no queue yet. */
  datatype Share = Refs | Deletes | Owns | Creates | Makes

  function Flag(b: bool): nat { if b then 1 else 0 }

  function HoldsAfter(c: Handle, then_: After, share: Share, h: Handle): nat {
    match then_
    case ToIdle => 0
    case ToQueue(q) => Flag(share == Owns && q == h)
    case ToRetire => Flag((share == Owns || share == Creates) && c == h)
    case ToMqRelease => Flag(share == Owns && c == h)
    case ToPublish => Flag(share == Owns && c == h)
  }

  function Holds(x: Thread, share: Share, h: Handle): nat {
    match x
    case Idle => 0
    case Holding(c) => Flag(share == Refs && c == h)
    case Releasing(c, then_) => Flag(share == Refs && c == h) + HoldsAfter(c, then_, share, h)
    case Deleting(c, then_) => Flag(share == Deletes && c == h) + HoldsAfter(c, then_, share, h)
    case HasQueue(q) => Flag(share == Owns && q == h)
    case Looping(q, _, _) => Flag((share == Owns || share == Refs) && q == h)
    case Popped(q, _, _, _) => Flag((share == Owns || share == Refs) && q == h)
    case Ready(q, _, _, _) => Flag((share == Owns || share == Refs) && q == h)
    case Switching(q, next) => Flag((share == Owns || share == Refs) && q == h) + Flag(share == Owns && next == h)
    case Orphan(q) => Flag(share == Owns && q == h)
    case Draining(q) => Flag(share == Owns && q == h)
    case Creating(c) => Flag(share != Deletes && c == h)
    case Launching(c) => Flag((share == Refs || share == Owns || share == Creates) && c == h)
    case Storing(c) => Flag((share == Owns || share == Creates) && c == h)
    case Publishing(c, _) => Flag(share == Owns && c == h)
    case Reporting(_) => 0
    case FailRetire(c) => Flag((share == Owns || share == Creates) && c == h)
  }

  function Total(threads: seq<Thread>, share: Share, h: Handle): nat {
    if threads == [] then 0 else Holds(threads[0], share, h) + Total(threads[1..], share, h)
  }

  /** The message a worker has taken out of queue `h`, if it has one. */
  function InHand(x: Thread, h: Handle): seq<Message> {
    match x
    case Popped(q, m, _, _) => if q == h then [m] else []
    case Ready(q, m, _, _) => if q == h then [m] else []
    case _ => []
  }

  function InFlight(threads: seq<Thread>, h: Handle): seq<Message> {
    if threads == [] then [] else InHand(threads[0], h) + InFlight(threads[1..], h)
  }

  lemma {:induction false} TotalUpdate(threads: seq<Thread>, t: nat, x: Thread, share: Share, h: Handle)
    requires t < |threads|
    ensures Total(threads, share, h) >= Holds(threads[t], share, h)
    ensures Total(threads[t := x], share, h) == Total(threads, share, h) - Holds(threads[t], share, h) +
            Holds(x, share, h)
  {
    hide Holds;
    if t > 0 {
      TotalUpdate(threads[1..], t - 1, x, share, h);
      assert threads[t := x][1..] == threads[1..][t - 1 := x];
    } else {
      assert threads[t := x][1..] == threads[1..];
    }
  }

  lemma {:induction false} TotalTwo(threads: seq<Thread>, t: nat, u: nat, share: Share, h: Handle)
    requires t < u < |threads|
    ensures Total(threads, share, h) >= Holds(threads[t], share, h) + Holds(threads[u], share, h)
  {
    hide Holds;
    if t == 0 { TotalUpdate(threads[1..], u - 1, Idle, share, h); }
    else { TotalTwo(threads[1..], t - 1, u - 1, share, h); }
  }

  /** Only an owner has a message in hand. */
  lemma {:induction false} NoOwnerNoMessage(threads: seq<Thread>, h: Handle)
    requires Total(threads, Owns, h) == 0
    ensures InFlight(threads, h) == []
  {
    if threads != [] { NoOwnerNoMessage(threads[1..], h); }
  }

  /** Nor has the creator of a service one before there is a queue. */
  lemma {:induction false} MakersHaveNone(threads: seq<Thread>, h: Handle)
    requires Total(threads, Owns, h) == Total(threads, Makes, h)
    ensures InFlight(threads, h) == []
  {
    if threads != [] {
      CreatorsOwn(threads[1..], h);
      MakersHaveNone(threads[1..], h);
    }
  }

  /** With one owner, what is in flight is what the owner has in hand. */
  lemma {:induction false} OwnersMessage(threads: seq<Thread>, t: nat, h: Handle)
    requires t < |threads| && Holds(threads[t], Owns, h) == 1 && Total(threads, Owns, h) == 1
    ensures InFlight(threads, h) == InHand(threads[t], h)
  {
    if t > 0 {
      TotalUpdate(threads[1..], t - 1, Idle, Owns, h);
      OwnersMessage(threads[1..], t - 1, h);
    } else {
      NoOwnerNoMessage(threads[1..], h);
    }
  }

  lemma {:induction false} InFlightUpdate(threads: seq<Thread>, t: nat, x: Thread, h: Handle)
    requires t < |threads| && InHand(x, h) == InHand(threads[t], h)
    ensures InFlight(threads[t := x], h) == InFlight(threads, h)
  {
    hide InHand;
    if t > 0 {
      InFlightUpdate(threads[1..], t - 1, x, h);
      assert threads[t := x][1..] == threads[1..][t - 1 := x];
    } else {
      assert threads[t := x][1..] == threads[1..];
    }
  }

  // ---------------------------------------------------------------- the invariant, service by service

  /** All there is to know about one service. */
  datatype Local = Local(
    known: bool, alive: bool, ref: nat, registered: bool, inited: bool,
    queued: bool, queue: Queue, listed: nat,
    refs: nat, deletes: nat, owns: nat, creates: nat, makes: nat,
    inFlight: seq<Message>, pushed: seq<Message>, consumed: seq<Message>)

  ghost function LocalOf(s: State, h: Handle): Local {
    Local(
      h < s.next, h in s.refs, if h in s.refs then s.refs[h] else 0, h in s.slots, h in s.inited,
      h in s.queues, if h in s.queues then s.queues[h] else Queue([], false, false), multiset(s.global)[h],
      Total(s.threads, Refs, h), Total(s.threads, Deletes, h), Total(s.threads, Owns, h), Total(s.threads, Creates, h),
      Total(s.threads, Makes, h), InFlight(s.threads, h), Log(s.pushed, h), Log(s.consumed, h))
  }

  /** Messages are consumed in the order in which they were accepted. */
  predicate InOrder(pushed: seq<Message>, consumed: seq<Message>, inFlight: seq<Message>, msgs: seq<Message>) {
    pushed == consumed + inFlight + msgs
  }

  lemma OneIn(pushed: seq<Message>, consumed: seq<Message>, inFlight: seq<Message>, msgs: seq<Message>, m: Message)
    requires InOrder(pushed, consumed, inFlight, msgs)
    ensures InOrder(pushed + [m], consumed, inFlight, msgs + [m])
  {
  }

  lemma OneOut(pushed: seq<Message>, consumed: seq<Message>, msgs: seq<Message>)
    requires msgs != [] && InOrder(pushed, consumed, [], msgs)
    ensures InOrder(pushed, consumed, [msgs[0]], msgs[1..])
  {
    assert msgs == [msgs[0]] + msgs[1..];
  }

  lemma HandDone(pushed: seq<Message>, consumed: seq<Message>, m: Message, msgs: seq<Message>)
    requires InOrder(pushed, consumed, [m], msgs)
    ensures InOrder(pushed, consumed + [m], [], msgs)
  {
  }

  /** The invariant. */
  ghost predicate Good(l: Local) {
    var owners := l.listed + l.owns;
    // A context is referred to by the table of handles and by the threads that have grabbed it;
    // when all references are gone, one thread is about to delete it.
    && (l.alive ==> l.known && !l.queue.release && l.ref == Flag(l.registered) + l.refs &&
                    l.deletes == Flag(l.ref == 0))
    && (!l.alive ==> !l.registered && l.refs == 0 && l.deletes == 0)
    // A queue has one owner at most, and the flag tells whether it has one.  A queue that holds
    // messages, or whose context is gone, is never without.
    && (l.queued ==> l.known && owners <= 1 && (owners == 0 ==> l.queue.msgs == []))
    && (l.queued && l.alive ==> (l.queue.inGlobal <==> owners == 1))
    && (l.queued && !l.alive ==> l.queue.release && owners == 1)
    // Without a queue there is no context either, or it is being created.
    && (l.queued ==> l.makes == 0)
    && (!l.queued ==> owners == l.owns == l.makes == Flag(l.alive))
    && (!l.known ==> l.pushed == [])
    && InOrder(l.pushed, l.consumed, l.inFlight, l.queue.msgs)
    // Until its init function has succeeded, a registered context is its creator's.
    && (l.registered && !l.inited ==> l.creates == 1)
  }

  ghost predicate ThreadOk(s: State, x: Thread) {
    && (x.Looping? || x.Popped? || x.Ready? || x.Switching? ==> x.q in s.inited)
    && (x.Draining? ==> x.q !in s.refs && x.q < s.next)
  }

  ghost predicate Inv(s: State) {
    && (forall h: Handle :: Good(LocalOf(s, h)))
    && ThreadsOk(s)
  }

  ghost predicate ThreadsOk(s: State) {
    forall t :: 0 <= t < |s.threads| ==> ThreadOk(s, s.threads[t])
  }

  // ---------------------------------------------------------------- what one step changes

  lemma GoodAt(s: State, h: Handle)
    requires Inv(s)
    ensures Good(LocalOf(s, h))
  {
  }

  /** Thread `t` passes from what it has to `x`. */
  ghost predicate Shifts(s: State, t: nat, x: Thread, share: Share, h: Handle)
    requires t < |s.threads|
  {
    && Total(s.threads, share, h) >= Holds(s.threads[t], share, h)
    && Total(s.threads[t := x], share, h) ==
         Total(s.threads, share, h) - Holds(s.threads[t], share, h) + Holds(x, share, h)
  }

  /** Only the thread that takes the step changes what threads hold. */
  lemma Shift(s: State, t: nat, x: Thread, h: Handle)
    requires t < |s.threads|
    ensures Shifts(s, t, x, Refs, h) && Shifts(s, t, x, Deletes, h) && Shifts(s, t, x, Owns, h) &&
            Shifts(s, t, x, Creates, h) && Shifts(s, t, x, Makes, h)
    ensures InHand(x, h) == InHand(s.threads[t], h) ==> InFlight(s.threads[t := x], h) == InFlight(s.threads, h)
  {
    hide Holds, InHand;
    TotalUpdate(s.threads, t, x, Refs, h);
    TotalUpdate(s.threads, t, x, Deletes, h);
    TotalUpdate(s.threads, t, x, Owns, h);
    TotalUpdate(s.threads, t, x, Creates, h);
    TotalUpdate(s.threads, t, x, Makes, h);
    if InHand(x, h) == InHand(s.threads[t], h) { InFlightUpdate(s.threads, t, x, h); }
  }

  lemma ListPushed(g: seq<Handle>, c: Handle, h: Handle)
    ensures multiset(g + [c])[h] == multiset(g)[h] + Flag(c == h)
  {
  }

  lemma ListPopped(g: seq<Handle>, h: Handle)
    requires g != []
    ensures multiset(g)[h] == multiset(g[1..])[h] + Flag(g[0] == h)
  {
    assert g == [g[0]] + g[1..];
  }

  lemma {:induction false} CreatorsOwn(threads: seq<Thread>, h: Handle)
    ensures Total(threads, Makes, h) <= Total(threads, Creates, h) <= Total(threads, Owns, h)
    ensures Total(threads, Makes, h) <= Total(threads, Refs, h)
  {
    if threads != [] { CreatorsOwn(threads[1..], h); }
  }

  /** A registered service whose queue another thread owns has been initialized. */
  lemma OthersInited(s: State, t: nat, h: Handle)
    requires Inv(s) && t < |s.threads| && Holds(s.threads[t], Owns, h) == 1 && Holds(s.threads[t], Creates, h) == 0 &&
             h in s.slots
    ensures h in s.inited
  {
    hide Good;
    Shift(s, t, Idle, h);
    CreatorsOwn(s.threads[t := Idle], h);
    GoodOwners(s, h);
  }

  lemma GoodOwners(s: State, h: Handle)
    requires Inv(s)
    ensures multiset(s.global)[h] + Total(s.threads, Owns, h) <= 1
    ensures h in s.slots && h !in s.inited ==> Total(s.threads, Creates, h) == 1
  {
    GoodAt(s, h);
  }

  lemma ThreadsStay(s: State, s1: State, t: nat, x: Thread)
    requires ThreadsOk(s) && t < |s.threads| && s1.threads == s.threads[t := x] && ThreadOk(s1, x)
    requires s.inited <= s1.inited && s.next <= s1.next && s1.refs.Keys <= s.refs.Keys + {s.next}
    ensures ThreadsOk(s1)
  {
    forall u | 0 <= u < |s1.threads| ensures ThreadOk(s1, s1.threads[u]) {
      if u != t { assert ThreadOk(s, s.threads[u]); }
    }
  }

  /** A thread that refers to a context keeps it alive. */
  lemma RefersTo(s: State, t: nat, c: Handle)
    requires Inv(s) && t < |s.threads| && Holds(s.threads[t], Refs, c) > 0
    ensures c in s.refs && s.refs[c] > 0 && c < s.next
    ensures c in s.queues <==> Total(s.threads, Makes, c) == 0
    ensures c in s.queues ==> !s.queues[c].release
  {
    GoodAt(s, c);
    Shift(s, t, Idle, c);
  }

  lemma IsDeleting(s: State, t: nat, c: Handle)
    requires Inv(s) && t < |s.threads| && Holds(s.threads[t], Deletes, c) > 0
    ensures c in s.refs && s.refs[c] == 0 && c in s.queues && !s.queues[c].release
  {
    GoodAt(s, c);
    Shift(s, t, Idle, c);
    CreatorsOwn(s.threads, c);
  }

  /** A thread that owns a queue is its only owner. */
  lemma OwnerOf(s: State, t: nat, q: Handle)
    requires Inv(s) && t < |s.threads| && Holds(s.threads[t], Owns, q) > 0 && Holds(s.threads[t], Makes, q) == 0
    ensures q in s.queues && q !in s.global && Holds(s.threads[t], Owns, q) == Total(s.threads, Owns, q) == 1
    ensures q in s.refs ==> s.queues[q].inGlobal
    ensures InFlight(s.threads, q) == InHand(s.threads[t], q)
  {
    GoodAt(s, q);
    Shift(s, t, Idle, q);
    CreatorsOwn(s.threads[t := Idle], q);
    OwnersMessage(s.threads, t, q);
  }

  /** The creator of a queue is its only owner, too. */
  lemma MakerOf(s: State, t: nat, c: Handle)
    requires Inv(s) && t < |s.threads| && Holds(s.threads[t], Makes, c) > 0
    ensures c in s.refs && c !in s.queues
  {
    GoodAt(s, c);
    Shift(s, t, Idle, c);
  }

  /** A context has not been freed if and only if it is registered, referred to, or about to be deleted. */
  predicate Referred(s: State, c: Handle) {
    c in s.slots || Total(s.threads, Refs, c) > 0 || Total(s.threads, Deletes, c) > 0
  }

  lemma AliveReferred(s: State, c: Handle)
    requires Inv(s)
    ensures c in s.refs <==> Referred(s, c)
  {
    GoodAt(s, c);
  }

  /** All that can go wrong: a message is sent to a service that has no queue yet, or the creator of a
      service, which no longer refers to it, finds it gone. */
  predicate Sound(s: State, t: nat, a: Action)
    requires Can(s, t, a)
  {
    match s.threads[t]
    case Holding(c) => a.Send? ==> Total(s.threads, Makes, c) == 0
    case Storing(c) => Referred(s, c)
    case Reporting(c) => Referred(s, c)
    case _ => true
  }

  /** Contexts in the table and queues in the global list are there. */
  lemma AllThere(s: State)
    requires Inv(s)
    ensures TableThere(s) && HeadThere(s) && TailThere(s)
  {
    hide Inv;
    forall c | c in s.slots ensures c in s.refs { RegisteredAlive(s, c); }
    if s.global != [] {
      ListedThere(s, s.global[0]);
      ListedThere(s, s.global[|s.global| - 1]);
    }
  }

  lemma ListedThere(s: State, q: Handle)
    requires Inv(s) && q in s.global
    ensures q in s.queues
  {
    hide Inv, Total;
    GoodAt(s, q);
  }

  /** What a step relies on is there, if and only if none of this happens. */
  lemma StepSafe(s: State, t: nat, a: Action)
    requires Inv(s) && Can(s, t, a)
    ensures Safe(s, t, a) <==> Sound(s, t, a)
  {
    hide Inv, Holds, Total, Referred, TableThere, HeadThere, TailThere;
    AllThere(s);
    InvThread(s, t);
    HoldsSomething(s.threads[t]);
    match s.threads[t]
    case Holding(c) => RefersTo(s, t, c);
    case Releasing(c, _) => RefersTo(s, t, c);
    case Deleting(c, _) => IsDeleting(s, t, c);
    case HasQueue(q) => OwnerOf(s, t, q);
    case Looping(q, _, _) => RefersTo(s, t, q); OwnerOf(s, t, q);
    case Popped(q, _, _, _) => RefersTo(s, t, q); OwnerOf(s, t, q);
    case Ready(q, _, _, _) => RefersTo(s, t, q);
    case Switching(q, _) => RefersTo(s, t, q); OwnerOf(s, t, q);
    case Orphan(q) => OwnerOf(s, t, q);
    case Draining(q) => OwnerOf(s, t, q);
    case Creating(c) => MakerOf(s, t, c);
    case Launching(c) => RefersTo(s, t, c); OwnerOf(s, t, c);
    case Storing(c) => AliveReferred(s, c);
    case Publishing(c, _) => OwnerOf(s, t, c);
    case Reporting(c) => AliveReferred(s, c);
    case _ =>
  }

  lemma InvThread(s: State, t: nat)
    requires Inv(s) && t < |s.threads|
    ensures ThreadOk(s, s.threads[t])
  {
  }

  lemma RegisteredAlive(s: State, h: Handle)
    requires Inv(s) && h in s.slots
    ensures h in s.refs
  {
    GoodAt(s, h);
  }

  lemma HoldsSomething(x: Thread)
    ensures x.Holding? || x.Releasing? ==> Holds(x, Refs, x.c) > 0
    ensures x.Looping? || x.Popped? || x.Ready? || x.Switching? ==> Holds(x, Refs, x.q) > 0 && Holds(x, Owns, x.q) > 0
    ensures x.Launching? ==> Holds(x, Refs, x.c) > 0
    ensures x.Deleting? ==> Holds(x, Deletes, x.c) > 0
    ensures x.HasQueue? || x.Orphan? || x.Draining? ==> Holds(x, Owns, x.q) > 0
    ensures x.Launching? || x.Storing? || x.Publishing? || x.FailRetire? ==> Holds(x, Owns, x.c) > 0
    ensures x.Creating? ==> Holds(x, Makes, x.c) > 0
    ensures !x.Creating? ==> forall h :: Holds(x, Makes, h) == 0
  {
  }

  // ---------------------------------------------------------------- every step keeps the invariant

  /** The only owner of a queue goes on, and still owns it. */
  lemma OwnerAfter(s: State, t: nat, x: Thread, q: Handle)
    requires Inv(s) && t < |s.threads| && Holds(s.threads[t], Owns, q) > 0 && Holds(s.threads[t], Makes, q) == 0 &&
             Holds(x, Owns, q) == 1
    ensures InFlight(s.threads[t := x], q) == InHand(x, q)
  {
    hide Inv;
    OwnerOf(s, t, q);
    Shift(s, t, x, q);
    OwnersMessage(s.threads[t := x], t, q);
  }

  lemma Logged(log: map<Handle, seq<Message>>, c: Handle, ms: seq<Message>, h: Handle)
    ensures Log(log[c := Log(log, c) + ms], h) == if h == c then Log(log, c) + ms else Log(log, h)
  {
  }

  lemma GrabAt(s: State, t: nat, g: Handle, h: Handle)
    requires Inv(s) && t < |s.threads| && s.threads[t].Idle? && (g in s.slots ==> g in s.refs)
    ensures Good(LocalOf(DoGrab(s, t, g), h))
  {
    hide Inv, InOrder, Total, InFlight, Moves, Log;
    var s1 := DoGrab(s, t, g);
    GoodAt(s, h);
    Shift(s, t, s1.threads[t], h);
  }

  lemma TakeAt(s: State, t: nat, h: Handle)
    requires Inv(s) && t < |s.threads| && s.threads[t].Idle?
    ensures Good(LocalOf(DoTake(s, t), h))
  {
    hide Inv, InOrder, Total, InFlight, Moves, Log;
    var s1 := DoTake(s, t);
    GoodAt(s, h);
    Shift(s, t, s1.threads[t], h);
    if s.global != [] { ListPopped(s.global, h); }
  }

  lemma LaunchAt(s: State, t: nat, h: Handle)
    requires Inv(s) && t < |s.threads| && s.threads[t].Idle?
    ensures Good(LocalOf(DoLaunch(s, t), h))
  {
    hide Inv, InOrder, Total, InFlight, Moves, Log;
    var s1 := DoLaunch(s, t);
    GoodAt(s, h);
    Shift(s, t, s1.threads[t], h);
    CreatorsOwn(s.threads, h);
  }

  lemma RetireAt(s: State, t: nat, g: Handle, h: Handle)
    requires Inv(s) && t < |s.threads| && s.threads[t].Idle?
    ensures Good(LocalOf(DoRetire(s, t, g), h))
  {
    hide Inv, InOrder, Total, InFlight, Moves, Log;
    var s1 := DoRetire(s, t, g);
    GoodAt(s, h);
    Shift(s, t, s1.threads[t], h);
  }

  lemma SendAt(s: State, t: nat, c: Handle, m: Message, h: Handle)
    requires Inv(s) && t < |s.threads| && s.threads[t] == Holding(c) && c in s.refs && c in s.queues
    ensures Good(LocalOf(DoSend(s, t, c, m), h))
  {
    hide Inv, InOrder, Total, InFlight, Moves, Log;
    var s1 := DoSend(s, t, c, m);
    GoodAt(s, h);
    Shift(s, t, s1.threads[t], h);
    ListPushed(s.global, c, h);
    Logged(s.pushed, c, [m], h);
    if h == c { OneIn(Log(s.pushed, c), Log(s.consumed, c), InFlight(s.threads, c), s.queues[c].msgs, m); }
  }

  lemma LetGoAt(s: State, t: nat, c: Handle, h: Handle)
    requires Inv(s) && t < |s.threads| && s.threads[t] == Holding(c)
    ensures Good(LocalOf(Become(s, t, Releasing(c, ToIdle)), h))
  {
    hide Inv, InOrder, Total, InFlight, Moves, Log;
    var s1 := Become(s, t, Releasing(c, ToIdle));
    GoodAt(s, h);
    Shift(s, t, s1.threads[t], h);
  }

  lemma ContinueHolds(c: Handle, then_: After, h: Handle)
    ensures forall share :: Holds(Continue(c, then_), share, h) == HoldsAfter(c, then_, share, h)
    ensures InHand(Continue(c, then_), h) == []
  {
  }

  lemma ReleaseAt(s: State, t: nat, c: Handle, then_: After, h: Handle)
    requires Inv(s) && t < |s.threads| && s.threads[t] == Releasing(c, then_) && c in s.refs && s.refs[c] > 0
    ensures Good(LocalOf(DoRelease(s, t, c, then_), h))
  {
    hide Inv, InOrder, Total, InFlight, HoldsAfter, Continue, Moves;
    var s1 := DoRelease(s, t, c, then_);
    GoodAt(s, h);
    ContinueHolds(c, then_, h);
    Shift(s, t, s1.threads[t], h);
  }

  lemma DeleteAt(s: State, t: nat, c: Handle, then_: After, h: Handle)
    requires Inv(s) && t < |s.threads| && s.threads[t] == Deleting(c, then_) && c in s.queues
    ensures Good(LocalOf(DoDelete(s, t, c, then_), h))
  {
    hide Inv, InOrder, Total, InFlight, HoldsAfter, Continue, Moves;
    var s1 := DoDelete(s, t, c, then_);
    GoodAt(s, h);
    ContinueHolds(c, then_, h);
    Shift(s, t, s1.threads[t], h);
    ListPushed(s.global, c, h);
  }

  lemma GrabOwnAt(s: State, t: nat, q: Handle, h: Handle)
    requires Inv(s) && t < |s.threads| && s.threads[t] == HasQueue(q) && (q in s.slots ==> q in s.refs)
    ensures Good(LocalOf(DoGrabOwn(s, t, q), h))
  {
    hide Inv, Good, LocalOf;
    if q in s.slots { ChargeAt(s, t, q, h); } else { NoContextAt(s, t, q, h); }
  }

  lemma ChargeAt(s: State, t: nat, q: Handle, h: Handle)
    requires Inv(s) && t < |s.threads| && s.threads[t] == HasQueue(q) && q in s.slots && q in s.refs
    ensures Good(LocalOf(Become(s.(refs := s.refs[q := s.refs[q] + 1]), t, Looping(q, 0, 1)), h))
  {
    hide Inv, InOrder, Total, InFlight, Log;
    GoodAt(s, h);
    Shift(s, t, Looping(q, 0, 1), h);
  }

  lemma NoContextAt(s: State, t: nat, q: Handle, h: Handle)
    requires Inv(s) && t < |s.threads| && s.threads[t] == HasQueue(q)
    ensures Good(LocalOf(Become(s, t, Orphan(q)), h))
  {
    hide Inv, InOrder, Total, InFlight, Log;
    GoodAt(s, h);
    Shift(s, t, Orphan(q), h);
  }

  lemma PopAt(s: State, t: nat, q: Handle, i: nat, n: nat, h: Handle)
    requires Inv(s) && t < |s.threads| && s.threads[t] == Looping(q, i, n) && q in s.queues && q in s.refs
    ensures Good(LocalOf(DoPop(s, t, q, i, n), h))
  {
    hide Inv, Good, LocalOf;
    if s.queues[q].msgs == [] { PopEmptyAt(s, t, q, i, n, h); } else { PopOneAt(s, t, q, i, n, h); }
  }

  /** A worker that finds its queue empty gives it up. */
  lemma PopEmptyAt(s: State, t: nat, q: Handle, i: nat, n: nat, h: Handle)
    requires Inv(s) && t < |s.threads| && s.threads[t] == Looping(q, i, n) && q in s.queues && q in s.refs &&
             s.queues[q].msgs == []
    ensures Good(LocalOf(Become(s.(queues := s.queues[q := Taken(s.queues[q])]), t, Releasing(q, ToIdle)), h))
  {
    hide Inv, InOrder, Total, InFlight, Moves, Log;
    GoodAt(s, h);
    Shift(s, t, Releasing(q, ToIdle), h);
    OwnerOf(s, t, q);
  }

  lemma PopOneAt(s: State, t: nat, q: Handle, i: nat, n: nat, h: Handle)
    requires Inv(s) && t < |s.threads| && s.threads[t] == Looping(q, i, n) && q in s.queues && q in s.refs &&
             s.queues[q].msgs != []
    ensures var mq := s.queues[q];
            Good(LocalOf(Become(s.(queues := s.queues[q := Taken(mq)]), t, Popped(q, mq.msgs[0], i, n)), h))
  {
    hide Inv, InOrder, Total, InFlight, Log;
    var x := Thread.Popped(q, s.queues[q].msgs[0], i, n);
    GoodAt(s, h);
    Shift(s, t, x, h);
    if h == q { TakenOut(s, t, q, i, n); }
  }

  /** The message that is taken out of the queue is then in hand. */
  lemma TakenOut(s: State, t: nat, q: Handle, i: nat, n: nat)
    requires Inv(s) && t < |s.threads| && s.threads[t] == Looping(q, i, n) && q in s.queues && s.queues[q].msgs != []
    ensures var msgs := s.queues[q].msgs;
            InOrder(Log(s.pushed, q), Log(s.consumed, q), InFlight(s.threads[t := Thread.Popped(q, msgs[0], i, n)], q),
                    msgs[1..])
    ensures q !in s.global && Total(s.threads, Owns, q) == 1
  {
    hide Inv, InOrder, Total, InFlight, Log;
    GoodAt(s, q);
    OwnerOf(s, t, q);
    OwnerAfter(s, t, Thread.Popped(q, s.queues[q].msgs[0], i, n), q);
    OneOut(Log(s.pushed, q), Log(s.consumed, q), s.queues[q].msgs);
  }

  lemma EndLoopAt(s: State, t: nat, q: Handle, i: nat, n: nat, h: Handle)
    requires Inv(s) && t < |s.threads| && s.threads[t] == Looping(q, i, n)
    ensures Good(LocalOf(DoEndLoop(s, t, q), h))
  {
    hide Inv, Good, LocalOf;
    if s.global == [] { KeepAt(s, t, q, i, n, h); } else { SwitchAt(s, t, q, i, n, h); }
  }

  lemma KeepAt(s: State, t: nat, q: Handle, i: nat, n: nat, h: Handle)
    requires Inv(s) && t < |s.threads| && s.threads[t] == Looping(q, i, n)
    ensures Good(LocalOf(Become(s, t, Releasing(q, ToQueue(q))), h))
  {
    hide Inv, InOrder, Total, InFlight, Moves, Log;
    GoodAt(s, h);
    Shift(s, t, Releasing(q, ToQueue(q)), h);
  }

  lemma SwitchAt(s: State, t: nat, q: Handle, i: nat, n: nat, h: Handle)
    requires Inv(s) && t < |s.threads| && s.threads[t] == Looping(q, i, n) && s.global != []
    ensures Good(LocalOf(Become(s.(global := s.global[1..]), t, Switching(q, s.global[0])), h))
  {
    hide Inv, InOrder, Total, InFlight, Moves, Log;
    GoodAt(s, h);
    Shift(s, t, Switching(q, s.global[0]), h);
    OwnerOf(s, t, q);
    ListPopped(s.global, h);
  }

  lemma MeasureAt(s: State, t: nat, q: Handle, m: Message, i: nat, n: nat, weight: int, h: Handle)
    requires Inv(s) && t < |s.threads| && s.threads[t] == Popped(q, m, i, n) && q in s.queues
    ensures Good(LocalOf(DoMeasure(s, t, q, m, i, n, weight), h))
  {
    hide Inv, InOrder, Total, InFlight, Moves, Log;
    var s1 := DoMeasure(s, t, q, m, i, n, weight);
    GoodAt(s, h);
    Shift(s, t, s1.threads[t], h);
  }

  lemma DispatchAt(s: State, t: nat, q: Handle, m: Message, i: nat, n: nat, h: Handle)
    requires Inv(s) && t < |s.threads| && s.threads[t] == Ready(q, m, i, n)
    ensures Good(LocalOf(DoDispatch(s, t, q, m, i, n), h))
  {
    hide Inv, InOrder, Total, InFlight, Moves, Log;
    GoodAt(s, h);
    Shift(s, t, Looping(q, i + 1, n), h);
    Logged(s.consumed, q, [m], h);
    if h == q {
      OwnerOf(s, t, q);
      OwnerAfter(s, t, Looping(q, i + 1, n), q);
      HandDone(Log(s.pushed, q), Log(s.consumed, q), m, s.queues[q].msgs);
    }
  }

  lemma PutBackAt(s: State, t: nat, q: Handle, next: Handle, h: Handle)
    requires Inv(s) && t < |s.threads| && s.threads[t] == Switching(q, next)
    ensures Good(LocalOf(DoPutBack(s, t, q, next), h))
  {
    hide Inv, InOrder, Total, InFlight, Moves, Log;
    var s1 := DoPutBack(s, t, q, next);
    GoodAt(s, h);
    Shift(s, t, s1.threads[t], h);
    OwnerOf(s, t, q);
    ListPushed(s.global, q, h);
  }

  lemma MqReleaseAt(s: State, t: nat, q: Handle, h: Handle)
    requires Inv(s) && t < |s.threads| && s.threads[t] == Orphan(q) && q in s.queues
    ensures Good(LocalOf(DoMqRelease(s, t, q), h))
  {
    hide Inv, Good, LocalOf;
    if s.queues[q].release { DrainStartAt(s, t, q, h); } else { PutOrphanAt(s, t, q, h); }
  }

  lemma DrainStartAt(s: State, t: nat, q: Handle, h: Handle)
    requires Inv(s) && t < |s.threads| && s.threads[t] == Orphan(q)
    ensures Good(LocalOf(Become(s, t, Draining(q)), h))
  {
    hide Inv, InOrder, Total, InFlight, Moves, Log;
    GoodAt(s, h);
    Shift(s, t, Draining(q), h);
  }

  lemma PutOrphanAt(s: State, t: nat, q: Handle, h: Handle)
    requires Inv(s) && t < |s.threads| && s.threads[t] == Orphan(q)
    ensures Good(LocalOf(Become(s.(global := s.global + [q]), t, Idle), h))
  {
    hide Inv, InOrder, Total, InFlight, Moves, Log;
    GoodAt(s, h);
    Shift(s, t, Idle, h);
    OwnerOf(s, t, q);
    ListPushed(s.global, q, h);
  }

  lemma DrainAt(s: State, t: nat, q: Handle, h: Handle)
    requires Inv(s) && t < |s.threads| && s.threads[t] == Draining(q) && q in s.queues
    ensures Good(LocalOf(DoDrain(s, t, q), h))
  {
    hide Inv, Good, LocalOf;
    if s.queues[q].msgs == [] { DrainEndAt(s, t, q, h); } else { DrainOneAt(s, t, q, h); }
  }

  lemma DrainEndAt(s: State, t: nat, q: Handle, h: Handle)
    requires Inv(s) && t < |s.threads| && s.threads[t] == Draining(q) && q in s.queues && s.queues[q].msgs == []
    ensures Good(LocalOf(Become(s.(queues := Without(s.queues, q)), t, Idle), h))
  {
    hide Inv, Total, InFlight, Moves, Log;
    GoodAt(s, h);
    Shift(s, t, Idle, h);
    OwnerOf(s, t, q);
    InvThread(s, t);
  }

  lemma DrainOneAt(s: State, t: nat, q: Handle, h: Handle)
    requires Inv(s) && t < |s.threads| && s.threads[t] == Draining(q) && q in s.queues && s.queues[q].msgs != []
    ensures Good(LocalOf(DoDrain(s, t, q), h))
  {
    hide Inv, InOrder, Total, InFlight, Moves, Log;
    var msgs := s.queues[q].msgs;
    GoodAt(s, h);
    OwnerOf(s, t, q);
    Logged(s.consumed, q, [msgs[0]], h);
    if h == q {
      OneOut(Log(s.pushed, q), Log(s.consumed, q), msgs);
      HandDone(Log(s.pushed, q), Log(s.consumed, q), msgs[0], msgs[1..]);
    }
  }

  lemma CreateAt(s: State, t: nat, c: Handle, h: Handle)
    requires Inv(s) && t < |s.threads| && s.threads[t] == Creating(c) && c in s.refs && c !in s.queues
    ensures Good(LocalOf(DoCreate(s, t, c), h))
  {
    hide Inv, InOrder, Total, InFlight, Moves, Log;
    GoodAt(s, h);
    Shift(s, t, Launching(c), h);
  }

  lemma LaunchOkAt(s: State, t: nat, c: Handle, h: Handle)
    requires Inv(s) && t < |s.threads| && s.threads[t] == Launching(c) && c in s.refs && s.refs[c] > 0
    ensures Good(LocalOf(DoLaunchOk(s, t, c), h))
  {
    hide Inv, InOrder, Total, InFlight, Moves, Log;
    var s1 := DoLaunchOk(s, t, c);
    GoodAt(s, h);
    Shift(s, t, s1.threads[t], h);
  }

  lemma StoreAt(s: State, t: nat, c: Handle, h: Handle)
    requires Inv(s) && t < |s.threads| && s.threads[t] == Storing(c)
    ensures Good(LocalOf(DoStore(s, t, c), h))
  {
    hide Inv, InOrder, Total, InFlight, Moves, Log;
    GoodAt(s, h);
    Shift(s, t, Publishing(c, true), h);
  }

  lemma PublishAt(s: State, t: nat, c: Handle, report: bool, h: Handle)
    requires Inv(s) && t < |s.threads| && s.threads[t] == Publishing(c, report)
    ensures Good(LocalOf(DoPublish(s, t, c, report), h))
  {
    hide Inv, InOrder, Total, InFlight, Moves, Log;
    var x := if report then Reporting(c) else Idle;
    GoodAt(s, h);
    Shift(s, t, x, h);
    OwnerOf(s, t, c);
    ListPushed(s.global, c, h);
  }

  lemma ReportAt(s: State, t: nat, c: Handle, h: Handle)
    requires Inv(s) && t < |s.threads| && s.threads[t] == Reporting(c)
    ensures Good(LocalOf(Become(s, t, Idle), h))
  {
    hide Inv, InOrder, Total, InFlight, Moves, Log;
    GoodAt(s, h);
    Shift(s, t, Idle, h);
  }

  lemma LaunchFailAt(s: State, t: nat, c: Handle, h: Handle)
    requires Inv(s) && t < |s.threads| && s.threads[t] == Launching(c)
    ensures Good(LocalOf(Become(s, t, Releasing(c, ToRetire)), h))
  {
    hide Inv, InOrder, Total, InFlight, Moves, Log;
    var s1 := Become(s, t, Releasing(c, ToRetire));
    GoodAt(s, h);
    Shift(s, t, s1.threads[t], h);
  }

  lemma RetireOwnAt(s: State, t: nat, c: Handle, h: Handle)
    requires Inv(s) && t < |s.threads| && s.threads[t] == FailRetire(c)
    ensures Good(LocalOf(DoRetireOwn(s, t, c), h))
  {
    hide Inv, Good, LocalOf;
    if c in s.slots { UnregisterAt(s, t, c, h); } else { OrphanAt(s, t, c, h); }
  }

  lemma UnregisterAt(s: State, t: nat, c: Handle, h: Handle)
    requires Inv(s) && t < |s.threads| && s.threads[t] == FailRetire(c) && c in s.slots
    ensures Good(LocalOf(Become(s.(slots := s.slots - {c}), t, Releasing(c, ToMqRelease)), h))
  {
    hide Inv, InOrder, Total, InFlight, Moves, Log;
    GoodAt(s, h);
    Shift(s, t, Releasing(c, ToMqRelease), h);
  }

  lemma OrphanAt(s: State, t: nat, c: Handle, h: Handle)
    requires Inv(s) && t < |s.threads| && s.threads[t] == FailRetire(c) && c !in s.slots
    ensures Good(LocalOf(Become(s, t, Orphan(c)), h))
  {
    hide Inv, InOrder, Total, InFlight, Moves, Log;
    GoodAt(s, h);
    Shift(s, t, Orphan(c), h);
  }

  /** Threads that launch a service. */
  predicate Launches(x: Thread) {
    x.Creating? || x.Launching? || x.Storing? || x.Publishing? || x.Reporting? || x.FailRetire?
  }

  lemma StepGood(s: State, t: nat, a: Action, h: Handle)
    requires Inv(s) && Can(s, t, a) && Safe(s, t, a)
    ensures Good(LocalOf(Step(s, t, a), h))
  {
    hide Inv, Good, LocalOf, Step, Safe;
    if Launches(s.threads[t]) { LaunchStepGood(s, t, a, h); }
    else if Works(s.threads[t]) { WorkStepGood(s, t, a, h); }
    else { OtherStepGood(s, t, a, h); }
  }

  lemma LaunchStepGood(s: State, t: nat, a: Action, h: Handle)
    requires Inv(s) && Can(s, t, a) && Safe(s, t, a) && Launches(s.threads[t])
    ensures Good(LocalOf(Step(s, t, a), h))
  {
    hide Inv, Good, LocalOf, DoGrab, DoTake, DoLaunch, DoRetire, DoSend, DoRelease, DoDelete, DoGrabOwn, DoPop,
      DoEndLoop, DoMeasure, DoDispatch, DoPutBack, DoMqRelease, DoDrain, DoCreate, DoLaunchOk, DoStore, DoPublish,
      DoRetireOwn, Become, Moves;
    match s.threads[t]
    case Creating(c) => CreateAt(s, t, c, h);
    case Launching(c) => if a.LaunchOk? { LaunchOkAt(s, t, c, h); } else { LaunchFailAt(s, t, c, h); }
    case Storing(c) => StoreAt(s, t, c, h);
    case Publishing(c, report) => PublishAt(s, t, c, report, h);
    case Reporting(c) => ReportAt(s, t, c, h);
    case FailRetire(c) => RetireOwnAt(s, t, c, h);
  }

  /** Workers that have a queue. */
  predicate Works(x: Thread) {
    x.HasQueue? || x.Looping? || x.Popped? || x.Ready? || x.Switching? || x.Orphan? || x.Draining?
  }

  lemma WorkStepGood(s: State, t: nat, a: Action, h: Handle)
    requires Inv(s) && Can(s, t, a) && Safe(s, t, a) && Works(s.threads[t])
    ensures Good(LocalOf(Step(s, t, a), h))
  {
    hide Inv, Good, LocalOf, DoGrab, DoTake, DoLaunch, DoRetire, DoSend, DoRelease, DoDelete, DoGrabOwn, DoPop,
      DoEndLoop, DoMeasure, DoDispatch, DoPutBack, DoMqRelease, DoDrain, DoCreate, DoLaunchOk, DoStore, DoPublish,
      DoRetireOwn, Become, Moves;
    match s.threads[t]
    case HasQueue(q) => GrabOwnAt(s, t, q, h);
    case Looping(q, i, n) => if i < n { PopAt(s, t, q, i, n, h); } else { EndLoopAt(s, t, q, i, n, h); }
    case Popped(q, m, i, n) => MeasureAt(s, t, q, m, i, n, a.weight, h);
    case Ready(q, m, i, n) => DispatchAt(s, t, q, m, i, n, h);
    case Switching(q, next) => PutBackAt(s, t, q, next, h);
    case Orphan(q) => MqReleaseAt(s, t, q, h);
    case Draining(q) => DrainAt(s, t, q, h);
  }

  lemma OtherStepGood(s: State, t: nat, a: Action, h: Handle)
    requires Inv(s) && Can(s, t, a) && Safe(s, t, a) && !Launches(s.threads[t]) && !Works(s.threads[t])
    ensures Good(LocalOf(Step(s, t, a), h))
  {
    hide Inv, Good, LocalOf, DoGrab, DoTake, DoLaunch, DoRetire, DoSend, DoRelease, DoDelete, DoGrabOwn, DoPop,
      DoEndLoop, DoMeasure, DoDispatch, DoPutBack, DoMqRelease, DoDrain, DoCreate, DoLaunchOk, DoStore, DoPublish,
      DoRetireOwn, Become, Moves;
    match s.threads[t]
    case Idle =>
      match a {
       case Grab(g) => GrabAt(s, t, g, h);
       case TakeQueue => TakeAt(s, t, h);
       case Launch => LaunchAt(s, t, h);
       case Retire(g) => RetireAt(s, t, g, h);
       case _ =>
      }
    case Holding(c) => if a.Send? { SendAt(s, t, c, a.m, h); } else { LetGoAt(s, t, c, h); }
    case Releasing(c, then_) => ReleaseAt(s, t, c, then_, h);
    case Deleting(c, then_) => DeleteAt(s, t, c, then_, h);
  }

  lemma NewThread(s: State, t: nat, a: Action)
    requires Inv(s) && Can(s, t, a) && Safe(s, t, a)
    ensures ThreadOk(Step(s, t, a), Step(s, t, a).threads[t])
  {
    hide Inv, Step, Safe;
    InvThread(s, t);
    var x := s.threads[t];
    if x.HasQueue? || x.Orphan? {
      if x.HasQueue? && x.q in s.slots { HasQueueOwns(s, t); OthersInited(s, t, x.q); }
      if x.Orphan? { OrphanDead(s, t); }
      TakesCharge(s, t, a);
    } else if x.Looping? || x.Popped? || x.Ready? || x.Draining? {
      GoesOn(s, t, a);
    } else {
      TakesNothing(s, t, a);
    }
  }

  lemma TakesCharge(s: State, t: nat, a: Action)
    requires Can(s, t, a) && Safe(s, t, a) && ThreadOk(s, s.threads[t]) &&
             (s.threads[t].HasQueue? || s.threads[t].Orphan?)
    requires s.threads[t].HasQueue? && s.threads[t].q in s.slots ==> s.threads[t].q in s.inited
    requires s.threads[t].Orphan? ==> s.threads[t].q < s.next &&
                                      (s.queues[s.threads[t].q].release ==> s.threads[t].q !in s.refs)
    ensures ThreadOk(Step(s, t, a), Step(s, t, a).threads[t])
  {
  }

  lemma GoesOn(s: State, t: nat, a: Action)
    requires Can(s, t, a) && Safe(s, t, a) && ThreadOk(s, s.threads[t])
    requires var x := s.threads[t]; x.Looping? || x.Popped? || x.Ready? || x.Draining?
    ensures ThreadOk(Step(s, t, a), Step(s, t, a).threads[t])
  {
    hide Halved, Log, Without, Moves;
  }

  lemma TakesNothing(s: State, t: nat, a: Action)
    requires Can(s, t, a) && Safe(s, t, a)
    requires var x := s.threads[t]; !x.HasQueue? && !x.Orphan? && !x.Looping? && !x.Popped? && !x.Ready? && !x.Draining?
    ensures ThreadOk(Step(s, t, a), Step(s, t, a).threads[t])
  {
    hide Step, Safe, ThreadOk;
    if s.threads[t].Idle? { IdleTakesNothing(s, t, a); }
    else if s.threads[t].Holding? || s.threads[t].Releasing? || s.threads[t].Deleting? { HolderTakesNothing(s, t, a); }
    else { OwnerTakesNothing(s, t, a); }
  }

  lemma IdleTakesNothing(s: State, t: nat, a: Action)
    requires Can(s, t, a) && Safe(s, t, a) && s.threads[t].Idle?
    ensures ThreadOk(Step(s, t, a), Step(s, t, a).threads[t])
  {
    hide Moves;
  }

  lemma HolderTakesNothing(s: State, t: nat, a: Action)
    requires Can(s, t, a) && Safe(s, t, a) && (s.threads[t].Holding? || s.threads[t].Releasing? ||
                                               s.threads[t].Deleting?)
    ensures ThreadOk(Step(s, t, a), Step(s, t, a).threads[t])
  {
    hide Moves, Log, Without, Accepting, Marked;
  }

  lemma OwnerTakesNothing(s: State, t: nat, a: Action)
    requires Can(s, t, a) && Safe(s, t, a)
    requires s.threads[t].Switching? || Launches(s.threads[t])
    ensures ThreadOk(Step(s, t, a), Step(s, t, a).threads[t])
  {
    hide Moves, Log, Without, Accepting, Marked;
  }

  lemma HasQueueOwns(s: State, t: nat)
    requires t < |s.threads| && s.threads[t].HasQueue?
    ensures Holds(s.threads[t], Owns, s.threads[t].q) == 1 && Holds(s.threads[t], Creates, s.threads[t].q) == 0
  {
  }

  lemma StepThreads(s: State, t: nat, a: Action)
    requires Inv(s) && Can(s, t, a) && Safe(s, t, a)
    ensures ThreadsOk(Step(s, t, a))
  {
    hide Inv, ThreadsOk, ThreadOk, Step;
    InvThreads(s);
    NewThread(s, t, a);
    ThreadsStay(s, Step(s, t, a), t, Step(s, t, a).threads[t]);
  }

  lemma InvThreads(s: State)
    requires Inv(s)
    ensures ThreadsOk(s)
  {
  }

  lemma OrphanDead(s: State, t: nat)
    requires Inv(s) && t < |s.threads| && s.threads[t].Orphan?
    ensures var q := s.threads[t].q; q in s.queues && q < s.next && (s.queues[q].release ==> q !in s.refs)
  {
    OwnerOf(s, t, s.threads[t].q);
    GoodAt(s, s.threads[t].q);
  }

  /** Every step of every thread keeps the invariant. */
  lemma StepKeeps(s: State, t: nat, a: Action)
    requires Inv(s) && Can(s, t, a) && Safe(s, t, a)
    ensures Inv(Step(s, t, a))
  {
    hide Good, LocalOf, ThreadsOk, Step, Safe;
    StepThreads(s, t, a);
    forall h: Handle ensures Good(LocalOf(Step(s, t, a), h)) { StepGood(s, t, a, h); }
  }
}

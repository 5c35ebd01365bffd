/** The actor scheduler of skynet as a state machine: any number of threads send, dispatch, launch and
    retire, and each section that the C code protects by a lock is one step. */
module SchedulerModel {

  /** A service is identified by its handle; handles are never used again. */
  type Handle = nat

  type Message = int

  /** skynet_mq.c: a queue, whether it counts as being in the global list, and whether its context is gone. */
  datatype Queue = Queue(msgs: seq<Message>, inGlobal: bool, release: bool)

  /** What a thread does once it has given a reference back. */
  datatype After = ToIdle | ToQueue(q: Handle) | ToRetire | ToMqRelease | ToPublish

  /** Where a thread is.  `Idle` is between two calls. */
  datatype Thread =
    | Idle
    | Holding(c: Handle)                                   // has grabbed a context
    | Releasing(c: Handle, then_: After)                   // is about to give a reference back
    | Deleting(c: Handle, then_: After)                    // has given the last reference back
    | HasQueue(q: Handle)                                  // worker: has taken a queue
    | Looping(q: Handle, i: nat, n: nat)                   // worker: dispatching, i messages of n done
    | Popped(q: Handle, m: Message, i: nat, n: nat)        // worker: has taken a message
    | Ready(q: Handle, m: Message, i: nat, n: nat)         // worker: is about to run the callback
    | Switching(q: Handle, next: Handle)                   // worker: is about to put its queue back
    | Orphan(q: Handle)                                    // has a queue whose handle is retired
    | Draining(q: Handle)                                  // drops what is left in a queue
    | Creating(c: Handle)                                  // has registered a context, which has no queue yet
    | Launching(c: Handle)                                 // runs the init function of a new context
    | Storing(c: Handle)                                   // it has succeeded, and its reference is given back
    | Publishing(c: Handle, report: bool)                  // is about to put the new queue into the global list
    | Reporting(c: Handle)                                 // is about to log the launch
    | FailRetire(c: Handle)                                // the init function has failed

  datatype State = State(
    slots: set<Handle>,                                    // registered handles
    refs: map<Handle, nat>,                                // contexts, with their reference counts
    queues: map<Handle, Queue>,
    global: seq<Handle>,
    threads: seq<Thread>,
    next: Handle,                                          // handles from here on are new
    inited: set<Handle>,
    pushed: map<Handle, seq<Message>>,                     // all messages accepted so far ...
    consumed: map<Handle, seq<Message>>)                   // ... and those dispatched or dropped

  datatype Action =
    | Grab(h: Handle)
    | Send(m: Message)
    | LetGo
    | Release
    | MarkRelease
    | TakeQueue
    | GrabOwn
    | MqRelease
    | DrainOne
    | Pop
    | Measure(weight: int)
    | Dispatch
    | EndLoop
    | PutBack
    | Launch
    | CreateQueue
    | LaunchOk
    | StoreInit
    | Publish
    | Report
    | LaunchFail
    | RetireOwn
    | Retire(h: Handle)

  function Log(m: map<Handle, seq<Message>>, c: Handle): seq<Message> {
    if c in m then m[c] else []
  }

  function Without<V>(m: map<Handle, V>, c: Handle): map<Handle, V> {
    map k | k in m && k != c :: m[k]
  }

  function Continue(c: Handle, then_: After): Thread {
    match then_
    case ToIdle => Idle
    case ToQueue(q) => HasQueue(q)
    case ToRetire => FailRetire(c)
    case ToMqRelease => Orphan(c)
    case ToPublish => Publishing(c, false)
  }

  function Halved(n: nat, weight: nat): nat
    decreases weight
  {
    if weight == 0 then n else Halved(n / 2, weight - 1)
  }

  /** Which actions a thread can take. */
  predicate Can(s: State, t: nat, a: Action) {
    t < |s.threads| &&
    match s.threads[t]
    case Idle => a.Grab? || a.TakeQueue? || a.Launch? || a.Retire?
    case Holding(c) => a.Send? || a.LetGo?
    case Releasing(_, _) => a.Release?
    case Deleting(_, _) => a.MarkRelease?
    case HasQueue(_) => a.GrabOwn?
    case Looping(_, i, n) => if i < n then a.Pop? else a.EndLoop?
    case Popped(_, _, _, _) => a.Measure?
    case Ready(_, _, _, _) => a.Dispatch?
    case Switching(_, _) => a.PutBack?
    case Orphan(_) => a.MqRelease?
    case Draining(_) => a.DrainOne?
    case Creating(_) => a.CreateQueue?
    case Launching(_) => a.LaunchOk? || a.LaunchFail?
    case Storing(_) => a.StoreInit?
    case Publishing(_, _) => a.Publish?
    case Reporting(_) => a.Report?
    case FailRetire(_) => a.RetireOwn?
  }

  function Become(s: State, t: nat, x: Thread): State
    requires t < |s.threads|
  {
    s.(threads := s.threads[t := x])
  }

  /** What a push, a pop and the end of its context do to a queue. */
  function Accepting(q: Queue, m: Message): Queue { Queue(q.msgs + [m], true, q.release) }

  function Taken(q: Queue): Queue {
    if q.msgs == [] then q.(inGlobal := false) else q.(msgs := q.msgs[1..])
  }

  function Marked(q: Queue): Queue { q.(release := true) }

  /** skynet_mq_push */
  function Enqueue(s: State, c: Handle, m: Message): State
    requires c in s.queues
  {
    var q := s.queues[c];
    s.(queues := s.queues[c := Accepting(q, m)],
       global := if q.inGlobal then s.global else s.global + [c],
       pushed := s.pushed[c := Log(s.pushed, c) + [m]])
  }

  /** skynet_mq_mark_release, after which the context is freed */
  function Mark(s: State, c: Handle): State
    requires c in s.queues
  {
    var q := s.queues[c];
    s.(queues := s.queues[c := Marked(q)],
       global := if q.inGlobal then s.global else s.global + [c],
       refs := Without(s.refs, c))
  }

  /** Looking up a handle, or making room for one, reads the handles that contexts in the table have. */
  predicate TableThere(s: State) {
    forall c :: c in s.slots ==> c in s.refs
  }

  /** Taking a queue out of the global list changes the first one, putting one in the last one. */
  predicate HeadThere(s: State) { s.global != [] ==> s.global[0] in s.queues }

  predicate TailThere(s: State) { s.global != [] ==> s.global[|s.global| - 1] in s.queues }

  /** What a step relies on: contexts and queues that it touches exist and have been set up, references
      that it gives back are there, and a registered handle has a context. */
  predicate Safe(s: State, t: nat, a: Action)
    requires Can(s, t, a)
  {
    match s.threads[t]
    case Idle => if a.TakeQueue? then HeadThere(s) else TableThere(s)
    case Holding(c) => c in s.refs && (a.Send? ==> c in s.queues && (!s.queues[c].inGlobal ==> TailThere(s)))
    case Releasing(c, _) => c in s.refs && s.refs[c] > 0
    case Deleting(c, _) =>
      c in s.refs && c in s.queues && !s.queues[c].release && (!s.queues[c].inGlobal ==> TailThere(s))
    case HasQueue(q) => q in s.queues && TableThere(s)
    case Looping(q, i, n) => q in s.queues && q in s.refs && (i >= n ==> HeadThere(s))
    case Popped(q, _, _, _) => q in s.queues && q in s.refs
    case Ready(q, _, _, _) => q in s.refs && q in s.inited
    case Switching(q, _) => q in s.queues && q in s.refs && TailThere(s)
    case Orphan(q) => q in s.queues && (!s.queues[q].release ==> TailThere(s))
    case Draining(q) => q in s.queues
    case Creating(c) => c in s.refs && c !in s.queues
    case Launching(c) => c in s.refs && s.refs[c] > 0 && c in s.queues && s.queues[c].inGlobal
    case Storing(c) => c in s.refs
    case Publishing(c, _) => c in s.queues && TailThere(s)
    case Reporting(c) => c in s.refs
    case FailRetire(_) => TableThere(s)
  }

  // ---------------------------------------------------------------- the steps

  /** Only thread `t` moves; no handle is used again, and only new contexts appear. */
  predicate Moves(s: State, t: nat, r: State) {
    && t < |s.threads| == |r.threads| && r.threads == s.threads[t := r.threads[t]]
    && s.inited <= r.inited && s.next <= r.next && r.refs.Keys <= s.refs.Keys + {s.next}
  }

  /** skynet_handle_grab */
  function DoGrab(s: State, t: nat, h: Handle): (r: State)
    requires t < |s.threads| && (h in s.slots ==> h in s.refs)
    ensures Moves(s, t, r)
  {
    if h in s.slots then Become(s.(refs := s.refs[h := s.refs[h] + 1]), t, Holding(h)) else s
  }

  /** skynet_globalmq_pop, by a worker that has no queue */
  function DoTake(s: State, t: nat): (r: State)
    requires t < |s.threads|
    ensures Moves(s, t, r)
  {
    if s.global == [] then s else Become(s.(global := s.global[1..]), t, HasQueue(s.global[0]))
  }

  /** The first half of skynet_context_new: a context and its handle */
  function DoLaunch(s: State, t: nat): (r: State)
    requires t < |s.threads|
    ensures Moves(s, t, r)
  {
    var c := s.next;
    Become(s.(slots := s.slots + {c}, refs := s.refs[c := 2], next := c + 1), t, Creating(c))
  }

  /** skynet_mq_create: the queue counts as being in the global list until the launch is over. */
  function DoCreate(s: State, t: nat, c: Handle): (r: State)
    requires t < |s.threads|
    ensures Moves(s, t, r)
  {
    Become(s.(queues := s.queues[c := Queue([], true, false)]), t, Launching(c))
  }

  /** skynet_handle_retire, up to the release */
  function DoRetire(s: State, t: nat, h: Handle): (r: State)
    requires t < |s.threads|
    ensures Moves(s, t, r)
  {
    if h in s.slots then Become(s.(slots := s.slots - {h}), t, Releasing(h, ToIdle)) else s
  }

  function DoSend(s: State, t: nat, c: Handle, m: Message): (r: State)
    requires t < |s.threads| && c in s.queues
    ensures Moves(s, t, r)
  {
    Become(Enqueue(s, c, m), t, Releasing(c, ToIdle))
  }

  /** skynet_context_release */
  function DoRelease(s: State, t: nat, c: Handle, then_: After): (r: State)
    requires t < |s.threads| && c in s.refs && s.refs[c] > 0
    ensures Moves(s, t, r)
  {
    Become(s.(refs := s.refs[c := s.refs[c] - 1]), t, if s.refs[c] == 1 then Deleting(c, then_) else Continue(c, then_))
  }

  /** delete_context */
  function DoDelete(s: State, t: nat, c: Handle, then_: After): (r: State)
    requires t < |s.threads| && c in s.queues
    ensures Moves(s, t, r)
  {
    Become(Mark(s, c), t, Continue(c, then_))
  }

  /** skynet_handle_grab, by the worker that has queue `q` */
  function DoGrabOwn(s: State, t: nat, q: Handle): (r: State)
    requires t < |s.threads| && (q in s.slots ==> q in s.refs)
    ensures Moves(s, t, r)
  {
    if q in s.slots then Become(s.(refs := s.refs[q := s.refs[q] + 1]), t, Looping(q, 0, 1))
        else Become(s, t, Orphan(q))
  }

  /** skynet_mq_pop, by the worker that dispatches `q` */
  function DoPop(s: State, t: nat, q: Handle, i: nat, n: nat): (r: State)
    requires t < |s.threads| && q in s.queues
    ensures Moves(s, t, r)
  {
    var mq := s.queues[q];
    Become(s.(queues := s.queues[q := Taken(mq)]), t, if mq.msgs == [] then Releasing(q, ToIdle)
           else Popped(q, mq.msgs[0], i, n))
  }

  /** skynet_globalmq_pop, by a worker at the end of its loop */
  function DoEndLoop(s: State, t: nat, q: Handle): (r: State)
    requires t < |s.threads|
    ensures Moves(s, t, r)
  {
    if s.global == [] then Become(s, t, Releasing(q, ToQueue(q)))
    else Become(s.(global := s.global[1..]), t, Switching(q, s.global[0]))
  }

  /** After the first message the worker decides how many to dispatch. */
  function DoMeasure(s: State, t: nat, q: Handle, m: Message, i: nat, n: nat, weight: int): (r: State)
    requires t < |s.threads| && q in s.queues
    ensures Moves(s, t, r)
  {
    Become(s, t, Ready(q, m, i, if i == 0 && weight >= 0 then Halved(|s.queues[q].msgs|, weight) else n))
  }

  /** dispatch_message */
  function DoDispatch(s: State, t: nat, q: Handle, m: Message, i: nat, n: nat): (r: State)
    requires t < |s.threads|
    ensures Moves(s, t, r)
  {
    Become(s.(consumed := s.consumed[q := Log(s.consumed, q) + [m]]), t, Looping(q, i + 1, n))
  }

  /** skynet_globalmq_push, by a worker that has found another queue */
  function DoPutBack(s: State, t: nat, q: Handle, next: Handle): (r: State)
    requires t < |s.threads|
    ensures Moves(s, t, r)
  {
    Become(s.(global := s.global + [q]), t, Releasing(q, ToQueue(next)))
  }

  /** skynet_mq_release */
  function DoMqRelease(s: State, t: nat, q: Handle): (r: State)
    requires t < |s.threads| && q in s.queues
    ensures Moves(s, t, r)
  {
    if s.queues[q].release then Become(s, t, Draining(q)) else Become(s.(global := s.global + [q]), t, Idle)
  }

  /** One turn of the loop of _drop_queue; at the end the queue is freed. */
  function DoDrain(s: State, t: nat, q: Handle): (r: State)
    requires t < |s.threads| && q in s.queues
    ensures Moves(s, t, r)
  {
    var mq := s.queues[q];
    if mq.msgs == [] then Become(s.(queues := Without(s.queues, q)), t, Idle)
    else s.(queues := s.queues[q := Taken(mq)], consumed := s.consumed[q := Log(s.consumed, q) + [mq.msgs[0]]])
  }

  /** The init function has succeeded, and the creator gives back its reference.  The handle may have been
      retired meanwhile. */
  function DoLaunchOk(s: State, t: nat, c: Handle): (r: State)
    requires t < |s.threads| && c in s.refs && s.refs[c] > 0
    ensures Moves(s, t, r)
  {
    Become(s.(refs := s.refs[c := s.refs[c] - 1]), t, if s.refs[c] == 1 then Deleting(c, ToPublish) else Storing(c))
  }

  /** The creator marks the context as initialized, although it has no reference to it any more. */
  function DoStore(s: State, t: nat, c: Handle): (r: State)
    requires t < |s.threads|
    ensures Moves(s, t, r)
  {
    Become(s.(inited := s.inited + {c}), t, Publishing(c, true))
  }

  /** skynet_globalmq_push, at the end of a launch */
  function DoPublish(s: State, t: nat, c: Handle, report: bool): (r: State)
    requires t < |s.threads|
    ensures Moves(s, t, r)
  {
    Become(s.(global := s.global + [c]), t, if report then Reporting(c) else Idle)
  }

  /** skynet_handle_retire, after the init function has failed */
  function DoRetireOwn(s: State, t: nat, c: Handle): (r: State)
    requires t < |s.threads|
    ensures Moves(s, t, r)
  {
    if c in s.slots then Become(s.(slots := s.slots - {c}), t, Releasing(c, ToMqRelease)) else Become(s, t, Orphan(c))
  }

  /** One step.  A step for which the C code would touch memory that is freed or not set up is not defined. */
  function Step(s: State, t: nat, a: Action): (r: State)
    requires Can(s, t, a) && Safe(s, t, a)
    ensures Moves(s, t, r)
  {
    match s.threads[t]
    case Idle =>
      (match a
       case Grab(h) => DoGrab(s, t, h)
       case TakeQueue => DoTake(s, t)
       case Launch => DoLaunch(s, t)
       case Retire(h) => DoRetire(s, t, h)
       case _ => s)
    case Holding(c) => if a.Send? then DoSend(s, t, c, a.m) else Become(s, t, Releasing(c, ToIdle))
    case Releasing(c, then_) => DoRelease(s, t, c, then_)
    case Deleting(c, then_) => DoDelete(s, t, c, then_)
    case HasQueue(q) => DoGrabOwn(s, t, q)
    case Looping(q, i, n) => if i < n then DoPop(s, t, q, i, n) else DoEndLoop(s, t, q)
    case Popped(q, m, i, n) => DoMeasure(s, t, q, m, i, n, a.weight)
    case Ready(q, m, i, n) => DoDispatch(s, t, q, m, i, n)
    case Switching(q, next) => DoPutBack(s, t, q, next)
    case Orphan(q) => DoMqRelease(s, t, q)
    case Draining(q) => DoDrain(s, t, q)
    case Creating(c) => DoCreate(s, t, c)
    case Launching(c) => if a.LaunchOk? then DoLaunchOk(s, t, c) else Become(s, t, Releasing(c, ToRetire))
    case Storing(c) => DoStore(s, t, c)
    case Publishing(c, report) => DoPublish(s, t, c, report)
    case Reporting(_) => Become(s, t, Idle)
    case FailRetire(c) => DoRetireOwn(s, t, c)
  }
}

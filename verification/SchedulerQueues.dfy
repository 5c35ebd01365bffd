/** The message queues of skynet_mq.c: a growing ring buffer for each service, and the global list
    that links the queues through their `next` fields. */
module SchedulerQueues {
  import opened Basics
  import opened SchedulerModel

  const DEFAULT_QUEUE_SIZE := 64

  const MQ_OVERLOAD := 1024

  lemma Around(x: nat, cap: nat)
    requires cap > 0 && x < 2 * cap
    ensures x % cap == if x < cap then x else x - cap
  {
    if x >= cap { assert x == cap + (x - cap) && (x - cap) < cap; }
  }

  /** Above the threshold the length is noted, and the threshold is doubled until it is not exceeded. */
  function Warning(length: nat, overload: nat, threshold: nat): (w: (nat, nat))
    requires threshold > 0
    ensures length <= w.1 && (length <= threshold ==> w == (overload, threshold))
    ensures length > threshold ==> w.0 == length && w.1 < 2 * length
    decreases length - threshold
  {
    if length > threshold then Warning(length, length, 2 * threshold) else (overload, threshold)
  }

  class MessageQueue {
    const handle: Handle
    var cap: nat
    var head: nat
    var tail: nat
    var release: bool
    var inGlobal: bool
    var overload: nat
    var threshold: nat
    var queue: array<Message>
    var next: MessageQueue?

    ghost predicate Shape()
      reads this`cap, this`head, this`tail, this`queue
    {
      head < cap && tail < cap && queue.Length == cap
    }

    ghost predicate Valid()
      reads this`cap, this`head, this`tail, this`queue, this`threshold
    {
      Shape() && threshold > 0
    }

    /** The messages that wait, oldest first. */
    ghost function Contents(): seq<Message>
      reads this`cap, this`head, this`tail, this`queue, queue
      requires Shape()
    {
      if head <= tail then queue[head..tail] else queue[head..] + queue[..tail]
    }

    ghost function View(): Queue
      reads this`cap, this`head, this`tail, this`queue, this`inGlobal, this`release, queue
      requires Shape()
    {
      Queue(Contents(), inGlobal, release)
    }

    /** A new queue counts as being in the global list: it is its creator's. */
    constructor (handle: Handle)
      ensures Valid() && fresh(queue) && View() == Queue([], true, false) && next == null && this.handle == handle
    {
      this.handle := handle;
      cap, head, tail := DEFAULT_QUEUE_SIZE, 0, 0;
      inGlobal, release := true, false;
      overload, threshold := 0, MQ_OVERLOAD;
      queue := new Message[DEFAULT_QUEUE_SIZE];
      next := null;
    }

    method Length() returns (n: nat)
      requires Valid()
      ensures n == |Contents()|
    {
      n := if head <= tail then tail - head else tail + cap - head;
    }

    /** Doubles a full buffer, in which `head` and `tail` have met. */
    method Expand()
      requires Valid() && head == tail
      modifies this`cap, this`head, this`tail, this`queue
      ensures Valid() && fresh(queue) && Contents() == old(queue[head..] + queue[..head])
    {
      var newQueue := new Message[cap * 2];
      var i := 0;
      while i < cap
        invariant 0 <= i <= cap && queue == old(queue) && head == old(head) && cap == old(cap) == queue.Length &&
                  tail == old(tail)
        invariant queue[..] == old(queue[..])
        invariant forall k :: 0 <= k < i ==> newQueue[k] == queue[if head + k < cap then head + k else head + k - cap]
      {
        Around(head + i, cap);
        newQueue[i] := queue[(head + i) % cap];
        i := i + 1;
      }
      assert newQueue[..cap] == queue[head..] + queue[..head];
      head := 0;
      tail := cap;
      cap := cap * 2;
      queue := newQueue;
    }

    /** Puts a message at the end, whatever the state of the flags. */
    method Append(m: Message)
      requires Valid()
      modifies this`cap, this`head, this`tail, this`queue, queue
      ensures Valid() && (queue == old(queue) || fresh(queue)) && Contents() == old(Contents()) + [m]
    {
      ghost var was := Contents();
      queue[tail] := m;
      tail := tail + 1;
      if tail >= cap { tail := 0; }
      if head == tail {
        assert queue[head..] + queue[..head] == was + [m];
        Expand();
      }
    }

    method Warn(length: nat)
      requires threshold > 0
      modifies this`overload, this`threshold
      ensures threshold > 0 && (overload, threshold) == Warning(length, old(overload), old(threshold))
    {
      while length > threshold
        invariant threshold > 0 && Warning(length, overload, threshold) ==
                  Warning(length, old(overload), old(threshold))
        decreases length - threshold
      {
        overload := length;
        threshold := threshold * 2;
      }
    }

    /** Takes the oldest message.  A queue that is found empty no longer counts as being in the global list. */
    method Pop() returns (r: Option<Message>)
      requires Valid()
      modifies this`head, this`inGlobal, this`overload, this`threshold
      ensures Valid()
      ensures View() == Taken(old(View())) && r == if old(Contents()) == [] then None else Some(old(Contents())[0])
      ensures (overload, threshold) ==
              if r.None? then (old(overload), MQ_OVERLOAD) else Warning(|Contents()|, old(overload), old(threshold))
    {
      ghost var was := Contents();
      if head != tail {
        r := Some(queue[head]);
        assert was[0] == queue[head];
        head := head + 1;
        if head >= cap { head := 0; }
        assert Contents() == was[1..];
        Warn(if tail < head then tail - head + cap else tail - head);
      } else {
        threshold := MQ_OVERLOAD;
        inGlobal := false;
        r := None;
      }
    }
  }

  /** What the `next` field of element `k` of a list should be. */
  ghost function NextOf(list: seq<MessageQueue>, k: nat): MessageQueue?
    requires k < |list|
  {
    if k + 1 < |list| then list[k + 1] else null
  }

  class GlobalQueue {
    var head: MessageQueue?
    var tail: MessageQueue?
    ghost var list: seq<MessageQueue>
    ghost var known: set<MessageQueue>

    /** The list is the chain of `next` fields from `head` to `tail`, without repetition, and the `next`
        field of every other queue is null. */
    ghost predicate Valid()
      reads this, known`next
    {
      && (forall k :: 0 <= k < |list| ==> list[k] in known)
      && (forall q :: q in known && q !in list ==> q.next == null)
      && (forall j, k :: 0 <= j < k < |list| ==> list[j] != list[k])
      && (forall k {:trigger NextOf(list, k)} :: 0 <= k < |list| ==> list[k].next == NextOf(list, k))
      && head == (if list == [] then null else list[0])
      && tail == (if list == [] then null else list[|list| - 1])
    }

    constructor ()
      ensures Valid() && list == [] && known == {}
    {
      head, tail, list, known := null, null, [], {};
    }

    /** A queue that has just been created. */
    ghost method Know(q: MessageQueue)
      requires Valid() && q !in known && q.next == null
      modifies this`known
      ensures Valid() && known == old(known) + {q}
    {
      known := known + {q};
    }

    /** The assertion of the C code, that `next` is null, is a consequence of the queue not being in the list. */
    method Push(q: MessageQueue)
      requires Valid() && q in known && q !in list
      modifies this`head, this`tail, this`list, list`next
      ensures Valid() && list == old(list) + [q]
      ensures forall o :: o in old(list) && o != old(tail) ==> o.next == old(o.next)
    {
      ghost var was, last := list, tail;
      assert was != [] ==> last == was[|was| - 1];
      if tail != null {
        tail.next := q;
        tail := q;
      } else {
        head, tail := q, q;
      }
      list := list + [q];
      forall k | 0 <= k < |list| ensures list[k].next == NextOf(list, k) {
        if k < |was| {
          assert old(was[k].next) == NextOf(was, k);
          assert k < |was| - 1 ==> was[k] != last && was[k].next == old(was[k].next);
        }
      }
    }

    method Pop() returns (q: MessageQueue?)
      requires Valid()
      modifies this`head, this`tail, this`list, list`next
      ensures Valid()
      ensures if old(list) == [] then q == null && list == []
              else q == old(list)[0] && q.next == null && q !in list && list == old(list)[1..]
    {
      q := head;
      if q != null {
        assert list[0].next == NextOf(list, 0);
        head := q.next;
        if head == null { tail := null; }
        ghost var rest := list[1..];
        assert forall k :: 0 <= k < |rest| ==> rest[k] == list[k + 1] && rest[k] != list[0];
        assert rest != [] ==> tail == rest[|rest| - 1];
        q.next := null;
        list := rest;
        forall k | 0 <= k < |rest| ensures rest[k].next == NextOf(rest, k) {
          assert old(list[k + 1].next) == NextOf(old(list), k + 1);
        }
      }
    }
  }

  /** skynet_mq_create: from now on the list keeps the `next` field of the queue null, as long as it is not in it. */
  method MqCreate(g: GlobalQueue, handle: Handle) returns (q: MessageQueue)
    requires g.Valid()
    modifies g`known
    ensures fresh(q) && q.Valid() && q.handle == handle && q.View() == Queue([], true, false)
    ensures g.Valid() && g.known == old(g.known) + {q} && q !in g.list && q.next == null
  {
    hide MessageQueue.Contents;
    q := new MessageQueue(handle);
    g.Know(q);
  }

  /** skynet_mq_push */
  method MqPush(g: GlobalQueue, q: MessageQueue, m: Message)
    requires g.Valid() && q.Valid() && q in g.known && (q in g.list ==> q.inGlobal)
    modifies q`cap, q`head, q`tail, q`queue, q`inGlobal, q.queue, g`head, g`tail, g`list, g.list`next
    ensures q.Valid() && g.Valid() && (q.queue == old(q.queue) || fresh(q.queue))
    ensures q.View() == Accepting(old(q.View()), m)
    ensures g.list == if old(q.inGlobal) then old(g.list) else old(g.list) + [q]
  {
    hide GlobalQueue.Valid, MessageQueue.Contents;
    q.Append(m);
    if !q.inGlobal {
      q.inGlobal := true;
      g.Push(q);
    }
  }

  /** skynet_mq_mark_release */
  method MqMarkRelease(g: GlobalQueue, q: MessageQueue)
    requires g.Valid() && q.Valid() && !q.release && q in g.known && (q in g.list ==> q.inGlobal)
    modifies q`release, g`head, g`tail, g`list, g.list`next
    ensures q.Valid() && g.Valid()
    ensures q.View() == Marked(old(q.View()))
    ensures g.list == if old(q.inGlobal) then old(g.list) else old(g.list) + [q]
  {
    hide GlobalQueue.Valid, MessageQueue.Contents;
    q.release := true;
    if !q.inGlobal { g.Push(q); }
  }

  /** skynet_mq_release: drops what is left, or puts the queue back for later.  `dropped` is what the drop
      function was called with; the `next` field of a queue that is then freed is null, as asserted. */
  method MqRelease(g: GlobalQueue, q: MessageQueue) returns (freed: bool, dropped: seq<Message>)
    requires g.Valid() && q.Valid() && q in g.known && q !in g.list
    modifies q`head, q`inGlobal, q`overload, q`threshold, g`head, g`tail, g`list, g.list`next
    ensures q.Valid() && g.Valid() && freed == old(q.release)
    ensures freed ==> dropped == old(q.View()).msgs && q.View() == Queue([], false, true) && g.list == old(g.list)
    ensures freed ==> q.next == null
    ensures !freed ==> dropped == [] && q.View() == old(q.View()) && g.list == old(g.list) + [q]
  {
    dropped := [];
    freed := q.release;
    if freed { dropped := DropQueue(q); } else { g.Push(q); }
  }

  method DropQueue(q: MessageQueue) returns (dropped: seq<Message>)
    requires q.Valid()
    modifies q`head, q`inGlobal, q`overload, q`threshold
    ensures q.Valid() && dropped == old(q.Contents()) && q.View() == Queue([], false, q.release)
  {
    hide MessageQueue.Contents;
    dropped := [];
    ghost var total, rest := q.Contents(), q.Contents();
    var r := q.Pop();
    rest := q.Contents();
    assert r.Some? ==> total == [] + [total[0]] + total[1..];
    while r.Some?
      invariant q.Valid() && q.Contents() == rest
      invariant dropped + (if r.Some? then [r.value] else []) + rest == total
      invariant r.None? ==> rest == [] && q.View() == Queue([], false, q.release)
      decreases |rest|, r.Some?
    {
      ghost var was := rest;
      dropped := dropped + [r.value];
      r := q.Pop();
      rest := q.Contents();
      assert r.Some? ==> was == [was[0]] + was[1..];
    }
  }
}

/** The hierarchical timing wheel of skynet_timer.c: five levels of lists over a wrapping clock. */
module TimerWheel {
  import opened Basics
  import opened TimerPlaces
  import opened TimerQueue

  datatype Node = Node(event: Event, expire: uint32)

  function NodeOf(t: Timer): Node { Node(t.event, Clock(t.due)) }

  function NodeEvents(nodes: seq<Node>): (es: seq<Event>)
    ensures |es| == |nodes| && forall k :: 0 <= k < |es| ==> es[k] == nodes[k].event
  {
    seq(|nodes|, k requires 0 <= k < |nodes| => nodes[k].event)
  }

  /** What the list at `p` should hold: the pending timers whose place it is, in the order in which
      they were added. */
  function Pick(pending: seq<Timer>, now: nat, p: Place): seq<Node> {
    if pending == [] then []
    else
      var n := |pending| - 1;
      Pick(pending[..n], now, p) + if TruePlace(pending[n].due, now) == p then [NodeOf(pending[n])] else []
  }

  /** The nodes of a list that `add_node` puts at `p`. */
  function Sort(nodes: seq<Node>, time: uint32, p: Place): seq<Node> {
    if nodes == [] then []
    else
      var n := |nodes| - 1;
      Sort(nodes[..n], time, p) + if PlaceOf(nodes[n].expire, time) == p then [nodes[n]] else []
  }

  predicate Exists(p: Place) {
    match p
    case Near(i) => i < TIME_NEAR
    case Level(l, i) => l < 4 && i < TIME_LEVEL
  }

  ghost predicate AllAhead(pending: seq<Timer>, now: nat) {
    forall k :: 0 <= k < |pending| ==> Ahead(pending[k].due, now)
  }

  // ---------------------------------------------------------------- how the lists change

  lemma PickAdd(pending: seq<Timer>, t: Timer, now: nat, p: Place)
    requires Ahead(t.due, now)
    ensures Pick(pending + [t], now, p) ==
              Pick(pending, now, p) + if PlaceOf(Clock(t.due), Clock(now)) == p then [NodeOf(t)] else []
  {
    WrapHarmless(t.due, now);
    assert (pending + [t])[..|pending|] == pending;
  }

  lemma {:induction false} PickStays(pending: seq<Timer>, now: nat, p: Place)
    requires AllAhead(pending, now + 1)
    requires TurnAt(now + 1).Nothing? || (p != Level(TurnAt(now + 1).level, TurnAt(now + 1).index) &&
                                          !Below(p, TurnAt(now + 1).level))
    ensures Pick(pending, now + 1, p) == Pick(pending, now, p)
  {
    hide TruePlace, TurnAt;
    if pending != [] {
      var n := |pending| - 1;
      PickStays(pending[..n], now, p);
      StaysAt(pending[n].due, now, p);
    }
  }

  lemma StaysAt(due: nat, now: nat, p: Place)
    requires Ahead(due, now + 1)
    requires TurnAt(now + 1).Nothing? || (p != Level(TurnAt(now + 1).level, TurnAt(now + 1).index) &&
                                          !Below(p, TurnAt(now + 1).level))
    ensures TruePlace(due, now + 1) == p <==> TruePlace(due, now) == p
  {
    hide TruePlace, TurnAt;
    var turn := TurnAt(now + 1);
    if turn.Move? && TruePlace(due, now) == Level(turn.level, turn.index) {
      PlaceDescends(due, now);
    } else {
      PlaceStays(due, now);
    }
  }

  /** Before a list is moved the lists below it are empty, and afterwards it is empty itself. */
  lemma {:induction false} PickEmpty(pending: seq<Timer>, now: nat, p: Place)
    requires AllAhead(pending, now + 1) && TurnAt(now + 1).Move?
    ensures var turn := TurnAt(now + 1);
            && (Below(p, turn.level) ==> Pick(pending, now, p) == [])
            && Pick(pending, now + 1, Level(turn.level, turn.index)) == []
  {
    hide TruePlace, TurnAt, PlaceOf;
    if pending != [] {
      var n, turn := |pending| - 1, TurnAt(now + 1);
      var due, moved := pending[n].due, Level(turn.level, turn.index);
      PickEmpty(pending[..n], now, p);
      PlaceAbove(due, now);
      if TruePlace(due, now) == moved { PlaceDescends(due, now); } else { PlaceStays(due, now); }
    }
  }

  /** The nodes of the list that is moved go down, to where they belong now. */
  lemma {:induction false} PickMoves(pending: seq<Timer>, now: nat, p: Place)
    requires AllAhead(pending, now + 1) && TurnAt(now + 1).Move?
    ensures var turn := TurnAt(now + 1);
            Sort(Pick(pending, now, Level(turn.level, turn.index)), Clock(now + 1), p) ==
              if Below(p, turn.level) then Pick(pending, now + 1, p) else []
  {
    hide TruePlace, TurnAt, PlaceOf, Clock;
    if pending != [] {
      var n, turn := |pending| - 1, TurnAt(now + 1);
      PickMoves(pending[..n], now, p);
      MovesAt(pending[n].due, now, p);
      assert Pick(pending[..n], now, Level(turn.level, turn.index)) + [] ==
             Pick(pending[..n], now, Level(turn.level, turn.index));
      SortAdd(Pick(pending[..n], now, Level(turn.level, turn.index)), NodeOf(pending[n]), Clock(now + 1), p);
    }
  }

  lemma MovesAt(due: nat, now: nat, p: Place)
    requires Ahead(due, now + 1) && TurnAt(now + 1).Move?
    ensures var turn := TurnAt(now + 1);
            TruePlace(due, now) == Level(turn.level, turn.index) && PlaceOf(Clock(due), Clock(now + 1)) == p
            <==> Below(p, turn.level) && TruePlace(due, now + 1) == p
  {
    hide TruePlace, TurnAt, PlaceOf, Clock;
    var turn := TurnAt(now + 1);
    WrapHarmless(due, now + 1);
    PlaceAbove(due, now);
    if TruePlace(due, now) == Level(turn.level, turn.index) { PlaceDescends(due, now); } else { PlaceStays(due, now); }
  }

  lemma SortAdd(nodes: seq<Node>, node: Node, time: uint32, p: Place)
    ensures Sort(nodes + [node], time, p) == Sort(nodes, time, p) + if PlaceOf(node.expire, time) == p then [node]
            else []
  {
    assert (nodes + [node])[..|nodes|] == nodes;
  }

  /** The list at the hand of the clock holds what is due. */
  lemma {:induction false} PickDue(pending: seq<Timer>, now: nat)
    requires AllAhead(pending, now)
    ensures NodeEvents(Pick(pending, now, Near(now % TIME_NEAR))) == Events(Due(pending, now))
  {
    hide TruePlace;
    if pending != [] {
      var n := |pending| - 1;
      PickDue(pending[..n], now);
      PlaceDue(pending[n].due, now);
      EventsAdd(Pick(pending[..n], now, Near(now % TIME_NEAR)), Due(pending[..n], now), pending[n]);
    }
  }

  lemma EventsAdd(nodes: seq<Node>, timers: seq<Timer>, t: Timer)
    requires NodeEvents(nodes) == Events(timers)
    ensures NodeEvents(nodes + [NodeOf(t)]) == Events(timers + [t])
    ensures NodeEvents(nodes + []) == Events(timers + [])
  {
    assert |nodes| == |timers|;
    assert forall k :: 0 <= k < |nodes| ==> NodeEvents(nodes)[k] == Events(timers)[k];
    assert nodes + [] == nodes && timers + [] == timers;
  }

  /** And the other lists hold the rest. */
  lemma {:induction false} PickRest(pending: seq<Timer>, now: nat, p: Place)
    requires AllAhead(pending, now)
    ensures Pick(Rest(pending, now), now, p) == if p == Near(now % TIME_NEAR) then [] else Pick(pending, now, p)
  {
    hide TruePlace;
    if pending != [] {
      var n := |pending| - 1;
      PickRest(pending[..n], now, p);
      PlaceDue(pending[n].due, now);
      assert Rest(pending[..n], now) + [] == Rest(pending[..n], now);
      RestAdd(pending[..n], pending[n], now, p);
    }
  }

  lemma RestAdd(pending: seq<Timer>, t: Timer, now: nat, p: Place)
    ensures Pick(Rest(pending, now) + [t], now, p) == Pick(Rest(pending, now), now, p) + if TruePlace(t.due, now) ==
            p then [NodeOf(t)] else []
  {
    var rest := Rest(pending, now);
    assert (rest + [t])[..|rest|] == rest;
  }

  lemma SortNone(list: seq<Node>, nodes: seq<Node>, time: uint32, p: Place)
    ensures list == list + Sort(nodes[..0], time, p)
  {
  }

  lemma SortStep(list: seq<Node>, nodes: seq<Node>, k: nat, time: uint32, p: Place)
    requires k < |nodes|
    ensures list + Sort(nodes[..k], time, p) + (if p == PlaceOf(nodes[k].expire, time) then [nodes[k]] else []) ==
              list + Sort(nodes[..k + 1], time, p)
  {
    hide PlaceOf, Sort;
    SortAdd(nodes[..k], nodes[k], time, p);
    assert nodes[..k + 1] == nodes[..k] + [nodes[k]];
  }

  // ---------------------------------------------------------------- the wheel

  function Unit(level: nat): (u: nat)
    requires level <= 4
    ensures u > 0
  {
    match level
    case 0 => 0x100
    case 1 => 0x4000
    case 2 => 0x10_0000
    case 3 => 0x400_0000
    case _ => 0x1_0000_0000
  }

  /** Wrapping the clock around does not change whose turn it is. */
  lemma TurnWraps(now: nat)
    ensures TurnAt(now) == if Clock(now) == 0 then Move(3, 0) else TurnAt(Clock(now))
  {
    hide Clock;
    SameDigit(now, 0x100, 0x4_0000);
    SameDigit(now, 0x4000, 0x1000);
    SameDigit(now, 0x10_0000, 0x40);
    SameDigit(now, 0x400_0000, 1);
    LowDigits(now, 0x100, 0x100_0000);
    LowDigits(now, 0x4000, 0x4_0000);
    LowDigits(now, 0x10_0000, 0x1000);
    LowDigits(now, 0x400_0000, 0x40);
  }

  lemma LowDigits(x: nat, m: nat, r: nat)
    requires m > 0 && m * r == WRAP
    ensures Clock(x) % m == x % m
  {
    var q, c := x / WRAP, Clock(x);
    assert x == m * (r * q) + c by { assert m * (r * q) == (m * r) * q; }
    Quotient(r * q, m, c);
    assert m * (r * q + c / m) == m * (r * q) + m * (c / m);
  }

  lemma TurnStart(ct: uint32)
    ensures ct % Unit(0) != 0 ==> TurnAt(ct) == Nothing
  {
  }

  /** The digit above the zeros of a number tells whether there are more zeros. */
  lemma NextDigit(ct: nat, m: nat)
    requires m > 0 && ct % m == 0
    ensures ct / m / TIME_LEVEL == ct / (m * TIME_LEVEL)
    ensures ct / m % TIME_LEVEL == 0 <==> ct % (m * TIME_LEVEL) == 0
  {
    var r, d := ct / m / TIME_LEVEL, ct / m % TIME_LEVEL;
    assert ct == m * (ct / m);
    Distribute(m, r, d);
    Product(m, d + 1, TIME_LEVEL);
    Product(m, 1, d);
    UniqueBoth(ct, m * TIME_LEVEL, r, m * d);
  }

  lemma UniqueBoth(x: nat, m: nat, q: nat, c: nat)
    requires m > 0 && x == m * q + c && c < m
    ensures x / m == q && x % m == c
  {
    Unique(x, m, q, c);
  }

  /** One turn of the loop that looks for the list to be moved. */
  lemma TurnNext(ct: uint32, i: nat)
    requires ct > 0 && i < 4 && ct % Unit(i) == 0
    ensures var idx := ct / Unit(i) % TIME_LEVEL;
            && (idx != 0 ==> TurnAt(ct) == Move(i, idx))
            && (idx == 0 ==> i < 3 && Unit(i + 1) == Unit(i) * TIME_LEVEL && ct % Unit(i + 1) == 0 &&
                             ct / Unit(i) / TIME_LEVEL == ct / Unit(i + 1))
  {
    NextDigit(ct, Unit(i));
    match i
    case 0 =>
    case 1 => Multiple(ct, 0x100);
    case 2 => Multiple(ct, 0x100); Multiple(ct, 0x4000);
    case _ => Multiple(ct, 0x100); Multiple(ct, 0x4000); Multiple(ct, 0x10_0000);
  }

  /** Each list after a tick: what stays in it, and what has been moved to it. */
  lemma ShiftedList(pending: seq<Timer>, now: nat, p: Place)
    requires AllAhead(pending, now + 1)
    ensures var turn := TurnAt(now + 1);
            Pick(pending, now + 1, p) ==
              if turn.Nothing? then Pick(pending, now, p)
              else
                var moved := Level(turn.level, turn.index);
                (if p == moved then [] else Pick(pending, now, p)) + Sort(Pick(pending, now, moved), Clock(now + 1), p)
  {
    hide TruePlace, PlaceOf, Pick, Sort, TurnAt;
    var turn := TurnAt(now + 1);
    if turn.Move? { PickMoves(pending, now, p); PickEmpty(pending, now, p); }
    if turn.Nothing? || (p != Level(turn.level, turn.index) && !Below(p, turn.level)) { PickStays(pending, now, p); }
  }

  lemma PlaceNear(expire: uint32, time: uint32)
    ensures expire / TIME_NEAR == time / TIME_NEAR ==> PlaceOf(expire, time) == Near(expire % TIME_NEAR)
  {
  }

  /** The two times differ at the levels below `i`. */
  predicate FarFrom(expire: uint32, time: uint32, i: nat)
    requires i <= 3
  {
    && expire / Unit(0) != time / Unit(0)
    && (i > 0 ==> expire / Unit(1) != time / Unit(1))
    && (i > 1 ==> expire / Unit(2) != time / Unit(2))
    && (i > 2 ==> expire / Unit(3) != time / Unit(3))
  }

  lemma PlaceLevel(expire: uint32, time: uint32, i: nat)
    requires i <= 3 && FarFrom(expire, time, i) && (i < 3 ==> expire / Unit(i + 1) == time / Unit(i + 1))
    ensures PlaceOf(expire, time) == Level(i, expire / Unit(i) % TIME_LEVEL)
  {
  }

  class Timers {
    var near: array<seq<Node>>
    var t: array2<seq<Node>>
    var time: uint32
    var current: nat
    var currentPoint: nat
    ghost var queue: Queue

    ghost predicate Shape()
      reads this`near, this`t
    {
      near.Length == TIME_NEAR && t.Length0 == 4 && t.Length1 == TIME_LEVEL
    }

    ghost function ListAt(p: Place): seq<Node>
      reads this`near, this`t, near, t
      requires Shape() && Exists(p)
    {
      match p
      case Near(i) => near[i]
      case Level(l, i) => t[l, i]
    }

    /** Every list holds exactly the timers that `add_node` would now put there, in the order in
        which they were added. */
    ghost predicate Sound()
      reads this`near, this`t, this`time, this`queue, near, t
    {
      && Shape() && time == Clock(queue.now)
      && AllAhead(queue.pending, queue.now)
      && forall p :: Exists(p) ==> ListAt(p) == Pick(queue.pending, queue.now, p)
    }

    ghost predicate Valid()
      reads this`near, this`t, this`time, this`queue, near, t
    {
      Sound() && queue.Valid()
    }

    constructor ()
      ensures Valid() && fresh(near) && fresh(t)
      ensures queue == Queue(0, 0, [])
    {
      near := new seq<Node>[TIME_NEAR](_ => []);
      t := new seq<Node>[4, TIME_LEVEL]((_, _) => []);
      time := 0;
      current, currentPoint := 0, 0;
      queue := Queue(0, 0, []);
    }

    method AddNode(node: Node)
      requires Shape()
      modifies near, t
      ensures forall p :: Exists(p) ==> ListAt(p) == old(ListAt(p)) + if p == PlaceOf(node.expire, time) then [node]
              else []
    {
      hide PlaceOf;
      var expire, current := node.expire, time;
      PlaceNear(expire, current);
      if expire / TIME_NEAR == current / TIME_NEAR {
        near[expire % TIME_NEAR] := near[expire % TIME_NEAR] + [node];
      } else {
        var i, mask := 0, TIME_NEAR * TIME_LEVEL;
        while i < 3
          invariant 0 <= i <= 3 && mask == Unit(i + 1) && FarFrom(expire, current, i)
        {
          if expire / mask == current / mask { break; }
          mask := mask * TIME_LEVEL;
          i := i + 1;
        }
        PlaceLevel(expire, current, i);
        var idx := expire / Unit(i) % TIME_LEVEL;
        t[i, idx] := t[i, idx] + [node];
      }
    }

    /** Adds a timer `delay` ticks ahead. */
    method TimerAdd(event: Event, delay: nat)
      requires Sound() && 0 < delay < HORIZON
      modifies near, t, this`queue
      ensures Sound() && queue == old(queue).Add([(event, delay)])
    {
      hide TruePlace, PlaceOf, Pick;
      var node := Node(event, Clock(delay + time));
      ghost var timer := Timer(queue.id, event, queue.now + delay);
      ClockAdds(queue.now, delay);
      AddNode(node);
      assert Added([(event, delay)], queue.id, queue.now) == [timer];
      forall p | Exists(p) ensures ListAt(p) == Pick(queue.pending + [timer], queue.now, p) {
        PickAdd(queue.pending, timer, queue.now, p);
      }
      queue := queue.Add([(event, delay)]);
    }

    lemma ClockAdds(now: nat, delay: nat)
      ensures Clock(delay + Clock(now)) == Clock(now + delay)
    {
    }

    method MoveList(level: nat, idx: nat)
      requires Shape() && level < 4 && idx < TIME_LEVEL
      modifies near, t
      ensures forall p :: Exists(p) ==>
                ListAt(p) == (if p == Level(level, idx) then []
                              else old(ListAt(p))) + Sort(old(ListAt(Level(level, idx))), time, p)
    {
      hide PlaceOf, Sort;
      var current := t[level, idx];
      t[level, idx] := [];
      label Cleared:
      var k := 0;
      forall p | Exists(p) ensures ListAt(p) == ListAt(p) +
          Sort(current[..0], time, p) { SortNone(ListAt(p), current, time, p); }
      while k < |current|
        invariant 0 <= k <= |current|
        invariant forall p :: Exists(p) ==> ListAt(p) == old@Cleared(ListAt(p)) + Sort(current[..k], time, p)
      {
        AddNode(current[k]);
        forall p | Exists(p) ensures ListAt(p) == old@Cleared(ListAt(p)) + Sort(current[..k + 1], time, p) {
          SortStep(old@Cleared(ListAt(p)), current, k, time, p);
        }
        k := k + 1;
      }
      assert current[..k] == current;
    }

    /** Moves the clock on, and with it the list whose turn it is. */
    method TimerShift()
      requires Valid()
      modifies this`time, this`queue, near, t
      ensures Sound() && queue == old(queue).(now := old(queue).now + 1)
    {
      hide TruePlace, PlaceOf, Pick, Sort, TurnAt;
      ghost var turn := TurnAt(queue.now + 1);
      assert AllAhead(queue.pending, queue.now + 1);
      ClockAdds(queue.now, 1);
      TurnWraps(queue.now + 1);
      var ct := Clock(1 + time);
      time := ct;
      if ct == 0 {
        MoveList(3, 0);
      } else {
        var mask, rest, i := TIME_NEAR, ct / TIME_NEAR, 0;
        TurnStart(ct);
        while ct % mask == 0
          invariant 0 <= i < 4 && mask == Unit(i) && rest == ct / Unit(i) && (i > 0 ==> ct % mask == 0)
          invariant unchanged(near) && unchanged(t) && queue == old(queue) && time == ct
          decreases 4 - i
        {
          var idx := rest % TIME_LEVEL;
          TurnNext(ct, i);
          if idx != 0 {
            MoveList(i, idx);
            break;
          }
          mask := mask * TIME_LEVEL;
          rest := rest / TIME_LEVEL;
          i := i + 1;
        }
      }
      forall p | Exists(p) ensures ListAt(p) == Pick(queue.pending, queue.now + 1, p) {
        ShiftedList(queue.pending, queue.now, p);
      }
      queue := queue.(now := queue.now + 1);
    }

    /** Adds timers one after the other. */
    method AddAll(requests: seq<Request>)
      requires Sound()
      modifies near, t, this`queue
      ensures Sound() && queue == old(queue).Add(requests)
    {
      var k := 0;
      AddNone(queue);
      while k < |requests|
        invariant 0 <= k <= |requests| && Sound() && queue == old(queue).Add(requests[..k])
      {
        TimerAdd(requests[k].0, requests[k].1);
        AddOneMore(old(queue), requests, k);
        k := k + 1;
      }
      assert requests[..k] == requests;
    }

    /** Dispatches the timers at the hand of the clock.  Meanwhile the lock is released, and others
        may add timers: `during` is what they add. */
    method TimerExecute(during: seq<Request>) returns (fired: seq<Event>)
      requires Sound()
      modifies this`queue, near, t
      ensures Sound() && fired == Events(Due(old(queue).pending, queue.now))
      ensures var rest := Queue(old(queue).now, old(queue).id, Rest(old(queue).pending, old(queue).now));
              queue == if fired == [] then rest else rest.Add(during)
    {
      hide TruePlace, PlaceOf, Pick, Due, Rest, Clock;
      var idx := time % TIME_NEAR;
      ghost var now, first := queue.now, queue.pending;
      LowDigit(now);
      PickDue(first, now);
      fired := [];
      if near[idx] == [] { NothingDue(first, now); }
      while near[idx] != []
        invariant Sound() && queue.now == now && time == old(time)
        invariant near[idx] != [] ==> queue == old(queue) && fired == []
        invariant near[idx] == [] ==>
                    && fired == Events(Due(first, now))
                    && var rest := Queue(now, old(queue).id, Rest(first, now)); queue == if fired == [] then rest
                        else rest.Add(during)
        decreases |near[idx]|
      {
        var current := near[idx];
        fired := fired + NodeEvents(current);
        near[idx] := [];
        forall p | Exists(p) ensures ListAt(p) == Pick(Rest(first, now), now, p) { PickRest(first, now, p); }
        RestAhead(first, now);
        queue := queue.(pending := Rest(first, now));
        AddAll(during);
        AddedLater(first, during, old(queue).id, now);
        PickDue(queue.pending, now);
      }
    }

    /** A timeout asked for by a service: a message at once, which is `accepted` if the service is still
        there, or a timer. */
    method Timeout(event: Event, delay: int, session: int, accepted: bool) returns (pushed: seq<Event>, r: int)
      requires Valid() && delay < HORIZON
      modifies near, t, this`queue
      ensures Valid()
      ensures if delay <= 0 then pushed == [event] && queue == old(queue)
              else pushed == [] && queue == old(queue).Add([(event, delay)])
      ensures r == if delay <= 0 && !accepted then -1 else session
    {
      r := session;
      pushed := [];
      if delay <= 0 {
        pushed := [event];
        if !accepted { r := -1; }
      } else {
        AddValid(queue, [(event, delay)]);
        TimerAdd(event, delay);
      }
    }

    /** One tick of the clock. */
    method TimerUpdate(during: seq<Request>) returns (fired: seq<Event>)
      requires Valid()
      modifies this`time, this`queue, near, t
      ensures Valid() && queue == old(queue).Tick(during) && fired == Events(old(queue).Fired())
    {
      hide Sound, Due, Rest, Pick;
      NoneYet(queue);
      var early := TimerExecute([]);
      TimerShift();
      fired := TimerExecute(during);
      TickValid(old(queue), during);
    }

    /** Several ticks in a row: what happens is what `Play` says. */
    method Ticks(rounds: seq<Round>) returns (fired: seq<seq<Event>>)
      requires Valid()
      modifies this`time, this`queue, near, t
      ensures Valid() && queue == Ending(old(queue), rounds)
      ensures |fired| == |rounds| && forall k :: 0 <= k < |rounds| ==> fired[k] == Events(Play(old(queue), rounds)[k])
    {
      hide Sound, Due, Rest, Pick, Play, Ending;
      fired := [];
      var k := 0;
      PlayStart(queue, rounds);
      while k < |rounds|
        invariant 0 <= k <= |rounds| == |Play(old(queue), rounds)| && |fired| == k && Valid()
        invariant Ending(queue, rounds[k..]) == Ending(old(queue), rounds)
        invariant Play(queue, rounds[k..]) == Play(old(queue), rounds)[k..]
        invariant forall j :: 0 <= j < k ==> fired[j] == Events(Play(old(queue), rounds)[j])
      {
        AddValid(queue, rounds[k].before);
        PlayNext(queue, rounds, k);
        AddAll(rounds[k].before);
        var now := TimerUpdate(rounds[k].during);
        fired := fired + [now];
        k := k + 1;
      }
      PlayEnd(queue);
      assert rounds[k..] == [];
    }

    /** The system clock is at `cp`.  If it has moved on, so many ticks follow; if it has been set back, only
        the point of comparison is.  `rounds` is what others add before and during each tick. */
    method UpdateTime(cp: nat, rounds: seq<Round>) returns (fired: seq<seq<Event>>)
      requires Valid() && |rounds| == if cp > currentPoint then cp - currentPoint else 0
      modifies this`time, this`queue, this`current, this`currentPoint, near, t
      ensures Valid() && queue == Ending(old(queue), rounds)
      ensures currentPoint == cp && current == old(current) + |rounds|
      ensures |fired| == |rounds| && forall k :: 0 <= k < |rounds| ==> fired[k] == Events(Play(old(queue), rounds)[k])
    {
      hide Sound, Due, Rest, Pick, Play;
      fired := [];
      if cp < currentPoint {
        currentPoint := cp;
      } else if cp != currentPoint {
        var diff := cp - currentPoint;
        currentPoint := cp;
        current := current + diff;
        fired := Ticks(rounds);
      }
    }
  }

  // ---------------------------------------------------------------- queues

  lemma AddNone(q: Queue)
    ensures q == q.Add([])
  {
    assert q.pending + Added([], q.id, q.now) == q.pending;
  }

  lemma AddOneMore(q: Queue, requests: seq<Request>, k: nat)
    requires k < |requests|
    ensures q.Add(requests[..k]).Add([(requests[k].0, requests[k].1)]) == q.Add(requests[..k + 1])
  {
    var one: seq<Request> := [(requests[k].0, requests[k].1)];
    assert Added(requests[..k], q.id, q.now) + Added(one, q.id + k, q.now) == Added(requests[..k + 1], q.id, q.now);
  }

  lemma {:induction false} NothingDue(pending: seq<Timer>, now: nat)
    requires Due(pending, now) == []
    ensures Rest(pending, now) == pending
  {
    if pending != [] { NothingDue(pending[..|pending| - 1], now); }
  }

  lemma {:induction false} NoneDue(pending: seq<Timer>, now: nat)
    requires forall k :: 0 <= k < |pending| ==> pending[k].due != now
    ensures Due(pending, now) == []
  {
    if pending != [] { NoneDue(pending[..|pending| - 1], now); }
  }

  lemma {:induction false} RestAhead(pending: seq<Timer>, now: nat)
    requires AllAhead(pending, now)
    ensures AllAhead(Rest(pending, now), now)
    ensures forall k :: 0 <= k < |Rest(pending, now)| ==> Rest(pending, now)[k].due != now
  {
    if pending != [] { RestAhead(pending[..|pending| - 1], now); }
  }

  /** What is added while timers are fired is due later. */
  lemma AddedLater(pending: seq<Timer>, during: seq<Request>, id: nat, now: nat)
    requires AllAhead(pending, now)
    ensures Due(Rest(pending, now) + Added(during, id, now), now) == []
  {
    RestAhead(pending, now);
    NoneDue(Rest(pending, now) + Added(during, id, now), now);
  }

  /** Between two ticks nothing is due. */
  lemma NoneYet(q: Queue)
    requires q.Valid()
    ensures Due(q.pending, q.now) == [] && Rest(q.pending, q.now) == q.pending
  {
    NoneDue(q.pending, q.now);
    NothingDue(q.pending, q.now);
  }

  lemma PlayStart(q: Queue, rounds: seq<Round>)
    ensures rounds[0..] == rounds && Play(q, rounds)[0..] == Play(q, rounds)
  {
  }

  lemma PlayNext(q: Queue, rounds: seq<Round>, k: nat)
    requires k < |rounds|
    ensures rounds[k..][1..] == rounds[k + 1..]
    ensures var added := q.Add(rounds[k].before); var next := added.Tick(rounds[k].during);
            && Play(q, rounds[k..]) == [added.Fired()] + Play(next, rounds[k + 1..])
            && Play(q, rounds[k..])[1..] == Play(next, rounds[k + 1..])
            && Ending(q, rounds[k..]) == Ending(next, rounds[k + 1..])
  {
    assert rounds[k..][1..] == rounds[k + 1..];
  }

  lemma PlayEnd(q: Queue)
    ensures Ending(q, []) == q
  {
  }
}

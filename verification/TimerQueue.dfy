/** What a timer is for: a plain queue of pending timers, each fired in the tick that is its time. */
module TimerQueue {
  import opened TimerPlaces

  datatype Event = Event(handle: nat, session: int)

  /** A pending timer: the number it was added under, its event, and when it is due. */
  datatype Timer = Timer(id: nat, event: Event, due: nat)

  /** A timer to be added, so many ticks ahead. */
  type Request = r: (Event, nat) | 0 < r.1 < HORIZON witness (Event(0, 0), 1)

  /** The timers due at `now`, in the order in which they were added. */
  function Due(pending: seq<Timer>, now: nat): seq<Timer> {
    if pending == [] then []
    else
      var n := |pending| - 1;
      Due(pending[..n], now) + if pending[n].due == now then [pending[n]] else []
  }

  function Rest(pending: seq<Timer>, now: nat): seq<Timer> {
    if pending == [] then []
    else
      var n := |pending| - 1;
      Rest(pending[..n], now) + if pending[n].due == now then [] else [pending[n]]
  }

  function Events(timers: seq<Timer>): (es: seq<Event>)
    ensures |es| == |timers| && forall k :: 0 <= k < |es| ==> es[k] == timers[k].event
  {
    seq(|timers|, k requires 0 <= k < |timers| => timers[k].event)
  }

  /** The timers that requests made at `now` add; `id` is the first free number. */
  function Added(requests: seq<Request>, id: nat, now: nat): (new_: seq<Timer>)
    ensures |new_| == |requests|
    ensures forall k :: 0 <= k < |new_| ==> new_[k] == Timer(id + k, requests[k].0, now + requests[k].1)
  {
    seq(|requests|, k requires 0 <= k < |requests| => Timer(id + k, requests[k].0, now + requests[k].1))
  }

  /** The clock, the next free number, and the pending timers in the order of their numbers. */
  datatype Queue = Queue(now: nat, id: nat, pending: seq<Timer>) {
    ghost predicate Valid() {
      && (forall k :: 0 <= k < |pending| ==> now < pending[k].due < now + HORIZON && pending[k].id < id)
      && (forall j, k :: 0 <= j < k < |pending| ==> pending[j].id < pending[k].id)
    }

    function Add(requests: seq<Request>): Queue {
      Queue(now, id + |requests|, pending + Added(requests, id, now))
    }

    /** The next tick.  While timers are fired others may be added. */
    function Tick(during: seq<Request>): Queue {
      var fired := Due(pending, now + 1);
      var rest := Queue(now + 1, id, Rest(pending, now + 1));
      if fired == [] then rest else rest.Add(during)
    }

    function Fired(): seq<Timer> {
      Due(pending, now + 1)
    }
  }

  /** What happens between two ticks and during the second one. */
  datatype Round = Round(before: seq<Request>, during: seq<Request>)

  /** What is fired, tick by tick. */
  function Play(q: Queue, rounds: seq<Round>): (fired: seq<seq<Timer>>)
    ensures |fired| == |rounds|
    decreases |rounds|
  {
    if rounds == [] then []
    else
      var added := q.Add(rounds[0].before);
      [added.Fired()] + Play(added.Tick(rounds[0].during), rounds[1..])
  }

  function Ending(q: Queue, rounds: seq<Round>): Queue
    decreases |rounds|
  {
    if rounds == [] then q else Ending(q.Add(rounds[0].before).Tick(rounds[0].during), rounds[1..])
  }

  ghost predicate Increasing(timers: seq<Timer>) {
    forall j, k :: 0 <= j < k < |timers| ==> timers[j].id < timers[k].id
  }

  /** Nothing is lost or made up: what is due, and what is not, in the order of the numbers. */
  lemma {:induction false} DueAndRest(pending: seq<Timer>, now: nat)
    requires Increasing(pending)
    ensures forall t :: t in Due(pending, now) <==> t in pending && t.due == now
    ensures forall t :: t in Rest(pending, now) <==> t in pending && t.due != now
    ensures Increasing(Due(pending, now)) && Increasing(Rest(pending, now))
  {
    if pending != [] {
      var n := |pending| - 1;
      DueAndRest(pending[..n], now);
      assert pending == pending[..n] + [pending[n]];
      assert forall t :: t in pending[..n] ==> t.id < pending[n].id;
      IncreasingLast(Due(pending[..n], now), pending[n]);
      IncreasingLast(Rest(pending[..n], now), pending[n]);
    }
  }

  lemma IncreasingLast(timers: seq<Timer>, last: Timer)
    requires Increasing(timers) && forall t :: t in timers ==> t.id < last.id
    ensures Increasing(timers + [last])
  {
  }

  lemma AddValid(q: Queue, requests: seq<Request>)
    requires q.Valid()
    ensures q.Add(requests).Valid()
  {
  }

  /** Adding timers leaves those that have a number already. */
  lemma AddKeeps(q: Queue, requests: seq<Request>, t: Timer)
    requires t.id < q.id
    ensures t in q.Add(requests).pending <==> t in q.pending
  {
    var added := Added(requests, q.id, q.now);
    assert t !in added by {
      forall k | 0 <= k < |added| ensures added[k] != t { assert added[k].id == q.id + k; }
    }
  }

  lemma RestValid(q: Queue)
    requires q.Valid()
    ensures Queue(q.now + 1, q.id, Rest(q.pending, q.now + 1)).Valid()
  {
    hide Rest, Due;
    DueAndRest(q.pending, q.now + 1);
    var rest := Rest(q.pending, q.now + 1);
    forall k | 0 <= k < |rest| ensures q.now + 1 < rest[k].due < q.now + 1 + HORIZON && rest[k].id < q.id {
      assert rest[k] in q.pending;
    }
  }

  lemma TickValid(q: Queue, during: seq<Request>)
    requires q.Valid()
    ensures q.Tick(during).Valid()
  {
    hide Queue.Valid, Rest, Due;
    RestValid(q);
    AddValid(Queue(q.now + 1, q.id, Rest(q.pending, q.now + 1)), during);
  }

  /** A tick takes away the timers that are due, and no others. */
  lemma TickKeeps(q: Queue, during: seq<Request>, t: Timer)
    requires q.Valid() && t.id < q.id
    ensures t in q.Tick(during).pending <==> t in q.pending && t.due != q.now + 1
  {
    hide Rest, Due;
    DueAndRest(q.pending, q.now + 1);
    AddKeeps(Queue(q.now + 1, q.id, Rest(q.pending, q.now + 1)), during, t);
  }

  function Fires(q: Queue, round: Round): seq<Timer> {
    q.Add(round.before).Fired()
  }

  function Next(q: Queue, round: Round): Queue {
    q.Add(round.before).Tick(round.during)
  }

  /** What one round does to a timer that has a number already. */
  lemma RoundFacts(q: Queue, round: Round, t: Timer)
    requires q.Valid() && t.id < q.id
    ensures var next := Next(q, round);
            && next.Valid() && next.now == q.now + 1 && next.id >= q.id
            && (t in Fires(q, round) <==> t in q.pending && t.due == q.now + 1)
            && (t in next.pending <==> t in q.pending && t.due != q.now + 1)
  {
    hide Queue.Valid, Rest;
    var added := q.Add(round.before);
    AddValid(q, round.before);
    AddKeeps(q, round.before, t);
    FiredIs(added, t);
    TickValid(added, round.during);
    TickKeeps(added, round.during, t);
  }

  lemma FiredIs(q: Queue, t: Timer)
    requires q.Valid()
    ensures t in q.Fired() <==> t in q.pending && t.due == q.now + 1
  {
    DueAndRest(q.pending, q.now + 1);
  }

  lemma RoundOrder(q: Queue, round: Round)
    requires q.Valid()
    ensures Next(q, round).Valid() && Increasing(Fires(q, round))
  {
    var added := q.Add(round.before);
    AddValid(q, round.before);
    DueAndRest(added.pending, added.now + 1);
    TickValid(added, round.during);
  }

  lemma PlayRound(q: Queue, rounds: seq<Round>, k: nat)
    requires k < |rounds|
    ensures Play(q, rounds)[k] == if k == 0 then Fires(q, rounds[0]) else Play(Next(q, rounds[0]), rounds[1..])[k - 1]
    ensures Ending(q, rounds) == Ending(Next(q, rounds[0]), rounds[1..])
  {
  }

  /** Every pending timer is fired exactly once, in exactly the tick that is its time, whatever is
      added in the meantime. */
  lemma {:induction false} FiresOnTime(q: Queue, rounds: seq<Round>, t: Timer)
    requires q.Valid() && t in q.pending
    ensures forall k :: 0 <= k < |rounds| ==> (t in Play(q, rounds)[k] <==> t.due == q.now + 1 + k)
    ensures t in Ending(q, rounds).pending <==> t.due > q.now + |rounds|
    decreases |rounds|
  {
    hide Play, Fires, Next;
    if rounds != [] {
      var next := Next(q, rounds[0]);
      RoundFacts(q, rounds[0], t);
      if t.due != q.now + 1 { FiresOnTime(next, rounds[1..], t); } else { StaysGone(next, rounds[1..], t); }
      PlayRound(q, rounds, 0);
      forall k | 0 <= k < |rounds| ensures t in Play(q, rounds)[k] <==> t.due == q.now + 1 + k {
        PlayRound(q, rounds, k);
      }
    }
  }

  /** A timer that has been fired is not fired again. */
  lemma {:induction false} StaysGone(q: Queue, rounds: seq<Round>, t: Timer)
    requires q.Valid() && t !in q.pending && t.id < q.id
    ensures forall k :: 0 <= k < |rounds| ==> t !in Play(q, rounds)[k]
    ensures t !in Ending(q, rounds).pending
    decreases |rounds|
  {
    hide Play, Fires, Next;
    if rounds != [] {
      RoundFacts(q, rounds[0], t);
      StaysGone(Next(q, rounds[0]), rounds[1..], t);
      PlayRound(q, rounds, 0);
      forall k | 0 <= k < |rounds| ensures t !in Play(q, rounds)[k] { PlayRound(q, rounds, k); }
    }
  }

  /** Timers fired in the same tick are fired in the order in which they were added, each once. */
  lemma {:induction false} FiresInOrder(q: Queue, rounds: seq<Round>, k: nat)
    requires q.Valid() && k < |rounds|
    ensures Increasing(Play(q, rounds)[k])
    decreases |rounds|
  {
    hide Play, Fires, Next, Increasing;
    RoundOrder(q, rounds[0]);
    PlayRound(q, rounds, k);
    if k > 0 { FiresInOrder(Next(q, rounds[0]), rounds[1..], k - 1); }
  }

  /** A timer set `d` ticks ahead is fired in exactly the `d`-th tick from then, and in no other. */
  lemma FiresAfterDelay(q: Queue, request: Request, rounds: seq<Round>, k: nat)
    requires q.Valid() && k < |rounds|
    ensures var t := Timer(q.id, request.0, q.now + request.1);
            t in Play(q.Add([request]), rounds)[k] <==> k + 1 == request.1
  {
    var t := Timer(q.id, request.0, q.now + request.1);
    var added := q.Add([request]);
    AddValid(q, [request]);
    assert added.pending[|q.pending|] == t;
    FiresOnTime(added, rounds, t);
  }

  // ---------------------------------------------------------------- what is fired, without going tick by tick

  /** All timers that are asked for, in the order of their numbers.  What is asked for while timers are fired counts if
      there are any: `fired` says what is fired tick by tick. */
  function Asked(rounds: seq<Round>, fired: seq<seq<Timer>>, now: nat, id: nat): seq<Timer>
    requires |fired| == |rounds|
    decreases |rounds|
  {
    if rounds == [] then []
    else
      var before := Added(rounds[0].before, id, now);
      var during := if fired[0] == [] then [] else Added(rounds[0].during, id + |before|, now + 1);
      before + during + Asked(rounds[1..], fired[1..], now + 1, id + |before| + |during|)
  }

  /** The timers that are due after `now`. */
  function After(timers: seq<Timer>, now: nat): seq<Timer> {
    if timers == [] then []
    else
      var n := |timers| - 1;
      After(timers[..n], now) + if timers[n].due > now then [timers[n]] else []
  }

  lemma {:induction false} DueOf(timers: seq<Timer>, now: nat, t: Timer)
    ensures t in Due(timers, now) <==> t in timers && t.due == now
    ensures t in After(timers, now) <==> t in timers && t.due > now
  {
    if timers != [] {
      var n := |timers| - 1;
      DueOf(timers[..n], now, t);
      assert timers == timers[..n] + [timers[n]];
    }
  }

  lemma {:induction false} DueAppend(a: seq<Timer>, b: seq<Timer>, now: nat)
    ensures Due(a + b, now) == Due(a, now) + Due(b, now) && After(a + b, now) == After(a, now) + After(b, now)
  {
    if b == [] {
      assert a + b == a;
    } else {
      var n := |b| - 1;
      assert (a + b)[..|a + b| - 1] == a + b[..n];
      DueAppend(a, b[..n], now);
    }
  }

  /** Taking out what is due at one time leaves what is due at others. */
  lemma {:induction false} DueRest(timers: seq<Timer>, now: nat, later: nat)
    ensures now != later ==> Due(Rest(timers, now), later) == Due(timers, later)
    ensures now <= later ==> After(Rest(timers, now), later) == After(timers, later)
  {
    if timers != [] {
      var n := |timers| - 1;
      var rest := Rest(timers[..n], now);
      DueRest(timers[..n], now, later);
      if timers[n].due != now { assert (rest + [timers[n]])[..|rest|] == rest; }
      else { assert rest + [] == rest; }
    }
  }

  lemma {:induction false} NoneDueYet(timers: seq<Timer>, now: nat)
    requires forall k :: 0 <= k < |timers| ==> timers[k].due > now
    ensures Due(timers, now) == [] && After(timers, now) == timers
  {
    if timers != [] { NoneDueYet(timers[..|timers| - 1], now); }
  }

  lemma {:induction false} AskedAhead(rounds: seq<Round>, fired: seq<seq<Timer>>, now: nat, id: nat)
    requires |fired| == |rounds|
    ensures forall k :: 0 <= k < |Asked(rounds, fired, now, id)| ==> Asked(rounds, fired, now, id)[k].due > now
    decreases |rounds|
  {
    if rounds != [] {
      var before := Added(rounds[0].before, id, now);
      var during := if fired[0] == [] then [] else Added(rounds[0].during, id + |before|, now + 1);
      AskedAhead(rounds[1..], fired[1..], now + 1, id + |before| + |during|);
    }
  }

  /** All timers of a play: those pending at its start, and those asked for. */
  function AllOf(q: Queue, rounds: seq<Round>): seq<Timer> {
    q.pending + AskedOf(q, rounds)
  }

  function AskedOf(q: Queue, rounds: seq<Round>): seq<Timer> {
    Asked(rounds, Play(q, rounds), q.now, q.id)
  }

  /** What is pending when the next tick comes, and what is asked for while timers are fired in it */
  function Before(q: Queue, round: Round): seq<Timer> { q.Add(round.before).pending }

  function During(q: Queue, round: Round): seq<Timer> {
    if Fires(q, round) == [] then [] else Added(round.during, q.id + |round.before|, q.now + 1)
  }

  lemma NextIs(q: Queue, round: Round)
    ensures Fires(q, round) == Due(Before(q, round), q.now + 1)
    ensures var during := During(q, round);
            Next(q, round) == Queue(q.now + 1, q.id + |round.before| + |during|,
                                    Rest(Before(q, round), q.now + 1) + during)
  {
    hide Due, Rest, Added;
    var rest := Rest(Before(q, round), q.now + 1);
    assert rest + [] == rest;
  }

  lemma AskedRound(q: Queue, rounds: seq<Round>)
    requires rounds != []
    ensures var next := Next(q, rounds[0]);
            AskedOf(q, rounds) ==
              Added(rounds[0].before, q.id, q.now) + During(q, rounds[0]) + AskedOf(next, rounds[1..])
  {
    hide Due, Rest, Added, Fires, Next;
    var next := Next(q, rounds[0]);
    PlayRound(q, rounds, 0);
    NextIs(q, rounds[0]);
    PlayRest(q, rounds);
  }

  lemma PlayRest(q: Queue, rounds: seq<Round>)
    requires rounds != []
    ensures Play(q, rounds)[1..] == Play(Next(q, rounds[0]), rounds[1..])
  {
    hide Due, Rest, Added;
  }

  /** All timers of a play, seen from its first round */
  lemma AllOfRound(q: Queue, rounds: seq<Round>)
    requires rounds != []
    ensures var next, before := Next(q, rounds[0]), Before(q, rounds[0]);
            var later := During(q, rounds[0]) + AskedOf(next, rounds[1..]);
            AllOf(q, rounds) == before + later && AllOf(next, rounds[1..]) == Rest(before, q.now + 1) + later
  {
    hide Due, Rest, Added, Fires, Next, During, AskedOf;
    AskedRound(q, rounds);
    NextIs(q, rounds[0]);
  }

  lemma LaterAhead(q: Queue, rounds: seq<Round>)
    requires rounds != []
    ensures var later := During(q, rounds[0]) + AskedOf(Next(q, rounds[0]), rounds[1..]);
            forall k :: 0 <= k < |later| ==> later[k].due > q.now + 1
  {
    hide Due, Rest, Fires, Asked, Play, Next;
    var next := Next(q, rounds[0]);
    NextIs(q, rounds[0]);
    AskedAhead(rounds[1..], Play(next, rounds[1..]), next.now, next.id);
  }

  /** What is fired in a tick is what has been asked for by then and is due then, in the order in which it was
      asked for, and nothing else. */
  lemma {:induction false} FiresExactly(q: Queue, rounds: seq<Round>, k: nat)
    requires k < |rounds|
    ensures Play(q, rounds)[k] == Due(AllOf(q, rounds), q.now + 1 + k)
    decreases |rounds|
  {
    hide Play, Due, Rest, After, AllOf, AskedOf, During, Before, Fires, Next;
    var next, now, before := Next(q, rounds[0]), q.now + 1 + k, Before(q, rounds[0]);
    var later := During(q, rounds[0]) + AskedOf(next, rounds[1..]);
    NextIs(q, rounds[0]);
    AllOfRound(q, rounds);
    PlayRound(q, rounds, k);
    DueAppend(before, later, now);
    if k == 0 {
      LaterAhead(q, rounds);
      NoneDueYet(later, now);
    } else {
      FiresExactly(next, rounds[1..], k - 1);
      DueAppend(Rest(before, q.now + 1), later, now);
      DueRest(before, q.now + 1, now);
    }
  }

  /** And what is pending in the end is what has been asked for and is due later. */
  lemma {:induction false} PendingExactly(q: Queue, rounds: seq<Round>)
    requires q.Valid()
    ensures Ending(q, rounds).now == q.now + |rounds|
    ensures Ending(q, rounds).pending == After(AllOf(q, rounds), q.now + |rounds|)
    decreases |rounds|
  {
    hide Play, Due, Rest, After, AllOf, AskedOf, During, Before, Fires, Next, Queue.Valid;
    if rounds == [] {
      EndsAtOnce(q);
    } else {
      var next, now, before := Next(q, rounds[0]), q.now + |rounds|, Before(q, rounds[0]);
      var later := During(q, rounds[0]) + AskedOf(next, rounds[1..]);
      NextIs(q, rounds[0]);
      AllOfRound(q, rounds);
      PlayRound(q, rounds, 0);
      RoundOrder(q, rounds[0]);
      PendingExactly(next, rounds[1..]);
      DueAppend(before, later, now);
      DueAppend(Rest(before, q.now + 1), later, now);
      DueRest(before, q.now + 1, now);
    }
  }

  lemma EndsAtOnce(q: Queue)
    requires q.Valid()
    ensures Ending(q, []) == q && q.pending == After(AllOf(q, []), q.now)
  {
    assert AllOf(q, []) == q.pending;
    NoneDueYet(q.pending, q.now);
  }

  // ---------------------------------------------------------------- every timer that is asked for is fired

  /** The `k`-th timer asked for before the tick of round `r`. */
  function AskedBefore(q: Queue, rounds: seq<Round>, r: nat, k: nat): Timer
    requires r < |rounds| && k < |rounds[r].before|
  {
    var request := rounds[r].before[k];
    Timer(Ending(q, rounds[..r]).id + k, request.0, q.now + r + request.1)
  }

  /** The `k`-th timer asked for while timers are fired in round `r`. */
  function AskedDuring(q: Queue, rounds: seq<Round>, r: nat, k: nat): Timer
    requires r < |rounds| && k < |rounds[r].during|
  {
    var request := rounds[r].during[k];
    Timer(Ending(q, rounds[..r]).id + |rounds[r].before| + k, request.0, q.now + r + 1 + request.1)
  }

  lemma {:induction false} BeforeAsked(q: Queue, rounds: seq<Round>, r: nat, k: nat)
    requires r < |rounds| && k < |rounds[r].before|
    ensures AskedBefore(q, rounds, r, k) in AskedOf(q, rounds)
    decreases r
  {
    hide Due, Rest, AskedOf, Play, Fires, Next, During, Added;
    AskedRound(q, rounds);
    if r == 0 {
      assert rounds[..0] == [];
      var before := Added(rounds[0].before, q.id, q.now);
      assert before[k] in before;
    } else {
      NextIs(q, rounds[0]);
      BeforeAsked(Next(q, rounds[0]), rounds[1..], r - 1, k);
      EndingRest(q, rounds, r);
    }
  }

  lemma EndingRest(q: Queue, rounds: seq<Round>, r: nat)
    requires 0 < r <= |rounds|
    ensures Ending(q, rounds[..r]) == Ending(Next(q, rounds[0]), rounds[1..][..r - 1])
  {
    hide Due, Rest, Added;
    assert rounds[..r][1..] == rounds[1..][..r - 1];
  }

  lemma {:induction false} DuringAsked(q: Queue, rounds: seq<Round>, r: nat, k: nat)
    requires r < |rounds| && k < |rounds[r].during| && Play(q, rounds)[r] != []
    ensures AskedDuring(q, rounds, r, k) in AskedOf(q, rounds)
    decreases r
  {
    hide Due, Rest, AskedOf, Play, Fires, Next, Added;
    AskedRound(q, rounds);
    PlayRound(q, rounds, r);
    if r == 0 {
      assert rounds[..0] == [];
      var during := Added(rounds[0].during, q.id + |rounds[0].before|, q.now + 1);
      assert during[k] in during;
    } else {
      NextIs(q, rounds[0]);
      DuringAsked(Next(q, rounds[0]), rounds[1..], r - 1, k);
      EndingRest(q, rounds, r);
    }
  }

  /** A timer that is asked for before a tick, `d` ticks ahead, is fired in exactly the `d`-th tick from then, and in
      no other, whatever else is asked for and fired. */
  lemma BeforeFires(q: Queue, rounds: seq<Round>, r: nat, k: nat, j: nat)
    requires r < |rounds| && k < |rounds[r].before| && j < |rounds|
    ensures AskedBefore(q, rounds, r, k) in Play(q, rounds)[j] <==> j + 1 == r + rounds[r].before[k].1
  {
    hide Play, Due, AskedOf, Ending;
    BeforeAsked(q, rounds, r, k);
    FiresExactly(q, rounds, j);
    DueOf(AllOf(q, rounds), q.now + 1 + j, AskedBefore(q, rounds, r, k));
  }

  /** And so is one that is asked for while timers are fired in a tick: it is fired in the `d`-th tick after that. */
  lemma DuringFires(q: Queue, rounds: seq<Round>, r: nat, k: nat, j: nat)
    requires r < |rounds| && k < |rounds[r].during| && Play(q, rounds)[r] != [] && j < |rounds|
    ensures AskedDuring(q, rounds, r, k) in Play(q, rounds)[j] <==> j == r + rounds[r].during[k].1
  {
    hide Play, Due, AskedOf, Ending;
    DuringAsked(q, rounds, r, k);
    FiresExactly(q, rounds, j);
    DueOf(AllOf(q, rounds), q.now + 1 + j, AskedDuring(q, rounds, r, k));
  }
}

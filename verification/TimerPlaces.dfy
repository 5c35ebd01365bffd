/** Where the timing wheel of skynet_timer.c keeps a timer, and how that changes as time goes by. */
module TimerPlaces {
  import opened Basics

  const TIME_NEAR := 256

  const TIME_LEVEL := 64

  /** The clock and the expiry times are unsigned 32-bit numbers that wrap around. */
  const WRAP := 0x1_0000_0000

  type uint32 = n: nat | n < 0x1_0000_0000

  function Clock(t: nat): uint32 { t % WRAP }

  datatype Place = Near(index: nat) | Level(level: nat, index: nat)

  /** The list `add_node` chooses, from 32-bit times.  Two times agree above a mask of ones exactly
      when they have the same quotient. */
  function PlaceOf(expire: uint32, time: uint32): (p: Place)
    ensures p.Near? ==> p.index < TIME_NEAR
    ensures p.Level? ==> p.level < 4 && p.index < TIME_LEVEL
  {
    if expire / 0x100 == time / 0x100 then Near(expire % TIME_NEAR)
    else if expire / 0x4000 == time / 0x4000 then Level(0, expire / 0x100 % TIME_LEVEL)
    else if expire / 0x10_0000 == time / 0x10_0000 then Level(1, expire / 0x4000 % TIME_LEVEL)
    else if expire / 0x400_0000 == time / 0x400_0000 then Level(2, expire / 0x10_0000 % TIME_LEVEL)
    else Level(3, expire / 0x400_0000 % TIME_LEVEL)
  }

  /** The same choice, from times that never wrap. */
  function TruePlace(due: nat, now: nat): Place {
    if due / 0x100 == now / 0x100 then Near(due % TIME_NEAR)
    else if due / 0x4000 == now / 0x4000 then Level(0, due / 0x100 % TIME_LEVEL)
    else if due / 0x10_0000 == now / 0x10_0000 then Level(1, due / 0x4000 % TIME_LEVEL)
    else if due / 0x400_0000 == now / 0x400_0000 then Level(2, due / 0x10_0000 % TIME_LEVEL)
    else Level(3, due / 0x400_0000 % TIME_LEVEL)
  }

  /** How far ahead a timer may be set: a positive `int`. */
  const HORIZON := 0x8000_0000

  predicate Ahead(due: nat, now: nat) {
    now <= due < now + HORIZON
  }

  /** Quotients of a number and of its remainder modulo 2^32, for a quotient of 2^32 = m * r. */
  lemma WrapQuotient(x: nat, m: nat, r: nat)
    requires m > 0 && r > 0 && m * r == WRAP
    ensures x / m == r * (x / WRAP) + Clock(x) / m && Clock(x) / m < r
  {
    var q, c := x / WRAP, Clock(x);
    assert x == m * (r * q) + c by { assert m * (r * q) == (m * r) * q; }
    Quotient(r * q, m, c);
    QuotientBound(c, m, r);
  }

  lemma Quotient(k: nat, m: nat, c: nat)
    requires m > 0
    ensures (m * k + c) / m == k + c / m
  {
    var q := c / m;
    assert c == m * q + c % m;
    assert m * k + c == m * (k + q) + c % m;
    Unique(m * k + c, m, k + q, c % m);
  }

  lemma Unique(x: nat, m: nat, q: nat, c: nat)
    requires m > 0 && x == m * q + c && c < m
    ensures x / m == q
  {
    var p := x / m;
    assert x == m * p + x % m;
    Product(m, p + 1, q);
    Product(m, q + 1, p);
  }

  lemma QuotientBound(c: nat, m: nat, r: nat)
    requires m > 0 && c < m * r
    ensures c / m < r
  {
    var q := c / m;
    Product(m, r, q);
  }

  lemma SameQuotient(due: nat, now: nat, m: nat, r: nat)
    requires Ahead(due, now) && m > 0 && r > 2 && m * r == WRAP && HORIZON / m < r - 1
    ensures Clock(due) / m == Clock(now) / m <==> due / m == now / m
  {
    WrapQuotient(due, m, r);
    WrapQuotient(now, m, r);
    var a, b := due / WRAP, now / WRAP;
    assert a == b || a == b + 1;
    if a == b + 1 {
      assert r * a == r * b + r;
      Difference(due, now, m);
    }
  }

  lemma Difference(due: nat, now: nat, m: nat)
    requires m > 0 && now <= due < now + HORIZON
    ensures due / m <= now / m + HORIZON / m + 1
  {
    var a, b, h := due / m, now / m, HORIZON / m;
    assert m * a <= due && now < m * b + m && HORIZON < m * h + m;
    Product(m, b + h + 2, a);
    assert m * (b + h + 2) == m * b + m * h + 2 * m;
  }

  lemma SameDigit(x: nat, m: nat, k: nat)
    requires m > 0 && k > 0 && m * (TIME_LEVEL * k) == WRAP
    ensures Clock(x) / m % TIME_LEVEL == x / m % TIME_LEVEL
  {
    WrapQuotient(x, m, TIME_LEVEL * k);
    Times(TIME_LEVEL, k, x / WRAP);
    LastDigit(x / m, k * (x / WRAP), Clock(x) / m);
  }

  lemma Times(a: nat, b: nat, c: nat)
    ensures a * b * c == a * (b * c)
  {
  }

  /** Multiples of 64 do not show in the last digit. */
  lemma LastDigit(x: nat, q: nat, y: nat)
    requires x == TIME_LEVEL * q + y
    ensures x % TIME_LEVEL == y % TIME_LEVEL
  {
  }

  lemma Distribute(m: nat, r: nat, d: nat)
    ensures m * (TIME_LEVEL * r + d) == m * TIME_LEVEL * r + m * d
  {
  }

  /** Wrapping the times around does not mislead `add_node`. */
  lemma WrapHarmless(due: nat, now: nat)
    requires Ahead(due, now)
    ensures PlaceOf(Clock(due), Clock(now)) == TruePlace(due, now)
  {
    hide Clock;
    SameQuotient(due, now, 0x100, 0x100_0000);
    SameQuotient(due, now, 0x4000, 0x4_0000);
    SameQuotient(due, now, 0x10_0000, 0x1000);
    SameQuotient(due, now, 0x400_0000, 0x40);
    SameDigit(due, 0x100, 0x4_0000);
    SameDigit(due, 0x4000, 0x1000);
    SameDigit(due, 0x10_0000, 0x40);
    SameDigit(due, 0x400_0000, 1);
    assert Clock(due) % TIME_NEAR == due % TIME_NEAR by { LowDigit(due); }
  }

  lemma LowDigit(x: nat)
    ensures Clock(x) % TIME_NEAR == x % TIME_NEAR
  {
    assert x == TIME_NEAR * (0x100_0000 * (x / WRAP)) + Clock(x);
  }

  /** The list whose turn it is to be moved when the clock gets to `now`, if any. */
  datatype Turn = Nothing | Move(level: nat, index: nat)

  function TurnAt(now: nat): Turn {
    if now % 0x100 != 0 then Nothing
    else if now % 0x4000 != 0 then Move(0, now / 0x100 % TIME_LEVEL)
    else if now % 0x10_0000 != 0 then Move(1, now / 0x4000 % TIME_LEVEL)
    else if now % 0x400_0000 != 0 then Move(2, now / 0x10_0000 % TIME_LEVEL)
    else Move(3, now / 0x400_0000 % TIME_LEVEL)
  }

  /** Quotients change only at multiples, and then by one. */
  lemma NextQuotient(now: nat, m: nat)
    requires m > 0
    ensures (now + 1) / m == if (now + 1) % m == 0 then now / m + 1 else now / m
  {
    var q, c := now / m, now % m;
    assert now == m * q + c;
    if c + 1 == m {
      assert now + 1 == m * (q + 1) + 0;
      Unique(now + 1, m, q + 1, 0);
      assert (now + 1) % m == 0;
    } else {
      Unique(now + 1, m, q, c + 1);
      assert (now + 1) % m == c + 1;
    }
  }

  predicate Below(p: Place, level: nat) {
    p.Near? || p.level < level
  }

  /** A time cut up at the levels of the wheel. */
  datatype Cut = Cut(q0: nat, q1: nat, q2: nat, q3: nat) {
    predicate Valid() {
      && 0 <= q0 - TIME_LEVEL * q1 < TIME_LEVEL
      && 0 <= q1 - TIME_LEVEL * q2 < TIME_LEVEL
      && 0 <= q2 - TIME_LEVEL * q3 < TIME_LEVEL
    }
  }

  function CutOf(t: nat): Cut {
    Cut(t / 0x100, t / 0x4000, t / 0x10_0000, t / 0x400_0000)
  }

  lemma CutValid(t: nat)
    ensures CutOf(t).Valid()
  {
    Split(t, 0x100);
    Split(t, 0x4000);
    Split(t, 0x10_0000);
  }

  lemma Split(t: nat, m: nat)
    requires m > 0
    ensures 0 <= t / m - TIME_LEVEL * (t / (m * TIME_LEVEL)) < TIME_LEVEL
  {
    var q, r := t / m, t / (m * TIME_LEVEL);
    assert m * q <= t < m * q + m;
    assert m * TIME_LEVEL * r <= t < m * TIME_LEVEL * r + m * TIME_LEVEL;
    assert m * TIME_LEVEL * r == m * (TIME_LEVEL * r) &&
           m * TIME_LEVEL * r + m * TIME_LEVEL == m * (TIME_LEVEL * (r + 1));
    assert m * q + m == m * (q + 1);
    Product(m, q + 1, TIME_LEVEL * r);
    Product(m, TIME_LEVEL * (r + 1), q);
  }

  /** `TruePlace` and `TurnAt`, from times that have been cut up. */
  function CutPlace(low: nat, due: Cut, now: Cut): Place {
    if due.q0 == now.q0 then Near(low)
    else if due.q1 == now.q1 then Level(0, due.q0 % TIME_LEVEL)
    else if due.q2 == now.q2 then Level(1, due.q1 % TIME_LEVEL)
    else if due.q3 == now.q3 then Level(2, due.q2 % TIME_LEVEL)
    else Level(3, due.q3 % TIME_LEVEL)
  }

  /** What one tick does to a time that has been cut up. */
  predicate Tick(now: Cut, next: Cut, turn: Turn) {
    match turn
    case Nothing => next == now
    case Move(level, index) =>
      && level < 4 && next.q0 == now.q0 + 1
      && (if level == 0 then next.q1 == now.q1 else next.q1 == now.q1 + 1 && next.q0 == TIME_LEVEL * next.q1)
      && (if level <= 1 then next.q2 == now.q2 else next.q2 == now.q2 + 1 && next.q1 == TIME_LEVEL * next.q2)
      && (if level <= 2 then next.q3 == now.q3 else next.q3 == now.q3 + 1 && next.q2 == TIME_LEVEL * next.q3)
      && index == (if level == 0 then next.q0 else if level == 1 then next.q1 else if level == 2 then next.q2
                   else next.q3) % TIME_LEVEL
  }

  lemma TickCut(now: nat)
    ensures Tick(CutOf(now), CutOf(now + 1), TurnAt(now + 1))
  {
    NextQuotient(now, 0x100);
    NextQuotient(now, 0x4000);
    NextQuotient(now, 0x10_0000);
    NextQuotient(now, 0x400_0000);
    Multiple(now + 1, 0x100);
    Multiple(now + 1, 0x4000);
    Multiple(now + 1, 0x10_0000);
  }

  lemma Multiple(t: nat, m: nat)
    requires m > 0
    ensures t % (m * TIME_LEVEL) == 0 ==> t % m == 0 && t / m == TIME_LEVEL * (t / (m * TIME_LEVEL))
  {
    if t % (m * TIME_LEVEL) == 0 {
      var r := t / (m * TIME_LEVEL);
      assert t == m * (TIME_LEVEL * r) + 0;
      Unique(t, m, TIME_LEVEL * r, 0);
    }
  }

  lemma Order(due: nat, now: nat)
    requires Ahead(due, now)
    ensures Ordered(CutOf(due), CutOf(now))
  {
    Monotone(now, due, 0x100);
    Monotone(now, due, 0x4000);
    Monotone(now, due, 0x10_0000);
    Monotone(now, due, 0x400_0000);
    Difference(due, now, 0x400_0000);
  }

  lemma Monotone(x: nat, y: nat, m: nat)
    requires m > 0 && x <= y
    ensures x / m <= y / m
  {
    var a, b := x / m, y / m;
    assert m * a <= x && y < m * b + m;
    Product(m, b + 1, a);
  }

  predicate Ordered(d: Cut, n: Cut) {
    d.q0 >= n.q0 && d.q1 >= n.q1 && d.q2 >= n.q2 && n.q3 <= d.q3 <= n.q3 + 33
  }

  lemma CutStays(low: nat, due: Cut, now: Cut, next: Cut, turn: Turn)
    requires due.Valid() && now.Valid() && next.Valid() && Tick(now, next, turn) && Ordered(due, next)
    requires turn.Nothing? || CutPlace(low, due, now) != Level(turn.level, turn.index)
    ensures CutPlace(low, due, next) == CutPlace(low, due, now)
  {
    if turn.Move? {
      match turn.level
      case 0 => if due.q1 == next.q1 { Digit(due.q0, next.q0); }
      case 1 => if due.q2 == next.q2 { Digit(due.q1, next.q1); }
      case 2 => if due.q3 == next.q3 { Digit(due.q2, next.q2); }
      case _ => Digit(due.q3, next.q3);
    }
  }

  lemma CutDescends(low: nat, due: Cut, now: Cut, next: Cut, turn: Turn)
    requires due.Valid() && now.Valid() && next.Valid() && Tick(now, next, turn) && Ordered(due, next)
    requires turn.Move? && CutPlace(low, due, now) == Level(turn.level, turn.index)
    ensures Below(CutPlace(low, due, next), turn.level)
  {
    match turn.level
    case 0 => Digit(due.q0, next.q0);
    case 1 => Digit(due.q1, next.q1);
    case 2 => Digit(due.q2, next.q2);
    case _ => Digit(due.q3, next.q3);
  }

  /** Numbers less than 64 apart are equal if their last digits are. */
  lemma Digit(x: nat, y: nat)
    requires y <= x < y + TIME_LEVEL
    ensures x % TIME_LEVEL == y % TIME_LEVEL <==> x == y
  {
  }

  lemma CutAbove(low: nat, due: Cut, now: Cut, next: Cut, turn: Turn)
    requires due.Valid() && now.Valid() && next.Valid() && Tick(now, next, turn) && Ordered(due, next) && turn.Move?
    ensures !Below(CutPlace(low, due, now), turn.level)
  {
  }

  lemma CutIs(due: nat, now: nat)
    ensures TruePlace(due, now) == CutPlace(due % TIME_NEAR, CutOf(due), CutOf(now))
  {
  }

  lemma Cuts(due: nat, now: nat)
    requires Ahead(due, now + 1)
    ensures CutOf(due).Valid() && CutOf(now).Valid() && CutOf(now + 1).Valid()
    ensures Tick(CutOf(now), CutOf(now + 1), TurnAt(now + 1)) && Ordered(CutOf(due), CutOf(now + 1))
  {
    hide Tick;
    CutValid(due);
    CutValid(now);
    CutValid(now + 1);
    TickCut(now);
    Order(due, now + 1);
  }

  /** When the clock advances, timers outside the list whose turn it is stay where they belong. */
  lemma PlaceStays(due: nat, now: nat)
    requires Ahead(due, now + 1)
    requires TurnAt(now + 1).Nothing? || TruePlace(due, now) != Level(TurnAt(now + 1).level, TurnAt(now + 1).index)
    ensures TruePlace(due, now + 1) == TruePlace(due, now)
  {
    hide CutPlace, Tick, TurnAt, CutOf, TruePlace;
    Cuts(due, now);
    CutIs(due, now);
    CutIs(due, now + 1);
    CutStays(due % TIME_NEAR, CutOf(due), CutOf(now), CutOf(now + 1), TurnAt(now + 1));
  }

  /** Those in the list belong to lists further down. */
  lemma PlaceDescends(due: nat, now: nat)
    requires Ahead(due, now + 1) && TurnAt(now + 1).Move?
    requires TruePlace(due, now) == Level(TurnAt(now + 1).level, TurnAt(now + 1).index)
    ensures Below(TruePlace(due, now + 1), TurnAt(now + 1).level)
  {
    hide CutPlace, Tick, TurnAt, CutOf, TruePlace;
    Cuts(due, now);
    CutIs(due, now);
    CutIs(due, now + 1);
    CutDescends(due % TIME_NEAR, CutOf(due), CutOf(now), CutOf(now + 1), TurnAt(now + 1));
  }

  /** And the lists further down are empty at that moment. */
  lemma PlaceAbove(due: nat, now: nat)
    requires Ahead(due, now + 1) && TurnAt(now + 1).Move?
    ensures !Below(TruePlace(due, now), TurnAt(now + 1).level)
  {
    hide CutPlace, Tick, TurnAt, CutOf, TruePlace;
    Cuts(due, now);
    CutIs(due, now);
    CutIs(due, now + 1);
    CutAbove(due % TIME_NEAR, CutOf(due), CutOf(now), CutOf(now + 1), TurnAt(now + 1));
  }

  /** The list at the hand of the clock holds exactly the timers that are due. */
  lemma PlaceDue(due: nat, now: nat)
    requires Ahead(due, now)
    ensures TruePlace(due, now) == Near(now % TIME_NEAR) <==> due == now
  {
  }
}

/** The handle storage of skynet_handle.c: a hash table without chains that doubles when it is full,
    and a sorted array of names. */
module SchedulerHandles {
  import opened Basics

  const HANDLE_RANGE := 0x100_0000

  const DEFAULT_SLOT_SIZE := 4

  type Context = nat

  type Name = seq<nat>

  /** A slot holds a context, which knows its handle. */
  datatype Slot = Free | Used(ctx: Context, handle: nat)

  datatype Named = Named(name: Name, handle: nat)

  // ---------------------------------------------------------------- remainders

  lemma Quotients(x: nat, m: nat, q: nat, r: nat)
    requires m > 0 && x == m * q + r && r < m
    ensures x % m == r
  {
    var p := x / m;
    assert x == m * p + x % m;
    Product(m, p + 1, q);
    Product(m, q + 1, p);
  }

  lemma Regrouped(n: nat, k: nat, a: nat, b: nat)
    ensures n * k * a + n * b == n * (k * a + b)
  {
  }

  /** Remainders modulo a multiple of `n` determine remainders modulo `n`. */
  lemma Coarser(x: nat, n: nat, k: nat)
    requires n > 0 && k > 0
    ensures x % (n * k) % n == x % n
  {
    var m := n * k;
    var a, r := x / m, x % m;
    assert x == m * a + r;
    var b := r / n;
    assert r == n * b + r % n;
    Regrouped(n, k, a, b);
    Quotients(x, n, k * a + b, r % n);
  }

  /** Starting anywhere and going on long enough, every remainder is met. */
  lemma Meets(from: nat, n: nat, target: nat) returns (i: nat)
    requires n > 0 && target < n
    ensures i < n && (i + from) % n == target
  {
    var r := from % n;
    assert from == n * (from / n) + r;
    if r <= target {
      i := target - r;
      Quotients(i + from, n, from / n, target);
    } else {
      i := n + target - r;
      assert i + from == n * (from / n + 1) + target by { assert n * (from / n + 1) == n * (from / n) + n; }
      Quotients(i + from, n, from / n + 1, target);
    }
  }

  /** The slot that a handle selects: its low bits. */
  function Hash(handle: nat, size: nat): (i: nat)
    requires size > 0
    ensures i < size
  {
    handle % size
  }

  /** Handles that share a slot of the doubled table share one of the table before. */
  lemma HashHalf(h: nat, n: nat)
    requires n > 0
    ensures Hash(h, n * 2) == Hash(h, n) || Hash(h, n * 2) == Hash(h, n) + n
    ensures Hash(Hash(h, n * 2), n) == Hash(h, n)
  {
    Coarser(h, n, 2);
    var r := h % (n * 2);
    if r >= n { Quotients(r, n, 1, r - n); } else { Quotients(r, n, 0, r); }
  }

  lemma HashRange(h: nat, n: nat)
    requires n > 0 && HANDLE_RANGE % n == 0
    ensures Hash(h % HANDLE_RANGE, n) == Hash(h, n)
  {
    var k := HANDLE_RANGE / n;
    assert n * k == HANDLE_RANGE;
    Coarser(h, n, k);
  }

  /** The slot that is looked at in the `j`-th attempt. */
  function Probe(from: nat, j: nat, size: nat): (i: nat)
    requires size > 0
    ensures i < size
  {
    Hash(j + from, size)
  }

  lemma HashMeets(from: nat, n: nat, target: nat) returns (i: nat)
    requires n > 0 && target < n
    ensures i < n && Probe(from, i, n) == target
  {
    i := Meets(from, n, target);
  }

  lemma HashHarbor(harbor: nat, h: nat, n: nat)
    requires harbor % HANDLE_RANGE == 0 && n > 0 && HANDLE_RANGE % n == 0 && h < HANDLE_RANGE
    ensures Hash(harbor + h, n) == Hash(h, n)
  {
    Quotients(harbor + h, HANDLE_RANGE, harbor / HANDLE_RANGE, h);
    HashRange(harbor + h, n);
  }

  // ---------------------------------------------------------------- names

  /** strcmp */
  function Compare(a: Name, b: Name): int {
    if a == [] then (if b == [] then 0 else -1)
    else if b == [] then 1
    else if a[0] != b[0] then a[0] - b[0]
    else Compare(a[1..], b[1..])
  }

  lemma {:induction false} CompareEqual(a: Name, b: Name)
    ensures Compare(a, b) == 0 <==> a == b
    ensures Compare(a, b) < 0 <==> Compare(b, a) > 0
  {
    if a != [] && b != [] {
      CompareEqual(a[1..], b[1..]);
      assert a == [a[0]] + a[1..] && b == [b[0]] + b[1..];
    }
  }

  lemma {:induction false} CompareTransitive(a: Name, b: Name, c: Name)
    requires Compare(a, b) < 0 && Compare(b, c) < 0
    ensures Compare(a, c) < 0
  {
    if a != [] && b != [] && c != [] && a[0] == b[0] == c[0] { CompareTransitive(a[1..], b[1..], c[1..]); }
  }

  ghost predicate Sorted(names: seq<Named>) {
    forall i, j :: 0 <= i < j < |names| ==> Compare(names[i].name, names[j].name) < 0
  }

  /** The names of other handles. */
  function Others(names: seq<Named>, handle: nat): seq<Named> {
    if names == [] then []
    else
      var n := |names| - 1;
      Others(names[..n], handle) + if names[n].handle == handle then [] else [names[n]]
  }

  lemma SortedAppend(names: seq<Named>, x: Named)
    requires Sorted(names) && forall y :: y in names ==> Compare(y.name, x.name) < 0
    ensures Sorted(names + [x])
  {
    hide Compare;
  }

  lemma {:induction false} OthersSorted(names: seq<Named>, handle: nat)
    requires Sorted(names)
    ensures Sorted(Others(names, handle))
    ensures forall x :: x in Others(names, handle) <==> x in names && x.handle != handle
  {
    hide Compare;
    if names != [] {
      var n := |names| - 1;
      var init, last := names[..n], names[n];
      OthersSorted(init, handle);
      assert names == init + [last];
      forall x | x in init ensures Compare(x.name, last.name) < 0 {
        var i :| 0 <= i < n && names[i] == x;
      }
      if last.handle != handle { SortedAppend(Others(init, handle), last); }
    }
  }

  lemma OthersNone(names: seq<Named>, handle: nat)
    ensures Others(names[..0], handle) == []
  {
  }

  lemma OthersStep(names: seq<Named>, i: nat, handle: nat)
    requires i < |names|
    ensures Others(names[..i + 1], handle) == Others(names[..i], handle) + if names[i].handle == handle then []
            else [names[i]]
  {
    assert names[..i + 1][..i] == names[..i];
  }

  /** All names before `k` are smaller, those from `k` on greater: `name` belongs at `k`. */
  ghost predicate Between(names: seq<Named>, name: Name, k: nat) {
    && k <= |names|
    && (forall i :: 0 <= i < k ==> Compare(names[i].name, name) < 0)
    && (forall i :: k <= i < |names| ==> Compare(name, names[i].name) < 0)
  }

  lemma InsertSorted(names: seq<Named>, x: Named, k: nat)
    requires Sorted(names) && Between(names, x.name, k)
    ensures Sorted(names[..k] + [x] + names[k..])
    ensures forall y :: y in names ==> y.name != x.name
  {
    CompareEqual(x.name, x.name);
  }

  // ---------------------------------------------------------------- giving out handles

  /** The table as a value: where the search for a handle starts, and the slots. */
  datatype Table = Table(index: nat, slots: seq<Slot>)

  /** `handle` is registered, for `ctx`. */
  ghost predicate Holds(slots: seq<Slot>, handle: nat, ctx: Context) {
    slots != [] && slots[Hash(handle, |slots|)] == Used(ctx, handle)
  }

  ghost predicate Full(slots: seq<Slot>) { forall k :: 0 <= k < |slots| ==> slots[k].Used? }

  /** The handle that is tried in the `j`-th attempt, apart from the harbor. */
  function Candidate(from: nat, j: nat): (h: nat)
    ensures h < HANDLE_RANGE
  {
    (j + from) % HANDLE_RANGE
  }

  /** What a registration does.  The table is doubled if it is full.  Of the handles from `index` on, going round at the
      end, the first one is given out whose slot is free: the slots of the `i` handles before it are taken by
      others.  The next search starts behind it. */
  ghost predicate Registers(before: Table, after: Table, harbor: nat, ctx: Context, handle: nat, i: nat) {
    && |after.slots| == (if Full(before.slots) then 2 else 1) * |before.slots|
    && (forall h: nat, c: Context :: !Holds(before.slots, handle, c) &&
         (Holds(after.slots, h, c) <==> (h == handle && c == ctx) || Holds(before.slots, h, c)))
    && i < |after.slots| && handle == harbor + Candidate(before.index, i)
    && (forall j :: 0 <= j < i ==>
         var x := after.slots[Hash(Candidate(before.index, j), |after.slots|)]; x.Used? && x.handle != handle)
    && after.index == Candidate(before.index, i) + 1
  }

  /** What a retirement does: it changes nothing about where the search starts. */
  ghost predicate Retires(before: Table, after: Table, handle: nat) {
    && after.index == before.index && |after.slots| == |before.slots|
    && forall h: nat, c: Context :: Holds(after.slots, h, c) <==> h != handle && Holds(before.slots, h, c)
  }

  datatype Change = Given(ctx: Context, handle: nat, passed: nat) | Gone(handle: nat)

  /** The tables that registrations and retirements lead through, one after the other. */
  ghost predicate History(tables: seq<Table>, changes: seq<Change>, harbor: nat) {
    && |tables| == |changes| + 1
    && forall k :: 0 <= k < |changes| ==>
         match changes[k]
         case Given(ctx, handle, passed) => Registers(tables[k], tables[k + 1], harbor, ctx, handle, passed)
         case Gone(handle) => Retires(tables[k], tables[k + 1], handle)
  }

  /** How many handles have been passed or given out. */
  function Advance(changes: seq<Change>): nat {
    if changes == [] then 0
    else
      var n := |changes| - 1;
      Advance(changes[..n]) + match changes[n] case Given(_, _, passed) => passed + 1 case Gone(_) => 0
  }

  lemma CandidateNext(from: nat, index: nat, i: nat)
    requires from % HANDLE_RANGE == index % HANDLE_RANGE
    ensures (from + i) % HANDLE_RANGE == Candidate(index, i)
    ensures (from + i + 1) % HANDLE_RANGE == (Candidate(index, i) + 1) % HANDLE_RANGE
  {
    SameBehind(from, index, i);
    SameBehind(from + i, Candidate(index, i), 1);
  }

  lemma SameBehind(a: nat, b: nat, k: nat)
    requires a % HANDLE_RANGE == b % HANDLE_RANGE
    ensures (a + k) % HANDLE_RANGE == (b + k) % HANDLE_RANGE
  {
    var q := a / HANDLE_RANGE - b / HANDLE_RANGE;
    assert a + k == q * HANDLE_RANGE + (b + k);
    assert (a + k) / HANDLE_RANGE == q + (b + k) / HANDLE_RANGE;
  }

  /** The search goes through the handles in turn. */
  lemma {:induction false} InTurn(tables: seq<Table>, changes: seq<Change>, harbor: nat, k: nat)
    requires History(tables, changes, harbor) && k <= |changes|
    ensures tables[k].index % HANDLE_RANGE == (tables[0].index + Advance(changes[..k])) % HANDLE_RANGE
  {
    hide Registers, Retires;
    if k > 0 {
      InTurn(tables, changes, harbor, k - 1);
      assert changes[..k][..k - 1] == changes[..k - 1];
      OneChange(tables, changes, harbor, k - 1, tables[0].index + Advance(changes[..k - 1]));
    }
  }

  lemma OneChange(tables: seq<Table>, changes: seq<Change>, harbor: nat, k: nat, from: nat)
    requires History(tables, changes, harbor) && k < |changes|
    requires from % HANDLE_RANGE == tables[k].index % HANDLE_RANGE
    ensures changes[k].Gone? ==> tables[k + 1].index == tables[k].index
    ensures changes[k].Given? ==>
              var i := changes[k].passed;
              && changes[k].handle == harbor + (from + i) % HANDLE_RANGE
              && tables[k + 1].index % HANDLE_RANGE == (from + i + 1) % HANDLE_RANGE
  {
    hide Holds, Full;
    if changes[k].Given? {
      var c := changes[k];
      assert Registers(tables[k], tables[k + 1], harbor, c.ctx, c.handle, c.passed);
      CandidateNext(from, tables[k].index, c.passed);
    }
  }

  lemma {:induction false} AdvanceGrows(changes: seq<Change>, j: nat, k: nat)
    requires j <= k <= |changes|
    ensures Advance(changes[..j]) <= Advance(changes[..k])
    decreases k
  {
    if j < k {
      AdvanceGrows(changes, j, k - 1);
      assert changes[..k][..k - 1] == changes[..k - 1];
    }
  }

  lemma OnceAround(a: nat, b: nat)
    requires a < b && a % HANDLE_RANGE == b % HANDLE_RANGE
    ensures b - a >= HANDLE_RANGE
  {
  }

  /** However registrations and retirements follow one another, no handle is given out twice until the search has
      gone once around all handles. */
  lemma NotGivenTwice(tables: seq<Table>, changes: seq<Change>, harbor: nat, a: nat, b: nat)
    requires History(tables, changes, harbor) && a < b < |changes|
    requires changes[a].Given? && changes[b].Given? && changes[a].handle == changes[b].handle
    ensures Advance(changes[..b + 1]) - Advance(changes[..a + 1]) >= HANDLE_RANGE
  {
    hide Registers, Retires;
    var start, i, j := tables[0].index, changes[a].passed, changes[b].passed;
    InTurn(tables, changes, harbor, a);
    InTurn(tables, changes, harbor, b);
    OneChange(tables, changes, harbor, a, start + Advance(changes[..a]));
    OneChange(tables, changes, harbor, b, start + Advance(changes[..b]));
    assert changes[..a + 1][..a] == changes[..a] && changes[..b + 1][..b] == changes[..b];
    AdvanceGrows(changes, a + 1, b);
    OnceAround(start + Advance(changes[..a]) + i, start + Advance(changes[..b]) + j);
  }

  /** Putting a context into the free slot of the first such handle is a registration. */
  lemma TakesFirst(before: Table, slots: seq<Slot>, harbor: nat, ctx: Context, i: nat)
    requires i < |slots| == (if Full(before.slots) then 2 else 1) * |before.slots|
    requires var at := Hash(Candidate(before.index, i), |slots|);
             slots[at].Free? && at == Hash(harbor + Candidate(before.index, i), |slots|)
    requires forall h: nat, c: Context :: Holds(slots, h, c) <==> Holds(before.slots, h, c)
    requires forall j :: 0 <= j < i ==> slots[Hash(Candidate(before.index, j), |slots|)].Used?
    requires forall k :: 0 <= k < |slots| && slots[k].Used? ==> Hash(slots[k].handle, |slots|) == k
    ensures var handle := harbor + Candidate(before.index, i);
            var after := Table(Candidate(before.index, i) + 1, slots[Hash(handle, |slots|) := Used(ctx, handle)]);
            Registers(before, after, harbor, ctx, handle, i)
  {
    hide Hash, Full;
    var handle := harbor + Candidate(before.index, i);
    assert forall c: Context :: !Holds(slots, handle, c);
  }

  class HandleStorage {
    const harbor: nat
    var index: nat
    var slot: array<Slot>
    var name: array<Named>
    var nameCount: nat

    /** Each context is in the slot that its handle selects, and the number of slots divides the
        number of handles, so that low bits select slots. */
    ghost predicate Valid()
      reads this, slot, name
    {
      && slot.Length > 0 && HANDLE_RANGE % slot.Length == 0 && harbor % HANDLE_RANGE == 0
      && (forall i :: 0 <= i < slot.Length && slot[i].Used? ==> Hash(slot[i].handle, slot.Length) == i)
      && nameCount <= name.Length && name.Length > 0 && Sorted(name[..nameCount])
    }

    ghost function View(): Table
      reads this`index, this`slot, slot
    {
      Table(index, slot[..])
    }

    /** `handle` is registered, for `ctx`. */
    ghost predicate Has(handle: nat, ctx: Context)
      reads this`slot, slot
      requires slot.Length > 0
    {
      Holds(slot[..], handle, ctx)
    }

    ghost function Names(): seq<Named>
      reads this, name
      requires nameCount <= name.Length
    {
      name[..nameCount]
    }

    constructor (harborId: nat)
      ensures Valid() && fresh(slot) && fresh(name) && (forall h: nat, c: Context :: !Has(h, c)) && Names() == []
      ensures index == 1 && slot.Length == DEFAULT_SLOT_SIZE && harbor == harborId % 0x100 * HANDLE_RANGE
    {
      harbor := harborId % 0x100 * HANDLE_RANGE;
      index := 1;
      slot := new Slot[DEFAULT_SLOT_SIZE](_ => Free);
      name := new Named[2];
      nameCount := 0;
    }

    /** The context of a handle. */
    method Grab(handle: nat) returns (r: Option<Context>)
      requires Valid()
      ensures forall c: Context :: r == Some(c) <==> Has(handle, c)
    {
      var s := slot[Hash(handle, slot.Length)];
      r := if s.Used? && s.handle == handle then Some(s.ctx) else None;
    }

    /** Doubles a full table.  No two contexts fall into the same new slot. */
    method Grow()
      requires Valid() && Full(slot[..])
      requires HANDLE_RANGE % (slot.Length * 2) == 0
      modifies this`slot
      ensures Valid() && fresh(slot) && slot.Length == old(slot.Length) * 2
      ensures forall h: nat, c: Context :: Holds(slot[..], h, c) <==> Holds(old(slot[..]), h, c)
      ensures !Full(slot[..])
    {
      hide Hash;
      var n, m, from := slot.Length, slot.Length * 2, slot;
      var newSlot := new Slot[m](_ => Free);
      var i := 0;
      while i < n
        invariant 0 <= i <= n
        invariant forall k :: 0 <= k < m && newSlot[k].Used? ==>
                    var h := newSlot[k].handle; Hash(h, m) == k && Hash(h, n) < i && from[Hash(h, n)] == newSlot[k]
        invariant forall k :: 0 <= k < i ==> newSlot[Hash(from[k].handle, m)] == from[k]
        modifies newSlot
      {
        var hash := Hash(from[i].handle, m);
        assert newSlot[hash].Free? by {
          if newSlot[hash].Used? {
            HashHalf(newSlot[hash].handle, n);
            HashHalf(from[i].handle, n);
          }
        }
        newSlot[hash] := from[i];
        i := i + 1;
      }
      assert newSlot[0].Free? || newSlot[n].Free? by {
        if newSlot[0].Used? && newSlot[n].Used? {
          HashHalf(newSlot[0].handle, n);
          HashHalf(newSlot[n].handle, n);
        }
      }
      slot := newSlot;
      forall h: nat, c: Context ensures Holds(slot[..], h, c) <==> from[Hash(h, n)] == Used(c, h) {
        HashHalf(h, n);
        assert Holds(slot[..], h, c) ==> Hash(newSlot[Hash(h, m)].handle, n) < n;
      }
    }

    /** Looks for a free slot from `index` on; handles are given out in turn.  `i` slots are not free before it. */
    method FindSlot() returns (r: Option<nat>, ghost i: nat)
      requires Valid()
      ensures r.None? <==> Full(slot[..])
      ensures r.Some? ==> i < slot.Length && r.value == Candidate(index, i) && slot[Hash(r.value, slot.Length)].Free?
      ensures r.Some? ==> forall j :: 0 <= j < i ==> slot[Hash(Candidate(index, j), slot.Length)].Used?
    {
      hide Hash, Sorted;
      var n := slot.Length;
      var k := 0;
      while k < n
        invariant 0 <= k <= n
        invariant forall j :: 0 <= j < k ==> slot[Hash(Candidate(index, j), n)].Used?
      {
        var handle := (k + index) % HANDLE_RANGE;
        if slot[Hash(handle, n)].Free? { return Some(handle), k; }
        k := k + 1;
      }
      forall target | 0 <= target < n ensures slot[target].Used? {
        var j := HashMeets(index, n, target);
        HashRange(j + index, n);
        assert slot[Hash(Candidate(index, j), n)].Used?;
      }
      return None, k;
    }

    /** Finds the handle to be given out, in a larger table if the present one is full. */
    method FindHandle() returns (found: nat, ghost i: nat)
      requires Valid()
      requires !Full(slot[..]) || HANDLE_RANGE % (slot.Length * 2) == 0
      modifies this`slot
      ensures Valid() && (slot == old(slot) || fresh(slot))
      ensures slot.Length == (if Full(old(slot[..])) then 2 else 1) * old(slot.Length)
      ensures forall h: nat, c: Context :: Holds(slot[..], h, c) <==> Holds(old(slot[..]), h, c)
      ensures i < slot.Length && found == Candidate(index, i) && slot[Hash(found, slot.Length)].Free?
      ensures forall j :: 0 <= j < i ==> slot[Hash(Candidate(index, j), slot.Length)].Used?
    {
      hide Hash, Sorted, Holds, Candidate;
      var r;
      r, i := FindSlot();
      if r == None {
        Grow();
        r, i := FindSlot();
      }
      found := r.value;
    }

    /** Registers a context under a handle that was not in use. */
    method Register(ctx: Context) returns (handle: nat, ghost i: nat)
      requires Valid()
      requires !Full(slot[..]) || HANDLE_RANGE % (slot.Length * 2) == 0
      modifies this`slot, this`index, slot
      ensures Valid() && (slot == old(slot) || fresh(slot))
      ensures Registers(old(View()), View(), harbor, ctx, handle, i)
      ensures harbor <= handle < harbor + HANDLE_RANGE
      ensures Names() == old(Names())
    {
      hide Hash, Sorted, Registers, Holds, Full, Candidate;
      var found;
      found, i := FindHandle();
      handle := harbor + found;
      HashHarbor(harbor, found, slot.Length);
      ghost var was := slot[..];
      TakesFirst(old(View()), was, harbor, ctx, i);
      slot[Hash(found, slot.Length)] := Used(ctx, handle);
      index := found + 1;
      assert slot[..] == was[Hash(handle, |was|) := Used(ctx, handle)];
    }

    /** Retires a handle: its slot becomes free and its names disappear.  The reference that the
        table had to the context is the caller's to give back. */
    method Retire(handle: nat) returns (r: Option<Context>)
      requires Valid()
      modifies this`nameCount, slot, name
      ensures Valid()
      ensures forall c: Context :: r == Some(c) <==> old(Has(handle, c))
      ensures Retires(old(View()), View(), handle)
      ensures Names() == if r.Some? then Others(old(Names()), handle) else old(Names())
    {
      hide Hash, Sorted, Others;
      var hash := Hash(handle, slot.Length);
      var s := slot[hash];
      if s.Used? && s.handle == handle {
        slot[hash] := Free;
        Compact(handle);
        r := Some(s.ctx);
      } else {
        r := None;
      }
    }

    /** Moves the names of other handles together, in place. */
    method Compact(handle: nat)
      requires nameCount <= name.Length && Sorted(name[..nameCount])
      modifies this`nameCount, name
      ensures nameCount <= name.Length && Names() == Others(old(Names()), handle) && Sorted(name[..nameCount])
    {
      hide Others, Sorted;
      ghost var names := Names();
      OthersNone(names, handle);
      var i, j, n := 0, 0, nameCount;
      while i < n
        invariant 0 <= j <= i <= n == |names| <= name.Length
        invariant name[..j] == Others(names[..i], handle)
        invariant forall k :: i <= k < n ==> name[k] == names[k]
      {
        OthersStep(names, i, handle);
        if name[i].handle != handle {
          if i != j { name[j] := name[i]; }
          j := j + 1;
        }
        i := i + 1;
      }
      assert names[..n] == names;
      nameCount := j;
      OthersSorted(names, handle);
    }

    /** Where a name is, or where it would have to be. */
    method Search(x: Name) returns (found: bool, k: nat)
      requires nameCount <= name.Length && Sorted(name[..nameCount])
      ensures found ==> k < nameCount && name[k].name == x
      ensures !found ==> Between(name[..nameCount], x, k)
    {
      var begin, end := 0, nameCount - 1;
      while begin <= end
        invariant 0 <= begin <= end + 1 <= nameCount
        invariant forall i :: 0 <= i < begin ==> Compare(name[i].name, x) < 0
        invariant forall i :: end < i < nameCount ==> Compare(x, name[i].name) < 0
      {
        var mid := (begin + end) / 2;
        var c := Compare(name[mid].name, x);
        CompareEqual(name[mid].name, x);
        SearchHalf(name[..nameCount], x, mid);
        if c == 0 { return true, mid; }
        if c < 0 { begin := mid + 1; } else { end := mid - 1; }
      }
      return false, begin;
    }

    /** The handle of a name. */
    method FindName(x: Name) returns (r: Option<nat>)
      requires Valid()
      ensures forall h: nat :: r == Some(h) <==> Named(x, h) in Names()
    {
      var found, k := Search(x);
      forall i | 0 <= i < nameCount ensures found && i != k ==> name[i].name != x { CompareEqual(x, x); }
      if found {
        assert Names()[k] == Named(x, name[k].handle);
        return Some(name[k].handle);
      }
      CompareEqual(x, x);
      return None;
    }

    /** A larger array for the names, with room at `k`. */
    method GrowNames(k: nat)
      requires 0 < name.Length == nameCount && k <= nameCount
      modifies this`name
      ensures fresh(name) && name.Length > nameCount
      ensures name[..k] == old(name[..k]) && name[k + 1..nameCount + 1] == old(name[k..nameCount])
    {
      var n := new Named[name.Length * 2];
      var i := 0;
      while i < k
        invariant 0 <= i <= k && n[..i] == name[..i]
        modifies n
      {
        n[i] := name[i];
        i := i + 1;
      }
      while i < nameCount
        invariant k <= i <= nameCount && n[..k] == name[..k] && n[k + 1..i + 1] == name[k..i]
        modifies n
      {
        n[i + 1] := name[i];
        i := i + 1;
      }
      name := n;
    }

    /** Makes room at `k`, in place. */
    method ShiftNames(k: nat)
      requires k <= nameCount < name.Length
      modifies name
      ensures name[..k] == old(name[..k]) && name[k + 1..nameCount + 1] == old(name[k..nameCount])
    {
      ghost var names := name[..nameCount];
      var i := nameCount;
      while i > k
        invariant k <= i <= nameCount && name[..i] == names[..i] && name[i + 1..nameCount + 1] == names[i..]
      {
        name[i] := name[i - 1];
        i := i - 1;
      }
    }

    /** Puts a name at `k`, moving the names from there on up by one. */
    method InsertName(x: Name, handle: nat, k: nat)
      requires Valid() && k <= nameCount && Between(Names(), x, k)
      modifies this`name, this`nameCount, name
      ensures Valid() && (name == old(name) || fresh(name))
      ensures Names() == old(Names())[..k] + [Named(x, handle)] + old(Names())[k..]
    {
      hide Hash, Sorted, Between;
      ghost var names := Names();
      if nameCount >= name.Length { GrowNames(k); } else { ShiftNames(k); }
      name[k] := Named(x, handle);
      nameCount := nameCount + 1;
      InsertSorted(names, Named(x, handle), k);
      assert name[..nameCount] == names[..k] + [Named(x, handle)] + names[k..];
    }

    /** Gives a handle a name, if the name is free. */
    method NameHandle(handle: nat, x: Name) returns (ok: bool)
      requires Valid()
      modifies this`name, this`nameCount, name
      ensures Valid() && (name == old(name) || fresh(name))
      ensures ok <==> forall y :: y in old(Names()) ==> y.name != x
      ensures forall y :: y in Names() <==> y in old(Names()) || (ok && y == Named(x, handle))
    {
      hide Hash, Sorted;
      ghost var names := Names();
      var found, k := Search(x);
      if found {
        assert names[k] in names;
        return false;
      }
      InsertSorted(names, Named(x, handle), k);
      assert names == names[..k] + names[k..];
      InsertName(x, handle, k);
      return true;
    }
  }

  lemma SearchHalf(names: seq<Named>, x: Name, mid: nat)
    requires Sorted(names) && mid < |names|
    ensures Compare(names[mid].name, x) < 0 ==> forall i :: 0 <= i <= mid ==> Compare(names[i].name, x) < 0
    ensures Compare(names[mid].name, x) > 0 ==> forall i :: mid <= i < |names| ==> Compare(x, names[i].name) < 0
  {
    CompareEqual(x, names[mid].name);
    forall i | 0 <= i < mid && Compare(names[mid].name, x) < 0 ensures Compare(names[i].name, x) < 0 {
      CompareTransitive(names[i].name, names[mid].name, x);
    }
    forall i | mid < i < |names| && Compare(names[mid].name, x) > 0 ensures Compare(x, names[i].name) < 0 {
      CompareTransitive(x, names[mid].name, names[i].name);
    }
  }
}

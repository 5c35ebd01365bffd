/** Every label of generated code leads to an instruction, and every chain of jumps ends. */
module LpegLabels {
  import opened LpegTree
  import opened LpegAnalysis
  import opened LpegVm
  import opened LpegCodegen

  /** How many elements an instruction takes. */
  function Size(op: Opcode): (n: nat)
    ensures n >= 1
  {
    match op
    case ISet => CHARSETINSTSIZE
    case ISpan => CHARSETINSTSIZE
    case ITestSet => 1 + CHARSETINSTSIZE
    case ITestChar => 2
    case ITestAny => 2
    case IChoice => 2
    case IJmp => 2
    case ICall => 2
    case IOpenCall => 2
    case ICommit => 2
    case IPartialCommit => 2
    case IBackCommit => 2
    case _ => 1
  }

  predicate Labelled(op: Opcode) {
    op in {ITestSet, ITestChar, ITestAny, IChoice, IJmp, ICall, ICommit, IPartialCommit, IBackCommit}
  }

  /** The start of an instruction, or the end of the code. */
  predicate At(c: Code, y: int) {
    y == |c| || (0 <= y < |c| && c[y].Inst?)
  }

  /** Which instructions are outside the rules of inner grammars. */
  type Tops = seq<bool>

  predicate TopAt(tops: Tops, y: int) {
    y == |tops| || (0 <= y < |tops| && tops[y])
  }

  /** Element `x` is well placed: instructions are followed by what they need and by another
      instruction, labels lead to instructions -- or to a place in `ext`, outside this piece of
      code -- top-level code stays at top level, and all open calls are at top level and call one
      of `rules` rules. */
  ghost predicate PointOk(c: Code, tops: Tops, rules: nat, ext: set<int>, x: int)
    requires |tops| == |c| && 0 <= x < |c|
  {
    match c[x]
    case Inst(op, _, key) =>
      && At(c, x + Size(op))
      && (tops[x] && op != IJmp ==> TopAt(tops, x + Size(op)))
      && (Labelled(op) ==> x + 1 < |c| && c[x + 1].Offset? &&
                           LabelOk(c, tops, ext, tops[x] && op != ICall, Target(c, x)))
      && (op == ISet || op == ISpan ==> x + 1 < |c| && c[x + 1].Buff?)
      && (op == ITestSet ==> x + 2 < |c| && c[x + 2].Buff?)
      && (op == IOpenCall ==> tops[x] && 0 <= key < rules && x + 1 < |c| && c[x + 1] == Open(key))
    case Open(n) => !tops[x] && x > 0 && c[x - 1].Inst? && c[x - 1].op == IOpenCall
    case _ => !tops[x]
  }

  ghost predicate LabelOk(c: Code, tops: Tops, ext: set<int>, top: bool, y: int) {
    y in ext || (At(c, y) && (top ==> TopAt(tops, y)))
  }

  ghost predicate ShapedBut(c: Code, tops: Tops, rules: nat, ext: set<int>) {
    && |tops| == |c|
    && (c != [] ==> c[0].Inst? && tops[0])
    && forall x :: 0 <= x < |c| ==> PointOk(c, tops, rules, ext, x)
  }

  ghost predicate Shaped(c: Code, tops: Tops, rules: nat) {
    ShapedBut(c, tops, rules, {})
  }

  /** Where a label of the first or of the second of two pieces may lead. */
  ghost predicate Resolved(c: Code, tops: Tops, ext: set<int>, a: int, part: set<int>) {
    forall y :: y in part ==> a + y in ext || (At(c, a + y) && TopAt(tops, a + y))
  }

  lemma EmbedPoint(c: Code, tops: Tops, rules: nat, ext: set<int>, a: int, c1: Code, t1: Tops, e1: set<int>, x: int)
    requires |tops| == |c| && 0 <= a && a + |c1| <= |c| && |t1| == |c1|
    requires c[a..a + |c1|] == c1 && tops[a..a + |c1|] == t1
    requires TopAt(tops, a + |c1|) && At(c, a + |c1|) && Resolved(c, tops, ext, a, e1)
    requires 0 <= x < |c1| && PointOk(c1, t1, rules, e1, x)
    ensures PointOk(c, tops, rules, ext, a + x)
  {
    Slice(c, a, c1, x);
    Slice(tops, a, t1, x);
    if x + 1 < |c1| { Slice(c, a, c1, x + 1); }
    if x + 2 < |c1| { Slice(c, a, c1, x + 2); }
    if x > 0 { Slice(c, a, c1, x - 1); }
    if c1[x].Inst? {
      EmbedAt(c, tops, a, c1, t1, x + Size(c1[x].op));
      if Labelled(c1[x].op) {
        var y := Target(c1, x);
        assert Target(c, a + x) == a + y;
        if At(c1, y) { EmbedAt(c, tops, a, c1, t1, y); }
      }
    }
  }

  lemma Slice<T>(c: seq<T>, a: int, c1: seq<T>, y: int)
    requires 0 <= a && a + |c1| <= |c| && c[a..a + |c1|] == c1 && 0 <= y < |c1|
    ensures c[a + y] == c1[y]
  {
    assert c[a..a + |c1|][y] == c[a + y];
  }

  lemma EmbedAt(c: Code, tops: Tops, a: int, c1: Code, t1: Tops, y: int)
    requires |tops| == |c| && 0 <= a && a + |c1| <= |c| && |t1| == |c1|
    requires c[a..a + |c1|] == c1 && tops[a..a + |c1|] == t1
    requires TopAt(tops, a + |c1|) && At(c, a + |c1|) && At(c1, y)
    ensures At(c, a + y) && (TopAt(t1, y) ==> TopAt(tops, a + y))
  {
    if y < |c1| {
      Slice(c, a, c1, y);
      Slice(tops, a, t1, y);
    }
  }

  lemma Append(c1: Code, t1: Tops, e1: set<int>, c2: Code, t2: Tops, e2: set<int>, rules: nat, ext: set<int>)
    requires ShapedBut(c1, t1, rules, e1) && ShapedBut(c2, t2, rules, e2)
    requires Resolved(c1 + c2, t1 + t2, ext, 0, e1) && Resolved(c1 + c2, t1 + t2, ext, |c1|, e2)
    ensures ShapedBut(c1 + c2, t1 + t2, rules, ext)
  {
    hide PointOk, Resolved;
    assert c1 + c2 != [] ==> (c1 + c2)[0].Inst? && (t1 + t2)[0];
    forall x | 0 <= x < |c1 + c2| ensures PointOk(c1 + c2, t1 + t2, rules, ext, x) {
      AppendPoint(c1, t1, e1, c2, t2, e2, rules, ext, x);
    }
  }

  lemma AppendPoint(c1: Code, t1: Tops, e1: set<int>, c2: Code, t2: Tops, e2: set<int>, rules: nat, ext: set<int>,
                    x: int)
    requires ShapedBut(c1, t1, rules, e1) && ShapedBut(c2, t2, rules, e2) && 0 <= x < |c1 + c2|
    requires Resolved(c1 + c2, t1 + t2, ext, 0, e1) && Resolved(c1 + c2, t1 + t2, ext, |c1|, e2)
    ensures PointOk(c1 + c2, t1 + t2, rules, ext, x)
  {
    hide PointOk, Resolved;
    assert (c1 + c2)[0..0 + |c1|] == c1 && (t1 + t2)[0..0 + |c1|] == t1;
    assert (c1 + c2)[|c1|..|c1| + |c2|] == c2 && (t1 + t2)[|c1|..|c1| + |c2|] == t2;
    if x < |c1| { EmbedPoint(c1 + c2, t1 + t2, rules, ext, 0, c1, t1, e1, x); }
    else { EmbedPoint(c1 + c2, t1 + t2, rules, ext, |c1|, c2, t2, e2, x - |c1|); }
  }

  // ---------------------------------------------------------------- chains of jumps

  lemma {:induction false} FollowAdd(c: Code, i: int, m: nat, n: nat)
    ensures Follow(c, i, m + n) == Follow(c, Follow(c, i, m), n)
    decreases m
  {
    if m > 0 && JmpAt(c, i) { FollowAdd(c, Target(c, i), m - 1, n); }
    else if !JmpAt(c, i) { FollowStays(c, i, m); FollowStays(c, i, n); FollowStays(c, i, m + n); }
  }

  lemma FollowStays(c: Code, i: int, n: nat)
    requires !JmpAt(c, i)
    ensures Follow(c, i, n) == i
  {
  }

  /** The chain of jumps from `x` ends, inside the code or at an exit, and never at an earlier open call. */
  ghost predicate EndsAt(c: Code, ext: set<int>, x: int, n: nat) {
    var y := Follow(c, x, n);
    !JmpAt(c, y) && (0 <= y <= |c| || y in ext) && (y >= x || !OpAt(c, y, IOpenCall))
  }

  ghost predicate Ends(c: Code, ext: set<int>, x: int) {
    exists n: nat :: EndsAt(c, ext, x, n)
  }

  /** The chains of jumps of a piece of code end, those of its top level or, if `deep`, all of them. */
  ghost predicate SettledBut(c: Code, tops: Tops, deep: bool, ext: set<int>) {
    |tops| == |c| && forall x :: 0 <= x < |c| && c[x].Inst? && (deep || tops[x]) ==> Ends(c, ext, x)
  }

  /** The chain of jumps from `x` passes through `y`. */
  ghost predicate Lands(c: Code, x: int, y: int) {
    exists n: nat :: Follow(c, x, n) == y
  }

  /** A chain inside a part is a chain in the whole. */
  lemma {:induction false} FollowPart(c: Code, a: int, c1: Code, x: int, n: nat)
    requires 0 <= a && a + |c1| <= |c| && c[a..a + |c1|] == c1
    requires forall k :: 0 <= k < |c1| && c1[k].Inst? && c1[k].op == IJmp ==> k + 1 < |c1| && c1[k + 1].Offset?
    ensures Lands(c, a + x, a + Follow(c1, x, n))
    decreases n
  {
    if n > 0 && JmpAt(c1, x) {
      Slice(c, a, c1, x);
      Slice(c, a, c1, x + 1);
      assert Target(c, a + x) == a + Target(c1, x);
      FollowPart(c, a, c1, Target(c1, x), n - 1);
      var m: nat :| Follow(c, a + Target(c1, x), m) == a + Follow(c1, Target(c1, x), n - 1);
      assert Follow(c, a + x, m + 1) == a + Follow(c1, x, n);
    } else {
      assert Follow(c, a + x, 0) == a + x;
    }
  }

  /** A chain of a part continues in the whole where it left the part. */
  lemma SettlePart(c: Code, ext: set<int>, a: int, c1: Code, e1: set<int>, x: int)
    requires 0 <= a && a + |c1| <= |c| && c[a..a + |c1|] == c1
    requires forall k :: 0 <= k < |c1| && c1[k].Inst? && c1[k].op == IJmp ==> k + 1 < |c1| && c1[k + 1].Offset?
    requires 0 <= x < |c1| && Ends(c1, e1, x)
    requires Ends(c, ext, a + |c1|) && forall y :: y in e1 ==> y >= |c1| && Ends(c, ext, a + y)
    ensures Ends(c, ext, a + x)
  {
    var n: nat :| EndsAt(c1, e1, x, n);
    var y := Follow(c1, x, n);
    FollowPart(c, a, c1, x, n);
    var m: nat :| Follow(c, a + x, m) == a + y;
    if 0 <= y < |c1| {
      Slice(c, a, c1, y);
      assert EndsAt(c, ext, a + x, m);
    } else {
      var k: nat :| EndsAt(c, ext, a + y, k);
      FollowAdd(c, a + x, m, k);
      assert EndsAt(c, ext, a + x, m + k);
    }
  }

  lemma Outside(c: Code, ext: set<int>, y: int)
    requires y == |c| || (y in ext && !(0 <= y < |c|))
    ensures Ends(c, ext, y)
  {
    assert EndsAt(c, ext, y, 0);
  }

  /** The final target is where the chain of jumps stops. */
  lemma FinalTargetStops(c: Code, i: int) returns (n: nat)
    requires Settles(c, i)
    ensures FinalTarget(c, i) == Follow(c, i, n) && !JmpAt(c, FinalTarget(c, i))
  {
    n :| !JmpAt(c, Follow(c, i, n)) && FinalTarget(c, i) == Follow(c, i, n);
  }

  lemma {:induction false} FollowUnique(c: Code, i: int, m: nat, n: nat)
    requires !JmpAt(c, Follow(c, i, m)) && !JmpAt(c, Follow(c, i, n))
    ensures Follow(c, i, m) == Follow(c, i, n)
  {
    if m <= n {
      FollowAdd(c, i, m, n - m);
      FollowStays(c, Follow(c, i, m), n - m);
    } else {
      FollowAdd(c, i, n, m - n);
      FollowStays(c, Follow(c, i, n), m - n);
    }
  }

  lemma FinalTargetIs(c: Code, i: int, n: nat)
    requires !JmpAt(c, Follow(c, i, n))
    ensures Settles(c, i) && FinalTarget(c, i) == Follow(c, i, n)
  {
    assert Settles(c, i);
    var m := FinalTargetStops(c, i);
    FollowUnique(c, i, m, n);
  }

  lemma LandsTrans(c: Code, x: int, y: int, z: int)
    requires Lands(c, x, y) && Lands(c, y, z)
    ensures Lands(c, x, z)
  {
    var m: nat :| Follow(c, x, m) == y;
    var n: nat :| Follow(c, y, n) == z;
    FollowAdd(c, x, m, n);
  }

  lemma JumpStep(c: Code, subj: Subject, k: Config)
    requires k.Run? && JmpAt(c, k.pc)
    ensures Step(c, subj, k) == if k.s <= |subj| then k.(pc := Target(c, k.pc)) else Stuck
  {
  }

  // ---------------------------------------------------------------- tail calls

  ghost predicate ReturnsFrom(c: Code, i: int) {
    exists n: nat :: OpAt(c, Follow(c, i, n), IRet)
  }

  /** A call of the plain code `c0` that is a jump in `c1`, because all that follows it is a return. */
  ghost predicate TailPoint(c0: Code, c1: Code, i: int)
    requires 0 <= i < |c0| && |c0| == |c1|
  {
    OpAt(c0, i, ICall) && c1[i] == Inst(IJmp, c0[i].aux, c0[i].key) && ReturnsFrom(c0, i + 2)
  }

  ghost predicate Paired(c0: Code, c1: Code, tops: Tops) {
    && |c0| == |c1| == |tops|
    && forall i :: 0 <= i < |c0| ==> c0[i] == c1[i] || (!tops[i] && TailPoint(c0, c1, i))
  }

  ghost predicate JmpsComplete(c: Code) {
    forall k :: 0 <= k < |c| && c[k].Inst? && c[k].op == IJmp ==> k + 1 < |c| && c[k + 1].Offset?
  }

  lemma ReturnsPart(c: Code, a: int, c1: Code, i: int)
    requires 0 <= a && a + |c1| <= |c| && c[a..a + |c1|] == c1 && JmpsComplete(c1) && ReturnsFrom(c1, i)
    ensures ReturnsFrom(c, a + i)
  {
    var n: nat :| OpAt(c1, Follow(c1, i, n), IRet);
    FollowPart(c, a, c1, i, n);
    Slice(c, a, c1, Follow(c1, i, n));
  }

  /** A tail call in a part is one in the whole. */
  lemma TailPart(c0: Code, c1: Code, a: int, d0: Code, d1: Code, k: int)
    requires 0 <= a && a + |d0| <= |c0| == |c1| && |d0| == |d1| && c0[a..a + |d0|] == d0 && c1[a..a + |d1|] == d1 &&
             JmpsComplete(d0)
    requires 0 <= k < |d0| && TailPoint(d0, d1, k)
    ensures TailPoint(c0, c1, a + k)
  {
    hide ReturnsFrom, JmpsComplete;
    Slice(c0, a, d0, k);
    Slice(c1, a, d1, k);
    ReturnsPart(c0, a, d0, k + 2);
  }

  lemma PairedAppend(c0: Code, c1: Code, t: Tops, d0: Code, d1: Code, u: Tops)
    requires Paired(c0, c1, t) && Paired(d0, d1, u) && JmpsComplete(c0) && JmpsComplete(d0)
    ensures Paired(c0 + d0, c1 + d1, t + u)
  {
    hide TailPoint, JmpsComplete;
    var e0, e1 := c0 + d0, c1 + d1;
    assert e0[0..0 + |c0|] == c0 && e0[|c0|..|c0| + |d0|] == d0 && e1[0..0 + |c1|] == c1 && e1[|c1|..|c1| + |d1|] == d1;
    forall i | 0 <= i < |e0| ensures e0[i] == e1[i] || (!(t + u)[i] && TailPoint(e0, e1, i)) {
      if i < |c0| {
        if c0[i] != c1[i] { TailPart(e0, e1, 0, c0, c1, i); }
      } else {
        if d0[i - |c0|] != d1[i - |c0|] { TailPart(e0, e1, |c0|, d0, d1, i - |c0|); }
      }
    }
  }

  // ---------------------------------------------------------------- all together

  /** How many rules there are to call, and whether all chains of jumps are to end or only those at top level. */
  datatype Setting = Setting(rules: nat, deep: bool)

  /** `c0` is a piece of plain code and `c` the same piece with tail calls: everything this module
      says about them.  Labels may lead to `ext`, and chains of jumps to `exits`, outside. */
  ghost predicate GoodBut(c0: Code, c: Code, tops: Tops, w: Setting, ext: set<int>, exits: set<int>) {
    ShapedBut(c, tops, w.rules, ext) && SettledBut(c, tops, w.deep, exits) && Paired(c0, c, tops) && JmpsComplete(c0)
  }

  ghost predicate Good(c0: Code, c: Code, tops: Tops, w: Setting) {
    GoodBut(c0, c, tops, w, {}, {})
  }

  lemma ShapedJmps(c: Code, tops: Tops, rules: nat, ext: set<int>)
    requires ShapedBut(c, tops, rules, ext)
    ensures JmpsComplete(c)
  {
    forall k | 0 <= k < |c| && c[k].Inst? && c[k].op == IJmp ensures k + 1 < |c| && c[k + 1].Offset? {
      assert PointOk(c, tops, rules, ext, k);
    }
  }

  /** Labels of the first piece lead forward into the second one or out, those of the second one out. */
  lemma SettledAppend(c1: Code, t1: Tops, e1: set<int>, c2: Code, t2: Tops, e2: set<int>, deep: bool, ext: set<int>)
    requires SettledBut(c1, t1, deep, e1) && SettledBut(c2, t2, deep, e2) && JmpsComplete(c1) && JmpsComplete(c2)
    requires c2 != [] ==> c2[0].Inst? && t2[0]
    requires forall y :: y in e1 ==> y >= |c1| && ((y in ext && y >= |c1 + c2|) ||
                                                   (At(c1 + c2, y) && TopAt(t1 + t2, y)))
    requires forall y :: y in e2 ==> y >= |c2| && (|c1| + y == |c1 + c2| || |c1| + y in ext)
    ensures SettledBut(c1 + c2, t1 + t2, deep, ext)
  {
    var c, t := c1 + c2, t1 + t2;
    assert c[0..0 + |c1|] == c1 && c[|c1|..|c1| + |c2|] == c2;
    forall x | |c1| <= x < |c| && c[x].Inst? && (deep || t[x]) ensures Ends(c, ext, x) {
      Outside(c, ext, |c1| + |c2|);
      forall y | y in e2 ensures Ends(c, ext, |c1| + y) { Outside(c, ext, |c1| + y); }
      SettlePart(c, ext, |c1|, c2, e2, x - |c1|);
    }
    forall x | 0 <= x < |c1| && c[x].Inst? && (deep || t[x]) ensures Ends(c, ext, x) {
      if c2 == [] { Outside(c, ext, |c|); }
      forall y | y in e1 ensures Ends(c, ext, 0 + y) {
        if y == |c| || (y in ext && !(0 <= y < |c|)) { Outside(c, ext, y); }
      }
      SettlePart(c, ext, 0, c1, e1, x);
    }
  }

  lemma Join(c0: Code, c: Code, t: Tops, e1: set<int>, x1: set<int>, d0: Code, d: Code, u: Tops, e2: set<int>,
             x2: set<int>,
             w: Setting, ext: set<int>, exits: set<int>)
    requires GoodBut(c0, c, t, w, e1, x1) && GoodBut(d0, d, u, w, e2, x2)
    requires Resolved(c + d, t + u, ext, 0, e1) && Resolved(c + d, t + u, ext, |c|, e2)
    requires forall y :: y in x1 ==> y >= |c| && ((y in exits && y >= |c + d|) || (At(c + d, y) && TopAt(t + u, y)))
    requires forall y :: y in x2 ==> y >= |d| && (|c| + y == |c + d| || |c| + y in exits)
    ensures GoodBut(c0 + d0, c + d, t + u, w, ext, exits)
  {
    hide PointOk, At, TopAt, Paired, Resolved;
    Append(c, t, e1, d, u, e2, w.rules, ext);
    ShapedJmps(c, t, w.rules, e1);
    ShapedJmps(d, u, w.rules, e2);
    SettledAppend(c, t, x1, d, u, x2, w.deep, exits);
    PairedAppend(c0, c, t, d0, d, u);
    JmpsAppend(c0, d0);
  }

  lemma JmpsAppend(c: Code, d: Code)
    requires JmpsComplete(c) && JmpsComplete(d)
    ensures JmpsComplete(c + d)
  {
    forall k | 0 <= k < |c + d| && (c + d)[k].Inst? && (c + d)[k].op == IJmp ensures k + 1 < |c + d| &&
        (c + d)[k + 1].Offset? {
      if k < |c| { assert (c + d)[k + 1] == c[k + 1]; } else { assert (c + d)[k + 1] == d[k - |c| + 1]; }
    }
  }

  // ---------------------------------------------------------------- the pieces

  ghost function BufferTops(): Tops { [false, false, false, false, false, false, false, false] }

  ghost function JumpTops(): Tops { [true, false] }

  ghost function TestTops(cs: Charset): Tops {
    JumpTops() + if TypeOf(cs) == CsSet then BufferTops() else []
  }

  ghost function OptTestTops(f: First): Tops {
    if f.empty then [] else TestTops(f.cs)
  }

  lemma SameGood(c: Code, tops: Tops, w: Setting, ext: set<int>, exits: set<int>)
    requires ShapedBut(c, tops, w.rules, ext) && SettledBut(c, tops, w.deep, exits)
    ensures GoodBut(c, c, tops, w, ext, exits)
  {
    ShapedJmps(c, tops, w.rules, ext);
  }

  lemma NoJumpSettled(c: Code, tops: Tops, deep: bool)
    requires |tops| == |c| && forall k :: 0 <= k < |c| && c[k].Inst? ==> c[k].op != IJmp
    ensures SettledBut(c, tops, deep, {})
  {
    forall x | 0 <= x < |c| && c[x].Inst? ensures Ends(c, {}, x) {
      assert EndsAt(c, {}, x, 0);
    }
  }

  lemma OneGood(op: Opcode, aux: int, key: int, w: Setting)
    requires Size(op) == 1
    ensures var c := [Inst(op, aux, key)]; Good(c, c, [true], w)
  {
    NoJumpSettled([Inst(op, aux, key)], [true], w.deep);
    SameGood([Inst(op, aux, key)], [true], w, {}, {});
  }

  lemma EmptyGood(w: Setting)
    ensures Good([], [], [], w)
  {
  }

  lemma JumpGood(op: Opcode, off: int, w: Setting)
    requires Labelled(op) && op != ITestSet && (off >= 2 || off < 0)
    ensures GoodBut(Jump(op, off), Jump(op, off), JumpTops(), w, {off}, if op == IJmp then {off} else {})
  {
    var c := Jump(op, off);
    if op == IJmp {
      assert Follow(c, 0, 1) == Follow(c, off, 0);
      assert EndsAt(c, {off}, 0, 1);
    } else {
      NoJumpSettled(c, JumpTops(), w.deep);
    }
    SameGood(c, JumpTops(), w, {off}, if op == IJmp then {off} else {});
  }

  lemma TestShaped(cs: Charset, off: int, rules: nat)
    ensures ShapedBut(Test(cs, off), TestTops(cs), rules, {off})
  {
    hide TypeOf;
  }

  lemma TestGood(cs: Charset, off: int, w: Setting)
    requires off >= |Test(cs, 0)|
    ensures GoodBut(Test(cs, off), Test(cs, off), TestTops(cs), w, {off}, {off})
    ensures Follow(Test(cs, off), 0, 1) == if TypeOf(cs) == CsFail then off else 0
  {
    hide TypeOf;
    var c := Test(cs, off);
    TestShaped(cs, off, w.rules);
    if TypeOf(cs) == CsFail {
      assert Follow(c, 0, 1) == Follow(c, off, 0);
      assert EndsAt(c, {off}, 0, 1);
    } else {
      assert EndsAt(c, {off}, 0, 0);
    }
    SameGood(c, TestTops(cs), w, {off}, {off});
  }

  lemma OptTestGood(f: First, off: int, w: Setting)
    requires off >= |OptTest(f, 0)|
    ensures GoodBut(OptTest(f, off), OptTest(f, off), OptTestTops(f), w, {off}, {off})
  {
    hide Test, TestTops;
    if f.empty { EmptyGood(w); } else { TestGood(f.cs, off, w); }
  }

  lemma SetGood(op: Opcode, cs: Charset, w: Setting)
    requires op == ISet || op == ISpan
    ensures var c := I(op) + Buffer(cs); Good(c, c, [true] + BufferTops(), w)
  {
    NoJumpSettled(I(op) + Buffer(cs), [true] + BufferTops(), w.deep);
    SameGood(I(op) + Buffer(cs), [true] + BufferTops(), w, {}, {});
  }

  lemma TestSize(cs: Charset, off: int)
    ensures |Test(cs, off)| == |Test(cs, 0)| == |TestTops(cs)|
    ensures |Test(cs, off)| >= 2 && Test(cs, off)[0].Inst? && TestTops(cs)[0]
  {
    hide TypeOf;
  }

  lemma OptTestSize(f: First, off: int)
    ensures |OptTest(f, off)| == |OptTest(f, 0)| == |OptTestTops(f)|
    ensures OptTest(f, off) != [] ==> OptTest(f, off)[0].Inst? && OptTestTops(f)[0]
  {
    hide Test, TestTops;
    if !f.empty { TestSize(f.cs, off); }
  }

  // ---------------------------------------------------------------- the pieces around good parts

  lemma ChoiceByTestGood(cs: Charset, a0: Code, a: Code, t1: Tops, empty2: bool, b0: Code, b: Code, t2: Tops,
                         w: Setting) returns (tops: Tops)
    requires Good(a0, a, t1, w) && Good(b0, b, t2, w) && (empty2 ==> b == [])
    ensures Good(ChoiceByTestCode(cs, a0, empty2, b0), ChoiceByTestCode(cs, a, empty2, b), tops, w)
  {
    hide TypeOf, PointOk, Test, TestTops, JmpsComplete, SettledBut, TailPoint;
    var jmp, tj := if empty2 then [] else Jump(IJmp, 2 + |b|), if empty2 then [] else JumpTops();
    var l1 := |Test(cs, 0)| + |a| + |jmp|;
    var e := l1 + |b|;
    var test, tt := Test(cs, l1), TestTops(cs);
    TestSize(cs, l1);
    TestGood(cs, l1, w);
    Join(test, test, tt, {l1}, {l1}, a0, a, t1, {}, {}, w, {l1}, {l1});
    if empty2 {
      EmptyGood(w);
      Join(test + a0, test + a, tt + t1, {l1}, {l1}, jmp, jmp, tj, {}, {}, w, {l1, e}, {l1, e});
    } else {
      JumpGood(IJmp, 2 + |b|, w);
      Join(test + a0, test + a, tt + t1, {l1}, {l1}, jmp, jmp, tj, {2 + |b|}, {2 + |b|}, w, {l1, e}, {l1, e});
    }
    Join(test + a0 + jmp, test + a + jmp, tt + t1 + tj, {l1, e}, {l1, e}, b0, b, t2, {}, {}, w, {}, {});
    tops := tt + t1 + tj + t2;
  }

  /** test -> l1; op off; <p> -- with the label of `op` beyond the two first instructions. */
  lemma FrontGood(f: First, l1: int, op: Opcode, off: int, a0: Code, a: Code, t1: Tops, w: Setting)
    requires Good(a0, a, t1, w) && Labelled(op) && op != ITestSet && op != IJmp && off >= 2 &&
             l1 >= |OptTest(f, 0)| + 2 + |a|
    ensures var n, j := |OptTest(f, 0)|, Jump(op, off);
            GoodBut(OptTest(f, l1) + j + a0, OptTest(f, l1) + j + a, OptTestTops(f) + JumpTops() + t1, w, {l1, n + off},
                    {l1})
  {
    hide TypeOf, PointOk, OptTest, OptTestTops, JmpsComplete, SettledBut, TailPoint;
    var n, test, tt, j := |OptTest(f, 0)|, OptTest(f, l1), OptTestTops(f), Jump(op, off);
    OptTestSize(f, l1);
    OptTestGood(f, l1, w);
    JumpGood2(op, off, w);
    Join(test, test, tt, {l1}, {l1}, j, j, JumpTops(), {off}, {}, w, {l1, n + off}, {l1});
    Join(test + j, test + j, tt + JumpTops(), {l1, n + off}, {l1}, a0, a, t1, {}, {}, w, {l1, n + off}, {l1});
  }

  lemma ChoiceGood(f: First, a0: Code, a: Code, t1: Tops, b0: Code, b: Code, t2: Tops, w: Setting) returns (tops: Tops)
    requires Good(a0, a, t1, w) && Good(b0, b, t2, w)
    ensures Good(ChoiceCode(f, a0, b0), ChoiceCode(f, a, b), tops, w)
  {
    hide TypeOf, PointOk, OptTest, OptTestTops, JmpsComplete, SettledBut, TailPoint;
    var l1 := |OptTest(f, 0)| + 4 + |a|;
    var e, commit := l1 + |b|, Jump(ICommit, 2 + |b|);
    GoodLength(a0, a, t1, w);
    GoodLength(b0, b, t2, w);
    OptTestSize(f, l1);
    FrontGood(f, l1, IChoice, 4 + |a|, a0, a, t1, w);
    assert {l1, |OptTest(f, 0)| + (4 + |a|)} == {l1};
    JumpGood2(ICommit, 2 + |b|, w);
    var p0, p := OptTest(f, l1) + Jump(IChoice, 4 + |a|) + a0, OptTest(f, l1) + Jump(IChoice, 4 + |a|) + a;
    var tp := OptTestTops(f) + JumpTops() + t1;
    Join(p0, p, tp, {l1}, {l1}, commit, commit, JumpTops(), {2 + |b|}, {}, w, {l1, e}, {l1});
    Join(p0 + commit, p + commit, tp + JumpTops(), {l1, e}, {l1}, b0, b, t2, {}, {}, w, {}, {});
    tops := tp + JumpTops() + t2;
  }

  lemma GoodLength(c0: Code, c: Code, tops: Tops, w: Setting)
    requires Good(c0, c, tops, w)
    ensures |c0| == |c| == |tops|
  {
  }

  lemma RepGood(f: First, opt: bool, a0: Code, a: Code, t1: Tops, w: Setting) returns (tops: Tops)
    requires Good(a0, a, t1, w)
    ensures Good(RepCode(f, opt, a0), RepCode(f, opt, a), tops, w)
  {
    hide TypeOf, PointOk, OptTest, OptTestTops, JmpsComplete, SettledBut, TailPoint;
    var n := |OptTest(f, 0)|;
    var e, k, back := n + 4 + |a|, if opt then 2 else 4 + |a|, Jump(IPartialCommit, -|a|);
    GoodLength(a0, a, t1, w);
    OptTestSize(f, e);
    FrontGood(f, e, if opt then IPartialCommit else IChoice, k, a0, a, t1, w);
    JumpGood2(IPartialCommit, -|a|, w);
    var p0, p := OptTest(f, e) + RepHead(opt, a) + a0, OptTest(f, e) + RepHead(opt, a) + a;
    var tp := OptTestTops(f) + JumpTops() + t1;
    StartOfPart(OptTest(f, e) + RepHead(opt, a), OptTestTops(f) + JumpTops(), a, t1, back, w.rules);
    Join(p0, p, tp, {e, n + k}, {e}, back, back, JumpTops(), {-|a|}, {}, w, {}, {});
    tops := tp + JumpTops();
  }

  /** The second of three pieces begins, or if it is empty the third one, at an instruction. */
  lemma StartOfPart(p: Code, tp: Tops, a: Code, t: Tops, b: Code, rules: nat)
    requires |p| == |tp| && ShapedBut(a, t, rules, {}) && |b| == 2 && b[0].Inst?
    ensures At(p + a + b, |p|) && TopAt(tp + t + JumpTops(), |p|)
  {
    if a != [] {
      assert (p + a + b)[|p|] == a[0] && (tp + t + JumpTops())[|p|] == t[0];
    } else {
      assert (p + a + b)[|p|] == b[0] && (tp + t + JumpTops())[|p|] == JumpTops()[0];
    }
  }

  lemma JumpGood2(op: Opcode, off: int, w: Setting)
    requires Labelled(op) && op != ITestSet && op != IJmp
    ensures GoodBut(Jump(op, off), Jump(op, off), JumpTops(), w, {off}, {})
  {
    NoJumpSettled(Jump(op, off), JumpTops(), w.deep);
    SameGood(Jump(op, off), JumpTops(), w, {off}, {});
  }

  /** The jump that closes a loop makes its exit and its own label resolve. */
  lemma BackShaped(p: Code, tp: Tops, n: int, rules: nat)
    requires ShapedBut(p, tp, rules, {n + 2}) && |p| == n > 0
    ensures ShapedBut(p + Jump(IJmp, -n), tp + JumpTops(), rules, {})
  {
    hide PointOk;
    var back := Jump(IJmp, -n);
    var c, t := p + back, tp + JumpTops();
    JumpGood(IJmp, -n, Setting(rules, true));
    assert At(c, 0) && TopAt(t, 0);
    assert Resolved(c, t, {}, 0, {n + 2}) && Resolved(c, t, {}, n, {-n});
    Append(p, tp, {n + 2}, back, JumpTops(), {-n}, rules, {});
  }

  lemma RepByTestGood(cs: Charset, a0: Code, a: Code, t1: Tops, w: Setting) returns (tops: Tops)
    requires Good(a0, a, t1, w)
    ensures Good(RepByTestCode(cs, a0), RepByTestCode(cs, a), tops, w)
  {
    hide TypeOf, Test, TestTops, Paired, JmpsComplete, SettledBut, TailPoint, ShapedBut;
    var n := |Test(cs, 0)| + |a|;
    var test, tt, back := Test(cs, n + 2), TestTops(cs), Jump(IJmp, -n);
    GoodLength(a0, a, t1, w);
    TestSize(cs, n + 2);
    TestGood(cs, n + 2, w);
    Join(test, test, tt, {n + 2}, {n + 2}, a0, a, t1, {}, {}, w, {n + 2}, {n + 2});
    JumpGood(IJmp, -n, w);
    var p0, p, tp := test + a0, test + a, tt + t1;
    tops := tp + JumpTops();
    BackShaped(p, tp, n, w.rules);
    PairedAppend(p0, p, tp, back, back, JumpTops());
    JmpsAppend(p0, back);
    assert p[..|test|] == test;
    ShapedJmps(p, tp, w.rules, {n + 2});
    BackSettled(cs, p, tp, w.deep, n);
  }

  /** The jump that closes the loop leads to the test, and the test, if it is a jump, out of the loop. */
  lemma BackSettled(cs: Charset, p: Code, tops: Tops, deep: bool, n: int)
    requires |p| == n && SettledBut(p, tops, deep, {n + 2}) && JmpsComplete(p) && |Test(cs, n + 2)| <= n &&
             p[..|Test(cs, n + 2)|] == Test(cs, n + 2)
    ensures SettledBut(p + Jump(IJmp, -n), tops + JumpTops(), deep, {})
  {
    hide TypeOf;
    var c := p + Jump(IJmp, -n);
    assert c[0..0 + |p|] == p;
    assert p[0] == Test(cs, n + 2)[0] && p[1] == Test(cs, n + 2)[1];
    assert EndsAt(c, {}, n + 2, 0);
    assert Follow(c, n, 1) == Follow(c, 0, 0) == 0;
    if TypeOf(cs) == CsFail {
      assert Follow(c, n, 2) == Follow(c, 0, 1) == Follow(c, n + 2, 0);
      assert EndsAt(c, {}, n, 2);
    } else {
      assert EndsAt(c, {}, n, 1);
    }
    forall x | 0 <= x < |c| && c[x].Inst? && (deep || (tops + JumpTops())[x]) ensures Ends(c, {}, x) {
      if x < n { SettlePart(c, {}, 0, p, {n + 2}, x); }
    }
  }

  lemma NotByTestGood(f: First, w: Setting) returns (tops: Tops)
    ensures Good(NotByTestCode(f), NotByTestCode(f), tops, w)
  {
    hide TypeOf, PointOk, OptTest, OptTestTops, JmpsComplete, SettledBut, TailPoint;
    var e := |OptTest(f, 0)| + 1;
    var test, tt := OptTest(f, e), OptTestTops(f);
    OptTestSize(f, e);
    OptTestGood(f, e, w);
    OneGood(IFail, 0, 0, w);
    Join(test, test, tt, {e}, {e}, I(IFail), I(IFail), [true], {}, {}, w, {}, {});
    tops := tt + [true];
  }

  lemma NotGood(f: First, a0: Code, a: Code, t1: Tops, w: Setting) returns (tops: Tops)
    requires Good(a0, a, t1, w)
    ensures Good(NotCode(f, a0), NotCode(f, a), tops, w)
  {
    hide TypeOf, PointOk, OptTest, OptTestTops, JmpsComplete, SettledBut, TailPoint;
    var n := |OptTest(f, 0)|;
    var e := n + 3 + |a|;
    var test, tt, choice := OptTest(f, e), OptTestTops(f), Jump(IChoice, 3 + |a|);
    OptTestSize(f, e);
    OptTestGood(f, e, w);
    JumpGood(IChoice, 3 + |a|, w);
    Join(test, test, tt, {e}, {e}, choice, choice, JumpTops(), {3 + |a|}, {}, w, {e}, {e});
    Join(test + choice, test + choice, tt + JumpTops(), {e}, {e}, a0, a, t1, {}, {}, w, {e}, {e});
    OneGood(IFailTwice, 0, 0, w);
    Join(test + choice + a0, test + choice + a, tt + JumpTops() + t1, {e}, {e}, I(IFailTwice), I(IFailTwice), [true],
         {}, {}, w, {}, {});
    tops := tt + JumpTops() + t1 + [true];
  }

  lemma AndGood(a0: Code, a: Code, t1: Tops, w: Setting) returns (tops: Tops)
    requires Good(a0, a, t1, w)
    ensures Good(AndCode(a0), AndCode(a), tops, w)
  {
    hide PointOk, JmpsComplete, SettledBut, TailPoint;
    var l1 := 4 + |a|;
    JumpGood(IChoice, l1, w);
    Join(Jump(IChoice, l1), Jump(IChoice, l1), JumpTops(), {l1}, {}, a0, a, t1, {}, {}, w, {l1}, {});
    JumpGood(IBackCommit, 3, w);
    var p0, p, tp := Jump(IChoice, l1) + a0, Jump(IChoice, l1) + a, JumpTops() + t1;
    Join(p0, p, tp, {l1}, {}, Jump(IBackCommit, 3), Jump(IBackCommit, 3), JumpTops(), {3}, {}, w, {l1, l1 + 1}, {});
    OneGood(IFail, 0, 0, w);
    Join(p0 + Jump(IBackCommit, 3), p + Jump(IBackCommit, 3), tp + JumpTops(), {l1, l1 + 1}, {}, I(IFail), I(IFail),
         [true], {}, {}, w, {}, {});
    tops := tp + JumpTops() + [true];
  }

  lemma GoodSeq(a0: Code, a: Code, t1: Tops, b0: Code, b: Code, t2: Tops, w: Setting)
    requires Good(a0, a, t1, w) && Good(b0, b, t2, w)
    ensures Good(a0 + b0, a + b, t1 + t2, w)
  {
    hide PointOk, JmpsComplete, SettledBut, TailPoint;
    Join(a0, a, t1, {}, {}, b0, b, t2, {}, {}, w, {}, {});
  }

  lemma OptionReuseGood(a0: Code, a: Code, t1: Tops, w: Setting) returns (tops: Tops)
    requires Good(a0, a, t1, w)
    ensures Good(Jump(IPartialCommit, 2) + a0, Jump(IPartialCommit, 2) + a, tops, w)
  {
    hide PointOk, JmpsComplete, SettledBut, TailPoint;
    JumpGood(IPartialCommit, 2, w);
    Join(Jump(IPartialCommit, 2), Jump(IPartialCommit, 2), JumpTops(), {2}, {}, a0, a, t1, {}, {}, w, {}, {});
    tops := JumpTops() + t1;
  }
}

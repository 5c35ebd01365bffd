/** The code generated for a tree makes the machine compute what `Eval` says. */
module LpegCorrect {
  import opened LpegTree
  import opened LpegAnalysis
  import opened LpegVm
  import opened LpegCodegen

  // ---------------------------------------------------------------- capture lists

  /** How the machine lists a capture: one full entry when that is possible, otherwise an open
      entry, the nested captures and a closing entry. */
  ghost function FlatOne(c: Capture): seq<CapEntry> {
    var inner := FlatAll(c.nested);
    if inner == [] && c.start <= c.end && c.end - c.start < UCHAR_MAX then
      [CapEntry(c.start, c.key, c.kind, c.end - c.start + 1)]
    else
      [CapEntry(c.start, c.key, c.kind, 0)] + inner + [CapEntry(c.end, 0, CCLOSE, 1)]
  }

  ghost function FlatAll(cs: seq<Capture>): seq<CapEntry> {
    if cs == [] then [] else FlatOne(cs[0]) + FlatAll(cs[1..])
  }

  lemma {:induction false} FlatAppend(c1: seq<Capture>, c2: seq<Capture>)
    ensures FlatAll(c1 + c2) == FlatAll(c1) + FlatAll(c2)
    decreases |c1|
  {
    hide FlatOne;
    if c1 == [] {
      assert c1 + c2 == c2;
    } else {
      FlatAppend(c1[1..], c2);
      assert (c1 + c2)[0] == c1[0] && (c1 + c2)[1..] == c1[1..] + c2;
      assert FlatOne(c1[0]) + (FlatAll(c1[1..]) + FlatAll(c2)) == FlatAll(c1) + FlatAll(c2);
    }
  }

  lemma FlatSingle(c: Capture)
    ensures FlatAll([c]) == FlatOne(c)
  {
    assert [c][1..] == [];
  }

  // ---------------------------------------------------------------- where code is

  /** A program, the subject it runs on, the rules in scope and where their code starts. */
  datatype Ctx = Ctx(code: Code, subj: Subject, g: Rules, calls: seq<int>, d: nat)

  ghost function LinkedSlot(slot: Slot, calls: seq<int>, i: int): Slot {
    match slot
    case Inst(IOpenCall, aux, key) => Inst(ICall, aux, key)
    case Open(n) => Offset(if n < |calls| then calls[n] - (i - 1) else 0)
    case _ => slot
  }

  /** `frag` is at position `a`, its open calls directed to the rules in scope. */
  ghost predicate Linked(x: Ctx, a: int, frag: Code) {
    && 0 <= a && a + |frag| <= |x.code|
    && forall i :: 0 <= i < |frag| ==> x.code[a + i] == LinkedSlot(frag[i], x.calls, a + i)
  }

  lemma LinkedAppend(x: Ctx, a: int, f1: Code, f2: Code)
    requires Linked(x, a, f1 + f2)
    ensures Linked(x, a, f1) && Linked(x, a + |f1|, f2)
  {
    forall i | 0 <= i < |f1| ensures x.code[a + i] == LinkedSlot(f1[i], x.calls, a + i) {
      assert (f1 + f2)[i] == f1[i];
    }
    forall i | 0 <= i < |f2| ensures x.code[a + |f1| + i] == LinkedSlot(f2[i], x.calls, a + |f1| + i) {
      assert (f1 + f2)[|f1| + i] == f2[i];
      assert x.code[a + (|f1| + i)] == LinkedSlot((f1 + f2)[|f1| + i], x.calls, a + (|f1| + i));
    }
  }

  lemma LinkedAppend3(x: Ctx, a: int, f1: Code, f2: Code, f3: Code)
    requires Linked(x, a, f1 + f2 + f3)
    ensures Linked(x, a, f1) && Linked(x, a + |f1|, f2) && Linked(x, a + |f1| + |f2|, f3)
  {
    LinkedAppend(x, a, f1 + f2, f3);
    LinkedAppend(x, a, f1, f2);
  }

  /** Trees as lptree.c builds them.  Calls refer to existing rules, kinds of captures fit into four
      bits, and look-behinds have the recorded length and no captures.  That is checked when the
      look-behind is built, while its calls are still open: they have no fixed length, so they can
      only be inside predicates, and what they capture is not looked at. */
  ghost predicate WellFormed(g: Rules, p: Tree, d: nat)
    decreases p
  {
    match p
    case TRep(q) => WellFormed(g, q, d)
    case TSeq(p1, p2) => WellFormed(g, p1, d) && WellFormed(g, p2, d)
    case TChoice(p1, p2) => WellFormed(g, p1, d) && WellFormed(g, p2, d)
    case TNot(q) => WellFormed(g, q, d)
    case TAnd(q) => WellFormed(g, q, d)
    case TBehind(n, q) =>
      WellFormed(g, q, d) && FixedLen([], q, d) == n && n <= MAXBEHIND && !HasCaptures([], q, {}, d)
    case TCapture(kind, _, q) => WellFormed(g, q, d) && CCLOSE < kind < 16
    case TCall(n) => n < |g|
    case TGrammar(rules) => rules != [] && forall k :: 0 <= k < |rules| ==> WellFormed(rules, rules[k], d)
    case _ => true
  }

  lemma WellFormedParts(g: Rules, p: Tree, d: nat)
    requires WellFormed(g, p, d)
    ensures p.TSeq? ==> WellFormed(g, p.first, d) && WellFormed(g, p.second, d)
    ensures p.TChoice? ==> WellFormed(g, p.left, d) && WellFormed(g, p.right, d)
    ensures p.TRep? || p.TNot? || p.TAnd? || p.TBehind? || p.TCapture? ==> WellFormed(g, p.body, d)
    ensures p.TBehind? ==> FixedLen([], p.body, d) == p.n && !HasCaptures([], p.body, {}, d)
    ensures p.TCapture? ==> p.kind < 16
    ensures p.TCall? ==> p.rule < |g|
    ensures p.TGrammar? ==> p.rules != [] && forall k :: 0 <= k < |p.rules| ==> WellFormed(p.rules, p.rules[k], d)
  {
    hide FixedLen, CheckAux, HasCaptures;
  }

  /** What was checked while the calls of a look-behind were open holds when they are closed. */
  lemma {:induction false} BehindFixed(g: Rules, q: Tree, d: nat)
    requires FixedLen([], q, d) >= 0
    ensures FixedLen(g, q, d) == FixedLen([], q, d)
    decreases q
  {
    match q
    case TSeq(p1, p2) => BehindFixed(g, p1, d); BehindFixed(g, p2, d);
    case TChoice(p1, p2) => BehindFixed(g, p1, d); BehindFixed(g, p2, d);
    case TCapture(_, _, q1) => BehindFixed(g, q1, d);
    case _ =>
  }

  /** The captures of calls inside predicates are dropped. */
  lemma {:induction false} BehindQuiet(g: Rules, q: Tree, d: nat, subj: Subject, s: nat, fuel: nat)
    requires s <= |subj| && FixedLen([], q, d) >= 0 && !HasCaptures([], q, {}, d)
    ensures var r := Eval(g, q, subj, s, fuel); r.Yes? ==> r.caps == []
    decreases q
  {
    match q
    case TSeq(p1, p2) =>
      BehindQuiet(g, p1, d, subj, s, fuel);
      var r := Eval(g, p1, subj, s, fuel);
      if r.Yes? { BehindQuiet(g, p2, d, subj, r.pos, fuel); }
    case TChoice(p1, p2) => BehindQuiet(g, p1, d, subj, s, fuel); BehindQuiet(g, p2, d, subj, s, fuel);
    case TGrammar(rules) =>
      if fuel > 0 && rules != [] { HasCapturesSound(rules, rules[0], d - 1, subj, s, fuel - 1); }
    case _ =>
  }

  /** The rules in scope are well formed and their code is in place. */
  ghost predicate InScope(x: Ctx) {
    && |x.calls| == |x.g|
    && forall n :: 0 <= n < |x.g| ==>
         WellFormed(x.g, x.g[n], x.d) && Linked(x, x.calls[n], GenRule(x.g, x.g[n], x.d, false))
  }

  // ---------------------------------------------------------------- what a fragment delivers

  ghost predicate Goes(x: Ctx, c: Config, e: Config) { Reaches(x.code, x.subj, c, e) }

  ghost predicate LevelsOk(stk: seq<Frame>, n: nat) {
    forall f :: f in stk && f.Choice? ==> f.lvl <= n
  }

  ghost predicate HasChoice(stk: seq<Frame>) {
    stk != [] && stk[|stk| - 1].Choice?
  }

  /** A run from `start` finds its way to the end `b` of the fragment.  Inside an optional pattern
      it may also have taken the exit on top of the stack, or have moved the position saved there. */
  ghost predicate Arrives(x: Ctx, opt: bool, start: Config, b: int, t: nat, caps: seq<CapEntry>, stk: seq<Frame>) {
    || Goes(x, start, Run(b, t, caps, stk))
    || (opt && HasChoice(stk) &&
        var top, rest := stk[|stk| - 1], stk[..|stk| - 1];
        || Goes(x, start, Run(top.pc, t, caps, rest))
        || exists s, lvl :: Goes(x, start, Run(b, t, caps, rest + [Choice(s, top.pc, lvl)])))
  }

  /** What the code of a fragment does when `r` is the answer for its tree: it fails if the tree
      fails, and otherwise arrives with the right position and captures -- or it fails early, but
      then on a character that what follows cannot accept. */
  ghost predicate Delivers(x: Ctx, opt: bool, start: Config, b: int, r: Result, fl: Charset, c0: seq<CapEntry>,
                           stk: seq<Frame>) {
    match r
    case Out => true
    case No => Goes(x, start, Pop(stk, c0))
    case Yes(t, caps) =>
      || Arrives(x, opt, start, b, t, c0 + FlatAll(caps), stk)
      || (t < |x.subj| && x.subj[t] !in fl && Goes(x, start, Pop(stk, c0)))
  }

  lemma {:induction false} PopPrefix(stk: seq<Frame>, c0: seq<CapEntry>, more: seq<CapEntry>)
    requires LevelsOk(stk, |c0|)
    ensures Pop(stk, c0 + more) == Pop(stk, c0)
  {
    if stk != [] {
      var top := stk[|stk| - 1];
      if top.Return? {
        PopPrefix(stk[..|stk| - 1], c0, more);
      } else {
        assert top in stk;
        assert (c0 + more)[..top.lvl] == c0[..top.lvl];
      }
    }
  }

  lemma Step1(x: Ctx, c: Config, e: Config)
    requires Step(x.code, x.subj, c) == e
    ensures Goes(x, c, e)
  {
    ReachesStep(x.code, x.subj, c);
  }

  lemma Via(x: Ctx, c1: Config, c2: Config, c3: Config)
    requires Goes(x, c1, c2) && Goes(x, c2, c3)
    ensures Goes(x, c1, c3)
  {
    ReachesTrans(x.code, x.subj, c1, c2, c3);
  }

  lemma ViaStep(x: Ctx, c1: Config, c2: Config, c3: Config)
    requires Goes(x, c1, c2) && Step(x.code, x.subj, c2) == c3
    ensures Goes(x, c1, c3)
  {
    Step1(x, c2, c3);
    Via(x, c1, c2, c3);
  }

  lemma ArrivesFrom(x: Ctx, opt: bool, before: Config, start: Config, b: int, t: nat, caps: seq<CapEntry>,
                    stk: seq<Frame>)
    requires Goes(x, before, start) && Arrives(x, opt, start, b, t, caps, stk)
    ensures Arrives(x, opt, before, b, t, caps, stk)
  {
    if Goes(x, start, Run(b, t, caps, stk)) {
      Via(x, before, start, Run(b, t, caps, stk));
    } else {
      var top, rest := stk[|stk| - 1], stk[..|stk| - 1];
      if Goes(x, start, Run(top.pc, t, caps, rest)) {
        Via(x, before, start, Run(top.pc, t, caps, rest));
      } else {
        var s, lvl :| Goes(x, start, Run(b, t, caps, rest + [Choice(s, top.pc, lvl)]));
        Via(x, before, start, Run(b, t, caps, rest + [Choice(s, top.pc, lvl)]));
      }
    }
  }

  lemma DeliversFrom(x: Ctx, opt: bool, before: Config, start: Config, b: int, r: Result, fl: Charset,
                     c0: seq<CapEntry>, stk: seq<Frame>)
    requires Goes(x, before, start) && Delivers(x, opt, start, b, r, fl, c0, stk)
    ensures Delivers(x, opt, before, b, r, fl, c0, stk)
  {
    match r
    case Out =>
    case No => Via(x, before, start, Pop(stk, c0));
    case Yes(t, caps) =>
      if Arrives(x, opt, start, b, t, c0 + FlatAll(caps), stk) {
        ArrivesFrom(x, opt, before, start, b, t, c0 + FlatAll(caps), stk);
      } else {
        Via(x, before, start, Pop(stk, c0));
      }
  }

  /** With a full follow set nothing fails early. */
  lemma DeliversExactly(x: Ctx, start: Config, b: int, r: Result, c0: seq<CapEntry>, stk: seq<Frame>)
    requires Delivers(x, false, start, b, r, FullSet(), c0, stk)
    ensures r.Yes? ==> Goes(x, start, Run(b, r.pos, c0 + FlatAll(r.caps), stk))
  {
  }
}

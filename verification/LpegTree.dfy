/** Pattern trees (lptree.h) and the matching semantics the LPeg manual gives them. */
module LpegTree {
  import opened Basics

  type Charset = set<Byte>

  type Subject = seq<Byte>

  function BytesBelow(n: nat): (cs: Charset)
    requires n <= 256
    ensures forall b: Byte :: b in cs <==> b < n
  {
    if n == 0 then {} else BytesBelow(n - 1) + {n - 1}
  }

  function FullSet(): (cs: Charset)
    ensures forall b: Byte :: b in cs
  {
    BytesBelow(256)
  }

  /** The trees a compiled pattern is made of.  `TCall(n)` calls rule number `n` of the
      innermost enclosing grammar; `TGrammar` lists its rules, the first one being initial. */
  datatype Tree =
    | TChar(c: Byte)
    | TSet(cs: Charset)
    | TAny
    | TTrue
    | TFalse
    | TRep(body: Tree)
    | TSeq(first: Tree, second: Tree)
    | TChoice(left: Tree, right: Tree)
    | TNot(body: Tree)
    | TAnd(body: Tree)
    | TCall(rule: nat)
    | TGrammar(rules: seq<Tree>)
    | TBehind(n: nat, body: Tree)
    | TCapture(kind: nat, key: int, body: Tree)

  /** The rules that `TCall` nodes refer to. */
  type Rules = seq<Tree>

  /** A capture made by a match: its kind and key, the span it covers, and the captures nested in it. */
  datatype Capture = Capture(kind: nat, key: int, start: nat, end: nat, nested: seq<Capture>)

  /** `Out` is not an answer: the evaluation needs more fuel. */
  datatype Result = Out | No | Yes(pos: nat, caps: seq<Capture>)

  predicate InSet(subj: Subject, s: nat, cs: Charset) {
    s < |subj| && subj[s] in cs
  }

  function One(subj: Subject, s: nat, cs: Charset): (r: Result)
    ensures r.Yes? <==> InSet(subj, s, cs)
    ensures r.Yes? ==> r == Yes(s + 1, [])
  {
    if InSet(subj, s, cs) then Yes(s + 1, []) else No
  }

  /** Matches `p`, whose calls refer to `g`, against `subj` from position `s`.
      Fuel is spent on calls, on entering a grammar and on each further turn of a repetition. */
  function Eval(g: Rules, p: Tree, subj: Subject, s: nat, fuel: nat): (r: Result)
    requires s <= |subj|
    ensures r.Yes? ==> s <= r.pos <= |subj|
    decreases fuel, p
  {
    match p
    case TChar(c) => One(subj, s, {c})
    case TSet(cs) => One(subj, s, cs)
    case TAny => One(subj, s, FullSet())
    case TTrue => Yes(s, [])
    case TFalse => No
    case TRep(q) =>
      (match Eval(g, q, subj, s, fuel)
       case Out => Out
       case No => Yes(s, [])
       case Yes(t, c1) =>
         if fuel == 0 then Out else
         match Eval(g, p, subj, t, fuel - 1)
         case Yes(u, c2) => Yes(u, c1 + c2)
         case other => other)
    case TSeq(p1, p2) =>
      (match Eval(g, p1, subj, s, fuel)
       case Yes(t, c1) =>
         (match Eval(g, p2, subj, t, fuel)
          case Yes(u, c2) => Yes(u, c1 + c2)
          case other => other)
       case other => other)
    case TChoice(p1, p2) =>
      (match Eval(g, p1, subj, s, fuel)
       case No => Eval(g, p2, subj, s, fuel)
       case other => other)
    case TNot(q) =>
      (match Eval(g, q, subj, s, fuel)
       case Out => Out
       case No => Yes(s, [])
       case Yes(_, _) => No)
    case TAnd(q) =>
      (match Eval(g, q, subj, s, fuel)
       case Yes(_, _) => Yes(s, [])
       case other => other)
    case TCall(n) =>
      if fuel == 0 then Out
      else if n >= |g| then No
      else Eval(g, g[n], subj, s, fuel - 1)
    case TGrammar(rules) =>
      if fuel == 0 then Out
      else if rules == [] then No
      else Eval(rules, rules[0], subj, s, fuel - 1)
    case TBehind(n, q) =>
      if n > s then No else
      (match Eval(g, q, subj, s - n, fuel)
       case Yes(_, _) => Yes(s, [])
       case other => other)
    case TCapture(kind, key, q) =>
      (match Eval(g, q, subj, s, fuel)
       case Yes(t, c) => Yes(t, [Capture(kind, key, s, t, c)])
       case other => other)
  }

  /** More fuel never changes an answer. */
  lemma {:induction false} EvalMonotone(g: Rules, p: Tree, subj: Subject, s: nat, fuel: nat, more: nat)
    requires s <= |subj| && fuel <= more
    requires Eval(g, p, subj, s, fuel) != Out
    ensures Eval(g, p, subj, s, more) == Eval(g, p, subj, s, fuel)
    decreases fuel, p
  {
    match p
    case TRep(q) =>
      EvalMonotone(g, q, subj, s, fuel, more);
      var r := Eval(g, q, subj, s, fuel);
      if r.Yes? {
        EvalMonotone(g, p, subj, r.pos, fuel - 1, more - 1);
      }
    case TSeq(p1, p2) =>
      EvalMonotone(g, p1, subj, s, fuel, more);
      var r := Eval(g, p1, subj, s, fuel);
      if r.Yes? {
        EvalMonotone(g, p2, subj, r.pos, fuel, more);
      }
    case TChoice(p1, p2) =>
      EvalMonotone(g, p1, subj, s, fuel, more);
      if Eval(g, p1, subj, s, fuel).No? {
        EvalMonotone(g, p2, subj, s, fuel, more);
      }
    case TNot(q) => EvalMonotone(g, q, subj, s, fuel, more);
    case TAnd(q) => EvalMonotone(g, q, subj, s, fuel, more);
    case TCall(n) =>
      if n < |g| {
        EvalMonotone(g, g[n], subj, s, fuel - 1, more - 1);
      }
    case TGrammar(rules) =>
      if rules != [] {
        EvalMonotone(rules, rules[0], subj, s, fuel - 1, more - 1);
      }
    case TBehind(n, q) =>
      if n <= s {
        EvalMonotone(g, q, subj, s - n, fuel, more);
      }
    case TCapture(_, _, q) => EvalMonotone(g, q, subj, s, fuel, more);
    case _ =>
  }
}

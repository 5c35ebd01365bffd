/** The instructions of lpvm.h and the machine of lpvm.c, one instruction at a time. */
module LpegVm {
  import opened LpegTree

  datatype Opcode =
    | IAny | IChar | ISet | ITestAny | ITestChar | ITestSet | ISpan | IBehind | IRet | IEnd
    | IChoice | IJmp | ICall | IOpenCall | ICommit | IPartialCommit | IBackCommit
    | IFailTwice | IFail | IFullCapture | IOpenCapture | ICloseCapture

  /** One element of the code array.  A charset takes eight elements, a `Buff` and seven `Pad`s;
      `Open(n)` is the offset of a call to rule `n` that is still to be set. */
  datatype Slot = Inst(op: Opcode, aux: int, key: int) | Offset(off: int) | Open(rule: nat) | Buff(cs: Charset) | Pad

  type Code = seq<Slot>

  const CHARSETINSTSIZE := 9

  const MAXBEHIND := 255

  const MAXOFF := 15

  function Kind(aux: int): nat { aux % 16 }

  function Off(aux: int): nat { aux / 16 % 16 }

  /** An entry of the capture list; `siz` is 0 for an open capture and one more than the length
      of a full capture.  A closing entry has kind `CCLOSE`. */
  datatype CapEntry = CapEntry(pos: nat, idx: int, kind: nat, siz: nat)

  const CCLOSE := 0

  const UCHAR_MAX := 255

  datatype Frame = Choice(s: nat, pc: int, lvl: nat) | Return(pc: int)

  /** `Stuck` is the machine doing what the C code asserts or takes for granted that it never does. */
  datatype Config = Run(pc: int, s: nat, caps: seq<CapEntry>, stk: seq<Frame>) | Matched(pos: nat,
      list: seq<CapEntry>) | GaveUp | Stuck

  /** A failure: drop pending calls, then go back to the last choice. */
  function Pop(stk: seq<Frame>, caps: seq<CapEntry>): Config {
    if stk == [] then GaveUp else
    var top, rest := stk[|stk| - 1], stk[..|stk| - 1];
    match top
    case Return(_) => Pop(rest, caps)
    case Choice(s, pc, lvl) => if lvl <= |caps| then Run(pc, s, caps[..lvl], rest) else Stuck
  }

  function Target(code: Code, pc: int): int {
    if 0 <= pc && pc + 1 < |code| && code[pc + 1].Offset? then pc + code[pc + 1].off else -1
  }

  function BuffAt(code: Code, i: int): Charset {
    if 0 <= i < |code| && code[i].Buff? then code[i].cs else {}
  }

  function SpanEnd(subj: Subject, s: nat, cs: Charset): (t: nat)
    requires s <= |subj|
    ensures s <= t <= |subj|
    ensures !InSet(subj, t, cs)
    ensures forall k :: s <= k < t ==> subj[k] in cs
    decreases |subj| - s
  {
    if InSet(subj, s, cs) then SpanEnd(subj, s + 1, cs) else s
  }

  function Push(c: Config, e: CapEntry): Config
    requires c.Run?
  {
    Run(c.pc + 1, c.s, c.caps + [e], c.stk)
  }

  predicate CanClose(caps: seq<CapEntry>, s: nat) {
    caps != [] && (caps[|caps| - 1].siz == 0 ==> caps[|caps| - 1].pos <= s)
  }

  /** Closes the innermost capture: as a full entry if nothing was captured inside and it is short. */
  function CloseCapture(caps: seq<CapEntry>, s: nat, idx: int, kind: nat): seq<CapEntry>
    requires CanClose(caps, s)
  {
    var last := |caps| - 1;
    if caps[last].siz == 0 && s - caps[last].pos < UCHAR_MAX then
      caps[last := caps[last].(siz := s - caps[last].pos + 1)]
    else
      caps + [CapEntry(s, idx, kind, 1)]
  }

  function Exec(code: Code, subj: Subject, i: Slot, c: Config): Config
    requires c.Run? && c.s <= |subj| && i.Inst?
  {
    var Run(pc, s, caps, stk) := c;
    match i.op
    case IEnd => if stk == [] then Matched(s, caps) else Stuck
    case IRet =>
      if stk != [] && stk[|stk| - 1].Return? then Run(stk[|stk| - 1].pc, s, caps, stk[..|stk| - 1]) else Stuck
    case IAny => if s < |subj| then Run(pc + 1, s + 1, caps, stk) else Pop(stk, caps)
    case ITestAny => if s < |subj| then Run(pc + 2, s, caps, stk) else Run(Target(code, pc), s, caps, stk)
    case IChar => if s < |subj| && subj[s] == i.aux then Run(pc + 1, s + 1, caps, stk) else Pop(stk, caps)
    case ITestChar =>
      if s < |subj| && subj[s] == i.aux then Run(pc + 2, s, caps, stk) else Run(Target(code, pc), s, caps, stk)
    case ISet =>
      if InSet(subj, s, BuffAt(code, pc + 1)) then Run(pc + CHARSETINSTSIZE, s + 1, caps, stk) else Pop(stk, caps)
    case ITestSet =>
      if InSet(subj, s, BuffAt(code, pc + 2)) then Run(pc + 1 + CHARSETINSTSIZE, s, caps, stk)
      else Run(Target(code, pc), s, caps, stk)
    case IBehind => if 0 <= i.aux <= s then Run(pc + 1, s - i.aux, caps, stk) else Pop(stk, caps)
    case ISpan => Run(pc + CHARSETINSTSIZE, SpanEnd(subj, s, BuffAt(code, pc + 1)), caps, stk)
    case IJmp => Run(Target(code, pc), s, caps, stk)
    case IChoice => Run(pc + 2, s, caps, stk + [Choice(s, Target(code, pc), |caps|)])
    case ICall => Run(Target(code, pc), s, caps, stk + [Return(pc + 2)])
    case IOpenCall => Stuck
    case ICommit =>
      if stk != [] && stk[|stk| - 1].Choice? then Run(Target(code, pc), s, caps, stk[..|stk| - 1]) else Stuck
    case IPartialCommit =>
      if stk != [] && stk[|stk| - 1].Choice?
      then Run(Target(code, pc), s, caps, stk[..|stk| - 1] + [Choice(s, stk[|stk| - 1].pc, |caps|)])
      else Stuck
    case IBackCommit =>
      if stk != [] && stk[|stk| - 1].Choice? && stk[|stk| - 1].lvl <= |caps|
      then Run(Target(code, pc), stk[|stk| - 1].s, caps[..stk[|stk| - 1].lvl], stk[..|stk| - 1])
      else Stuck
    case IFailTwice => if stk != [] && stk[|stk| - 1].Choice? then Pop(stk[..|stk| - 1], caps) else Stuck
    case IFail => Pop(stk, caps)
    case IFullCapture =>
      if Off(i.aux) <= s then Push(c, CapEntry(s - Off(i.aux), i.key, Kind(i.aux), Off(i.aux) + 1)) else Stuck
    case IOpenCapture => Push(c, CapEntry(s, i.key, Kind(i.aux), 0))
    case ICloseCapture =>
      if CanClose(caps, s) then Run(pc + 1, s, CloseCapture(caps, s, i.key, Kind(i.aux)), stk) else Stuck
  }

  /** One turn of the interpreter's loop. */
  function Step(code: Code, subj: Subject, c: Config): Config {
    if !c.Run? then c
    else if 0 <= c.pc < |code| && c.s <= |subj| && code[c.pc].Inst? then Exec(code, subj, code[c.pc], c)
    else Stuck
  }

  function Steps(code: Code, subj: Subject, c: Config, n: nat): Config
    decreases n
  {
    if n == 0 then c else Steps(code, subj, Step(code, subj, c), n - 1)
  }

  ghost predicate Reaches(code: Code, subj: Subject, c: Config, e: Config) {
    exists n: nat :: Steps(code, subj, c, n) == e
  }

  lemma {:induction false} StepsAdd(code: Code, subj: Subject, c: Config, m: nat, n: nat)
    ensures Steps(code, subj, c, m + n) == Steps(code, subj, Steps(code, subj, c, m), n)
    decreases m
  {
    if m > 0 { StepsAdd(code, subj, Step(code, subj, c), m - 1, n); }
  }

  /** A machine that has halted stays as it is. */
  lemma {:induction false} StepsStay(code: Code, subj: Subject, c: Config, n: nat)
    requires !c.Run?
    ensures Steps(code, subj, c, n) == c
    decreases n
  {
    if n > 0 { StepsStay(code, subj, c, n - 1); }
  }

  lemma ReachesStep(code: Code, subj: Subject, c: Config)
    ensures Reaches(code, subj, c, Step(code, subj, c))
  {
    assert Steps(code, subj, c, 1) == Steps(code, subj, Step(code, subj, c), 0);
  }

  lemma ReachesRefl(code: Code, subj: Subject, c: Config)
    ensures Reaches(code, subj, c, c)
  {
    assert Steps(code, subj, c, 0) == c;
  }

  lemma ReachesTrans(code: Code, subj: Subject, c1: Config, c2: Config, c3: Config)
    requires Reaches(code, subj, c1, c2) && Reaches(code, subj, c2, c3)
    ensures Reaches(code, subj, c1, c3)
  {
    var m: nat :| Steps(code, subj, c1, m) == c2;
    var n: nat :| Steps(code, subj, c2, n) == c3;
    StepsAdd(code, subj, c1, m, n);
  }
}

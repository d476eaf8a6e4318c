/** The matching machine of skynet/3rd/lpeg/lpvm.c: its instructions, laid out in slots as
    in the source (an offset takes one slot, a character set eight), one step of its
    interpreter loop, and the loop itself. */
module LpegMachine {
  import opened LpegSyntax

  datatype Opcode =
    | IAny | IChar | ISet | ITestAny | ITestChar | ITestSet | ISpan | IBehind | IRet | IEnd
    | IChoice | IJmp | ICall | IOpenCall | ICommit | IPartialCommit | IBackCommit
    | IFailTwice | IFail

  /** One slot of code. Room is a slot reserved for an offset that is set later; Buff(cs, j)
      holds the four bytes 4j..4j+3 of the bitmap of cs. */
  datatype Slot =
    | Inst(op: Opcode, aux: nat, key: nat)
    | Offset(off: int)
    | Room
    | Buff(cs: Charset, part: nat)

  type Code = seq<Slot>

  const BUFFSLOTS: nat := 8
  /** instsize(CHARSETSIZE) */
  const CHARSETINSTSIZE: nat := 9
  /** The address of the giveup instruction, which lies outside every pattern's code. */
  const GIVEUP: int := -1

  function BuffOf(cs: Charset): (b: Code)
    ensures |b| == BUFFSLOTS && b[0] == Buff(cs, 0)
  {
    seq(BUFFSLOTS, (j: nat) => Buff(cs, j))
  }

  /** sizei */
  function SizeI(op: Opcode): (n: nat)
    ensures n >= 1
  {
    match op
    case ISet => CHARSETINSTSIZE
    case ISpan => CHARSETINSTSIZE
    case ITestSet => CHARSETINSTSIZE + 1
    case ITestChar => 2
    case ITestAny => 2
    case IChoice => 2
    case IJmp => 2
    case ICall => 2
    case IOpenCall => 2
    case ICommit => 2
    case IPartialCommit => 2
    case IBackCommit => 2
    case _ => 1
  }

  predicate HasLabel(op: Opcode) {
    op in {ITestChar, ITestAny, ITestSet, IChoice, IJmp, ICall, ICommit, IPartialCommit, IBackCommit}
  }

  /** An entry of the backtrack stack: a saved position with its alternative, or a return
      address (the source marks the latter by a null position). */
  datatype Entry = Alt(s: nat, p: int) | Return(p: int)
  datatype Stack = Empty | Push(top: Entry, rest: Stack)

  datatype State =
    | Run(p: int, s: nat, stack: Stack)
    | Matched(s: nat)
    | NoMatch
    | Stuck

  predicate Halted(st: State) { !st.Run? }

  /** Whether slot p starts an instruction whose operands are in place. */
  predicate Readable(code: Code, p: int) {
    && 0 <= p < |code| && code[p].Inst?
    && (HasLabel(code[p].op) ==> p + 1 < |code| && code[p + 1].Offset?)
    && (code[p].op in {ISet, ISpan} ==> p + 1 < |code| && code[p + 1].Buff?)
    && (code[p].op == ITestSet ==> p + 2 < |code| && code[p + 2].Buff?)
  }

  /** target(code, i) */
  function Target(code: Code, p: int): int
    requires 0 <= p && p + 1 < |code| && code[p + 1].Offset?
  {
    p + code[p + 1].off
  }

  /** The end of the run of characters of cs that starts at position i. */
  function SpanEnd(cs: Charset, s: Subject, i: nat): (j: nat)
    requires i <= |s|
    ensures i <= j <= |s|
    ensures forall k :: i <= k < j ==> s[k] in cs
    ensures j < |s| ==> s[j] !in cs
    decreases |s| - i
  {
    if i < |s| && s[i] in cs then SpanEnd(cs, s, i + 1) else i
  }

  /** The state after a failure: pending calls are dropped and the latest alternative taken. */
  function FailTo(stack: Stack): State {
    match stack
    case Empty => Stuck
    case Push(Return(_), rest) => FailTo(rest)
    case Push(Alt(s, p), rest) => Run(p, s, rest)
  }

  predicate Here(s: Subject, i: nat, cs: Charset) { i < |s| && s[i] in cs }

  /** One round of the interpreter loop of match. */
  function Step(code: Code, s: Subject, st: State): State
    requires st.Run?
  {
    var Run(p, i, stack) := st;
    if p == GIVEUP then NoMatch
    else if !Readable(code, p) || i > |s| then Stuck
    else
      var ins := code[p];
      match ins.op
      case IEnd => Matched(i)
      case IRet => if stack.Push? && stack.top.Return? then Run(stack.top.p, i, stack.rest) else Stuck
      case IAny => if i < |s| then Run(p + 1, i + 1, stack) else FailTo(stack)
      case ITestAny => if i < |s| then Run(p + 2, i, stack) else Run(Target(code, p), i, stack)
      case IChar => if i < |s| && s[i] == ins.aux then Run(p + 1, i + 1, stack) else FailTo(stack)
      case ITestChar =>
        if i < |s| && s[i] == ins.aux then Run(p + 2, i, stack) else Run(Target(code, p), i, stack)
      case ISet =>
        if Here(s, i, code[p + 1].cs) then Run(p + CHARSETINSTSIZE, i + 1, stack) else FailTo(stack)
      case ITestSet =>
        if Here(s, i, code[p + 2].cs) then Run(p + 1 + CHARSETINSTSIZE, i, stack)
        else Run(Target(code, p), i, stack)
      case IBehind => if ins.aux > i then FailTo(stack) else Run(p + 1, i - ins.aux, stack)
      case ISpan => Run(p + CHARSETINSTSIZE, SpanEnd(code[p + 1].cs, s, i), stack)
      case IJmp => Run(Target(code, p), i, stack)
      case IChoice => Run(p + 2, i, Push(Alt(i, Target(code, p)), stack))
      case ICall => Run(Target(code, p), i, Push(Return(p + 2), stack))
      case ICommit =>
        if stack.Push? && stack.top.Alt? then Run(Target(code, p), i, stack.rest) else Stuck
      case IPartialCommit =>
        if stack.Push? && stack.top.Alt?
        then Run(Target(code, p), i, Push(Alt(i, stack.top.p), stack.rest)) else Stuck
      case IBackCommit =>
        if stack.Push? && stack.top.Alt? then Run(Target(code, p), stack.top.s, stack.rest) else Stuck
      case IFailTwice => if stack.Push? then FailTo(stack.rest) else Stuck
      case IFail => FailTo(stack)
      case IOpenCall => Stuck
  }

  /** The state after n rounds. */
  function RunN(code: Code, s: Subject, st: State, n: nat): State
    decreases n
  {
    if n == 0 || Halted(st) then st else RunN(code, s, Step(code, s, st), n - 1)
  }

  predicate Decided(r: State) { r.Matched? || r.NoMatch? }

  /** From state st the machine halts with r. */
  ghost predicate Yields(code: Code, s: Subject, st: State, r: State) {
    Decided(r) && exists n: nat :: RunN(code, s, st, n) == r
  }

  /** The initial state of match at position i. */
  function Start(i: nat): State { Run(0, i, Push(Alt(i, GIVEUP), Empty)) }

  // ----- running forward and backward -----

  lemma YieldsBack(code: Code, s: Subject, st: State, r: State)
    requires st.Run? && Yields(code, s, Step(code, s, st), r)
    ensures Yields(code, s, st, r)
  {
    var n: nat :| RunN(code, s, Step(code, s, st), n) == r;
    assert RunN(code, s, st, n + 1) == r;
  }

  lemma YieldsForth(code: Code, s: Subject, st: State, r: State)
    requires st.Run? && Yields(code, s, st, r)
    ensures Yields(code, s, Step(code, s, st), r)
  {
    var n: nat :| RunN(code, s, st, n) == r;
    assert RunN(code, s, Step(code, s, st), n - 1) == r;
  }

  /** The machine is deterministic: it has at most one result. */
  lemma {:induction false} YieldsUnique(code: Code, s: Subject, st: State, r: State, r': State)
    requires Yields(code, s, st, r) && Yields(code, s, st, r')
    ensures r == r'
  {
    var n: nat :| RunN(code, s, st, n) == r;
    var m: nat :| RunN(code, s, st, m) == r';
    SameResult(code, s, st, n, m);
  }

  lemma {:induction false} SameResult(code: Code, s: Subject, st: State, n: nat, m: nat)
    requires Halted(RunN(code, s, st, n)) && Halted(RunN(code, s, st, m))
    ensures RunN(code, s, st, n) == RunN(code, s, st, m)
    decreases n
  {
    if n > 0 && m > 0 && !Halted(st) {
      SameResult(code, s, Step(code, s, st), n - 1, m - 1);
    }
  }

  /** The interpreter loop of match, from position i. The ghost n is a number of rounds after
      which the machine has halted: that there is one is proved of all compiled patterns. */
  method Match(code: Code, s: Subject, i: nat, ghost n: nat) returns (r: State)
    requires i <= |s|
    requires Decided(RunN(code, s, Start(i), n))
    ensures Yields(code, s, Start(i), r)
  {
    var p: int, j: nat := 0, i;
    var stack := Push(Alt(i, GIVEUP), Empty);
    ghost var k := n;
    while true
      invariant RunN(code, s, Run(p, j, stack), k) == RunN(code, s, Start(i), n)
      decreases k
    {
      ghost var before := Run(p, j, stack);
      ghost var after := Step(code, s, before);
      var fail := false;
      if p == GIVEUP { return NoMatch; }
      assert Readable(code, p) && j <= |s|;
      var ins := code[p];
      match ins.op {
        case IEnd => return Matched(j);
        case IRet => p, stack := stack.top.p, stack.rest;
        case IAny => if j < |s| { p, j := p + 1, j + 1; } else { fail := true; }
        case ITestAny => if j < |s| { p := p + 2; } else { p := Target(code, p); }
        case IChar => if j < |s| && s[j] == ins.aux { p, j := p + 1, j + 1; } else { fail := true; }
        case ITestChar => if j < |s| && s[j] == ins.aux { p := p + 2; } else { p := Target(code, p); }
        case ISet =>
          if Here(s, j, code[p + 1].cs) { p, j := p + CHARSETINSTSIZE, j + 1; } else { fail := true; }
        case ITestSet =>
          if Here(s, j, code[p + 2].cs) { p := p + 1 + CHARSETINSTSIZE; } else { p := Target(code, p); }
        case IBehind => if ins.aux > j { fail := true; } else { p, j := p + 1, j - ins.aux; }
        case ISpan =>
          ghost var from := j;
          while j < |s| && s[j] in code[p + 1].cs
            invariant j <= |s| && SpanEnd(code[p + 1].cs, s, j) == SpanEnd(code[p + 1].cs, s, from)
          {
            j := j + 1;
          }
          p := p + CHARSETINSTSIZE;
        case IJmp => p := Target(code, p);
        case IChoice => stack, p := Push(Alt(j, Target(code, p)), stack), p + 2;
        case ICall => stack, p := Push(Return(p + 2), stack), Target(code, p);
        case ICommit => stack, p := stack.rest, Target(code, p);
        case IPartialCommit => stack, p := Push(Alt(j, stack.top.p), stack.rest), Target(code, p);
        case IBackCommit => j, stack, p := stack.top.s, stack.rest, Target(code, p);
        case IFailTwice => stack := stack.rest; fail := true;
        case IFail => fail := true;
        case IOpenCall =>
      }
      if fail {
        ghost var failed := stack;
        while stack.top.Return?
          invariant FailTo(stack) == FailTo(failed) && FailTo(stack) != Stuck
          decreases stack
        {
          stack := stack.rest;
        }
        j, p, stack := stack.top.s, stack.top.p, stack.rest;
      }
      assert after == Run(p, j, stack);
      k := k - 1;
    }
  }
}

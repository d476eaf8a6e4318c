/** The generated code matches exactly what the pattern means. The statement is relative to
    what follows the code: a result r of the machine after the code is a result before it. */
module LpegCorrect {
  import opened LpegSyntax
  import opened LpegAnalysis
  import opened LpegMachine
  import opened LpegCodegen
  import opened LpegLayout

  // ----- what surrounds the code -----

  /** The fixed surroundings of a piece of code: the whole code, the subject, the rules and
      their positions, and the final result. */
  datatype Context = Context(d: nat, code: Code, s: Subject, g: Rules, positions: seq<int>, r: State) {
    ghost predicate At(pc: int, seg: Code) { CodeAt(code, pc, seg, positions) }
    ghost predicate Ends(st: State) { Yields(code, s, st, r) }
  }

  /** The code is the last thing in an optional pattern: the alternative on top of the stack
      leads where the commit after the code leads. */
  ghost predicate InOptional(code: Code, end: int, stack: Stack) {
    && stack.Push? && stack.top.Alt? && 0 <= end && end + 1 < |code|
    && code[end] == Inst(ICommit, 0, 0) && code[end + 1] == Offset(stack.top.p - end)
  }

  /** What follows the code ends in r, given the outcome of the pattern. A continuation may
      count on being tried only on characters of the follow set. */
  ghost predicate Continues(x: Context, out: Outcome, end: int, stack: Stack, opt: bool, fl: Charset) {
    match out
    case NoFuel => false
    case Fail => x.Ends(FailTo(stack))
    case Ok(j) =>
      if opt then
        fl == FULLSET && InOptional(x.code, end, stack) && x.Ends(Run(stack.top.p, j, stack.rest))
      else
        x.Ends(Run(end, j, stack)) && (j < |x.s| && x.s[j] !in fl ==> x.Ends(FailTo(stack)))
  }

  /** The test in force holds of the position. */
  predicate TestHolds(tt: Test, s: Subject, i: nat) {
    match tt
    case NoTest => true
    case OnChar(c) => i < |s| && s[i] == c
    case OnSet(cs) => i < |s| && s[i] in cs
  }

  /** After a success, running on from the end of the code ends in r. */
  lemma AtEnd(x: Context, j: nat, end: int, stack: Stack, opt: bool, fl: Charset)
    requires Continues(x, Ok(j), end, stack, opt, fl) && j <= |x.s|
    ensures x.Ends(Run(end, j, stack))
  {
    if opt {
      Back(x, Run(end, j, stack));
    }
  }

  /** A result after one step is a result before it. */
  lemma Back(x: Context, st: State)
    requires st.Run? && x.Ends(Step(x.code, x.s, st))
    ensures x.Ends(st)
  {
    YieldsBack(x.code, x.s, st, x.r);
  }

  // ----- one level of the meaning of a composed pattern -----

  lemma UnfoldRep(g: Rules, p: Tree, s: Subject, i: nat, f: nat)
    requires i <= |s|
    ensures Eval(g, Rep(p), s, i, f) ==
            match Eval(g, p, s, i, f)
            case Fail => Ok(i)
            case NoFuel => NoFuel
            case Ok(j) => if f == 0 then NoFuel else Eval(g, Rep(p), s, j, f - 1)
  {
  }

  lemma UnfoldSeq(g: Rules, p1: Tree, p2: Tree, s: Subject, i: nat, f: nat)
    requires i <= |s|
    ensures Eval(g, Seq(p1, p2), s, i, f) ==
            match Eval(g, p1, s, i, f) case Ok(j) => Eval(g, p2, s, j, f) case r => r
  {
  }

  lemma UnfoldChoice(g: Rules, p1: Tree, p2: Tree, s: Subject, i: nat, f: nat)
    requires i <= |s|
    ensures Eval(g, Choice(p1, p2), s, i, f) ==
            match Eval(g, p1, s, i, f) case Fail => Eval(g, p2, s, i, f) case r => r
    ensures p2.True? ==> Eval(g, p2, s, i, f) == Ok(i)
  {
  }

  lemma UnfoldNot(g: Rules, p: Tree, s: Subject, i: nat, f: nat)
    requires i <= |s|
    ensures Eval(g, Not(p), s, i, f) ==
            match Eval(g, p, s, i, f) case Fail => Ok(i) case Ok(_) => Fail case NoFuel => NoFuel
  {
  }

  lemma UnfoldAnd(g: Rules, p: Tree, s: Subject, i: nat, f: nat)
    requires i <= |s|
    ensures Eval(g, And(p), s, i, f) == match Eval(g, p, s, i, f) case Ok(_) => Ok(i) case r => r
  {
  }

  lemma UnfoldBehind(g: Rules, n: nat, p: Tree, s: Subject, i: nat, f: nat)
    requires i <= |s|
    ensures Eval(g, Behind(n, p), s, i, f) ==
            if n > i then Fail else match Eval(g, p, s, i - n, f) case Ok(_) => Ok(i) case r => r
  {
  }

  lemma UnfoldCall(g: Rules, k: nat, s: Subject, i: nat, f: nat)
    requires i <= |s| && k < |g|
    ensures Eval(g, Call(k), s, i, f) == if f == 0 then NoFuel else Eval(g, g[k], s, i, f - 1)
  {
  }

  lemma UnfoldGrammar(g: Rules, rs: Rules, s: Subject, i: nat, f: nat)
    requires i <= |s| && rs != []
    ensures Eval(g, Grammar(rs), s, i, f) == Eval(rs, rs[0], s, i, f)
  {
  }

  // ----- single instructions -----

  lemma CharCorrect(x: Context, pc: int, t: Tree, tt: Test, i: nat, stack: Stack)
    requires IsCharPattern(t) && i <= |x.s| && TestHolds(tt, x.s, i)
    requires x.At(pc, Gen(x.d, x.g, t, false, tt, FULLSET))
    requires match EvalChar(t, x.s, i)
             case Ok(j) => x.Ends(Run(pc + |Gen(x.d, x.g, t, false, tt, FULLSET)|, j, stack))
             case _ => x.Ends(FailTo(stack))
    ensures x.Ends(Run(pc, i, stack))
  {
    hide CodeAt, Yields, Step, FailTo, CodeChar, CodeCharset;
    match t
    case Char(c) => OneCharCorrect(x, pc, CodeChar(c, tt), c, tt, i, stack);
    case Any => AnyCorrect(x, pc, i, stack);
    case Set(cs) => SetCorrect(x, pc, cs, tt, i, stack);
  }

  lemma OneCharCorrect(x: Context, pc: int, seg: Code, c: Byte, tt: Test, i: nat, stack: Stack)
    requires i <= |x.s| && TestHolds(tt, x.s, i) && seg == CodeChar(c, tt) && x.At(pc, seg)
    requires if i < |x.s| && x.s[i] == c then x.Ends(Run(pc + |seg|, i + 1, stack)) else x.Ends(FailTo(stack))
    ensures x.Ends(Run(pc, i, stack))
  {
    assert SlotAt(x.code, pc, seg[0], x.positions);
    hide CodeAt, Yields, FailTo;
    Back(x, Run(pc, i, stack));
  }

  lemma AnyCorrect(x: Context, pc: int, i: nat, stack: Stack)
    requires i <= |x.s| && x.At(pc, Plain(IAny, 0))
    requires if i < |x.s| then x.Ends(Run(pc + 1, i + 1, stack)) else x.Ends(FailTo(stack))
    ensures x.Ends(Run(pc, i, stack))
  {
    hide CodeAt, Yields, FailTo;
    PlainAt(x, pc, IAny, 0);
    Back(x, Run(pc, i, stack));
  }

  lemma SetCorrect(x: Context, pc: int, cs: Charset, tt: Test, i: nat, stack: Stack)
    requires i <= |x.s| && TestHolds(tt, x.s, i) && x.At(pc, CodeCharset(cs, tt))
    requires if Here(x.s, i, cs) then x.Ends(Run(pc + |CodeCharset(cs, tt)|, i + 1, stack)) else x.Ends(FailTo(stack))
    ensures x.Ends(Run(pc, i, stack))
  {
    hide Yields, FailTo;
    match KindOf(cs)
    case NoChar =>
      hide CodeAt, Step;
      FailStep(x, pc, i, stack);
    case AllChars =>
      hide CodeAt, Step;
      AnyCorrect(x, pc, i, stack);
    case OneChar(c) =>
      hide CodeAt, Step;
      OneCharCorrect(x, pc, CodeChar(c, tt), c, tt, i, stack);
    case SomeChars =>
      var seg := CodeCharset(cs, tt);
      assert SlotAt(x.code, pc, seg[0], x.positions);
      if |seg| > 1 { assert SlotAt(x.code, pc + 1, seg[1], x.positions); }
      hide CodeAt;
      Back(x, Run(pc, i, stack));
  }

  /** A test goes on to the next instruction when the next character is in the set, and
      jumps otherwise. */
  lemma TestCorrect(x: Context, pc: int, cs: Charset, off: int, i: nat, stack: Stack)
    requires i <= |x.s| && x.At(pc, CodeTest(cs, false, off))
    requires x.Ends(Run(if Here(x.s, i, cs) then pc + TestSize(cs, false) else pc + off, i, stack))
    ensures x.Ends(Run(pc, i, stack))
  {
    var seg := CodeTest(cs, false, off);
    assert SlotAt(x.code, pc, seg[0], x.positions);
    assert SlotAt(x.code, pc + 1, seg[1], x.positions);
    if |seg| > 2 {
      assert SlotAt(x.code, pc + 2, seg[2], x.positions);
    }
    Back(x, Run(pc, i, stack));
  }

  lemma TestForHolds(f: First, s: Subject, i: nat)
    requires f.empty || Here(s, i, f.cs)
    ensures TestHolds(TestFor(f.cs, f.empty), s, i)
  {
  }

  /** A jump-like instruction with offset off lies at pc. */
  lemma JumpAt(x: Context, pc: int, op: Opcode, off: int)
    requires op != IOpenCall && x.At(pc, Jump(op, off))
    ensures 0 <= pc && pc + 1 < |x.code| && x.code[pc] == Inst(op, 0, 0) && x.code[pc + 1] == Offset(off)
  {
    assert SlotAt(x.code, pc, Jump(op, off)[0], x.positions);
    assert SlotAt(x.code, pc + 1, Jump(op, off)[1], x.positions);
  }

  lemma PlainAt(x: Context, pc: int, op: Opcode, aux: nat)
    requires op != IOpenCall && x.At(pc, Plain(op, aux))
    ensures 0 <= pc < |x.code| && x.code[pc] == Inst(op, aux, 0)
  {
    assert SlotAt(x.code, pc, Plain(op, aux)[0], x.positions);
  }

  // ----- single steps, backwards -----

  lemma JmpStep(x: Context, pc: int, off: int, i: nat, stack: Stack)
    requires i <= |x.s| && x.At(pc, Jump(IJmp, off)) && x.Ends(Run(pc + off, i, stack))
    ensures x.Ends(Run(pc, i, stack))
  {
    hide CodeAt, Yields;
    JumpAt(x, pc, IJmp, off);
    Back(x, Run(pc, i, stack));
  }

  lemma ChoiceStep(x: Context, pc: int, off: int, i: nat, stack: Stack)
    requires i <= |x.s| && x.At(pc, Jump(IChoice, off)) && x.Ends(Run(pc + 2, i, Push(Alt(i, pc + off), stack)))
    ensures x.Ends(Run(pc, i, stack))
  {
    hide CodeAt, Yields;
    JumpAt(x, pc, IChoice, off);
    Back(x, Run(pc, i, stack));
  }

  lemma CommitStep(x: Context, pc: int, off: int, i: nat, alt: Entry, stack: Stack)
    requires i <= |x.s| && alt.Alt? && x.At(pc, Jump(ICommit, off)) && x.Ends(Run(pc + off, i, stack))
    ensures x.Ends(Run(pc, i, Push(alt, stack)))
  {
    hide CodeAt, Yields;
    JumpAt(x, pc, ICommit, off);
    Back(x, Run(pc, i, Push(alt, stack)));
  }

  lemma PartialStep(x: Context, pc: int, off: int, i: nat, alt: Entry, stack: Stack)
    requires i <= |x.s| && alt.Alt? && x.At(pc, Jump(IPartialCommit, off))
    requires x.Ends(Run(pc + off, i, Push(Alt(i, alt.p), stack)))
    ensures x.Ends(Run(pc, i, Push(alt, stack)))
  {
    hide CodeAt, Yields;
    JumpAt(x, pc, IPartialCommit, off);
    Back(x, Run(pc, i, Push(alt, stack)));
  }

  lemma BackCommitStep(x: Context, pc: int, off: int, j: nat, alt: Entry, stack: Stack)
    requires j <= |x.s| && alt.Alt? && x.At(pc, Jump(IBackCommit, off)) && x.Ends(Run(pc + off, alt.s, stack))
    ensures x.Ends(Run(pc, j, Push(alt, stack)))
  {
    hide CodeAt, Yields;
    JumpAt(x, pc, IBackCommit, off);
    Back(x, Run(pc, j, Push(alt, stack)));
  }

  lemma FailStep(x: Context, pc: int, i: nat, stack: Stack)
    requires i <= |x.s| && x.At(pc, Plain(IFail, 0)) && x.Ends(FailTo(stack))
    ensures x.Ends(Run(pc, i, stack))
  {
    hide CodeAt, Yields, FailTo;
    PlainAt(x, pc, IFail, 0);
    Back(x, Run(pc, i, stack));
  }

  lemma FailTwiceStep(x: Context, pc: int, i: nat, alt: Entry, stack: Stack)
    requires i <= |x.s| && x.At(pc, Plain(IFailTwice, 0)) && x.Ends(FailTo(stack))
    ensures x.Ends(Run(pc, i, Push(alt, stack)))
  {
    hide CodeAt, Yields, FailTo;
    PlainAt(x, pc, IFailTwice, 0);
    Back(x, Run(pc, i, Push(alt, stack)));
  }

  lemma BehindStep(x: Context, pc: int, n: nat, i: nat, stack: Stack)
    requires i <= |x.s| && x.At(pc, Plain(IBehind, n))
    requires if n > i then x.Ends(FailTo(stack)) else x.Ends(Run(pc + 1, i - n, stack))
    ensures x.Ends(Run(pc, i, stack))
  {
    hide CodeAt, Yields, FailTo;
    PlainAt(x, pc, IBehind, n);
    Back(x, Run(pc, i, stack));
  }

  lemma CallStep(x: Context, pc: int, i: nat, stack: Stack, to: int)
    requires i <= |x.s| && 0 <= pc && pc + 1 < |x.code| && x.code[pc].Inst? && x.code[pc + 1] == Offset(to - pc)
    requires x.code[pc].op == ICall || x.code[pc].op == IJmp
    requires x.Ends(Run(to, i, if x.code[pc].op == IJmp then stack else Push(Return(pc + 2), stack)))
    ensures x.Ends(Run(pc, i, stack))
  {
    hide Yields;
    Back(x, Run(pc, i, stack));
  }

  lemma RetStep(x: Context, pc: int, i: nat, to: int, stack: Stack)
    requires i <= |x.s| && IsRet(x.code, pc) && x.Ends(Run(to, i, stack))
    ensures x.Ends(Run(pc, i, Push(Return(to), stack)))
  {
    hide Yields;
    Back(x, Run(pc, i, Push(Return(to), stack)));
  }

  /** A test before code: passed when the next character is in the set or nothing is tested. */
  lemma TestEntry(x: Context, pc: int, f: First, off: int, i: nat, stack: Stack)
    requires i <= |x.s| && x.At(pc, CodeTest(f.cs, f.empty, off))
    requires f.empty || Here(x.s, i, f.cs) ==> x.Ends(Run(pc + TestSize(f.cs, f.empty), i, stack))
    requires !f.empty && !Here(x.s, i, f.cs) ==> x.Ends(Run(pc + off, i, stack))
    ensures x.Ends(Run(pc, i, stack))
  {
    hide CodeAt, Yields, CodeTest;
    if !f.empty { TestCorrect(x, pc, f.cs, off, i, stack); }
  }

  // ----- the theorem, construct by construct -----

  /** Running the code of a pattern from position i leads to the same result as going on
      after it with what the pattern means. */
  lemma {:induction false} GenCorrect(
    x: Context, pc: int, t: Tree, opt: bool, tt: Test, fl: Charset, i: nat, stack: Stack, f: nat)
    requires i <= |x.s| && TestHolds(tt, x.s, i)
    requires WellMade(x.d, x.g, t) && RulesAt(x.d, x.code, x.g, x.positions)
    requires x.At(pc, Gen(x.d, x.g, t, opt, tt, fl))
    requires Continues(x, Eval(x.g, t, x.s, i, f), pc + |Gen(x.d, x.g, t, opt, tt, fl)|, stack, opt, fl)
    ensures x.Ends(Run(pc, i, stack))
    decreases f, t, 2
  {
    hide CodeAt, Yields, RulesAt, GetFirst, CheckAux, FixedLen, HeadFail, CodeTest, TestFor;
    hide CodeChoice, CodeRep, CodeNot, CodeAnd, Step;
    var seg := Gen(x.d, x.g, t, opt, tt, fl);
    var end := pc + |seg|;
    var out := Eval(x.g, t, x.s, i, f);
    match t
    case Char(_) =>
      if out.Ok? { AtEnd(x, out.pos, end, stack, opt, fl); }
      CharCorrect(x, pc, t, tt, i, stack);
    case Set(_) =>
      if out.Ok? { AtEnd(x, out.pos, end, stack, opt, fl); }
      CharCorrect(x, pc, t, tt, i, stack);
    case Any =>
      if out.Ok? { AtEnd(x, out.pos, end, stack, opt, fl); }
      CharCorrect(x, pc, t, tt, i, stack);
    case True => AtEnd(x, i, end, stack, opt, fl);
    case False =>
      FailStep(x, pc, i, stack);
    case Seq(_, _) => SeqCorrect(x, pc, t, opt, tt, fl, i, stack, f);
    case Choice(_, _) => ChoiceCorrect(x, pc, t, opt, fl, i, stack, f);
    case Rep(_) => RepCorrect(x, pc, t, opt, fl, i, stack, f);
    case Not(_) =>
      if out.Ok? { AtEnd(x, out.pos, end, stack, opt, fl); }
      NotCorrect(x, pc, t, i, stack, f);
    case And(_) =>
      if out.Ok? { AtEnd(x, out.pos, end, stack, opt, fl); }
      AndCorrect(x, pc, t, tt, i, stack, f);
    case Behind(n, p) =>
      if out.Ok? { AtEnd(x, out.pos, end, stack, opt, fl); }
      BehindCorrect(x, pc, t, i, stack, f);
    case Call(k) =>
      if out.Ok? { AtEnd(x, out.pos, end, stack, opt, fl); }
      CallCorrect(x, pc, k, i, stack, f);
    case Grammar(rs) =>
      if out.Ok? { AtEnd(x, out.pos, end, stack, opt, fl); }
      GrammarCorrect(x, pc, t, i, stack, f);
  }

  lemma PartsMade(d: nat, g: Rules, t: Tree)
    requires WellMade(d, g, t)
    ensures t.Seq? || t.Choice? ==> WellMade(d, g, t.p1) && WellMade(d, g, t.p2)
    ensures t.Rep? || t.Not? || t.And? ==> WellMade(d, g, t.body)
  {
  }

  lemma SeqCode(d: nat, g: Rules, p1: Tree, p2: Tree, opt: bool, tt: Test, fl: Charset)
    ensures Gen(d, g, Seq(p1, p2), opt, tt, fl) ==
            Gen(d, g, p1, false, tt, SeqFollow(d, g, p1, p2, fl)) + Gen(d, g, p2, opt, SeqTest(d, g, p1, tt), fl)
  {
  }

  lemma BehindCode(d: nat, g: Rules, n: nat, p: Tree)
    ensures Gen(d, g, Behind(n, p), false, NoTest, FULLSET) == StepBack(n) + Gen(d, g, p, false, NoTest, FULLSET)
  {
  }

  lemma GrammarCodeIs(d: nat, g: Rules, t: Tree)
    requires t.Grammar?
    ensures Gen(d, g, t, false, NoTest, FULLSET) == GrammarCode(Correct(GenRules(d, t, 0), RulePositions(d, t), 0))
  {
  }

  lemma {:induction false} SeqCorrect(
    x: Context, pc: int, t: Tree, opt: bool, tt: Test, fl: Charset, i: nat, stack: Stack, f: nat)
    requires i <= |x.s| && TestHolds(tt, x.s, i) && t.Seq?
    requires WellMade(x.d, x.g, t) && RulesAt(x.d, x.code, x.g, x.positions)
    requires x.At(pc, Gen(x.d, x.g, t, opt, tt, fl))
    requires Continues(x, Eval(x.g, t, x.s, i, f), pc + |Gen(x.d, x.g, t, opt, tt, fl)|, stack, opt, fl)
    ensures x.Ends(Run(pc, i, stack))
    decreases f, t, 1
  {
    hide Eval, Gen, CodeAt, Yields, RulesAt, SeqFollow, SeqTest, Continues, WellMade, Step, FailTo;
    var fl1 := SeqFollow(x.d, x.g, t.p1, t.p2, fl);
    var c1 := Gen(x.d, x.g, t.p1, false, tt, fl1);
    var c2 := Gen(x.d, x.g, t.p2, opt, SeqTest(x.d, x.g, t.p1, tt), fl);
    PartsMade(x.d, x.g, t);
    SeqCode(x.d, x.g, t.p1, t.p2, opt, tt, fl);
    CodeAtParts(x.code, pc, c1, c2, x.positions);
    SecondCorrect(x, pc + |c1|, t, opt, tt, fl, i, stack, f);
    GenCorrect(x, pc, t.p1, false, tt, fl1, i, stack, f);
  }

  /** After the first part of a sequence, its second part is a continuation that counts on
      being tried only on characters of its first set. */
  lemma {:induction false} SecondCorrect(
    x: Context, pc: int, t: Tree, opt: bool, tt: Test, fl: Charset, i: nat, stack: Stack, f: nat)
    requires i <= |x.s| && TestHolds(tt, x.s, i) && t.Seq?
    requires WellMade(x.d, x.g, t) && RulesAt(x.d, x.code, x.g, x.positions)
    requires x.At(pc, Gen(x.d, x.g, t.p2, opt, SeqTest(x.d, x.g, t.p1, tt), fl))
    requires Continues(x, Eval(x.g, t, x.s, i, f),
                       pc + |Gen(x.d, x.g, t.p2, opt, SeqTest(x.d, x.g, t.p1, tt), fl)|, stack, opt, fl)
    ensures Continues(x, Eval(x.g, t.p1, x.s, i, f), pc, stack, false, SeqFollow(x.d, x.g, t.p1, t.p2, fl))
    decreases f, t, 0
  {
    hide Eval, Gen, CodeAt, Yields, RulesAt, GetFirst, FixedLen, NeedFollow, FailTo, WellMade, Step;
    PartsMade(x.d, x.g, t);
    UnfoldSeq(x.g, t.p1, t.p2, x.s, i, f);
    var r1 := Eval(x.g, t.p1, x.s, i, f);
    if r1.Ok? {
      if FixedLen(x.g, t.p1, x.d) == 0 { FixedLenSound(x.g, t.p1, x.d, x.s, i, f); }
      GenCorrect(x, pc, t.p2, opt, SeqTest(x.d, x.g, t.p1, tt), fl, r1.pos, stack, f);
      FirstSound(x.g, t.p2, fl, x.d, x.s, r1.pos, f);
    }
  }

  lemma {:induction false} BehindCorrect(x: Context, pc: int, t: Tree, i: nat, stack: Stack, f: nat)
    requires i <= |x.s| && t.Behind? && FixedLen(x.g, t.body, x.d) == t.n
    requires WellMade(x.d, x.g, t.body) && RulesAt(x.d, x.code, x.g, x.positions)
    requires x.At(pc, Gen(x.d, x.g, t, false, NoTest, FULLSET))
    requires match Eval(x.g, t, x.s, i, f)
             case NoFuel => false
             case Fail => x.Ends(FailTo(stack))
             case Ok(j) => x.Ends(Run(pc + |Gen(x.d, x.g, t, false, NoTest, FULLSET)|, j, stack))
    ensures x.Ends(Run(pc, i, stack))
    decreases f, t, 1
  {
    hide Eval, Gen, CodeAt, Yields, RulesAt, FixedLen, WellMade, FailTo, Step, StepBack;
    UnfoldBehind(x.g, t.n, t.body, x.s, i, f);
    BehindCode(x.d, x.g, t.n, t.body);
    BehindBody(x, pc, t.n, t.body, i, stack, f);
  }

  lemma {:induction false} BehindBody(x: Context, pc: int, n: nat, p: Tree, i: nat, stack: Stack, f: nat)
    requires i <= |x.s| && FixedLen(x.g, p, x.d) == n
    requires WellMade(x.d, x.g, p) && RulesAt(x.d, x.code, x.g, x.positions)
    requires x.At(pc, StepBack(n) + Gen(x.d, x.g, p, false, NoTest, FULLSET))
    requires n > i || Eval(x.g, p, x.s, i - n, f) == Fail ==> x.Ends(FailTo(stack))
    requires n <= i ==> Eval(x.g, p, x.s, i - n, f) != NoFuel
    requires n <= i && Eval(x.g, p, x.s, i - n, f).Ok? ==>
               x.Ends(Run(pc + |StepBack(n) + Gen(x.d, x.g, p, false, NoTest, FULLSET)|, i, stack))
    ensures x.Ends(Run(pc, i, stack))
    decreases f, Behind(n, p), 0
  {
    hide Eval, Gen, CodeAt, Yields, RulesAt, FixedLen, WellMade, FailTo, Step, StepBack;
    var c := Gen(x.d, x.g, p, false, NoTest, FULLSET);
    CodeAtParts(x.code, pc, StepBack(n), c, x.positions);
    if n <= i {
      FixedLenSound(x.g, p, x.d, x.s, i - n, f);
      GenCorrect(x, pc + |StepBack(n)|, p, false, NoTest, FULLSET, i - n, stack, f);
    }
    StepBackCorrect(x, pc, n, i, stack);
  }

  lemma StepBackCorrect(x: Context, pc: int, n: nat, i: nat, stack: Stack)
    requires i <= |x.s| && x.At(pc, StepBack(n))
    requires if n > i then x.Ends(FailTo(stack)) else x.Ends(Run(pc + |StepBack(n)|, i - n, stack))
    ensures x.Ends(Run(pc, i, stack))
  {
    hide CodeAt, Yields, FailTo, Step;
    if n > 0 { BehindStep(x, pc, n, i, stack); }
  }

  lemma {:induction false} ChoiceCorrect(
    x: Context, pc: int, t: Tree, opt: bool, fl: Charset, i: nat, stack: Stack, f: nat)
    requires i <= |x.s| && t.Choice?
    requires WellMade(x.d, x.g, t) && RulesAt(x.d, x.code, x.g, x.positions)
    requires x.At(pc, CodeChoice(x.d, x.g, t, opt, fl))
    requires Continues(x, Eval(x.g, t, x.s, i, f), pc + |CodeChoice(x.d, x.g, t, opt, fl)|, stack, opt, fl)
    ensures x.Ends(Run(pc, i, stack))
    decreases f, t, 1
  {
    hide Eval, Gen, CodeAt, Yields, RulesAt, GetFirst, CheckAux, FixedLen, HeadFail, CodeTest, TestFor, Step;
    UnfoldChoice(x.g, t.p1, t.p2, x.s, i, f);
    var (p1, p2) := (t.p1, t.p2);
    var end := pc + |CodeChoice(x.d, x.g, t, opt, fl)|;
    var f1 := GetFirst(x.g, p1, FULLSET, x.d);
    var r1 := Eval(x.g, p1, x.s, i, f);
    FirstSound(x.g, p1, FULLSET, x.d, x.s, i, f);
    if r1.Ok? { AtEnd(x, r1.pos, end, stack, opt, fl); }
    if TestDecidesChoice(x.d, x.g, p1, p2, fl) {
      ChoiceByTest(x, pc, t, opt, fl, i, stack, f);
    } else if opt && p2.True? {
      var c1 := Gen(x.d, x.g, p1, true, NoTest, FULLSET);
      CodeAtParts(x.code, pc, Jump(IPartialCommit, 2), c1, x.positions);
      var stack' := Push(Alt(i, stack.top.p), stack.rest);
      GenCorrect(x, pc + 2, p1, true, NoTest, FULLSET, i, stack', f);
      PartialStep(x, pc, 2, i, stack.top, stack.rest);
    } else {
      FullChoiceCorrect(x, pc, t, opt, fl, i, stack, f);
    }
  }

  lemma FullChoiceIs(d: nat, g: Rules, t: Tree, opt: bool, fl: Charset)
    requires t.Choice? && !TestDecidesChoice(d, g, t.p1, t.p2, fl) && !(opt && t.p2.True?)
    ensures var f1 := GetFirst(g, t.p1, FULLSET, d);
      && CodeChoice(d, g, t, opt, fl) == FullChoice(f1, Gen(d, g, t.p1, t.p2.True?, TestFor(f1.cs, f1.empty), FULLSET),
                                                    Gen(d, g, t.p2, opt, NoTest, fl))
  {
    hide Gen, GetFirst, FullChoice, TestDecidesChoice, TestFor;
  }

  lemma DecidedChoice(d: nat, g: Rules, p1: Tree, p2: Tree, fl: Charset, s: Subject, i: nat)
    requires TestDecidesChoice(d, g, p1, p2, fl)
    ensures HeadFail(g, p1, d) ||
            (!GetFirst(g, p1, FULLSET, d).empty
             && (Here(s, i, GetFirst(g, p1, FULLSET, d).cs) ==> s[i] !in GetFirst(g, p2, fl, d).cs))
  {
    hide GetFirst, HeadFail;
  }

  lemma TestedChoiceIs(d: nat, g: Rules, t: Tree, opt: bool, fl: Charset)
    requires t.Choice? && TestDecidesChoice(d, g, t.p1, t.p2, fl)
    ensures var cs := GetFirst(g, t.p1, FULLSET, d).cs;
      && CodeChoice(d, g, t, opt, fl) == TestedChoice(cs, Gen(d, g, t.p1, false, TestFor(cs, false), fl), t.p2.True?,
                                                      Gen(d, g, t.p2, opt, NoTest, fl))
  {
    hide Gen, GetFirst, TestedChoice, TestDecidesChoice, TestFor;
  }

  lemma {:induction false} FullChoiceCorrect(
    x: Context, pc: int, t: Tree, opt: bool, fl: Charset, i: nat, stack: Stack, f: nat)
    requires i <= |x.s| && t.Choice?
    requires !TestDecidesChoice(x.d, x.g, t.p1, t.p2, fl) && !(opt && t.p2.True?)
    requires WellMade(x.d, x.g, t) && RulesAt(x.d, x.code, x.g, x.positions)
    requires x.At(pc, CodeChoice(x.d, x.g, t, opt, fl))
    requires Continues(x, Eval(x.g, t, x.s, i, f), pc + |CodeChoice(x.d, x.g, t, opt, fl)|, stack, opt, fl)
    ensures x.Ends(Run(pc, i, stack))
    decreases f, t, 0
  {
    hide Eval, Gen, CodeAt, Yields, RulesAt, GetFirst, CheckAux, FixedLen, HeadFail, CodeTest, TestFor, Step;
    hide TestDecidesChoice, CodeChoice, TestSize, WellMade;
    PartsMade(x.d, x.g, t);
    UnfoldChoice(x.g, t.p1, t.p2, x.s, i, f);
    FullChoiceIs(x.d, x.g, t, opt, fl);
    var (p1, p2) := (t.p1, t.p2);
    var end := pc + |CodeChoice(x.d, x.g, t, opt, fl)|;
    var f1 := GetFirst(x.g, p1, FULLSET, x.d);
    var r1 := Eval(x.g, p1, x.s, i, f);
    var tt1 := TestFor(f1.cs, f1.empty);
    var c1 := Gen(x.d, x.g, p1, p2.True?, tt1, FULLSET);
    var c2 := Gen(x.d, x.g, p2, opt, NoTest, fl);
    var n := TestSize(f1.cs, f1.empty);
    FullChoiceParts(x, pc, f1, c1, c2);
    FirstSound(x.g, p1, FULLSET, x.d, x.s, i, f);
    TrueIsEmpty(x.d, x.g, opt, fl);
    var l1 := pc + n + 2 + |c1| + 2;
    var stack' := Push(Alt(i, l1), stack);
    if r1 == Fail {
      GenCorrect(x, l1, p2, opt, NoTest, fl, i, stack, f);
    } else {
      AtEnd(x, r1.pos, end, stack, opt, fl);
      CommitStep(x, pc + n + 2 + |c1|, 2 + |c2|, r1.pos, Alt(i, l1), stack);
    }
    if f1.empty || Here(x.s, i, f1.cs) {
      TestForHolds(f1, x.s, i);
      GenCorrect(x, pc + n + 2, p1, p2.True?, tt1, FULLSET, i, stack', f);
      ChoiceStep(x, pc + n, 2 + |c1| + 2, i, stack);
    }
    TestEntry(x, pc, f1, n + 2 + |c1| + 2, i, stack);
  }

  lemma FullChoiceParts(x: Context, pc: int, f: First, c1: Code, c2: Code)
    requires x.At(pc, FullChoice(f, c1, c2))
    ensures var n := TestSize(f.cs, f.empty);
      && x.At(pc, CodeTest(f.cs, f.empty, n + 2 + |c1| + 2))
      && x.At(pc + n, Jump(IChoice, 2 + |c1| + 2))
      && x.At(pc + n + 2, c1)
      && x.At(pc + n + 2 + |c1|, Jump(ICommit, 2 + |c2|))
      && x.At(pc + n + 2 + |c1| + 2, c2)
      && Readable(x.code, pc + n) && x.code[pc + n] == Inst(IChoice, 0, 0)
      && x.code[pc + n + 1] == Offset(2 + |c1| + 2)
      && Readable(x.code, pc + n + 2 + |c1|) && x.code[pc + n + 2 + |c1|] == Inst(ICommit, 0, 0)
      && x.code[pc + n + 2 + |c1| + 1] == Offset(2 + |c2|)
  {
    hide CodeAt, CodeTest;
    var n := TestSize(f.cs, f.empty);
    var test := CodeTest(f.cs, f.empty, n + 2 + |c1| + 2);
    CodeAtParts(x.code, pc, test + Jump(IChoice, 2 + |c1| + 2) + c1 + Jump(ICommit, 2 + |c2|), c2, x.positions);
    CodeAtParts(x.code, pc, test + Jump(IChoice, 2 + |c1| + 2) + c1, Jump(ICommit, 2 + |c2|), x.positions);
    CodeAtParts(x.code, pc, test + Jump(IChoice, 2 + |c1| + 2), c1, x.positions);
    CodeAtParts(x.code, pc, test, Jump(IChoice, 2 + |c1| + 2), x.positions);
    JumpAt(x, pc + n, IChoice, 2 + |c1| + 2);
    JumpAt(x, pc + n + 2 + |c1|, ICommit, 2 + |c2|);
  }

  lemma TrueIsEmpty(d: nat, g: Rules, opt: bool, fl: Charset)
    ensures Gen(d, g, True, opt, NoTest, fl) == []
  {
  }

  lemma {:induction false} ChoiceByTest(
    x: Context, pc: int, t: Tree, opt: bool, fl: Charset, i: nat, stack: Stack, f: nat)
    requires i <= |x.s| && t.Choice? && TestDecidesChoice(x.d, x.g, t.p1, t.p2, fl)
    requires WellMade(x.d, x.g, t) && RulesAt(x.d, x.code, x.g, x.positions)
    requires x.At(pc, CodeChoice(x.d, x.g, t, opt, fl))
    requires Continues(x, Eval(x.g, t, x.s, i, f), pc + |CodeChoice(x.d, x.g, t, opt, fl)|, stack, opt, fl)
    ensures x.Ends(Run(pc, i, stack))
    decreases f, t, 0
  {
    hide Eval, Gen, CodeAt, Yields, RulesAt, GetFirst, CheckAux, FixedLen, HeadFail, CodeTest, TestFor, Step;
    hide TestDecidesChoice, CodeChoice, TestSize, WellMade, Disjoint;
    PartsMade(x.d, x.g, t);
    UnfoldChoice(x.g, t.p1, t.p2, x.s, i, f);
    TestedChoiceIs(x.d, x.g, t, opt, fl);
    DecidedChoice(x.d, x.g, t.p1, t.p2, fl, x.s, i);
    var (p1, p2) := (t.p1, t.p2);
    var end := pc + |CodeChoice(x.d, x.g, t, opt, fl)|;
    var f1 := GetFirst(x.g, p1, FULLSET, x.d);
    var tt1 := TestFor(f1.cs, false);
    var c1 := Gen(x.d, x.g, p1, false, tt1, fl);
    var c2 := Gen(x.d, x.g, p2, opt, NoTest, fl);
    TrueIsEmpty(x.d, x.g, opt, fl);
    var jmp := if p2.True? then [] else Jump(IJmp, 2 + |c2|);
    var n := TestSize(f1.cs, false);
    var off := n + |c1| + |jmp|;
    CodeAtParts(x.code, pc, CodeTest(f1.cs, false, off) + c1 + jmp, c2, x.positions);
    CodeAtParts(x.code, pc, CodeTest(f1.cs, false, off) + c1, jmp, x.positions);
    CodeAtParts(x.code, pc, CodeTest(f1.cs, false, off), c1, x.positions);
    var r1 := Eval(x.g, p1, x.s, i, f);
    FirstSound(x.g, p1, FULLSET, x.d, x.s, i, f);
    if HeadFail(x.g, p1, x.d) { HeadFailInside(x.g, p1, x.d, x.s, i, f); }
    if Here(x.s, i, f1.cs) {
      TestForHolds(f1.(empty := false), x.s, i);
      if r1.Ok? {
        AtEnd(x, r1.pos, end, stack, opt, fl);
        if !p2.True? {
          JmpStep(x, pc + n + |c1|, 2 + |c2|, r1.pos, stack);
        }
      } else {
        FirstSound(x.g, p2, fl, x.d, x.s, i, f);
      }
      GenCorrect(x, pc + n, p1, false, tt1, fl, i, stack, f);
    } else {
      GenCorrect(x, pc + off, p2, opt, NoTest, fl, i, stack, f);
    }
    TestCorrect(x, pc, f1.cs, off, i, stack);
  }

  lemma {:induction false} RepCorrect(
    x: Context, pc: int, t: Tree, opt: bool, fl: Charset, i: nat, stack: Stack, f: nat)
    requires i <= |x.s| && t.Rep?
    requires WellMade(x.d, x.g, t) && RulesAt(x.d, x.code, x.g, x.positions)
    requires x.At(pc, CodeRep(x.d, x.g, t, opt, fl))
    requires Continues(x, Eval(x.g, t, x.s, i, f), pc + |CodeRep(x.d, x.g, t, opt, fl)|, stack, opt, fl)
    ensures x.Ends(Run(pc, i, stack))
    decreases f, t, 1
  {
    hide Eval, Gen, CodeAt, Yields, RulesAt, GetFirst, CheckAux, FixedLen, HeadFail, CodeTest, TestFor, Step, WellMade;
    PartsMade(x.d, x.g, t);
    UnfoldRep(x.g, t.body, x.s, i, f);
    var p := t.body;
    var end := pc + |CodeRep(x.d, x.g, t, opt, fl)|;
    var out := Eval(x.g, t, x.s, i, f);
    NofailSound(x.g, t, x.d, x.s, i, f);
    AtEnd(x, out.pos, end, stack, opt, fl);
    var fs := GetFirst(x.g, p, FULLSET, x.d);
    FirstSound(x.g, p, FULLSET, x.d, x.s, i, f);
    if IsCharPattern(p) {
      SpanIsRep(x.g, t, x.s, i, f);
      SpanCorrect(x, pc, CharsOf(p), i, stack);
    } else if TestDecidesRep(x.d, x.g, p, fl) {
      RepByTest(x, pc, t, opt, fl, i, stack, f);
    } else {
      var c := Gen(x.d, x.g, p, false, NoTest, FULLSET);
      var n := TestSize(fs.cs, fs.empty);
      var test := CodeTest(fs.cs, fs.empty, n + 2 + |c| + 2);
      var enter := EnterRep(opt, c);
      CodeAtParts(x.code, pc, test + enter + c, Jump(IPartialCommit, -|c|), x.positions);
      CodeAtParts(x.code, pc, test + enter, c, x.positions);
      CodeAtParts(x.code, pc, test, enter, x.positions);
      var rest := if opt then stack.rest else stack;
      var exit := if opt then stack.top.p else end;
      RepLoop(x, pc + n + 2, t, i, exit, rest, f);
      if opt { PartialStep(x, pc + n, 2, i, stack.top, stack.rest); } else { ChoiceStep(x, pc + n, 2 + |c| + 2, i, stack); }
      TestEntry(x, pc, fs, n + 2 + |c| + 2, i, stack);
    }
  }

  /** The loop of a repetition whose top alternative leads to exit. */
  lemma {:induction false} RepLoop(x: Context, l2: int, t: Tree, i: nat, exit: int, rest: Stack, f: nat)
    requires i <= |x.s| && t.Rep?
    requires WellMade(x.d, x.g, t) && RulesAt(x.d, x.code, x.g, x.positions)
    requires x.At(l2, Gen(x.d, x.g, t.body, false, NoTest, FULLSET))
    requires var n := |Gen(x.d, x.g, t.body, false, NoTest, FULLSET)|; x.At(l2 + n, Jump(IPartialCommit, -n))
    requires match Eval(x.g, t, x.s, i, f) case Ok(j) => x.Ends(Run(exit, j, rest)) case _ => false
    ensures x.Ends(Run(l2, i, Push(Alt(i, exit), rest)))
    decreases f, t, 0
  {
    hide Eval, Gen, CodeAt, Yields, RulesAt, Step, WellMade;
    PartsMade(x.d, x.g, t);
    UnfoldRep(x.g, t.body, x.s, i, f);
    var p := t.body;
    var n := |Gen(x.d, x.g, p, false, NoTest, FULLSET)|;
    var stack := Push(Alt(i, exit), rest);
    var r := Eval(x.g, p, x.s, i, f);
    if r.Ok? {
      RepLoop(x, l2, t, r.pos, exit, rest, f - 1);
      PartialStep(x, l2 + n, -n, r.pos, Alt(i, exit), rest);
    }
    GenCorrect(x, l2, p, false, NoTest, FULLSET, i, stack, f);
  }

  lemma SpanCorrect(x: Context, pc: int, cs: Charset, i: nat, stack: Stack)
    requires i <= |x.s| && x.At(pc, Plain(ISpan, 0) + BuffOf(cs))
    requires x.Ends(Run(pc + CHARSETINSTSIZE, SpanEnd(cs, x.s, i), stack))
    ensures x.Ends(Run(pc, i, stack))
  {
    assert SlotAt(x.code, pc + 0, (Plain(ISpan, 0) + BuffOf(cs))[0], x.positions);
    assert SlotAt(x.code, pc + 1, (Plain(ISpan, 0) + BuffOf(cs))[1], x.positions);
    Back(x, Run(pc, i, stack));
  }

  lemma {:induction false} SpanIsRep(g: Rules, t: Tree, s: Subject, i: nat, f: nat)
    requires i <= |s| && t.Rep? && IsCharPattern(t.body) && Eval(g, t, s, i, f) != NoFuel
    ensures Eval(g, t, s, i, f) == Ok(SpanEnd(CharsOf(t.body), s, i))
    decreases f
  {
    var r := Eval(g, t.body, s, i, f);
    assert r == EvalChar(t.body, s, i);
    if r.Ok? { SpanIsRep(g, t, s, i + 1, f - 1); }
  }

  lemma {:induction false} RepByTest(
    x: Context, pc: int, t: Tree, opt: bool, fl: Charset, i: nat, stack: Stack, f: nat)
    requires i <= |x.s| && t.Rep? && !IsCharPattern(t.body) && TestDecidesRep(x.d, x.g, t.body, fl)
    requires WellMade(x.d, x.g, t) && RulesAt(x.d, x.code, x.g, x.positions)
    requires x.At(pc, CodeRep(x.d, x.g, t, opt, fl))
    requires Continues(x, Eval(x.g, t, x.s, i, f), pc + |CodeRep(x.d, x.g, t, opt, fl)|, stack, opt, fl)
    ensures x.Ends(Run(pc, i, stack))
    decreases f, t, 0
  {
    hide Eval, Gen, CodeAt, Yields, RulesAt, GetFirst, CheckAux, FixedLen, HeadFail, CodeTest, TestFor, Step, WellMade;
    PartsMade(x.d, x.g, t);
    UnfoldRep(x.g, t.body, x.s, i, f);
    var p := t.body;
    var end := pc + |CodeRep(x.d, x.g, t, opt, fl)|;
    var fs := GetFirst(x.g, p, FULLSET, x.d);
    var tt := TestFor(fs.cs, false);
    var c := Gen(x.d, x.g, p, false, tt, FULLSET);
    var n := TestSize(fs.cs, false) + |c|;
    CodeAtParts(x.code, pc, CodeTest(fs.cs, false, n + 2) + c, Jump(IJmp, -n), x.positions);
    CodeAtParts(x.code, pc, CodeTest(fs.cs, false, n + 2), c, x.positions);
    NofailSound(x.g, t, x.d, x.s, i, f);
    AtEnd(x, Eval(x.g, t, x.s, i, f).pos, end, stack, opt, fl);
    FirstSound(x.g, p, FULLSET, x.d, x.s, i, f);
    if HeadFail(x.g, p, x.d) { HeadFailInside(x.g, p, x.d, x.s, i, f); }
    if Here(x.s, i, fs.cs) {
      TestForHolds(fs.(empty := false), x.s, i);
      var r := Eval(x.g, p, x.s, i, f);
      if r.Ok? {
        RepByTest(x, pc, t, opt, fl, r.pos, stack, f - 1);
        JmpStep(x, pc + n, -n, r.pos, stack);
      }
      GenCorrect(x, pc + TestSize(fs.cs, false), p, false, tt, FULLSET, i, stack, f);
    }
    TestCorrect(x, pc, fs.cs, n + 2, i, stack);
  }

  lemma {:induction false} NotCorrect(x: Context, pc: int, t: Tree, i: nat, stack: Stack, f: nat)
    requires i <= |x.s| && t.Not?
    requires WellMade(x.d, x.g, t) && RulesAt(x.d, x.code, x.g, x.positions)
    requires x.At(pc, CodeNot(x.d, x.g, t))
    requires match Eval(x.g, t, x.s, i, f)
             case NoFuel => false
             case Fail => x.Ends(FailTo(stack))
             case Ok(j) => x.Ends(Run(pc + |CodeNot(x.d, x.g, t)|, j, stack))
    ensures x.Ends(Run(pc, i, stack))
    decreases f, t, 1
  {
    hide Eval, Gen, CodeAt, Yields, RulesAt, GetFirst, CheckAux, FixedLen, HeadFail, CodeTest, TestFor, Step, WellMade;
    PartsMade(x.d, x.g, t);
    UnfoldNot(x.g, t.body, x.s, i, f);
    var p := t.body;
    var fs := GetFirst(x.g, p, FULLSET, x.d);
    var n := TestSize(fs.cs, fs.empty);
    FirstSound(x.g, p, FULLSET, x.d, x.s, i, f);
    if HeadFail(x.g, p, x.d) {
      HeadFailInside(x.g, p, x.d, x.s, i, f);
      CodeAtParts(x.code, pc, CodeTest(fs.cs, false, n + 1), Plain(IFail, 0), x.positions);
      if Here(x.s, i, fs.cs) { FailStep(x, pc + n, i, stack); }
      TestCorrect(x, pc, fs.cs, n + 1, i, stack);
    } else {
      var c := Gen(x.d, x.g, p, false, NoTest, FULLSET);
      var off := 2 + |c| + 1;
      var test := CodeTest(fs.cs, fs.empty, n + off);
      CodeAtParts(x.code, pc, test + Jump(IChoice, off) + c, Plain(IFailTwice, 0), x.positions);
      CodeAtParts(x.code, pc, test + Jump(IChoice, off), c, x.positions);
      CodeAtParts(x.code, pc, test, Jump(IChoice, off), x.positions);
      var stack' := Push(Alt(i, pc + n + off), stack);
      var r := Eval(x.g, p, x.s, i, f);
      if r.Ok? { FailTwiceStep(x, pc + n + 2 + |c|, r.pos, Alt(i, pc + n + off), stack); }
      GenCorrect(x, pc + n + 2, p, false, NoTest, FULLSET, i, stack', f);
      ChoiceStep(x, pc + n, off, i, stack);
      TestEntry(x, pc, fs, n + off, i, stack);
    }
  }

  lemma {:induction false} AndCorrect(x: Context, pc: int, t: Tree, tt: Test, i: nat, stack: Stack, f: nat)
    requires i <= |x.s| && t.And? && TestHolds(tt, x.s, i)
    requires WellMade(x.d, x.g, t) && RulesAt(x.d, x.code, x.g, x.positions)
    requires x.At(pc, CodeAnd(x.d, x.g, t, tt))
    requires match Eval(x.g, t, x.s, i, f)
             case NoFuel => false
             case Fail => x.Ends(FailTo(stack))
             case Ok(j) => x.Ends(Run(pc + |CodeAnd(x.d, x.g, t, tt)|, j, stack))
    ensures x.Ends(Run(pc, i, stack))
    decreases f, t, 1
  {
    hide Eval, Gen, CodeAt, Yields, RulesAt, GetFirst, CheckAux, FixedLen, HeadFail, CodeTest, TestFor, Step, WellMade;
    PartsMade(x.d, x.g, t);
    UnfoldAnd(x.g, t.body, x.s, i, f);
    var p := t.body;
    var n := FixedLen(x.g, p, x.d);
    var c := Gen(x.d, x.g, p, false, tt, FULLSET);
    var r := Eval(x.g, p, x.s, i, f);
    if 0 <= n <= MAXBEHIND {
      var c1 := StepBack(n);
      CodeAtParts(x.code, pc, c, c1, x.positions);
      FixedLenSound(x.g, p, x.d, x.s, i, f);
      if r.Ok? && n > 0 {
        BehindStep(x, pc + |c|, n, r.pos, stack);
      }
      GenCorrect(x, pc, p, false, tt, FULLSET, i, stack, f);
    } else {
      var off := 2 + |c| + 2;
      CodeAtParts(x.code, pc, Jump(IChoice, off) + c + Jump(IBackCommit, 3), Plain(IFail, 0), x.positions);
      CodeAtParts(x.code, pc, Jump(IChoice, off) + c, Jump(IBackCommit, 3), x.positions);
      CodeAtParts(x.code, pc, Jump(IChoice, off), c, x.positions);
      var stack' := Push(Alt(i, pc + off), stack);
      if r.Ok? {
        BackCommitStep(x, pc + 2 + |c|, 3, r.pos, Alt(i, pc + off), stack);
      } else {
        FailStep(x, pc + off, i, stack);
      }
      GenCorrect(x, pc + 2, p, false, tt, FULLSET, i, stack', f);
      ChoiceStep(x, pc, off, i, stack);
    }
  }

  // ----- calls and grammars -----

  /** Running through jumps does not change the result. */
  lemma {:induction false} HopsForth(x: Context, p: int, n: nat, j: nat, stack: Stack)
    requires j <= |x.s| && x.Ends(Run(p, j, stack))
    ensures x.Ends(Run(Hops(x.code, p, n), j, stack))
    decreases n
  {
    if n > 0 && IsJmp(x.code, p) {
      YieldsForth(x.code, x.s, Run(p, j, stack), x.r);
      HopsForth(x, Target(x.code, p), n - 1, j, stack);
    }
  }

  lemma {:induction false} CallCorrect(x: Context, pc: int, k: nat, i: nat, stack: Stack, f: nat)
    requires i <= |x.s| && k < |x.g| && RulesAt(x.d, x.code, x.g, x.positions)
    requires x.At(pc, Gen(x.d, x.g, Call(k), false, NoTest, FULLSET))
    requires match Eval(x.g, Call(k), x.s, i, f)
             case NoFuel => false
             case Fail => x.Ends(FailTo(stack))
             case Ok(j) => x.Ends(Run(pc + 2, j, stack))
    ensures x.Ends(Run(pc, i, stack))
    decreases f, Call(k), 1
  {
    hide Eval, Gen, CodeAt, Yields, LeadsToRet, Step, RulesAt, RuleCode, WellMade, IsRet;
    CallPlaced(x, pc, k);
    UnfoldCall(x.g, k, x.s, i, f);
    RuleHere(x, k);
    var entry := x.positions[k];
    var r := Eval(x.g, x.g[k], x.s, i, f - 1);
    var tail := x.code[pc].op == IJmp;
    var stack' := if tail then stack else Push(Return(pc + 2), stack);
    if r.Ok? { CallReturns(x, pc, entry + |RuleCode(x.d, x.g, k)|, r.pos, stack); }
    GenCorrect(x, entry, x.g[k], false, NoTest, FULLSET, i, stack', f - 1);
    CallStep(x, pc, i, stack, entry);
  }

  /** The return of a rule goes on after the call, or does what the return after it does. */
  lemma CallReturns(x: Context, pc: int, ret: int, j: nat, stack: Stack)
    requires j <= |x.s| && 0 <= pc && pc + 1 < |x.code| && x.code[pc].Inst? && IsRet(x.code, ret)
    requires x.code[pc].op == IJmp ==> LeadsToRet(x.code, pc + 2)
    requires x.Ends(Run(pc + 2, j, stack))
    ensures x.Ends(Run(ret, j, if x.code[pc].op == IJmp then stack else Push(Return(pc + 2), stack)))
  {
    hide Yields, LeadsToRet, Step;
    if x.code[pc].op == IJmp { ReturnsAlike(x, pc + 2, ret, j, stack); } else { RetStep(x, ret, j, pc + 2, stack); }
  }

  lemma RuleHere(x: Context, k: nat)
    requires k < |x.g| && RulesAt(x.d, x.code, x.g, x.positions)
    ensures |x.positions| == |x.g| && WellMade(x.d, x.g, x.g[k]) && x.At(x.positions[k], RuleCode(x.d, x.g, k))
    ensures RuleCode(x.d, x.g, k) == Gen(x.d, x.g, x.g[k], false, NoTest, FULLSET)
    ensures IsRet(x.code, x.positions[k] + |RuleCode(x.d, x.g, k)|)
  {
    hide Gen, CodeAt, WellMade;
  }

  lemma CallPlaced(x: Context, pc: int, k: nat)
    requires x.At(pc, Gen(x.d, x.g, Call(k), false, NoTest, FULLSET))
    ensures CallAt(x.code, pc, k, x.positions)
  {
    assert SlotAt(x.code, pc + 0, Gen(x.d, x.g, Call(k), false, NoTest, FULLSET)[0], x.positions);
  }

  /** A return does what any other return does, also one that jumps lead to. */
  lemma ReturnsAlike(x: Context, p: int, ret: int, j: nat, stack: Stack)
    requires LeadsToRet(x.code, p) && IsRet(x.code, ret) && j <= |x.s| && x.Ends(Run(p, j, stack))
    ensures x.Ends(Run(ret, j, stack))
  {
    hide Yields;
    var n: nat :| IsRet(x.code, Hops(x.code, p, n));
    HopsForth(x, p, n, j, stack);
    YieldsForth(x.code, x.s, Run(Hops(x.code, p, n), j, stack), x.r);
    Back(x, Run(ret, j, stack));
  }

  lemma {:induction false} GrammarCorrect(x: Context, pc: int, t: Tree, i: nat, stack: Stack, f: nat)
    requires i <= |x.s| && t.Grammar? && WellMade(x.d, x.g, t)
    requires x.At(pc, Gen(x.d, x.g, t, false, NoTest, FULLSET))
    requires match Eval(x.g, t, x.s, i, f)
             case NoFuel => false
             case Fail => x.Ends(FailTo(stack))
             case Ok(j) => x.Ends(Run(pc + |Gen(x.d, x.g, t, false, NoTest, FULLSET)|, j, stack))
    ensures x.Ends(Run(pc, i, stack))
    decreases f, t, 1
  {
    hide Eval, Gen, GenRules, Correct, CodeAt, Yields, Step;
    var rs := t.rules;
    GrammarCodeIs(x.d, x.g, t);
    UnfoldGrammar(x.g, rs, x.s, i, f);
    var body := Correct(GenRules(x.d, t, 0), RulePositions(x.d, t), 0);
    var positions := seq(|rs|, k requires 0 <= k < |rs| => pc + 4 + RulePositions(x.d, t)[k]);
    var y := x.(g := rs, positions := positions);
    CodeAtParts(x.code, pc, Jump(ICall, 4) + Jump(IJmp, 2 + |body|), body, x.positions);
    CodeAtParts(x.code, pc, Jump(ICall, 4), Jump(IJmp, 2 + |body|), x.positions);
    JumpAt(x, pc, ICall, 4);
    GrammarRulesAt(x.d, x.code, pc + 4, t, x.positions, positions);
    var ret := pc + 4 + |RuleCode(x.d, rs, 0)|;
    var stack' := Push(Return(pc + 2), stack);
    var r := Eval(rs, rs[0], x.s, i, f);
    if r.Ok? {
      JmpStep(x, pc + 2, 2 + |body|, r.pos, stack);
      RetStep(x, ret, r.pos, pc + 2, stack);
    }
    GenCorrect(y, pc + 4, rs[0], false, NoTest, FULLSET, i, stack', f);
    CallStep(x, pc, i, stack, pc + 4);
  }
}

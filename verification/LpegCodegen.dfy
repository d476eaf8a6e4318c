/** The code that skynet/3rd/lpeg/lpcode.c generates for a pattern, as a function of the
    pattern. Offsets are relative, so the code of a pattern does not depend on its address. */
module LpegCodegen {
  import opened LpegSyntax
  import opened LpegAnalysis
  import opened LpegMachine

  const MAXBEHIND: nat := 255

  /** What charsettype tells about a set. */
  datatype SetKind = NoChar | AllChars | OneChar(c: Byte) | SomeChars

  ghost function KindOf(cs: Charset): (k: SetKind)
    ensures k == NoChar <==> cs == {}
    ensures k == AllChars <==> cs == FULLSET
    ensures k.OneChar? ==> cs == {k.c}
    ensures forall c: Byte :: cs == {c} ==> k == OneChar(c)
  {
    assert 0 in FULLSET && 1 in FULLSET;
    if cs == {} then NoChar
    else if cs == FULLSET then AllChars
    else if exists c: Byte :: cs == {c} then
      var c: Byte :| cs == {c};
      OneChar(c)
    else SomeChars
  }

  /** The test instruction known to protect the code being generated. Tests that no
      instruction can profit from count as none. */
  datatype Test = NoTest | OnChar(c: nat) | OnSet(cs: Charset)

  function Plain(op: Opcode, aux: nat): Code { [Inst(op, aux, 0)] }

  /** addoffsetinst, once its offset is set */
  function Jump(op: Opcode, off: int): (c: Code)
    ensures |c| == 2
  {
    [Inst(op, 0, 0), Offset(off)]
  }

  /** codechar */
  function CodeChar(c: nat, tt: Test): (code: Code)
    ensures |code| == 1
  {
    if tt == OnChar(c) then Plain(IAny, 0) else Plain(IChar, c)
  }

  /** codecharset */
  ghost function CodeCharset(cs: Charset, tt: Test): Code {
    match KindOf(cs)
    case OneChar(c) => CodeChar(c, tt)
    case SomeChars => if tt == OnSet(cs) then Plain(IAny, 0) else Plain(ISet, 0) + BuffOf(cs)
    case NoChar => Plain(IFail, 0)
    case AllChars => Plain(IAny, 0)
  }

  /** codetestset: a test that jumps by off unless the next character is in cs; nothing when
      the empty string is to be accepted. */
  ghost function CodeTest(cs: Charset, empty: bool, off: int): (code: Code)
    ensures |code| == TestSize(cs, empty)
  {
    if empty then [] else
      match KindOf(cs)
      case NoChar => Jump(IJmp, off)
      case AllChars => Jump(ITestAny, off)
      case OneChar(c) => [Inst(ITestChar, c, 0), Offset(off)]
      case SomeChars => Jump(ITestSet, off) + BuffOf(cs)
  }

  ghost function TestSize(cs: Charset, empty: bool): nat {
    if empty then 0 else if KindOf(cs) == SomeChars then CHARSETINSTSIZE + 1 else 2
  }

  /** What the code after a test may rely on. */
  ghost function TestFor(cs: Charset, empty: bool): Test {
    if empty then NoTest else
      match KindOf(cs)
      case OneChar(c) => OnChar(c)
      case SomeChars => OnSet(cs)
      case _ => NoTest
  }

  /** codegen: opt says that the code ends an optional pattern, tt is a test protecting the
      code, and fl the follow set. */
  ghost function Gen(d: nat, g: Rules, t: Tree, opt: bool, tt: Test, fl: Charset): Code
    decreases t, 1, 0
  {
    match t
    case Char(c) => CodeChar(c, tt)
    case Any => Plain(IAny, 0)
    case Set(cs) => CodeCharset(cs, tt)
    case True => []
    case False => Plain(IFail, 0)
    case Choice(p1, p2) => CodeChoice(d, g, t, opt, fl)
    case Rep(p) => CodeRep(d, g, t, opt, fl)
    case Behind(n, p) => StepBack(n) + Gen(d, g, p, false, NoTest, FULLSET)
    case Not(p) => CodeNot(d, g, t)
    case And(p) => CodeAnd(d, g, t, tt)
    case Seq(p1, p2) =>
      Gen(d, g, p1, false, tt, SeqFollow(d, g, p1, p2, fl)) +
      Gen(d, g, p2, opt, SeqTest(d, g, p1, tt), fl)
    case Call(k) => [Inst(IOpenCall, 0, k), Room]
    case Grammar(rs) =>
      GrammarCode(Correct(GenRules(d, t, 0), RulePositions(d, t), 0))
  }

  /** call L1; jmp L2; L1: body; L2: */
  ghost function GrammarCode(body: Code): Code { Jump(ICall, 4) + Jump(IJmp, 2 + |body|) + body }

  /** codeseq1: the follow set of the first pattern */
  function SeqFollow(d: nat, g: Rules, p1: Tree, p2: Tree, fl: Charset): Charset {
    if NeedFollow(p1) then GetFirst(g, p2, fl, d).cs else FULLSET
  }

  /** codeseq1: the test that still protects the second pattern */
  function SeqTest(d: nat, g: Rules, p1: Tree, tt: Test): Test {
    if FixedLen(g, p1, d) != 0 then NoTest else tt
  }

  predicate Disjoint(a: Charset, b: Charset) { a !! b }

  /** The condition under which a test decides a choice. */
  predicate TestDecidesChoice(d: nat, g: Rules, p1: Tree, p2: Tree, fl: Charset) {
    var f1 := GetFirst(g, p1, FULLSET, d);
    HeadFail(g, p1, d) || (!f1.empty && Disjoint(f1.cs, GetFirst(g, p2, fl, d).cs))
  }

  ghost function CodeChoice(d: nat, g: Rules, t: Tree, opt: bool, fl: Charset): Code
    requires t.Choice?
    decreases t, 0, 0
  {
    var (p1, p2) := (t.p1, t.p2);
    var f1 := GetFirst(g, p1, FULLSET, d);
    if TestDecidesChoice(d, g, p1, p2, fl) then
      TestedChoice(f1.cs, Gen(d, g, p1, false, TestFor(f1.cs, false), fl), p2.True?, Gen(d, g, p2, opt, NoTest, fl))
    else if opt && p2.True? then
      Jump(IPartialCommit, 2) + Gen(d, g, p1, true, NoTest, FULLSET)
    else
      FullChoice(f1, Gen(d, g, p1, p2.True?, TestFor(f1.cs, f1.empty), FULLSET), Gen(d, g, p2, opt, NoTest, fl))
  }

  /** test L1; c1; jmp L2; L1: c2; L2: */
  ghost function TestedChoice(cs: Charset, c1: Code, emptyp2: bool, c2: Code): Code {
    var jmp := if emptyp2 then [] else Jump(IJmp, 2 + |c2|);
    CodeTest(cs, false, TestSize(cs, false) + |c1| + |jmp|) + c1 + jmp + c2
  }

  /** test L1; choice L1; c1; commit L2; L1: c2; L2: */
  ghost function FullChoice(f: First, c1: Code, c2: Code): Code {
    CodeTest(f.cs, f.empty, TestSize(f.cs, f.empty) + 2 + |c1| + 2)
    + Jump(IChoice, 2 + |c1| + 2) + c1 + Jump(ICommit, 2 + |c2|) + c2
  }

  /** The condition under which a test decides each round of a repetition. */
  predicate TestDecidesRep(d: nat, g: Rules, p: Tree, fl: Charset) {
    var f := GetFirst(g, p, FULLSET, d);
    HeadFail(g, p, d) || (!f.empty && Disjoint(f.cs, fl))
  }

  ghost function CodeRep(d: nat, g: Rules, t: Tree, opt: bool, fl: Charset): Code
    requires t.Rep?
    decreases t, 0, 0
  {
    var p := t.body;
    var f := GetFirst(g, p, FULLSET, d);
    if IsCharPattern(p) then Plain(ISpan, 0) + BuffOf(CharsOf(p))
    else if TestDecidesRep(d, g, p, fl) then
      TestedRep(f.cs, Gen(d, g, p, false, TestFor(f.cs, false), FULLSET))
    else FullRep(f, opt, Gen(d, g, p, false, NoTest, FULLSET))
  }

  /** L1: test L2; c; jmp L1; L2: */
  ghost function TestedRep(cs: Charset, c: Code): Code {
    var n := TestSize(cs, false) + |c|;
    CodeTest(cs, false, n + 2) + c + Jump(IJmp, -n)
  }

  /** test L2; choice L2 (or partialcommit); L1: c; partialcommit L1; L2: */
  ghost function FullRep(f: First, opt: bool, c: Code): Code {
    CodeTest(f.cs, f.empty, TestSize(f.cs, f.empty) + 2 + |c| + 2)
    + EnterRep(opt, c) + c + Jump(IPartialCommit, -|c|)
  }

  ghost function EnterRep(opt: bool, c: Code): Code {
    if opt then Jump(IPartialCommit, 2) else Jump(IChoice, 2 + |c| + 2)
  }

  ghost function CodeNot(d: nat, g: Rules, t: Tree): Code
    requires t.Not?
    decreases t, 0, 0
  {
    var p := t.body;
    var f := GetFirst(g, p, FULLSET, d);
    if HeadFail(g, p, d) then CodeTest(f.cs, f.empty, TestSize(f.cs, f.empty) + 1) + Plain(IFail, 0)
    else FullNot(f, Gen(d, g, p, false, NoTest, FULLSET))
  }

  /** test L1; choice L1; c; failtwice; L1: */
  ghost function FullNot(f: First, c: Code): Code {
    CodeTest(f.cs, f.empty, TestSize(f.cs, f.empty) + 2 + |c| + 1)
    + Jump(IChoice, 2 + |c| + 1) + c + Plain(IFailTwice, 0)
  }

  ghost function CodeAnd(d: nat, g: Rules, t: Tree, tt: Test): Code
    requires t.And?
    decreases t, 0, 0
  {
    var n := FixedLen(g, t.body, d);
    var c := Gen(d, g, t.body, false, tt, FULLSET);
    if 0 <= n <= MAXBEHIND then c + StepBack(n) else FullAnd(c)
  }

  ghost function StepBack(n: nat): Code { if n > 0 then Plain(IBehind, n) else [] }

  /** choice L1; c; backcommit L2; L1: fail; L2: */
  ghost function FullAnd(c: Code): Code {
    Jump(IChoice, 2 + |c| + 2) + c + Jump(IBackCommit, 3) + Plain(IFail, 0)
  }

  /** The code of rules k, k+1, ... of a grammar, each ended by a return. */
  ghost function GenRules(d: nat, gr: Tree, k: nat): Code
    requires gr.Grammar? && k <= |gr.rules|
    decreases gr, 0, |gr.rules| - k
  {
    if k == |gr.rules| then []
    else Gen(d, gr.rules, gr.rules[k], false, NoTest, FULLSET) + Plain(IRet, 0) + GenRules(d, gr, k + 1)
  }

  /** The address of each rule, counted from the first one. */
  ghost function RulePositions(d: nat, gr: Tree): seq<int>
    requires gr.Grammar?
    decreases gr, 0, |gr.rules| + 1
  {
    seq(|gr.rules|, k requires 0 <= k < |gr.rules| =>
      |GenRules(d, gr, 0)| - |GenRules(d, gr, k)|)
  }

  predicate IsJmp(code: Code, x: int) {
    0 <= x && x + 1 < |code| && code[x].Inst? && code[x].op == IJmp && code[x + 1].Offset?
  }

  /** Where at most n jumps lead from x. */
  function Hops(code: Code, x: int, n: nat): int
    decreases n
  {
    if n == 0 || !IsJmp(code, x) then x else Hops(code, Target(code, x), n - 1)
  }

  /** The jumps from x come to an end. */
  ghost predicate JumpsEnd(code: Code, x: int) {
    exists n: nat :: !IsJmp(code, Hops(code, x, n))
  }

  predicate IsRet(code: Code, x: int) { 0 <= x < |code| && code[x].Inst? && code[x].op == IRet }

  /** finaltarget(code, x) holds a return. */
  ghost predicate LeadsToRet(code: Code, x: int) {
    exists n: nat :: IsRet(code, Hops(code, x, n))
  }

  predicate IsOpenCall(slot: Slot) { slot.Inst? && slot.op == IOpenCall }

  /** correctcalls from address i on: open calls become calls, or jumps when a return follows. */
  ghost function Correct(code: Code, positions: seq<int>, i: nat): (r: Code)
    ensures |r| == |code|
    decreases |code| - i
  {
    if i >= |code| || !code[i].Inst? then code
    else if IsOpenCall(code[i]) && i + 1 < |code| && code[i].key < |positions| then
      var op := if LeadsToRet(code, i + 2) then IJmp else ICall;
      Correct(code[i := code[i].(op := op)][i + 1 := Offset(positions[code[i].key] - i)], positions, i + 2)
    else Correct(code, positions, i + SizeI(code[i].op))
  }
}

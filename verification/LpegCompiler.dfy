/** The compiler state of skynet/3rd/lpeg/lpcode.c: code is appended instruction by
    instruction and offsets are patched in place. Each method is proved to append exactly the
    code that LpegCodegen gives for the pattern; compile then matches what the pattern means. */
module LpegCompiler {
  import opened LpegSyntax
  import opened LpegAnalysis
  import opened LpegGrammar
  import opened LpegMachine
  import opened LpegCharset
  import opened LpegCodegen
  import opened LpegLayout
  import opened LpegCorrect
  import opened LpegPeephole
  import opened LpegTails
  import opened LpegCircles
  import opened LpegThreads
  import opened LpegBuild

  const NOINST: int := -1

  class CompileState {
    var code: Code
    const d: nat

    constructor (d: nat)
      ensures code == [] && this.d == d
    {
      code := [];
      this.d := d;
    }

    method AddInstruction(op: Opcode, aux: nat) returns (i: int)
      modifies this
      ensures code == old(code) + Plain(op, aux) && i == |old(code)|
    {
      i := |code|;
      code := code + [Inst(op, aux, 0)];
    }

    method AddOffsetInst(op: Opcode) returns (i: int)
      modifies this
      ensures code == old(code) + Open(op) && i == |old(code)|
    {
      i := AddInstruction(op, 0);
      code := code + [Room];
    }

    method JumpToThere(i: int, target: int)
      requires i < 0 || i + 1 < |code|
      modifies this
      ensures code == Patch(old(code), i, target)
    {
      if i >= 0 { code := code[i + 1 := Offset(target - i)]; }
    }

    method JumpToHere(i: int)
      requires i < 0 || i + 1 < |code|
      modifies this
      ensures code == Patch(old(code), i, |old(code)|)
    {
      JumpToThere(i, |code|);
    }

    /** codechar */
    method EmitChar(c: nat, tt: int)
      modifies this
      ensures code == old(code) + CodeChar(c, TestAt(old(code), tt))
    {
      if 0 <= tt < |code| && code[tt].Inst? && code[tt].op == ITestChar && code[tt].aux == c {
        var _ := AddInstruction(IAny, 0);
      } else {
        var _ := AddInstruction(IChar, c);
      }
    }

    method AddCharset(cs: Charset)
      modifies this
      ensures code == old(code) + BuffOf(cs)
    {
      code := code + BuffOf(cs);
    }

    /** codecharset */
    method EmitCharset(cs: Charset, tt: int)
      modifies this
      ensures code == old(code) + CodeCharset(cs, TestAt(old(code), tt))
    {
      var kind := CharsetType(BitmapOf(cs));
      BitmapRoundTrip(cs);
      match kind {
        case OneChar(c) => EmitChar(c, tt);
        case SomeChars =>
          if 0 <= tt && tt + 2 < |code| && code[tt].Inst? && code[tt].op == ITestSet
             && code[tt + 2].Buff? && code[tt + 2].cs == cs {
            var _ := AddInstruction(IAny, 0);
          } else {
            var _ := AddInstruction(ISet, 0);
            AddCharset(cs);
            Regroup(old(code), Plain(ISet, 0), BuffOf(cs));
          }
        case NoChar => var _ := AddInstruction(IFail, 0);
        case AllChars => var _ := AddInstruction(IAny, 0);
      }
    }

    /** codetestset */
    method EmitTest(f: First) returns (i: int)
      modifies this
      ensures code == old(code) + OpenTest(f)
      ensures i == if f.empty then NOINST else |old(code)|
      ensures TestReady(code, i) && TestAt(code, i) == TestFor(f.cs, f.empty)
    {
      TestAtOpen(code, f, []);
      assert code + OpenTest(f) + [] == code + OpenTest(f);
      if !f.empty { OpenTestIs(f); }
      hide OpenTest, KindOf, TestAt, TestFor;
      if f.empty { return NOINST; }
      var kind := CharsetType(BitmapOf(f.cs));
      BitmapRoundTrip(f.cs);
      match kind {
        case NoChar => i := AddOffsetInst(IJmp);
        case AllChars => i := AddOffsetInst(ITestAny);
        case OneChar(c) =>
          i := AddOffsetInst(ITestChar);
          code := code[i := Inst(ITestChar, c, 0)];
        case SomeChars =>
          i := AddOffsetInst(ITestSet);
          AddCharset(f.cs);
          Regroup(old(code), Open(ITestSet), BuffOf(f.cs));
      }
    }

    /** codegen */
    method EmitPattern(g: Rules, t: Tree, opt: bool, tt: int, fl: Charset)
      requires WellMade(d, g, t) && TestReady(code, tt)
      modifies this
      ensures code == old(code) + Gen(d, g, t, opt, TestAt(old(code), tt), fl)
      decreases t, 1, 0
    {
      hide GetFirst, CheckAux, FixedLen, HeadFail, CodeChoice, CodeRep, CodeNot, CodeAnd, CodeCharset, GenRules, Correct;
      match t {
        case Char(c) => EmitChar(c, tt);
        case Any => var _ := AddInstruction(IAny, 0);
        case Set(cs) => EmitCharset(cs, tt);
        case True =>
        case False => var _ := AddInstruction(IFail, 0);
        case Choice(p1, p2) => EmitChoice(g, t, opt, fl);
        case Rep(p) => EmitRep(g, t, opt, fl);
        case Behind(n, p) =>
          if n > 0 { var _ := AddInstruction(IBehind, n); }
          EmitPattern(g, p, false, NOINST, FULLSET);
          Regroup(old(code), StepBack(n), Gen(d, g, p, false, NoTest, FULLSET));
        case Not(p) => EmitNot(g, t);
        case And(p) => EmitAnd(g, t, tt);
        case Call(k) => code := code + [Inst(IOpenCall, 0, k), Room];
        case Grammar(rs) => EmitGrammar(g, t);
        case Seq(p1, p2) =>
          var fl1 := if NeedFollow(p1) then GetFirst(g, p2, fl, d).cs else FULLSET;
          EmitPattern(g, p1, false, tt, fl1);
          var tt2 := if FixedLen(g, p1, d) != 0 then NOINST else tt;
          EmitPattern(g, p2, opt, tt2, fl);
          ghost var tt' := TestAt(old(code), tt);
          Regroup(old(code), Gen(d, g, p1, false, tt', fl1), Gen(d, g, p2, opt, SeqTest(d, g, p1, tt'), fl));
      }
    }

    /** codechoice */
    method EmitChoice(g: Rules, t: Tree, opt: bool, fl: Charset)
      requires t.Choice? && WellMade(d, g, t)
      modifies this
      ensures code == old(code) + CodeChoice(d, g, t, opt, fl)
      decreases t, 0, 1
    {
      hide Gen, FullChoice, TestedChoice, GetFirst, CheckAux, HeadFail, TestFor;
      var (p1, p2) := (t.p1, t.p2);
      var f1 := GetFirst(g, p1, FULLSET, d);
      if HeadFail(g, p1, d) || (!f1.empty && Disjoint(f1.cs, GetFirst(g, p2, fl, d).cs)) {
        EmitTestedChoice(g, t, opt, fl, f1.cs);
      } else if opt && p2.True? {
        var commit := AddOffsetInst(IPartialCommit);
        JumpToHere(commit);
        PatchOpen(old(code), IPartialCommit, [], |code|);
        NoTestBefore(code);
        EmitPattern(g, p1, true, NOINST, FULLSET);
        Regroup(old(code), Jump(IPartialCommit, 2), Gen(d, g, p1, true, NoTest, FULLSET));
      } else {
        EmitFullChoice(g, t, opt, fl, f1);
      }
    }

    method EmitTestedChoice(g: Rules, t: Tree, opt: bool, fl: Charset, cs1: Charset)
      requires t.Choice? && WellMade(d, g, t)
      modifies this
      ensures code == old(code) + TestedChoice(cs1, Gen(d, g, t.p1, false, TestFor(cs1, false), fl), t.p2.True?,
                                               Gen(d, g, t.p2, opt, NoTest, fl))
      decreases t, 0, 0
    {
      hide Gen, OpenTest, TestedChoice, TestAt, TestFor, Patch;
      var jmp := NOINST;
      var test := EmitTest(First(cs1, false));
      EmitPattern(g, t.p1, false, test, fl);
      assert code + [] == code;
      if !t.p2.True? { jmp := AddOffsetInst(IJmp); }
      JumpToHere(test);
      NoTestBefore(code);
      EmitPattern(g, t.p2, opt, NOINST, fl);
      JumpToHere(jmp);
      TestedChoiceBuilt(old(code), cs1, Gen(d, g, t.p1, false, TestFor(cs1, false), fl), t.p2.True?,
                        Gen(d, g, t.p2, opt, NoTest, fl));
    }

    method EmitFullChoice(g: Rules, t: Tree, opt: bool, fl: Charset, f1: First)
      requires t.Choice? && WellMade(d, g, t)
      modifies this
      ensures code == old(code) + FullChoice(f1, Gen(d, g, t.p1, t.p2.True?, TestFor(f1.cs, f1.empty), FULLSET),
                                             Gen(d, g, t.p2, opt, NoTest, fl))
      decreases t, 0, 0
    {
      hide Gen, OpenTest, FullChoice, TestAt, TestFor, Patch;
      var test := EmitTest(f1);
      var pchoice := AddOffsetInst(IChoice);
      TestAtOpen(old(code), f1, Open(IChoice));
      EmitPattern(g, t.p1, t.p2.True?, test, FULLSET);
      var pcommit := AddOffsetInst(ICommit);
      JumpToHere(pchoice);
      JumpToHere(test);
      NoTestBefore(code);
      EmitPattern(g, t.p2, opt, NOINST, fl);
      JumpToHere(pcommit);
      FullChoiceBuilt(old(code), f1, Gen(d, g, t.p1, t.p2.True?, TestFor(f1.cs, f1.empty), FULLSET),
                      Gen(d, g, t.p2, opt, NoTest, fl));
    }

    /** coderep */
    method EmitRep(g: Rules, t: Tree, opt: bool, fl: Charset)
      requires t.Rep? && WellMade(d, g, t)
      modifies this
      ensures code == old(code) + CodeRep(d, g, t, opt, fl)
      decreases t, 0, 1
    {
      hide Gen, FullRep, TestedRep, GetFirst, CheckAux, HeadFail, TestFor;
      var p := t.body;
      if IsCharPattern(p) {
        var _ := AddInstruction(ISpan, 0);
        AddCharset(CharsOf(p));
        Regroup(old(code), Plain(ISpan, 0), BuffOf(CharsOf(p)));
      } else {
        var f := GetFirst(g, p, FULLSET, d);
        if HeadFail(g, p, d) || (!f.empty && Disjoint(f.cs, fl)) {
          EmitTestedRep(g, t, f.cs);
        } else {
          EmitFullRep(g, t, opt, f);
        }
      }
    }

    method EmitTestedRep(g: Rules, t: Tree, cs: Charset)
      requires t.Rep? && WellMade(d, g, t)
      modifies this
      ensures code == old(code) + TestedRep(cs, Gen(d, g, t.body, false, TestFor(cs, false), FULLSET))
      decreases t, 0, 0
    {
      hide Gen, OpenTest, TestedRep, TestAt, TestFor, Patch;
      var test := EmitTest(First(cs, false));
      EmitPattern(g, t.body, false, test, FULLSET);
      var jmp := AddOffsetInst(IJmp);
      JumpToHere(test);
      JumpToThere(jmp, test);
      TestedRepBuilt(old(code), cs, Gen(d, g, t.body, false, TestFor(cs, false), FULLSET));
    }

    method EmitFullRep(g: Rules, t: Tree, opt: bool, f: First)
      requires t.Rep? && WellMade(d, g, t)
      modifies this
      ensures code == old(code) + FullRep(f, opt, Gen(d, g, t.body, false, NoTest, FULLSET))
      decreases t, 0, 0
    {
      hide Gen, OpenTest, FullRep, TestAt, TestFor, Patch;
      var test := EmitTest(f);
      var pchoice := NOINST;
      ghost var before := code;
      if opt {
        var commit := AddOffsetInst(IPartialCommit);
        assert code + [] == code;
        PatchOpen(before, IPartialCommit, [], |code|);
        JumpToHere(commit);
        assert code == before + Jump(IPartialCommit, 2);
      } else {
        pchoice := AddOffsetInst(IChoice);
      }
      var l2 := |code|;
      NoTestBefore(code);
      EmitPattern(g, t.body, false, NOINST, FULLSET);
      var commit := AddOffsetInst(IPartialCommit);
      JumpToThere(commit, l2);
      JumpToHere(pchoice);
      JumpToHere(test);
      FullRepBuilt(old(code), f, opt, Gen(d, g, t.body, false, NoTest, FULLSET));
    }

    /** codenot */
    method EmitNot(g: Rules, t: Tree)
      requires t.Not? && WellMade(d, g, t)
      modifies this
      ensures code == old(code) + CodeNot(d, g, t)
      decreases t, 0, 0
    {
      hide Gen, OpenTest, CodeTest, FullNot;
      var p := t.body;
      var f := GetFirst(g, p, FULLSET, d);
      var test := EmitTest(f);
      if HeadFail(g, p, d) {
        var _ := AddInstruction(IFail, 0);
        PatchTest(old(code), f, Plain(IFail, 0), |code|);
        Regroup(old(code), CodeTest(f.cs, f.empty, TestSize(f.cs, f.empty) + 1), Plain(IFail, 0));
      } else {
        var pchoice := AddOffsetInst(IChoice);
        EmitPattern(g, p, false, NOINST, FULLSET);
        var _ := AddInstruction(IFailTwice, 0);
        JumpToHere(pchoice);
        FullNotBuilt(old(code), f, Gen(d, g, p, false, NoTest, FULLSET));
      }
      JumpToHere(test);
    }

    /** codeand */
    method EmitAnd(g: Rules, t: Tree, tt: int)
      requires t.And? && WellMade(d, g, t) && TestReady(code, tt)
      modifies this
      ensures code == old(code) + CodeAnd(d, g, t, TestAt(old(code), tt))
      decreases t, 0, 0
    {
      hide Gen, FullAnd;
      var p := t.body;
      var n := FixedLen(g, p, d);
      ghost var c := Gen(d, g, p, false, TestAt(old(code), tt), FULLSET);
      if 0 <= n <= MAXBEHIND {
        EmitPattern(g, p, false, tt, FULLSET);
        if n > 0 { var _ := AddInstruction(IBehind, n); }
        Regroup(old(code), c, StepBack(n));
      } else {
        var pchoice := AddOffsetInst(IChoice);
        EmitPattern(g, p, false, tt, FULLSET);
        var pcommit := AddOffsetInst(IBackCommit);
        JumpToHere(pchoice);
        var _ := AddInstruction(IFail, 0);
        JumpToHere(pcommit);
        FullAndBuilt(old(code), c);
      }
    }

    /** finaltarget */
    method FinalTarget(i: int) returns (j: int)
      requires JumpsEnd(code, i)
      ensures !IsJmp(code, j) && Leads(code, i, j)
    {
      ghost var n: nat :| !IsJmp(code, Hops(code, i, n));
      ghost var k := 0;
      j := i;
      while IsJmp(code, j)
        invariant k <= n && Hops(code, i, k) == j && Hops(code, j, n - k) == Hops(code, i, n)
        decreases n - k
      {
        HopsOneMore(code, i, k);
        j := Target(code, j);
        k := k + 1;
      }
    }

    /** One call corrected: it becomes a jump if its target is a return, and a call otherwise. */
    method SettleCall(i: int, rule: int, ghost before: Code, ghost cur: Code, ghost inner: seq<int>)
      requires code == before + cur && |before| <= i && i + 1 < |code|
      requires var q := i - |before|; IsOpenCall(cur[q]) && cur[q].key < |inner| && rule == |before| + inner[cur[q].key]
      requires Turns(cur, i - |before| + 2)
      modifies this
      ensures code == before + CorrectOne(cur, inner, i - |before|)
    {
      ghost var q := i - |before|;
      assert code[i] == cur[q];
      TurnsAfter(before, cur, q + 2);
      assert |before| + (q + 2) == i + 2;
      var ft := FinalTarget(i + 2);
      TargetTells(before, cur, q + 2, ft);
      hide LeadsToRet, JumpsEnd, Leads, Hops, Turns;
      if 0 <= ft < |code| && code[ft].Inst? && code[ft].op == IRet {
        code := code[i := code[i].(op := IJmp)];
      } else {
        code := code[i := code[i].(op := ICall)];
      }
      JumpToThere(i, rule);
    }

    /** correctcalls: the calls of the code from address from on, which is that of the rules of
        gr, are turned into calls of the addresses in positions. It comes to an end for every
        grammar, since a call is corrected before those that its jumps may lead to. */
    method CorrectCalls(positions: seq<int>, from: nat, ghost gr: Tree)
      requires gr.Grammar? && WellMade(d, [], gr) && from <= |code|
      requires code[from..] == GenRules(d, gr, 0)
      requires |positions| == |gr.rules|
      requires forall k :: 0 <= k < |positions| ==> positions[k] == from + RulePositions(d, gr)[k]
      modifies this
      ensures code == old(code)[..from] + Correct(GenRules(d, gr, 0), RulePositions(d, gr), 0)
    {
      RulesReady(d, gr, 0);
      RulesCorrectable(d, gr);
      hide Gen, GenRules, Correct, Ready;
      assert code == code[..from] + code[from..];
      SettleCalls(positions, from, code[..from], code[from..], RulePositions(d, gr));
    }

    /** The loop of correctcalls. */
    method SettleCalls(positions: seq<int>, from: nat, ghost before: Code, ghost raw: Code, ghost inner: seq<int>)
      requires code == before + raw && |before| == from && |positions| == |inner|
      requires Correctable(raw, inner, 0) && Ready(raw)
      requires forall k :: 0 <= k < |positions| ==> positions[k] == from + inner[k]
      modifies this
      ensures code == before + Correct(raw, inner, 0)
    {
      hide Correct, Correctable, CorrectOne, Keeps, JumpsEnd, Turns, LeadsToRet, Ready, SameFrom;
      ghost var cur := raw;
      var i := from;
      NothingSettled(raw);
      while i < |code|
        invariant from <= i <= |code| && |cur| == |raw| && code == before + cur
        invariant Correctable(cur, inner, i - from) && Correct(cur, inner, i - from) == Correct(raw, inner, 0)
        invariant SameFrom(raw, cur, i - from)
      {
        CorrectOneStep(cur, inner, i - from);
        CorrectableHere(cur, inner, i - from);
        assert code[i] == cur[i - from];
        if code[i].op == IOpenCall {
          TurnsHere(raw, cur, i - from);
          SettleCall(i, positions[code[i].key], before, cur, inner);
          OneSettled(raw, cur, inner, i - from);
          cur := CorrectOne(cur, inner, i - from);
        } else {
          SameFurther(raw, cur, i - from, i - from + SizeI(code[i].op));
        }
        i := i + SizeI(code[i].op);
      }
      CorrectDone(cur, inner, |cur|);
    }

    /** codegrammar */
    method EmitGrammar(g: Rules, t: Tree)
      requires t.Grammar? && WellMade(d, g, t)
      modifies this
      ensures code == old(code) + Gen(d, g, t, false, NoTest, FULLSET)
      decreases t, 0, 0
    {
      hide Gen, GenRules, Correct;
      var rs := t.rules;
      ghost var raw := GenRules(d, t, 0);
      ghost var inner := RulePositions(d, t);
      ghost var frame := old(code) + Jump(ICall, 4) + Open(IJmp);
      var firstcall := AddOffsetInst(ICall);
      var jumptoend := AddOffsetInst(IJmp);
      var start := |code|;
      JumpToHere(firstcall);
      PatchOpen(old(code), ICall, Open(IJmp), start);
      var positions: seq<int> := [];
      RulesBegin(d, t);
      for rulenumber := 0 to |rs|
        invariant |positions| == rulenumber
        invariant forall k :: 0 <= k < rulenumber ==> positions[k] == start + inner[k]
        invariant 0 <= RulesEnd(d, t, rulenumber) <= |raw| && code == frame + raw[..RulesEnd(d, t, rulenumber)]
      {
        positions := positions + [|code|];
        EmitPattern(rs, rs[rulenumber], false, NOINST, FULLSET);
        var _ := AddInstruction(IRet, 0);
        RulesStep(d, t, rulenumber);
        Regroup(frame + raw[..RulesEnd(d, t, rulenumber)], RuleCode(d, rs, rulenumber), Plain(IRet, 0));
        Regroup(frame, raw[..RulesEnd(d, t, rulenumber)], RuleCode(d, rs, rulenumber) + Plain(IRet, 0));
      }
      RulesStop(d, t);
      JumpToHere(jumptoend);
      GrammarBuilt(old(code), raw);
      CorrectCalls(positions, start, t);
      GrammarCodeIs(d, g, t);
      ghost var body := Correct(raw, inner, 0);
      assert |body| == |raw|;
      Regroup(old(code), Jump(ICall, 4) + Jump(IJmp, 2 + |body|), body);
      Regroup(old(code), Jump(ICall, 4), Jump(IJmp, 2 + |body|));
    }

    /** The case of peephole for instructions with labels. */
    method Relabel(i: int)
      requires Sealed(code) && 0 <= i < |code| && code[i].Inst? && HasLabel(code[i].op)
      modifies this
      ensures Improved(old(code), code, i)
      ensures i + 1 < |code| && code[i] == old(code)[i] && code[i + 1].Offset?
    {
      assert LabelInside(code, i);
      assert JumpsEnd(code, Target(code, i));
      var ft := FinalTarget(Target(code, i));
      RelabelImproves(code, i, ft);
      JumpToThere(i, ft);
    }

    /** One round of the loop of peephole. */
    method PeepholeAt(i: int)
      requires Sealed(code) && 0 <= i < |code| && code[i].Inst?
      modifies this
      ensures Improved(old(code), code, i)
    {
      hide SameMatches, Leads, JumpsEnd, Hops;
      assert LabelInside(code, i);
      if !HasLabel(code[i].op) {
        SameMatchesSelf(code);
      } else if code[i].op != IJmp {
        Relabel(i);
      } else {
        assert JumpsEnd(code, i);
        var ft := FinalTarget(i);
        LeadsInside(code, i, ft);
        assert LabelInside(code, ft);
        if IsOp(code[ft], UNCONDITIONAL) {
          code := code[i := code[ft]][i + 1 := Inst(IAny, 0, 0)];
          ReplaceImproves(old(code), code, i, ft);
        } else if IsOp(code[ft], COMMITS) {
          assert JumpsEnd(code, Target(code, ft));
          var fft := FinalTarget(Target(code, ft));
          LeadsInside(code, Target(code, ft), fft);
          code := code[i := code[ft]];
          JumpToThere(i, fft);
          ReplaceImproves(old(code), code, i, ft);
          ghost var once := code;
          Relabel(i);
          ImprovedTwice(old(code), once, code, i);
        } else {
          LeadsFromTarget(code, i, ft);
          RelabelImproves(code, i, ft);
          JumpToThere(i, ft);
        }
      }
    }

    /** peephole: every match stays as it was, and no label leads to a jump any more. */
    method Peephole()
      requires Sealed(code) && Laid(code)
      modifies this
      ensures |code| == |old(code)| && SameMatches(old(code), code)
      ensures forall q {:trigger LabelFinal(code, q)} :: 0 <= q < |code| ==> LabelFinal(code, q)
    {
      hide SameMatches, Sealed;
      SameMatchesSelf(code);
      var i := 0;
      while i < |code|
        invariant 0 <= i <= |code| == |old(code)| && Sealed(code) && SameMatches(old(code), code)
        invariant i < |code| ==> code[i].Inst?
        invariant forall q {:trigger LaidSlot(code, q)} :: i <= q < |code| ==> LaidSlot(code, q)
        invariant forall q {:trigger LabelFinal(code, q)} :: 0 <= q < i ==> LabelFinal(code, q)
      {
        ghost var before := code;
        assert LaidSlot(before, i);
        PeepholeAt(i);
        SameMatchesTwice(old(code), before, code);
        StaysFinal(before, code, i);
        StaysLaid(before, code, i);
        i := i + SizeI(code[i].op);
      }
    }

    /** compile */
    method Compile(t: Tree)
      requires WellMade(d, [], t) && Untangled(d, [], t) && code == []
      modifies this
      ensures Implements(code, t)
    {
      EmitPattern([], t, false, NOINST, FULLSET);
      NoTestBefore([]);
      ghost var gen := Gen(d, [], t, false, NoTest, FULLSET);
      assert code == gen;
      var _ := AddInstruction(IEnd, 0);
      GenImplements(d, t);
      GenSealed(d, t);
      Peephole();
    }
  }

  /** The result of the machine for an outcome of a pattern. */
  function ResultOf(out: Outcome): State
    requires out != NoFuel
  {
    match out
    case Ok(j) => Matched(j)
    case Fail => NoMatch
  }

  /** With f units of fuel, the pattern has the outcome r at position i. */
  ghost predicate Gives(t: Tree, s: Subject, i: nat, f: nat, r: State) {
    i <= |s| && Eval([], t, s, i, f) != NoFuel && r == ResultOf(Eval([], t, s, i, f))
  }

  /** Running code from any position of any subject gives what the pattern means there. */
  ghost predicate Implements(code: Code, t: Tree) {
    forall s: Subject, i: nat, f: nat, r: State :: Gives(t, s, i, f, r) ==> Yields(code, s, Start(i), r)
  }

  /** The generated code, before it is optimised, implements its pattern. */
  lemma GenImplements(d: nat, t: Tree)
    requires WellMade(d, [], t)
    ensures Implements(Gen(d, [], t, false, NoTest, FULLSET) + Plain(IEnd, 0), t)
  {
    hide Gen;
    var gen := Gen(d, [], t, false, NoTest, FULLSET);
    var code := gen + Plain(IEnd, 0);
    NothingPending(d, t);
    assert CodeAt(code, 0, gen, []);
    forall s: Subject, i: nat, f: nat, r: State | Gives(t, s, i, f, r)
      ensures Yields(code, s, Start(i), r)
    {
      GenMatches(Context(d, code, s, [], [], r), gen, t, i, f);
    }
  }

  lemma GenMatches(x: Context, gen: Code, t: Tree, i: nat, f: nat)
    requires x.g == [] && x.positions == [] && WellMade(x.d, [], t) && i <= |x.s|
    requires gen == Gen(x.d, [], t, false, NoTest, FULLSET) && x.code == gen + Plain(IEnd, 0) && x.At(0, gen)
    requires Eval([], t, x.s, i, f) != NoFuel && x.r == ResultOf(Eval([], t, x.s, i, f))
    ensures x.Ends(Start(i))
  {
    hide Gen, CodeAt, WellMade;
    var stack := Start(i).stack;
    var out := Eval([], t, x.s, i, f);
    assert x.code[|gen|] == Inst(IEnd, 0, 0);
    var last := if out.Ok? then Matched(out.pos) else NoMatch;
    assert RunN(x.code, x.s, last, 0) == last;
    if out.Ok? { Back(x, Run(|gen|, out.pos, stack)); } else { Back(x, Run(GIVEUP, i, Empty)); }
    GenCorrect(x, 0, t, false, NoTest, FULLSET, i, stack, f);
  }

  /** Outside of a grammar no call is left open. */
  lemma NothingPending(d: nat, t: Tree)
    requires WellMade(d, [], t)
    ensures var gen := Gen(d, [], t, false, NoTest, FULLSET); forall q :: 0 <= q < |gen| ==> !Pending(gen[q])
    ensures Laid(Gen(d, [], t, false, NoTest, FULLSET) + Plain(IEnd, 0))
  {
    hide Gen;
    var gen := Gen(d, [], t, false, NoTest, FULLSET);
    NothingProper(d, t);
    ProperSlots(gen);
    ProperPlain(IEnd, 0, {});
    ProperParts(gen, Plain(IEnd, 0), {});
  }

  lemma NothingProper(d: nat, t: Tree)
    requires WellMade(d, [], t)
    ensures Proper(Gen(d, [], t, false, NoTest, FULLSET), {})
  {
    forall k: nat ensures !Calls(t, k) { if Calls(t, k) { WellMadeCalls(d, [], t, k); } }
    GenProper(d, [], t, false, NoTest, FULLSET, {});
  }

  lemma ProperSlots(gen: Code)
    requires Proper(gen, {})
    ensures forall q :: 0 <= q < |gen| ==> !Pending(gen[q])
  {
    forall q | 0 <= q < |gen| ensures !Pending(gen[q]) { assert LaidSlot(gen, q); }
  }

  lemma GenSealed(d: nat, t: Tree)
    requires WellMade(d, [], t) && Untangled(d, [], t)
    ensures var code := Gen(d, [], t, false, NoTest, FULLSET) + Plain(IEnd, 0); Sealed(code) && Laid(code)
  {
    NothingPending(d, t);
    GenThreaded(d, [], t, false, NoTest, FULLSET);
    hide Gen, Threaded, Sealed, Laid;
    EndSeals(Gen(d, [], t, false, NoTest, FULLSET));
  }

  lemma EndSeals(gen: Code)
    requires Threaded(gen, 0)
    ensures Sealed(gen + Plain(IEnd, 0))
  {
    ThreadedMore(gen, 0, 1);
    PlainThreaded(IEnd, 0, 0);
    ThreadedParts(gen, Plain(IEnd, 0), 0);
    var code := gen + Plain(IEnd, 0);
    forall q | 0 <= q < |code| ensures LabelInside(code, q) {
      if q < |gen| { assert LabelFits(gen, q, 0); }
    }
  }

  /** Matching the pattern at position i comes to an end. */
  ghost predicate Decided(t: Tree, s: Subject, i: nat) {
    i <= |s| && exists f: nat :: Eval([], t, s, i, f) != NoFuel
  }

  /** Compiling any untangled pattern and running the machine on any subject from any position at
      which the pattern is decided halts, and succeeds at j exactly when the pattern means success
      at j. */
  method CompileAndMatch(d: nat, t: Tree, s: Subject, i: nat) returns (r: State)
    requires WellMade(d, [], t) && Untangled(d, [], t) && Decided(t, s, i)
    ensures exists f: nat :: Gives(t, s, i, f, r)
  {
    var state := new CompileState(d);
    state.Compile(t);
    ghost var f: nat :| Eval([], t, s, i, f) != NoFuel;
    ghost var r' := ResultOf(Eval([], t, s, i, f));
    assert Gives(t, s, i, f, r');
    ghost var n: nat :| RunN(state.code, s, Start(i), n) == r';
    r := Match(state.code, s, i, n);
    YieldsUnique(state.code, s, Start(i), r, r');
  }

  /** A strictly accepted pattern with layered look-behinds is untangled and decided everywhere. */
  method CompileAccepted(d: nat, t: Tree, s: Subject, i: nat) returns (r: State)
    requires WellMade(d, [], t) && Accepted(t, d, true) && LayeredBehinds(t)
    requires i <= |s|
    ensures exists f: nat :: Gives(t, s, i, f, r)
  {
    LayeredUntangled(d, [], t);
    AcceptedTerminates(t, d, s, i);
    r := CompileAndMatch(d, t, s, i);
  }

  /** Where the pattern is decided, its code has one result: the pattern's. */
  lemma ExactlyWhatItMeans(t: Tree, code: Code, s: Subject, i: nat, r: State)
    requires Implements(code, t) && Decided(t, s, i)
    ensures Yields(code, s, Start(i), r) <==> exists f: nat :: Gives(t, s, i, f, r)
  {
    var f: nat :| Eval([], t, s, i, f) != NoFuel;
    var r' := ResultOf(Eval([], t, s, i, f));
    assert Gives(t, s, i, f, r');
    if Yields(code, s, Start(i), r) { YieldsUnique(code, s, Start(i), r, r'); }
  }

  lemma SameMatchesSelf(c: Code)
    ensures SameMatches(c, c)
  {
  }

  lemma LeadsFromTarget(c: Code, i: int, ft: int)
    requires IsJmp(c, i) && Leads(c, i, ft) && !IsJmp(c, ft)
    ensures Leads(c, Target(c, i), ft)
  {
    LeadsOn(c, i, ft);
  }

  lemma StaysFinal(c: Code, c': Code, i: int)
    requires Improved(c, c', i) && LaidSlot(c, i)
    requires forall q {:trigger LabelFinal(c, q)} :: 0 <= q < i ==> LabelFinal(c, q)
    ensures forall q {:trigger LabelFinal(c', q)} :: 0 <= q < i + SizeI(c'[i].op) && q < |c'| ==> LabelFinal(c', q)
  {
    forall q | 0 <= q < i + SizeI(c'[i].op) && q < |c'| ensures LabelFinal(c', q) {
      if q < i { assert LabelFinal(c, q); }
    }
  }

  lemma StaysLaid(c: Code, c': Code, i: int)
    requires Improved(c, c', i)
    requires forall q {:trigger LaidSlot(c, q)} :: i <= q < |c| ==> LaidSlot(c, q)
    ensures var next := i + SizeI(c'[i].op);
      && next <= |c'| && (next < |c'| ==> c'[next].Inst?)
      && (forall q {:trigger LaidSlot(c', q)} :: next <= q < |c'| ==> LaidSlot(c', q))
  {
    assert LaidSlot(c, i);
    var next := i + SizeI(c'[i].op);
    forall q | next <= q < |c'| ensures LaidSlot(c', q) {
      assert LaidSlot(c, q);
    }
  }

  // ----- the rules of a grammar, one after another -----

  /** Where rule k begins, counted from the first. */
  ghost function RulesEnd(d: nat, gr: Tree, k: nat): int
    requires gr.Grammar? && k <= |gr.rules|
  {
    |GenRules(d, gr, 0)| - |GenRules(d, gr, k)|
  }

  lemma RulesBegin(d: nat, gr: Tree)
    requires gr.Grammar?
    ensures RulesEnd(d, gr, 0) == 0
  {
  }

  lemma RulesStop(d: nat, gr: Tree)
    requires gr.Grammar?
    ensures RulesEnd(d, gr, |gr.rules|) == |GenRules(d, gr, 0)|
  {
  }

  lemma RulesStep(d: nat, gr: Tree, k: nat)
    requires gr.Grammar? && k < |gr.rules|
    ensures 0 <= RulesEnd(d, gr, k) <= RulesEnd(d, gr, k + 1) <= |GenRules(d, gr, 0)|
    ensures var raw := GenRules(d, gr, 0);
            raw[..RulesEnd(d, gr, k + 1)]
            == raw[..RulesEnd(d, gr, k)] + (RuleCode(d, gr.rules, k) + Plain(IRet, 0))
  {
    RulesSuffix(d, gr, k);
    RulesSuffix(d, gr, k + 1);
    var raw := GenRules(d, gr, 0);
    var rest := GenRules(d, gr, k + 1);
    var one := RuleCode(d, gr.rules, k) + Plain(IRet, 0);
    assert GenRules(d, gr, k) == one + rest;
    assert raw == raw[..RulesEnd(d, gr, k)] + (one + rest);
  }

  /** While calls are being corrected, from address i on nothing has changed yet. */
  ghost predicate SameFrom(raw: Code, cur: Code, i: int) {
    0 <= i && Keeps(raw, cur) && forall q :: i <= q < |raw| ==> cur[q] == raw[q]
  }

  lemma NothingSettled(raw: Code)
    ensures SameFrom(raw, raw, 0)
  {
  }

  lemma SameFurther(raw: Code, cur: Code, i: int, j: int)
    requires SameFrom(raw, cur, i) && i <= j
    ensures SameFrom(raw, cur, j)
  {
  }

  lemma OneSettled(raw: Code, cur: Code, positions: seq<int>, i: int)
    requires SameFrom(raw, cur, i) && Correctable(cur, positions, i) && i < |cur| && IsOpenCall(cur[i])
    ensures i + 1 < |cur| && SameFrom(raw, CorrectOne(cur, positions, i), i + 2)
  {
    CorrectOneStep(cur, positions, i);
    KeepsTwice(raw, cur, CorrectOne(cur, positions, i));
  }

  lemma TurnsHere(raw: Code, cur: Code, i: int)
    requires SameFrom(raw, cur, i) && Ready(raw) && i < |cur| && IsOpenCall(cur[i])
    ensures Turns(cur, i + 2)
  {
    assert IsOpenCall(raw[i]);
    TurnsStill(raw, cur, i + 2);
  }

  /** After other code the jumps end all the same; */
  lemma TurnsAfter(a: Code, cur: Code, p: int)
    requires Turns(cur, p)
    ensures JumpsEnd(a + cur, |a| + p)
  {
    var z :| TurnsAt(cur, p, z);
    LeadsIn(a + cur, |a|, cur, p, z);
    var n: nat :| Hops(a + cur, |a| + p, n) == |a| + z;
  }

  /** and the target found says whether the jumps lead to a return. */
  lemma TargetTells(a: Code, cur: Code, p: int, ft: int)
    requires Turns(cur, p) && !IsJmp(a + cur, ft) && Leads(a + cur, |a| + p, ft)
    ensures IsRet(a + cur, ft) <==> LeadsToRet(cur, p)
  {
    var z :| TurnsAt(cur, p, z);
    RetOnly(cur, p, z);
    LeadsIn(a + cur, |a|, cur, p, z);
    RetOnly(a + cur, |a| + p, |a| + z);
    RetOnly(a + cur, |a| + p, ft);
  }

  lemma CorrectableHere(cur: Code, positions: seq<int>, i: int)
    requires Correctable(cur, positions, i) && i < |cur|
    ensures cur[i].Inst? && (IsOpenCall(cur[i]) ==> cur[i].key < |positions|)
  {
  }

  lemma CorrectDone(cur: Code, positions: seq<int>, i: int)
    requires i == |cur|
    ensures Correct(cur, positions, i) == cur
  {
  }

  lemma {:induction false} HopsOneMore(c: Code, x: int, k: nat)
    requires IsJmp(c, Hops(c, x, k))
    ensures Hops(c, x, k + 1) == Target(c, Hops(c, x, k))
    decreases k
  {
    if k > 0 { HopsOneMore(c, Target(c, x), k - 1); }
  }

  lemma NoTestBefore(c: Code)
    ensures TestAt(c, NOINST) == NoTest
  {
  }
}

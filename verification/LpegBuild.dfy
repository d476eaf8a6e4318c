/** Code under construction: instructions are appended with room for an offset, and the
    offset is patched in once the target is known. These lemmas say that the patched code is
    the generated code. */
module LpegBuild {
  import opened LpegSyntax
  import opened LpegAnalysis
  import opened LpegMachine
  import opened LpegCodegen

  /** addoffsetinst, before the offset is set */
  function Open(op: Opcode): (c: Code)
    ensures |c| == 2
  {
    [Inst(op, 0, 0), Room]
  }

  /** codetestset, before the offset is set */
  ghost function OpenTest(f: First): (c: Code)
    ensures |c| == TestSize(f.cs, f.empty)
  {
    if f.empty then [] else CodeTest(f.cs, false, 0)[1 := Room]
  }

  lemma OpenTestIs(f: First)
    requires !f.empty
    ensures OpenTest(f) == match KindOf(f.cs)
                           case NoChar => Open(IJmp)
                           case AllChars => Open(ITestAny)
                           case OneChar(c) => [Inst(ITestChar, c, 0), Room]
                           case SomeChars => Open(ITestSet) + BuffOf(f.cs)
  {
  }

  /** jumptothere: no effect on a missing instruction */
  function Patch(c: Code, i: int, target: int): (r: Code)
    requires i < 0 || i + 1 < |c|
    ensures |r| == |c|
  {
    if i < 0 then c else c[i + 1 := Offset(target - i)]
  }

  /** What the instruction at tt lets the code it protects rely on. */
  ghost function TestAt(c: Code, tt: int): Test {
    if !(0 <= tt < |c|) || !c[tt].Inst? then NoTest
    else if c[tt].op == ITestChar then OnChar(c[tt].aux)
    else if c[tt].op == ITestSet && tt + 2 < |c| && c[tt + 2].Buff? then OnSet(c[tt + 2].cs)
    else NoTest
  }

  /** tt is no instruction, or a complete one. */
  predicate TestReady(c: Code, tt: int) {
    tt < 0 || (tt < |c| && c[tt].Inst? && (c[tt].op == ITestSet ==> tt + 2 < |c| && c[tt + 2].Buff?))
  }

  lemma TestAtOpen(a: Code, f: First, b: Code)
    ensures var (c, tt) := (a + OpenTest(f) + b, if f.empty then -1 else |a|);
            TestReady(c, tt) && TestAt(c, tt) == TestFor(f.cs, f.empty)
  {
    var c := a + OpenTest(f) + b;
    if !f.empty {
      assert c[|a|] == OpenTest(f)[0];
      if KindOf(f.cs) == SomeChars { assert c[|a| + 2] == OpenTest(f)[2]; }
    }
  }

  lemma Regroup(a: Code, b: Code, c: Code)
    ensures a + b + c == a + (b + c)
  {
  }

  lemma AppendNothing(a: Code)
    ensures a + [] == a
  {
  }

  lemma PatchOpen(a: Code, op: Opcode, b: Code, target: int)
    ensures Patch(a + Open(op) + b, |a|, target) == a + Jump(op, target - |a|) + b
  {
  }

  lemma PatchTest(a: Code, f: First, b: Code, target: int)
    ensures Patch(a + OpenTest(f) + b, if f.empty then -1 else |a|, target)
            == a + CodeTest(f.cs, f.empty, target - |a|) + b
  {
  }

  /** The pieces of a full choice, patched in the order of codechoice. */
  lemma FullChoiceBuilt(a: Code, f: First, c1: Code, c2: Code)
    ensures
      var (test, pchoice) := (if f.empty then -1 else |a|, |a + OpenTest(f)|);
      var pcommit := pchoice + 2 + |c1|;
      var s0 := a + OpenTest(f) + Open(IChoice) + c1 + Open(ICommit);
      var s1 := Patch(Patch(s0, pchoice, |s0|), test, |s0|) + c2;
      Patch(s1, pcommit, |s1|) == a + FullChoice(f, c1, c2)
  {
    hide OpenTest, CodeTest, Patch, TestSize, Jump, Open;
    var n := TestSize(f.cs, f.empty);
    var b := c1 + Open(ICommit);
    var s0 := a + OpenTest(f) + Open(IChoice) + c1 + Open(ICommit);
    assert s0 == (a + OpenTest(f)) + Open(IChoice) + b;
    PatchOpen(a + OpenTest(f), IChoice, b, |s0|);
    var j1 := Jump(IChoice, 2 + |c1| + 2);
    assert (a + OpenTest(f)) + j1 + b == a + OpenTest(f) + (j1 + b);
    PatchTest(a, f, j1 + b, |s0|);
    var t := CodeTest(f.cs, f.empty, n + 2 + |c1| + 2);
    var s1 := a + t + (j1 + b) + c2;
    assert s1 == (a + t + j1 + c1) + Open(ICommit) + c2;
    PatchOpen(a + t + j1 + c1, ICommit, c2, |s1|);
    assert (a + t + j1 + c1) + Jump(ICommit, 2 + |c2|) + c2 == a + (t + j1 + c1 + Jump(ICommit, 2 + |c2|) + c2);
  }

  /** A test-decided choice, patched in the order of codechoice. */
  lemma TestedChoiceBuilt(a: Code, cs: Charset, c1: Code, empty: bool, c2: Code)
    ensures
      var f := First(cs, false);
      var jmp := if empty then -1 else |a + OpenTest(f) + c1|;
      var s0 := a + OpenTest(f) + c1 + if empty then [] else Open(IJmp);
      var s1 := Patch(s0, |a|, |s0|) + c2;
      Patch(s1, jmp, |s1|) == a + TestedChoice(cs, c1, empty, c2)
  {
    var f := First(cs, false);
    var open := if empty then [] else Open(IJmp);
    var jmp := if empty then [] else Jump(IJmp, 2 + |c2|);
    var s0 := a + OpenTest(f) + c1 + open;
    var t := CodeTest(cs, false, TestSize(cs, false) + |c1| + |jmp|);
    var s1 := a + t + (c1 + open) + c2;
    assert |jmp| == |open| && Patch(s1, -1, |s1|) == s1 by { hide OpenTest, CodeTest, TestSize; }
    hide OpenTest, CodeTest, Patch, TestSize, Jump, Open;
    assert s0 == a + OpenTest(f) + (c1 + open);
    PatchTest(a, f, c1 + open, |s0|);
    if empty {
      assert s1 == a + (t + c1 + jmp + c2);
    } else {
      assert s1 == (a + t + c1) + Open(IJmp) + c2;
      PatchOpen(a + t + c1, IJmp, c2, |s1|);
      assert (a + t + c1) + jmp + c2 == a + (t + c1 + jmp + c2);
    }
  }

  lemma TestedRepBuilt(a: Code, cs: Charset, c: Code)
    ensures
      var f := First(cs, false);
      var s0 := a + OpenTest(f) + c + Open(IJmp);
      Patch(Patch(s0, |a|, |s0|), |a + OpenTest(f) + c|, |a|) == a + TestedRep(cs, c)
  {
    hide OpenTest, CodeTest, Patch, TestSize, Jump, Open;
    var f := First(cs, false);
    var n := TestSize(cs, false) + |c|;
    var s0 := a + OpenTest(f) + c + Open(IJmp);
    var t := CodeTest(cs, false, n + 2);
    assert s0 == a + OpenTest(f) + (c + Open(IJmp));
    PatchTest(a, f, c + Open(IJmp), |s0|);
    assert a + t + (c + Open(IJmp)) == (a + t + c) + Open(IJmp) + [];
    PatchOpen(a + t + c, IJmp, [], |a|);
    assert (a + t + c) + Jump(IJmp, -n) + [] == a + (t + c + Jump(IJmp, -n));
  }

  /** A repetition, patched in the order of coderep; with opt, the entering instruction has
      its offset at once. */
  lemma FullRepBuilt(a: Code, f: First, opt: bool, c: Code)
    ensures
      var (test, enter) := (if f.empty then -1 else |a|, |a + OpenTest(f)|);
      var s0 := a + OpenTest(f) + (if opt then Jump(IPartialCommit, 2) else Open(IChoice)) + c + Open(IPartialCommit);
      var s1 := Patch(s0, enter + 2 + |c|, enter + 2);
      Patch(Patch(s1, if opt then -1 else enter, |s1|), test, |s1|) == a + FullRep(f, opt, c)
  {
    var open := if opt then Jump(IPartialCommit, 2) else Open(IChoice);
    var s0 := a + OpenTest(f) + open + c + Open(IPartialCommit);
    var enter := EnterRep(opt, c);
    var back := Jump(IPartialCommit, -|c|);
    var s1 := (a + OpenTest(f) + open + c) + back + [];
    var t := CodeTest(f.cs, f.empty, TestSize(f.cs, f.empty) + 2 + |c| + 2);
    assert Patch(s1, -1, |s1|) == s1 && (opt ==> enter == open);
    hide OpenTest, CodeTest, Patch, TestSize, Jump, Open, EnterRep;
    AppendNothing(s0);
    PatchOpen(a + OpenTest(f) + open + c, IPartialCommit, [], |a + OpenTest(f)| + 2);
    AppendNothing((a + OpenTest(f) + open + c) + back);
    Regroup(a + OpenTest(f) + open, c, back);
    FullRepEnter(a + OpenTest(f), opt, c, back, |s1|);
    Regroup(a + OpenTest(f), enter, c + back);
    PatchTest(a, f, enter + (c + back), |s1|);
    Regroup(a, t, enter + (c + back));
    Regroup(t, enter, c + back);
    Regroup(t + enter, c, back);
  }

  lemma FullRepEnter(a: Code, opt: bool, c: Code, back: Code, target: int)
    requires target == |a| + 2 + |c| + 2
    ensures var open := if opt then Jump(IPartialCommit, 2) else Open(IChoice);
            Patch(a + open + (c + back), if opt then -1 else |a|, target) == a + EnterRep(opt, c) + (c + back)
  {
    if !opt { PatchOpen(a, IChoice, c + back, target); }
  }

  lemma FullNotBuilt(a: Code, f: First, c: Code)
    ensures
      var (test, pchoice) := (if f.empty then -1 else |a|, |a + OpenTest(f)|);
      var s0 := a + OpenTest(f) + Open(IChoice) + c + Plain(IFailTwice, 0);
      Patch(Patch(s0, pchoice, |s0|), test, |s0|) == a + FullNot(f, c)
  {
    hide OpenTest, CodeTest, Patch, TestSize, Jump, Open;
    var b := c + Plain(IFailTwice, 0);
    var s0 := a + OpenTest(f) + Open(IChoice) + c + Plain(IFailTwice, 0);
    var choice := Jump(IChoice, 2 + |c| + 1);
    assert s0 == (a + OpenTest(f)) + Open(IChoice) + b;
    PatchOpen(a + OpenTest(f), IChoice, b, |s0|);
    assert (a + OpenTest(f)) + choice + b == a + OpenTest(f) + (choice + b);
    PatchTest(a, f, choice + b, |s0|);
    var t := CodeTest(f.cs, f.empty, TestSize(f.cs, f.empty) + 2 + |c| + 1);
    assert a + t + (choice + b) == a + (t + choice + c + Plain(IFailTwice, 0));
  }

  lemma FullAndBuilt(a: Code, c: Code)
    ensures
      var s0 := a + Open(IChoice) + c + Open(IBackCommit);
      var s1 := Patch(s0, |a|, |s0|) + Plain(IFail, 0);
      Patch(s1, |a| + 2 + |c|, |s1|) == a + FullAnd(c)
  {
    hide Patch, Jump, Open;
    var s0 := a + Open(IChoice) + c + Open(IBackCommit);
    var choice := Jump(IChoice, 2 + |c| + 2);
    assert s0 == a + Open(IChoice) + (c + Open(IBackCommit));
    PatchOpen(a, IChoice, c + Open(IBackCommit), |s0|);
    var s1 := a + choice + (c + Open(IBackCommit)) + Plain(IFail, 0);
    assert s1 == (a + choice + c) + Open(IBackCommit) + Plain(IFail, 0);
    PatchOpen(a + choice + c, IBackCommit, Plain(IFail, 0), |s1|);
    assert (a + choice + c) + Jump(IBackCommit, 3) + Plain(IFail, 0)
        == a + (choice + c + Jump(IBackCommit, 3) + Plain(IFail, 0));
  }

  /** The frame of a grammar around the code of its rules. */
  lemma GrammarBuilt(a: Code, raw: Code)
    ensures
      var s0 := Patch(a + Open(ICall) + Open(IJmp), |a|, |a| + 4) + raw;
      Patch(s0, |a| + 2, |s0|) == a + Jump(ICall, 4) + Jump(IJmp, 2 + |raw|) + raw
  {
    PatchOpen(a, ICall, Open(IJmp), |a| + 4);
    PatchOpen(a + Jump(ICall, 4), IJmp, raw, |a| + 4 + |raw|);
    assert (a + Jump(ICall, 4)) + Open(IJmp) + raw == a + Jump(ICall, 4) + Open(IJmp) + raw;
  }
}

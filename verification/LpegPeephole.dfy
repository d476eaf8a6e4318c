/** The jump optimisations of skynet/3rd/lpeg/lpcode.c (finaltarget, finallabel, peephole):
    each rewriting of an instruction keeps every result of the matching machine. */
module LpegPeephole {
  import opened LpegSyntax
  import opened LpegMachine
  import opened LpegCodegen

  /** Following jumps from x leads through y. */
  ghost predicate Leads(code: Code, x: int, y: int) {
    exists n: nat :: Hops(code, x, n) == y
  }

  /** Every match of code is also a match of code', with the same result. */
  ghost predicate SameMatches(code: Code, code': Code) {
    forall s: Subject, i: nat, r: State :: Yields(code, s, Start(i), r) ==> Yields(code', s, Start(i), r)
  }

  predicate IsOp(slot: Slot, ops: set<Opcode>) { slot.Inst? && slot.op in ops }

  const UNCONDITIONAL: set<Opcode> := {IRet, IFail, IFailTwice, IEnd}
  const COMMITS: set<Opcode> := {ICommit, IPartialCommit, IBackCommit}

  // ----- the rewritings -----

  /** code' is code with the label of the instruction at i moved on along jumps. */
  ghost predicate Relabelled(code: Code, code': Code, i: int) {
    && 0 <= i && i + 1 < |code| == |code'|
    && code[i].Inst? && HasLabel(code[i].op) && code[i + 1].Offset? && code'[i + 1].Offset?
    && code'[i] == code[i] && Leads(code, Target(code, i), Target(code', i))
  }

  /** The jump at i leads to the instruction at ft, which replaces it. */
  ghost predicate Replaced(code: Code, code': Code, i: int, ft: int) {
    && 0 <= i && i + 1 < |code| == |code'| && 0 <= ft < |code|
    && IsJmp(code, i) && Leads(code, i, ft) && code'[i] == code[ft]
    && (|| IsOp(code[ft], UNCONDITIONAL)
        || (&& IsOp(code[ft], COMMITS) && ft + 1 < |code| && code[ft + 1].Offset? && code'[i + 1].Offset?
            && Leads(code, Target(code, ft), Target(code', i))))
  }

  /** code' differs from code in one such rewriting. */
  ghost predicate Rewritten(code: Code, code': Code, i: int) {
    && |code| == |code'|
    && (forall q :: 0 <= q < |code| && q != i && q != i + 1 ==> code'[q] == code[q])
    && (Relabelled(code, code', i) || exists ft :: Replaced(code, code', i, ft))
  }

  // ----- the simulation -----

  ghost predicate SameStacks(code: Code, a: Stack, b: Stack) {
    match (a, b)
    case (Empty, Empty) => true
    case (Push(Return(p), x), Push(Return(q), y)) => Leads(code, p, q) && SameStacks(code, x, y)
    case (Push(Alt(i, p), x), Push(Alt(j, q), y)) => i == j && Leads(code, p, q) && SameStacks(code, x, y)
    case _ => false
  }

  /** The states agree, except that b may be further along jumps of code. */
  ghost predicate SameStates(code: Code, a: State, b: State) {
    match (a, b)
    case (Run(p, i, x), Run(q, j, y)) => i == j && Leads(code, p, q) && SameStacks(code, x, y)
    case _ => a == b
  }

  lemma LeadsSelf(code: Code, x: int)
    ensures Leads(code, x, x)
  {
    assert Hops(code, x, 0) == x;
  }

  lemma {:induction false} StackSelf(code: Code, a: Stack)
    ensures SameStacks(code, a, a)
  {
    if a.Push? {
      LeadsSelf(code, a.top.p);
      StackSelf(code, a.rest);
    }
  }

  lemma {:induction false} SameFailure(code: Code, a: Stack, b: Stack)
    requires SameStacks(code, a, b)
    ensures SameStates(code, FailTo(a), FailTo(b))
  {
    if a.Push? && a.top.Return? { SameFailure(code, a.rest, b.rest); }
  }

  /** Away from the rewritten instruction, both codes make the same step. */
  lemma SameStep(code: Code, code': Code, i: int, s: Subject, a: State, b: State)
    requires Rewritten(code, code', i) && a.Run? && SameStates(code, a, b) && a.p == b.p && a.p != i
    requires Step(code, s, a) != Stuck
    ensures SameStates(code, Step(code, s, a), Step(code', s, b))
  {
    var p := a.p;
    assert p != GIVEUP ==> Readable(code, p) && SameSlots(code, code', p);
    hide Rewritten;
    SameFailure(code, a.stack, b.stack);
    if b.stack.Push? { SameFailure(code, a.stack.rest, b.stack.rest); }
    if p != GIVEUP { SameInstruction(code, code', p, s, a.s, a.stack, b.stack); }
  }

  /** Both codes have the same instruction at p, with the same operands. */
  predicate SameSlots(code: Code, code': Code, p: int)
    requires Readable(code, p)
  {
    && |code'| == |code| && code'[p] == code[p]
    && (HasLabel(code[p].op) || code[p].op in {ISet, ISpan} ==> code'[p + 1] == code[p + 1])
    && (code[p].op == ITestSet ==> code'[p + 2] == code[p + 2])
  }

  lemma SameInstruction(code: Code, code': Code, p: int, s: Subject, j: nat, x: Stack, y: Stack)
    requires p != GIVEUP && Readable(code, p) && SameSlots(code, code', p) && SameStacks(code, x, y)
    requires SameStates(code, FailTo(x), FailTo(y))
    requires y.Push? ==> SameStates(code, FailTo(x.rest), FailTo(y.rest))
    requires Step(code, s, Run(p, j, x)) != Stuck
    ensures SameStates(code, Step(code, s, Run(p, j, x)), Step(code', s, Run(p, j, y)))
  {
    hide Leads, SpanEnd, FailTo;
    LeadsSelf(code, p + 1);
    LeadsSelf(code, p + 2);
    LeadsSelf(code, p + CHARSETINSTSIZE);
    LeadsSelf(code, p + 1 + CHARSETINSTSIZE);
    if HasLabel(code[p].op) { LeadsSelf(code, Target(code, p)); }
  }

  /** A relabelled instruction makes the same step. */
  lemma SameStepRelabelled(code: Code, code': Code, i: int, s: Subject, a: State, b: State)
    requires Relabelled(code, code', i)
    requires (forall q :: 0 <= q < |code| && q != i && q != i + 1 ==> code'[q] == code[q])
    requires a.Run? && SameStates(code, a, b) && a.p == b.p == i
    requires Step(code, s, a) != Stuck
    ensures SameStates(code, Step(code, s, a), Step(code', s, b))
  {
    hide Leads, SpanEnd;
    SameFailure(code, a.stack, b.stack);
    LeadsSelf(code, i + 2);
    LeadsSelf(code, i + 1 + CHARSETINSTSIZE);
  }

  /** The copy of an instruction makes the same step as the instruction. */
  lemma SameStepReplaced(code: Code, code': Code, i: int, ft: int, s: Subject, j: nat, x: Stack, y: Stack)
    requires Replaced(code, code', i, ft) && SameStacks(code, x, y)
    requires Step(code, s, Run(ft, j, x)) != Stuck
    ensures SameStates(code, Step(code, s, Run(ft, j, x)), Step(code', s, Run(i, j, y)))
  {
    hide Leads, SpanEnd, FailTo;
    SameFailure(code, x, y);
    if IsOp(code[ft], UNCONDITIONAL) {
      if y.Push? { SameFailure(code, x.rest, y.rest); }
    } else {
      SameCommit(code, code', i, ft, s, j, x, y);
    }
  }

  lemma SameCommit(code: Code, code': Code, i: int, ft: int, s: Subject, j: nat, x: Stack, y: Stack)
    requires Replaced(code, code', i, ft) && SameStacks(code, x, y) && IsOp(code[ft], COMMITS)
    requires Step(code, s, Run(ft, j, x)) != Stuck
    ensures SameStates(code, Step(code, s, Run(ft, j, x)), Step(code', s, Run(i, j, y)))
  {
    hide Leads, SpanEnd, FailTo, IsJmp;
  }

  /** Running on through jumps takes at least as long. */
  lemma {:induction false} RunAlong(code: Code, s: Subject, p: int, j: nat, x: Stack, k: nat, n: nat) returns (m: nat)
    requires j <= |s| && Decided(RunN(code, s, Run(p, j, x), n))
    ensures m <= n && RunN(code, s, Run(Hops(code, p, k), j, x), m) == RunN(code, s, Run(p, j, x), n)
    decreases k
  {
    if k == 0 || !IsJmp(code, p) {
      m := n;
    } else {
      assert Step(code, s, Run(p, j, x)) == Run(Target(code, p), j, x);
      m := RunAlong(code, s, Target(code, p), j, x, k - 1, n - 1);
    }
  }

  lemma {:induction false} StuckStays(code: Code, s: Subject, n: nat)
    ensures RunN(code, s, Stuck, n) == Stuck
  {
  }

  /** Whatever one code does in n steps, the rewritten code does too. */
  lemma {:induction false} Simulates(code: Code, code': Code, i: int, s: Subject, a: State, b: State, n: nat)
    requires Rewritten(code, code', i) && SameStates(code, a, b)
    requires Decided(RunN(code, s, a, n))
    ensures Yields(code', s, b, RunN(code, s, a, n))
    decreases n
  {
    var r := RunN(code, s, a, n);
    if !Halted(a) { StuckStays(code, s, n - 1); }
    if Halted(a) {
      assert RunN(code', s, b, 0) == r;
    } else if a.p != b.p {
      LeadsOn(code, a.p, b.p);
      Simulates(code, code', i, s, Step(code, s, a), b, n - 1);
    } else if a.p != i {
      SameStep(code, code', i, s, a, b);
      Simulates(code, code', i, s, Step(code, s, a), Step(code', s, b), n - 1);
      YieldsBack(code', s, b, r);
    } else if Relabelled(code, code', i) {
      SameStepRelabelled(code, code', i, s, a, b);
      Simulates(code, code', i, s, Step(code, s, a), Step(code', s, b), n - 1);
      YieldsBack(code', s, b, r);
    } else {
      var ft :| Replaced(code, code', i, ft);
      var k: nat :| Hops(code, i, k) == ft;
      var m := RunAlong(code, s, i, a.s, a.stack, k, n);
      SameStepReplaced(code, code', i, ft, s, a.s, a.stack, b.stack);
      Simulates(code, code', i, s, Step(code, s, Run(ft, a.s, a.stack)), Step(code', s, b), m - 1);
      YieldsBack(code', s, b, r);
    }
  }

  lemma LeadsOn(code: Code, x: int, y: int)
    requires Leads(code, x, y) && x != y
    ensures IsJmp(code, x) && Leads(code, Target(code, x), y)
  {
    var n: nat :| Hops(code, x, n) == y;
    assert Hops(code, Target(code, x), n - 1) == y;
  }

  /** A rewriting keeps every match. */
  lemma RewritingSound(code: Code, code': Code, i: int)
    requires Rewritten(code, code', i)
    ensures SameMatches(code, code')
  {
    forall s: Subject, j: nat, r: State | Yields(code, s, Start(j), r)
      ensures Yields(code', s, Start(j), r)
    {
      var n: nat :| RunN(code, s, Start(j), n) == r;
      LeadsSelf(code, 0);
      StackSelf(code, Start(j).stack);
      Simulates(code, code', i, s, Start(j), Start(j), n);
    }
  }

  // ----- sealed code: all labels lead somewhere inside -----

  ghost predicate LabelInside(code: Code, q: int)
    requires 0 <= q < |code|
  {
    code[q].Inst? && HasLabel(code[q].op) ==>
      q + 1 < |code| && code[q + 1].Offset? && 0 <= Target(code, q) < |code|
  }

  /** Labels point inside the code, and following jumps comes to an end. */
  ghost predicate Sealed(code: Code) {
    && (forall q {:trigger LabelInside(code, q)} :: 0 <= q < |code| ==> LabelInside(code, q))
    && (forall x {:trigger JumpsEnd(code, x)} :: 0 <= x < |code| ==> JumpsEnd(code, x))
  }

  /** The label at q, if any, does not lead to a jump. */
  ghost predicate LabelFinal(code: Code, q: int)
    requires 0 <= q < |code|
  {
    code[q].Inst? && HasLabel(code[q].op) ==>
      q + 1 < |code| && code[q + 1].Offset? && !IsJmp(code, Target(code, q))
  }

  lemma {:induction false} HopsInside(code: Code, x: int, n: nat)
    requires Sealed(code) && 0 <= x < |code|
    ensures 0 <= Hops(code, x, n) < |code|
    decreases n
  {
    if n > 0 && IsJmp(code, x) {
      assert LabelInside(code, x);
      HopsInside(code, Target(code, x), n - 1);
    }
  }

  lemma LeadsInside(code: Code, x: int, y: int)
    requires Sealed(code) && 0 <= x < |code| && Leads(code, x, y)
    ensures 0 <= y < |code|
  {
    var n: nat :| Hops(code, x, n) == y;
    HopsInside(code, x, n);
  }

  /** A rewriting whose own label is final brings no new jumps, and keeps code sealed. */
  lemma RewritingKeepsSealed(code: Code, code': Code, i: int)
    requires Sealed(code) && Rewritten(code, code', i) && 0 <= i && i + 1 < |code|
    requires LabelInside(code', i) && !(code'[i + 1].Inst? && HasLabel(code'[i + 1].op))
    requires IsJmp(code', i) ==> IsJmp(code, i) && !IsJmp(code, Target(code', i))
    ensures Sealed(code')
    ensures forall x :: IsJmp(code', x) ==> IsJmp(code, x)
  {
    assert code[i + 1].Offset?;
    forall x | IsJmp(code', x) ensures IsJmp(code, x) { }
    forall q | 0 <= q < |code'| ensures LabelInside(code', q) { assert LabelInside(code, q); }
    forall x | 0 <= x < |code'| ensures JumpsEnd(code', x) {
      assert JumpsEnd(code, x);
      var n: nat :| !IsJmp(code, Hops(code, x, n));
      JumpsStillEnd(code, code', i, x, n);
    }
  }

  lemma {:induction false} JumpsStillEnd(code: Code, code': Code, i: int, x: int, n: nat)
    requires Rewritten(code, code', i) && !IsJmp(code, Hops(code, x, n))
    requires forall x :: IsJmp(code', x) ==> IsJmp(code, x)
    requires IsJmp(code', i) ==> !IsJmp(code, Target(code', i))
    ensures JumpsEnd(code', x)
    decreases n
  {
    if IsJmp(code', x) {
      if x == i {
        assert !IsJmp(code', Hops(code', x, 1));
      } else {
        JumpsStillEnd(code, code', i, Target(code, x), n - 1);
        var m: nat :| !IsJmp(code', Hops(code', Target(code', x), m));
        assert Hops(code', x, m + 1) == Hops(code', Target(code', x), m);
      }
    } else {
      assert Hops(code', x, 0) == x;
    }
  }

  lemma SameMatchesTwice(a: Code, b: Code, c: Code)
    requires SameMatches(a, b) && SameMatches(b, c)
    ensures SameMatches(a, c)
  {
  }

  /** What one round of peephole does to the instruction at i. */
  ghost predicate Improved(c: Code, c': Code, i: int) {
    && 0 <= i < |c| == |c'| && c[i].Inst? && c'[i].Inst?
    && SameMatches(c, c') && Sealed(c') && LabelFinal(c', i)
    && (forall q :: 0 <= q < |c| && q != i && q != i + 1 ==> c'[q] == c[q])
    && (forall x :: IsJmp(c', x) ==> IsJmp(c, x))
    && (|| (SizeI(c'[i].op) == SizeI(c[i].op) && (i + 1 < |c| ==> c'[i + 1].Inst? == c[i + 1].Inst?))
        || (IsJmp(c, i) && SizeI(c'[i].op) == 1 && c'[i + 1] == Inst(IAny, 0, 0)))
    && (!HasLabel(c[i].op) ==> c' == c)
  }

  /** The label at i moved to the end of its jumps. */
  lemma RelabelImproves(c: Code, i: int, ft: int)
    requires Sealed(c) && 0 <= i < |c| && c[i].Inst? && HasLabel(c[i].op)
    requires LabelInside(c, i) && Leads(c, Target(c, i), ft) && !IsJmp(c, ft)
    ensures Improved(c, c[i + 1 := Offset(ft - i)], i)
  {
    var c' := c[i + 1 := Offset(ft - i)];
    LeadsInside(c, Target(c, i), ft);
    assert Target(c', i) == ft;
    assert Relabelled(c, c', i);
    hide SameMatches;
    RewritingSound(c, c', i);
    RewritingKeepsSealed(c, c', i);
  }

  /** The jump at i replaced by the instruction it leads to. */
  lemma ReplaceImproves(c: Code, c': Code, i: int, ft: int)
    requires Sealed(c) && Replaced(c, c', i, ft) && !IsJmp(c, ft)
    requires forall q :: 0 <= q < |c| && q != i && q != i + 1 ==> c'[q] == c[q]
    requires IsOp(c[ft], COMMITS) ==> 0 <= Target(c', i) < |c| && !IsJmp(c, Target(c', i))
    requires IsOp(c[ft], UNCONDITIONAL) ==> c'[i + 1] == Inst(IAny, 0, 0)
    ensures Improved(c, c', i)
  {
    hide SameMatches;
    RewritingSound(c, c', i);
    RewritingKeepsSealed(c, c', i);
  }

  /** Two rounds on one instruction. */
  lemma ImprovedTwice(a: Code, b: Code, c: Code, i: int)
    requires Improved(a, b, i) && Improved(b, c, i)
    requires HasLabel(a[i].op) && SizeI(b[i].op) == SizeI(a[i].op) && SizeI(c[i].op) == SizeI(b[i].op)
    requires i + 1 < |a| && !b[i + 1].Inst? && !c[i + 1].Inst? && !a[i + 1].Inst?
    ensures Improved(a, c, i)
  {
    SameMatchesTwice(a, b, c);
    hide SameMatches;
  }
}

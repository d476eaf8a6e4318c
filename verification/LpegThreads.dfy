/** The labels of generated code stay inside the code, and following jumps comes to an end, so
    that the loop of finaltarget terminates, exactly when no grammar in the pattern is circular. */
module LpegThreads {
  import opened LpegSyntax
  import opened LpegAnalysis
  import opened LpegGrammar
  import opened LpegMachine
  import opened LpegCodegen
  import opened LpegLayout
  import opened LpegCorrect
  import opened LpegPeephole
  import opened LpegTails
  import opened LpegCircles

  /** The label at q, if there is one, is in place and points from the start of the code to
      at most beyond slots after its end. */
  ghost predicate LabelFits(c: Code, q: int, beyond: nat)
    requires 0 <= q < |c|
  {
    c[q].Inst? && HasLabel(c[q].op) ==>
      q + 1 < |c| && c[q + 1].Offset? && 0 <= Target(c, q) <= |c| + beyond
  }

  ghost predicate Threaded(c: Code, beyond: nat) {
    && (forall q {:trigger LabelFits(c, q, beyond)} :: 0 <= q < |c| ==> LabelFits(c, q, beyond))
    && (forall x {:trigger JumpsEnd(c, x)} :: 0 <= x < |c| ==> JumpsEnd(c, x))
  }

  // ----- jumps in larger code -----

  /** Where the jumps of a part end, the jumps of the whole go on. */
  lemma {:induction false} JumpsEndIn(c: Code, base: nat, a: Code, x: int, n: nat)
    requires Holds(c, base, a) && !IsJmp(a, Hops(a, x, n))
    requires JumpsEnd(c, base + Hops(a, x, n))
    ensures JumpsEnd(c, base + x)
    decreases n
  {
    if n > 0 && IsJmp(a, x) {
      JumpsEndIn(c, base, a, Target(a, x), n - 1);
      JumpOnce(c, base + x);
    }
  }

  lemma JumpOnce(c: Code, x: int)
    requires IsJmp(c, x) ==> JumpsEnd(c, Target(c, x))
    ensures JumpsEnd(c, x)
  {
    if IsJmp(c, x) {
      var n: nat :| !IsJmp(c, Hops(c, Target(c, x), n));
      assert Hops(c, x, n + 1) == Hops(c, Target(c, x), n);
    } else {
      assert Hops(c, x, 0) == x;
    }
  }

  /** The jumps of a threaded part stay in the part until they end, or leave it at its end. */
  lemma {:induction false} LeavesForward(a: Code, beyond: nat, x: int, n: nat)
    requires Threaded(a, beyond) && 0 <= x
    ensures 0 <= Hops(a, x, n)
    decreases n
  {
    if n > 0 && IsJmp(a, x) {
      assert LabelFits(a, x, beyond);
      LeavesForward(a, beyond, Target(a, x), n - 1);
    }
  }

  /** A threaded part, with a tail whose labels and jumps are in order in the whole. */
  lemma ThreadedTail(a: Code, b: Code, beyond: nat)
    requires Threaded(a, |b| + beyond)
    requires forall q {:trigger LabelFits(a + b, q, beyond)} :: |a| <= q < |a + b| ==> LabelFits(a + b, q, beyond)
    requires forall x {:trigger JumpsEnd(a + b, x)} :: |a| <= x ==> JumpsEnd(a + b, x)
    ensures Threaded(a + b, beyond)
  {
    var c := a + b;
    forall q | 0 <= q < |c| ensures LabelFits(c, q, beyond) {
      if q < |a| { assert LabelFits(a, q, |b| + beyond); }
    }
    forall x | 0 <= x < |a| ensures JumpsEnd(c, x) {
      assert JumpsEnd(a, x);
      var n: nat :| !IsJmp(a, Hops(a, x, n));
      LeavesForward(a, |b| + beyond, x, n);
      var y := Hops(a, x, n);
      if y < |a| {
        assert LabelFits(a, y, |b| + beyond);
        JumpOnce(c, y);
      }
      JumpsEndIn(c, 0, a, x, n);
    }
  }

  /** Threaded parts make threaded code. */
  lemma ThreadedParts(a: Code, b: Code, beyond: nat)
    requires Threaded(a, |b| + beyond) && Threaded(b, beyond)
    ensures Threaded(a + b, beyond)
  {
    var c := a + b;
    forall q | |a| <= q < |c| ensures LabelFits(c, q, beyond) { assert LabelFits(b, q - |a|, beyond); }
    forall x | |a| <= x ensures JumpsEnd(c, x) {
      if x < |c| {
        assert JumpsEnd(b, x - |a|);
        var n: nat :| !IsJmp(b, Hops(b, x - |a|, n));
        LeavesForward(b, beyond, x - |a|, n);
        var y := Hops(b, x - |a|, n);
        if y < |b| { assert LabelFits(b, y, beyond); }
        JumpOnce(c, |a| + y);
        JumpsEndIn(c, |a|, b, x - |a|, n);
      } else {
        JumpOnce(c, x);
      }
    }
    ThreadedTail(a, b, beyond);
  }

  lemma ThreadedMore(c: Code, k: nat, m: nat)
    requires Threaded(c, k) && k <= m
    ensures Threaded(c, m)
  {
    forall q | 0 <= q < |c| ensures LabelFits(c, q, m) { assert LabelFits(c, q, k); }
  }

  lemma ThreadedParts3(a: Code, b: Code, c: Code, beyond: nat)
    requires Threaded(a, |b| + |c| + beyond) && Threaded(b, |c| + beyond) && Threaded(c, beyond)
    ensures Threaded(a + b + c, beyond)
  {
    hide Threaded;
    ThreadedParts(a, b, |c| + beyond);
    ThreadedParts(a + b, c, beyond);
  }

  // ----- the pieces -----

  lemma PlainThreaded(op: Opcode, aux: nat, beyond: nat)
    requires !HasLabel(op)
    ensures Threaded(Plain(op, aux), beyond)
  {
    JumpOnce(Plain(op, aux), 0);
  }

  lemma SetThreaded(op: Opcode, cs: Charset, beyond: nat)
    requires !HasLabel(op)
    ensures Threaded(Plain(op, 0) + BuffOf(cs), beyond)
  {
    forall x ensures JumpsEnd(Plain(op, 0) + BuffOf(cs), x) { JumpOnce(Plain(op, 0) + BuffOf(cs), x); }
  }

  lemma JumpThreaded(op: Opcode, off: int, beyond: nat)
    requires 2 <= off <= 2 + beyond
    ensures Threaded(Jump(op, off), beyond)
  {
    forall x ensures JumpsEnd(Jump(op, off), x) {
      JumpOnce(Jump(op, off), off);
      JumpOnce(Jump(op, off), x);
    }
  }

  lemma TestThreaded(cs: Charset, empty: bool, off: int, beyond: nat)
    requires TestSize(cs, empty) <= off <= TestSize(cs, empty) + beyond
    ensures Threaded(CodeTest(cs, empty, off), beyond)
  {
    var c := CodeTest(cs, empty, off);
    forall x ensures JumpsEnd(c, x) {
      JumpOnce(c, off);
      JumpOnce(c, x);
    }
  }

  /** A backward label at the end, on anything but a jump. */
  lemma BackThreaded(a: Code, op: Opcode, off: int, beyond: nat)
    requires Threaded(a, 2 + beyond) && -|a| <= off <= 0 && op != IJmp
    ensures Threaded(a + Jump(op, off), beyond)
  {
    var c := a + Jump(op, off);
    forall x | |a| <= x ensures JumpsEnd(c, x) { JumpOnce(c, x); }
    ThreadedTail(a, Jump(op, off), beyond);
  }

  /** The backward jump of a repetition meets a test, which cannot send it back. */
  lemma TestedRepThreaded(cs: Charset, c: Code)
    requires Threaded(c, 0)
    ensures Threaded(TestedRep(cs, c), 0)
  {
    var n := TestSize(cs, false) + |c|;
    var test := CodeTest(cs, false, n + 2);
    var a := test + c;
    var whole := a + Jump(IJmp, -n);
    TestThreaded(cs, false, n + 2, |c| + 2);
    ThreadedMore(c, 0, 2);
    ThreadedParts(test, c, 2);
    assert whole[0] == test[0] && whole[1] == test[1];
    JumpOnce(whole, n + 2);
    JumpOnce(whole, 0);
    forall x | |a| <= x ensures JumpsEnd(whole, x) { JumpOnce(whole, x); }
    ThreadedTail(a, Jump(IJmp, -n), 0);
  }

  // ----- the ways of assembling code -----

  lemma FullChoiceThreaded(f: First, c1: Code, c2: Code)
    requires Threaded(c1, 0) && Threaded(c2, 0)
    ensures Threaded(FullChoice(f, c1, c2), 0)
  {
    hide Threaded, CodeTest, TestSize;
    var k := TestSize(f.cs, f.empty);
    var (n1, n2) := (|c1|, |c2|);
    var test := CodeTest(f.cs, f.empty, k + 2 + n1 + 2);
    ThreadedMore(c1, 0, 2 + n2);
    TestThreaded(f.cs, f.empty, k + 2 + n1 + 2, 2 + n1 + 2 + n2);
    JumpThreaded(IChoice, 2 + n1 + 2, n1 + 2 + n2);
    JumpThreaded(ICommit, 2 + n2, n2);
    ThreadedParts(test, Jump(IChoice, 2 + n1 + 2), n1 + 2 + n2);
    ThreadedParts3(test + Jump(IChoice, 2 + n1 + 2), c1, Jump(ICommit, 2 + n2), n2);
    ThreadedParts(test + Jump(IChoice, 2 + n1 + 2) + c1 + Jump(ICommit, 2 + n2), c2, 0);
  }

  lemma TestedChoiceThreaded(cs: Charset, empty: bool, c1: Code, c2: Code)
    requires Threaded(c1, 0) && Threaded(c2, 0)
    ensures Threaded(TestedChoice(cs, c1, empty, c2), 0)
  {
    var jmp := if empty then [] else Jump(IJmp, 2 + |c2|);
    assert empty ==> Threaded(jmp, |c2|);
    hide Threaded, CodeTest, TestSize;
    var m := TestSize(cs, false);
    var (n1, n2) := (|c1|, |c2|);
    var test := CodeTest(cs, false, m + n1 + |jmp|);
    TestThreaded(cs, false, m + n1 + |jmp|, n1 + |jmp| + n2);
    if !empty { JumpThreaded(IJmp, 2 + n2, n2); }
    ThreadedMore(c1, 0, |jmp| + n2);
    ThreadedParts3(test, c1, jmp, n2);
    ThreadedParts(test + c1 + jmp, c2, 0);
  }

  lemma SeqThreaded(c1: Code, c2: Code)
    requires Threaded(c1, 0) && Threaded(c2, 0)
    ensures Threaded(c1 + c2, 0)
  {
    hide Threaded;
    ThreadedMore(c1, 0, |c2|);
    ThreadedParts(c1, c2, 0);
  }

  lemma FramedThreaded(body: Code)
    requires Threaded(body, 0) && |body| > 0
    ensures Threaded(GrammarCode(body), 0)
  {
    hide Threaded;
    JumpThreaded(ICall, 4, 2 + |body|);
    JumpThreaded(IJmp, 2 + |body|, |body|);
    ThreadedParts3(Jump(ICall, 4), Jump(IJmp, 2 + |body|), body, 0);
  }

  lemma PartialThreaded(c: Code)
    requires Threaded(c, 0)
    ensures Threaded(Jump(IPartialCommit, 2) + c, 0)
  {
    hide Threaded;
    JumpThreaded(IPartialCommit, 2, |c|);
    ThreadedParts(Jump(IPartialCommit, 2), c, 0);
  }

  lemma FullRepThreaded(f: First, opt: bool, c: Code)
    requires Threaded(c, 0)
    ensures Threaded(FullRep(f, opt, c), 0)
  {
    hide Threaded;
    var k := TestSize(f.cs, f.empty);
    var n := |c|;
    ThreadedMore(c, 0, 2);
    TestThreaded(f.cs, f.empty, k + 2 + n + 2, 2 + n + 2);
    JumpThreaded(IPartialCommit, 2, n + 2);
    JumpThreaded(IChoice, 2 + n + 2, n + 2);
    ThreadedParts3(CodeTest(f.cs, f.empty, k + 2 + n + 2), EnterRep(opt, c), c, 2);
    BackThreaded(CodeTest(f.cs, f.empty, k + 2 + n + 2) + EnterRep(opt, c) + c, IPartialCommit, -n, 0);
  }

  lemma FailNotThreaded(f: First)
    ensures Threaded(CodeTest(f.cs, f.empty, TestSize(f.cs, f.empty) + 1) + Plain(IFail, 0), 0)
  {
    hide Threaded, CodeTest, TestSize;
    var k := TestSize(f.cs, f.empty);
    PlainThreaded(IFail, 0, 0);
    TestThreaded(f.cs, f.empty, k + 1, 1);
    ThreadedParts(CodeTest(f.cs, f.empty, k + 1), Plain(IFail, 0), 0);
  }

  lemma NotThreaded(f: First, c: Code)
    requires Threaded(c, 0)
    ensures Threaded(FullNot(f, c), 0)
  {
    hide Threaded, CodeTest, TestSize;
    var k := TestSize(f.cs, f.empty);
    var n := |c|;
    var test := CodeTest(f.cs, f.empty, k + 2 + n + 1);
    PlainThreaded(IFailTwice, 0, 0);
    TestThreaded(f.cs, f.empty, k + 2 + n + 1, 2 + n + 1);
    JumpThreaded(IChoice, 2 + n + 1, n + 1);
    ThreadedMore(c, 0, 1);
    ThreadedParts3(test, Jump(IChoice, 2 + n + 1), c, 1);
    ThreadedParts(test + Jump(IChoice, 2 + n + 1) + c, Plain(IFailTwice, 0), 0);
  }

  lemma FullAndThreaded(c: Code)
    requires Threaded(c, 0)
    ensures Threaded(FullAnd(c), 0)
  {
    hide Threaded;
    var n := |c|;
    PlainThreaded(IFail, 0, 0);
    JumpThreaded(IChoice, 2 + n + 2, n + 2 + 1);
    JumpThreaded(IBackCommit, 3, 1);
    ThreadedMore(c, 0, 3);
    ThreadedParts3(Jump(IChoice, 2 + n + 2), c, Jump(IBackCommit, 3), 1);
    ThreadedParts(Jump(IChoice, 2 + n + 2) + c + Jump(IBackCommit, 3), Plain(IFail, 0), 0);
  }

  lemma StepBackThreaded(c: Code, m: nat)
    requires Threaded(c, 0)
    ensures Threaded(c + StepBack(m), 0) && Threaded(StepBack(m) + c, 0)
  {
    PlainThreaded(IBehind, m, |c|);
    PlainThreaded(IBehind, m, 0);
    assert Threaded(StepBack(m), 0) && Threaded(StepBack(m), |c|);
    hide Threaded, StepBack;
    ThreadedMore(c, 0, |StepBack(m)|);
    ThreadedParts(c, StepBack(m), 0);
    ThreadedParts(StepBack(m), c, 0);
  }

  // ----- generated code -----

  lemma {:induction false} GenThreaded(d: nat, g: Rules, t: Tree, opt: bool, tt: Test, fl: Charset)
    requires WellMade(d, g, t) && Untangled(d, g, t)
    ensures Threaded(Gen(d, g, t, opt, tt, fl), 0)
    decreases t, 1, 0
  {
    hide Threaded;
    match t
    case Choice(p1, p2) => ChoiceThreaded(d, g, t, opt, fl);
    case Rep(p) =>
      var f := GetFirst(g, p, FULLSET, d);
      if IsCharPattern(p) {
        SetThreaded(ISpan, CharsOf(p), 0);
      } else if TestDecidesRep(d, g, p, fl) {
        GenThreaded(d, g, p, false, TestFor(f.cs, false), FULLSET);
        TestedRepThreaded(f.cs, Gen(d, g, p, false, TestFor(f.cs, false), FULLSET));
      } else {
        GenThreaded(d, g, p, false, NoTest, FULLSET);
        FullRepThreaded(f, opt, Gen(d, g, p, false, NoTest, FULLSET));
      }
    case Not(p) =>
      if HeadFail(g, p, d) {
        FailNotThreaded(GetFirst(g, p, FULLSET, d));
      } else {
        GenThreaded(d, g, p, false, NoTest, FULLSET);
        NotThreaded(GetFirst(g, p, FULLSET, d), Gen(d, g, p, false, NoTest, FULLSET));
      }
    case And(p) =>
      var n := FixedLen(g, p, d);
      GenThreaded(d, g, p, false, tt, FULLSET);
      FullAndThreaded(Gen(d, g, p, false, tt, FULLSET));
      StepBackThreaded(Gen(d, g, p, false, tt, FULLSET), if n < 0 then 0 else n);
    case Behind(n, p) =>
      GenThreaded(d, g, p, false, NoTest, FULLSET);
      StepBackThreaded(Gen(d, g, p, false, NoTest, FULLSET), n);
    case Seq(p1, p2) =>
      var (fl1, tt2) := (SeqFollow(d, g, p1, p2, fl), SeqTest(d, g, p1, tt));
      GenThreaded(d, g, p1, false, tt, fl1);
      GenThreaded(d, g, p2, opt, tt2, fl);
      SeqThreaded(Gen(d, g, p1, false, tt, fl1), Gen(d, g, p2, opt, tt2, fl));
      SeqCode(d, g, p1, p2, opt, tt, fl);
    case Grammar(rs) =>
      BodyThreaded(d, t);
      RulesNotEmpty(d, t);
      FramedThreaded(Correct(GenRules(d, t, 0), RulePositions(d, t), 0));
    case _ => LeafThreaded(d, g, t, opt, tt, fl);
  }

  lemma RulesNotEmpty(d: nat, gr: Tree)
    requires gr.Grammar? && gr.rules != []
    ensures |GenRules(d, gr, 0)| > 0
  {
  }

  lemma LeafThreaded(d: nat, g: Rules, t: Tree, opt: bool, tt: Test, fl: Charset)
    requires IsCharPattern(t) || t.True? || t.False? || t.Call?
    ensures Threaded(Gen(d, g, t, opt, tt, fl), 0)
  {
    var c := Gen(d, g, t, opt, tt, fl);
    forall x ensures JumpsEnd(c, x) { JumpOnce(c, x); }
  }

  lemma {:induction false} ChoiceThreaded(d: nat, g: Rules, t: Tree, opt: bool, fl: Charset)
    requires t.Choice? && WellMade(d, g, t) && Untangled(d, g, t)
    ensures Threaded(CodeChoice(d, g, t, opt, fl), 0)
    decreases t, 0, 0
  {
    hide Threaded;
    var (p1, p2) := (t.p1, t.p2);
    var f1 := GetFirst(g, p1, FULLSET, d);
    GenThreaded(d, g, p2, opt, NoTest, fl);
    var c2 := Gen(d, g, p2, opt, NoTest, fl);
    if TestDecidesChoice(d, g, p1, p2, fl) {
      GenThreaded(d, g, p1, false, TestFor(f1.cs, false), fl);
      TestedChoiceThreaded(f1.cs, p2.True?, Gen(d, g, p1, false, TestFor(f1.cs, false), fl), c2);
    } else if opt && p2.True? {
      GenThreaded(d, g, p1, true, NoTest, FULLSET);
      PartialThreaded(Gen(d, g, p1, true, NoTest, FULLSET));
    } else {
      GenThreaded(d, g, p1, p2.True?, TestFor(f1.cs, f1.empty), FULLSET);
      FullChoiceThreaded(f1, Gen(d, g, p1, p2.True?, TestFor(f1.cs, f1.empty), FULLSET), c2);
    }
  }

  lemma RulesUnfold(d: nat, gr: Tree, k: nat)
    requires gr.Grammar? && k <= |gr.rules|
    ensures GenRules(d, gr, k) == if k == |gr.rules| then [] else
              Gen(d, gr.rules, gr.rules[k], false, NoTest, FULLSET) + Plain(IRet, 0) + GenRules(d, gr, k + 1)
  {
  }

  lemma RuleFit(d: nat, gr: Tree, k: nat)
    requires gr.Grammar? && k < |gr.rules| && WellMade(d, [], gr) && Untangled(d, [], gr)
    ensures WellMade(d, gr.rules, gr.rules[k]) && Untangled(d, gr.rules, gr.rules[k])
  {
  }

  lemma NothingThreaded()
    ensures Threaded([], 0)
  {
  }

  lemma {:induction false} RulesThreaded(d: nat, gr: Tree, k: nat)
    requires gr.Grammar? && k <= |gr.rules| && WellMade(d, [], gr) && Untangled(d, [], gr)
    ensures Threaded(GenRules(d, gr, k), 0)
    decreases gr, 0, |gr.rules| - k
  {
    hide Threaded, Gen, GenRules, WellMade, Untangled;
    RulesUnfold(d, gr, k);
    if k < |gr.rules| { RuleFit(d, gr, k); }
    if k == |gr.rules| {
      NothingThreaded();
    } else {
      var rest := GenRules(d, gr, k + 1);
      var rule := Gen(d, gr.rules, gr.rules[k], false, NoTest, FULLSET);
      GenThreaded(d, gr.rules, gr.rules[k], false, NoTest, FULLSET);
      RulesThreaded(d, gr, k + 1);
      RuleThreaded(rule, rest);
    }
  }

  lemma RuleThreaded(rule: Code, rest: Code)
    requires Threaded(rule, 0) && Threaded(rest, 0)
    ensures Threaded(rule + Plain(IRet, 0) + rest, 0)
  {
    hide Threaded;
    ThreadedMore(rule, 0, 1 + |rest|);
    PlainThreaded(IRet, 0, |rest|);
    ThreadedParts3(rule, Plain(IRet, 0), rest, 0);
  }

  // ----- settled calls -----

  lemma BodyThreaded(d: nat, gr: Tree)
    requires gr.Grammar? && WellMade(d, [], gr) && Untangled(d, [], gr)
    ensures Threaded(Correct(GenRules(d, gr, 0), RulePositions(d, gr), 0), 0)
    decreases gr, 0, |gr.rules| + 2
  {
    var raw := GenRules(d, gr, 0);
    var inner := RulePositions(d, gr);
    var body := Correct(raw, inner, 0);
    BodyCorrected(d, gr);
    RulesThreaded(d, gr, 0);
    RulesProper(d, gr, 0);
    forall k | 0 <= k < |inner| ensures 0 <= inner[k] <= |raw| { RulesSuffix(d, gr, k); }
    EntriesEnd(d, gr);
    assert body == Body(d, gr);
    CorrectSettles(raw, inner, 0);
    CorrectedThreaded(raw, body, inner, UsedRules(gr.rules));
  }

  /** Settling the calls of threaded code keeps it threaded, if the jumps from the start of
      every called rule come to an end. */
  lemma CorrectedThreaded(raw: Code, body: Code, inner: seq<int>, ks: set<nat>)
    requires Threaded(raw, 0) && Keeps(raw, body) && CodeAt(body, 0, raw, inner) && Proper(raw, ks)
    requires forall q :: 0 <= q < |raw| && raw[q].Inst? ==> body[q].Inst?
    requires forall q :: 0 <= q < |raw| && body[q].Inst? ==> raw[q].Inst?
    requires forall k :: k in ks ==> k < |inner| && 0 <= inner[k] <= |raw| && JumpsEnd(body, inner[k])
    ensures Threaded(body, 0)
  {
    forall q | 0 <= q < |body| ensures LabelFits(body, q, 0) {
      assert LabelFits(raw, q, 0) && SlotAt(body, 0 + q, raw[q], inner) && LaidSlot(raw, q);
      if q + 1 < |raw| { assert SlotAt(body, 0 + (q + 1), raw[q + 1], inner); }
    }
    forall x | 0 <= x < |body| ensures JumpsEnd(body, x) {
      assert JumpsEnd(raw, x);
      var n: nat :| !IsJmp(raw, Hops(raw, x, n));
      LeavesForward(raw, 0, x, n);
      CalledJumpsEnd(raw, body, inner, ks, x, n);
    }
  }

  lemma {:induction false} CalledJumpsEnd(raw: Code, body: Code, inner: seq<int>, ks: set<nat>, x: int, n: nat)
    requires Threaded(raw, 0) && Keeps(raw, body) && CodeAt(body, 0, raw, inner) && Proper(raw, ks)
    requires forall q :: 0 <= q < |raw| && body[q].Inst? ==> raw[q].Inst?
    requires forall k :: k in ks ==> k < |inner| && JumpsEnd(body, inner[k])
    requires 0 <= x && !IsJmp(raw, Hops(raw, x, n))
    ensures JumpsEnd(body, x)
    decreases n
  {
    if IsJmp(raw, x) {
      assert LabelFits(raw, x, 0);
      CalledJumpsEnd(raw, body, inner, ks, Target(raw, x), n - 1);
    } else if x < |raw| {
      assert SlotAt(body, 0 + x, raw[x], inner) && LabelFits(raw, x, 0);
    }
    JumpOnce(body, x);
  }

  // ----- exactly then -----

  /** Jumps of a part that never end never end in the whole. */
  lemma {:induction false} HopsOut(c: Code, base: nat, a: Code, x: int, n: nat)
    requires Holds(c, base, a) && !JumpsEnd(a, x)
    ensures IsJmp(c, Hops(c, base + x, n))
    decreases n
  {
    assert IsJmp(a, Hops(a, x, 0));
    if n > 0 {
      if JumpsEnd(a, Target(a, x)) { JumpOnce(a, x); }
      HopsOut(c, base, a, Target(a, x), n - 1);
    }
  }

  lemma NeverEndsIn(c: Code, base: nat, a: Code, x: int)
    requires Holds(c, base, a) && !JumpsEnd(a, x)
    ensures !JumpsEnd(c, base + x)
  {
    var y := base + x;
    forall n: nat ensures IsJmp(c, Hops(c, y, n)) { HopsOut(c, base, a, x, n); }
  }

  /** The code contains jumps that never end. */
  ghost predicate Endless(c: Code) {
    exists x :: !JumpsEnd(c, x)
  }

  lemma EndlessIn(c: Code, base: nat, a: Code)
    requires Holds(c, base, a) && Endless(a)
    ensures Endless(c)
  {
    var x :| !JumpsEnd(a, x);
    NeverEndsIn(c, base, a, x);
  }

  lemma ThreadedEnds(c: Code, beyond: nat)
    requires Threaded(c, beyond)
    ensures !Endless(c)
  {
    forall x ensures JumpsEnd(c, x) {
      if !(0 <= x < |c|) { JumpOnce(c, x); }
    }
  }

  lemma {:induction false} GenEndless(d: nat, g: Rules, t: Tree, opt: bool, tt: Test, fl: Charset)
    requires WellMade(d, g, t) && !Untangled(d, g, t)
    ensures Endless(Gen(d, g, t, opt, tt, fl))
    decreases t, 1, 0
  {
    hide Endless, Holds;
    match t
    case Choice(p1, p2) => ChoiceEndless(d, g, t, opt, fl);
    case Rep(p) =>
      var f := GetFirst(g, p, FULLSET, d);
      var tt' := if TestDecidesRep(d, g, p, fl) then TestFor(f.cs, false) else NoTest;
      GenEndless(d, g, p, false, tt', FULLSET);
      RepHolds(f, opt, Gen(d, g, p, false, tt', FULLSET));
    case Not(p) =>
      GenEndless(d, g, p, false, NoTest, FULLSET);
      NotHolds(GetFirst(g, p, FULLSET, d), Gen(d, g, p, false, NoTest, FULLSET));
    case And(p) =>
      var n := FixedLen(g, p, d);
      GenEndless(d, g, p, false, tt, FULLSET);
      AndHolds(Gen(d, g, p, false, tt, FULLSET), if n < 0 then 0 else n);
    case Behind(n, p) =>
      GenEndless(d, g, p, false, NoTest, FULLSET);
      AndHolds(Gen(d, g, p, false, NoTest, FULLSET), n);
    case Seq(p1, p2) =>
      var (fl1, tt2) := (SeqFollow(d, g, p1, p2, fl), SeqTest(d, g, p1, tt));
      if !Untangled(d, g, p1) {
        GenEndless(d, g, p1, false, tt, fl1);
      } else {
        GenEndless(d, g, p2, opt, tt2, fl);
      }
      PartsHold(Gen(d, g, p1, false, tt, fl1), Gen(d, g, p2, opt, tt2, fl));
    case Grammar(rs) =>
      BodyEndless(d, t);
      PartsHold(Jump(ICall, 4) + Jump(IJmp, 2 + |Body(d, t)|), Body(d, t));
  }

  lemma PartsHold(a: Code, b: Code)
    ensures Endless(a) ==> Endless(a + b)
    ensures Endless(b) ==> Endless(a + b)
  {
    if Endless(a) { EndlessIn(a + b, 0, a); }
    if Endless(b) { EndlessIn(a + b, |a|, b); }
  }

  lemma RepHolds(f: First, opt: bool, c: Code)
    requires Endless(c)
    ensures Endless(TestedRep(f.cs, c)) && Endless(FullRep(f, opt, c))
  {
    hide Endless, CodeTest, TestSize;
    var n := TestSize(f.cs, false) + |c|;
    PartsHold(CodeTest(f.cs, false, n + 2), c);
    PartsHold(CodeTest(f.cs, false, n + 2) + c, Jump(IJmp, -n));
    var test := CodeTest(f.cs, f.empty, TestSize(f.cs, f.empty) + 2 + |c| + 2);
    PartsHold(test + EnterRep(opt, c), c);
    PartsHold(test + EnterRep(opt, c) + c, Jump(IPartialCommit, -|c|));
  }

  lemma NotHolds(f: First, c: Code)
    requires Endless(c)
    ensures Endless(FullNot(f, c))
  {
    hide Endless, CodeTest, TestSize;
    var front := CodeTest(f.cs, f.empty, TestSize(f.cs, f.empty) + 2 + |c| + 1) + Jump(IChoice, 2 + |c| + 1);
    PartsHold(front, c);
    PartsHold(front + c, Plain(IFailTwice, 0));
  }

  lemma AndHolds(c: Code, n: nat)
    requires Endless(c)
    ensures Endless(FullAnd(c)) && Endless(c + StepBack(n)) && Endless(StepBack(n) + c)
  {
    hide Endless, StepBack;
    PartsHold(Jump(IChoice, 2 + |c| + 2), c);
    PartsHold(Jump(IChoice, 2 + |c| + 2) + c, Jump(IBackCommit, 3));
    PartsHold(Jump(IChoice, 2 + |c| + 2) + c + Jump(IBackCommit, 3), Plain(IFail, 0));
    PartsHold(c, StepBack(n));
    PartsHold(StepBack(n), c);
  }

  lemma ChoicesHold(f: First, emptyp2: bool, c1: Code, c2: Code)
    requires Endless(c1) || Endless(c2)
    ensures Endless(TestedChoice(f.cs, c1, emptyp2, c2)) && Endless(FullChoice(f, c1, c2))
  {
    hide Endless, CodeTest, TestSize;
    var jmp := if emptyp2 then [] else Jump(IJmp, 2 + |c2|);
    var test := CodeTest(f.cs, false, TestSize(f.cs, false) + |c1| + |jmp|);
    PartsHold(test, c1);
    PartsHold(test + c1, jmp);
    PartsHold(test + c1 + jmp, c2);
    var front := CodeTest(f.cs, f.empty, TestSize(f.cs, f.empty) + 2 + |c1| + 2) + Jump(IChoice, 2 + |c1| + 2);
    PartsHold(front, c1);
    PartsHold(front + c1, Jump(ICommit, 2 + |c2|));
    PartsHold(front + c1 + Jump(ICommit, 2 + |c2|), c2);
  }

  lemma {:induction false} ChoiceEndless(d: nat, g: Rules, t: Tree, opt: bool, fl: Charset)
    requires t.Choice? && WellMade(d, g, t) && !Untangled(d, g, t)
    ensures Endless(CodeChoice(d, g, t, opt, fl))
    decreases t, 0, 0
  {
    hide Endless;
    var (p1, p2) := (t.p1, t.p2);
    var f1 := GetFirst(g, p1, FULLSET, d);
    var c2 := Gen(d, g, p2, opt, NoTest, fl);
    if !Untangled(d, g, p2) { GenEndless(d, g, p2, opt, NoTest, fl); }
    if TestDecidesChoice(d, g, p1, p2, fl) {
      if !Untangled(d, g, p1) { GenEndless(d, g, p1, false, TestFor(f1.cs, false), fl); }
      ChoicesHold(f1, p2.True?, Gen(d, g, p1, false, TestFor(f1.cs, false), fl), c2);
    } else if opt && p2.True? {
      GenEndless(d, g, p1, true, NoTest, FULLSET);
      PartsHold(Jump(IPartialCommit, 2), Gen(d, g, p1, true, NoTest, FULLSET));
    } else {
      if !Untangled(d, g, p1) { GenEndless(d, g, p1, p2.True?, TestFor(f1.cs, f1.empty), FULLSET); }
      ChoicesHold(f1, p2.True?, Gen(d, g, p1, p2.True?, TestFor(f1.cs, f1.empty), FULLSET), c2);
    }
  }

  lemma {:induction false} BodyEndless(d: nat, gr: Tree)
    requires gr.Grammar? && WellMade(d, [], gr) && !Untangled(d, [], gr)
    ensures Endless(Body(d, gr))
    decreases gr, 0, 0
  {
    hide Gen, GenRules, Correct;
    if Circular(d, gr.rules) {
      EntriesEnd(d, gr);
    } else {
      var k: nat :| k < |gr.rules| && !Untangled(d, gr.rules, gr.rules[k]);
      GenEndless(d, gr.rules, gr.rules[k], false, NoTest, FULLSET);
      RuleInRaw(d, gr, k);
      EndlessIn(GenRules(d, gr, 0), RulePositions(d, gr)[k], RuleCode(d, gr.rules, k));
      RulesCorrectable(d, gr);
      CorrectSettles(GenRules(d, gr, 0), RulePositions(d, gr), 0);
      EndlessKept(GenRules(d, gr, 0), Body(d, gr));
    }
  }

  lemma EndlessKept(raw: Code, body: Code)
    requires Keeps(raw, body) && Endless(raw)
    ensures Endless(body)
  {
    var x :| !JumpsEnd(raw, x);
    forall n: nat ensures IsJmp(body, Hops(body, x, n)) { HopsStay(raw, body, x, n); }
    assert !JumpsEnd(body, x);
  }

  lemma {:induction false} HopsStay(a: Code, b: Code, x: int, n: nat)
    requires Keeps(a, b) && !JumpsEnd(a, x)
    ensures IsJmp(b, Hops(b, x, n))
    decreases n
  {
    assert IsJmp(a, Hops(a, x, 0));
    if n > 0 {
      if JumpsEnd(a, Target(a, x)) { JumpOnce(a, x); }
      HopsStay(a, b, Target(a, x), n - 1);
    }
  }

  /** On the finished code of a pattern, following jumps comes to an end from every address exactly
      when no grammar in it is circular. */
  lemma JumpsEndExactly(d: nat, t: Tree)
    requires WellMade(d, [], t)
    ensures var code := Gen(d, [], t, false, NoTest, FULLSET) + Plain(IEnd, 0);
      (forall x :: JumpsEnd(code, x)) <==> Untangled(d, [], t)
  {
    hide Threaded, Gen, JumpsEnd, Untangled, WellMade;
    if Untangled(d, [], t) {
      UntangledEnds(d, t);
    } else {
      GenEndless(d, [], t, false, NoTest, FULLSET);
      PartsHold(Gen(d, [], t, false, NoTest, FULLSET), Plain(IEnd, 0));
    }
  }

  lemma UntangledEnds(d: nat, t: Tree)
    requires WellMade(d, [], t) && Untangled(d, [], t)
    ensures forall x :: JumpsEnd(Gen(d, [], t, false, NoTest, FULLSET) + Plain(IEnd, 0), x)
  {
    hide Threaded, Gen, JumpsEnd, Untangled, WellMade;
    var gen := Gen(d, [], t, false, NoTest, FULLSET);
    GenThreaded(d, [], t, false, NoTest, FULLSET);
    ThreadedMore(gen, 0, 1);
    PlainThreaded(IEnd, 0, 0);
    ThreadedParts(gen, Plain(IEnd, 0), 0);
    ThreadedEnds(gen + Plain(IEnd, 0), 0);
  }

  /** The peephole pass cannot remove such jumps, since it rewrites only where following jumps has
      come to an end: on tangled code it never gets past the first of them. */
  lemma EndlessStays(code: Code, code': Code, i: int)
    requires Rewritten(code, code', i) && 0 <= i && JumpsEnd(code, i) && Endless(code)
    ensures Endless(code')
  {
    var x :| !JumpsEnd(code, x);
    forall n: nat ensures IsJmp(code', Hops(code', x, n)) { RewrittenAround(code, code', i, x, n); }
    assert !JumpsEnd(code', x);
  }

  lemma {:induction false} RewrittenAround(code: Code, code': Code, i: int, x: int, n: nat)
    requires Rewritten(code, code', i) && 0 <= i && JumpsEnd(code, i) && !JumpsEnd(code, x)
    ensures IsJmp(code', Hops(code', x, n))
    decreases n
  {
    assert IsJmp(code, Hops(code, x, 0)) && x != i;
    assert code[i].Inst? && code[i + 1].Offset? && x != i + 1 && x + 1 != i;
    assert code'[x] == code[x] && code'[x + 1] == code[x + 1];
    if n > 0 {
      if JumpsEnd(code, Target(code, x)) { JumpOnce(code, x); }
      RewrittenAround(code, code', i, Target(code, x), n - 1);
    }
  }

  // ----- matches that end -----

  /** A machine that halts does not follow jumps for ever. */
  lemma {:induction false} HaltingEndsJumps(c: Code, s: Subject, p: int, j: nat, stack: Stack, n: nat)
    requires j <= |s| && Halted(RunN(c, s, Run(p, j, stack), n))
    ensures JumpsEnd(c, p)
    decreases n
  {
    if IsJmp(c, p) {
      HaltingEndsJumps(c, s, Target(c, p), j, stack, n - 1);
    }
    JumpOnce(c, p);
  }

  /** The jumps from the start of a rule that is used come to an end, tail calls included:
      on the empty subject the rule has an outcome, so its code halts. */
  lemma RuleEntryEnds(d: nat, gr: Tree, k: nat)
    requires gr.Grammar? && WellMade(d, [], gr) && Checked([], gr, d, true) && LayeredBehinds(gr)
    requires Used(gr.rules, k)
    ensures JumpsEnd(Correct(GenRules(d, gr, 0), RulePositions(d, gr), 0), RulePositions(d, gr)[k])
  {
    var rs := gr.rules;
    var inner := RulePositions(d, gr);
    var body := Correct(GenRules(d, gr, 0), inner, 0);
    var x := Context(d, body, [], rs, inner, NoMatch);
    hide Gen, GenRules, Correct;
    BodyCorrected(d, gr);
    assert CodeAt(body, 0, body, inner);
    GrammarRulesAt(d, body, 0, gr, inner, inner);
    var f := RuleTerminates(gr, d, k);
    RuleHalts(x, k, f);
    var stack := Push(Return(GIVEUP), Push(Alt(0, GIVEUP), Empty));
    var n: nat :| RunN(body, [], Run(inner[k], 0, stack), n) == NoMatch;
    HaltingEndsJumps(body, [], inner[k], 0, stack, n);
  }

  lemma RuleHalts(x: Context, k: nat, f: nat)
    requires RulesAt(x.d, x.code, x.g, x.positions) && k < |x.g| && x.s == [] && x.r == NoMatch
    requires Eval(x.g, x.g[k], [], 0, f) != NoFuel
    ensures x.Ends(Run(x.positions[k], 0, Push(Return(GIVEUP), Push(Alt(0, GIVEUP), Empty))))
  {
    hide Gen, CodeAt, Yields;
    var stack := Push(Return(GIVEUP), Push(Alt(0, GIVEUP), Empty));
    GivesUp(x, stack.rest);
    GivesUp(x, Empty);
    if Eval(x.g, x.g[k], [], 0, f).Ok? {
      Back(x, Run(x.positions[k] + |RuleCode(x.d, x.g, k)|, 0, stack));
    }
    GenCorrect(x, x.positions[k], x.g[k], false, NoTest, FULLSET, 0, stack, f);
  }

  lemma GivesUp(x: Context, stack: Stack)
    requires x.r == NoMatch
    ensures x.Ends(Run(GIVEUP, 0, stack))
  {
    assert RunN(x.code, x.s, NoMatch, 0) == NoMatch;
    Back(x, Run(GIVEUP, 0, stack));
  }

  /** Every rule that is used has an outcome on the empty subject. */
  lemma RuleTerminates(gr: Tree, d: nat, k: nat) returns (f: nat)
    requires gr.Grammar? && Checked([], gr, d, true) && LayeredBehinds(gr) && Used(gr.rules, k)
    ensures Eval(gr.rules, gr.rules[k], [], 0, f) != NoFuel
  {
    assert VerifyRule(gr.rules, gr.rules[k], MAXRULES, false, d, true) != LeftRecursive;
    hide Fits, LayeredBehinds, Checked;
    RuleFits(gr, k, d);
    var rs := gr.rules;
    f := Terminates(rs, rs[k], d, [], 0, Height(gr) - 1, |Reach(rs, k)|, Height(gr) - 1, MAXRULES);
  }

  /** A pattern that passes the strict check and has layered look-behinds is untangled: a rule on
      a circle would be used, and a match of it would not end. */
  lemma {:induction false} LayeredUntangled(d: nat, g: Rules, t: Tree)
    requires WellMade(d, g, t) && Checked(g, t, d, true) && LayeredBehinds(t)
    ensures Untangled(d, g, t)
    decreases t
  {
    match t
    case Rep(p) => LayeredUntangled(d, g, p);
    case Not(p) => LayeredUntangled(d, g, p);
    case And(p) => LayeredUntangled(d, g, p);
    case Behind(_, p) => LayeredUntangled(d, g, p);
    case Seq(p1, p2) => LayeredUntangled(d, g, p1); LayeredUntangled(d, g, p2);
    case Choice(p1, p2) => LayeredUntangled(d, g, p1); LayeredUntangled(d, g, p2);
    case Grammar(rs) =>
      forall k | 0 <= k < |rs| ensures Untangled(d, rs, rs[k]) { LayeredUntangled(d, rs, rs[k]); }
      NoCircle(d, Grammar(rs));
    case _ =>
  }

  lemma NoCircle(d: nat, gr: Tree)
    requires gr.Grammar? && WellMade(d, [], gr) && Checked([], gr, d, true) && LayeredBehinds(gr)
    ensures !Circular(d, gr.rules)
  {
    hide WellMade, Checked, LayeredBehinds, RulePositions, Correct, GenRules, Enters, TailsTo, Hops, Circular;
    ManyPositions(d, gr);
    if Circular(d, gr.rules) {
      var k, n := CalledOnCircle(d, gr.rules);
      RuleEntryEnds(d, gr, k);
      var p := RulePositions(d, gr)[k];
      var i: nat :| !IsJmp(Body(d, gr), Hops(Body(d, gr), p, i));
      forall m: nat ensures TailsTo(d, gr.rules, k, m).TailCall? { RoundAndRound(d, gr.rules, k, n, m); }
      EntryGoesOn(d, gr, k, i);
    }
  }

  /** A rule on a circle is called by the one before it. */
  lemma CalledOnCircle(d: nat, rs: Rules) returns (k: nat, n: nat)
    requires Circular(d, rs)
    ensures k < |rs| && n > 0 && TailsTo(d, rs, k, n) == TailCall(k) && Used(rs, k)
  {
    k, n :| k < |rs| && 0 < n && TailsTo(d, rs, k, n) == TailCall(k);
    TailsTwice(d, rs, k, n - 1, 1);
    var j := TailsTo(d, rs, k, n - 1).k;
    EntersCalls(d, rs, rs[j]);
    assert Calls(rs[j], k);
  }

  // ----- look-behinds that reach back -----

  /** A <- <(&B), B <- <(&A), where < is look-behind */
  const BACKANDFORTH: Rules := [Behind(0, And(Call(1))), Behind(0, And(Call(0)))]

  /** The code of each of the two rules is a call of the other one, made a jump: finaltarget, and
      with it the peephole pass, does not come to an end, although the grammar is accepted. */
  lemma JumpsForEver(d: nat)
    requires d > 0
    ensures Accepted(Grammar(BACKANDFORTH), d, true) && WellMade(d, [], Grammar(BACKANDFORTH))
    ensures !LayeredBehinds(Grammar(BACKANDFORTH)) && Circular(d, BACKANDFORTH)
    ensures Endless(Gen(d, [], Grammar(BACKANDFORTH), false, NoTest, FULLSET))
  {
    var rs := BACKANDFORTH;
    BackAndForthAccepted(d);
    AskingBegins(rs, 0, d);
    AskingBegins(rs, 1, d);
    assert TailsTo(d, rs, 0, 2) == TailCall(0) by {
      assert TailsTo(d, rs, 1, 1) == TailsTo(d, rs, 0, 0);
    }
    hide Gen, Endless, WellMade, Circular;
    BothMade(d);
    GenEndless(d, [], Grammar(rs), false, NoTest, FULLSET);
  }

  /** A look-behind that only asks for another rule is nothing but a call of it. */
  lemma AskingBegins(rs: Rules, k: nat, d: nat)
    requires d > 0 && k < |rs| && rs[k].Behind?
    ensures Enters(d, rs, Behind(0, And(Call(k)))) == TailCall(k)
  {
    assert FixedLen(rs, Call(k), d) == 0;
    assert Enters(d, rs, And(Call(k))) == TailCall(k);
  }

  lemma BothMade(d: nat)
    ensures WellMade(d, [], Grammar(BACKANDFORTH))
  {
    var rs := BACKANDFORTH;
    assert WellMade(d, rs, And(Call(0))) && WellMade(d, rs, And(Call(1)));
    assert WellMade(d, rs, rs[0]) && WellMade(d, rs, rs[1]);
  }

  lemma BackAndForthAccepted(d: nat)
    ensures Accepted(Grammar(BACKANDFORTH), d, true) && !LayeredBehinds(Grammar(BACKANDFORTH))
  {
    var rs := BACKANDFORTH;
    forall k | 0 <= k < 2
      ensures VerifyRule(rs, rs[k], MAXRULES, false, d, true) == Passes(true)
      ensures !CheckLoops(rs, rs[k], d) && Checked(rs, rs[k], d, true)
    {
      AskingBack(rs, 1 - k, d);
    }
    BackAndForthReaches();
  }

  lemma AskingBack(rs: Rules, k: nat, d: nat)
    requires k < |rs|
    ensures VerifyRule(rs, Behind(0, And(Call(k))), MAXRULES, false, d, true) == Passes(true)
    ensures !CheckLoops(rs, Behind(0, And(Call(k))), d) && Checked(rs, Behind(0, And(Call(k))), d, true)
  {
    assert !CheckLoops(rs, Call(k), d) && !CheckLoops(rs, And(Call(k)), d);
    assert Checked(rs, Call(k), d, true) && Checked(rs, And(Call(k)), d, true);
  }

  lemma BackAndForthReaches()
    ensures !Layered(BACKANDFORTH)
  {
    var rs := BACKANDFORTH;
    assert Calls(And(Call(0)), 0) && Calls(And(Call(1)), 1);
    assert Calls(rs[1], 0) && BehindCalls(rs[0], 1);
    assert ReachesIn(rs, 0, 0, 0);
    assert ReachesIn(rs, 1, 0, 1) && Reaches(rs, 1, 0);
  }

  /** The two left-recursive grammars whose matches do not end are untangled: their code is
      finished all the same. */
  lemma LoopsAreUntangled(d: nat)
    ensures Untangled(d, [], Grammar(LOOPINREP)) && Untangled(d, [], Grammar(LOOPINBEHIND))
  {
    RepUntangled(d);
    NotCalledLast(d, LOOPINBEHIND);
    assert Untangled(d, LOOPINBEHIND, LOOPINBEHIND[0]);
  }

  lemma RepUntangled(d: nat)
    ensures Untangled(d, [], Grammar(LOOPINREP))
  {
    assert GetFirst([X], X, FULLSET, d).cs == {120};
    assert GetFirst(LOOPINREP, SUBGRAMMAR, FULLSET, d).cs == {120};
    assert Enters(d, LOOPINREP, Rep(SUBGRAMMAR)) == Stops;
    NotCalledLast(d, [X]);
    NotCalledLast(d, LOOPINREP);
    assert Untangled(d, LOOPINREP, SUBGRAMMAR) && Untangled(d, LOOPINREP, Rep(SUBGRAMMAR));
    assert Untangled(d, LOOPINREP, LOOPINREP[0]);
  }

  lemma NotCalledLast(d: nat, rs: Rules)
    requires |rs| == 1 && !Enters(d, rs, rs[0]).TailCall?
    ensures !Circular(d, rs)
  {
    hide Enters;
    forall k: nat, n: nat | k < |rs| && 0 < n ensures TailsTo(d, rs, k, n) != TailCall(k) {
      assert TailsTo(d, rs, 0, n) == Enters(d, rs, rs[0]);
    }
  }
}

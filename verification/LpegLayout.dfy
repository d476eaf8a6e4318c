/** The layout of generated code: every instruction is followed by its operands and then by
    the next instruction, so that correctcalls meets every open call. */
module LpegLayout {
  import opened LpegSyntax
  import opened LpegAnalysis
  import opened LpegMachine
  import opened LpegCodegen
  import opened LpegGrammar

  /** Instructions, with their sizes, tile the code; room for an offset follows open calls only. */
  ghost predicate Laid(c: Code) {
    && (c != [] ==> c[0].Inst?)
    && forall q {:trigger LaidSlot(c, q)} :: 0 <= q < |c| ==> LaidSlot(c, q)
  }

  ghost predicate LaidSlot(c: Code, q: int)
    requires 0 <= q < |c|
  {
    && (c[q].Inst? ==>
          && q + SizeI(c[q].op) <= |c|
          && (forall k :: q < k < q + SizeI(c[q].op) ==> !c[k].Inst?)
          && (q + SizeI(c[q].op) < |c| ==> c[q + SizeI(c[q].op)].Inst?))
    && (c[q].Room? ==> q > 0 && IsOpenCall(c[q - 1]))
    && (IsOpenCall(c[q]) ==> q + 1 < |c| && c[q + 1].Room?)
  }

  /** The open calls of c name rules of ks. */
  ghost predicate KeysIn(c: Code, ks: set<nat>) {
    forall q :: 0 <= q < |c| && IsOpenCall(c[q]) ==> c[q].key in ks
  }

  ghost predicate Proper(c: Code, ks: set<nat>) { Laid(c) && KeysIn(c, ks) }

  lemma ProperParts(a: Code, b: Code, ks: set<nat>)
    requires Proper(a, ks) && Proper(b, ks)
    ensures Proper(a + b, ks)
  {
    var c := a + b;
    forall q | 0 <= q < |c| ensures LaidSlot(c, q) {
      if q < |a| {
        assert LaidSlot(a, q);
      } else {
        assert LaidSlot(b, q - |a|);
        assert c[q] == b[q - |a|];
        if c[q].Inst? {
          forall k | q < k < q + SizeI(c[q].op) ensures !c[k].Inst? {
            assert c[k] == b[k - |a|];
          }
        }
      }
    }
  }

  lemma ProperParts4(a: Code, b: Code, c: Code, d: Code, ks: set<nat>)
    requires Proper(a, ks) && Proper(b, ks) && Proper(c, ks) && Proper(d, ks)
    ensures Proper(a + b + c, ks) && Proper(a + b + c + d, ks)
  {
    hide Proper;
    ProperParts(a, b, ks);
    ProperParts(a + b, c, ks);
    ProperParts(a + b + c, d, ks);
  }

  lemma ProperPlain(op: Opcode, aux: nat, ks: set<nat>)
    requires SizeI(op) == 1
    ensures Proper(Plain(op, aux), ks)
  {
  }

  lemma ProperJump(op: Opcode, off: int, ks: set<nat>)
    requires SizeI(op) == 2 && op != IOpenCall
    ensures Proper(Jump(op, off), ks)
  {
  }

  lemma ProperTest(cs: Charset, empty: bool, off: int, ks: set<nat>)
    ensures Proper(CodeTest(cs, empty, off), ks)
  {
  }

  /** The ways of assembling code keep it properly laid out. */
  lemma ChoicesProper(f: First, empty: bool, c1: Code, c2: Code, ks: set<nat>)
    requires Proper(c1, ks) && Proper(c2, ks)
    ensures Proper(FullChoice(f, c1, c2), ks)
    ensures Proper(TestedChoice(f.cs, c1, empty, c2), ks)
    ensures Proper(Jump(IPartialCommit, 2) + c1, ks)
  {
    var off := TestSize(f.cs, f.empty) + 2 + |c1| + 2;
    var jmp := if empty then [] else Jump(IJmp, 2 + |c2|);
    var off' := TestSize(f.cs, false) + |c1| + |jmp|;
    assert Proper(jmp, ks);
    hide Proper;
    ProperTest(f.cs, f.empty, off, ks);
    ProperJump(IChoice, 2 + |c1| + 2, ks);
    ProperJump(ICommit, 2 + |c2|, ks);
    ProperParts4(CodeTest(f.cs, f.empty, off), Jump(IChoice, 2 + |c1| + 2), c1, Jump(ICommit, 2 + |c2|), ks);
    ProperParts(CodeTest(f.cs, f.empty, off) + Jump(IChoice, 2 + |c1| + 2) + c1 + Jump(ICommit, 2 + |c2|), c2, ks);
    ProperTest(f.cs, false, off', ks);
    ProperParts4(CodeTest(f.cs, false, off'), c1, jmp, c2, ks);
    ProperJump(IPartialCommit, 2, ks);
    ProperParts(Jump(IPartialCommit, 2), c1, ks);
  }

  lemma RepsProper(f: First, opt: bool, c: Code, ks: set<nat>)
    requires Proper(c, ks)
    ensures Proper(TestedRep(f.cs, c), ks) && Proper(FullRep(f, opt, c), ks)
  {
    hide Proper;
    var m := TestSize(f.cs, false) + |c|;
    var off := TestSize(f.cs, f.empty) + 2 + |c| + 2;
    ProperTest(f.cs, false, m + 2, ks);
    ProperJump(IJmp, -m, ks);
    ProperParts4(CodeTest(f.cs, false, m + 2), c, Jump(IJmp, -m), c, ks);
    ProperTest(f.cs, f.empty, off, ks);
    ProperJump(IPartialCommit, 2, ks);
    ProperJump(IChoice, 2 + |c| + 2, ks);
    ProperJump(IPartialCommit, -|c|, ks);
    ProperParts4(CodeTest(f.cs, f.empty, off), EnterRep(opt, c), c, Jump(IPartialCommit, -|c|), ks);
  }

  lemma NotProper(f: First, c: Code, ks: set<nat>)
    requires Proper(c, ks)
    ensures Proper(CodeTest(f.cs, f.empty, TestSize(f.cs, f.empty) + 1) + Plain(IFail, 0), ks)
    ensures Proper(FullNot(f, c), ks)
  {
    hide Proper, CodeTest, TestSize;
    var k := TestSize(f.cs, f.empty);
    ProperPlain(IFail, 0, ks);
    ProperTest(f.cs, f.empty, k + 1, ks);
    ProperParts(CodeTest(f.cs, f.empty, k + 1), Plain(IFail, 0), ks);
    ProperTest(f.cs, f.empty, k + 2 + |c| + 1, ks);
    ProperJump(IChoice, 2 + |c| + 1, ks);
    ProperPlain(IFailTwice, 0, ks);
    ProperParts4(CodeTest(f.cs, f.empty, k + 2 + |c| + 1), Jump(IChoice, 2 + |c| + 1), c, Plain(IFailTwice, 0), ks);
  }

  lemma AndProper(c: Code, ks: set<nat>, m: nat)
    requires Proper(c, ks)
    ensures Proper(FullAnd(c), ks) && Proper(c + StepBack(m), ks) && Proper(StepBack(m) + c, ks)
  {
    assert Proper(StepBack(m), ks);
    hide Proper, StepBack;
    ProperPlain(IFail, 0, ks);
    ProperJump(IChoice, 2 + |c| + 2, ks);
    ProperJump(IBackCommit, 3, ks);
    ProperParts4(Jump(IChoice, 2 + |c| + 2), c, Jump(IBackCommit, 3), Plain(IFail, 0), ks);
    ProperParts(c, StepBack(m), ks);
    ProperParts(StepBack(m), c, ks);
  }

  /** What the pattern constructors establish: a look-behind knows its length (lp_behind), and
      a call names an existing rule (fixonecall). */
  predicate WellMade(d: nat, g: Rules, t: Tree)
    decreases t
  {
    match t
    case Call(k) => k < |g|
    case Behind(n, p) => n <= MAXBEHIND && FixedLen(g, p, d) == n && WellMade(d, g, p)
    case Rep(p) => WellMade(d, g, p)
    case Not(p) => WellMade(d, g, p)
    case And(p) => WellMade(d, g, p)
    case Seq(p1, p2) => WellMade(d, g, p1) && WellMade(d, g, p2)
    case Choice(p1, p2) => WellMade(d, g, p1) && WellMade(d, g, p2)
    case Grammar(rs) => rs != [] && forall k :: 0 <= k < |rs| ==> WellMade(d, rs, rs[k])
    case _ => true
  }

  // ----- code in place -----

  /** A call to rule n at address q: a call proper, or a jump if only a return follows. */
  ghost predicate CallAt(code: Code, q: int, n: nat, positions: seq<int>) {
    && n < |positions| && 0 <= q && q + 1 < |code|
    && code[q].Inst? && code[q + 1] == Offset(positions[n] - q)
    && (code[q].op == ICall || (code[q].op == IJmp && LeadsToRet(code, q + 2)))
  }

  ghost predicate SlotAt(code: Code, q: int, slot: Slot, positions: seq<int>)
    requires 0 <= q < |code|
  {
    if IsOpenCall(slot) then CallAt(code, q, slot.key, positions)
    else slot.Room? || code[q] == slot
  }

  /** seg lies at address pc of code, with its open calls corrected. */
  ghost predicate CodeAt(code: Code, pc: int, seg: Code, positions: seq<int>) {
    && 0 <= pc && pc + |seg| <= |code|
    && forall k :: 0 <= k < |seg| ==> SlotAt(code, pc + k, seg[k], positions)
  }

  lemma CodeAtParts(code: Code, pc: int, a: Code, b: Code, positions: seq<int>)
    requires CodeAt(code, pc, a + b, positions)
    ensures CodeAt(code, pc, a, positions) && CodeAt(code, pc + |a|, b, positions)
  {
    forall k | 0 <= k < |a| ensures SlotAt(code, pc + k, a[k], positions) {
      assert a[k] == (a + b)[k];
    }
    forall k | 0 <= k < |b| ensures SlotAt(code, pc + |a| + k, b[k], positions) {
      assert b[k] == (a + b)[|a| + k];
    }
  }

  /** Every rule of g lies in code at its position, followed by a return. */
  ghost predicate RulesAt(d: nat, code: Code, g: Rules, positions: seq<int>) {
    && |positions| == |g|
    && forall k :: 0 <= k < |g| ==>
         && WellMade(d, g, g[k])
         && CodeAt(code, positions[k], RuleCode(d, g, k), positions)
         && IsRet(code, positions[k] + |RuleCode(d, g, k)|)
  }

  ghost function RuleCode(d: nat, g: Rules, k: nat): Code
    requires k < |g|
  {
    Gen(d, g, g[k], false, NoTest, FULLSET)
  }


  // ----- generated code is properly laid out -----

  lemma {:induction false} GenProper(d: nat, g: Rules, t: Tree, opt: bool, tt: Test, fl: Charset, ks: set<nat>)
    requires WellMade(d, g, t) && forall k: nat :: Calls(t, k) ==> k in ks
    ensures Proper(Gen(d, g, t, opt, tt, fl), ks)
    decreases t, 1, 0
  {
    hide Proper;
    match t
    case Choice(p1, p2) => ChoiceProper(d, g, t, opt, fl, ks);
    case Rep(p) =>
      var f := GetFirst(g, p, FULLSET, d);
      var tt' := if TestDecidesRep(d, g, p, fl) then TestFor(f.cs, false) else NoTest;
      GenProper(d, g, p, false, tt', FULLSET, ks);
      RepsProper(f, opt, Gen(d, g, p, false, tt', FULLSET), ks);
      if IsCharPattern(p) { SetProper(ISpan, CharsOf(p), ks); }
    case Not(p) =>
      GenProper(d, g, p, false, NoTest, FULLSET, ks);
      NotProper(GetFirst(g, p, FULLSET, d), Gen(d, g, p, false, NoTest, FULLSET), ks);
    case And(p) =>
      var n := FixedLen(g, p, d);
      GenProper(d, g, p, false, tt, FULLSET, ks);
      AndProper(Gen(d, g, p, false, tt, FULLSET), ks, if n < 0 then 0 else n);
    case Behind(n, p) =>
      GenProper(d, g, p, false, NoTest, FULLSET, ks);
      AndProper(Gen(d, g, p, false, NoTest, FULLSET), ks, n);
    case Seq(p1, p2) =>
      var (fl1, tt2) := (SeqFollow(d, g, p1, p2, fl), SeqTest(d, g, p1, tt));
      GenProper(d, g, p1, false, tt, fl1, ks);
      GenProper(d, g, p2, opt, tt2, fl, ks);
      ProperParts(Gen(d, g, p1, false, tt, fl1), Gen(d, g, p2, opt, tt2, fl), ks);
    case Grammar(rs) =>
      BodyCorrected(d, t);
      var body := Correct(GenRules(d, t, 0), RulePositions(d, t), 0);
      ProperJump(ICall, 4, ks);
      ProperJump(IJmp, 2 + |body|, ks);
      ProperParts4(Jump(ICall, 4), Jump(IJmp, 2 + |body|), body, body, ks);
    case _ => LeafProper(d, g, t, opt, tt, fl, ks);
  }

  lemma LeafProper(d: nat, g: Rules, t: Tree, opt: bool, tt: Test, fl: Charset, ks: set<nat>)
    requires WellMade(d, g, t) && (IsCharPattern(t) || t.True? || t.False? || t.Call?)
    requires forall k: nat :: Calls(t, k) ==> k in ks
    ensures Proper(Gen(d, g, t, opt, tt, fl), ks)
  {
    match t
    case Set(cs) =>
      match KindOf(cs) {
      case SomeChars => SetProper(ISet, cs, ks); ProperPlain(IAny, 0, ks);
      case _ =>
      }
    case Call(k) => assert Calls(t, k);
    case _ =>
  }

  lemma SetProper(op: Opcode, cs: Charset, ks: set<nat>)
    requires op in {ISet, ISpan}
    ensures Proper(Plain(op, 0) + BuffOf(cs), ks)
  {
  }

  lemma {:induction false} ChoiceProper(d: nat, g: Rules, t: Tree, opt: bool, fl: Charset, ks: set<nat>)
    requires t.Choice? && WellMade(d, g, t) && forall k: nat :: Calls(t, k) ==> k in ks
    ensures Proper(CodeChoice(d, g, t, opt, fl), ks)
    decreases t, 0, 0
  {
    hide Proper;
    var (p1, p2) := (t.p1, t.p2);
    var f1 := GetFirst(g, p1, FULLSET, d);
    GenProper(d, g, p2, opt, NoTest, fl, ks);
    var c2 := Gen(d, g, p2, opt, NoTest, fl);
    if TestDecidesChoice(d, g, p1, p2, fl) {
      GenProper(d, g, p1, false, TestFor(f1.cs, false), fl, ks);
      ChoicesProper(f1, p2.True?, Gen(d, g, p1, false, TestFor(f1.cs, false), fl), c2, ks);
    } else if opt && p2.True? {
      GenProper(d, g, p1, true, NoTest, FULLSET, ks);
      ChoicesProper(f1, true, Gen(d, g, p1, true, NoTest, FULLSET), c2, ks);
    } else {
      GenProper(d, g, p1, p2.True?, TestFor(f1.cs, f1.empty), FULLSET, ks);
      ChoicesProper(f1, true, Gen(d, g, p1, p2.True?, TestFor(f1.cs, f1.empty), FULLSET), c2, ks);
    }
  }

  /** The rules of a grammar that are called, or initial. */
  function UsedRules(rs: Rules): set<nat> { set k: nat | k < |rs| && Used(rs, k) }

  lemma {:induction false} WellMadeCalls(d: nat, g: Rules, t: Tree, k: nat)
    requires WellMade(d, g, t) && Calls(t, k)
    ensures k < |g|
  {
    match t
    case Rep(p) => WellMadeCalls(d, g, p, k);
    case Not(p) => WellMadeCalls(d, g, p, k);
    case And(p) => WellMadeCalls(d, g, p, k);
    case Behind(_, p) => WellMadeCalls(d, g, p, k);
    case Seq(p1, p2) => WellMadeCalls(d, g, if Calls(p1, k) then p1 else p2, k);
    case Choice(p1, p2) => WellMadeCalls(d, g, if Calls(p1, k) then p1 else p2, k);
    case _ =>
  }

  lemma {:induction false} RulesProper(d: nat, gr: Tree, k: nat)
    requires gr.Grammar? && k <= |gr.rules| && WellMade(d, [], gr)
    ensures Proper(GenRules(d, gr, k), UsedRules(gr.rules))
    decreases gr, 0, |gr.rules| - k
  {
    var rs := gr.rules;
    var ks := UsedRules(rs);
    hide Proper;
    if k < |rs| {
      var rest := GenRules(d, gr, k + 1);
      forall j: nat | Calls(rs[k], j) ensures j in ks { WellMadeCalls(d, rs, rs[k], j); }
      GenProper(d, rs, rs[k], false, NoTest, FULLSET, ks);
      RulesProper(d, gr, k + 1);
      ProperPlain(IRet, 0, ks);
      ProperParts4(Gen(d, rs, rs[k], false, NoTest, FULLSET), Plain(IRet, 0), rest, rest, ks);
    } else {
      NothingProper(ks);
    }
  }

  lemma NothingProper(ks: set<nat>)
    ensures Proper([], ks)
  {
  }

  // ----- correctcalls -----

  /** Slots that correctcalls may change. */
  ghost predicate Pending(slot: Slot) { IsOpenCall(slot) || slot.Room? }

  /** b keeps every settled slot of a. */
  ghost predicate Keeps(a: Code, b: Code) {
    |a| == |b| && forall q :: 0 <= q < |a| && !Pending(a[q]) ==> b[q] == a[q]
  }

  lemma {:induction false} HopsKept(a: Code, b: Code, x: int, n: nat)
    requires Keeps(a, b) && IsRet(a, Hops(a, x, n))
    ensures LeadsToRet(b, x)
    decreases n
  {
    if n > 0 && IsJmp(a, x) {
      HopsKept(a, b, Target(a, x), n - 1);
      var m: nat :| IsRet(b, Hops(b, Target(b, x), m));
      assert Hops(b, x, m + 1) == Hops(b, Target(b, x), m);
    } else {
      assert IsRet(b, Hops(b, x, 0));
    }
  }

  /** From address i on, instructions tile the code and open calls name known rules. */
  ghost predicate Correctable(code: Code, positions: seq<int>, i: int) {
    && 0 <= i <= |code| && (i < |code| ==> code[i].Inst?)
    && (forall q :: 0 <= q < |code| && IsOpenCall(code[q]) ==> code[q].key < |positions|)
    && forall q {:trigger LaidSlot(code, q)} :: i <= q < |code| ==> LaidSlot(code, q)
  }

  /** One call corrected, as the loop of correctcalls does it. */
  ghost function CorrectOne(code: Code, positions: seq<int>, i: int): (r: Code)
    requires 0 <= i && i + 1 < |code| && IsOpenCall(code[i]) && code[i].key < |positions|
    ensures |r| == |code|
  {
    var op := if LeadsToRet(code, i + 2) then IJmp else ICall;
    code[i := code[i].(op := op)][i + 1 := Offset(positions[code[i].key] - i)]
  }

  lemma CorrectOneStep(code: Code, positions: seq<int>, i: int)
    requires Correctable(code, positions, i) && i < |code|
    ensures IsOpenCall(code[i]) ==>
              && i + 1 < |code|
              && Correctable(CorrectOne(code, positions, i), positions, i + 2)
              && Keeps(code, CorrectOne(code, positions, i))
              && !Pending(CorrectOne(code, positions, i)[i]) && !Pending(CorrectOne(code, positions, i)[i + 1])
              && SameShape(code, CorrectOne(code, positions, i))
              && Correct(code, positions, i) == Correct(CorrectOne(code, positions, i), positions, i + 2)
    ensures !IsOpenCall(code[i]) ==>
              var next := i + SizeI(code[i].op);
              && Correctable(code, positions, next)
              && (forall q :: i <= q < next ==> !Pending(code[q]))
              && Correct(code, positions, i) == Correct(code, positions, next)
  {
    assert LaidSlot(code, i);
    if IsOpenCall(code[i]) {
      var code' := CorrectOne(code, positions, i);
      forall q | i + 2 <= q < |code| ensures LaidSlot(code', q) {
        assert LaidSlot(code, q);
      }
    } else {
      forall q | i <= q < i + SizeI(code[i].op) ensures !Pending(code[q]) {
        assert LaidSlot(code, q);
      }
    }
  }

  ghost predicate SameShape(code: Code, r: Code) {
    && |code| == |r|
    && (forall q :: 0 <= q < |r| ==> r[q].Inst? == code[q].Inst?)
    && (forall q :: 0 <= q < |r| && code[q].Inst? ==> SizeI(r[q].op) == SizeI(code[q].op))
  }

  /** r is code with what lies from address i on settled: nothing else changes, and the layout stays. */
  ghost predicate Settled(code: Code, r: Code, i: int)
    requires 0 <= i
  {
    && Keeps(code, r)
    && (forall q :: 0 <= q < i && q < |r| ==> r[q] == code[q])
    && (forall q :: i <= q < |r| ==> !Pending(r[q]))
    && SameShape(code, r)
  }

  /** correctcalls settles every open call, and changes nothing else. */
  lemma {:induction false} CorrectSettles(code: Code, positions: seq<int>, i: int)
    requires Correctable(code, positions, i)
    ensures Settled(code, Correct(code, positions, i), i)
    decreases |code| - i
  {
    if i < |code| {
      CorrectOneStep(code, positions, i);
      hide Correctable, Correct, Settled, CorrectOne, SameShape, Keeps;
      if IsOpenCall(code[i]) {
        var code' := CorrectOne(code, positions, i);
        CorrectSettles(code', positions, i + 2);
        CallSettled(code, positions, Correct(code', positions, i + 2), i);
      } else {
        CorrectSettles(code, positions, i + SizeI(code[i].op));
        OtherSettled(code, Correct(code, positions, i), i, i + SizeI(code[i].op));
      }
    } else {
      NothingToSettle(code, i);
    }
  }

  lemma NothingToSettle(code: Code, i: int)
    requires 0 <= i == |code|
    ensures Settled(code, code, i)
  {
  }

  lemma CallSettled(code: Code, positions: seq<int>, r: Code, i: int)
    requires 0 <= i && i + 1 < |code| && IsOpenCall(code[i]) && code[i].key < |positions|
    requires var code' := CorrectOne(code, positions, i);
      && Keeps(code, code') && SameShape(code, code') && !Pending(code'[i]) && !Pending(code'[i + 1])
      && Settled(code', r, i + 2)
    ensures Settled(code, r, i)
  {
    hide LeadsToRet;
  }

  lemma OtherSettled(code: Code, r: Code, i: int, next: int)
    requires 0 <= i <= next && Settled(code, r, next)
    requires forall q :: i <= q < next && q < |code| ==> !Pending(code[q])
    ensures Settled(code, r, i)
  {
  }

  /** Every call ends up in place: a call, or a jump if a return follows it. */
  lemma {:induction false} CorrectPlacesCalls(code: Code, positions: seq<int>, i: int)
    requires Correctable(code, positions, i)
    ensures forall q :: i <= q < |code| && IsOpenCall(code[q]) ==>
              CallAt(Correct(code, positions, i), q, code[q].key, positions)
    decreases |code| - i
  {
    if i < |code| {
      CorrectOneStep(code, positions, i);
      CorrectSettles(code, positions, i);
      assert LaidSlot(code, i);
      hide Correctable, Correct, CallAt;
      var r := Correct(code, positions, i);
      if IsOpenCall(code[i]) {
        var code' := CorrectOne(code, positions, i);
        CorrectSettles(code', positions, i + 2);
        CorrectPlacesCalls(code', positions, i + 2);
        CallPlacedHere(code, positions, r, i);
        hide CorrectOne, Settled, SameShape, Keeps;
        SameCallsLater(code, positions, i);
      } else {
        CorrectPlacesCalls(code, positions, i + SizeI(code[i].op));
      }
    }
  }

  lemma CallPlacedHere(code: Code, positions: seq<int>, r: Code, i: int)
    requires 0 <= i && i + 1 < |code| && IsOpenCall(code[i]) && code[i].key < |positions|
    requires Keeps(code, r) && Settled(CorrectOne(code, positions, i), r, i + 2)
    ensures CallAt(r, i, code[i].key, positions)
  {
    var code' := CorrectOne(code, positions, i);
    assert r[i] == code'[i] && r[i + 1] == code'[i + 1];
    if code'[i].op == IJmp {
      var n: nat :| IsRet(code, Hops(code, i + 2, n));
      HopsKept(code, r, i + 2, n);
    }
  }

  /** Correcting a call leaves the later ones as they are, and makes no other. */
  lemma SameCallsLater(code: Code, positions: seq<int>, i: int)
    requires 0 <= i && i + 1 < |code| && IsOpenCall(code[i]) && code[i].key < |positions| && code[i + 1].Room?
    ensures var code' := CorrectOne(code, positions, i);
      forall q :: i < q < |code| && IsOpenCall(code[q]) ==> q >= i + 2 && code'[q] == code[q]
  {
    hide LeadsToRet;
  }

  lemma RulesCorrectable(d: nat, gr: Tree)
    requires gr.Grammar? && WellMade(d, [], gr)
    ensures Correctable(GenRules(d, gr, 0), RulePositions(d, gr), 0)
  {
    RulesProper(d, gr, 0);
  }

  /** The corrected body of a grammar: properly laid out, with nothing left open, and holding
      the code of the rules. */
  lemma BodyCorrected(d: nat, gr: Tree)
    requires gr.Grammar? && WellMade(d, [], gr)
    ensures var body := Correct(GenRules(d, gr, 0), RulePositions(d, gr), 0);
      && (forall ks :: Proper(body, ks))
      && (forall q :: 0 <= q < |body| ==> !Pending(body[q]))
      && CodeAt(body, 0, GenRules(d, gr, 0), RulePositions(d, gr))
    decreases gr, 0, |gr.rules| + 2
  {
    RulesProper(d, gr, 0);
    hide GenRules, WellMade, Correct, CodeAt;
    assert |RulePositions(d, gr)| == |gr.rules|;
    var raw := GenRules(d, gr, 0);
    assert forall q :: 0 <= q < |raw| && IsOpenCall(raw[q]) ==> raw[q].key < |RulePositions(d, gr)|;
    CodeCorrected(raw, RulePositions(d, gr));
    forall ks ensures Proper(Correct(raw, RulePositions(d, gr), 0), ks) {
      SettledProper(raw, Correct(raw, RulePositions(d, gr), 0), ks);
    }
  }

  lemma CodeCorrected(raw: Code, positions: seq<int>)
    requires Laid(raw) && forall q :: 0 <= q < |raw| && IsOpenCall(raw[q]) ==> raw[q].key < |positions|
    ensures var body := Correct(raw, positions, 0);
      && Settled(raw, body, 0) && Laid(raw) && CodeAt(body, 0, raw, positions)
  {
    CorrectSettles(raw, positions, 0);
    CorrectPlacesCalls(raw, positions, 0);
    hide Correct, CallAt;
    var body := Correct(raw, positions, 0);
    forall q | 0 <= q < |raw| ensures SlotAt(body, 0 + q, raw[q], positions) {
      if !IsOpenCall(raw[q]) && !raw[q].Room? { assert !Pending(raw[q]); }
    }
  }

  lemma SettledProper(raw: Code, body: Code, ks: set<nat>)
    requires Laid(raw) && Settled(raw, body, 0)
    ensures Proper(body, ks)
  {
    forall q | 0 <= q < |body| ensures LaidSlot(body, q) {
      assert LaidSlot(raw, q);
    }
  }

  /** Jumps within a piece of code are the same wherever the piece lies. */
  lemma {:induction false} HopsMoved(seg: Code, code: Code, base: nat, x: int, n: nat)
    requires base + |seg| <= |code| && code[base..base + |seg|] == seg
    requires IsRet(seg, Hops(seg, x, n))
    ensures LeadsToRet(code, base + x)
    decreases n
  {
    assert forall q :: 0 <= q < |seg| ==> code[base + q] == seg[q];
    if n > 0 && IsJmp(seg, x) {
      HopsMoved(seg, code, base, Target(seg, x), n - 1);
      var m: nat :| IsRet(code, Hops(code, base + Target(seg, x), m));
      assert Hops(code, base + x, m + 1) == Hops(code, Target(code, base + x), m);
    } else {
      assert IsRet(code, Hops(code, base + x, 0));
    }
  }

  /** The code of rule k lies at its position in the uncorrected body. */
  lemma {:induction false} RulesSuffix(d: nat, gr: Tree, k: nat)
    requires gr.Grammar? && k <= |gr.rules|
    ensures |GenRules(d, gr, k)| <= |GenRules(d, gr, 0)|
    ensures GenRules(d, gr, 0)[|GenRules(d, gr, 0)| - |GenRules(d, gr, k)|..] == GenRules(d, gr, k)
  {
    if k > 0 {
      RulesSuffix(d, gr, k - 1);
      var before := GenRules(d, gr, k - 1);
      assert before[|before| - |GenRules(d, gr, k)|..] == GenRules(d, gr, k);
    }
  }

  /** Where the corrected body of a grammar lies, its uncorrected body lies up to open calls. */
  lemma BodyAt(code: Code, base: nat, raw: Code, body: Code, inner: seq<int>, outer: seq<int>, positions: seq<int>)
    requires CodeAt(code, base, body, outer) && CodeAt(body, 0, raw, inner) && |raw| == |body|
    requires forall q :: 0 <= q < |body| ==> !Pending(body[q])
    requires |positions| == |inner|
    requires forall k :: 0 <= k < |positions| ==> positions[k] == base + inner[k]
    ensures CodeAt(code, base, raw, positions)
  {
    forall q | 0 <= q < |body| ensures code[base + q] == body[q] {
      assert SlotAt(code, base + q, body[q], outer);
    }
    assert code[base..base + |body|] == body;
    forall k | 0 <= k < |raw| ensures SlotAt(code, base + k, raw[k], positions) {
      assert SlotAt(body, 0 + k, raw[k], inner);
      if IsOpenCall(raw[k]) {
        assert body[k + 1] == code[base + (k + 1)];
        if body[k].op == IJmp {
          var n: nat :| IsRet(body, Hops(body, k + 2, n));
          HopsMoved(body, code, base, k + 2, n);
        }
      }
    }
  }

  /** Where the body of a grammar lies, its rules lie. */
  lemma GrammarRulesAt(d: nat, code: Code, base: nat, gr: Tree, outer: seq<int>, positions: seq<int>)
    requires gr.Grammar? && WellMade(d, [], gr)
    requires CodeAt(code, base, Correct(GenRules(d, gr, 0), RulePositions(d, gr), 0), outer)
    requires |positions| == |gr.rules|
    requires forall k :: 0 <= k < |positions| ==> positions[k] == base + RulePositions(d, gr)[k]
    ensures RulesAt(d, code, gr.rules, positions)
  {
    var raw := GenRules(d, gr, 0);
    var inner := RulePositions(d, gr);
    BodyCorrected(d, gr);
    BodyAt(code, base, raw, Correct(raw, inner, 0), inner, outer, positions);
    forall k | 0 <= k < |gr.rules|
      ensures CodeAt(code, positions[k], RuleCode(d, gr.rules, k), positions)
      ensures IsRet(code, positions[k] + |RuleCode(d, gr.rules, k)|)
    {
      RuleAt(d, code, base, gr, k, positions);
    }
  }

  lemma RuleAt(d: nat, code: Code, base: nat, gr: Tree, k: nat, positions: seq<int>)
    requires gr.Grammar? && k < |gr.rules| == |positions|
    requires CodeAt(code, base, GenRules(d, gr, 0), positions)
    requires positions[k] == base + |GenRules(d, gr, 0)| - |GenRules(d, gr, k)|
    ensures CodeAt(code, positions[k], RuleCode(d, gr.rules, k), positions)
    ensures IsRet(code, positions[k] + |RuleCode(d, gr.rules, k)|)
  {
    RulesSuffix(d, gr, k);
    NextRule(d, gr, k);
    hide GenRules, RuleCode, CodeAt;
    var raw := GenRules(d, gr, 0);
    var rule := RuleCode(d, gr.rules, k);
    var rest := GenRules(d, gr, k + 1);
    var at := |raw| - |GenRules(d, gr, k)|;
    assert raw == raw[..at] + (rule + Plain(IRet, 0) + rest);
    CodeAtParts(code, base, raw[..at], rule + Plain(IRet, 0) + rest, positions);
    CodeAtParts(code, positions[k], rule + Plain(IRet, 0), rest, positions);
    CodeAtParts(code, positions[k], rule, Plain(IRet, 0), positions);
    RetAt(code, positions[k] + |rule|, positions);
  }

  lemma NextRule(d: nat, gr: Tree, k: nat)
    requires gr.Grammar? && k < |gr.rules|
    ensures GenRules(d, gr, k) == RuleCode(d, gr.rules, k) + Plain(IRet, 0) + GenRules(d, gr, k + 1)
  {
    hide Gen;
  }

  lemma RetAt(code: Code, pc: int, positions: seq<int>)
    requires CodeAt(code, pc, Plain(IRet, 0), positions)
    ensures IsRet(code, pc)
  {
    assert SlotAt(code, pc + 0, Plain(IRet, 0)[0], positions);
  }
}

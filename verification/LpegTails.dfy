/** Where one gets who follows the jumps from the beginning of generated code: through all of it,
    to a call that is made a jump because nothing follows it, or no further than some instruction. */
module LpegTails {
  import opened LpegSyntax
  import opened LpegAnalysis
  import opened LpegMachine
  import opened LpegCodegen
  import opened LpegGrammar
  import opened LpegLayout
  import opened LpegPeephole

  datatype Beginning = Through | TailCall(k: nat) | Stops

  /** No character and no end of the subject can begin a match of p: its test is a jump. */
  predicate NeverStarts(g: Rules, p: Tree, d: nat) {
    var f := GetFirst(g, p, FULLSET, d);
    !f.empty && f.cs == {}
  }

  /** One piece of code after another. A call is the last one if nothing else stops the jumps. */
  function Then(first: Beginning, second: Beginning): Beginning {
    match first
    case Through => second
    case TailCall(k) => if second.Through? then first else Stops
    case Stops => Stops
  }

  /** How the code of t begins. */
  function Enters(d: nat, g: Rules, t: Tree): Beginning {
    match t
    case True => Through
    case Call(k) => TailCall(k)
    case Behind(n, p) => if n == 0 then Enters(d, g, p) else Stops
    case And(p) => if FixedLen(g, p, d) == 0 then Enters(d, g, p) else Stops
    case Not(p) => if NeverStarts(g, p, d) then Through else Stops
    case Rep(p) => if !IsCharPattern(p) && NeverStarts(g, p, d) then Through else Stops
    case Choice(p1, p2) => if NeverStarts(g, p1, d) then Enters(d, g, p2) else Stops
    case Seq(p1, p2) => Then(Enters(d, g, p1), Enters(d, g, p2))
    case _ => Stops
  }

  // ----- following jumps -----

  /** c holds the code a from address base on. */
  ghost predicate Holds(c: Code, base: nat, a: Code) {
    base + |a| <= |c| && forall q :: 0 <= q < |a| ==> c[base + q] == a[q]
  }

  lemma {:induction false} HopsTwice(c: Code, x: int, n: nat, m: nat)
    ensures Hops(c, x, n + m) == Hops(c, Hops(c, x, n), m)
    decreases n
  {
    if n > 0 && IsJmp(c, x) { HopsTwice(c, Target(c, x), n - 1, m); }
  }

  lemma LeadsTwice(c: Code, x: int, y: int, z: int)
    requires Leads(c, x, y) && Leads(c, y, z)
    ensures Leads(c, x, z)
  {
    var n: nat :| Hops(c, x, n) == y;
    var m: nat :| Hops(c, y, m) == z;
    HopsTwice(c, x, n, m);
  }

  lemma LeadsOnce(c: Code, x: int)
    requires IsJmp(c, x)
    ensures Leads(c, x, Target(c, x))
  {
    assert Hops(c, x, 1) == Target(c, x);
  }

  /** The jumps of a piece lead through the same places of the whole. */
  lemma {:induction false} HopsIn(c: Code, base: nat, a: Code, x: int, n: nat)
    requires Holds(c, base, a)
    ensures Leads(c, base + x, base + Hops(a, x, n))
    decreases n
  {
    if n > 0 && IsJmp(a, x) {
      HopsIn(c, base, a, Target(a, x), n - 1);
      LeadsOnce(c, base + x);
      LeadsTwice(c, base + x, base + Target(a, x), base + Hops(a, x, n));
    } else {
      LeadsSelf(c, base + x);
    }
  }

  lemma LeadsIn(c: Code, base: nat, a: Code, x: int, y: int)
    requires Holds(c, base, a) && Leads(a, x, y)
    ensures Leads(c, base + x, base + y)
  {
    var n: nat :| Hops(a, x, n) == y;
    HopsIn(c, base, a, x, n);
  }

  /** Following jumps has one end. */
  lemma {:induction false} OneEnd(c: Code, x: int, n: nat, m: nat)
    requires !IsJmp(c, Hops(c, x, n)) && !IsJmp(c, Hops(c, x, m))
    ensures Hops(c, x, n) == Hops(c, x, m)
    decreases n
  {
    if n > 0 && m > 0 && IsJmp(c, x) { OneEnd(c, Target(c, x), n - 1, m - 1); }
  }

  // ----- code that can be put together -----

  /** An instruction of a pattern that is no jump. */
  predicate Halts(c: Code, z: int) {
    0 <= z < |c| && c[z].Inst? && c[z].op != IJmp && c[z].op != IRet
  }

  /** The jumps from p end at z, at the end of the code or at an instruction; if that is an open
      call, it does not come before p. */
  ghost predicate EndsAt(c: Code, p: int, z: int) {
    && Leads(c, p, z) && (z == |c| || Halts(c, z))
    && (0 <= z < |c| && IsOpenCall(c[z]) ==> z >= p)
  }

  ghost predicate Settles(c: Code, p: int) {
    exists z :: EndsAt(c, p, z)
  }

  /** So it is after each open call from address lo to address hi, */
  ghost predicate NeatIn(c: Code, lo: int, hi: int) {
    && 0 <= lo <= hi <= |c|
    && forall q :: lo <= q < hi && IsOpenCall(c[q]) ==> q + 2 <= |c| && Settles(c, q + 2)
  }

  /** and also at the beginning. */
  ghost predicate Neat(c: Code) { Settles(c, 0) && NeatIn(c, 0, |c|) }

  /** The jumps from x end at an instruction of the code. */
  ghost predicate Blocked(c: Code, x: int) {
    exists z :: Leads(c, x, z) && Halts(c, z)
  }

  ghost predicate CallsLast(c: Code, y: int, k: nat) {
    0 <= y < |c| && Leads(c, 0, y) && IsOpenCall(c[y]) && c[y].key == k && Leads(c, y + 2, |c|)
  }

  ghost predicate StopsAt(c: Code, y: int) {
    Leads(c, 0, y) && Halts(c, y) && (IsOpenCall(c[y]) ==> Blocked(c, y + 2))
  }

  /** The code begins as e says. */
  ghost predicate Begins(c: Code, e: Beginning) {
    match e
    case Through => Leads(c, 0, |c|)
    case TailCall(k) => exists y :: CallsLast(c, y, k)
    case Stops => exists y :: StopsAt(c, y)
  }

  ghost predicate Good(c: Code, e: Beginning) { Neat(c) && Begins(c, e) }

  lemma BlockedIn(c: Code, base: nat, a: Code, x: int)
    requires Holds(c, base, a) && Blocked(a, x)
    ensures Blocked(c, base + x)
  {
    var z :| Leads(a, x, z) && Halts(a, z);
    LeadsIn(c, base, a, x, z);
    assert Halts(c, base + z);
  }

  lemma SettlesIn(c: Code, base: nat, a: Code, p: int)
    requires Holds(c, base, a) && 0 <= p <= |a| && Settles(a, p) && Settles(c, base + |a|)
    ensures Settles(c, base + p)
  {
    var z :| EndsAt(a, p, z);
    LeadsIn(c, base, a, p, z);
    if z == |a| {
      var z' :| EndsAt(c, base + |a|, z');
      LeadsTwice(c, base + p, base + z, z');
      assert EndsAt(c, base + p, z');
    } else {
      assert EndsAt(c, base + p, base + z);
    }
  }

  /** A piece stays neat in a whole that goes on neatly after it. */
  lemma PieceNeat(c: Code, base: nat, a: Code)
    requires Holds(c, base, a) && Neat(a) && Settles(c, base + |a|)
    ensures NeatIn(c, base, base + |a|) && Settles(c, base)
  {
    hide Settles;
    forall q | base <= q < base + |a| && IsOpenCall(c[q]) ensures q + 2 <= |c| && Settles(c, q + 2) {
      assert IsOpenCall(a[q - base]);
      SettlesIn(c, base, a, q - base + 2);
      assert base + (q - base + 2) == q + 2;
    }
    SettlesIn(c, base, a, 0);
    assert base + 0 == base;
  }

  // ----- the ways of assembling code -----

  predicate NoCalls(c: Code) {
    forall q :: 0 <= q < |c| ==> !IsOpenCall(c[q])
  }

  lemma SettlesEnd(c: Code)
    ensures Settles(c, |c|)
  {
    LeadsSelf(c, |c|);
    assert EndsAt(c, |c|, |c|);
  }

  lemma SettlesHere(c: Code, z: int)
    requires Halts(c, z)
    ensures Settles(c, z)
  {
    LeadsSelf(c, z);
    assert EndsAt(c, z, z);
  }

  /** A jump forward, or back to what is no call. */
  lemma SettlesJump(c: Code, x: int)
    requires IsJmp(c, x) && Settles(c, Target(c, x))
    requires x <= Target(c, x) || (Halts(c, Target(c, x)) && !IsOpenCall(c[Target(c, x)]))
    ensures Settles(c, x)
  {
    LeadsOnce(c, x);
    var y := Target(c, x);
    if x <= y {
      var z :| EndsAt(c, y, z);
      LeadsTwice(c, x, y, z);
      assert EndsAt(c, x, z);
    } else {
      assert EndsAt(c, x, y);
    }
  }

  lemma BeginsStopped(c: Code)
    requires Halts(c, 0) && !IsOpenCall(c[0])
    ensures Settles(c, 0) && Begins(c, Stops)
  {
    SettlesHere(c, 0);
    LeadsSelf(c, 0);
    assert StopsAt(c, 0);
  }

  /** Code that begins with a jump to a piece at its end begins as that piece does. */
  lemma BeginsLater(c: Code, base: nat, a: Code, e: Beginning)
    requires Holds(c, base, a) && base + |a| == |c| && Leads(c, 0, base) && Begins(a, e)
    ensures Begins(c, e)
  {
    match e
    case Through =>
      LeadsIn(c, base, a, 0, |a|);
      LeadsTwice(c, 0, base, |c|);
    case TailCall(k) =>
      var y :| CallsLast(a, y, k);
      LeadsIn(c, base, a, 0, y);
      LeadsIn(c, base, a, y + 2, |a|);
      LeadsTwice(c, 0, base, base + y);
      assert CallsLast(c, base + y, k);
    case Stops =>
      var y :| StopsAt(a, y);
      LeadsIn(c, base, a, 0, y);
      LeadsTwice(c, 0, base, base + y);
      if IsOpenCall(a[y]) { BlockedIn(c, base, a, y + 2); }
      assert StopsAt(c, base + y);
  }

  lemma CallThenStop(a: Code, b: Code, k: nat, w: int)
    requires Begins(a, TailCall(k)) && Leads(a + b, |a|, w) && Halts(a + b, w)
    ensures Begins(a + b, Stops)
  {
    var c := a + b;
    var y :| CallsLast(a, y, k);
    LeadsIn(c, 0, a, 0, y);
    LeadsIn(c, 0, a, y + 2, |a|);
    LeadsTwice(c, y + 2, |a|, w);
    assert Blocked(c, y + 2);
    assert StopsAt(c, y);
  }

  lemma SequenceBegins(a: Code, b: Code, e1: Beginning, e2: Beginning)
    requires Begins(a, e1) && Begins(b, e2)
    ensures Begins(a + b, Then(e1, e2))
  {
    var c := a + b;
    if e1.Through? {
      LeadsIn(c, 0, a, 0, |a|);
      BeginsLater(c, |a|, b, e2);
    } else if e1.Stops? {
      var y :| StopsAt(a, y);
      LeadsIn(c, 0, a, 0, y);
      if IsOpenCall(a[y]) { BlockedIn(c, 0, a, y + 2); }
      assert StopsAt(c, y);
    } else if e2.Through? {
      var y :| CallsLast(a, y, e1.k);
      LeadsIn(c, 0, a, 0, y);
      LeadsIn(c, 0, a, y + 2, |a|);
      LeadsIn(c, |a|, b, 0, |b|);
      LeadsTwice(c, y + 2, |a|, |c|);
      assert CallsLast(c, y, e1.k);
    } else {
      var w := FirstStop(b, e2);
      LeadsIn(c, |a|, b, 0, w);
      assert Halts(c, |a| + w);
      CallThenStop(a, b, e1.k, |a| + w);
    }
  }

  lemma FirstStop(b: Code, e: Beginning) returns (w: int)
    requires Begins(b, e) && !e.Through?
    ensures Leads(b, 0, w) && Halts(b, w)
  {
    if e.Stops? {
      w :| StopsAt(b, w);
    } else {
      w :| CallsLast(b, w, e.k);
    }
  }

  lemma GoodSequence(a: Code, b: Code, e1: Beginning, e2: Beginning)
    requires Good(a, e1) && Good(b, e2)
    ensures Good(a + b, Then(e1, e2))
  {
    SequenceBegins(a, b, e1, e2);
    hide Begins, Settles;
    SettlesEnd(a + b);
    PieceNeat(a + b, |a|, b);
    PieceNeat(a + b, 0, a);
  }

  /** One instruction, with its operands, that is no jump and no call. */
  lemma GoodInstruction(c: Code)
    requires Halts(c, 0) && NoCalls(c)
    ensures Good(c, Stops)
  {
    BeginsStopped(c);
  }

  lemma GoodNothing()
    ensures Good([], Through)
  {
    SettlesEnd([]);
    LeadsSelf([], 0);
  }

  lemma GoodCall(k: nat)
    ensures Good([Inst(IOpenCall, 0, k), Room], TailCall(k))
  {
    var c := [Inst(IOpenCall, 0, k), Room];
    SettlesEnd(c);
    SettlesHere(c, 0);
    LeadsSelf(c, 0);
    LeadsSelf(c, 2);
    assert CallsLast(c, 0, k);
  }

  /** How a test begins the code it is part of. */
  lemma TestBegins(cs: Charset, empty: bool, off: int, rest: Code)
    ensures NoCalls(CodeTest(cs, empty, off))
    ensures var c := CodeTest(cs, empty, off) + rest;
      && (!empty && cs == {} ==> IsJmp(c, 0) && Target(c, 0) == off)
      && (!empty && cs != {} ==> Halts(c, 0) && !IsOpenCall(c[0]))
      && (empty ==> c == rest)
  {
  }

  /** c is made of a piece and of instructions that are no calls. */
  ghost predicate Around(c: Code, base: nat, a: Code) {
    && Holds(c, base, a)
    && forall q :: 0 <= q < base || base + |a| <= q < |c| ==> !IsOpenCall(c[q])
  }

  lemma AroundNeat(c: Code, base: nat, a: Code)
    requires Around(c, base, a) && Neat(a) && Settles(c, base + |a|)
    ensures NeatIn(c, 0, |c|) && Settles(c, base)
  {
    hide Settles;
    PieceNeat(c, base, a);
  }

  /** c is made of two pieces, the second one at its end, and of instructions that are no calls. */
  ghost predicate AroundTwo(c: Code, b1: nat, c1: Code, b2: nat, c2: Code) {
    && Holds(c, b1, c1) && Holds(c, b2, c2) && b1 + |c1| <= b2 && b2 + |c2| == |c|
    && forall q :: 0 <= q < b1 || b1 + |c1| <= q < b2 ==> !IsOpenCall(c[q])
  }

  /** The test of a choice decides at once, or the choice begins with an instruction. */
  ghost predicate StartsChoice(c: Code, b2: nat, never: bool) {
    if never then IsJmp(c, 0) && Target(c, 0) == b2 else Halts(c, 0) && !IsOpenCall(c[0])
  }

  lemma GoodChoice(c: Code, b1: nat, c1: Code, b2: nat, c2: Code, e1: Beginning, e2: Beginning, never: bool)
    requires AroundTwo(c, b1, c1, b2, c2) && Good(c1, e1) && Good(c2, e2) && StartsChoice(c, b2, never)
    requires Halts(c, b1 + |c1|) || b1 + |c1| == b2 || (IsJmp(c, b1 + |c1|) && Target(c, b1 + |c1|) == |c|)
    ensures Good(c, if never then e2 else Stops)
  {
    hide Begins, Settles;
    var p := b1 + |c1|;
    SettlesEnd(c);
    PieceNeat(c, b2, c2);
    if Halts(c, p) { SettlesHere(c, p); } else if p != b2 { SettlesJump(c, p); }
    PieceNeat(c, b1, c1);
    if never {
      LeadsOnce(c, 0);
      SettlesJump(c, 0);
      BeginsLater(c, b2, c2, e2);
    } else {
      BeginsStopped(c);
    }
  }

  /** Where two pieces lie, between others. */
  lemma TwoPlaced(a: Code, c1: Code, m: Code, c2: Code)
    requires NoCalls(a) && NoCalls(m)
    ensures var c := a + c1 + m + c2; AroundTwo(c, |a|, c1, |a| + |c1| + |m|, c2)
    ensures var c := a + c1 + m + c2; forall k :: 0 <= k < |m| ==> c[|a| + |c1| + k] == m[k]
    ensures var c := a + c1 + m + c2; forall k :: 0 <= k < |a| ==> c[k] == a[k]
  {
  }

  lemma TestedChoiceAround(cs: Charset, c1: Code, emptyp2: bool, c2: Code)
    ensures var jmp := if emptyp2 then 0 else 2;
      var (c, b1) := (TestedChoice(cs, c1, emptyp2, c2), TestSize(cs, false));
      var b2 := b1 + |c1| + jmp;
      && AroundTwo(c, b1, c1, b2, c2) && StartsChoice(c, b2, cs == {})
      && (!emptyp2 ==> IsJmp(c, b1 + |c1|) && Target(c, b1 + |c1|) == |c|)
  {
    hide CodeTest, TestSize, AroundTwo, StartsChoice;
    var jmp := if emptyp2 then [] else Jump(IJmp, 2 + |c2|);
    var off := TestSize(cs, false) + |c1| + |jmp|;
    TestStarts(cs, off, c1, jmp, c2);
    if !emptyp2 { JumpAfter(CodeTest(cs, false, off), c1, c2); }
  }

  lemma TestStarts(cs: Charset, off: int, c1: Code, m: Code, c2: Code)
    requires NoCalls(m) && off == TestSize(cs, false) + |c1| + |m|
    ensures var (test, b1) := (CodeTest(cs, false, off), TestSize(cs, false));
      && |test| == b1 && StartsChoice(test + c1 + m + c2, b1 + |c1| + |m|, cs == {})
      && AroundTwo(test + c1 + m + c2, b1, c1, b1 + |c1| + |m|, c2)
  {
    TestBegins(cs, false, off, c1 + m + c2);
    hide CodeTest, TestSize, AroundTwo;
    var test := CodeTest(cs, false, off);
    assert test + (c1 + m + c2) == test + c1 + m + c2;
    TwoPlaced(test, c1, m, c2);
  }

  lemma JumpAfter(test: Code, c1: Code, c2: Code)
    ensures var c := test + c1 + Jump(IJmp, 2 + |c2|) + c2;
      IsJmp(c, |test| + |c1|) && Target(c, |test| + |c1|) == |c|
  {
    var m := Jump(IJmp, 2 + |c2|);
    var c := test + c1 + m + c2;
    assert c[|test| + |c1|] == m[0] && c[|test| + |c1| + 1] == m[1];
  }

  lemma GoodTestedChoice(cs: Charset, c1: Code, emptyp2: bool, c2: Code, e1: Beginning, e2: Beginning)
    requires Good(c1, e1) && Good(c2, e2)
    ensures Good(TestedChoice(cs, c1, emptyp2, c2), if cs == {} then e2 else Stops)
  {
    hide Good, TestedChoice, TestSize, StartsChoice;
    TestedChoiceAround(cs, c1, emptyp2, c2);
    var b1 := TestSize(cs, false);
    GoodChoice(TestedChoice(cs, c1, emptyp2, c2), b1, c1, b1 + |c1| + if emptyp2 then 0 else 2, c2, e1, e2, cs == {});
  }

  lemma FullChoiceAround(f: First, c1: Code, c2: Code)
    ensures var (c, b1) := (FullChoice(f, c1, c2), TestSize(f.cs, f.empty) + 2);
      var b2 := b1 + |c1| + 2;
      && AroundTwo(c, b1, c1, b2, c2) && StartsChoice(c, b2, !f.empty && f.cs == {}) && Halts(c, b1 + |c1|)
  {
    var (choice, commit) := (Jump(IChoice, 2 + |c1| + 2), Jump(ICommit, 2 + |c2|));
    var off := TestSize(f.cs, f.empty) + 2 + |c1| + 2;
    hide TestSize, CodeTest, AroundTwo;
    TestBegins(f.cs, f.empty, off, choice + c1 + commit + c2);
    ChoicePlaced(CodeTest(f.cs, f.empty, off), choice, c1, commit, c2);
  }

  lemma ChoicePlaced(test: Code, choice: Code, c1: Code, commit: Code, c2: Code)
    requires NoCalls(test) && NoCalls(choice) && NoCalls(commit) && Halts(choice, 0) && Halts(commit, 0)
    ensures var c := test + choice + c1 + commit + c2;
      && c == test + (choice + c1 + commit + c2)
      && AroundTwo(c, |test| + |choice|, c1, |test| + |choice| + |c1| + |commit|, c2)
      && Halts(c, |test| + |choice| + |c1|)
      && (test == [] ==> Halts(c, 0) && !IsOpenCall(c[0]))
  {
    TwoPlaced(test + choice, c1, commit, c2);
    hide AroundTwo;
    FirstApart(test, choice, c1, commit, c2);
    assert commit[0] == (test + choice + c1 + commit + c2)[|test| + |choice| + |c1| + 0];
  }

  lemma FirstApart(a: Code, b: Code, c: Code, d: Code, e: Code)
    ensures a + b + c + d + e == a + (b + c + d + e)
  {
  }

  lemma GoodFullChoice(f: First, c1: Code, c2: Code, e1: Beginning, e2: Beginning)
    requires Good(c1, e1) && Good(c2, e2)
    ensures Good(FullChoice(f, c1, c2), if !f.empty && f.cs == {} then e2 else Stops)
  {
    hide Good, FullChoice, TestSize, StartsChoice;
    FullChoiceAround(f, c1, c2);
    var b1 := TestSize(f.cs, f.empty) + 2;
    GoodChoice(FullChoice(f, c1, c2), b1, c1, b1 + |c1| + 2, c2, e1, e2, !f.empty && f.cs == {});
  }

  /** One piece between instructions that are no calls: its end does not matter when something
      stops after it, or leads to the end, or back to a test. */
  lemma GoodAround(c: Code, base: nat, a: Code, e: Beginning, never: bool)
    requires Around(c, base, a) && Good(a, e) && StartsChoice(c, |c|, never)
    requires var p := base + |a|; p == |c| || Halts(c, p) || (IsJmp(c, p) && Target(c, p) == 0)
    ensures Good(c, if never then Through else Stops)
  {
    hide Begins, Settles;
    var p := base + |a|;
    SettlesEnd(c);
    if never {
      LeadsOnce(c, 0);
      SettlesJump(c, 0);
    } else {
      BeginsStopped(c);
    }
    if p != |c| {
      if Halts(c, p) { SettlesHere(c, p); } else if never { BackThrough(c, p); } else { SettlesJump(c, p); }
    }
    AroundNeat(c, base, a);
    assert never ==> Begins(c, Through) by { BeginsEnd(c); }
  }

  lemma BeginsEnd(c: Code)
    ensures Leads(c, 0, |c|) ==> Begins(c, Through)
  {
  }

  /** Back to a test that is a jump to the end. */
  lemma BackThrough(c: Code, p: int)
    requires IsJmp(c, p) && Target(c, p) == 0 && IsJmp(c, 0) && Target(c, 0) == |c|
    ensures Settles(c, p)
  {
    LeadsOnce(c, p);
    LeadsOnce(c, 0);
    LeadsTwice(c, p, 0, |c|);
    assert EndsAt(c, p, |c|);
  }

  lemma GoodTestedRep(cs: Charset, c: Code, e: Beginning)
    requires Good(c, e)
    ensures Good(TestedRep(cs, c), if cs == {} then Through else Stops)
  {
    hide Good, CodeTest, TestSize, Begins, Neat, Around;
    var k := TestSize(cs, false);
    var n := k + |c|;
    var (test, back) := (CodeTest(cs, false, n + 2), Jump(IJmp, -n));
    TestBegins(cs, false, n + 2, c + back);
    RepAround(test, c, back);
    GoodAround(TestedRep(cs, c), k, c, e, cs == {});
  }

  lemma RepAround(test: Code, c: Code, back: Code)
    requires NoCalls(test) && NoCalls(back) && |back| > 1
    ensures var whole := test + c + back;
      && whole == test + (c + back) && Around(whole, |test|, c)
      && whole[|test| + |c|] == back[0] && whole[|test| + |c| + 1] == back[1]
  {
  }

  /** A piece behind a test and an instruction, with another one after it. */
  lemma GoodTested(f: First, enter: Code, c: Code, last: Code, e: Beginning)
    requires Good(c, e) && NoCalls(enter) && NoCalls(last) && Halts(enter, 0) && Halts(last, 0)
    ensures var off := TestSize(f.cs, f.empty) + |enter| + |c| + |last|;
      Good(CodeTest(f.cs, f.empty, off) + enter + c + last, if !f.empty && f.cs == {} then Through else Stops)
  {
    var k := TestSize(f.cs, f.empty);
    var off := k + |enter| + |c| + |last|;
    var test := CodeTest(f.cs, f.empty, off);
    TestBegins(f.cs, f.empty, off, enter + c + last);
    hide Good, CodeTest, TestSize, Begins, Neat;
    var whole := test + enter + c + last;
    assert whole == test + (enter + c + last);
    TestedAround(test, enter, c, last);
    GoodAround(whole, k + |enter|, c, e, !f.empty && f.cs == {});
  }

  lemma TestedAround(test: Code, enter: Code, c: Code, last: Code)
    requires NoCalls(test) && NoCalls(enter) && NoCalls(last) && Halts(enter, 0) && Halts(last, 0)
    ensures var whole := test + enter + c + last;
      && Around(whole, |test| + |enter|, c) && Halts(whole, |test| + |enter| + |c|)
      && (test == [] ==> Halts(whole, 0) && !IsOpenCall(whole[0]))
  {
    var whole := test + enter + c + last;
    PieceAround(test + enter, c, last);
    hide Around;
    assert whole[|test| + |enter| + |c|] == last[0];
    assert test == [] ==> whole[0] == enter[0];
  }

  lemma PieceAround(a: Code, c: Code, m: Code)
    requires NoCalls(a) && NoCalls(m)
    ensures Around(a + c + m, |a|, c)
  {
  }

  lemma GoodFullRep(f: First, opt: bool, c: Code, e: Beginning)
    requires Good(c, e)
    ensures Good(FullRep(f, opt, c), if !f.empty && f.cs == {} then Through else Stops)
  {
    hide Good, CodeTest, TestSize;
    GoodTested(f, EnterRep(opt, c), c, Jump(IPartialCommit, -|c|), e);
  }

  lemma GoodFullNot(f: First, c: Code, e: Beginning)
    requires Good(c, e)
    ensures Good(FullNot(f, c), if !f.empty && f.cs == {} then Through else Stops)
  {
    hide Good, CodeTest, TestSize;
    GoodTested(f, Jump(IChoice, 2 + |c| + 1), c, Plain(IFailTwice, 0), e);
  }

  lemma GoodFailNot(cs: Charset)
    ensures Good(CodeTest(cs, false, TestSize(cs, false) + 1) + Plain(IFail, 0), if cs == {} then Through else Stops)
  {
    var k := TestSize(cs, false);
    TestBegins(cs, false, k + 1, Plain(IFail, 0));
    hide CodeTest, TestSize;
    GoodNothing();
    GoodAround(CodeTest(cs, false, k + 1) + Plain(IFail, 0), k, [], Through, cs == {});
  }

  lemma GoodFullAnd(c: Code, e: Beginning)
    requires Good(c, e)
    ensures Good(FullAnd(c), Stops)
  {
    hide Good;
    assert FullAnd(c)[2 + |c|] == Jump(IBackCommit, 3)[0];
    GoodAround(FullAnd(c), 2, c, e, false);
  }

  lemma GoodPartial(c: Code, e: Beginning)
    requires Good(c, e)
    ensures Good(Jump(IPartialCommit, 2) + c, Stops)
  {
    hide Good;
    GoodAround(Jump(IPartialCommit, 2) + c, 2, c, e, false);
  }

  lemma GoodStepBack(n: nat)
    ensures Good(StepBack(n), if n == 0 then Through else Stops)
  {
    if n == 0 { GoodNothing(); } else { GoodInstruction(Plain(IBehind, n)); }
  }

  // ----- generated code -----

  lemma {:induction false} GenGood(d: nat, g: Rules, t: Tree, opt: bool, tt: Test, fl: Charset)
    requires WellMade(d, g, t)
    ensures Good(Gen(d, g, t, opt, tt, fl), Enters(d, g, t))
    decreases t
  {
    hide Good, GetFirst, CheckAux, HeadFail, FixedLen;
    match t
    case True => GoodNothing();
    case Call(k) => GoodCall(k);
    case Choice(p1, p2) => ChoiceGood(d, g, t, opt, fl);
    case Rep(p) => RepGood(d, g, t, opt, fl);
    case Not(p) => NotGood(d, g, t);
    case And(p) =>
      var n := FixedLen(g, p, d);
      var c := Gen(d, g, p, false, tt, FULLSET);
      GenGood(d, g, p, false, tt, FULLSET);
      if 0 <= n <= MAXBEHIND {
        GoodStepBack(n);
        GoodSequence(c, StepBack(n), Enters(d, g, p), if n == 0 then Through else Stops);
        ThenThrough(Enters(d, g, p));
      } else {
        GoodFullAnd(c, Enters(d, g, p));
      }
    case Behind(n, p) =>
      GenGood(d, g, p, false, NoTest, FULLSET);
      GoodStepBack(n);
      GoodSequence(StepBack(n), Gen(d, g, p, false, NoTest, FULLSET), if n == 0 then Through else Stops, Enters(d, g, p));
    case Seq(p1, p2) =>
      var (fl1, tt2) := (SeqFollow(d, g, p1, p2, fl), SeqTest(d, g, p1, tt));
      GenGood(d, g, p1, false, tt, fl1);
      GenGood(d, g, p2, opt, tt2, fl);
      GoodSequence(Gen(d, g, p1, false, tt, fl1), Gen(d, g, p2, opt, tt2, fl), Enters(d, g, p1), Enters(d, g, p2));
    case Grammar(rs) => GrammarGood(d, g, t, opt, tt, fl);
    case _ => LeafGood(d, g, t, opt, tt, fl);
  }

  lemma ThenThrough(e: Beginning)
    ensures Then(e, Through) == e && Then(e, Stops) == Stops
  {
  }

  lemma LeafGood(d: nat, g: Rules, t: Tree, opt: bool, tt: Test, fl: Charset)
    requires IsCharPattern(t) || t.False?
    ensures Good(Gen(d, g, t, opt, tt, fl), Stops)
  {
    GoodInstruction(Gen(d, g, t, opt, tt, fl));
  }

  lemma GrammarGood(d: nat, g: Rules, t: Tree, opt: bool, tt: Test, fl: Charset)
    requires WellMade(d, g, t) && t.Grammar?
    ensures Good(Gen(d, g, t, opt, tt, fl), Stops)
  {
    BodyCorrected(d, t);
    hide Good, GenRules, WellMade, Correct;
    GoodInstruction(Gen(d, g, t, opt, tt, fl));
  }

  lemma {:induction false} ChoiceGood(d: nat, g: Rules, t: Tree, opt: bool, fl: Charset)
    requires WellMade(d, g, t) && t.Choice?
    ensures Good(CodeChoice(d, g, t, opt, fl), Enters(d, g, t))
    decreases t, 0
  {
    hide Good, GetFirst, CheckAux, FixedLen, Gen;
    var (p1, p2) := (t.p1, t.p2);
    var f1 := GetFirst(g, p1, FULLSET, d);
    var (e1, e2) := (Enters(d, g, p1), Enters(d, g, p2));
    GenGood(d, g, p2, opt, NoTest, fl);
    var c2 := Gen(d, g, p2, opt, NoTest, fl);
    if TestDecidesChoice(d, g, p1, p2, fl) {
      if HeadFail(g, p1, d) { HeadFailEmpty(g, p1, d); }
      GenGood(d, g, p1, false, TestFor(f1.cs, false), fl);
      GoodTestedChoice(f1.cs, Gen(d, g, p1, false, TestFor(f1.cs, false), fl), p2.True?, c2, e1, e2);
    } else if opt && p2.True? {
      GenGood(d, g, p1, true, NoTest, FULLSET);
      GoodPartial(Gen(d, g, p1, true, NoTest, FULLSET), e1);
    } else {
      GenGood(d, g, p1, p2.True?, TestFor(f1.cs, f1.empty), FULLSET);
      GoodFullChoice(f1, Gen(d, g, p1, p2.True?, TestFor(f1.cs, f1.empty), FULLSET), c2, e1, e2);
    }
  }

  lemma {:induction false} RepGood(d: nat, g: Rules, t: Tree, opt: bool, fl: Charset)
    requires WellMade(d, g, t) && t.Rep?
    ensures Good(CodeRep(d, g, t, opt, fl), Enters(d, g, t))
    decreases t, 0
  {
    hide Good, GetFirst, CheckAux, FixedLen, Gen;
    var p := t.body;
    var f := GetFirst(g, p, FULLSET, d);
    if IsCharPattern(p) {
      GoodInstruction(Plain(ISpan, 0) + BuffOf(CharsOf(p)));
    } else if TestDecidesRep(d, g, p, fl) {
      if HeadFail(g, p, d) { HeadFailEmpty(g, p, d); }
      GenGood(d, g, p, false, TestFor(f.cs, false), FULLSET);
      GoodTestedRep(f.cs, Gen(d, g, p, false, TestFor(f.cs, false), FULLSET), Enters(d, g, p));
    } else {
      GenGood(d, g, p, false, NoTest, FULLSET);
      GoodFullRep(f, opt, Gen(d, g, p, false, NoTest, FULLSET), Enters(d, g, p));
    }
  }

  lemma {:induction false} NotGood(d: nat, g: Rules, t: Tree)
    requires WellMade(d, g, t) && t.Not?
    ensures Good(CodeNot(d, g, t), Enters(d, g, t))
    decreases t, 0
  {
    hide Good, GetFirst, CheckAux, FixedLen, Gen;
    var p := t.body;
    var f := GetFirst(g, p, FULLSET, d);
    if HeadFail(g, p, d) {
      HeadFailEmpty(g, p, d);
      GoodFailNot(f.cs);
    } else {
      GenGood(d, g, p, false, NoTest, FULLSET);
      GoodFullNot(f, Gen(d, g, p, false, NoTest, FULLSET), Enters(d, g, p));
    }
  }

  // ----- the rules of a grammar -----

  /** The jumps from p end at an instruction, which is no call before p. */
  ghost predicate Turns(c: Code, p: int) {
    exists z :: TurnsAt(c, p, z)
  }

  ghost predicate TurnsAt(c: Code, p: int, z: int) {
    && Leads(c, p, z) && 0 <= z < |c| && c[z].Inst? && c[z].op != IJmp
    && (IsOpenCall(c[z]) ==> z >= p)
  }

  /** So it is after every open call. */
  ghost predicate Ready(c: Code) {
    forall q :: 0 <= q < |c| && IsOpenCall(c[q]) ==> Turns(c, q + 2)
  }

  lemma TurnsIn(c: Code, base: nat, a: Code, p: int)
    requires Holds(c, base, a) && Turns(a, p)
    ensures Turns(c, base + p)
  {
    var z :| TurnsAt(a, p, z);
    LeadsIn(c, base, a, p, z);
    assert TurnsAt(c, base + p, base + z);
  }

  lemma SettledTurns(c: Code, base: nat, a: Code, p: int)
    requires Holds(c, base, a) && 0 <= p <= |a| && Settles(a, p) && IsRet(c, base + |a|)
    ensures Turns(c, base + p)
  {
    var z :| EndsAt(a, p, z);
    LeadsIn(c, base, a, p, z);
    assert TurnsAt(c, base + p, base + z);
  }

  lemma RuleReady(rule: Code, rest: Code)
    requires Neat(rule) && Ready(rest)
    ensures Ready(rule + Plain(IRet, 0) + rest)
  {
    var (c, n) := (rule + Plain(IRet, 0) + rest, |rule|);
    assert Holds(c, 0, rule) && Holds(c, n + 1, rest) && IsRet(c, 0 + n) && !IsOpenCall(c[n]);
    hide Neat, Ready;
    RuleCalls(c, rule);
    RestCalls(c, n + 1, rest);
    assert Ready(c) by { ReadyParts(c, n); }
  }

  ghost predicate ReadyIn(c: Code, lo: int, hi: int) {
    forall q :: 0 <= lo <= q < hi <= |c| && IsOpenCall(c[q]) ==> Turns(c, q + 2)
  }

  lemma ReadyParts(c: Code, n: nat)
    requires n < |c| && ReadyIn(c, 0, n) && ReadyIn(c, n + 1, |c|) && !IsOpenCall(c[n])
    ensures Ready(c)
  {
    hide Turns;
  }

  lemma RuleCalls(c: Code, rule: Code)
    requires Holds(c, 0, rule) && IsRet(c, 0 + |rule|) && Neat(rule)
    ensures ReadyIn(c, 0, |rule|)
  {
    hide Settles, Turns;
    forall q | 0 <= q < |rule| && IsOpenCall(c[q]) ensures Turns(c, q + 2) {
      assert c[0 + q] == rule[q];
      SettledTurns(c, 0, rule, q + 2);
      assert 0 + (q + 2) == q + 2;
    }
  }

  lemma RestCalls(c: Code, base: nat, rest: Code)
    requires Holds(c, base, rest) && Ready(rest)
    ensures ReadyIn(c, base, base + |rest|)
  {
    hide Turns;
    forall q | base <= q < base + |rest| && IsOpenCall(c[q]) ensures Turns(c, q + 2) {
      assert c[base + (q - base)] == rest[q - base];
      TurnsIn(c, base, rest, q - base + 2);
      assert base + (q - base + 2) == q + 2;
    }
  }

  lemma {:induction false} RulesReady(d: nat, gr: Tree, k: nat)
    requires gr.Grammar? && WellMade(d, [], gr) && k <= |gr.rules|
    ensures Ready(GenRules(d, gr, k))
    decreases |gr.rules| - k
  {
    hide Neat, Ready, Gen, GenRules, WellMade, RuleCode;
    if k < |gr.rules| {
      RulesReady(d, gr, k + 1);
      RuleNeat(d, gr, k);
      NextRule(d, gr, k);
      RuleReady(RuleCode(d, gr.rules, k), GenRules(d, gr, k + 1));
    } else {
      NoRulesReady(d, gr);
    }
  }

  lemma NoRulesReady(d: nat, gr: Tree)
    requires gr.Grammar?
    ensures Ready(GenRules(d, gr, |gr.rules|))
  {
  }

  lemma RuleNeat(d: nat, gr: Tree, k: nat)
    requires gr.Grammar? && WellMade(d, [], gr) && k < |gr.rules|
    ensures Neat(RuleCode(d, gr.rules, k)) && Begins(RuleCode(d, gr.rules, k), Enters(d, gr.rules, gr.rules[k]))
  {
    hide Neat, Begins, Gen, Enters;
    GenGood(d, gr.rules, gr.rules[k], false, NoTest, FULLSET);
  }

  // ----- correctcalls decides by what is not yet corrected -----

  lemma {:induction false} HopsKeptOn(a: Code, b: Code, x: int, n: nat)
    requires Keeps(a, b)
    ensures Leads(b, x, Hops(a, x, n))
    decreases n
  {
    if n > 0 && IsJmp(a, x) {
      HopsKeptOn(a, b, Target(a, x), n - 1);
      LeadsOnce(b, x);
      LeadsTwice(b, x, Target(a, x), Hops(a, x, n));
    } else {
      LeadsSelf(b, x);
    }
  }

  lemma LeadsKept(a: Code, b: Code, x: int, y: int)
    requires Keeps(a, b) && Leads(a, x, y)
    ensures Leads(b, x, y)
  {
    var n: nat :| Hops(a, x, n) == y;
    HopsKeptOn(a, b, x, n);
  }

  /** While the calls before i are corrected, the jumps after i end where they ended. */
  lemma TurnsStill(raw: Code, cur: Code, p: int)
    requires Keeps(raw, cur) && Turns(raw, p)
    requires forall q :: p <= q < |raw| ==> cur[q] == raw[q]
    ensures Turns(cur, p) && (LeadsToRet(cur, p) <==> LeadsToRet(raw, p))
  {
    var z :| TurnsAt(raw, p, z);
    LeadsKept(raw, cur, p, z);
    assert cur[z] == raw[z];
    assert TurnsAt(cur, p, z);
    RetOnly(raw, p, z);
    RetOnly(cur, p, z);
  }

  lemma RetOnly(c: Code, p: int, z: int)
    requires Leads(c, p, z) && !IsJmp(c, z)
    ensures LeadsToRet(c, p) <==> IsRet(c, z)
  {
    var n: nat :| Hops(c, p, n) == z;
    if LeadsToRet(c, p) {
      var m: nat :| IsRet(c, Hops(c, p, m));
      OneEnd(c, p, n, m);
    }
  }

  /** What correctcalls makes of the call at q. */
  ghost predicate Told(raw: Code, body: Code, positions: seq<int>, q: int)
    requires 0 <= q && q + 1 < |raw| == |body| && IsOpenCall(raw[q]) && raw[q].key < |positions|
  {
    && body[q] == raw[q].(op := if LeadsToRet(raw, q + 2) then IJmp else ICall)
    && body[q + 1] == Offset(positions[raw[q].key] - q)
  }

  lemma {:induction false} CorrectTells(raw: Code, cur: Code, positions: seq<int>, i: int)
    requires Correctable(cur, positions, i) && Keeps(raw, cur) && Ready(raw)
    requires forall q :: i <= q < |raw| ==> cur[q] == raw[q]
    ensures |Correct(cur, positions, i)| == |raw|
    ensures forall q :: i <= q < |raw| && IsOpenCall(raw[q]) ==>
              q + 1 < |raw| && raw[q].key < |positions| && Told(raw, Correct(cur, positions, i), positions, q)
    decreases |cur| - i
  {
    if i < |cur| {
      CorrectOneStep(cur, positions, i);
      hide Correct, Correctable, LeadsToRet, Ready, Keeps, Told, CorrectOne, SameShape;
      if IsOpenCall(cur[i]) {
        var next := TellsOne(raw, cur, positions, i);
        CorrectTells(raw, next, positions, i + 2);
      } else {
        CorrectTells(raw, cur, positions, i + SizeI(cur[i].op));
        forall q | i <= q < i + SizeI(cur[i].op) ensures !IsOpenCall(raw[q]) { assert !Pending(cur[q]); }
      }
    }
  }

  /** One round of correctcalls at an open call. */
  lemma TellsOne(raw: Code, cur: Code, positions: seq<int>, i: int) returns (next: Code)
    requires Correctable(cur, positions, i) && i < |cur| && IsOpenCall(cur[i]) && Keeps(raw, cur) && Ready(raw)
    requires forall q :: i <= q < |raw| ==> cur[q] == raw[q]
    ensures i + 1 < |cur| && Correctable(next, positions, i + 2) && Keeps(raw, next)
    ensures Correct(cur, positions, i) == Correct(next, positions, i + 2)
    ensures forall q :: i + 2 <= q < |raw| ==> next[q] == raw[q]
    ensures IsOpenCall(raw[i]) && !IsOpenCall(raw[i + 1]) && raw[i].key < |positions|
    ensures |Correct(next, positions, i + 2)| == |raw| && Told(raw, Correct(next, positions, i + 2), positions, i)
  {
    CorrectOneStep(cur, positions, i);
    assert LaidSlot(cur, i);
    hide Correct, LeadsToRet, Turns;
    TurnsStill(raw, cur, i + 2);
    next := CorrectOne(cur, positions, i);
    KeepsTwice(raw, cur, next);
    CorrectSettles(next, positions, i + 2);
    assert cur[i + 1] == raw[i + 1];
  }

  lemma KeepsTwice(a: Code, b: Code, c: Code)
    requires Keeps(a, b) && Keeps(b, c)
    ensures Keeps(a, c)
  {
    forall q | 0 <= q < |a| && !Pending(a[q]) ensures c[q] == a[q] {
      assert b[q] == a[q];
    }
  }
}

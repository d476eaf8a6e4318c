/** The checks that skynet/3rd/lpeg/lptree.c makes before a grammar is used, and what they
    are for: every match of a checked pattern comes to an end. */
module LpegGrammar {
  import opened LpegSyntax
  import opened LpegAnalysis

  const MAXRULES: nat := 250

  datatype Verdict = LeftRecursive | Passes(nb: bool)

  /** verifyrule: whether t may call a rule again before consuming anything. left counts the
      rules that may still be entered; nb accumulates whether t can be passed without
      consuming. The source is the case keepNb == false: on a sub-grammar it forgets nb. */
  function VerifyRule(g: Rules, t: Tree, left: nat, nb: bool, d: nat, keepNb: bool): Verdict
    decreases left, t
  {
    match t
    case Char(_) => Passes(nb)
    case Set(_) => Passes(nb)
    case Any => Passes(nb)
    case False => Passes(nb)
    case True => Passes(true)
    case Behind(_, _) => Passes(true)
    case Not(p) => VerifyRule(g, p, left, true, d, keepNb)
    case And(p) => VerifyRule(g, p, left, true, d, keepNb)
    case Rep(p) => VerifyRule(g, p, left, true, d, keepNb)
    case Call(k) =>
      if left == 0 || k >= |g| then LeftRecursive else VerifyRule(g, g[k], left - 1, nb, d, keepNb)
    case Seq(p1, p2) =>
      (match VerifyRule(g, p1, left, false, d, keepNb)
       case LeftRecursive => LeftRecursive
       case Passes(b) => if !b then Passes(nb) else VerifyRule(g, p2, left, nb, d, keepNb))
    case Choice(p1, p2) =>
      (match VerifyRule(g, p1, left, nb, d, keepNb)
       case LeftRecursive => LeftRecursive
       case Passes(b) => VerifyRule(g, p2, left, b, d, keepNb))
    case Grammar(_) => Passes((keepNb && nb) || Nullable(g, t, d))
  }

  /** checkloops: some repetition has a body that may match nothing. */
  function CheckLoops(g: Rules, t: Tree, d: nat): bool {
    match t
    case Rep(p) => Nullable(g, p, d) || CheckLoops(g, p, d)
    case Not(p) => CheckLoops(g, p, d)
    case And(p) => CheckLoops(g, p, d)
    case Behind(_, p) => CheckLoops(g, p, d)
    case Seq(p1, p2) => CheckLoops(g, p1, d) || CheckLoops(g, p2, d)
    case Choice(p1, p2) => CheckLoops(g, p1, d) || CheckLoops(g, p2, d)
    case _ => false
  }

  /** t calls rule k of its own grammar. */
  predicate Calls(t: Tree, k: nat) {
    match t
    case Call(j) => j == k
    case Rep(p) => Calls(p, k)
    case Not(p) => Calls(p, k)
    case And(p) => Calls(p, k)
    case Behind(_, p) => Calls(p, k)
    case Seq(p1, p2) => Calls(p1, k) || Calls(p2, k)
    case Choice(p1, p2) => Calls(p1, k) || Calls(p2, k)
    case _ => false
  }

  /** The rules that are checked: the initial one and those that are called. */
  predicate Used(rs: Rules, k: nat) {
    k < |rs| && (k == 0 || exists j :: 0 <= j < |rs| && Calls(rs[j], k))
  }

  /** verifygrammar */
  predicate VerifyGrammar(rs: Rules, d: nat, keepNb: bool) {
    forall k :: 0 <= k < |rs| && Used(rs, k) ==>
      VerifyRule(rs, rs[k], MAXRULES, false, d, keepNb) != LeftRecursive && !CheckLoops(rs, rs[k], d)
  }

  /** All grammars inside t have passed verifygrammar, and calls name existing rules. */
  predicate Checked(g: Rules, t: Tree, d: nat, keepNb: bool)
    decreases t
  {
    match t
    case Rep(p) => Checked(g, p, d, keepNb)
    case Not(p) => Checked(g, p, d, keepNb)
    case And(p) => Checked(g, p, d, keepNb)
    case Behind(_, p) => Checked(g, p, d, keepNb)
    case Seq(p1, p2) => Checked(g, p1, d, keepNb) && Checked(g, p2, d, keepNb)
    case Choice(p1, p2) => Checked(g, p1, d, keepNb) && Checked(g, p2, d, keepNb)
    case Call(k) => k < |g|
    case Grammar(rs) =>
      rs != [] && VerifyGrammar(rs, d, keepNb) && forall k :: 0 <= k < |rs| ==> Checked(rs, rs[k], d, keepNb)
    case _ => true
  }

  /** A whole pattern that the library accepts: its grammars are checked, and outside of
      grammars no loop has a nullable body (lp_star). */
  predicate Accepted(t: Tree, d: nat, keepNb: bool) {
    Checked([], t, d, keepNb) && !CheckLoops([], t, d)
  }

  /** t calls no rule of its own grammar. */
  predicate Closed(t: Tree) {
    match t
    case Call(_) => false
    case Rep(p) => Closed(p)
    case Not(p) => Closed(p)
    case And(p) => Closed(p)
    case Behind(_, p) => Closed(p)
    case Seq(p1, p2) => Closed(p1) && Closed(p2)
    case Choice(p1, p2) => Closed(p1) && Closed(p2)
    case _ => true
  }

  /** t calls rule k of its own grammar inside a look-behind. */
  predicate BehindCalls(t: Tree, k: nat) {
    match t
    case Behind(_, p) => Calls(p, k)
    case Rep(p) => BehindCalls(p, k)
    case Not(p) => BehindCalls(p, k)
    case And(p) => BehindCalls(p, k)
    case Seq(p1, p2) => BehindCalls(p1, k) || BehindCalls(p2, k)
    case Choice(p1, p2) => BehindCalls(p1, k) || BehindCalls(p2, k)
    case _ => false
  }

  /** Rule b can be reached from rule a by n calls. */
  ghost predicate ReachesIn(g: Rules, a: nat, b: nat, n: nat)
    decreases n
  {
    if n == 0 then a == b else a < |g| && exists c: nat :: Calls(g[a], c) && ReachesIn(g, c, b, n - 1)
  }

  ghost predicate Reaches(g: Rules, a: nat, b: nat) {
    exists n: nat :: ReachesIn(g, a, b, n)
  }

  /** No rule that is called in a look-behind reaches the rule that holds the look-behind. */
  ghost predicate Layered(g: Rules) {
    forall r: nat, k: nat :: r < |g| && k < |g| && BehindCalls(g[r], k) ==> !Reaches(g, k, r)
  }

  /** All grammars inside t are layered. verifyrule takes for granted that look-behinds call no
      rule at all. */
  ghost predicate LayeredBehinds(t: Tree) {
    match t
    case Behind(_, p) => LayeredBehinds(p)
    case Rep(p) => LayeredBehinds(p)
    case Not(p) => LayeredBehinds(p)
    case And(p) => LayeredBehinds(p)
    case Seq(p1, p2) => LayeredBehinds(p1) && LayeredBehinds(p2)
    case Choice(p1, p2) => LayeredBehinds(p1) && LayeredBehinds(p2)
    case Grammar(rs) => Layered(rs) && forall k :: 0 <= k < |rs| ==> LayeredBehinds(rs[k])
    case _ => true
  }

  // ----- the layers of a grammar -----

  /** The rules that a rule reaches. There are fewer of them after every step into a look-behind
      of a layered grammar, and no more after any other step. */
  ghost function Reach(g: Rules, a: nat): set<nat> {
    set b: nat | b < |g| && Reaches(g, a, b)
  }

  lemma ReachStep(g: Rules, a: nat, c: nat)
    requires a < |g| && Calls(g[a], c)
    ensures Reach(g, c) <= Reach(g, a) && |Reach(g, c)| <= |Reach(g, a)|
  {
    forall b | b in Reach(g, c) ensures b in Reach(g, a) {
      var n: nat :| ReachesIn(g, c, b, n);
      assert ReachesIn(g, a, b, n + 1);
    }
    Smaller(Reach(g, c), Reach(g, a));
  }

  lemma ReachBehind(g: Rules, a: nat, c: nat)
    requires Layered(g) && a < |g| && c < |g| && BehindCalls(g[a], c)
    ensures |Reach(g, c)| < |Reach(g, a)|
  {
    BehindCallsCall(g[a], c);
    ReachStep(g, a, c);
    assert ReachesIn(g, a, a, 0);
    assert a in Reach(g, a) && a !in Reach(g, c);
    Smaller(Reach(g, c), Reach(g, a) - {a});
  }

  lemma Smaller(a: set<nat>, b: set<nat>)
    requires a <= b
    ensures |a| <= |b|
  {
    assert b == a + (b - a);
  }

  lemma {:induction false} BehindCallsCall(t: Tree, k: nat)
    requires BehindCalls(t, k)
    ensures Calls(t, k)
  {
    match t
    case Rep(p) => BehindCallsCall(p, k);
    case Not(p) => BehindCallsCall(p, k);
    case And(p) => BehindCallsCall(p, k);
    case Seq(p1, p2) => BehindCallsCall(if BehindCalls(p1, k) then p1 else p2, k);
    case Choice(p1, p2) => BehindCallsCall(if BehindCalls(p1, k) then p1 else p2, k);
    case _ =>
  }

  function Height(t: Tree): nat {
    match t
    case Rep(p) => 1 + Height(p)
    case Not(p) => 1 + Height(p)
    case And(p) => 1 + Height(p)
    case Behind(_, p) => 1 + Height(p)
    case Seq(p1, p2) => 1 + Height(p1) + Height(p2)
    case Choice(p1, p2) => 1 + Height(p1) + Height(p2)
    case Grammar(rs) => 1 + SumHeight(t, 0)
    case _ => 0
  }

  function SumHeight(t: Tree, k: nat): nat
    requires t.Grammar? && k <= |t.rules|
    decreases t, |t.rules| - k
  {
    if k == |t.rules| then 0 else Height(t.rules[k]) + SumHeight(t, k + 1)
  }

  lemma {:induction false} RuleHeight(t: Tree, k: nat, i: nat)
    requires t.Grammar? && i <= k < |t.rules|
    ensures Height(t.rules[k]) <= SumHeight(t, i)
    decreases k - i
  {
    if i < k { RuleHeight(t, k, i + 1); }
  }

  // ----- what verifyrule establishes, when it keeps nb -----

  /** nb is an accumulator. */
  lemma {:induction false} NbAccumulates(g: Rules, t: Tree, left: nat, nb: bool, d: nat)
    ensures var r := VerifyRule(g, t, left, false, d, true);
            VerifyRule(g, t, left, nb, d, true) == if r.LeftRecursive? then r else Passes(nb || r.nb)
    decreases left, t
  {
    match t
    case Not(p) => NbAccumulates(g, p, left, true, d);
    case And(p) => NbAccumulates(g, p, left, true, d);
    case Rep(p) => NbAccumulates(g, p, left, true, d);
    case Call(k) => if left > 0 && k < |g| { NbAccumulates(g, g[k], left - 1, nb, d); }
    case Seq(p1, p2) => NbAccumulates(g, p2, left, nb, d);
    case Choice(p1, p2) =>
      NbAccumulates(g, p1, left, nb, d);
      var r := VerifyRule(g, p1, left, false, d, true);
      if r.Passes? {
        NbAccumulates(g, p2, left, nb || r.nb, d);
        NbAccumulates(g, p2, left, r.nb, d);
      }
    case _ =>
  }

  /** A pattern found not passable never succeeds without consuming. */
  lemma {:induction false} NbSound(g: Rules, t: Tree, left: nat, d: nat, s: Subject, i: nat, f: nat)
    requires i <= |s| && VerifyRule(g, t, left, false, d, true) == Passes(false)
    ensures Eval(g, t, s, i, f) != Ok(i)
    decreases f, left, t
  {
    match t
    case Not(p) => NbAccumulates(g, p, left, true, d);
    case And(p) => NbAccumulates(g, p, left, true, d);
    case Rep(p) => NbAccumulates(g, p, left, true, d);
    case Call(k) => if f > 0 { NbSound(g, g[k], left - 1, d, s, i, f - 1); }
    case Seq(p1, p2) =>
      var r := VerifyRule(g, p1, left, false, d, true);
      if !r.nb { NbSound(g, p1, left, d, s, i, f); } else { NbSound(g, p2, left, d, s, i, f); }
    case Choice(p1, p2) =>
      var r := VerifyRule(g, p1, left, false, d, true);
      if r.nb { NbAccumulates(g, p2, left, true, d); }
      NbSound(g, p1, left, d, s, i, f);
      NbSound(g, p2, left, d, s, i, f);
    case Grammar(rs) => NullableSound(g, t, d, s, i, f);
    case _ =>
  }

  /** A pattern whose calls name checked rules can itself be entered one level higher. */
  lemma {:induction false} OneMoreLevel(g: Rules, t: Tree, nb: bool, d: nat)
    requires forall k :: 0 <= k < |g| && Used(g, k) ==> VerifyRule(g, g[k], MAXRULES, false, d, true) != LeftRecursive
    requires forall k: nat :: Calls(t, k) ==> Used(g, k)
    ensures VerifyRule(g, t, MAXRULES + 1, nb, d, true) != LeftRecursive
  {
    match t
    case Not(p) => OneMoreLevel(g, p, true, d);
    case And(p) => OneMoreLevel(g, p, true, d);
    case Rep(p) => OneMoreLevel(g, p, true, d);
    case Call(k) =>
      assert Calls(t, k);
      NbAccumulates(g, g[k], MAXRULES, nb, d);
    case Seq(p1, p2) =>
      OneMoreLevel(g, p1, false, d);
      OneMoreLevel(g, p2, nb, d);
    case Choice(p1, p2) =>
      OneMoreLevel(g, p1, nb, d);
      OneMoreLevel(g, p2, VerifyRule(g, p1, MAXRULES + 1, nb, d, true).nb, d);
    case _ =>
  }

  // ----- every match comes to an end -----

  ghost predicate RulesFit(g: Rules, d: nat, h: nat) {
    && VerifyGrammar(g, d, true) && Layered(g)
    && forall k :: 0 <= k < |g| ==> Checked(g, g[k], d, true) && LayeredBehinds(g[k]) && Height(g[k]) <= h
  }

  /** The calls of t go to rules that reach at most `rank` rules, and those in look-behinds to
      rules that reach fewer; inside a look-behind all of them do. */
  ghost predicate Ranked(g: Rules, t: Tree, rank: nat, inside: bool) {
    && (forall k: nat :: k < |g| && Calls(t, k) ==> |Reach(g, k)| <= rank && (inside ==> |Reach(g, k)| < rank))
    && (forall k: nat :: k < |g| && BehindCalls(t, k) ==> |Reach(g, k)| < rank)
  }

  /** What makes the evaluation of t inside g come to an end: t is no higher than b, and b is
      below the height h of the rules while t is inside a look-behind. */
  ghost predicate Fits(g: Rules, t: Tree, d: nat, h: nat, rank: nat, b: nat) {
    && Checked(g, t, d, true) && LayeredBehinds(t) && !CheckLoops(g, t, d) && Height(t) <= b <= h
    && Ranked(g, t, rank, b < h)
    && (Closed(t) || (RulesFit(g, d, h) && forall k: nat :: Calls(t, k) ==> Used(g, k)))
  }

  /** Anything that fits can be entered afresh. */
  lemma Enterable(g: Rules, t: Tree, d: nat, h: nat, rank: nat, b: nat)
    requires Fits(g, t, d, h, rank, b)
    ensures VerifyRule(g, t, MAXRULES + 1, false, d, true) != LeftRecursive
  {
    if Closed(t) {
      ClosedEnterable(g, t, MAXRULES + 1, false, d);
    } else {
      OneMoreLevel(g, t, false, d);
    }
  }

  lemma {:induction false} ClosedEnterable(g: Rules, t: Tree, left: nat, nb: bool, d: nat)
    requires Closed(t)
    ensures VerifyRule(g, t, left, nb, d, true) != LeftRecursive
    decreases t
  {
    match t
    case Rep(p) => ClosedEnterable(g, p, left, true, d);
    case Not(p) => ClosedEnterable(g, p, left, true, d);
    case And(p) => ClosedEnterable(g, p, left, true, d);
    case Seq(p1, p2) =>
      ClosedEnterable(g, p1, left, false, d);
      ClosedEnterable(g, p2, left, nb, d);
    case Choice(p1, p2) =>
      ClosedEnterable(g, p1, left, nb, d);
      ClosedEnterable(g, p2, left, VerifyRule(g, p1, left, nb, d, true).nb, d);
    case _ =>
  }

  /** From any position, with enough fuel, the pattern has an outcome. The recursion descends
      into inner grammars, then into the rules that look-behinds call, then into look-behinds,
      then towards the end of the subject, then into the rules that may be entered without
      consuming, then into the pattern. */
  lemma {:induction false} Terminates(g: Rules, t: Tree, d: nat, s: Subject, i: nat, h: nat, rank: nat, b: nat, left: nat)
    returns (f: nat)
    requires i <= |s| && Fits(g, t, d, h, rank, b)
    requires left <= MAXRULES + 1 && VerifyRule(g, t, left, false, d, true) != LeftRecursive
    ensures Eval(g, t, s, i, f) != NoFuel
    decreases h, rank, b, |s| - i, left, t, 1
  {
    hide Fits;
    f := 0;
    match t
    case Rep(p) => f := RepTerminates(g, t, d, s, i, h, rank, b, left);
    case Not(p) =>
      NbAccumulates(g, p, left, true, d);
      BodyFits(g, t, d, h, rank, b);
      f := Terminates(g, p, d, s, i, h, rank, b, left);
    case And(p) =>
      NbAccumulates(g, p, left, true, d);
      BodyFits(g, t, d, h, rank, b);
      f := Terminates(g, p, d, s, i, h, rank, b, left);
    case Seq(p1, p2) => f := SeqTerminates(g, t, d, s, i, h, rank, b, left);
    case Choice(p1, p2) => f := ChoiceTerminates(g, t, d, s, i, h, rank, b, left);
    case Behind(n, p) =>
      if n <= i {
        BehindFits(g, t, d, h, rank, b);
        Enterable(g, p, d, h, rank, Height(p));
        f := Terminates(g, p, d, s, i - n, h, rank, Height(p), MAXRULES + 1);
      }
    case Call(k) => f := CallTerminates(g, t, d, s, i, h, rank, b, left);
    case Grammar(rs) =>
      GrammarFits(g, t, d, h, rank, b);
      Enterable(rs, rs[0], d, Height(t) - 1, |Reach(rs, 0)|, Height(t) - 1);
      f := Terminates(rs, rs[0], d, s, i, Height(t) - 1, |Reach(rs, 0)|, Height(t) - 1, MAXRULES + 1);
    case _ =>
  }

  lemma RepTerminates(g: Rules, t: Tree, d: nat, s: Subject, i: nat, h: nat, rank: nat, b: nat, left: nat) returns (f: nat)
    requires t.Rep? && i <= |s| && Fits(g, t, d, h, rank, b)
    requires left <= MAXRULES + 1 && VerifyRule(g, t, left, false, d, true) != LeftRecursive
    ensures Eval(g, t, s, i, f) != NoFuel
    decreases h, rank, b, |s| - i, left, t, 0
  {
    var p := t.body;
    NbAccumulates(g, p, left, true, d);
    BodyFits(g, t, d, h, rank, b);
    assert !Nullable(g, p, d);
    hide Fits;
    var f1 := Terminates(g, p, d, s, i, h, rank, b, left);
    NullableSound(g, p, d, s, i, f1);
    f := f1;
    var r := Eval(g, p, s, i, f1);
    if r.Ok? {
      Enterable(g, t, d, h, rank, b);
      var f2 := Terminates(g, t, d, s, r.pos, h, rank, b, MAXRULES + 1);
      f := f1 + f2 + 1;
      MoreFuel(g, p, s, i, f1, f);
      MoreFuel(g, t, s, r.pos, f2, f - 1);
    }
  }

  lemma SeqTerminates(g: Rules, t: Tree, d: nat, s: Subject, i: nat, h: nat, rank: nat, b: nat, left: nat) returns (f: nat)
    requires t.Seq? && i <= |s| && Fits(g, t, d, h, rank, b)
    requires left <= MAXRULES + 1 && VerifyRule(g, t, left, false, d, true) != LeftRecursive
    ensures Eval(g, t, s, i, f) != NoFuel
    decreases h, rank, b, |s| - i, left, t, 0
  {
    hide Fits;
    var (p1, p2) := (t.p1, t.p2);
    PairFits(g, t, d, h, rank, b);
    f := Terminates(g, p1, d, s, i, h, rank, b, left);
    var r := Eval(g, p1, s, i, f);
    if r.Ok? {
      var f2;
      if r.pos > i {
        Enterable(g, p2, d, h, rank, b);
        f2 := Terminates(g, p2, d, s, r.pos, h, rank, b, MAXRULES + 1);
      } else {
        if VerifyRule(g, p1, left, false, d, true) == Passes(false) { NbSound(g, p1, left, d, s, i, f); }
        f2 := Terminates(g, p2, d, s, i, h, rank, b, left);
      }
      MoreFuel(g, p1, s, i, f, f + f2);
      MoreFuel(g, p2, s, r.pos, f2, f + f2);
      f := f + f2;
    }
  }

  lemma ChoiceTerminates(g: Rules, t: Tree, d: nat, s: Subject, i: nat, h: nat, rank: nat, b: nat, left: nat)
    returns (f: nat)
    requires t.Choice? && i <= |s| && Fits(g, t, d, h, rank, b)
    requires left <= MAXRULES + 1 && VerifyRule(g, t, left, false, d, true) != LeftRecursive
    ensures Eval(g, t, s, i, f) != NoFuel
    decreases h, rank, b, |s| - i, left, t, 0
  {
    hide Fits;
    var (p1, p2) := (t.p1, t.p2);
    PairFits(g, t, d, h, rank, b);
    var f1 := Terminates(g, p1, d, s, i, h, rank, b, left);
    NbAccumulates(g, p2, left, VerifyRule(g, p1, left, false, d, true).nb, d);
    var f2 := Terminates(g, p2, d, s, i, h, rank, b, left);
    f := f1 + f2;
    MoreFuel(g, p1, s, i, f1, f);
    MoreFuel(g, p2, s, i, f2, f);
  }

  /** A call made inside a look-behind goes to a rule that reaches fewer rules. */
  lemma CallTerminates(g: Rules, t: Tree, d: nat, s: Subject, i: nat, h: nat, rank: nat, b: nat, left: nat) returns (f: nat)
    requires t.Call? && i <= |s| && Fits(g, t, d, h, rank, b)
    requires left <= MAXRULES + 1 && VerifyRule(g, t, left, false, d, true) != LeftRecursive
    ensures Eval(g, t, s, i, f) != NoFuel
    decreases h, rank, b, |s| - i, left, t, 0
  {
    var k := t.rule;
    CallFits(g, t, d, h, rank, b);
    hide Fits;
    f := Terminates(g, g[k], d, s, i, h, if b < h then rank - 1 else rank, h, left - 1);
    f := f + 1;
  }

  // ----- what fits, part by part -----

  lemma BodyFits(g: Rules, t: Tree, d: nat, h: nat, rank: nat, b: nat)
    requires (t.Rep? || t.Not? || t.And?) && Fits(g, t, d, h, rank, b)
    ensures Fits(g, t.body, d, h, rank, b)
  {
    hide Reach;
    forall k: nat ensures Calls(t.body, k) ==> Calls(t, k) {}
    forall k: nat ensures BehindCalls(t.body, k) ==> BehindCalls(t, k) {}
  }

  lemma PairFits(g: Rules, t: Tree, d: nat, h: nat, rank: nat, b: nat)
    requires (t.Seq? || t.Choice?) && Fits(g, t, d, h, rank, b)
    ensures Fits(g, t.p1, d, h, rank, b) && Fits(g, t.p2, d, h, rank, b)
  {
    hide Reach;
    forall k: nat ensures Calls(t.p1, k) || Calls(t.p2, k) ==> Calls(t, k) {}
    forall k: nat ensures BehindCalls(t.p1, k) || BehindCalls(t.p2, k) ==> BehindCalls(t, k) {}
  }

  lemma BehindFits(g: Rules, t: Tree, d: nat, h: nat, rank: nat, b: nat)
    requires t.Behind? && Fits(g, t, d, h, rank, b)
    ensures Fits(g, t.body, d, h, rank, Height(t.body)) && Height(t.body) < b
  {
    hide Reach;
    forall k: nat ensures Calls(t.body, k) ==> Calls(t, k) && BehindCalls(t, k) {}
    forall k: nat ensures BehindCalls(t.body, k) ==> BehindCalls(t, k) {
      if BehindCalls(t.body, k) { BehindCallsCall(t.body, k); }
    }
  }

  lemma CallFits(g: Rules, t: Tree, d: nat, h: nat, rank: nat, b: nat)
    requires t.Call? && Fits(g, t, d, h, rank, b)
    ensures t.rule < |g| && (b < h ==> rank > 0)
    ensures Fits(g, g[t.rule], d, h, if b < h then rank - 1 else rank, h)
  {
    hide Reach;
    var k := t.rule;
    assert Calls(t, k) && Used(g, k);
    CalledUsed(g, k, d);
    RuleRanked(g, k, if b < h then rank - 1 else rank);
  }

  lemma RuleRanked(g: Rules, k: nat, rank: nat)
    requires k < |g| && Layered(g) && |Reach(g, k)| <= rank
    ensures Ranked(g, g[k], rank, false)
  {
    hide Reach;
    forall j: nat | j < |g| && Calls(g[k], j) ensures |Reach(g, j)| <= rank { ReachStep(g, k, j); }
    forall j: nat | j < |g| && BehindCalls(g[k], j) ensures |Reach(g, j)| < rank { ReachBehind(g, k, j); }
  }

  lemma GrammarFits(g: Rules, t: Tree, d: nat, h: nat, rank: nat, b: nat)
    requires t.Grammar? && Fits(g, t, d, h, rank, b)
    ensures t.rules != [] && 0 < Height(t) <= h
    ensures Fits(t.rules, t.rules[0], d, Height(t) - 1, |Reach(t.rules, 0)|, Height(t) - 1)
  {
    var rs := t.rules;
    assert Used(rs, 0);
    RuleFits(t, 0, d);
  }

  /** A used rule of a grammar fits. */
  lemma RuleFits(t: Tree, k: nat, d: nat)
    requires t.Grammar? && Checked([], t, d, true) && LayeredBehinds(t) && Used(t.rules, k)
    ensures Height(t) > 0 && Fits(t.rules, t.rules[k], d, Height(t) - 1, |Reach(t.rules, k)|, Height(t) - 1)
  {
    hide Reach;
    var rs := t.rules;
    forall j | 0 <= j < |rs| ensures Height(rs[j]) <= Height(t) - 1 { RuleHeight(t, j, 0); }
    CalledUsed(rs, k, d);
    RuleRanked(rs, k, |Reach(rs, k)|);
  }

  /** A used rule calls used rules only. */
  lemma CalledUsed(g: Rules, k: nat, d: nat)
    requires Used(g, k) && Checked(g, g[k], d, true)
    ensures forall j: nat :: Calls(g[k], j) ==> Used(g, j)
  {
    forall j: nat | Calls(g[k], j) ensures Used(g, j) { CalledExists(g, g[k], j, d); }
  }

  lemma {:induction false} CalledExists(g: Rules, t: Tree, k: nat, d: nat)
    requires Checked(g, t, d, true) && Calls(t, k)
    ensures k < |g|
  {
    match t
    case Rep(p) => CalledExists(g, p, k, d);
    case Not(p) => CalledExists(g, p, k, d);
    case And(p) => CalledExists(g, p, k, d);
    case Behind(_, p) => CalledExists(g, p, k, d);
    case Seq(p1, p2) => CalledExists(g, if Calls(p1, k) then p1 else p2, k, d);
    case Choice(p1, p2) => CalledExists(g, if Calls(p1, k) then p1 else p2, k, d);
    case _ =>
  }

  /** Every match of a strictly accepted pattern comes to an end, if its look-behinds are
      layered. */
  lemma AcceptedTerminates(t: Tree, d: nat, s: Subject, i: nat)
    requires i <= |s| && Accepted(t, d, true) && LayeredBehinds(t)
    ensures exists f: nat :: Eval([], t, s, i, f) != NoFuel
  {
    CheckedTopClosed(t, d);
    ClosedEnterable([], t, 0, false, d);
    var f := Terminates([], t, d, s, i, Height(t) + 1, 0, Height(t), 0);
  }

  lemma {:induction false} CheckedTopClosed(t: Tree, d: nat)
    requires Checked([], t, d, true)
    ensures Closed(t)
  {
    match t
    case Rep(p) => CheckedTopClosed(p, d);
    case Not(p) => CheckedTopClosed(p, d);
    case And(p) => CheckedTopClosed(p, d);
    case Behind(_, p) => CheckedTopClosed(p, d);
    case Seq(p1, p2) => CheckedTopClosed(p1, d); CheckedTopClosed(p2, d);
    case Choice(p1, p2) => CheckedTopClosed(p1, d); CheckedTopClosed(p2, d);
    case _ =>
  }

  // ----- the check as the source makes it -----

  /** The walk of verifyrule meets a sub-grammar that is not nullable, while nb is set. */
  predicate ForgetsNb(g: Rules, t: Tree, left: nat, nb: bool, d: nat)
    decreases left, t
  {
    match t
    case Not(p) => ForgetsNb(g, p, left, true, d)
    case And(p) => ForgetsNb(g, p, left, true, d)
    case Rep(p) => ForgetsNb(g, p, left, true, d)
    case Call(k) => left > 0 && k < |g| && ForgetsNb(g, g[k], left - 1, nb, d)
    case Seq(p1, p2) =>
      || ForgetsNb(g, p1, left, false, d)
      || (VerifyRule(g, p1, left, false, d, false) == Passes(true) && ForgetsNb(g, p2, left, nb, d))
    case Choice(p1, p2) =>
      || ForgetsNb(g, p1, left, nb, d)
      || (var r := VerifyRule(g, p1, left, nb, d, false); r.Passes? && ForgetsNb(g, p2, left, r.nb, d))
    case Grammar(_) => nb && !Nullable(g, t, d)
    case _ => false
  }

  /** No check of a rule inside t forgets nb. */
  predicate NbKept(t: Tree, d: nat) {
    match t
    case Rep(p) => NbKept(p, d)
    case Not(p) => NbKept(p, d)
    case And(p) => NbKept(p, d)
    case Behind(_, p) => NbKept(p, d)
    case Seq(p1, p2) => NbKept(p1, d) && NbKept(p2, d)
    case Choice(p1, p2) => NbKept(p1, d) && NbKept(p2, d)
    case Grammar(rs) =>
      forall k :: 0 <= k < |rs| ==>
        NbKept(rs[k], d) && (Used(rs, k) ==> !ForgetsNb(rs, rs[k], MAXRULES, false, d))
    case _ => true
  }

  /** Unless it forgets nb, the source's check is the check proved sound above. */
  lemma {:induction false} SameVerdict(g: Rules, t: Tree, left: nat, nb: bool, d: nat)
    requires !ForgetsNb(g, t, left, nb, d)
    ensures VerifyRule(g, t, left, nb, d, false) == VerifyRule(g, t, left, nb, d, true)
    decreases left, t
  {
    match t
    case Not(p) => SameVerdict(g, p, left, true, d);
    case And(p) => SameVerdict(g, p, left, true, d);
    case Rep(p) => SameVerdict(g, p, left, true, d);
    case Call(k) => if left > 0 && k < |g| { SameVerdict(g, g[k], left - 1, nb, d); }
    case Seq(p1, p2) =>
      SameVerdict(g, p1, left, false, d);
      if VerifyRule(g, p1, left, false, d, false) == Passes(true) { SameVerdict(g, p2, left, nb, d); }
    case Choice(p1, p2) =>
      SameVerdict(g, p1, left, nb, d);
      var r := VerifyRule(g, p1, left, nb, d, false);
      if r.Passes? { SameVerdict(g, p2, left, r.nb, d); }
    case _ =>
  }

  lemma {:induction false} SameChecked(g: Rules, t: Tree, d: nat)
    requires Checked(g, t, d, false) && NbKept(t, d)
    ensures Checked(g, t, d, true)
    decreases t
  {
    match t
    case Rep(p) => SameChecked(g, p, d);
    case Not(p) => SameChecked(g, p, d);
    case And(p) => SameChecked(g, p, d);
    case Behind(_, p) => SameChecked(g, p, d);
    case Seq(p1, p2) => SameChecked(g, p1, d); SameChecked(g, p2, d);
    case Choice(p1, p2) => SameChecked(g, p1, d); SameChecked(g, p2, d);
    case Grammar(rs) =>
      forall k | 0 <= k < |rs| ensures Checked(rs, rs[k], d, true) { SameChecked(rs, rs[k], d); }
      forall k | 0 <= k < |rs| && Used(rs, k)
        ensures VerifyRule(rs, rs[k], MAXRULES, false, d, true) != LeftRecursive
      {
        SameVerdict(rs, rs[k], MAXRULES, false, d);
      }
    case _ =>
  }

  /** The strict check accepts less than the source's. */
  lemma StrictAccepts(t: Tree, d: nat)
    requires Accepted(t, d, true)
    ensures Accepted(t, d, false)
  {
    StrictChecked([], t, d);
  }

  lemma {:induction false} StrictChecked(g: Rules, t: Tree, d: nat)
    requires Checked(g, t, d, true)
    ensures Checked(g, t, d, false)
    decreases t
  {
    match t
    case Rep(p) => StrictChecked(g, p, d);
    case Not(p) => StrictChecked(g, p, d);
    case And(p) => StrictChecked(g, p, d);
    case Behind(_, p) => StrictChecked(g, p, d);
    case Seq(p1, p2) => StrictChecked(g, p1, d); StrictChecked(g, p2, d);
    case Choice(p1, p2) => StrictChecked(g, p1, d); StrictChecked(g, p2, d);
    case Grammar(rs) =>
      forall k | 0 <= k < |rs| ensures Checked(rs, rs[k], d, false) { StrictChecked(rs, rs[k], d); }
      forall k | 0 <= k < |rs| && Used(rs, k)
        ensures VerifyRule(rs, rs[k], MAXRULES, false, d, false) != LeftRecursive
      {
        StrictVerdict(rs, rs[k], MAXRULES, false, false, d);
      }
    case _ =>
  }

  /** Where the strict walk finds no left recursion, the source's walk, which looks at less,
      finds none either, and nb comes out set only if the strict walk sets it. */
  lemma {:induction false} StrictVerdict(g: Rules, t: Tree, left: nat, nb: bool, nb': bool, d: nat)
    requires VerifyRule(g, t, left, nb, d, true) != LeftRecursive && (nb' ==> nb)
    ensures VerifyRule(g, t, left, nb', d, false) != LeftRecursive
    ensures VerifyRule(g, t, left, nb', d, false).nb ==> VerifyRule(g, t, left, nb, d, true).nb
    decreases left, t
  {
    match t
    case Not(p) => StrictVerdict(g, p, left, true, true, d);
    case And(p) => StrictVerdict(g, p, left, true, true, d);
    case Rep(p) => StrictVerdict(g, p, left, true, true, d);
    case Call(k) => StrictVerdict(g, g[k], left - 1, nb, nb', d);
    case Seq(p1, p2) =>
      StrictVerdict(g, p1, left, false, false, d);
      if VerifyRule(g, p1, left, false, d, true).nb {
        StrictVerdict(g, p2, left, nb, nb', d);
        NbAccumulates(g, p2, left, nb, d);
      }
    case Choice(p1, p2) =>
      StrictVerdict(g, p1, left, nb, nb', d);
      StrictVerdict(g, p2, left, VerifyRule(g, p1, left, nb, d, true).nb, VerifyRule(g, p1, left, nb', d, false).nb, d);
    case _ =>
  }

  /** The same for a pattern accepted by the check as written, when no check forgot nb. The
      lemmas after this one show that nb forgotten and look-behinds that reach back both let
      patterns through that never come to an end. */
  lemma MatchesEnd(t: Tree, d: nat, s: Subject, i: nat)
    requires i <= |s| && Accepted(t, d, false) && NbKept(t, d) && LayeredBehinds(t)
    ensures Accepted(t, d, true)
    ensures exists f: nat :: Eval([], t, s, i, f) != NoFuel
  {
    SameChecked([], t, d);
    AcceptedTerminates(t, d, s, i);
  }

  const X: Tree := Char(120)
  const SUBGRAMMAR: Tree := Grammar([X])

  /** A <- (a grammar for 'x')* A */
  const LOOPINREP: Rules := [Seq(Rep(SUBGRAMMAR), Call(0))]

  /** The source accepts this left-recursive grammar, because verifyrule forgets that the
      repetition can be passed, and the strict check does not; no match of it ends, not even on
      the empty subject. In the source compilation does not end either: codeseq1 asks getfirst
      for the first set of the left-recursive call, which has no bound on calls. */
  lemma LeftRecursionMissed(d: nat, f: nat)
    ensures Accepted(Grammar(LOOPINREP), d, false) && LayeredBehinds(Grammar(LOOPINREP))
    ensures !NbKept(Grammar(LOOPINREP), d) && !Accepted(Grammar(LOOPINREP), d, true)
    ensures Eval([], Grammar(LOOPINREP), [], 0, f) == NoFuel
  {
    var rs := LOOPINREP;
    var rep := Rep(SUBGRAMMAR);
    assert !Nullable([X], X, d) && !Nullable(rs, SUBGRAMMAR, d);
    assert VerifyRule(rs, SUBGRAMMAR, MAXRULES, true, d, false) == Passes(false);
    assert VerifyRule(rs, rep, MAXRULES, false, d, false) == Passes(false);
    assert ForgetsNb(rs, SUBGRAMMAR, MAXRULES, true, d);
    assert ForgetsNb(rs, rep, MAXRULES, false, d) && Used(rs, 0);
    assert Checked([X], X, d, false) && Used([X], 0) && VerifyGrammar([X], d, false);
    assert Checked(rs, SUBGRAMMAR, d, false);
    assert !CheckLoops(rs, rep, d);
    assert Layered([X]) && !BehindCalls(rep, 0);
    assert LayeredBehinds(X) && LayeredBehinds(SUBGRAMMAR) && LayeredBehinds(rep) && LayeredBehinds(Call(0));
    assert LayeredBehinds(Seq(rep, Call(0)));
    assert !NbKept(Grammar(rs), d);
    RejectedInRep(MAXRULES, d);
    LoopInRep(f);
  }

  lemma {:induction false} RejectedInRep(left: nat, d: nat)
    ensures VerifyRule(LOOPINREP, LOOPINREP[0], left, false, d, true) == LeftRecursive
    decreases left
  {
    var rs := LOOPINREP;
    assert !Nullable([X], X, d) && !Nullable(rs, SUBGRAMMAR, d);
    assert VerifyRule(rs, SUBGRAMMAR, left, true, d, true) == Passes(true);
    assert VerifyRule(rs, Rep(SUBGRAMMAR), left, false, d, true) == Passes(true);
    if left > 0 { RejectedInRep(left - 1, d); }
    assert VerifyRule(rs, Call(0), left, false, d, true) == LeftRecursive;
  }

  lemma {:induction false} LoopInRep(f: nat)
    ensures Eval(LOOPINREP, LOOPINREP[0], [], 0, f) == NoFuel
    decreases f
  {
    assert Eval([X], X, [], 0, f) == Fail;
    assert Eval(LOOPINREP, SUBGRAMMAR, [], 0, f) == Fail;
    assert Eval(LOOPINREP, Rep(SUBGRAMMAR), [], 0, f) == Ok(0);
    if f > 0 { LoopInRep(f - 1); }
    assert Eval(LOOPINREP, Call(0), [], 0, f) == NoFuel;
  }

  /** A <- <(&A) 'x', where < is look-behind */
  const LOOPINBEHIND: Rules := [Seq(Behind(0, And(Call(0))), X)]

  /** A look-behind may call a rule after all, below a predicate; the grammar is then
      accepted although it is left recursive, and no match of it ends. */
  lemma BehindRecursionMissed(d: nat, f: nat)
    ensures Accepted(Grammar(LOOPINBEHIND), d, false) && Accepted(Grammar(LOOPINBEHIND), d, true)
    ensures FixedLen(LOOPINBEHIND, And(Call(0)), d) == 0 && !LayeredBehinds(Grammar(LOOPINBEHIND))
    ensures Eval([], Grammar(LOOPINBEHIND), [], 0, f) == NoFuel
  {
    var rs := LOOPINBEHIND;
    var behind := Behind(0, And(Call(0)));
    assert VerifyRule(rs, behind, MAXRULES, false, d, true) == Passes(true);
    assert VerifyRule(rs, X, MAXRULES, false, d, true) == Passes(false);
    assert Checked(rs, And(Call(0)), d, true) && Checked(rs, behind, d, true);
    assert !CheckLoops(rs, Call(0), d) && !CheckLoops(rs, And(Call(0)), d) && !CheckLoops(rs, behind, d);
    assert VerifyGrammar(rs, d, true);
    StrictAccepts(Grammar(rs), d);
    assert BehindCalls(rs[0], 0) && ReachesIn(rs, 0, 0, 0) && Reaches(rs, 0, 0);
    LoopInBehind(f);
  }

  lemma {:induction false} LoopInBehind(f: nat)
    ensures Eval(LOOPINBEHIND, LOOPINBEHIND[0], [], 0, f) == NoFuel
    decreases f
  {
    if f > 0 { LoopInBehind(f - 1); }
    assert Eval(LOOPINBEHIND, Call(0), [], 0, f) == NoFuel;
    assert Eval(LOOPINBEHIND, And(Call(0)), [], 0, f) == NoFuel;
    assert Eval(LOOPINBEHIND, Behind(0, And(Call(0))), [], 0, f) == NoFuel;
  }

  // ----- neither condition is needed -----

  /** A <- '' / (a grammar for 'x')* A */
  const NEVERLOOPS: Rules := [Choice(True, Seq(Rep(SUBGRAMMAR), Call(0)))]

  /** A pattern that only the check as written accepts may end everywhere. */
  lemma ForgetfulEnds(d: nat, s: Subject, i: nat)
    requires i <= |s|
    ensures Accepted(Grammar(NEVERLOOPS), d, false) && LayeredBehinds(Grammar(NEVERLOOPS))
    ensures !Accepted(Grammar(NEVERLOOPS), d, true)
    ensures Eval([], Grammar(NEVERLOOPS), s, i, 0) == Ok(i)
  {
    ForgetfulAccepted(d);
    ForgetfulLayered();
    RejectedInChoice(MAXRULES, false, d);
    assert Used(NEVERLOOPS, 0);
    assert Eval(NEVERLOOPS, True, s, i, 0) == Ok(i) && Eval(NEVERLOOPS, NEVERLOOPS[0], s, i, 0) == Ok(i);
  }

  lemma ForgetfulAccepted(d: nat)
    ensures Accepted(Grammar(NEVERLOOPS), d, false)
  {
    var (rs, rep) := (NEVERLOOPS, Rep(SUBGRAMMAR));
    var again := Seq(rep, Call(0));
    assert !Nullable([X], X, d) && !Nullable(rs, SUBGRAMMAR, d);
    assert VerifyRule(rs, rep, MAXRULES, false, d, false) == Passes(false);
    assert VerifyRule(rs, again, MAXRULES, true, d, false) == Passes(true);
    assert VerifyRule(rs, rs[0], MAXRULES, false, d, false) == Passes(true);
    assert Checked([X], X, d, false) && Used([X], 0) && VerifyGrammar([X], d, false);
    assert Checked(rs, SUBGRAMMAR, d, false) && Checked(rs, rep, d, false) && Checked(rs, Call(0), d, false);
    assert Checked(rs, again, d, false) && Checked(rs, rs[0], d, false);
    assert !CheckLoops(rs, rep, d) && !CheckLoops(rs, again, d) && !CheckLoops(rs, rs[0], d);
    assert VerifyGrammar(rs, d, false);
  }

  lemma NoBehind(t: Tree, k: nat)
    requires t.Grammar? || t.Call? || t.Char? || t.True?
    ensures !BehindCalls(t, k)
  {
  }

  lemma ForgetfulLayered()
    ensures LayeredBehinds(Grammar(NEVERLOOPS))
  {
    var rep := Rep(SUBGRAMMAR);
    var again := Seq(rep, Call(0));
    forall k: nat ensures !BehindCalls(X, k) && !BehindCalls(NEVERLOOPS[0], k) {
      NoBehind(SUBGRAMMAR, k);
      NoBehind(Call(0), k);
      NoBehind(X, k);
      NoBehind(True, k);
      assert !BehindCalls(rep, k) && !BehindCalls(again, k);
    }
    assert Layered([X]) && Layered(NEVERLOOPS);
    assert LayeredBehinds(X) && LayeredBehinds(SUBGRAMMAR) && LayeredBehinds(rep) && LayeredBehinds(Call(0));
    assert LayeredBehinds(again) && LayeredBehinds(NEVERLOOPS[0]);
  }

  lemma {:induction false} RejectedInChoice(left: nat, nb: bool, d: nat)
    ensures VerifyRule(NEVERLOOPS, NEVERLOOPS[0], left, nb, d, true) == LeftRecursive
    decreases left
  {
    var (rs, rep) := (NEVERLOOPS, Rep(SUBGRAMMAR));
    assert !Nullable([X], X, d) && !Nullable(rs, SUBGRAMMAR, d);
    assert VerifyRule(rs, SUBGRAMMAR, left, true, d, true) == Passes(true);
    assert VerifyRule(rs, rep, left, false, d, true) == Passes(true);
    if left > 0 { RejectedInChoice(left - 1, true, d); }
    assert VerifyRule(rs, Call(0), left, true, d, true) == LeftRecursive;
    assert VerifyRule(rs, Seq(rep, Call(0)), left, true, d, true) == LeftRecursive;
  }

  /** A <- <(&B) 'x', B <- 'x' A, where < is look-behind */
  const BACKLATER: Rules := [Seq(Behind(0, And(Call(1))), X), Seq(X, Call(0))]

  /** So may a pattern whose look-behind reaches back. */
  lemma UnlayeredEnds(d: nat, s: Subject, i: nat)
    requires i <= |s|
    ensures Accepted(Grammar(BACKLATER), d, true) && !LayeredBehinds(Grammar(BACKLATER))
    ensures Eval([], Grammar(BACKLATER), s, i, 2 * (|s| - i) + 1) != NoFuel
  {
    var rs := BACKLATER;
    UnlayeredAccepted(d);
    assert BehindCalls(rs[0], 1) && Calls(rs[1], 0) && ReachesIn(rs, 0, 0, 0);
    assert ReachesIn(rs, 1, 0, 1) && Reaches(rs, 1, 0);
    BackLaterEnds(s, i);
  }

  lemma UnlayeredAccepted(d: nat)
    ensures Accepted(Grammar(BACKLATER), d, true)
  {
    var rs := BACKLATER;
    var behind := Behind(0, And(Call(1)));
    assert VerifyRule(rs, behind, MAXRULES, false, d, true) == Passes(true);
    assert VerifyRule(rs, X, MAXRULES, false, d, true) == Passes(false);
    assert VerifyRule(rs, rs[1], MAXRULES, false, d, true) == Passes(false);
    assert Checked(rs, And(Call(1)), d, true) && Checked(rs, behind, d, true);
    assert Checked(rs, rs[0], d, true) && Checked(rs, rs[1], d, true);
    assert !CheckLoops(rs, Call(1), d) && !CheckLoops(rs, And(Call(1)), d) && !CheckLoops(rs, behind, d);
    assert !CheckLoops(rs, rs[0], d) && !CheckLoops(rs, rs[1], d);
    assert VerifyGrammar(rs, d, true);
  }

  lemma {:induction false} BackLaterEnds(s: Subject, i: nat)
    requires i <= |s|
    ensures Eval(BACKLATER, BACKLATER[0], s, i, 2 * (|s| - i) + 1) != NoFuel
    decreases |s| - i
  {
    var (rs, f) := (BACKLATER, 2 * (|s| - i) + 1);
    assert Eval(rs, X, s, i, f - 1) == if i < |s| && s[i] in CharsOf(X) then Ok(i + 1) else Fail;
    if i < |s| {
      BackLaterEnds(s, i + 1);
      assert Eval(rs, Call(0), s, i + 1, f - 1) == Eval(rs, rs[0], s, i + 1, f - 2);
    }
    assert Eval(rs, rs[1], s, i, f - 1) != NoFuel;
    assert Eval(rs, Call(1), s, i, f) == Eval(rs, rs[1], s, i, f - 1);
    assert Eval(rs, And(Call(1)), s, i, f) != NoFuel;
    assert Eval(rs, Behind(0, And(Call(1))), s, i, f) != NoFuel;
  }
}

/** When a pattern is accepted: what the checks of skynet/3rd/lpeg/lptree.c look for, said of the
    tree alone. A rule is left recursive if rules can be entered one from the other before anything
    is consumed, for too long; a loop is empty if its body can be passed without consuming. */
module LpegAcceptance {
  import opened LpegSyntax
  import opened LpegAnalysis
  import opened LpegGrammar

  // ----- what can be passed, and what is called first -----

  /** Within n calls, t can be passed without consuming anything. */
  predicate PassableIn(g: Rules, t: Tree, n: nat)
    decreases n, t
  {
    match t
    case True => true
    case Rep(_) => true
    case Not(_) => true
    case And(_) => true
    case Behind(_, _) => true
    case Seq(p1, p2) => PassableIn(g, p1, n) && PassableIn(g, p2, n)
    case Choice(p1, p2) => PassableIn(g, p1, n) || PassableIn(g, p2, n)
    case Call(k) => n > 0 && k < |g| && PassableIn(g, g[k], n - 1)
    case Grammar(rs) => rs == [] || PassableIn(rs, rs[0], n)
    case _ => false
  }

  ghost predicate Passable(g: Rules, t: Tree) {
    exists n: nat :: PassableIn(g, t, n)
  }

  /** t may call rule j before it has consumed anything. */
  ghost predicate CallsFirst(g: Rules, t: Tree, j: nat) {
    match t
    case Call(k) => k == j
    case Rep(p) => CallsFirst(g, p, j)
    case Not(p) => CallsFirst(g, p, j)
    case And(p) => CallsFirst(g, p, j)
    case Seq(p1, p2) => CallsFirst(g, p1, j) || (Passable(g, p1) && CallsFirst(g, p2, j))
    case Choice(p1, p2) => CallsFirst(g, p1, j) || CallsFirst(g, p2, j)
    case _ => false
  }

  /** From t on, n rules can be entered one after the other before anything is consumed. */
  ghost predicate Chain(g: Rules, t: Tree, n: nat)
    decreases n
  {
    n == 0 || exists j: nat :: j < |g| && CallsFirst(g, t, j) && Chain(g, g[j], n - 1)
  }

  /** Some repetition in t has a body that can be passed without consuming. */
  ghost predicate EmptyLoop(g: Rules, t: Tree) {
    match t
    case Rep(p) => Passable(g, p) || EmptyLoop(g, p)
    case Not(p) => EmptyLoop(g, p)
    case And(p) => EmptyLoop(g, p)
    case Behind(_, p) => EmptyLoop(g, p)
    case Seq(p1, p2) => EmptyLoop(g, p1) || EmptyLoop(g, p2)
    case Choice(p1, p2) => EmptyLoop(g, p1) || EmptyLoop(g, p2)
    case _ => false
  }

  /** In no grammar inside t does a used rule begin a chain of more than 250 calls, or contain an
      empty loop. */
  ghost predicate Grounded(g: Rules, t: Tree)
    decreases t
  {
    match t
    case Rep(p) => Grounded(g, p)
    case Not(p) => Grounded(g, p)
    case And(p) => Grounded(g, p)
    case Behind(_, p) => Grounded(g, p)
    case Seq(p1, p2) => Grounded(g, p1) && Grounded(g, p2)
    case Choice(p1, p2) => Grounded(g, p1) && Grounded(g, p2)
    case Call(k) => k < |g|
    case Grammar(rs) =>
      && rs != [] && (forall k :: 0 <= k < |rs| ==> Grounded(rs, rs[k]))
      && forall k :: 0 <= k < |rs| && Used(rs, k) ==> !Chain(rs, rs[k], 251) && !EmptyLoop(rs, rs[k])
    case _ => true
  }

  lemma {:induction false} PassableMore(g: Rules, t: Tree, n: nat, m: nat)
    requires PassableIn(g, t, n) && n <= m
    ensures PassableIn(g, t, m)
    decreases n, t
  {
    match t
    case Seq(p1, p2) => PassableMore(g, p1, n, m); PassableMore(g, p2, n, m);
    case Choice(p1, p2) => PassableMore(g, if PassableIn(g, p1, n) then p1 else p2, n, m);
    case Call(k) => PassableMore(g, g[k], n - 1, m - 1);
    case Grammar(rs) => if rs != [] { PassableMore(rs, rs[0], n, m); }
    case _ =>
  }

  /** Passing a pattern, by the ways it is made. */
  lemma PassablePairs(g: Rules, p1: Tree, p2: Tree)
    ensures Passable(g, Seq(p1, p2)) <==> Passable(g, p1) && Passable(g, p2)
    ensures Passable(g, Choice(p1, p2)) <==> Passable(g, p1) || Passable(g, p2)
  {
    PassableBoth(g, p1, p2);
    PassableEither(g, p1, p2);
  }

  lemma PassableBoth(g: Rules, p1: Tree, p2: Tree)
    ensures Passable(g, Seq(p1, p2)) <==> Passable(g, p1) && Passable(g, p2)
  {
    if Passable(g, p1) && Passable(g, p2) {
      var n: nat :| PassableIn(g, p1, n);
      var m: nat :| PassableIn(g, p2, m);
      PassableMore(g, p1, n, n + m);
      PassableMore(g, p2, m, n + m);
      assert PassableIn(g, Seq(p1, p2), n + m);
    }
    if n: nat :| PassableIn(g, Seq(p1, p2), n) { assert PassableIn(g, p1, n) && PassableIn(g, p2, n); }
  }

  lemma PassableEither(g: Rules, p1: Tree, p2: Tree)
    ensures Passable(g, Choice(p1, p2)) <==> Passable(g, p1) || Passable(g, p2)
  {
    if n: nat :| PassableIn(g, Choice(p1, p2), n) { assert PassableIn(g, p1, n) || PassableIn(g, p2, n); }
    if n: nat :| PassableIn(g, p1, n) { assert PassableIn(g, Choice(p1, p2), n); }
    if n: nat :| PassableIn(g, p2, n) { assert PassableIn(g, Choice(p1, p2), n); }
  }

  lemma PassableCall(g: Rules, k: nat)
    requires k < |g|
    ensures Passable(g, Call(k)) <==> Passable(g, g[k])
  {
    if n: nat :| PassableIn(g, Call(k), n) { assert PassableIn(g, g[k], n - 1); }
    if n: nat :| PassableIn(g, g[k], n) { assert PassableIn(g, Call(k), n + 1); }
  }

  lemma PassableGrammar(g: Rules, rs: Rules)
    requires rs != []
    ensures Passable(g, Grammar(rs)) <==> Passable(rs, rs[0])
  {
    if n: nat :| PassableIn(g, Grammar(rs), n) { assert PassableIn(rs, rs[0], n); }
    if n: nat :| PassableIn(rs, rs[0], n) { assert PassableIn(g, Grammar(rs), n); }
  }

  lemma PassableLeaf(g: Rules, t: Tree)
    requires !t.Seq? && !t.Choice? && !t.Call? && !t.Grammar?
    ensures Passable(g, t) <==> t.True? || t.Rep? || t.Not? || t.And? || t.Behind?
  {
    assert PassableIn(g, t, 0) <==> t.True? || t.Rep? || t.Not? || t.And? || t.Behind?;
  }

  /** Chains of pairs. */
  lemma ChainPairs(g: Rules, p1: Tree, p2: Tree, n: nat)
    requires n > 0
    ensures Chain(g, Seq(p1, p2), n) <==> Chain(g, p1, n) || (Passable(g, p1) && Chain(g, p2, n))
    ensures Chain(g, Choice(p1, p2), n) <==> Chain(g, p1, n) || Chain(g, p2, n)
  {
    hide Passable;
    forall j: nat
      ensures CallsFirst(g, Seq(p1, p2), j) <==> CallsFirst(g, p1, j) || (Passable(g, p1) && CallsFirst(g, p2, j))
      ensures CallsFirst(g, Choice(p1, p2), j) <==> CallsFirst(g, p1, j) || CallsFirst(g, p2, j)
    {
    }
    hide CallsFirst;
    if j: nat :| j < |g| && CallsFirst(g, p1, j) && Chain(g, g[j], n - 1) {
      assert CallsFirst(g, Seq(p1, p2), j) && CallsFirst(g, Choice(p1, p2), j);
    }
    if j: nat :| j < |g| && CallsFirst(g, p2, j) && Chain(g, g[j], n - 1) {
      assert CallsFirst(g, Choice(p1, p2), j) && (Passable(g, p1) ==> CallsFirst(g, Seq(p1, p2), j));
    }
  }

  /** Chains of the others. */
  lemma ChainLeaf(g: Rules, t: Tree, n: nat)
    requires n > 0
    ensures t.Rep? || t.Not? || t.And? ==> (Chain(g, t, n) <==> Chain(g, t.body, n))
    ensures t.Call? && t.rule < |g| ==> (Chain(g, t, n) <==> Chain(g, g[t.rule], n - 1))
    ensures IsCharPattern(t) || t.True? || t.False? || t.Behind? || t.Grammar? ==> !Chain(g, t, n)
  {
    if t.Call? && t.rule < |g| && Chain(g, g[t.rule], n - 1) { assert CallsFirst(g, t, t.rule); }
    if t.Rep? || t.Not? || t.And? {
      assert forall j: nat :: CallsFirst(g, t, j) <==> CallsFirst(g, t.body, j);
    }
  }

  // ----- left recursion -----

  /** The sub-grammars in t are known to be passable or not. */
  ghost predicate SubsKnown(g: Rules, t: Tree, d: nat) {
    match t
    case Rep(p) => SubsKnown(g, p, d)
    case Not(p) => SubsKnown(g, p, d)
    case And(p) => SubsKnown(g, p, d)
    case Behind(_, p) => SubsKnown(g, p, d)
    case Seq(p1, p2) => SubsKnown(g, p1, d) && SubsKnown(g, p2, d)
    case Choice(p1, p2) => SubsKnown(g, p1, d) && SubsKnown(g, p2, d)
    case Grammar(_) => Nullable(g, t, d) <==> Passable(g, t)
    case _ => true
  }

  predicate CallsIn(g: Rules, t: Tree) {
    match t
    case Call(k) => k < |g|
    case Rep(p) => CallsIn(g, p)
    case Not(p) => CallsIn(g, p)
    case And(p) => CallsIn(g, p)
    case Behind(_, p) => CallsIn(g, p)
    case Seq(p1, p2) => CallsIn(g, p1) && CallsIn(g, p2)
    case Choice(p1, p2) => CallsIn(g, p1) && CallsIn(g, p2)
    case _ => true
  }

  /** All calls of the rules name rules, and their sub-grammars are known. */
  ghost predicate RulesKnown(g: Rules, d: nat) {
    forall k :: 0 <= k < |g| ==> CallsIn(g, g[k]) && SubsKnown(g, g[k], d)
  }

  /** verifyrule finds too many calls exactly when there is a chain of more than `left` of them; and
      otherwise its answer is whether the pattern can be passed. */
  lemma {:induction false} LeftRecursiveExactly(g: Rules, t: Tree, left: nat, nb: bool, d: nat)
    requires RulesKnown(g, d) && CallsIn(g, t) && SubsKnown(g, t, d)
    ensures VerifyRule(g, t, left, nb, d, true) == LeftRecursive <==> Chain(g, t, left + 1)
    ensures var v := VerifyRule(g, t, left, nb, d, true); v.Passes? ==> (v.nb <==> nb || Passable(g, t))
    decreases left, t
  {
    hide Passable, Chain, CallsFirst, Nullable;
    match t
    case Seq(p1, p2) =>
      PassablePairs(g, p1, p2);
      ChainPairs(g, p1, p2, left + 1);
      LeftRecursiveExactly(g, p1, left, false, d);
      LeftRecursiveExactly(g, p2, left, nb, d);
    case Choice(p1, p2) =>
      PassablePairs(g, p1, p2);
      ChainPairs(g, p1, p2, left + 1);
      LeftRecursiveExactly(g, p1, left, nb, d);
      LeftRecursiveExactly(g, p2, left, nb || Passable(g, p1), d);
    case Call(k) =>
      PassableCall(g, k);
      ChainLeaf(g, t, left + 1);
      if left > 0 { LeftRecursiveExactly(g, g[k], left - 1, nb, d); } else { NoChain(g, g[k]); }
    case Grammar(rs) => ChainLeaf(g, t, left + 1);
    case Rep(p) => BodyExactly(g, t, left, nb, d);
    case Not(p) => BodyExactly(g, t, left, nb, d);
    case And(p) => BodyExactly(g, t, left, nb, d);
    case _ =>
      PassableLeaf(g, t);
      ChainLeaf(g, t, left + 1);
  }

  lemma {:induction false} BodyExactly(g: Rules, t: Tree, left: nat, nb: bool, d: nat)
    requires RulesKnown(g, d) && CallsIn(g, t) && SubsKnown(g, t, d) && (t.Rep? || t.Not? || t.And?)
    ensures VerifyRule(g, t, left, nb, d, true) == LeftRecursive <==> Chain(g, t, left + 1)
    ensures var v := VerifyRule(g, t, left, nb, d, true); v.Passes? ==> (v.nb <==> nb || Passable(g, t))
    decreases left, t, 0
  {
    hide Passable, Chain, CallsFirst, Nullable;
    PassableLeaf(g, t);
    ChainLeaf(g, t, left + 1);
    LeftRecursiveExactly(g, t.body, left, true, d);
  }

  lemma NoChain(g: Rules, t: Tree)
    ensures Chain(g, t, 0)
  {
  }

  // ----- nullable -----

  /** The sub-grammars in t are known from depth n on. */
  ghost predicate SubsFrom(g: Rules, t: Tree, n: nat) {
    forall d: nat {:trigger SubsKnown(g, t, d)} :: n <= d ==> SubsKnown(g, t, d)
  }

  ghost predicate RulesFrom(g: Rules, n: nat) {
    forall k :: 0 <= k < |g| ==> CallsIn(g, g[k]) && SubsFrom(g, g[k], n)
  }

  /** nullable says whether a pattern can be passed, when it is followed deep enough: deeper than
      any chain of calls from it. */
  lemma {:induction false} NullableExactly(g: Rules, t: Tree, n: nat, d: nat)
    requires RulesFrom(g, n) && CallsIn(g, t) && SubsKnown(g, t, d) && n <= d && !Chain(g, t, d - n + 1)
    ensures Nullable(g, t, d) <==> Passable(g, t)
    decreases d, t
  {
    hide Passable, Chain, CallsFirst;
    match t
    case Seq(p1, p2) =>
      PassablePairs(g, p1, p2);
      ChainPairs(g, p1, p2, d - n + 1);
      NullableExactly(g, p1, n, d);
      if Passable(g, p1) { NullableExactly(g, p2, n, d); }
    case Choice(p1, p2) =>
      PassablePairs(g, p1, p2);
      ChainPairs(g, p1, p2, d - n + 1);
      NullableExactly(g, p1, n, d);
      NullableExactly(g, p2, n, d);
    case Call(k) =>
      PassableCall(g, k);
      ChainLeaf(g, t, d - n + 1);
      NoChain(g, g[k]);
      assert SubsFrom(g, g[k], n) && n < d;
      NullableExactly(g, g[k], n, d - 1);
    case Grammar(rs) =>
    case _ => PassableLeaf(g, t);
  }

  /** Shorter chains come first. */
  lemma {:induction false} ChainLess(g: Rules, t: Tree, n: nat, m: nat)
    requires Chain(g, t, n) && m <= n
    ensures Chain(g, t, m)
    decreases m
  {
    if m > 0 {
      var j: nat :| j < |g| && CallsFirst(g, t, j) && Chain(g, g[j], n - 1);
      ChainLess(g, g[j], n - 1, m - 1);
    }
  }

  // ----- empty loops -----

  /** No chain of more than MAXRULES calls begins at a used rule. */
  ghost predicate Bounded(g: Rules) {
    forall k :: 0 <= k < |g| && Used(g, k) ==> !Chain(g, g[k], MAXRULES + 1)
  }

  /** A part of a used rule. */
  ghost predicate PartOf(g: Rules, t: Tree) {
    forall j: nat :: Calls(t, j) ==> Used(g, j)
  }

  lemma {:induction false} FirstIsCall(g: Rules, t: Tree, j: nat)
    requires CallsFirst(g, t, j)
    ensures Calls(t, j)
  {
    match t
    case Rep(p) => FirstIsCall(g, p, j);
    case Not(p) => FirstIsCall(g, p, j);
    case And(p) => FirstIsCall(g, p, j);
    case Seq(p1, p2) => if CallsFirst(g, p1, j) { FirstIsCall(g, p1, j); } else { FirstIsCall(g, p2, j); }
    case Choice(p1, p2) => if CallsFirst(g, p1, j) { FirstIsCall(g, p1, j); } else { FirstIsCall(g, p2, j); }
    case _ =>
  }

  lemma PartChain(g: Rules, t: Tree)
    requires Bounded(g) && PartOf(g, t)
    ensures !Chain(g, t, MAXRULES + 2)
  {
    if Chain(g, t, MAXRULES + 2) {
      var j: nat :| j < |g| && CallsFirst(g, t, j) && Chain(g, g[j], MAXRULES + 1);
      FirstIsCall(g, t, j);
    }
  }

  /** checkloops finds exactly the loops whose body can be passed. */
  lemma {:induction false} LoopsExactly(g: Rules, t: Tree, n: nat, d: nat)
    requires RulesFrom(g, n) && Bounded(g) && PartOf(g, t) && CallsIn(g, t) && SubsKnown(g, t, d)
    requires n + MAXRULES + 1 <= d
    ensures CheckLoops(g, t, d) <==> EmptyLoop(g, t)
    decreases t
  {
    hide Passable, Chain, Bounded, Nullable, RulesFrom;
    match t
    case Rep(p) =>
      assert PartOf(g, p);
      PartChain(g, p);
      if Chain(g, p, d - n + 1) { ChainLess(g, p, d - n + 1, MAXRULES + 2); }
      NullableExactly(g, p, n, d);
      LoopsExactly(g, p, n, d);
    case Not(p) => assert PartOf(g, p); LoopsExactly(g, p, n, d);
    case And(p) => assert PartOf(g, p); LoopsExactly(g, p, n, d);
    case Behind(_, p) => assert PartOf(g, p); LoopsExactly(g, p, n, d);
    case Seq(p1, p2) =>
      assert PartOf(g, p1) && PartOf(g, p2);
      LoopsExactly(g, p1, n, d);
      LoopsExactly(g, p2, n, d);
    case Choice(p1, p2) =>
      assert PartOf(g, p1) && PartOf(g, p2);
      LoopsExactly(g, p1, n, d);
      LoopsExactly(g, p2, n, d);
    case _ =>
  }

  // ----- acceptance -----

  /** Deep enough for all analyses of t. */
  function Far(t: Tree): nat { (MAXRULES + 2) * Height(t) }

  lemma {:induction false} FarParts(t: Tree)
    ensures t.Rep? || t.Not? || t.And? || t.Behind? ==> Far(t.body) <= Far(t)
    ensures t.Seq? || t.Choice? ==> Far(t.p1) <= Far(t) && Far(t.p2) <= Far(t)
    ensures t.Grammar? ==> forall k :: 0 <= k < |t.rules| ==> Far(t.rules[k]) + MAXRULES + 2 <= Far(t)
  {
    if t.Grammar? {
      forall k | 0 <= k < |t.rules| ensures Far(t.rules[k]) + MAXRULES + 2 <= Far(t) { RuleHeight(t, 0, k); }
    }
  }

  lemma {:induction false} RuleHeight(t: Tree, i: nat, k: nat)
    requires t.Grammar? && i <= k < |t.rules|
    ensures Height(t.rules[k]) <= SumHeight(t, i)
    decreases k - i
  {
    if i < k { RuleHeight(t, i + 1, k); }
  }

  lemma {:induction false} GroundedCalls(g: Rules, t: Tree)
    requires Grounded(g, t)
    ensures CallsIn(g, t)
  {
    match t
    case Rep(p) => GroundedCalls(g, p);
    case Not(p) => GroundedCalls(g, p);
    case And(p) => GroundedCalls(g, p);
    case Behind(_, p) => GroundedCalls(g, p);
    case Seq(p1, p2) => GroundedCalls(g, p1); GroundedCalls(g, p2);
    case Choice(p1, p2) => GroundedCalls(g, p1); GroundedCalls(g, p2);
    case _ =>
  }

  /** In a grounded pattern the sub-grammars are known. */
  lemma {:induction false} GroundedKnown(g: Rules, t: Tree, d: nat)
    requires Grounded(g, t) && Far(t) <= d
    ensures SubsKnown(g, t, d)
    decreases t
  {
    hide Passable, Nullable, Far;
    FarParts(t);
    match t
    case Rep(p) => GroundedKnown(g, p, d);
    case Not(p) => GroundedKnown(g, p, d);
    case And(p) => GroundedKnown(g, p, d);
    case Behind(_, p) => GroundedKnown(g, p, d);
    case Seq(p1, p2) => GroundedKnown(g, p1, d); GroundedKnown(g, p2, d);
    case Choice(p1, p2) => GroundedKnown(g, p1, d); GroundedKnown(g, p2, d);
    case Grammar(rs) => GrammarKnown(g, t, d);
    case _ =>
  }

  lemma {:induction false} GrammarKnown(g: Rules, t: Tree, d: nat)
    requires t.Grammar? && Grounded(g, t) && Far(t) <= d
    ensures Nullable(g, t, d) <==> Passable(g, t)
    decreases t, 0
  {
    hide Passable, Chain, EmptyLoop, Far;
    var rs := t.rules;
    RulesGrounded(g, t);
    FarParts(t);
    var n := Far(t) - MAXRULES - 2;
    assert Used(rs, 0);
    if Chain(rs, rs[0], d - n + 1) { ChainLess(rs, rs[0], d - n + 1, MAXRULES + 1); }
    assert SubsFrom(rs, rs[0], n);
    NullableExactly(rs, rs[0], n, d);
    PassableGrammar(g, rs);
  }

  /** In a grounded grammar all rules have their sub-grammars known. */
  lemma {:induction false} RulesGrounded(g: Rules, t: Tree)
    requires t.Grammar? && t.rules != [] && forall k :: 0 <= k < |t.rules| ==> Grounded(t.rules, t.rules[k])
    ensures Far(t) >= MAXRULES + 2 && RulesFrom(t.rules, Far(t) - MAXRULES - 2)
    decreases t, -1
  {
    hide Grounded, Far;
    FarParts(t);
    assert Far(t.rules[0]) + MAXRULES + 2 <= Far(t);
    var n := Far(t) - MAXRULES - 2;
    forall k | 0 <= k < |t.rules| ensures CallsIn(t.rules, t.rules[k]) && SubsFrom(t.rules, t.rules[k], n) {
      GroundedCalls(t.rules, t.rules[k]);
      forall d: nat {:trigger SubsKnown(t.rules, t.rules[k], d)} | n <= d ensures SubsKnown(t.rules, t.rules[k], d) {
        GroundedKnown(t.rules, t.rules[k], d);
      }
    }
  }

  /** verifygrammar, when the rules themselves are grounded. */
  lemma VerifiedExactly(g: Rules, t: Tree, d: nat)
    requires t.Grammar? && t.rules != [] && Far(t) <= d
    requires forall k :: 0 <= k < |t.rules| ==> Grounded(t.rules, t.rules[k])
    ensures VerifyGrammar(t.rules, d, true) <==> Grounded(g, t)
  {
    hide Chain, EmptyLoop, CheckLoops, VerifyRule, Far, SubsKnown, CallsIn;
    var rs := t.rules;
    RulesGrounded(g, t);
    var n := Far(t) - MAXRULES - 2;
    forall k | 0 <= k < |rs|
      ensures VerifyRule(rs, rs[k], MAXRULES, false, d, true) == LeftRecursive <==> Chain(rs, rs[k], MAXRULES + 1)
    {
      RuleVerified(rs, n, d, k);
    }
    if Bounded(rs) {
      forall k | 0 <= k < |rs| ensures CheckLoops(rs, rs[k], d) <==> EmptyLoop(rs, rs[k]) { RuleLoops(rs, n, d, k); }
    }
  }

  lemma RuleVerified(rs: Rules, n: nat, d: nat, k: nat)
    requires RulesFrom(rs, n) && n <= d && k < |rs|
    ensures VerifyRule(rs, rs[k], MAXRULES, false, d, true) == LeftRecursive <==> Chain(rs, rs[k], MAXRULES + 1)
  {
    hide Chain, SubsKnown, CallsIn, VerifyRule;
    forall i | 0 <= i < |rs| ensures CallsIn(rs, rs[i]) && SubsKnown(rs, rs[i], d) { assert SubsFrom(rs, rs[i], n); }
    LeftRecursiveExactly(rs, rs[k], MAXRULES, false, d);
  }

  lemma RuleLoops(rs: Rules, n: nat, d: nat, k: nat)
    requires RulesFrom(rs, n) && n + MAXRULES + 1 <= d && k < |rs| && Bounded(rs)
    ensures CheckLoops(rs, rs[k], d) <==> EmptyLoop(rs, rs[k])
  {
    hide Chain, SubsKnown, CallsIn, CheckLoops, EmptyLoop, Bounded;
    assert SubsFrom(rs, rs[k], n);
    forall j: nat | Calls(rs[k], j) ensures Used(rs, j) { CalledExists(rs, rs[k], j); }
    LoopsExactly(rs, rs[k], n, d);
  }

  lemma {:induction false} CalledExists(g: Rules, t: Tree, j: nat)
    requires CallsIn(g, t) && Calls(t, j)
    ensures j < |g|
  {
    match t
    case Rep(p) => CalledExists(g, p, j);
    case Not(p) => CalledExists(g, p, j);
    case And(p) => CalledExists(g, p, j);
    case Behind(_, p) => CalledExists(g, p, j);
    case Seq(p1, p2) => CalledExists(g, if Calls(p1, j) then p1 else p2, j);
    case Choice(p1, p2) => CalledExists(g, if Calls(p1, j) then p1 else p2, j);
    case _ =>
  }

  /** The strict check of all grammars accepts exactly the grounded patterns. */
  lemma {:induction false} CheckedExactly(g: Rules, t: Tree, d: nat)
    requires Far(t) <= d
    ensures Checked(g, t, d, true) <==> Grounded(g, t)
    decreases t
  {
    hide Far, VerifyGrammar, Chain, EmptyLoop;
    FarParts(t);
    match t
    case Rep(p) => CheckedExactly(g, p, d);
    case Not(p) => CheckedExactly(g, p, d);
    case And(p) => CheckedExactly(g, p, d);
    case Behind(_, p) => CheckedExactly(g, p, d);
    case Seq(p1, p2) => CheckedExactly(g, p1, d); CheckedExactly(g, p2, d);
    case Choice(p1, p2) => CheckedExactly(g, p1, d); CheckedExactly(g, p2, d);
    case Grammar(rs) =>
      forall k | 0 <= k < |rs| ensures Checked(rs, rs[k], d, true) <==> Grounded(rs, rs[k]) {
        CheckedExactly(rs, rs[k], d);
      }
      if rs != [] && forall k :: 0 <= k < |rs| ==> Grounded(rs, rs[k]) { VerifiedExactly(g, t, d); }
    case _ =>
  }

  /** A whole pattern is accepted by the strict check exactly when it is grounded and has no empty
      loop outside of its grammars. */
  lemma AcceptedExactly(t: Tree, d: nat)
    requires Far(t) + MAXRULES + 1 <= d
    ensures Accepted(t, d, true) <==> Grounded([], t) && !EmptyLoop([], t)
  {
    CheckedExactly([], t, d);
    if Grounded([], t) {
      GroundedCalls([], t);
      GroundedKnown([], t, d);
      forall j: nat ensures !Calls(t, j) { if Calls(t, j) { CalledExists([], t, j); } }
      LoopsExactly([], t, 0, d);
    }
  }

  /** So it is with the check as written, where it never forgets nb; and it always accepts such
      patterns. */
  lemma AcceptedAsWritten(t: Tree, d: nat)
    requires Far(t) + MAXRULES + 1 <= d
    ensures Grounded([], t) && !EmptyLoop([], t) ==> Accepted(t, d, false)
    ensures NbKept(t, d) ==> (Accepted(t, d, false) <==> Grounded([], t) && !EmptyLoop([], t))
  {
    AcceptedExactly(t, d);
    if Accepted(t, d, true) { StrictAccepts(t, d); }
    if NbKept(t, d) && Accepted(t, d, false) { SameChecked([], t, d); }
  }

  // ----- grammars that are not larger than the bound -----

  /** n calls, each before anything is consumed, lead from rule k to rule j. */
  ghost predicate Way(g: Rules, k: nat, j: nat, n: nat)
    decreases n
  {
    if n == 0 then k == j
    else exists i: nat :: k < |g| && i < |g| && CallsFirst(g, g[k], i) && Way(g, i, j, n - 1)
  }

  /** From rule k one comes to a rule that leads back to itself. */
  ghost predicate LeftLoop(g: Rules, k: nat) {
    exists j: nat, n: nat, m: nat :: Way(g, k, j, n) && m > 0 && Way(g, j, j, m)
  }

  lemma {:induction false} WayTwice(g: Rules, a: nat, b: nat, c: nat, n: nat, m: nat)
    requires Way(g, a, b, n) && Way(g, b, c, m)
    ensures Way(g, a, c, n + m)
    decreases n
  {
    if n > 0 {
      var i: nat :| a < |g| && i < |g| && CallsFirst(g, g[a], i) && Way(g, i, b, n - 1);
      WayTwice(g, i, b, c, n - 1, m);
    }
  }

  lemma {:induction false} WayChain(g: Rules, k: nat, j: nat, n: nat)
    requires k < |g| && Way(g, k, j, n)
    ensures Chain(g, g[k], n)
    decreases n
  {
    if n > 0 {
      var i: nat :| i < |g| && CallsFirst(g, g[k], i) && Way(g, i, j, n - 1);
      WayChain(g, i, j, n - 1);
    }
  }

  /** A chain, as the rules it enters. */
  ghost predicate Trail(g: Rules, path: seq<nat>) {
    && path != [] && (forall i :: 0 <= i < |path| ==> path[i] < |g|)
    && forall i {:trigger TrailStep(g, path, i)} :: 0 <= i < |path| - 1 ==> TrailStep(g, path, i)
  }

  ghost predicate TrailStep(g: Rules, path: seq<nat>, i: int)
    requires 0 <= i < |path| - 1 && forall i :: 0 <= i < |path| ==> path[i] < |g|
  {
    CallsFirst(g, g[path[i]], path[i + 1])
  }

  lemma {:induction false} ChainTrail(g: Rules, k: nat, n: nat) returns (path: seq<nat>)
    requires k < |g| && Chain(g, g[k], n)
    ensures Trail(g, path) && |path| == n + 1 && path[0] == k
    decreases n
  {
    hide CallsFirst;
    if n == 0 {
      path := [k];
    } else {
      var j: nat :| j < |g| && CallsFirst(g, g[k], j) && Chain(g, g[j], n - 1);
      var rest := ChainTrail(g, j, n - 1);
      path := [k] + rest;
      forall i | 0 <= i < |path| - 1 ensures TrailStep(g, path, i) {
        if i > 0 { assert TrailStep(g, rest, i - 1); }
      }
    }
  }

  lemma {:induction false} TrailWay(g: Rules, path: seq<nat>, i: nat, j: nat)
    requires Trail(g, path) && i <= j < |path|
    ensures Way(g, path[i], path[j], j - i)
    decreases j - i
  {
    hide CallsFirst;
    if i < j {
      assert TrailStep(g, path, i);
      TrailWay(g, path, i + 1, j);
    }
  }

  /** More places than rules: some rule comes twice. */
  lemma {:induction false} Twice(path: seq<nat>, n: nat) returns (i: nat, j: nat)
    requires n < |path| && forall i :: 0 <= i < |path| ==> path[i] < n
    ensures i < j < |path| && path[i] == path[j]
    decreases n
  {
    var last := |path| - 1;
    if k: nat :| k < last && path[k] == path[last] {
      i, j := k, last;
    } else {
      var fewer := seq(last, k requires 0 <= k < last => if path[k] > path[last] then path[k] - 1 else path[k]);
      i, j := Twice(fewer, n - 1);
    }
  }

  /** In a grammar of at most 250 rules, chains are too long exactly when they lead back. */
  lemma LeftLoopExactly(g: Rules, k: nat)
    requires k < |g| <= 250
    ensures Chain(g, g[k], MAXRULES + 1) <==> LeftLoop(g, k)
  {
    hide Chain, Way;
    if Chain(g, g[k], MAXRULES + 1) { ChainLoops(g, k, MAXRULES + 1); }
    if LeftLoop(g, k) {
      var j: nat, n: nat, m: nat :| Way(g, k, j, n) && m > 0 && Way(g, j, j, m);
      LoopChain(g, k, j, n, m, MAXRULES + 1);
    }
  }

  lemma ChainLoops(g: Rules, k: nat, n: nat)
    requires k < |g| <= n && Chain(g, g[k], n)
    ensures LeftLoop(g, k)
  {
    hide Chain, Way;
    var path := ChainTrail(g, k, n);
    var i, j := Twice(path, |g|);
    TrailWay(g, path, 0, i);
    TrailWay(g, path, i, j);
  }

  lemma LoopChain(g: Rules, k: nat, j: nat, n: nat, m: nat, most: nat)
    requires k < |g| && Way(g, k, j, n) && m > 0 && Way(g, j, j, m)
    ensures Chain(g, g[k], most)
  {
    hide Chain, Way;
    RoundTrips(g, j, m, most);
    assert most * m >= most;
    WayTwice(g, k, j, j, n, most * m);
    WayChain(g, k, j, n + most * m);
    ChainLess(g, g[k], n + most * m, most);
  }

  lemma {:induction false} RoundTrips(g: Rules, j: nat, m: nat, times: nat)
    requires Way(g, j, j, m)
    ensures Way(g, j, j, times * m)
  {
    if times > 0 {
      RoundTrips(g, j, m, times - 1);
      WayTwice(g, j, j, j, (times - 1) * m, m);
      assert (times - 1) * m + m == times * m;
    }
  }

  /** So a used rule of such a grammar is found left recursive exactly when it is. */
  lemma SmallGrammarExactly(g: Rules, k: nat, d: nat)
    requires RulesKnown(g, d) && k < |g| <= 250
    ensures VerifyRule(g, g[k], MAXRULES, false, d, true) == LeftRecursive <==> LeftLoop(g, k)
  {
    LeftRecursiveExactly(g, g[k], MAXRULES, false, d);
    LeftLoopExactly(g, k);
  }
}

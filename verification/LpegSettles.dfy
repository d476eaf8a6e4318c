/** The analyses of LpegAnalysis follow calls to a depth d, those of skynet/3rd/lpeg/lpcode.c
    without a bound. On a strictly checked pattern the depth does not matter once it is large
    enough: the analyses, and the code generated with them, no longer change. */
module LpegSettles {
  import opened LpegSyntax
  import opened LpegAnalysis
  import opened LpegMachine
  import opened LpegCodegen
  import opened LpegGrammar

  // ----- the simple analyses only get more precise -----

  lemma {:induction false} CheckMore(g: Rules, t: Tree, d: nat, d': nat)
    requires d <= d'
    ensures Nullable(g, t, d') ==> Nullable(g, t, d)
    ensures Nofail(g, t, d) ==> Nofail(g, t, d')
    decreases d, t
  {
    match t
    case And(p) => CheckMore(g, p, d, d');
    case Seq(p1, p2) => CheckMore(g, p1, d, d'); CheckMore(g, p2, d, d');
    case Choice(p1, p2) => CheckMore(g, p1, d, d'); CheckMore(g, p2, d, d');
    case Grammar(rs) => if rs != [] { CheckMore(rs, rs[0], d, d'); }
    case Call(k) => if d > 0 && k < |g| { CheckMore(g, g[k], d - 1, d' - 1); }
    case _ =>
  }

  lemma {:induction false} FixedLenMore(g: Rules, t: Tree, d: nat, d': nat)
    requires d <= d' && FixedLen(g, t, d) >= 0
    ensures FixedLen(g, t, d') == FixedLen(g, t, d)
    decreases d, t
  {
    match t
    case Seq(p1, p2) => FixedLenMore(g, p1, d, d'); FixedLenMore(g, p2, d, d');
    case Choice(p1, p2) => FixedLenMore(g, p1, d, d'); FixedLenMore(g, p2, d, d');
    case Grammar(rs) => FixedLenMore(rs, rs[0], d, d');
    case Call(k) => FixedLenMore(g, g[k], d - 1, d' - 1);
    case _ =>
  }

  lemma {:induction false} HeadFailMore(g: Rules, t: Tree, d: nat, d': nat)
    requires d <= d' && HeadFail(g, t, d)
    ensures HeadFail(g, t, d')
    decreases d, t
  {
    match t
    case And(p) => HeadFailMore(g, p, d, d');
    case Seq(p1, p2) => HeadFailMore(g, p1, d, d'); CheckMore(g, p2, d, d');
    case Choice(p1, p2) => HeadFailMore(g, p1, d, d'); HeadFailMore(g, p2, d, d');
    case Grammar(rs) => HeadFailMore(rs, rs[0], d, d');
    case Call(k) => HeadFailMore(g, g[k], d - 1, d' - 1);
    case _ =>
  }

  predicate SameSimple(g: Rules, t: Tree, d: nat, d': nat) {
    && Nullable(g, t, d) == Nullable(g, t, d') && Nofail(g, t, d) == Nofail(g, t, d')
    && FixedLen(g, t, d) == FixedLen(g, t, d') && HeadFail(g, t, d) == HeadFail(g, t, d')
  }

  ghost predicate SimpleFrom(g: Rules, t: Tree, n: nat) {
    forall d: nat, d': nat :: n <= d && n <= d' ==> SameSimple(g, t, d, d')
  }

  /** The simple analyses settle on every pattern, checked or not. */
  lemma SimpleSettles(g: Rules, t: Tree) returns (n: nat)
    ensures SimpleFrom(g, t, n)
  {
    var a: nat := 0;
    if x: nat :| !Nullable(g, t, x) { a := x; }
    var b: nat := 0;
    if x: nat :| Nofail(g, t, x) { b := x; }
    var c: nat := 0;
    if x: nat :| FixedLen(g, t, x) >= 0 { c := x; }
    var e: nat := 0;
    if x: nat :| HeadFail(g, t, x) { e := x; }
    n := a + b + c + e;
    forall d: nat | n <= d
      ensures Nullable(g, t, d) == Nullable(g, t, a) && Nofail(g, t, d) == Nofail(g, t, b)
      ensures FixedLen(g, t, d) == FixedLen(g, t, c) && HeadFail(g, t, d) == HeadFail(g, t, e)
    {
      CheckMore(g, t, a, d);
      CheckMore(g, t, b, d);
      if FixedLen(g, t, c) >= 0 { FixedLenMore(g, t, c, d); }
      if HeadFail(g, t, e) { HeadFailMore(g, t, e, d); }
    }
  }

  /** The simple analyses of t and all patterns inside it are settled from n on. */
  ghost predicate Firm(g: Rules, t: Tree, n: nat)
    decreases t
  {
    SimpleFrom(g, t, n) &&
    match t
    case Rep(p) => Firm(g, p, n)
    case Not(p) => Firm(g, p, n)
    case And(p) => Firm(g, p, n)
    case Behind(_, p) => Firm(g, p, n)
    case Seq(p1, p2) => Firm(g, p1, n) && Firm(g, p2, n)
    case Choice(p1, p2) => Firm(g, p1, n) && Firm(g, p2, n)
    case Grammar(rs) => forall k :: 0 <= k < |rs| ==> Firm(rs, rs[k], n)
    case _ => true
  }

  lemma {:induction false} FirmLater(g: Rules, t: Tree, n: nat, m: nat)
    requires Firm(g, t, n) && n <= m
    ensures Firm(g, t, m)
    decreases t
  {
    hide SameSimple;
    match t
    case Rep(p) => FirmLater(g, p, n, m);
    case Not(p) => FirmLater(g, p, n, m);
    case And(p) => FirmLater(g, p, n, m);
    case Behind(_, p) => FirmLater(g, p, n, m);
    case Seq(p1, p2) => FirmLater(g, p1, n, m); FirmLater(g, p2, n, m);
    case Choice(p1, p2) => FirmLater(g, p1, n, m); FirmLater(g, p2, n, m);
    case Grammar(rs) => forall k | 0 <= k < |rs| ensures Firm(rs, rs[k], m) { FirmLater(rs, rs[k], n, m); }
    case _ =>
  }

  lemma {:induction false} FirmFrom(g: Rules, t: Tree) returns (n: nat)
    ensures Firm(g, t, n)
    decreases t, 0
  {
    hide SimpleFrom;
    n := SimpleSettles(g, t);
    var a: nat, b: nat := 0, 0;
    match t {
    case Rep(p) => a := FirmFrom(g, p); FirmLater(g, p, a, n + a + b);
    case Not(p) => a := FirmFrom(g, p); FirmLater(g, p, a, n + a + b);
    case And(p) => a := FirmFrom(g, p); FirmLater(g, p, a, n + a + b);
    case Behind(_, p) => a := FirmFrom(g, p); FirmLater(g, p, a, n + a + b);
    case Seq(p1, p2) =>
      a := FirmFrom(g, p1);
      b := FirmFrom(g, p2);
      FirmLater(g, p1, a, n + a + b);
      FirmLater(g, p2, b, n + a + b);
    case Choice(p1, p2) =>
      a := FirmFrom(g, p1);
      b := FirmFrom(g, p2);
      FirmLater(g, p1, a, n + a + b);
      FirmLater(g, p2, b, n + a + b);
    case Grammar(rs) =>
      a := FirmRules(t, |rs|);
      forall k | 0 <= k < |rs| ensures Firm(rs, rs[k], n + a + b) { FirmLater(rs, rs[k], a, n + a + b); }
    case _ =>
    }
    SimpleLater(g, t, n, n + a + b);
    n := n + a + b;
  }

  lemma SimpleLater(g: Rules, t: Tree, n: nat, m: nat)
    requires SimpleFrom(g, t, n) && n <= m
    ensures SimpleFrom(g, t, m)
  {
  }

  lemma {:induction false} FirmRules(t: Tree, k: nat) returns (n: nat)
    requires t.Grammar? && k <= |t.rules|
    ensures forall j :: 0 <= j < k ==> Firm(t.rules, t.rules[j], n)
    decreases t, 0, k
  {
    hide Firm;
    var rs := t.rules;
    n := 0;
    if k > 0 {
      var a := FirmRules(t, k - 1);
      var b := FirmFrom(rs, rs[k - 1]);
      n := a + b;
      FirmLater(rs, rs[k - 1], b, n);
      forall j | 0 <= j < k - 1 ensures Firm(rs, rs[j], n) { FirmLater(rs, rs[j], a, n); }
    }
  }

  // ----- first sets -----

  /** A pattern found not passable by verifyrule is not nullable, looked at deeply enough. */
  lemma {:induction false} NbNullable(g: Rules, t: Tree, left: nat, v: nat, d: nat)
    requires VerifyRule(g, t, left, false, v, true) == Passes(false) && d >= v + left
    ensures !Nullable(g, t, d)
    decreases left, t
  {
    match t
    case Not(p) => NbAccumulates(g, p, left, true, v);
    case And(p) => NbAccumulates(g, p, left, true, v);
    case Rep(p) => NbAccumulates(g, p, left, true, v);
    case Call(k) => NbNullable(g, g[k], left - 1, v, d - 1);
    case Seq(p1, p2) =>
      if !VerifyRule(g, p1, left, false, v, true).nb { NbNullable(g, p1, left, v, d); }
      else { NbNullable(g, p2, left, v, d); }
    case Choice(p1, p2) =>
      if VerifyRule(g, p1, left, false, v, true).nb { NbAccumulates(g, p2, left, true, v); }
      NbNullable(g, p1, left, v, d);
      NbNullable(g, p2, left, v, d);
    case Grammar(rs) => CheckMore(g, t, v, d);
    case _ =>
  }

  ghost predicate RulesReady(g: Rules, n: nat, v: nat, h: nat) {
    && VerifyGrammar(g, v, true)
    && forall k :: 0 <= k < |g| ==> Checked(g, g[k], v, true) && Firm(g, g[k], n) && Height(g[k]) <= h
  }

  /** t is strictly checked at depth v and its simple analyses are settled from n on. */
  ghost predicate Prepared(g: Rules, t: Tree, n: nat, v: nat, h: nat) {
    && Checked(g, t, v, true) && Firm(g, t, n) && Height(t) <= h
    && (Closed(t) || (RulesReady(g, n, v, h) && forall k: nat :: Calls(t, k) ==> Used(g, k)))
  }

  lemma Entered(g: Rules, t: Tree, n: nat, v: nat, h: nat)
    requires Prepared(g, t, n, v, h)
    ensures VerifyRule(g, t, MAXRULES + 1, false, v, true) != LeftRecursive
  {
    if Closed(t) { ClosedEnterable(g, t, MAXRULES + 1, false, v); } else { OneMoreLevel(g, t, false, v); }
  }

  lemma PartsPrepared(g: Rules, t: Tree, n: nat, v: nat, h: nat)
    requires Prepared(g, t, n, v, h)
    ensures t.Rep? || t.Not? || t.And? || t.Behind? ==> Prepared(g, t.body, n, v, h)
    ensures t.Seq? || t.Choice? ==> Prepared(g, t.p1, n, v, h) && Prepared(g, t.p2, n, v, h)
  {
    hide SimpleFrom;
    if t.Rep? || t.Not? || t.And? || t.Behind? {
      forall k: nat ensures Calls(t.body, k) ==> Calls(t, k) {}
    } else if t.Seq? || t.Choice? {
      forall k: nat ensures Calls(t.p1, k) || Calls(t.p2, k) ==> Calls(t, k) {}
    }
  }

  lemma RulePrepared(g: Rules, t: Tree, k: nat, n: nat, v: nat, h: nat)
    requires t.Grammar? && k < |t.rules| && Prepared(g, t, n, v, h)
    ensures 0 < Height(t) <= h && Prepared(t.rules, t.rules[k], n, v, Height(t) - 1)
  {
    hide SimpleFrom;
    var rs := t.rules;
    forall j | 0 <= j < |rs| ensures Height(rs[j]) <= Height(t) - 1 { RuleHeight(t, j, 0); }
    forall j: nat | Calls(rs[k], j) ensures Used(rs, j) { CalledExists(rs, rs[k], j, v); }
  }

  lemma CalleePrepared(g: Rules, k: nat, n: nat, v: nat, h: nat)
    requires Prepared(g, Call(k), n, v, h)
    ensures k < |g| && Prepared(g, g[k], n, v, h)
  {
    hide SimpleFrom;
    assert Calls(Call(k), k) && Used(g, k);
    CalledUsed(g, k, v);
  }

  /** How deep getfirst may have to follow calls. */
  function Deep(n: nat, v: nat, h: nat, left: nat): nat { n + v + left + (MAXRULES + 2) * h }

  /** Deeply enough, the depth does not matter to a first set. */
  lemma {:induction false} FirstSettles(g: Rules, t: Tree, follow: Charset, n: nat, v: nat, h: nat, left: nat,
                                        d: nat, d': nat)
    requires Prepared(g, t, n, v, h) && VerifyRule(g, t, left, false, v, true) != LeftRecursive
    requires Deep(n, v, h, left) <= d && Deep(n, v, h, left) <= d'
    ensures GetFirst(g, t, follow, d) == GetFirst(g, t, follow, d')
    decreases h, left, t
  {
    PartsPrepared(g, t, n, v, h);
    match t
    case Rep(p) =>
      hide Prepared;
      NbAccumulates(g, p, left, true, v);
      FirstSettles(g, p, follow, n, v, h, left, d, d');
    case And(p) =>
      hide Prepared;
      NbAccumulates(g, p, left, true, v);
      FirstSettles(g, p, follow, n, v, h, left, d, d');
    case Seq(p1, p2) =>
      assert SameSimple(g, p1, d, d') by { assert SimpleFrom(g, p1, n); }
      hide Prepared, SameSimple;
      SameNullable(g, p1, d, d');
      FirstSettles(g, p1, FULLSET, n, v, h, left, d, d');
      if Nullable(g, p1, d) {
        if VerifyRule(g, p1, left, false, v, true) == Passes(false) { NbNullable(g, p1, left, v, d); }
        FirstSettles(g, p2, follow, n, v, h, left, d, d');
        FirstSettles(g, p1, GetFirst(g, p2, follow, d).cs, n, v, h, left, d, d');
      }
    case Choice(p1, p2) =>
      hide Prepared;
      FirstSettles(g, p1, follow, n, v, h, left, d, d');
      NbAccumulates(g, p2, left, VerifyRule(g, p1, left, false, v, true).nb, v);
      FirstSettles(g, p2, follow, n, v, h, left, d, d');
    case Call(k) =>
      CalleePrepared(g, k, n, v, h);
      hide Prepared;
      FirstSettles(g, g[k], follow, n, v, h, left - 1, d - 1, d' - 1);
    case Grammar(rs) =>
      if rs != [] {
        RulePrepared(g, t, 0, n, v, h);
        Entered(rs, rs[0], n, v, Height(t) - 1);
        hide Prepared;
        FirstSettles(rs, rs[0], follow, n, v, Height(t) - 1, MAXRULES + 1, d, d');
      }
    case _ =>
  }

  lemma SameNullable(g: Rules, t: Tree, d: nat, d': nat)
    requires SameSimple(g, t, d, d')
    ensures Nullable(g, t, d) == Nullable(g, t, d')
  {
  }

  // ----- everything settles -----

  ghost predicate SameHere(g: Rules, t: Tree, d: nat, d': nat) {
    && SameSimple(g, t, d, d')
    && forall follow: Charset :: GetFirst(g, t, follow, d) == GetFirst(g, t, follow, d')
  }

  /** At two depths all analyses agree on t and all patterns inside it. */
  ghost predicate Alike(g: Rules, t: Tree, d: nat, d': nat)
    decreases t
  {
    SameHere(g, t, d, d') &&
    match t
    case Rep(p) => Alike(g, p, d, d')
    case Not(p) => Alike(g, p, d, d')
    case And(p) => Alike(g, p, d, d')
    case Behind(_, p) => Alike(g, p, d, d')
    case Seq(p1, p2) => Alike(g, p1, d, d') && Alike(g, p2, d, d')
    case Choice(p1, p2) => Alike(g, p1, d, d') && Alike(g, p2, d, d')
    case Grammar(rs) => forall k :: 0 <= k < |rs| ==> Alike(rs, rs[k], d, d')
    case _ => true
  }

  lemma AllSame(g: Rules, t: Tree, n: nat, v: nat, h: nat, d: nat, d': nat)
    requires Prepared(g, t, n, v, h) && Deep(n, v, h, MAXRULES + 1) <= d && Deep(n, v, h, MAXRULES + 1) <= d'
    ensures SameHere(g, t, d, d')
  {
    assert SameSimple(g, t, d, d') by { assert SimpleFrom(g, t, n); }
    Entered(g, t, n, v, h);
    hide Prepared, SameSimple;
    forall follow: Charset ensures GetFirst(g, t, follow, d) == GetFirst(g, t, follow, d') {
      FirstSettles(g, t, follow, n, v, h, MAXRULES + 1, d, d');
    }
  }

  lemma {:induction false} AllAlike(g: Rules, t: Tree, n: nat, v: nat, h: nat, d: nat, d': nat)
    requires Prepared(g, t, n, v, h) && Deep(n, v, h, MAXRULES + 1) <= d && Deep(n, v, h, MAXRULES + 1) <= d'
    ensures Alike(g, t, d, d')
    decreases t
  {
    AllSame(g, t, n, v, h, d, d');
    PartsPrepared(g, t, n, v, h);
    hide Prepared, SameHere;
    match t
    case Rep(p) => AllAlike(g, p, n, v, h, d, d');
    case Not(p) => AllAlike(g, p, n, v, h, d, d');
    case And(p) => AllAlike(g, p, n, v, h, d, d');
    case Behind(_, p) => AllAlike(g, p, n, v, h, d, d');
    case Seq(p1, p2) => AllAlike(g, p1, n, v, h, d, d'); AllAlike(g, p2, n, v, h, d, d');
    case Choice(p1, p2) => AllAlike(g, p1, n, v, h, d, d'); AllAlike(g, p2, n, v, h, d, d');
    case Grammar(rs) =>
      forall k | 0 <= k < |rs| ensures Alike(rs, rs[k], d, d') {
        RulePrepared(g, t, k, n, v, h);
        AllAlike(rs, rs[k], n, v, Height(t) - 1, d, d');
      }
    case _ =>
  }

  ghost predicate AlikeFrom(t: Tree, n: nat) {
    forall d: nat, d': nat :: n <= d && n <= d' ==> Alike([], t, d, d')
  }

  /** On a strictly accepted pattern all analyses, of it and of everything inside it, are the same
      from some depth on. */
  lemma AnalysesSettle(t: Tree, v: nat)
    requires Accepted(t, v, true)
    ensures exists n: nat :: AlikeFrom(t, n)
  {
    var n := FirmFrom([], t);
    CheckedTopClosed(t, v);
    var h := Height(t);
    var m := Deep(n, v, h, MAXRULES + 1);
    forall d: nat, d': nat | m <= d && m <= d' ensures Alike([], t, d, d') { AllAlike([], t, n, v, h, d, d'); }
    assert AlikeFrom(t, m);
  }

  // ----- and so does the code -----

  lemma {:induction false} GenAlike(g: Rules, t: Tree, opt: bool, tt: Test, fl: Charset, d: nat, d': nat)
    requires Alike(g, t, d, d')
    ensures Gen(d, g, t, opt, tt, fl) == Gen(d', g, t, opt, tt, fl)
    decreases t, 1, 0
  {
    match t
    case Behind(_, p) => GenAlike(g, p, false, NoTest, FULLSET, d, d');
    case Seq(p1, p2) =>
      GenAlike(g, p1, false, tt, SeqFollow(d, g, p1, p2, fl), d, d');
      GenAlike(g, p2, opt, SeqTest(d, g, p1, tt), fl, d, d');
    case Choice(p1, p2) => ChoiceAlike(g, t, opt, fl, d, d');
    case Rep(p) => RepAlike(g, t, opt, fl, d, d');
    case Not(p) => GenAlike(g, p, false, NoTest, FULLSET, d, d');
    case And(p) => GenAlike(g, p, false, tt, FULLSET, d, d');
    case Grammar(rs) =>
      forall k | 0 <= k <= |rs| ensures GenRules(d, t, k) == GenRules(d', t, k) { RulesAlike(t, k, d, d'); }
      assert RulePositions(d, t) == RulePositions(d', t);
    case _ =>
  }

  lemma ChoiceAlike(g: Rules, t: Tree, opt: bool, fl: Charset, d: nat, d': nat)
    requires t.Choice? && Alike(g, t, d, d')
    ensures CodeChoice(d, g, t, opt, fl) == CodeChoice(d', g, t, opt, fl)
    decreases t, 0, 0
  {
    var (p1, p2) := (t.p1, t.p2);
    var f1 := GetFirst(g, p1, FULLSET, d);
    assert SameHere(g, p1, d, d') && SameHere(g, p2, d, d');
    assert f1 == GetFirst(g, p1, FULLSET, d') && GetFirst(g, p2, fl, d) == GetFirst(g, p2, fl, d');
    hide Gen, SameHere;
    GenAlike(g, p1, false, TestFor(f1.cs, false), fl, d, d');
    GenAlike(g, p1, true, NoTest, FULLSET, d, d');
    GenAlike(g, p1, p2.True?, TestFor(f1.cs, f1.empty), FULLSET, d, d');
    GenAlike(g, p2, opt, NoTest, fl, d, d');
  }

  lemma RepAlike(g: Rules, t: Tree, opt: bool, fl: Charset, d: nat, d': nat)
    requires t.Rep? && Alike(g, t, d, d')
    ensures CodeRep(d, g, t, opt, fl) == CodeRep(d', g, t, opt, fl)
    decreases t, 0, 0
  {
    var p := t.body;
    var f := GetFirst(g, p, FULLSET, d);
    assert SameHere(g, p, d, d');
    hide Gen, SameHere;
    GenAlike(g, p, false, TestFor(f.cs, false), FULLSET, d, d');
    GenAlike(g, p, false, NoTest, FULLSET, d, d');
  }

  lemma {:induction false} RulesAlike(t: Tree, k: nat, d: nat, d': nat)
    requires t.Grammar? && k <= |t.rules| && forall j :: 0 <= j < |t.rules| ==> Alike(t.rules, t.rules[j], d, d')
    ensures GenRules(d, t, k) == GenRules(d', t, k)
    decreases t, 0, |t.rules| - k
  {
    hide Gen, Alike;
    if k < |t.rules| {
      GenAlike(t.rules, t.rules[k], false, NoTest, FULLSET, d, d');
      RulesAlike(t, k + 1, d, d');
    }
  }

  /** The code generated at depth n is the code generated at every larger depth. */
  ghost predicate SameCodeFrom(t: Tree, n: nat) {
    forall d: nat :: n <= d ==> Gen(d, [], t, false, NoTest, FULLSET) == Gen(n, [], t, false, NoTest, FULLSET)
  }

  /** There is one code for a strictly accepted pattern. */
  lemma CodeSettles(t: Tree, v: nat)
    requires Accepted(t, v, true)
    ensures exists n: nat :: SameCodeFrom(t, n)
  {
    hide Gen, Alike;
    AnalysesSettle(t, v);
    var n: nat :| AlikeFrom(t, n);
    forall d: nat | n <= d
      ensures Gen(d, [], t, false, NoTest, FULLSET) == Gen(n, [], t, false, NoTest, FULLSET)
    {
      GenAlike([], t, false, NoTest, FULLSET, d, n);
    }
    assert SameCodeFrom(t, n);
  }
}

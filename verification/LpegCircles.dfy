/** Rules that are nothing but calls of each other: the only way in which the jumps of the code
    of a grammar go in a circle. */
module LpegCircles {
  import opened LpegSyntax
  import opened LpegAnalysis
  import opened LpegMachine
  import opened LpegCodegen
  import opened LpegGrammar
  import opened LpegLayout
  import opened LpegPeephole
  import opened LpegTails

  /** Where n tail calls lead, one at the entry of each rule, beginning with a tail call of k. */
  function TailsTo(d: nat, rs: Rules, k: nat, n: nat): Beginning
    decreases n
  {
    if n == 0 then TailCall(k)
    else if k >= |rs| then Stops
    else match Enters(d, rs, rs[k])
      case TailCall(j) => TailsTo(d, rs, j, n - 1)
      case e => e
  }

  /** Some rule begins with tail calls that lead back to it. */
  ghost predicate Circular(d: nat, rs: Rules) {
    exists k: nat, n: nat :: k < |rs| && 0 < n && TailsTo(d, rs, k, n) == TailCall(k)
  }

  // ----- a circle is found by following more tail calls than there are rules -----

  lemma {:induction false} TailsTwice(d: nat, rs: Rules, k: nat, n: nat, m: nat)
    ensures TailsTo(d, rs, k, n + m) ==
              if TailsTo(d, rs, k, n).TailCall? then TailsTo(d, rs, TailsTo(d, rs, k, n).k, m) else TailsTo(d, rs, k, n)
    decreases n
  {
    if n > 0 && k < |rs| && Enters(d, rs, rs[k]).TailCall? {
      TailsTwice(d, rs, Enters(d, rs, rs[k]).k, n - 1, m);
    }
  }

  /** The rules on the way. */
  ghost function Passed(d: nat, rs: Rules, k: nat, n: nat): set<nat> {
    if n == 0 then {} else Passed(d, rs, k, n - 1) + RulesOf(TailsTo(d, rs, k, n - 1))
  }

  function RulesOf(e: Beginning): set<nat> {
    if e.TailCall? then {e.k} else {}
  }

  ghost predicate ComesBy(d: nat, rs: Rules, k: nat, m: nat, j: nat) {
    TailsTo(d, rs, k, m) == TailCall(j)
  }

  lemma {:induction false} PassedIs(d: nat, rs: Rules, k: nat, n: nat, j: nat)
    ensures j in Passed(d, rs, k, n) <==> exists m: nat :: m < n && ComesBy(d, rs, k, m, j)
    decreases n
  {
    if n > 0 {
      PassedIs(d, rs, k, n - 1, j);
      assert j in RulesOf(TailsTo(d, rs, k, n - 1)) <==> ComesBy(d, rs, k, n - 1, j);
    }
  }

  /** Without a circle, a way of n tail calls passes n rules. */
  lemma {:induction false} PassedAll(d: nat, rs: Rules, k: nat, n: nat)
    requires !Circular(d, rs) && TailsTo(d, rs, k, n).TailCall?
    ensures |Passed(d, rs, k, n)| == n && forall j <- Passed(d, rs, k, n) :: j < |rs|
    decreases n
  {
    if n > 0 {
      TailsTwice(d, rs, k, n - 1, 1);
      PassedAll(d, rs, k, n - 1);
      assert TailsTo(d, rs, k, n - 1).k < |rs|;
      NoReturn(d, rs, k, n - 1);
    }
  }

  lemma NoReturn(d: nat, rs: Rules, k: nat, n: nat)
    requires !Circular(d, rs) && TailsTo(d, rs, k, n).TailCall? && TailsTo(d, rs, k, n).k < |rs|
    ensures TailsTo(d, rs, k, n).k !in Passed(d, rs, k, n)
  {
    hide Enters, Passed;
    var j := TailsTo(d, rs, k, n).k;
    if j in Passed(d, rs, k, n) {
      PassedIs(d, rs, k, n, j);
      var m: nat :| m < n && ComesBy(d, rs, k, m, j);
      TailsTwice(d, rs, k, m, n - m);
    }
  }

  lemma {:induction false} Few(s: set<nat>, n: nat)
    requires forall j <- s :: j < n
    ensures |s| <= n
  {
    if n > 0 {
      Few(s - {n - 1}, n - 1);
    } else {
      assert s == {};
    }
  }

  /** On a circle the way goes on for ever. */
  lemma {:induction false} RoundAndRound(d: nat, rs: Rules, k: nat, n: nat, m: nat)
    requires n > 0 && TailsTo(d, rs, k, n) == TailCall(k)
    ensures TailsTo(d, rs, k, m).TailCall?
    decreases m
  {
    if m < n {
      TailsTwice(d, rs, k, m, n - m);
    } else {
      RoundAndRound(d, rs, k, n, m - n);
      TailsTwice(d, rs, k, n, m - n);
    }
  }

  /** More tail calls than there are rules. */
  predicate GoesOn(d: nat, rs: Rules, k: nat) {
    TailsTo(d, rs, k, |rs| + 1).TailCall?
  }

  /** So a circle shows when more tail calls are followed than there are rules. */
  lemma CircleFound(d: nat, rs: Rules)
    ensures Circular(d, rs) <==> exists k: nat :: k < |rs| && GoesOn(d, rs, k)
  {
    if Circular(d, rs) {
      var k: nat, n: nat :| k < |rs| && 0 < n && TailsTo(d, rs, k, n) == TailCall(k);
      RoundAndRound(d, rs, k, n, |rs| + 1);
      assert GoesOn(d, rs, k);
    } else if k: nat :| k < |rs| && GoesOn(d, rs, k) {
      PassedAll(d, rs, k, |rs| + 1);
      Few(Passed(d, rs, k, |rs| + 1), |rs|);
      assert false;
    }
  }

  // ----- what the entry of a rule leads to -----

  lemma {:induction false} EntersCalls(d: nat, g: Rules, t: Tree)
    ensures Enters(d, g, t).TailCall? ==> Calls(t, Enters(d, g, t).k)
  {
    match t
    case Behind(n, p) => EntersCalls(d, g, p);
    case And(p) => EntersCalls(d, g, p);
    case Choice(p1, p2) => EntersCalls(d, g, p2);
    case Seq(p1, p2) => EntersCalls(d, g, p1); EntersCalls(d, g, p2);
    case _ =>
  }

  ghost predicate RawCall(raw: Code, p: int, y: int, k: nat) {
    && Leads(raw, p, y) && 0 <= y < |raw| && IsOpenCall(raw[y]) && raw[y].key == k && LeadsToRet(raw, y + 2)
  }

  ghost predicate RawStop(raw: Code, p: int, y: int) {
    && Leads(raw, p, y) && 0 <= y < |raw| && raw[y].Inst? && raw[y].op != IJmp
    && (IsOpenCall(raw[y]) ==> !LeadsToRet(raw, y + 2))
  }

  /** The code of a rule with the return after it, in the uncorrected body. */
  lemma EntryInRaw(raw: Code, p: nat, rule: Code, e: Beginning)
    requires Holds(raw, p, rule) && IsRet(raw, p + |rule|) && Begins(rule, e)
    ensures if e.TailCall? then exists y :: RawCall(raw, p, y, e.k) else exists y :: RawStop(raw, p, y)
  {
    var r := p + |rule|;
    match e
    case Through =>
      LeadsIn(raw, p, rule, 0, |rule|);
      assert RawStop(raw, p, r);
    case TailCall(k) =>
      var y :| CallsLast(rule, y, k);
      LeadsIn(raw, p, rule, 0, y);
      LeadsIn(raw, p, rule, y + 2, |rule|);
      assert p + (y + 2) == p + y + 2;
      RetOnly(raw, p + y + 2, r);
      assert RawCall(raw, p, p + y, k);
    case Stops =>
      var y :| StopsAt(rule, y);
      LeadsIn(raw, p, rule, 0, y);
      if IsOpenCall(rule[y]) {
        var z :| Leads(rule, y + 2, z) && Halts(rule, z);
        LeadsIn(raw, p, rule, y + 2, z);
        assert p + (y + 2) == p + y + 2;
        RetOnly(raw, p + y + 2, p + z);
      }
      assert RawStop(raw, p, p + y);
  }

  lemma RuleInRaw(d: nat, gr: Tree, k: nat)
    requires gr.Grammar? && k < |gr.rules|
    ensures var (raw, p, rule) := (GenRules(d, gr, 0), RulePositions(d, gr)[k], RuleCode(d, gr.rules, k));
      0 <= p && Holds(raw, p, rule) && IsRet(raw, p + |rule|)
  {
    RulesSuffix(d, gr, k);
    NextRule(d, gr, k);
    hide GenRules, RuleCode;
    var (raw, p, rule) := (GenRules(d, gr, 0), RulePositions(d, gr)[k], RuleCode(d, gr.rules, k));
    var rest := GenRules(d, gr, k);
    assert rest == rule + Plain(IRet, 0) + GenRules(d, gr, k + 1);
    assert raw[p..] == rest && forall q :: 0 <= q < |rest| ==> raw[p + q] == rest[q];
  }

  ghost function Body(d: nat, gr: Tree): Code
    requires gr.Grammar?
  {
    Correct(GenRules(d, gr, 0), RulePositions(d, gr), 0)
  }

  ghost predicate JumpsTo(body: Code, p: int, y: int, there: int) {
    Leads(body, p, y) && IsJmp(body, y) && Target(body, y) == there
  }

  /** From the entry of a rule the jumps go on to the next rule, or come to an end. */
  lemma EntryStep(d: nat, gr: Tree, k: nat)
    requires gr.Grammar? && WellMade(d, [], gr) && k < |gr.rules|
    ensures var (body, inner, e) := (Body(d, gr), RulePositions(d, gr), Enters(d, gr.rules, gr.rules[k]));
      if e.TailCall? then e.k < |gr.rules| && exists y :: JumpsTo(body, inner[k], y, inner[e.k])
      else JumpsEnd(body, inner[k])
  {
    var rs := gr.rules;
    var e := Enters(d, rs, rs[k]);
    hide GenRules, Enters, Neat, Ready, Begins, Correctable, Correct, RulePositions, RuleCode, Holds;
    ManyPositions(d, gr);
    RuleEnters(d, gr, k);
    RulesReady(d, gr, 0);
    RulesCorrectable(d, gr);
    RuleInRaw(d, gr, k);
    EntryInRaw(GenRules(d, gr, 0), RulePositions(d, gr)[k], RuleCode(d, rs, k), e);
    EntryInBody(GenRules(d, gr, 0), RulePositions(d, gr), RulePositions(d, gr)[k], e);
  }

  lemma RuleEnters(d: nat, gr: Tree, k: nat)
    requires gr.Grammar? && WellMade(d, [], gr) && k < |gr.rules|
    ensures var e := Enters(d, gr.rules, gr.rules[k]);
      Begins(RuleCode(d, gr.rules, k), e) && (e.TailCall? ==> e.k < |gr.rules|)
  {
    var rs := gr.rules;
    hide Begins, Gen, Enters, RuleCode, Neat;
    RuleNeat(d, gr, k);
    EntersCalls(d, rs, rs[k]);
    if Enters(d, rs, rs[k]).TailCall? { WellMadeCalls(d, rs, rs[k], Enters(d, rs, rs[k]).k); }
  }

  lemma EntryInBody(raw: Code, inner: seq<int>, p: int, e: Beginning)
    requires Ready(raw) && Correctable(raw, inner, 0) && (e.TailCall? ==> e.k < |inner|)
    requires if e.TailCall? then exists y :: RawCall(raw, p, y, e.k) else exists y :: RawStop(raw, p, y)
    ensures var body := Correct(raw, inner, 0);
      if e.TailCall? then exists y :: JumpsTo(body, p, y, inner[e.k]) else JumpsEnd(body, p)
  {
    hide Ready, Correctable, Correct;
    var body := Correct(raw, inner, 0);
    CorrectTells(raw, raw, inner, 0);
    CorrectSettles(raw, inner, 0);
    if e.TailCall? {
      var y :| RawCall(raw, p, y, e.k);
      LeadsKept(raw, body, p, y);
      assert Told(raw, body, inner, y);
      assert JumpsTo(body, p, y, inner[e.k]);
    } else {
      var y :| RawStop(raw, p, y);
      LeadsKept(raw, body, p, y);
      assert IsOpenCall(raw[y]) ==> Told(raw, body, inner, y);
      assert !IsOpenCall(raw[y]) ==> !Pending(raw[y]);
      var n: nat :| Hops(body, p, n) == y;
    }
  }

  // ----- both directions -----

  lemma EndsFurther(c: Code, x: int, y: int)
    requires Leads(c, x, y) && JumpsEnd(c, y)
    ensures JumpsEnd(c, x)
  {
    var n: nat :| Hops(c, x, n) == y;
    var m: nat :| !IsJmp(c, Hops(c, y, m));
    HopsTwice(c, x, n, m);
  }

  /** Where tail calls come to an end, the jumps do. */
  lemma {:induction false} EntryEnds(d: nat, gr: Tree, k: nat, n: nat)
    requires gr.Grammar? && WellMade(d, [], gr) && k < |gr.rules| && !TailsTo(d, gr.rules, k, n).TailCall?
    ensures JumpsEnd(Body(d, gr), RulePositions(d, gr)[k])
    decreases n
  {
    ManyPositions(d, gr);
    hide Body, JumpsEnd, Enters, WellMade, RulePositions;
    EntryStep(d, gr, k);
    var e := Enters(d, gr.rules, gr.rules[k]);
    if e.TailCall? {
      EntryEnds(d, gr, e.k, n - 1);
      var (body, p, there) := (Body(d, gr), RulePositions(d, gr)[k], RulePositions(d, gr)[e.k]);
      var y :| JumpsTo(body, p, y, there);
      LeadsOnce(body, y);
      LeadsTwice(body, p, y, there);
      EndsFurther(body, p, there);
    }
  }

  /** Where they go on for ever, so do the jumps. */
  lemma {:induction false} EntryGoesOn(d: nat, gr: Tree, k: nat, n: nat)
    requires gr.Grammar? && WellMade(d, [], gr) && k < |gr.rules|
    requires forall m: nat :: TailsTo(d, gr.rules, k, m).TailCall?
    ensures IsJmp(Body(d, gr), Hops(Body(d, gr), RulePositions(d, gr)[k], n))
    decreases n
  {
    ManyPositions(d, gr);
    hide Body, Enters, WellMade, RulePositions, IsJmp, Hops;
    EntryStep(d, gr, k);
    assert TailsTo(d, gr.rules, k, 1).TailCall?;
    var e := Enters(d, gr.rules, gr.rules[k]);
    var (body, p, there) := (Body(d, gr), RulePositions(d, gr)[k], RulePositions(d, gr)[e.k]);
    var y :| JumpsTo(body, p, y, there);
    var m: nat :| Hops(body, p, m) == y;
    if n <= m {
      StillJumps(body, p, n, m);
    } else {
      forall i: nat ensures TailsTo(d, gr.rules, e.k, i).TailCall? { assert TailsTo(d, gr.rules, k, i + 1).TailCall?; }
      EntryGoesOn(d, gr, e.k, n - m - 1);
      HopsTwice(body, p, m, n - m);
      HopsFirst(body, y, n - m);
    }
  }

  lemma HopsFirst(c: Code, x: int, n: nat)
    requires IsJmp(c, x) && n > 0
    ensures Hops(c, x, n) == Hops(c, Target(c, x), n - 1)
  {
  }

  lemma StillJumps(c: Code, x: int, n: nat, m: nat)
    requires n <= m && IsJmp(c, Hops(c, x, m))
    ensures IsJmp(c, Hops(c, x, n))
  {
    HopsTwice(c, x, n, m - n);
  }

  /** The jumps from the entries of the rules come to an end exactly when no rule begins with
      tail calls that lead back to it. */
  lemma EntriesEnd(d: nat, gr: Tree)
    requires gr.Grammar? && WellMade(d, [], gr)
    ensures (forall k :: 0 <= k < |gr.rules| ==> JumpsEnd(Body(d, gr), RulePositions(d, gr)[k])) <==> !Circular(d, gr.rules)
  {
    var rs := gr.rules;
    hide Body, WellMade, RulePositions, Enters, Hops;
    assert |RulePositions(d, gr)| == |rs| by { ManyPositions(d, gr); }
    if Circular(d, rs) {
      var k: nat, n: nat :| k < |rs| && 0 < n && TailsTo(d, rs, k, n) == TailCall(k);
      forall m: nat ensures TailsTo(d, rs, k, m).TailCall? { RoundAndRound(d, rs, k, n, m); }
      forall m: nat ensures IsJmp(Body(d, gr), Hops(Body(d, gr), RulePositions(d, gr)[k], m)) { EntryGoesOn(d, gr, k, m); }
      assert !JumpsEnd(Body(d, gr), RulePositions(d, gr)[k]);
    } else {
      CircleFound(d, rs);
      forall k | 0 <= k < |rs| ensures JumpsEnd(Body(d, gr), RulePositions(d, gr)[k]) {
        assert !GoesOn(d, rs, k);
        EntryEnds(d, gr, k, |rs| + 1);
      }
    }
  }

  lemma ManyPositions(d: nat, gr: Tree)
    requires gr.Grammar?
    ensures |RulePositions(d, gr)| == |gr.rules|
  {
  }

  /** No grammar whose code is part of that of t is circular. */
  ghost predicate Untangled(d: nat, g: Rules, t: Tree)
    decreases t
  {
    match t
    case Rep(p) => Untangled(d, g, p)
    case Not(p) => HeadFail(g, p, d) || Untangled(d, g, p)
    case And(p) => Untangled(d, g, p)
    case Behind(_, p) => Untangled(d, g, p)
    case Seq(p1, p2) => Untangled(d, g, p1) && Untangled(d, g, p2)
    case Choice(p1, p2) => Untangled(d, g, p1) && Untangled(d, g, p2)
    case Grammar(rs) => !Circular(d, rs) && forall k :: 0 <= k < |rs| ==> Untangled(d, rs, rs[k])
    case _ => true
  }
}

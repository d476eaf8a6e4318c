/** The static analyses of skynet/3rd/lpeg/lpcode.c and their soundness against the
    meaning of patterns. Each analysis follows calls into the called rule; the parameter
    d bounds how many calls deep it follows, and past that bound it answers
    conservatively. The soundness lemmas hold for every d. */
module LpegAnalysis {
  import opened LpegSyntax

  datatype Pred = PEnullable | PEnofail

  /** checkaux */
  function CheckAux(g: Rules, t: Tree, pred: Pred, d: nat): bool
    decreases d, t
  {
    match t
    case Char(_) => false
    case Set(_) => false
    case Any => false
    case False => false
    case Rep(_) => true
    case True => true
    case Not(_) => pred == PEnullable
    case Behind(_, _) => pred == PEnullable
    case And(p) => if pred == PEnullable then true else CheckAux(g, p, pred, d)
    case Seq(p1, p2) => if !CheckAux(g, p1, pred, d) then false else CheckAux(g, p2, pred, d)
    case Choice(p1, p2) => if CheckAux(g, p2, pred, d) then true else CheckAux(g, p1, pred, d)
    case Grammar(rs) => if rs == [] then pred == PEnullable else CheckAux(rs, rs[0], pred, d)
    case Call(k) => if d == 0 || k >= |g| then pred == PEnullable else CheckAux(g, g[k], pred, d - 1)
  }

  predicate Nullable(g: Rules, t: Tree, d: nat) { CheckAux(g, t, PEnullable, d) }

  predicate Nofail(g: Rules, t: Tree, d: nat) { CheckAux(g, t, PEnofail, d) }

  /** fixedlen; -1 when the length varies */
  function FixedLen(g: Rules, t: Tree, d: nat): (n: int)
    ensures n >= -1
    decreases d, t
  {
    match t
    case Char(_) => 1
    case Set(_) => 1
    case Any => 1
    case False => 0
    case True => 0
    case Not(_) => 0
    case And(_) => 0
    case Behind(_, _) => 0
    case Rep(_) => -1
    case Grammar(rs) => if rs == [] then -1 else FixedLen(rs, rs[0], d)
    case Call(k) => if d == 0 || k >= |g| then -1 else FixedLen(g, g[k], d - 1)
    case Seq(p1, p2) =>
      var n1 := FixedLen(g, p1, d);
      if n1 < 0 then -1 else
        var n2 := FixedLen(g, p2, d);
        if n2 < 0 then -1 else n1 + n2
    case Choice(p1, p2) =>
      var n1 := FixedLen(g, p1, d);
      var n2 := FixedLen(g, p2, d);
      if n1 != n2 || n1 < 0 then -1 else n1
  }

  /** What getfirst computes: a set of characters, and whether the empty input is accepted. */
  datatype First = First(cs: Charset, empty: bool)

  /** getfirst */
  function GetFirst(g: Rules, t: Tree, follow: Charset, d: nat): First
    decreases d, t
  {
    match t
    case Char(c) => First({c}, false)
    case Set(cs) => First(cs, false)
    case Any => First(FULLSET, false)
    case True => First(follow, true)
    case False => First({}, false)
    case Choice(p1, p2) =>
      var f1 := GetFirst(g, p1, follow, d);
      var f2 := GetFirst(g, p2, follow, d);
      First(f1.cs + f2.cs, f1.empty || f2.empty)
    case Seq(p1, p2) =>
      if !Nullable(g, p1, d) then GetFirst(g, p1, FULLSET, d)
      else
        var f2 := GetFirst(g, p2, follow, d);
        var f1 := GetFirst(g, p1, f2.cs, d);
        if !f1.empty then First(f1.cs, false) else First(f1.cs, f2.empty)
    case Rep(p) => First(GetFirst(g, p, follow, d).cs + follow, true)
    case Grammar(rs) => if rs == [] then First(FULLSET, true) else GetFirst(rs, rs[0], follow, d)
    case Call(k) =>
      if d == 0 || k >= |g| then First(FULLSET, true) else GetFirst(g, g[k], follow, d - 1)
    case And(p) =>
      var f := GetFirst(g, p, follow, d);
      First(f.cs * follow, f.empty)
    case Not(p) =>
      if IsCharPattern(p) then First(FULLSET - CharsOf(p), true) else First(follow, true)
    case Behind(_, _) => First(follow, true)
  }

  /** headfail */
  function HeadFail(g: Rules, t: Tree, d: nat): bool
    decreases d, t
  {
    match t
    case Char(_) => true
    case Set(_) => true
    case Any => true
    case False => true
    case True => false
    case Rep(_) => false
    case Not(_) => false
    case Behind(_, _) => false
    case Grammar(rs) => rs != [] && HeadFail(rs, rs[0], d)
    case And(p) => HeadFail(g, p, d)
    case Call(k) => d != 0 && k < |g| && HeadFail(g, g[k], d - 1)
    case Seq(p1, p2) => if !Nofail(g, p2, d) then false else HeadFail(g, p1, d)
    case Choice(p1, p2) => if !HeadFail(g, p1, d) then false else HeadFail(g, p2, d)
  }

  /** needfollow */
  function NeedFollow(t: Tree): bool {
    match t
    case Choice(_, _) => true
    case Rep(_) => true
    case Seq(_, p2) => NeedFollow(p2)
    case _ => false
  }

  // ----- soundness -----

  /** A pattern that is not nullable never matches without consuming a character. */
  lemma {:induction false} NullableSound(g: Rules, t: Tree, d: nat, s: Subject, i: nat, f: nat)
    requires i <= |s| && !Nullable(g, t, d)
    ensures var r := Eval(g, t, s, i, f); r.Ok? ==> r.pos > i
    decreases f, t
  {
    match t
    case Seq(p1, p2) =>
      var r := Eval(g, p1, s, i, f);
      if !Nullable(g, p1, d) { NullableSound(g, p1, d, s, i, f); }
      else if r.Ok? { NullableSound(g, p2, d, s, r.pos, f); }
    case Choice(p1, p2) =>
      NullableSound(g, p1, d, s, i, f);
      NullableSound(g, p2, d, s, i, f);
    case Call(k) => if f > 0 { NullableSound(g, g[k], d - 1, s, i, f - 1); }
    case Grammar(rs) => NullableSound(rs, rs[0], d, s, i, f);
    case _ =>
  }

  /** A pattern that is nofail never fails. */
  lemma {:induction false} NofailSound(g: Rules, t: Tree, d: nat, s: Subject, i: nat, f: nat)
    requires i <= |s| && Nofail(g, t, d)
    ensures Eval(g, t, s, i, f) != Fail
    decreases f, t
  {
    match t
    case Rep(p) =>
      var r := Eval(g, p, s, i, f);
      if r.Ok? && f > 0 { NofailSound(g, t, d, s, r.pos, f - 1); }
    case And(p) => NofailSound(g, p, d, s, i, f);
    case Seq(p1, p2) =>
      NofailSound(g, p1, d, s, i, f);
      var r := Eval(g, p1, s, i, f);
      if r.Ok? { NofailSound(g, p2, d, s, r.pos, f); }
    case Choice(p1, p2) =>
      if Nofail(g, p2, d) { NofailSound(g, p2, d, s, i, f); } else { NofailSound(g, p1, d, s, i, f); }
    case Call(k) => if f > 0 { NofailSound(g, g[k], d - 1, s, i, f - 1); }
    case Grammar(rs) => NofailSound(rs, rs[0], d, s, i, f);
    case _ =>
  }

  /** Without look-behinds and negative predicates, at any depth of calls. */
  predicate Positive(t: Tree) {
    match t
    case Not(_) => false
    case Behind(_, _) => false
    case Rep(p) => Positive(p)
    case And(p) => Positive(p)
    case Seq(p1, p2) => Positive(p1) && Positive(p2)
    case Choice(p1, p2) => Positive(p1) && Positive(p2)
    case Grammar(rs) => forall k :: 0 <= k < |rs| ==> Positive(rs[k])
    case _ => true
  }

  /** Such a pattern is nofail exactly when it matches the empty subject. */
  lemma {:induction false} NofailExactly(g: Rules, t: Tree, f: nat)
    requires Positive(Grammar(g)) && Positive(t) && Eval(g, t, [], 0, f) != NoFuel
    ensures Nofail(g, t, f) <==> Eval(g, t, [], 0, f) == Ok(0)
    decreases f, t
  {
    match t
    case Rep(_) => NofailSound(g, t, f, [], 0, f);
    case And(p) => NofailExactly(g, p, f);
    case Seq(p1, p2) =>
      NofailExactly(g, p1, f);
      if Eval(g, p1, [], 0, f).Ok? { NofailExactly(g, p2, f); }
    case Choice(p1, p2) =>
      NofailExactly(g, p1, f);
      if Eval(g, p1, [], 0, f) == Fail { NofailExactly(g, p2, f); }
    case Call(k) => NofailExactly(g, g[k], f - 1);
    case Grammar(rs) => NofailExactly(rs, rs[0], f);
    case _ =>
  }

  /** A pattern of fixed length n consumes exactly n characters whenever it matches. */
  lemma {:induction false} FixedLenSound(g: Rules, t: Tree, d: nat, s: Subject, i: nat, f: nat)
    requires i <= |s| && FixedLen(g, t, d) >= 0
    ensures var r := Eval(g, t, s, i, f); r.Ok? ==> r.pos == i + FixedLen(g, t, d)
    decreases f, t
  {
    match t
    case Seq(p1, p2) =>
      FixedLenSound(g, p1, d, s, i, f);
      var r := Eval(g, p1, s, i, f);
      if r.Ok? { FixedLenSound(g, p2, d, s, r.pos, f); }
    case Choice(p1, p2) =>
      FixedLenSound(g, p1, d, s, i, f);
      FixedLenSound(g, p2, d, s, i, f);
    case Call(k) => if f > 0 { FixedLenSound(g, g[k], d - 1, s, i, f - 1); }
    case Grammar(rs) => FixedLenSound(rs, rs[0], d, s, i, f);
    case _ =>
  }

  /** The outcome r at position i says nothing against the first set f computed for follow:
      on a character outside f the pattern fails, or matches nothing and hands over to a
      continuation that is bound to fail, since the character is outside follow too; at the
      end of the input a pattern whose first set excludes the empty string fails. */
  ghost predicate FirstExcludes(f: First, follow: Charset, s: Subject, i: nat, r: Outcome)
    requires i <= |s|
  {
    && (i < |s| && s[i] !in f.cs ==> r == Fail || r == NoFuel || (r == Ok(i) && s[i] !in follow))
    && (i == |s| && !f.empty ==> r == Fail || r == NoFuel)
  }

  /** First sets are sound. */
  lemma {:induction false} FirstSound(g: Rules, t: Tree, follow: Charset, d: nat, s: Subject, i: nat, f: nat)
    requires i <= |s|
    ensures FirstExcludes(GetFirst(g, t, follow, d), follow, s, i, Eval(g, t, s, i, f))
    decreases f, t
  {
    match t
    case Rep(p) =>
      FirstSound(g, p, follow, d, s, i, f);
      var r := Eval(g, p, s, i, f);
      if r.Ok? && f > 0 { FirstSound(g, t, follow, d, s, r.pos, f - 1); }
    case Seq(p1, p2) =>
      var r := Eval(g, p1, s, i, f);
      if !Nullable(g, p1, d) {
        FirstSound(g, p1, FULLSET, d, s, i, f);
      } else {
        var f2 := GetFirst(g, p2, follow, d);
        FirstSound(g, p1, f2.cs, d, s, i, f);
        if r.Ok? { FirstSound(g, p2, follow, d, s, r.pos, f); }
      }
    case Choice(p1, p2) =>
      FirstSound(g, p1, follow, d, s, i, f);
      FirstSound(g, p2, follow, d, s, i, f);
    case And(p) => FirstSound(g, p, follow, d, s, i, f);
    case Not(p) => if IsCharPattern(p) { assert Eval(g, p, s, i, f) == EvalChar(p, s, i); }
    case Call(k) => if f > 0 && d > 0 && k < |g| { FirstSound(g, g[k], follow, d - 1, s, i, f - 1); }
    case Grammar(rs) => if rs != [] { FirstSound(rs, rs[0], follow, d, s, i, f); }
    case _ =>
  }

  /** A pattern that cannot fail has the full first set, when anything may follow. */
  lemma {:induction false} NofailFirst(g: Rules, t: Tree, d: nat)
    requires Nofail(g, t, d)
    ensures GetFirst(g, t, FULLSET, d).cs == FULLSET
    decreases d, t
  {
    FirstInFull(g, t, FULLSET, d);
    match t
    case Rep(p) => FirstInFull(g, p, FULLSET, d);
    case And(p) => NofailFirst(g, p, d);
    case Seq(p1, p2) => NofailFirst(g, p1, d); NofailFirst(g, p2, d);
    case Choice(p1, p2) =>
      FirstInFull(g, p1, FULLSET, d);
      FirstInFull(g, p2, FULLSET, d);
      if Nofail(g, p2, d) { NofailFirst(g, p2, d); } else { NofailFirst(g, p1, d); }
    case Call(k) => NofailFirst(g, g[k], d - 1);
    case Grammar(rs) => NofailFirst(rs, rs[0], d);
    case _ =>
  }

  lemma FirstInFull(g: Rules, t: Tree, follow: Charset, d: nat)
    ensures GetFirst(g, t, follow, d).cs <= FULLSET
  {
  }

  /** The first set of a head-fail pattern excludes the end of the input, and on a character of
      the set the pattern does not fail. */
  lemma {:induction false} HeadFailInside(g: Rules, t: Tree, d: nat, s: Subject, i: nat, f: nat)
    requires i <= |s| && HeadFail(g, t, d)
    ensures !GetFirst(g, t, FULLSET, d).empty
    ensures i < |s| && s[i] in GetFirst(g, t, FULLSET, d).cs ==> Eval(g, t, s, i, f) != Fail
    decreases f, t
  {
    HeadFailEmpty(g, t, d);
    match t
    case Seq(p1, p2) =>
      NofailFirst(g, p2, d);
      HeadFailInside(g, p1, d, s, i, f);
      var r := Eval(g, p1, s, i, f);
      if r.Ok? { NofailSound(g, p2, d, s, r.pos, f); }
    case Choice(p1, p2) =>
      HeadFailInside(g, p1, d, s, i, f);
      HeadFailInside(g, p2, d, s, i, f);
    case And(p) => HeadFailInside(g, p, d, s, i, f);
    case Call(k) => if f > 0 { HeadFailInside(g, g[k], d - 1, s, i, f - 1); }
    case Grammar(rs) => HeadFailInside(rs, rs[0], d, s, i, f);
    case _ =>
  }

  /** A head-fail pattern fails exactly where the next character is outside its first set, and at
      the end of the input. */
  lemma HeadFailExact(g: Rules, t: Tree, d: nat, s: Subject, i: nat, f: nat)
    requires i <= |s| && HeadFail(g, t, d) && Eval(g, t, s, i, f) != NoFuel
    ensures Eval(g, t, s, i, f) == Fail <==> i == |s| || s[i] !in GetFirst(g, t, FULLSET, d).cs
  {
    HeadFailEmpty(g, t, d);
    HeadFailInside(g, t, d, s, i, f);
    FirstSound(g, t, FULLSET, d, s, i, f);
    assert i < |s| ==> s[i] in FULLSET;
  }

  lemma {:induction false} HeadFailEmpty(g: Rules, t: Tree, d: nat)
    requires HeadFail(g, t, d)
    ensures !GetFirst(g, t, FULLSET, d).empty
    decreases d, t
  {
    match t
    case Seq(p1, p2) =>
      NofailFirst(g, p2, d);
      HeadFailEmpty(g, p1, d);
    case Choice(p1, p2) =>
      HeadFailEmpty(g, p1, d);
      HeadFailEmpty(g, p2, d);
    case And(p) => HeadFailEmpty(g, p, d);
    case Call(k) => HeadFailEmpty(g, g[k], d - 1);
    case Grammar(rs) => HeadFailEmpty(rs, rs[0], d);
    case _ =>
  }
}

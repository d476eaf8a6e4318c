/** How much the analyses of skynet/3rd/lpeg/lpcode.c find: fixedlen the number of characters that
    every way through a pattern consumes, and getfirst and headfail exactly what decides a pattern
    whose alternatives are told apart by the next character. */
module LpegLengths {
  import opened LpegSyntax
  import opened LpegAnalysis
  import opened LpegLayout

  /** Within m calls, every way through t consumes n characters. */
  predicate EveryWay(g: Rules, t: Tree, n: nat, m: nat)
    decreases m, t
  {
    match t
    case Char(_) => n == 1
    case Set(_) => n == 1
    case Any => n == 1
    case Rep(_) => false
    case Seq(p1, p2) => exists k: nat :: k <= n && EveryWay(g, p1, k, m) && EveryWay(g, p2, n - k, m)
    case Choice(p1, p2) => EveryWay(g, p1, n, m) && EveryWay(g, p2, n, m)
    case Call(k) => m > 0 && k < |g| && EveryWay(g, g[k], n, m - 1)
    case Grammar(rs) => rs != [] && EveryWay(rs, rs[0], n, m)
    case _ => n == 0
  }

  /** A pattern has the fixed length n exactly when all its ways have. */
  lemma {:induction false} FixedLenExactly(g: Rules, t: Tree, d: nat, n: nat)
    ensures FixedLen(g, t, d) == n <==> EveryWay(g, t, n, d)
    decreases d, t
  {
    match t
    case Seq(p1, p2) =>
      var (a, b) := (FixedLen(g, p1, d), FixedLen(g, p2, d));
      if a >= 0 && b >= 0 {
        FixedLenExactly(g, p1, d, a);
        FixedLenExactly(g, p2, d, b);
      }
      forall k: nat | k <= n ensures EveryWay(g, p1, k, d) <==> a == k { FixedLenExactly(g, p1, d, k); }
      forall k: nat | k <= n ensures EveryWay(g, p2, k, d) <==> b == k { FixedLenExactly(g, p2, d, k); }
    case Choice(p1, p2) =>
      FixedLenExactly(g, p1, d, n);
      FixedLenExactly(g, p2, d, n);
    case Call(k) => if d > 0 && k < |g| { FixedLenExactly(g, g[k], d - 1, n); }
    case Grammar(rs) => if rs != [] { FixedLenExactly(rs, rs[0], d, n); }
    case _ =>
  }

  lemma {:induction false} EveryWayMore(g: Rules, t: Tree, n: nat, m: nat, m': nat)
    requires EveryWay(g, t, n, m) && m <= m'
    ensures EveryWay(g, t, n, m')
    decreases m, t
  {
    match t
    case Seq(p1, p2) =>
      var k: nat :| k <= n && EveryWay(g, p1, k, m) && EveryWay(g, p2, n - k, m);
      EveryWayMore(g, p1, k, m, m');
      EveryWayMore(g, p2, n - k, m, m');
    case Choice(p1, p2) =>
      EveryWayMore(g, p1, n, m, m');
      EveryWayMore(g, p2, n, m, m');
    case Call(k) => EveryWayMore(g, g[k], n, m - 1, m' - 1);
    case Grammar(rs) => EveryWayMore(rs, rs[0], n, m, m');
    case _ =>
  }

  ghost predicate LengthFrom(g: Rules, t: Tree, n: nat, m: nat) {
    forall d: nat :: m <= d ==> FixedLen(g, t, d) == n
  }

  /** So a length is found from some depth on exactly when every way has it. */
  lemma LengthFound(g: Rules, t: Tree, n: nat)
    ensures (exists m: nat :: LengthFrom(g, t, n, m)) <==> (exists m: nat :: EveryWay(g, t, n, m))
  {
    if m: nat :| LengthFrom(g, t, n, m) { FixedLenExactly(g, t, m, n); }
    if m: nat :| EveryWay(g, t, n, m) {
      forall d: nat | m <= d ensures FixedLen(g, t, d) == n {
        EveryWayMore(g, t, n, m, d);
        FixedLenExactly(g, t, d, n);
      }
      assert LengthFrom(g, t, n, m);
    }
  }

  /** A look-behind can be made of exactly the patterns all ways through which consume the same
      number of characters, at most 255. */
  lemma BehindExactly(g: Rules, p: Tree, n: nat, d: nat)
    ensures WellMade(d, g, Behind(n, p)) <==> n <= 255 && EveryWay(g, p, n, d) && WellMade(d, g, p)
  {
    FixedLenExactly(g, p, d, n);
  }

  // ----- one way at a time -----

  /** Without loops, predicates, calls and the pattern that always fails. */
  predicate Straight(t: Tree) {
    match t
    case Seq(p1, p2) => Straight(p1) && Straight(p2)
    case Choice(p1, p2) => Straight(p1) && Straight(p2)
    case Grammar(rs) => rs != [] && Straight(rs[0])
    case _ => IsCharPattern(t) || t.True?
  }

  /** Some way through t consumes n characters. */
  predicate Way(t: Tree, n: nat) {
    match t
    case Seq(p1, p2) => exists k: nat :: k <= n && Way(p1, k) && Way(p2, n - k)
    case Choice(p1, p2) => Way(p1, n) || Way(p2, n)
    case Grammar(rs) => rs != [] && Way(rs[0], n)
    case True => n == 0
    case _ => IsCharPattern(t) && n == 1
  }

  lemma {:induction false} SomeWay(t: Tree) returns (n: nat)
    requires Straight(t)
    ensures Way(t, n)
  {
    match t
    case Seq(p1, p2) =>
      var a := SomeWay(p1);
      var b := SomeWay(p2);
      n := a + b;
      assert Way(p1, a) && Way(p2, n - a);
    case Choice(p1, p2) => n := SomeWay(p1);
    case Grammar(rs) => n := SomeWay(rs[0]);
    case True => n := 0;
    case _ => n := 1;
  }

  /** Every success takes a way. */
  lemma {:induction false} SuccessIsWay(g: Rules, t: Tree, s: Subject, i: nat, f: nat)
    requires Straight(t) && i <= |s| && Eval(g, t, s, i, f).Ok?
    ensures Way(t, Eval(g, t, s, i, f).pos - i)
    decreases t
  {
    match t
    case Seq(p1, p2) =>
      var j := Eval(g, p1, s, i, f).pos;
      SuccessIsWay(g, p1, s, i, f);
      SuccessIsWay(g, p2, s, j, f);
      var n := Eval(g, t, s, i, f).pos - i;
      assert Way(p1, j - i) && Way(p2, n - (j - i));
    case Choice(p1, p2) =>
      if Eval(g, p1, s, i, f).Ok? { SuccessIsWay(g, p1, s, i, f); } else { SuccessIsWay(g, p2, s, i, f); }
    case Grammar(rs) => SuccessIsWay(rs, rs[0], s, i, f);
    case _ =>
  }

  lemma {:induction false} WaysAlike(g: Rules, t: Tree, d: nat, n: nat)
    requires Straight(t) && EveryWay(g, t, n, d)
    ensures forall k: nat :: Way(t, k) <==> k == n
    decreases t
  {
    match t
    case Seq(p1, p2) =>
      var a: nat :| a <= n && EveryWay(g, p1, a, d) && EveryWay(g, p2, n - a, d);
      WaysAlike(g, p1, d, a);
      WaysAlike(g, p2, d, n - a);
      assert Way(p1, a) && Way(p2, n - a);
    case Choice(p1, p2) =>
      WaysAlike(g, p1, d, n);
      WaysAlike(g, p2, d, n);
    case Grammar(rs) => WaysAlike(rs, rs[0], d, n);
    case _ =>
  }

  /** When no length is found, there are two ways of different length. */
  lemma {:induction false} TwoWays(g: Rules, t: Tree, d: nat) returns (a: nat, b: nat)
    requires Straight(t) && FixedLen(g, t, d) < 0
    ensures a != b && Way(t, a) && Way(t, b)
    decreases t
  {
    match t
    case Seq(p1, p2) =>
      if FixedLen(g, p1, d) < 0 {
        var x, y := TwoWays(g, p1, d);
        var z := SomeWay(p2);
        a, b := x + z, y + z;
        assert Way(p2, a - x) && Way(p2, b - y);
      } else {
        var x, y := TwoWays(g, p2, d);
        var z := SomeWay(p1);
        a, b := z + x, z + y;
        assert Way(p2, a - z) && Way(p2, b - z);
      }
    case Choice(p1, p2) =>
      if FixedLen(g, p1, d) < 0 {
        a, b := TwoWays(g, p1, d);
      } else if FixedLen(g, p2, d) < 0 {
        a, b := TwoWays(g, p2, d);
      } else {
        a, b := FixedLen(g, p1, d), FixedLen(g, p2, d);
        FixedLenExactly(g, p1, d, a);
        FixedLenExactly(g, p2, d, b);
        WaysAlike(g, p1, d, a);
        WaysAlike(g, p2, d, b);
      }
    case Grammar(rs) => a, b := TwoWays(rs, rs[0], d);
    case _ => assert false;
  }

  ghost predicate WaysDiffer(t: Tree) {
    exists a: nat, b: nat :: a != b && Way(t, a) && Way(t, b)
  }

  /** On such patterns the answer is -1 exactly when two ways differ. */
  lemma VariesExactly(g: Rules, t: Tree, d: nat)
    requires Straight(t)
    ensures FixedLen(g, t, d) == -1 <==> WaysDiffer(t)
  {
    if FixedLen(g, t, d) < 0 {
      var a, b := TwoWays(g, t, d);
      assert WaysDiffer(t);
    } else {
      var n := FixedLen(g, t, d);
      FixedLenExactly(g, t, d, n);
      WaysAlike(g, t, d, n);
    }
  }

  // ----- successes of different length -----

  /** 'a' / 'ab': the second way is never taken, since the first alternative is tried first. */
  const SHADOWED: Tree := Choice(Char(97), Seq(Char(97), Char(98)))

  lemma NeverVaries(d: nat, s: Subject, i: nat, f: nat)
    requires i <= |s|
    ensures FixedLen([], SHADOWED, d) == -1
    ensures Eval([], SHADOWED, s, i, f).Ok? ==> Eval([], SHADOWED, s, i, f).pos == i + 1
  {
    assert FixedLen([], Char(97), d) == 1 && FixedLen([], Char(98), d) == 1;
    assert FixedLen([], Seq(Char(97), Char(98)), d) == 2;
  }

  /** No alternative hides another: the next character tells them apart. */
  predicate Apart(t: Tree) {
    match t
    case Seq(p1, p2) => Apart(p1) && Apart(p2)
    case Choice(p1, p2) =>
      Apart(p1) && Apart(p2) && GetFirst([], p1, FULLSET, 0).cs !! GetFirst([], p2, FULLSET, 0).cs
    case _ => IsCharPattern(t) && CharsOf(t) != {}
  }

  lemma {:induction false} ApartBegins(t: Tree)
    requires Apart(t)
    ensures Straight(t) && !GetFirst([], t, FULLSET, 0).empty && !Nullable([], t, 0)
    ensures forall n: nat :: Way(t, n) ==> n > 0
  {
    match t
    case Seq(p1, p2) => ApartBegins(p1); ApartBegins(p2);
    case Choice(p1, p2) => ApartBegins(p1); ApartBegins(p2);
    case _ =>
  }

  /** s is matched as a whole, wherever it stands. */
  ghost predicate Matches(t: Tree, s: Subject) {
    forall u: Subject, v: Subject ::
      Eval([], t, u + s + v, |u|, 0) == Ok(|u| + |s|)
  }

  /** Then every way is taken. */
  lemma {:induction false} WayIsTaken(t: Tree, n: nat) returns (s: Subject)
    requires Apart(t) && Way(t, n)
    ensures |s| == n && Matches(t, s)
  {
    match t
    case Seq(p1, p2) =>
      var k: nat :| k <= n && Way(p1, k) && Way(p2, n - k);
      var a := WayIsTaken(p1, k);
      var b := WayIsTaken(p2, n - k);
      s := a + b;
      BothMatch(p1, p2, a, b);
    case Choice(p1, p2) =>
      ApartBegins(t);
      if Way(p1, n) {
        s := WayIsTaken(p1, n);
        FirstMatches(p1, p2, s);
      } else {
        s := WayIsTaken(p2, n);
        SecondMatches(p1, p2, s);
      }
    case Char(_) => s := CharTaken(t);
    case Set(_) => s := CharTaken(t);
    case Any => s := CharTaken(t);
  }

  lemma CharTaken(t: Tree) returns (s: Subject)
    requires IsCharPattern(t) && CharsOf(t) != {}
    ensures |s| == 1 && Matches(t, s)
  {
    var c :| c in CharsOf(t);
    s := [c];
    CharMatches(t, c);
  }

  lemma CharMatches(t: Tree, c: Byte)
    requires IsCharPattern(t) && c in CharsOf(t)
    ensures Matches(t, [c])
  {
    forall u: Subject, v: Subject ensures Eval([], t, u + [c] + v, |u|, 0) == Ok(|u| + 1) {
      assert (u + [c] + v)[|u|] == c;
    }
  }

  lemma BothMatch(p1: Tree, p2: Tree, a: Subject, b: Subject)
    requires Matches(p1, a) && Matches(p2, b)
    ensures Matches(Seq(p1, p2), a + b)
  {
    forall u: Subject, v: Subject ensures Eval([], Seq(p1, p2), u + (a + b) + v, |u|, 0) == Ok(|u| + |a + b|) {
      assert u + (a + b) + v == u + a + (b + v) == (u + a) + b + v;
      assert Eval([], p1, u + a + (b + v), |u|, 0) == Ok(|u| + |a|);
      assert Eval([], p2, (u + a) + b + v, |u + a|, 0) == Ok(|u + a| + |b|);
    }
  }

  lemma FirstMatches(p1: Tree, p2: Tree, s: Subject)
    requires Matches(p1, s)
    ensures Matches(Choice(p1, p2), s)
  {
    forall u: Subject, v: Subject ensures Eval([], Choice(p1, p2), u + s + v, |u|, 0) == Ok(|u| + |s|) {
      assert Eval([], p1, u + s + v, |u|, 0) == Ok(|u| + |s|);
    }
  }

  lemma SecondMatches(p1: Tree, p2: Tree, s: Subject)
    requires Apart(Choice(p1, p2)) && Matches(p2, s) && s != []
    ensures Matches(Choice(p1, p2), s)
  {
    ApartBegins(p1);
    ApartBegins(p2);
    forall u: Subject, v: Subject ensures Eval([], Choice(p1, p2), u + s + v, |u|, 0) == Ok(|u| + |s|) {
      var all := u + s + v;
      assert Eval([], p2, all, |u|, 0) == Ok(|u| + |s|);
      assert all[|u|] == s[0];
      FirstSound([], p2, FULLSET, 0, all, |u|, 0);
      FirstSound([], p1, FULLSET, 0, all, |u|, 0);
      NullableSound([], p1, 0, all, |u|, 0);
      Decided(p1, all, |u|);
    }
  }

  lemma {:induction false} Decided(t: Tree, s: Subject, i: nat)
    requires Apart(t) && i <= |s|
    ensures Eval([], t, s, i, 0) != NoFuel
  {
    match t
    case Seq(p1, p2) =>
      Decided(p1, s, i);
      var r := Eval([], p1, s, i, 0);
      if r.Ok? { Decided(p2, s, r.pos); }
    case Choice(p1, p2) => Decided(p1, s, i); Decided(p2, s, i);
    case _ =>
  }

  /** And every character of the first set begins a success. */
  lemma {:induction false} FirstBegins(t: Tree, c: Byte) returns (s: Subject)
    requires Apart(t) && c in GetFirst([], t, FULLSET, 0).cs
    ensures s != [] && s[0] == c && Matches(t, s)
  {
    match t
    case Seq(p1, p2) =>
      ApartBegins(p1);
      ApartBegins(p2);
      var a := FirstBegins(p1, c);
      var n := SomeWay(p2);
      var b := WayIsTaken(p2, n);
      s := a + b;
      BothMatch(p1, p2, a, b);
    case Choice(p1, p2) =>
      if c in GetFirst([], p1, FULLSET, 0).cs {
        s := FirstBegins(p1, c);
        FirstMatches(p1, p2, s);
      } else {
        s := FirstBegins(p2, c);
        SecondMatches(p1, p2, s);
      }
    case Char(_) => s := [c]; CharMatches(t, c);
    case Set(_) => s := [c]; CharMatches(t, c);
    case Any => s := [c]; CharMatches(t, c);
  }

  /** There the next character alone decides exactly when the pattern is found to be head-fail. */
  lemma HeadDecides(t: Tree)
    requires Apart(t)
    ensures HeadFail([], t, 0) <==>
      forall s: Subject :: s != [] && s[0] in GetFirst([], t, FULLSET, 0).cs ==> Eval([], t, s, 0, 0).Ok?
  {
    if HeadFail([], t, 0) {
      forall s: Subject | s != [] && s[0] in GetFirst([], t, FULLSET, 0).cs ensures Eval([], t, s, 0, 0).Ok? {
        Decided(t, s, 0);
        HeadFailExact([], t, 0, s, 0, 0);
      }
    } else {
      var s := HeadMisleads(t);
    }
  }

  lemma {:induction false} HeadMisleads(t: Tree) returns (s: Subject)
    requires Apart(t) && !HeadFail([], t, 0)
    ensures s != [] && s[0] in GetFirst([], t, FULLSET, 0).cs && Eval([], t, s, 0, 0) == Fail
  {
    match t
    case Seq(p1, p2) =>
      ApartBegins(p1);
      var n := SomeWay(p1);
      s := WayIsTaken(p1, n);
      NothingLeft(p1, p2, s);
    case Choice(p1, p2) =>
      if HeadFail([], p1, 0) {
        s := HeadMisleads(p2);
        NotBegun(p1, s);
      } else {
        s := HeadMisleads(p1);
        NotBegun(p2, s);
      }
  }

  lemma NotBegun(t: Tree, s: Subject)
    requires Apart(t) && s != [] && s[0] !in GetFirst([], t, FULLSET, 0).cs
    ensures Eval([], t, s, 0, 0) == Fail
  {
    ApartBegins(t);
    Decided(t, s, 0);
    FirstSound([], t, FULLSET, 0, s, 0, 0);
  }

  /** A sequence fails on what its first part takes as a whole. */
  lemma NothingLeft(p1: Tree, p2: Tree, s: Subject)
    requires Apart(p1) && Apart(p2) && Matches(p1, s) && s != []
    ensures s[0] in GetFirst([], Seq(p1, p2), FULLSET, 0).cs && Eval([], Seq(p1, p2), s, 0, 0) == Fail
  {
    assert [] + s + [] == s;
    assert Eval([], p1, s, 0, 0) == Ok(|s|);
    ApartBegins(p1);
    ApartBegins(p2);
    if s[0] !in GetFirst([], p1, FULLSET, 0).cs { NotBegun(p1, s); }
    Decided(p2, s, |s|);
    NullableSound([], p2, 0, s, |s|, 0);
  }

  /** Where the next character tells alternatives apart, a pattern without a fixed length has
      successes of different length. */
  lemma VariesForReal(t: Tree, d: nat) returns (s: Subject, s': Subject)
    requires Apart(t) && FixedLen([], t, d) < 0
    ensures |s| != |s'| && Eval([], t, s, 0, 0) == Ok(|s|) && Eval([], t, s', 0, 0) == Ok(|s'|)
  {
    ApartBegins(t);
    var a, b := TwoWays([], t, d);
    s := WayIsTaken(t, a);
    s' := WayIsTaken(t, b);
    assert [] + s + [] == s && [] + s' + [] == s';
  }
}

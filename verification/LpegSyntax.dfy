/** Pattern trees of LPeg (skynet/3rd/lpeg/lptree.h) and their meaning as parsing
    expressions. The meaning is the reference against which the analyses, the code
    generator and the matching machine are proved. */
module LpegSyntax {

  type Byte = x: int | 0 <= x < 256
  type Charset = set<Byte>
  type Subject = seq<Byte>

  /** The set holding every character. */
  const FULLSET: Charset := set c: Byte | 0 <= c < 256

  /** One constructor per tag. A call names a rule of the innermost enclosing grammar. */
  datatype Tree =
    | Char(c: Byte)
    | Set(cs: Charset)
    | Any
    | True
    | False
    | Rep(body: Tree)
    | Seq(p1: Tree, p2: Tree)
    | Choice(p1: Tree, p2: Tree)
    | Not(body: Tree)
    | And(body: Tree)
    | Behind(n: nat, body: Tree)
    | Call(rule: nat)
    | Grammar(rules: seq<Tree>)

  type Rules = seq<Tree>

  /** A match fails, succeeds at a position, or needs more fuel to be decided. */
  datatype Outcome = Fail | Ok(pos: nat) | NoFuel

  predicate IsCharPattern(t: Tree) {
    t.Char? || t.Set? || t.Any?
  }

  /** The characters a one-character pattern accepts. */
  function CharsOf(t: Tree): Charset
    requires IsCharPattern(t)
  {
    match t
    case Char(c) => {c}
    case Set(cs) => cs
    case Any => FULLSET
  }

  /** The meaning of a pattern at position i of subject s, where calls name rules of g.
      Fuel is spent by a call and by an iteration of a repetition, and by nothing else. */
  function Eval(g: Rules, t: Tree, s: Subject, i: nat, fuel: nat): (r: Outcome)
    requires i <= |s|
    ensures r.Ok? ==> i <= r.pos <= |s|
    decreases fuel, t
  {
    match t
    case Char(_) => EvalChar(t, s, i)
    case Set(_) => EvalChar(t, s, i)
    case Any => EvalChar(t, s, i)
    case True => Ok(i)
    case False => Fail
    case Rep(p) =>
      (match Eval(g, p, s, i, fuel)
       case Fail => Ok(i)
       case NoFuel => NoFuel
       case Ok(j) => if fuel == 0 then NoFuel else Eval(g, t, s, j, fuel - 1))
    case Seq(p1, p2) =>
      (match Eval(g, p1, s, i, fuel)
       case Ok(j) => Eval(g, p2, s, j, fuel)
       case r => r)
    case Choice(p1, p2) =>
      (match Eval(g, p1, s, i, fuel)
       case Fail => Eval(g, p2, s, i, fuel)
       case r => r)
    case Not(p) =>
      (match Eval(g, p, s, i, fuel)
       case Fail => Ok(i)
       case Ok(_) => Fail
       case NoFuel => NoFuel)
    case And(p) =>
      (match Eval(g, p, s, i, fuel)
       case Ok(_) => Ok(i)
       case r => r)
    case Behind(n, p) =>
      if n > i then Fail else
        (match Eval(g, p, s, i - n, fuel)
         case Ok(_) => Ok(i)
         case r => r)
    case Call(k) =>
      if fuel == 0 || k >= |g| then NoFuel else Eval(g, g[k], s, i, fuel - 1)
    case Grammar(rs) =>
      if rs == [] then NoFuel else Eval(rs, rs[0], s, i, fuel)
  }

  function EvalChar(t: Tree, s: Subject, i: nat): (r: Outcome)
    requires IsCharPattern(t) && i <= |s|
    ensures r.Ok? <==> i < |s| && s[i] in CharsOf(t)
    ensures r == Fail || r == Ok(i + 1)
  {
    if i < |s| && s[i] in CharsOf(t) then Ok(i + 1) else Fail
  }

  /** A decided outcome does not depend on the fuel: more fuel never changes it. */
  lemma {:induction false} MoreFuel(g: Rules, t: Tree, s: Subject, i: nat, f: nat, f': nat)
    requires i <= |s| && f <= f'
    requires Eval(g, t, s, i, f) != NoFuel
    ensures Eval(g, t, s, i, f') == Eval(g, t, s, i, f)
    decreases f, t
  {
    match t
    case Char(_) =>
    case Set(_) =>
    case Any =>
    case True =>
    case False =>
    case Rep(p) =>
      MoreFuel(g, p, s, i, f, f');
      var r := Eval(g, p, s, i, f);
      if r.Ok? { MoreFuel(g, t, s, r.pos, f - 1, f' - 1); }
    case Seq(p1, p2) =>
      MoreFuel(g, p1, s, i, f, f');
      var r := Eval(g, p1, s, i, f);
      if r.Ok? { MoreFuel(g, p2, s, r.pos, f, f'); }
    case Choice(p1, p2) =>
      MoreFuel(g, p1, s, i, f, f');
      if Eval(g, p1, s, i, f).Fail? { MoreFuel(g, p2, s, i, f, f'); }
    case Not(p) => MoreFuel(g, p, s, i, f, f');
    case And(p) => MoreFuel(g, p, s, i, f, f');
    case Behind(n, p) => if n <= i { MoreFuel(g, p, s, i - n, f, f'); }
    case Call(k) => MoreFuel(g, g[k], s, i, f - 1, f' - 1);
    case Grammar(rs) => MoreFuel(rs, rs[0], s, i, f, f');
  }
}

/** The hierarchical timing wheel of skynet/skynet-src/skynet_timer.c: 256 near lists and four
    levels of 64 lists. A list is kept as a sequence: link appends to it, link_clear empties
    it. Times are 32-bit words; x|(m-1) == y|(m-1) is written x / m == y / m, and
    (x >> k) & 63 is written x / 2^k % 64. */
module TimerWheel {

  const WORD: nat := 0x1_0000_0000
  /** Delays are positive C ints. */
  const MAXDELAY: nat := 0x8000_0000
  const TIMENEAR: nat := 256
  const TIMELEVEL: nat := 64

  datatype Event = Event(handle: nat, session: int)
  type Word = x: nat | x < WORD

  /** An event with the tick it expires at. */
  datatype Timed<T> = Timed(expire: T, event: Event)

  type Node = Timed<Word>

  /** A list of the wheel. */
  datatype Place = Near(idx: nat) | Level(level: nat, idx: nat)

  predicate IsPlace(p: Place) {
    match p
    case Near(i) => i < TIMENEAR
    case Level(l, i) => l < 4 && i < TIMELEVEL
  }

  /** The number of ticks that the lists of a level cover one by one. */
  function Span(level: nat): nat
    requires level <= 4
  {
    match level
    case 0 => 0x100
    case 1 => 0x4000
    case 2 => 0x10_0000
    case 3 => 0x400_0000
    case 4 => 0x1_0000_0000
  }

  /** The list that a node lives in: a function of its expiry and the time alone. */
  function PlaceOf(e: Word, time: Word): (p: Place)
    ensures IsPlace(p)
  {
    if e / Span(0) == time / Span(0) then Near(e % TIMENEAR)
    else if e / Span(1) == time / Span(1) then Level(0, e / Span(0) % TIMELEVEL)
    else if e / Span(2) == time / Span(2) then Level(1, e / Span(1) % TIMELEVEL)
    else if e / Span(3) == time / Span(3) then Level(2, e / Span(2) % TIMELEVEL)
    else Level(3, e / Span(3) % TIMELEVEL)
  }

  /** The ticks left until e. */
  function Remaining(e: Word, time: Word): (r: Word) {
    if e >= time then e - time else e + WORD - time
  }

  function Next(time: Word): Word {
    if time + 1 == WORD then 0 else time + 1
  }

  datatype Cascade = NoMove | Move(place: Place)

  /** The list that timer_shift moves when the time becomes ct. */
  function CascadeAt(ct: Word): (c: Cascade)
    ensures c.Move? ==> c.place.Level? && IsPlace(c.place)
  {
    if ct == 0 then Move(Level(3, 0))
    else if ct % Span(0) != 0 then NoMove
    else if ct % Span(1) != 0 then Move(Level(0, ct / Span(0) % TIMELEVEL))
    else if ct % Span(2) != 0 then Move(Level(1, ct / Span(1) % TIMELEVEL))
    else if ct % Span(3) != 0 then Move(Level(2, ct / Span(2) % TIMELEVEL))
    else Move(Level(3, ct / Span(3) % TIMELEVEL))
  }

  // ----- blocks of ticks -----

  lemma Nested(x: nat)
    ensures x / 0x4000 == x / 0x100 / 64 && x / 0x10_0000 == x / 0x4000 / 64 && x / 0x400_0000 == x / 0x10_0000 / 64
    ensures x % 0x4000 == 0 ==> x % 0x100 == 0
    ensures x % 0x10_0000 == 0 ==> x % 0x4000 == 0
    ensures x % 0x400_0000 == 0 ==> x % 0x10_0000 == 0
  {
  }

  /** The next tick is in the next block exactly when it is the first of a block. */
  lemma NextBlock(time: nat, level: nat)
    requires level < 4
    ensures var m := Span(level);
            if (time + 1) % m == 0 then (time + 1) / m == time / m + 1 && time % m == m - 1
            else (time + 1) / m == time / m
  {
    match level
    case 0 =>
    case 1 =>
    case 2 =>
    case 3 =>
  }

  /** What is due later, in the same block as the last tick of the block: nothing. */
  lemma NothingLeft(e: Word, time: Word, m: nat)
    requires 0 < m <= MAXDELAY && time % m == m - 1 && e / m == time / m
    requires e != time
    ensures Remaining(e, time) > MAXDELAY
  {
    assert e == e / m * m + e % m && time == time / m * m + time % m;
    assert e < time && time - e < m;
  }

  /** The blocks of a tick, from small to large. */
  datatype Blocks = Blocks(b0: nat, b1: nat, b2: nat, b3: nat)

  function BlocksOf(x: nat): Blocks { Blocks(x / Span(0), x / Span(1), x / Span(2), x / Span(3)) }

  /** PlaceOf, in terms of blocks. */
  function PlaceIn(low: nat, e: Blocks, t: Blocks): Place {
    if e.b0 == t.b0 then Near(low)
    else if e.b1 == t.b1 then Level(0, e.b0 % TIMELEVEL)
    else if e.b2 == t.b2 then Level(1, e.b1 % TIMELEVEL)
    else if e.b3 == t.b3 then Level(2, e.b2 % TIMELEVEL)
    else Level(3, e.b3 % TIMELEVEL)
  }

  /** From one tick to the next, the blocks of the first levels change. */
  ghost predicate StepsUp(t: Blocks, c: Blocks, levels: nat) {
    && levels <= 4
    && c.b0 == t.b0 + (if levels > 0 then 1 else 0) && c.b1 == t.b1 + (if levels > 1 then 1 else 0)
    && c.b2 == t.b2 + (if levels > 2 then 1 else 0) && c.b3 == t.b3 + (if levels > 3 then 1 else 0)
  }

  lemma PlacesStayInBlocks(low: nat, e: Blocks, t: Blocks, c: Blocks, levels: nat)
    requires StepsUp(t, c, levels)
    requires e.b0 == c.b0 ==> e.b1 == c.b1
    requires e.b1 == c.b1 ==> e.b2 == c.b2
    requires e.b2 == c.b2 ==> e.b3 == c.b3
    requires levels > 0 ==> e.b0 != t.b0
    requires levels > 1 ==> e.b1 != t.b1
    requires levels > 2 ==> e.b2 != t.b2
    requires levels > 3 ==> e.b3 != t.b3
    ensures
      || PlaceIn(low, e, c) == PlaceIn(low, e, t)
      || PlaceIn(low, e, t) == match levels
                               case 1 => Level(0, c.b0 % TIMELEVEL)
                               case 2 => Level(1, c.b1 % TIMELEVEL)
                               case 3 => Level(2, c.b2 % TIMELEVEL)
                               case _ => Level(3, c.b3 % TIMELEVEL)
  {
  }

  /** When time moves on by one, the only nodes that change their place are those of the list
      that is moved, provided none is due now and none is half a cycle away. */
  lemma PlacesStay(e: Word, time: Word)
    requires e != time && Remaining(e, time) < MAXDELAY
    ensures CascadeAt(Next(time)) == Move(PlaceOf(e, time)) || PlaceOf(e, Next(time)) == PlaceOf(e, time)
  {
    if time + 1 == WORD {
      FirstBlocks(e);
    } else {
      var ct := time + 1;
      var levels := if ct % Span(0) != 0 then 0 else if ct % Span(1) != 0 then 1
                    else if ct % Span(2) != 0 then 2 else if ct % Span(3) != 0 then 3 else 4;
      BlocksStepUp(e, time, levels);
      PlacesStayInBlocks(e % TIMENEAR, BlocksOf(e), BlocksOf(time), BlocksOf(ct), levels);
    }
  }

  lemma BlocksStepUp(e: Word, time: Word, levels: nat)
    requires time + 1 < WORD && e != time && Remaining(e, time) < MAXDELAY
    requires levels <= 4
    requires levels > 0 <==> (time + 1) % Span(0) == 0
    requires levels > 1 ==> (time + 1) % Span(1) == 0
    requires levels > 2 ==> (time + 1) % Span(2) == 0
    requires levels > 3 ==> (time + 1) % Span(3) == 0
    requires levels < 4 ==> (time + 1) % Span(levels) != 0
    ensures var (b, t, c) := (BlocksOf(e), BlocksOf(time), BlocksOf(time + 1));
      && StepsUp(t, c, levels)
      && (b.b0 == c.b0 ==> b.b1 == c.b1) && (b.b1 == c.b1 ==> b.b2 == c.b2) && (b.b2 == c.b2 ==> b.b3 == c.b3)
      && (levels > 0 ==> b.b0 != t.b0) && (levels > 1 ==> b.b1 != t.b1)
      && (levels > 2 ==> b.b2 != t.b2) && (levels > 3 ==> b.b3 != t.b3)
  {
    Nested(e);
    Nested(time + 1);
    forall l: nat | l < 4
      ensures (time + 1) % Span(l) == 0 ==> (time + 1) / Span(l) == time / Span(l) + 1 && e / Span(l) != time / Span(l)
      ensures (time + 1) % Span(l) != 0 ==> (time + 1) / Span(l) == time / Span(l)
    {
      NextBlock(time, l);
      if (time + 1) % Span(l) == 0 && e / Span(l) == time / Span(l) { NothingLeft(e, time, Span(l)); }
    }
  }

  lemma FirstBlocks(e: Word)
    requires e / Span(3) != (WORD - 1) / Span(3)
    ensures PlaceOf(e, WORD - 1) == Level(3, e / Span(3) % TIMELEVEL)
    ensures e / Span(3) != 0 ==> PlaceOf(e, 0) == Level(3, e / Span(3) % TIMELEVEL)
  {
    Nested(e);
  }

  // ----- lists -----

  /** The nodes of a list that expire at e, in order. */
  function Only<T(==)>(s: seq<Timed<T>>, e: T): (r: seq<Timed<T>>) {
    if s == [] then []
    else Only(s[..|s| - 1], e) + if s[|s| - 1].expire == e then [s[|s| - 1]] else []
  }

  /** The nodes of a list that do not expire at e, in order. */
  function Except<T(==)>(s: seq<Timed<T>>, e: T): (r: seq<Timed<T>>) {
    if s == [] then []
    else Except(s[..|s| - 1], e) + if s[|s| - 1].expire == e then [] else [s[|s| - 1]]
  }

  lemma OnlyAppend<T>(s: seq<Timed<T>>, n: Timed<T>, e: T)
    ensures Only(s + [n], e) == Only(s, e) + if n.expire == e then [n] else []
  {
    assert (s + [n])[..|s|] == s;
  }

  lemma OnlyOne<T>(n: Timed<T>, e: T)
    ensures Only([n], e) == if n.expire == e then [n] else []
  {
    OnlyAppend([], n, e);
    assert [] + [n] == [n];
  }

  lemma {:induction false} OnlyConcat<T>(s: seq<Timed<T>>, u: seq<Timed<T>>, e: T)
    ensures Only(s + u, e) == Only(s, e) + Only(u, e)
    decreases |u|
  {
    if u == [] {
      assert s + u == s;
    } else {
      var v := u[..|u| - 1];
      OnlyConcat(s, v, e);
      assert s + u == (s + v) + [u[|u| - 1]];
      OnlyAppend(s + v, u[|u| - 1], e);
    }
  }

  lemma {:induction false} OnlyIsAll<T>(s: seq<Timed<T>>, e: T)
    requires forall i :: 0 <= i < |s| ==> s[i].expire == e
    ensures Only(s, e) == s
  {
    if s != [] {
      OnlyIsAll(s[..|s| - 1], e);
      assert s == s[..|s| - 1] + [s[|s| - 1]];
    }
  }

  lemma {:induction false} OnlyNone<T>(s: seq<Timed<T>>, e: T)
    ensures Only(s, e) == [] <==> forall n :: n in s ==> n.expire != e
  {
    if s != [] {
      OnlyNone(s[..|s| - 1], e);
      assert s == s[..|s| - 1] + [s[|s| - 1]];
    }
  }

  /** What is left after taking the nodes of one tick. */
  lemma {:induction false} OnlyExcept<T>(s: seq<Timed<T>>, e: T, e': T)
    ensures Only(Except(s, e), e') == if e == e' then [] else Only(s, e')
  {
    if s != [] {
      OnlyExcept(s[..|s| - 1], e, e');
      OnlyAppend(Except(s[..|s| - 1], e), s[|s| - 1], e');
      assert Except(s[..|s| - 1], e) + [] == Except(s[..|s| - 1], e);
    }
  }

  lemma {:induction false} OnlyTwice<T>(s: seq<Timed<T>>, e: T, e': T)
    ensures Only(Only(s, e), e') == if e == e' then Only(s, e) else []
  {
    if s != [] {
      var (v, x) := (s[..|s| - 1], s[|s| - 1]);
      OnlyTwice(v, e, e');
      OnlyAppend(Only(v, e), x, e');
      assert Only(v, e) + [] == Only(v, e);
    }
  }

  lemma {:induction false} OnlyMembers<T>(s: seq<Timed<T>>, e: T)
    ensures forall n :: n in Only(s, e) <==> n in s && n.expire == e
  {
    if s != [] {
      OnlyMembers(s[..|s| - 1], e);
      assert s == s[..|s| - 1] + [s[|s| - 1]];
    }
  }

  lemma {:induction false} ExceptMembers<T>(s: seq<Timed<T>>, e: T)
    ensures forall n :: n in Except(s, e) <==> n in s && n.expire != e
  {
    if s != [] {
      ExceptMembers(s[..|s| - 1], e);
      assert s == s[..|s| - 1] + [s[|s| - 1]];
    }
  }

  lemma {:induction false} ExceptConcat<T>(s: seq<Timed<T>>, u: seq<Timed<T>>, e: T)
    ensures Except(s + u, e) == Except(s, e) + Except(u, e)
    decreases |u|
  {
    if u == [] {
      assert s + u == s;
    } else {
      var v := u[..|u| - 1];
      ExceptConcat(s, v, e);
      assert s + u == (s + v) + [u[|u| - 1]];
      ExceptAppend(s + v, u[|u| - 1], e);
    }
  }

  lemma ExceptAppend<T>(s: seq<Timed<T>>, n: Timed<T>, e: T)
    ensures Except(s + [n], e) == Except(s, e) + if n.expire == e then [] else [n]
  {
    assert (s + [n])[..|s|] == s;
  }

  // ----- what the lists hold -----

  /** The contents of the lists, by place. */
  type Lists = m: imap<Place, seq<Node>> | forall p :: p in m <==> IsPlace(p)
    ghost witness imap p | IsPlace(p) :: []

  /** The lists, together with the nodes of rest that are still to be linked, hold the pending
      nodes: each at its place, and those of one tick in the order of adding. */
  ghost predicate Holds(m: Lists, time: Word, pending: seq<Node>, rest: seq<Node>) {
    forall p, e: Word :: IsPlace(p) ==> HoldsAt(m, time, pending, rest, p, e)
  }

  ghost predicate HoldsAt(m: Lists, time: Word, pending: seq<Node>, rest: seq<Node>, p: Place, e: Word)
    requires IsPlace(p)
  {
    Only(m[p], e) + (if PlaceOf(e, time) == p then Only(rest, e) else [])
    == if PlaceOf(e, time) == p then Only(pending, e) else []
  }

  ghost function Linked(m: Lists, p: Place, n: Node): Lists
    requires IsPlace(p)
  {
    m[p := m[p] + [n]]
  }

  /** Linking the next node at its place. */
  lemma LinkHolds(m: Lists, time: Word, pending: seq<Node>, n: Node, rest: seq<Node>)
    requires Holds(m, time, pending, [n] + rest)
    ensures Holds(Linked(m, PlaceOf(n.expire, time), n), time, pending, rest)
  {
    hide Only, PlaceOf;
    var m' := Linked(m, PlaceOf(n.expire, time), n);
    forall p, e: Word | IsPlace(p) ensures HoldsAt(m', time, pending, rest, p, e) {
      assert HoldsAt(m, time, pending, [n] + rest, p, e);
      OnlyAppend(m[p], n, e);
      OnlyConcat([n], rest, e);
      OnlyOne(n, e);
    }
  }

  /** A new node is still to be linked. */
  lemma NewHolds(m: Lists, time: Word, pending: seq<Node>, n: Node)
    requires Holds(m, time, pending, [])
    ensures Holds(m, time, pending + [n], [n] + [])
  {
    hide Only, PlaceOf;
    forall p, e: Word | IsPlace(p) ensures HoldsAt(m, time, pending + [n], [n] + [], p, e) {
      assert HoldsAt(m, time, pending, [], p, e);
      OnlyAppend(pending, n, e);
      OnlyConcat([n], [], e);
      OnlyNone([], e);
      OnlyOne(n, e);
    }
  }

  /** When time moves on, the list that timer_shift moves is taken out to be linked again. */
  lemma ShiftHolds(m: Lists, time: Word, pending: seq<Node>)
    requires Holds(m, time, pending, [])
    requires forall n :: n in pending ==> Remaining(n.expire, time) < MAXDELAY && n.expire != time
    ensures match CascadeAt(Next(time))
            case NoMove => Holds(m, Next(time), pending, [])
            case Move(q) => Holds(m[q := []], Next(time), pending, m[q])
  {
    hide Only, PlaceOf, CascadeAt, Remaining, Next;
    var c := CascadeAt(Next(time));
    var m' := if c.Move? then m[c.place := []] else m;
    var rest := if c.Move? then m[c.place] else [];
    forall p, e: Word | IsPlace(p) ensures HoldsAt(m', Next(time), pending, rest, p, e) {
      assert HoldsAt(m, time, pending, [], p, e);
      if c.Move? { assert HoldsAt(m, time, pending, [], c.place, e); }
      OnlyNone(pending, e);
      OnlyNone([], e);
      if n :| n in pending && n.expire == e { PlacesStay(e, time); }
    }
  }

  /** The list of the current tick holds exactly the nodes that are due. */
  lemma DueIs(m: Lists, time: Word, pending: seq<Node>)
    requires Holds(m, time, pending, [])
    ensures m[Near(time % TIMENEAR)] == Only(pending, time)
  {
    hide Only, PlaceOf;
    var q := Near(time % TIMENEAR);
    OwnPlace(time);
    assert HoldsAt(m, time, pending, [], q, time);
    forall i | 0 <= i < |m[q]| ensures m[q][i].expire == time {
      var e := m[q][i].expire;
      assert HoldsAt(m, time, pending, [], q, e);
      OnlyNone(m[q], e);
      OnlyNone([], e);
      SameSlot(e, time);
    }
    OnlyIsAll(m[q], time);
    OnlyNone([], time);
  }

  /** Taking that list leaves the others as they are. */
  lemma DueHolds(m: Lists, time: Word, pending: seq<Node>)
    requires Holds(m, time, pending, [])
    ensures m[Near(time % TIMENEAR)] == Only(pending, time)
    ensures Holds(m[Near(time % TIMENEAR) := []], time, Except(pending, time), [])
  {
    hide Only, Except, PlaceOf;
    DueIs(m, time, pending);
    var q := Near(time % TIMENEAR);
    var m' := m[q := []];
    OwnPlace(time);
    forall p, e: Word | IsPlace(p) ensures HoldsAt(m', time, Except(pending, time), [], p, e) {
      assert HoldsAt(m, time, pending, [], p, e);
      OnlyExcept(pending, time, e);
      OnlyNone([], e);
      if e != time && p == q && PlaceOf(e, time) == q { SameSlot(e, time); }
    }
  }

  lemma OwnPlace(time: Word)
    ensures PlaceOf(time, time) == Near(time % TIMENEAR)
  {
  }

  /** A near list holds the nodes of one tick only. */
  lemma SameSlot(e: Word, time: Word)
    requires PlaceOf(e, time) == Near(time % TIMENEAR)
    ensures e == time
  {
  }

  // ----- the wheel -----

  /** struct timer. The ghost field pending lists what was added and not yet dispatched, in
      the order of adding. */
  class Timer {
    var near: array<seq<Node>>
    var t: array2<seq<Node>>
    var time: Word
    ghost var pending: seq<Node>

    ghost predicate Shape()
      reads this
    {
      near.Length == TIMENEAR && t.Length0 == 4 && t.Length1 == TIMELEVEL
    }

    ghost function AllLists(): Lists
      requires Shape()
      reads this, near, t
    {
      imap p | IsPlace(p) :: match p case Near(i) => near[i] case Level(l, i) => t[l, i]
    }

    ghost predicate Valid()
      reads this, near, t
    {
      && Shape() && Holds(AllLists(), time, pending, [])
      && forall n :: n in pending ==> Remaining(n.expire, time) < MAXDELAY
    }

    constructor ()
      ensures Valid() && fresh(near) && fresh(t) && pending == [] && time == 0
    {
      near := new seq<Node>[TIMENEAR](_ => []);
      t := new seq<Node>[4, TIMELEVEL]((_, _) => []);
      time := 0;
      pending := [];
    }

    /** add_node: link a node into the list of its place. */
    method AddNode(n: Node)
      requires Shape()
      modifies near, t
      ensures AllLists() == Linked(old(AllLists()), PlaceOf(n.expire, time), n)
    {
      hide PlaceOf;
      NearPlace(n.expire, time);
      if n.expire / TIMENEAR == time / TIMENEAR {
        near[n.expire % TIMENEAR] := near[n.expire % TIMENEAR] + [n];
      } else {
        var i, idx := FindLevel(n.expire);
        t[i, idx] := t[i, idx] + [n];
      }
    }

    /** The loop of add_node: the finest level whose lists tell the expiry from the time. */
    method FindLevel(e: Word) returns (i: nat, idx: nat)
      requires e / TIMENEAR != time / TIMENEAR
      ensures i < 4 && idx < TIMELEVEL && PlaceOf(e, time) == Level(i, idx)
    {
      i := 0;
      var mask := TIMENEAR * TIMELEVEL;
      while i < 3 && e / mask != time / mask
        invariant 0 <= i <= 3 && mask == Span(i + 1)
        invariant forall k: nat :: k <= i ==> e / Span(k) != time / Span(k)
      {
        mask := mask * TIMELEVEL;
        i := i + 1;
      }
      idx := e / Span(i) % TIMELEVEL;
    }

    /** timer_add, for the delays that the source passes on. */
    method Add(event: Event, delay: nat)
      requires Valid() && delay < MAXDELAY
      modifies this, near, t
      ensures Valid() && near == old(near) && t == old(t) && time == old(time)
      ensures pending == old(pending) + [Timed((time + delay) % WORD, event)]
    {
      hide Holds, PlaceOf;
      var n: Node := Timed((time + delay) % WORD, event);
      DelayRemains(time, delay);
      NewHolds(AllLists(), time, pending, n);
      LinkHolds(AllLists(), time, pending + [n], n, []);
      pending := pending + [n];
      assert AllLists() == old(AllLists());
      AddNode(n);
    }

    /** move_list: the nodes of a list are linked again, now that the time has changed. */
    method MoveList(level: nat, idx: nat)
      requires Shape() && IsPlace(Level(level, idx))
      requires var q := Level(level, idx); Holds(AllLists()[q := []], time, pending, AllLists()[q])
      modifies near, t
      ensures Holds(AllLists(), time, pending, [])
    {
      hide Holds;
      var current := t[level, idx];
      t[level, idx] := [];
      assert AllLists() == old(AllLists())[Level(level, idx) := []];
      while current != []
        invariant Holds(AllLists(), time, pending, current)
        decreases |current|
      {
        assert current == [current[0]] + current[1..];
        LinkHolds(AllLists(), time, pending, current[0], current[1..]);
        AddNode(current[0]);
        current := current[1..];
      }
    }

    /** timer_shift: one tick on; a list of a coarser level is spread over finer ones. Between
        an empty check of the current list and this call the source keeps its lock. */
    method Shift()
      requires Valid() && Only(pending, time) == []
      modifies this, near, t
      ensures Valid() && near == old(near) && t == old(t)
      ensures time == Next(old(time)) && pending == old(pending)
    {
      ghost var m := AllLists();
      OnlyNone(pending, time);
      ShiftHolds(m, time, pending);
      RemainingNext(pending, time);
      hide Holds, Remaining, CascadeAt, PlaceOf, Only;
      var ct := if time + 1 == WORD then 0 else time + 1;
      time := ct;
      assert AllLists() == m;
      Cascade();
    }

    /** The part of timer_shift that comes when the time has moved on. */
    method Cascade()
      requires Shape()
      requires match CascadeAt(time)
               case NoMove => Holds(AllLists(), time, pending, [])
               case Move(q) => Holds(AllLists()[q := []], time, pending, AllLists()[q])
      modifies near, t
      ensures Holds(AllLists(), time, pending, [])
    {
      hide Holds, CascadeAt, PlaceOf;
      if time == 0 {
        FirstCascade();
        MoveList(3, 0);
      } else {
        var mask := TIMENEAR;
        var rest := time / TIMENEAR;
        var i := 0;
        while time % mask == 0
          invariant 0 <= i <= 3 && mask == Span(i) && rest == time / Span(i)
          invariant AllLists() == old(AllLists())
          invariant i > 0 ==> time % Span(i) == 0
          decreases 3 - i
        {
          var idx := rest % TIMELEVEL;
          CascadeFound(time, i);
          if idx != 0 {
            MoveList(i, idx);
            return;
          }
          mask := mask * TIMELEVEL;
          rest := rest / TIMELEVEL;
          i := i + 1;
        }
        NoCascade(time);
      }
    }

    /** One round of the loop of timer_execute: the current list is taken out, to be
        dispatched while the lock is released. */
    method TakeDue() returns (due: seq<Node>)
      requires Valid()
      modifies this, near
      ensures Valid() && near == old(near) && t == old(t) && time == old(time)
      ensures due == Only(old(pending), time) && pending == Except(old(pending), time)
    {
      DueHolds(AllLists(), time, pending);
      ExceptMembers(pending, time);
      hide Holds, PlaceOf, Remaining;
      due := near[time % TIMENEAR];
      near[time % TIMENEAR] := [];
      pending := Except(pending, time);
      assert AllLists() == old(AllLists())[Near(time % TIMENEAR) := []];
    }

    /** What other threads add while the lock is released. */
    method AddAll(arrivals: seq<Arrival>)
      requires Valid() && AllPassed(arrivals)
      modifies this, near, t
      ensures Valid() && near == old(near) && t == old(t) && time == old(time)
      ensures pending == old(pending) + Arrived(arrivals, time)
    {
      hide Arrived, Holds, Shape;
      NoneArrived(time);
      assert arrivals[..0] == [];
      for i := 0 to |arrivals|
        invariant Valid() && near == old(near) && t == old(t) && time == old(time)
        invariant pending == old(pending) + Arrived(arrivals[..i], time)
      {
        ArrivedNext(arrivals, i, time);
        Add(arrivals[i].event, arrivals[i].delay);
      }
      assert arrivals[..|arrivals|] == arrivals;
    }

    /** timer_execute: the current list is taken out as long as there is one; while the k-th one is
        dispatched, the k-th arrivals are added. */
    method Execute(arrivals: seq<seq<Arrival>>) returns (fired: seq<Node>, k: nat)
      requires Valid() && forall i :: 0 <= i < |arrivals| ==> AllPassed(arrivals[i])
      modifies this, near, t
      ensures Valid() && near == old(near) && t == old(t) && time == old(time) && k <= |arrivals|
      ensures var all := old(pending) + Arrived(Flat(arrivals[..k]), time);
        fired == Only(all, time) && pending == Except(all, time)
      ensures Only(pending, time) == []
    {
      hide Only, Except, Arrived, Flat, Holds;
      fired, k := [], 0;
      NothingTaken(pending, time);
      NoArrivals(arrivals, time);
      ghost var all := pending;
      DueNow();
      while near[time % TIMENEAR] != []
        invariant Valid() && near == old(near) && t == old(t) && time == old(time) && k <= |arrivals|
        invariant all == old(pending) + Arrived(Flat(arrivals[..k]), time)
        invariant fired + Only(pending, time) == Only(all, time) && Except(pending, time) == Except(all, time)
        invariant near[time % TIMENEAR] == Only(pending, time)
        decreases |arrivals| - k, |near[time % TIMENEAR]|
      {
        var batch := if k < |arrivals| then arrivals[k] else [];
        NoneArrived(time);
        RoundTaken(fired, pending, all, Arrived(batch, time), time);
        var due := Round(batch);
        fired := fired + due;
        if k < |arrivals| {
          MoreArrivals(arrivals, k, time);
          all := all + Arrived(arrivals[k], time);
          k := k + 1;
        }
      }
      AllTaken(pending, time);
    }

    /** One round of timer_execute: a list is taken out and, while it is dispatched, more is added. */
    method Round(batch: seq<Arrival>) returns (due: seq<Node>)
      requires Valid() && AllPassed(batch)
      modifies this, near, t
      ensures Valid() && near == old(near) && t == old(t) && time == old(time)
      ensures due == Only(old(pending), time) && pending == Except(old(pending), time) + Arrived(batch, time)
      ensures near[time % TIMENEAR] == Only(pending, time)
    {
      hide Only, Except, Arrived, Holds;
      due := TakeDue();
      AddAll(batch);
      DueNow();
    }

    lemma DueNow()
      requires Valid()
      ensures near[time % TIMENEAR] == Only(pending, time)
    {
      DueHolds(AllLists(), time, pending);
    }

    /** timer_update: what is dispatched before and after the tick, when others add timers
        meanwhile. Afterwards nothing that waits is due. */
    method Update(arrivals: seq<seq<Arrival>>, later: seq<seq<Arrival>>)
      returns (early: seq<Node>, due: seq<Node>, k: nat, l: nat)
      requires Valid() && forall i :: 0 <= i < |arrivals| ==> AllPassed(arrivals[i])
      requires forall i :: 0 <= i < |later| ==> AllPassed(later[i])
      modifies this, near, t
      ensures Valid() && near == old(near) && t == old(t) && time == Next(old(time))
      ensures k <= |arrivals| && l <= |later| && Only(pending, time) == []
      ensures var first := old(pending) + Arrived(Flat(arrivals[..k]), old(time));
        var second := Except(first, old(time)) + Arrived(Flat(later[..l]), time);
        && early == Only(first, old(time)) && due == Only(second, time) && pending == Except(second, time)
    {
      hide Only, Except, Arrived, Flat, Holds, Shape;
      early, k := Execute(arrivals);
      Shift();
      due, l := Execute(later);
    }
  }

  /** A timer that another thread adds. */
  datatype Arrival = Arrival(event: Event, delay: nat)

  /** The delays that the source passes on. */
  predicate AllPassed(arrivals: seq<Arrival>) {
    forall i :: 0 <= i < |arrivals| ==> arrivals[i].delay < MAXDELAY
  }

  function Arrived(arrivals: seq<Arrival>, time: Word): seq<Node> {
    seq(|arrivals|, i requires 0 <= i < |arrivals| => Timed((time + arrivals[i].delay) % WORD, arrivals[i].event))
  }

  function Flat(arrivals: seq<seq<Arrival>>): seq<Arrival> {
    if arrivals == [] then [] else Flat(arrivals[..|arrivals| - 1]) + arrivals[|arrivals| - 1]
  }

  lemma NoneArrived(time: Word)
    ensures Arrived([], time) == []
  {
  }

  lemma ArrivedNext(arrivals: seq<Arrival>, i: nat, time: Word)
    requires i < |arrivals|
    ensures Arrived(arrivals[..i + 1], time)
         == Arrived(arrivals[..i], time) + [Timed((time + arrivals[i].delay) % WORD, arrivals[i].event)]
  {
  }

  lemma NoArrivals(arrivals: seq<seq<Arrival>>, time: Word)
    ensures Arrived(Flat(arrivals[..0]), time) == []
  {
  }

  lemma MoreArrivals(arrivals: seq<seq<Arrival>>, k: nat, time: Word)
    requires k < |arrivals|
    ensures Arrived(Flat(arrivals[..k + 1]), time) == Arrived(Flat(arrivals[..k]), time) + Arrived(arrivals[k], time)
  {
    assert arrivals[..k + 1][..k] == arrivals[..k];
  }

  lemma NothingTaken(pending: seq<Node>, time: Word)
    ensures [] + Only(pending, time) == Only(pending, time)
  {
  }

  /** One list is taken out, and more timers come. */
  lemma RoundTaken(fired: seq<Node>, pending: seq<Node>, all: seq<Node>, more: seq<Node>, time: Word)
    requires fired + Only(pending, time) == Only(all, time) && Except(pending, time) == Except(all, time)
    ensures var left := Except(pending, time) + more;
      && (fired + Only(pending, time)) + Only(left, time) == Only(all + more, time)
      && Except(left, time) == Except(all + more, time)
      && (more == [] ==> Only(left, time) == [] && all + more == all)
  {
    hide Only, Except;
    var left := Except(pending, time);
    OnlyExcept(pending, time, time);
    ExceptTwice(pending, time);
    OnlyConcat(left, more, time);
    OnlyConcat(all, more, time);
    ExceptConcat(left, more, time);
    ExceptConcat(all, more, time);
    assert more == [] ==> left + more == left;
  }

  lemma {:induction false} ExceptTwice<T>(s: seq<Timed<T>>, e: T)
    ensures Except(Except(s, e), e) == Except(s, e)
  {
    if s != [] {
      var (v, x) := (s[..|s| - 1], s[|s| - 1]);
      ExceptTwice(v, e);
      assert Except(v, e) + [] == Except(v, e);
      assert (Except(v, e) + [x])[..|Except(v, e)|] == Except(v, e);
    }
  }

  lemma {:induction false} AllTaken<T>(s: seq<Timed<T>>, e: T)
    requires Only(s, e) == []
    ensures Except(s, e) == s
  {
    if s != [] {
      var (v, x) := (s[..|s| - 1], s[|s| - 1]);
      AllTaken(v, e);
      assert s == v + [x];
    }
  }

  lemma NearPlace(e: Word, time: Word)
    ensures e / TIMENEAR == time / TIMENEAR ==> PlaceOf(e, time) == Near(e % TIMENEAR)
  {
  }

  lemma DelayRemains(time: Word, delay: nat)
    requires delay < MAXDELAY
    ensures Remaining((time + delay) % WORD, time) == delay
  {
  }

  /** Everything that is not due comes one tick closer. */
  lemma RemainingNext(pending: seq<Node>, time: Word)
    requires forall n :: n in pending ==> Remaining(n.expire, time) < MAXDELAY && n.expire != time
    ensures forall n :: n in pending ==> Remaining(n.expire, Next(time)) == Remaining(n.expire, time) - 1
  {
  }

  lemma FirstCascade()
    ensures CascadeAt(0) == Move(Level(3, 0))
  {
  }

  lemma NoCascade(ct: Word)
    requires ct % Span(0) != 0
    ensures CascadeAt(ct) == NoMove
  {
  }

  /** The loop of timer_shift stops at the list of CascadeAt. */
  lemma CascadeFound(ct: Word, i: nat)
    requires ct != 0 && i <= 3 && ct % Span(i) == 0
    ensures ct / Span(i) % TIMELEVEL != 0 ==> CascadeAt(ct) == Move(Level(i, ct / Span(i) % TIMELEVEL))
    ensures ct / Span(i) % TIMELEVEL == 0 ==> i < 3 && ct % Span(i + 1) == 0
    ensures i < 3 ==> ct / Span(i + 1) == ct / Span(i) / TIMELEVEL
  {
    Nested(ct);
    match i
    case 0 =>
    case 1 =>
    case 2 =>
    case 3 =>
  }
}

/** The handle table, from skynet/skynet-src/skynet_handle.c: a hash table whose size is a power
    of two and in which every context sits in the slot given by the low bits of its handle.
    Masking with size - 1 is written as a remainder. New handles are counted up to the mask and
    then from 1 again; 0 is never given out. */
module SchedulerHandles {
  const DEFAULT_SLOT_BITS := 2
  const DEFAULT_SLOT_SIZE := 4
  const HANDLE_BITS := 24
  const HANDLE_MASK := 0xffffff

  datatype Slot = Free | Taken(handle: nat, context: nat)

  datatype Lookup = Missing | Found(context: nat)

  function Pow2(bits: nat): (r: nat)
    ensures r > 0
  {
    if bits == 0 then 1 else 2 * Pow2(bits - 1)
  }

  lemma Doubles(bits: nat)
    ensures Pow2(bits + 1) == 2 * Pow2(bits)
  {
  }

  /** A smaller power of two divides a larger one, so remainders nest. */
  lemma {:induction false} Nested(h: nat, small: nat, large: nat)
    requires small <= large
    ensures h % Pow2(large) % Pow2(small) == h % Pow2(small)
    ensures Pow2(large) % Pow2(small) == 0
    decreases large
  {
    if small < large {
      Nested(h, small, large - 1);
      Doubles(large - 1);
      hide Pow2;
      Halves(h, Pow2(large - 1), Pow2(small));
    } else {
      hide Pow2;
      Unique(h % Pow2(small), Pow2(small), 0, h % Pow2(small));
      Unique(Pow2(small), Pow2(small), 1, 0);
    }
  }

  lemma Halves(h: nat, n: nat, d: nat)
    requires n > 0 && d > 0 && n % d == 0
    ensures h % (2 * n) % d == h % n % d
    ensures 2 * n % d == 0
  {
    Twice(h, n, 2 * n);
    AddMultiple(h % n, n, d);
    AddMultiple(n, n, d);
  }

  lemma AddMultiple(x: nat, n: nat, d: nat)
    requires d > 0 && n % d == 0
    ensures (n + x) % d == x % d
  {
    var (a, b) := (n / d, x / d);
    assert n == d * a && x == d * b + x % d;
    assert d * (a + b) == d * a + d * b;
    Unique(n + x, d, a + b, x % d);
  }

  lemma Twice(h: nat, n: nat, m: nat)
    requires n > 0 && m == 2 * n
    ensures h % m % n == h % n
    ensures h % m == h % n || h % m == h % n + n
  {
    Divided(h, m);
    TwiceOf(h, n, m, h / m, h % m);
  }

  lemma Divided(h: nat, m: nat)
    requires m > 0
    ensures h == m * (h / m) + h % m && h / m >= 0
  {
  }

  lemma TwiceOf(h: nat, n: nat, m: nat, q: nat, r: nat)
    requires m == 2 * n && h == m * q + r && r < m
    ensures r % n == h % n
    ensures r == h % n || r == h % n + n
  {
    assert m * q == n * (2 * q);
    if r < n {
      Unique(h, n, 2 * q, r);
      Unique(r, n, 0, r);
    } else {
      assert n * (2 * q + 1) == n * (2 * q) + n;
      Unique(h, n, 2 * q + 1, r - n);
      Unique(r, n, 1, r - n);
    }
  }

  lemma Unique(h: nat, n: nat, q: nat, r: nat)
    requires r < n && h == n * q + r
    ensures h % n == r
  {
    Between(n, q - h / n, r, h % n);
  }

  lemma Between(n: nat, d: int, r: nat, b: nat)
    requires r < n && b < n && n * d == b - r
    ensures r == b
  {
    if d > 0 {
      Scale(n, 1, d);
    } else if d < 0 {
      Scale(n, d, -1);
    }
  }

  lemma Scale(n: nat, a: int, b: int)
    requires a <= b
    ensures n * a <= n * b
  {
    assert n * (b - a) >= 0;
  }

  /** The harbor is a multiple of every table size, so it does not change the slot. */
  lemma SlotOf(harbor: nat, h: nat, bits: nat)
    requires bits <= HANDLE_BITS && harbor % Pow2(HANDLE_BITS) == 0
    ensures SlotIn(harbor + h, Pow2(bits)) == SlotIn(h, Pow2(bits))
  {
    hide Pow2;
    Nested(harbor, bits, HANDLE_BITS);
    AddMultiple(h, harbor, Pow2(bits));
  }

  lemma {:induction false} Pow2Order(a: nat, b: nat)
    requires Pow2(a) < Pow2(b)
    ensures a < b
  {
    if a > 0 && b > 0 {
      Pow2Order(a - 1, b - 1);
    }
  }

  /** Consecutive numbers, as many as there are slots, meet every slot. */
  lemma Meets(start: nat, n: nat, k: nat) returns (j: nat)
    requires k < n
    ensures j < n && SlotIn(start + j, n) == k
  {
    var (q, r) := (start / n, start % n);
    assert start == n * q + r;
    if r <= k {
      j := k - r;
      Unique(start + j, n, q, k);
    } else {
      j := k + n - r;
      assert n * (q + 1) == n * q + n;
      Unique(start + j, n, q + 1, k);
    }
  }

  lemma MaskBits()
    ensures Pow2(HANDLE_BITS) == HANDLE_MASK + 1
  {
    assert Pow2(8) == 256;
    assert Pow2(16) == 65536;
  }

  /** Where a handle goes in a table of a given size. */
  function SlotIn(h: nat, size: nat): (k: nat)
    requires size > 0
    ensures k < size
  {
    h % size
  }

  lemma SplitSlot(h: nat, n: nat)
    requires n > 0
    ensures SlotIn(SlotIn(h, 2 * n), n) == SlotIn(h, n)
  {
    Twice(h, n, 2 * n);
  }

  lemma Small(k: nat, n: nat)
    requires k < n
    ensures SlotIn(k, n) == k
  {
    Unique(k, n, 0, k);
  }

  lemma Second(n: nat)
    requires n > 1
    ensures SlotIn(1, n) == SlotIn(n + 1, n) == 1
  {
    Unique(1, n, 0, 1);
    Unique(n + 1, n, 1, 1);
  }

  /** The i-th number tried after a counter: past the mask it goes on at 1. */
  function Probe(index: nat, i: nat): nat {
    var h := index + i;
    if h <= HANDLE_MASK then h else if h <= 2 * HANDLE_MASK then h - HANDLE_MASK else h - 2 * HANDLE_MASK
  }

  /** The numbers tried pass over slot 0: they leave 0 out when they start again at 1, and the
      largest table has no other number for it. */
  predicate MissesZero(index: nat, size: nat) {
    index + size > HANDLE_MASK + 1 && (index <= HANDLE_MASK || size > HANDLE_MASK)
  }

  /** As many numbers as there are slots meet every slot but, in the case above, slot 0. */
  lemma ProbeMeets(index: nat, bits: nat, k: nat) returns (j: nat)
    requires 0 < index <= HANDLE_MASK + 1 && bits <= HANDLE_BITS && k < Pow2(bits)
    requires k > 0 || !MissesZero(index, Pow2(bits))
    ensures j < Pow2(bits) && SlotIn(Probe(index, j), Pow2(bits)) == k
  {
    var n := Pow2(bits);
    BelowMask(bits);
    hide Pow2;
    if index + n <= HANDLE_MASK + 1 {
      j := Meets(index, n, k);
    } else if k == 0 {
      j := n - 1;
      Unique(n, n, 1, 0);
    } else if index + n <= HANDLE_MASK + 1 + k {
      j := HANDLE_MASK + 1 - n + k - index;
      Small(k, n);
      AddMultiple(k, HANDLE_MASK + 1 - n, n);
    } else {
      j := k + HANDLE_MASK - index;
      Small(k, n);
    }
  }

  lemma ProbeMisses(index: nat, bits: nat, j: nat)
    requires 0 < index <= HANDLE_MASK + 1 && bits <= HANDLE_BITS && j < Pow2(bits) && MissesZero(index, Pow2(bits))
    ensures SlotIn(Probe(index, j), Pow2(bits)) != 0
  {
    var (n, h) := (Pow2(bits), Probe(index, j));
    BelowMask(bits);
    hide Pow2;
    if h < n {
      Small(h, n);
    } else {
      var k := h - (HANDLE_MASK + 1 - n);
      Small(k, n);
      AddMultiple(k, HANDLE_MASK + 1 - n, n);
    }
  }

  lemma AtLeastTwo(bits: nat)
    requires bits > 0
    ensures Pow2(bits) > 1
  {
  }

  lemma CanGrow(bits: nat)
    requires bits <= HANDLE_BITS && 2 * Pow2(bits) - 1 <= HANDLE_MASK
    ensures bits < HANDLE_BITS
  {
    MaskBits();
  }

  lemma Largest(bits: nat)
    requires bits <= HANDLE_BITS && 2 * Pow2(bits) - 1 > HANDLE_MASK
    ensures Pow2(bits) == HANDLE_MASK + 1
  {
    MaskBits();
    if bits < HANDLE_BITS {
      BelowMask(bits + 1);
    }
  }

  /** Every table is at most as large as the range of handles, which it divides. */
  lemma BelowMask(bits: nat)
    requires bits <= HANDLE_BITS
    ensures Pow2(bits) <= HANDLE_MASK + 1 && (HANDLE_MASK + 1 - Pow2(bits)) % Pow2(bits) == 0
  {
    MaskBits();
    Nested(0, bits, HANDLE_BITS);
    hide Pow2;
    if Pow2(bits) > HANDLE_MASK + 1 {
      Pow2Order(HANDLE_BITS, bits);
    }
    LessOne(HANDLE_MASK + 1, Pow2(bits));
  }

  lemma LessOne(m: nat, n: nat)
    requires 0 < n <= m && m % n == 0
    ensures (m - n) % n == 0
  {
    Divided(m, n);
    LessOneOf(m, n, m / n);
  }

  lemma LessOneOf(m: nat, n: nat, q: nat)
    requires 0 < n <= m == n * q
    ensures (m - n) % n == 0
  {
    assert q > 0 && n * (q - 1) == n * q - n;
    Unique(m - n, n, q - 1, 0);
  }

  /** In the larger table every context sits in its slot, and so do those of the first i slots. */
  predicate Spread(larger: seq<Slot>, slots: seq<Slot>, i: nat) {
    var n := |slots|;
    && |larger| == 2 * n && i <= n && n > 0
    && (forall k :: 0 <= k < 2 * n && larger[k].Taken? ==>
          SlotIn(larger[k].handle, 2 * n) == k && SlotIn(larger[k].handle, n) < i
          && larger[k] == slots[SlotIn(larger[k].handle, n)])
    && (forall k :: 0 <= k < i ==> slots[k].Taken? && larger[SlotIn(slots[k].handle, 2 * n)] == slots[k])
  }

  /** Every slot is taken by a context that belongs there. */
  predicate Settled(slots: seq<Slot>) {
    slots != [] && forall k :: 0 <= k < |slots| ==> slots[k].Taken? && SlotIn(slots[k].handle, |slots|) == k
  }

  lemma NothingSpread(larger: seq<Slot>, slots: seq<Slot>)
    requires |larger| == 2 * |slots| > 0 && forall k :: 0 <= k < |larger| ==> larger[k].Free?
    ensures Spread(larger, slots, 0)
  {
  }

  lemma AllSettled(slots: seq<Slot>)
    requires slots != []
    requires forall k :: 0 <= k < |slots| ==> slots[k].Taken? && SlotIn(slots[k].handle, |slots|) == k
    ensures Settled(slots)
  {
  }

  /** No two contexts meet in the larger table. */
  lemma SpreadOne(larger: seq<Slot>, slots: seq<Slot>, i: nat)
    requires Spread(larger, slots, i) && Settled(slots) && i < |slots|
    ensures slots[i].Taken?
    ensures var hash := SlotIn(slots[i].handle, 2 * |slots|);
      larger[hash].Free? && Spread(larger[hash := slots[i]], slots, i + 1)
  {
    hide SlotIn;
    var n := |slots|;
    var hash := SlotIn(slots[i].handle, 2 * n);
    SplitSlot(slots[i].handle, n);
    if larger[hash].Taken? {
      SplitSlot(larger[hash].handle, n);
    }
  }

  lemma SpreadRoom(larger: seq<Slot>, slots: seq<Slot>)
    requires Spread(larger, slots, |slots|) && |slots| > 1
    ensures larger[1].Free? || larger[|slots| + 1].Free?
  {
    hide SlotIn;
    var n := |slots|;
    if larger[1].Taken? && larger[n + 1].Taken? {
      SplitSlot(larger[1].handle, n);
      SplitSlot(larger[n + 1].handle, n);
      Second(n);
    }
  }

  lemma SpreadTable(larger: seq<Slot>, slots: seq<Slot>, table: map<nat, nat>)
    requires Spread(larger, slots, |slots|)
    requires forall h <- table :: slots[SlotIn(h, |slots|)] == Taken(h, table[h])
    requires forall i :: 0 <= i < |slots| && slots[i].Taken? ==>
               slots[i].handle in table && table[slots[i].handle] == slots[i].context
    ensures forall h <- table :: larger[SlotIn(h, 2 * |slots|)] == Taken(h, table[h])
    ensures forall i :: 0 <= i < 2 * |slots| && larger[i].Taken? ==>
              larger[i].handle in table && table[larger[i].handle] == larger[i].context
              && SlotIn(larger[i].handle, 2 * |slots|) == i
  {
    hide SlotIn;
    forall h | h in table ensures larger[SlotIn(h, 2 * |slots|)] == Taken(h, table[h]) {
      var k := SlotIn(h, |slots|);
      assert larger[SlotIn(slots[k].handle, 2 * |slots|)] == slots[k];
    }
  }

  predicate OtherThan(slot: Slot, handle: nat) { slot.Taken? && slot.handle != handle }

  class HandleStorage {
    const harbor: nat
    var index: nat
    var size: nat
    var slots: array<Slot>
    ghost var bits: nat
    /** The registered contexts by handle. */
    ghost var table: map<nat, nat>

    ghost predicate Valid()
      reads this, slots
    {
      && size == slots.Length == Pow2(bits) && DEFAULT_SLOT_BITS <= bits <= HANDLE_BITS
      && harbor % Pow2(HANDLE_BITS) == 0 && 0 < index <= HANDLE_MASK + 1
      && (forall i :: 0 <= i < size && slots[i].Taken? ==>
            slots[i].handle in table && table[slots[i].handle] == slots[i].context && SlotIn(slots[i].handle, size) == i)
      && (forall h <- table :: harbor < h <= harbor + HANDLE_MASK && slots[SlotIn(h, size)] == Taken(h, table[h]))
    }

    /** Nothing can be registered: every slot but the first is taken, and that one is not tried. */
    predicate Stuck()
      reads this, slots
    {
      && size == slots.Length > 0 && slots[0].Free? && (forall i :: 0 < i < size ==> slots[i].Taken?)
      && MissesZero(index, size)
    }

    predicate Full()
      reads this, slots
    {
      size == slots.Length && forall i :: 0 <= i < size ==> slots[i].Taken?
    }

    /** The slots of the first j numbers tried are taken. */
    predicate AllTaken(j: nat)
      reads this, slots
    {
      size == slots.Length > 0 && forall i :: 0 <= i < j ==> slots[SlotIn(Probe(index, i), size)].Taken?
    }

    /** A handle is the first number tried whose slot is not taken by another context. */
    ghost predicate FirstFree(start: nat, handle: nat)
      reads this, slots
    {
      && size == slots.Length > 0
      && exists j :: 0 <= j < size && handle == harbor + Probe(start, j) && TakenByOthers(start, j, handle)
    }

    predicate TakenByOthers(start: nat, j: nat, handle: nat)
      reads this, slots
    {
      && size == slots.Length > 0
      && forall i :: 0 <= i < j ==> OtherThan(slots[SlotIn(Probe(start, i), size)], handle)
    }

    constructor (harborId: nat)
      ensures Valid() && fresh(slots) && table == map[] && index == 1 && harbor == harborId * Pow2(HANDLE_BITS)
      ensures size == DEFAULT_SLOT_SIZE && forall i :: 0 <= i < size ==> slots[i].Free?
    {
      harbor := harborId * Pow2(HANDLE_BITS);
      index, size, bits, table := 1, DEFAULT_SLOT_SIZE, DEFAULT_SLOT_BITS, map[];
      slots := new Slot[DEFAULT_SLOT_SIZE](_ => Free);
      new;
      assert Pow2(DEFAULT_SLOT_BITS) == DEFAULT_SLOT_SIZE;
      Unique(harborId * Pow2(HANDLE_BITS), Pow2(HANDLE_BITS), harborId, 0);
    }

    /** Finds the context that a handle names, and no other. */
    method Grab(handle: nat) returns (r: Lookup)
      requires Valid()
      ensures r == if handle in table then Found(table[handle]) else Missing
    {
      var hash := SlotIn(handle, size);
      if slots[hash].Taken? && slots[hash].handle == handle {
        return Found(slots[hash].context);
      }
      return Missing;
    }

    method Retire(handle: nat) returns (r: Lookup)
      requires Valid()
      modifies this`table, slots
      ensures Valid() && index == old(index)
      ensures r == if handle in old(table) then Found(old(table)[handle]) else Missing
      ensures table == old(table) - {handle}
    {
      var hash := SlotIn(handle, size);
      if slots[hash].Taken? && slots[hash].handle == handle {
        r := Found(slots[hash].context);
        slots[hash] := Free;
        table := table - {handle};
      } else {
        r := Missing;
      }
    }

    /** Looks for a free slot among the numbers that follow; it misses one only at slot 0. */
    method Scan() returns (found: bool, handle: nat)
      requires Valid()
      ensures found ==> 0 < handle <= HANDLE_MASK && slots[SlotIn(handle, size)].Free?
      ensures found ==> exists j :: 0 <= j < size && handle == Probe(index, j) && AllTaken(j)
      ensures !found ==> forall i :: 0 < i < size ==> slots[i].Taken?
      ensures !found && slots[0].Free? ==> MissesZero(index, size)
    {
      handle := index;
      BelowMask(bits);
      hide Pow2, SlotIn, MissesZero;
      for i := 0 to size
        invariant Probe(index, i) == if handle > HANDLE_MASK then 1 else handle
        invariant AllTaken(i)
      {
        if handle > HANDLE_MASK {
          handle := 1;
        }
        if slots[SlotIn(handle, size)].Free? {
          return true, handle;
        }
        handle := handle + 1;
      }
      AllTried();
      return false, handle;
    }

    /** When every number is tried in vain, every slot but perhaps slot 0 is taken. */
    lemma AllTried()
      requires Valid() && AllTaken(size)
      ensures forall k :: 0 <= k < size && (k > 0 || !MissesZero(index, size)) ==> slots[k].Taken?
    {
      hide Pow2, SlotIn, MissesZero;
      forall k | 0 <= k < size && (k > 0 || !MissesZero(index, size)) ensures slots[k].Taken? {
        var j := ProbeMeets(index, bits, k);
        assert slots[SlotIn(Probe(index, j), size)].Taken?;
      }
    }

    /** Doubles a full table. No two contexts meet in a slot, and there is room afterwards. */
    method Grow()
      requires Valid() && bits < HANDLE_BITS
      requires forall i :: 0 <= i < size ==> slots[i].Taken?
      modifies this
      ensures Valid() && fresh(slots) && size == 2 * old(size)
      ensures table == old(table) && index == old(index)
      ensures exists i :: 0 < i < size && slots[i].Free?
    {
      AtLeastTwo(bits);
      hide Pow2, SlotIn, Spread, Settled;
      var n := size;
      var larger := new Slot[2 * n](_ => Free);
      assert Spread(larger[..], slots[..], 0) by { NothingSpread(larger[..], slots[..]); }
      assert Settled(slots[..]) by { AllSettled(slots[..]); }
      for i := 0 to n
        invariant unchanged(this) && unchanged(slots)
        invariant Spread(larger[..], slots[..], i)
      {
        var hash := SlotIn(slots[i].handle, 2 * n);
        SpreadOne(larger[..], slots[..], i);
        assert larger[hash].Free?;
        ghost var was := larger[..];
        larger[hash] := slots[i];
        assert larger[..] == was[hash := slots[i]];
      }
      SpreadRoom(larger[..], slots[..]);
      GrowTable(larger);
    }

    method GrowTable(larger: array<Slot>)
      requires Valid() && bits < HANDLE_BITS && larger.Length == 2 * size && larger != slots
      requires Spread(larger[..], slots[..], size)
      modifies this`slots, this`size, this`bits
      ensures Valid() && slots == larger && size == 2 * old(size)
    {
      hide Pow2, SlotIn;
      SpreadTable(larger[..], slots[..], table);
      Doubles(bits);
      slots := larger;
      size := size * 2;
      bits := bits + 1;
    }

    /** Registers a context under a number that names no other; nothing else changes. It fails, at
        the assertion on the size or at the free slot 0 when the table is copied, exactly when it
        is stuck. */
    method Register(context: nat) returns (ok: bool, handle: nat)
      requires Valid()
      modifies this, slots
      ensures Valid() && (slots == old(slots) || fresh(slots))
      ensures ok <==> !old(Stuck())
      ensures !ok ==> table == old(table) && index == old(index)
      ensures ok ==> handle !in old(table) && table == old(table)[handle := context] && handle == harbor + index - 1
      ensures ok ==> FirstFree(old(index), handle)
      ensures !ok || !old(Full()) ==> slots == old(slots) && size == old(size)
    {
      hide Pow2, SlotIn, MissesZero, Probe;
      var found, h := Scan();
      if found {
        FoundNotStuck(h);
      } else {
        if 2 * size - 1 > HANDLE_MASK || slots[0].Free? {
          if 2 * size - 1 > HANDLE_MASK {
            LargestIsStuck();
          }
          return false, 0;
        }
        CanGrow(bits);
        Grow();
        found, h := Scan();
      }
      handle := PlaceFirst(h, context);
      return true, handle;
    }

    method PlaceFirst(h: nat, context: nat) returns (handle: nat)
      requires Valid() && 0 < h <= HANDLE_MASK && slots[SlotIn(h, size)].Free?
      requires exists j :: 0 <= j < size && h == Probe(index, j) && AllTaken(j)
      modifies this`index, this`table, slots
      ensures Valid() && handle == harbor + h && index == h + 1
      ensures handle !in old(table) && table == old(table)[handle := context]
      ensures FirstFree(old(index), handle)
    {
      hide Pow2, SlotIn, Probe;
      ghost var j: nat :| j < size && h == Probe(index, j) && AllTaken(j);
      ghost var (start, before) := (index, slots[..]);
      AllValid();
      handle := Place(h, context);
      forall i | 0 <= i < j ensures OtherThan(slots[SlotIn(Probe(start, i), size)], handle) {
        assert before[SlotIn(Probe(start, i), size)].Taken?;
      }
      assert TakenByOthers(start, j, handle);
    }

    lemma AllValid()
      requires Valid()
      ensures forall i :: 0 <= i < size && slots[i].Taken? ==> slots[i].handle in table
    {
    }

    /** Puts a context into the free slot of its number. */
    method Place(h: nat, context: nat) returns (handle: nat)
      requires Valid() && 0 < h <= HANDLE_MASK && slots[SlotIn(h, size)].Free?
      modifies this`index, this`table, slots
      ensures Valid() && handle == harbor + h && index == h + 1
      ensures handle !in old(table) && table == old(table)[handle := context]
      ensures slots[..] == old(slots[..])[SlotIn(h, size) := Taken(handle, context)]
    {
      hide Pow2, SlotIn;
      SlotOf(harbor, h, bits);
      slots[SlotIn(h, size)] := Taken(harbor + h, context);
      index := h + 1;
      handle := harbor + h;
      table := table[handle := context];
    }

    lemma FoundNotStuck(h: nat)
      requires Valid() && slots[SlotIn(h, size)].Free?
      requires exists j :: 0 <= j < size && h == Probe(index, j) && AllTaken(j)
      ensures !Stuck()
    {
      hide Pow2, SlotIn, Probe, MissesZero;
      if Stuck() {
        var j: nat :| j < size && h == Probe(index, j);
        ProbeMisses(index, bits, j);
      }
    }

    /** In the largest table slot 0 stays free. */
    lemma LargestIsStuck()
      requires Valid() && 2 * size - 1 > HANDLE_MASK
      ensures size == HANDLE_MASK + 1 && slots[0].Free?
      ensures MissesZero(index, size)
    {
      hide Pow2, SlotIn;
      Largest(bits);
      if slots[0].Taken? {
        var h := slots[0].handle;
        SlotOf(harbor, h - harbor, bits);
        Small(h - harbor, size);
      }
    }

  }

  // ----- slot 0 is missed -----

  /** Three services stay while a fourth is created and retired again and again: in the end the
      table is stuck with its first slot free. */
  method FirstSlotMissed() returns (s: HandleStorage)
    ensures s.Valid() && s.Stuck() && s.table.Keys == {1, 2, 3} && s.size == 4 && !s.Full()
  {
    s := ThreeServices();
    while s.index + 4 <= HANDLE_MASK + 1
      invariant fresh(s) && fresh(s.slots) && Three(s)
      decreases HANDLE_MASK + 1 - s.index
    {
      OneMore(s);
    }
    ThreeStuck(s);
  }

  ghost predicate Three(s: HandleStorage)
    reads s, s.slots
  {
    s.Valid() && s.table.Keys == {1, 2, 3} && s.size == 4 && s.harbor == 0 && s.index % 4 == 1 && s.index <= HANDLE_MASK
  }

  lemma ThreeSlots(s: HandleStorage)
    requires Three(s)
    ensures s.slots[0].Free? && (forall i :: 0 < i < 4 ==> s.slots[i].Taken? && s.slots[i].handle == i)
  {
    hide Pow2;
    forall i | 0 < i < 4 ensures s.slots[i].Taken? && s.slots[i].handle == i {
      assert i in s.table.Keys;
      Small(i, 4);
    }
  }

  lemma ThreeStuck(s: HandleStorage)
    requires Three(s) && s.index + 4 > HANDLE_MASK + 1
    ensures s.Stuck() && !s.Full()
  {
    ThreeSlots(s);
  }

  method OneMore(s: HandleStorage)
    requires Three(s) && s.index + 4 <= HANDLE_MASK + 1
    modifies s, s.slots
    ensures Three(s) && s.slots == old(s.slots) && s.index == old(s.index) + 4
  {
    hide Pow2, Probe;
    ThreeSlots(s);
    ghost var start := s.index;
    var ok, handle := s.Register(0);
    FourthHandle(s, start, handle);
    var r := s.Retire(handle);
  }

  /** With three services in the other slots, the next handle is the one for slot 0. */
  lemma FourthHandle(s: HandleStorage, start: nat, handle: nat)
    requires s.Valid() && s.size == 4 && s.harbor == 0 && s.table.Keys == {1, 2, 3, handle} && handle !in {1, 2, 3}
    requires s.FirstFree(start, handle) && start % 4 == 1 && start + 4 <= HANDLE_MASK + 1
    ensures handle == start + 3
  {
    hide Pow2;
    var j: nat :| j < s.size && handle == s.harbor + Probe(start, j) && s.TakenByOthers(start, j, handle);
    assert 1 in s.table.Keys && 2 in s.table.Keys && 3 in s.table.Keys && handle in s.table.Keys;
    assert SlotIn(1, 4) == 1 && SlotIn(2, 4) == 2 && SlotIn(3, 4) == 3;
    assert handle == start + j;
    assert SlotIn(handle, 4) == (1 + j) % 4;
  }

  method ThreeServices() returns (s: HandleStorage)
    ensures fresh(s) && fresh(s.slots) && Three(s)
  {
    s := NoServices();
    hide *;
    RegisterNext(s, 1);
    RegisterNext(s, 2);
    RegisterNext(s, 3);
    RegisterNext(s, 4);
    RetireFourth(s);
  }

  method NoServices() returns (s: HandleStorage)
    ensures fresh(s) && fresh(s.slots) && Counting(s, 1)
  {
    hide Pow2;
    s := new HandleStorage(0);
  }

  method RetireFourth(s: HandleStorage)
    requires Counting(s, 5)
    modifies s, s.slots
    ensures s.slots == old(s.slots) && Three(s)
  {
    hide Pow2;
    var r := s.Retire(4);
  }

  ghost predicate Counting(s: HandleStorage, n: nat)
    reads s, s.slots
  {
    s.Valid() && s.harbor == 0 && s.size == 4 && s.index == n && forall k :: k in s.table <==> 1 <= k < n
  }

  method RegisterNext(s: HandleStorage, n: nat)
    requires Counting(s, n) && 1 <= n <= 4
    modifies s, s.slots
    ensures Counting(s, n + 1) && s.slots == old(s.slots)
  {
    hide Pow2;
    CountingRoom(s, n);
    var ok, handle := s.Register(0);
    NextHandle(s, n, handle);
  }

  lemma CountingRoom(s: HandleStorage, n: nat)
    requires Counting(s, n) && 1 <= n <= 4
    ensures !s.Stuck() && !s.Full()
  {
    hide Pow2;
  }

  lemma NextHandle(s: HandleStorage, n: nat, handle: nat)
    requires s.Valid() && s.harbor == 0 && s.size == 4 && 1 <= n <= 4 && s.FirstFree(n, handle)
    requires forall k :: k in s.table <==> 1 <= k < n || k == handle
    ensures handle == n
  {
    hide Pow2;
    var j: nat :| j < s.size && handle == s.harbor + Probe(n, j) && s.TakenByOthers(n, j, handle);
    assert Probe(n, 0) == n;
  }
}

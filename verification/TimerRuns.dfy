/** Whole runs of the timing wheel. The locked sections of skynet/skynet-src/skynet_timer.c
    (adding a timer, taking out the current list, moving on by a tick) happen in the order of
    timer_update, with timers added at any point between them. Ticks are counted here without
    wrapping; the wheel is proved to do the same with 32-bit words. */
module TimerRuns {
  import opened TimerWheel

  datatype Action = Add(event: Event, delay: nat) | Begin | Take | Tick | End

  /** Between two updates, or in the first or the second loop of one. */
  datatype Phase = Idle | Early | Late

  /** A timer, with the tick it is due at. */
  type Item = Timed<nat>

  /** A dispatched timer, with the tick and the loop it was dispatched in. */
  datatype Fired = Fired(tick: nat, phase: Phase, item: Item)

  /** All timers added, those waiting, and those dispatched, each in order. */
  datatype World = World(phase: Phase, ticks: nat, added: seq<Item>, waiting: seq<Item>, log: seq<Fired>)

  const START: World := World(Idle, 0, [], [], [])

  function Dispatch(items: seq<Item>, w: World): seq<Fired> {
    seq(|items|, i requires 0 <= i < |items| => Fired(w.ticks, w.phase, items[i]))
  }

  function Items(log: seq<Fired>): seq<Item> {
    seq(|log|, i requires 0 <= i < |log| => log[i].item)
  }

  /** What an action needs: each loop goes on as long as something is due. */
  predicate Enabled(w: World, a: Action) {
    match a
    case Add(_, delay) => delay < MAXDELAY
    case Begin => w.phase == Idle
    case Take => w.phase != Idle && Only(w.waiting, w.ticks) != []
    case Tick => w.phase == Early && Only(w.waiting, w.ticks) == []
    case End => w.phase == Late && Only(w.waiting, w.ticks) == []
  }

  function Act(w: World, a: Action): World {
    match a
    case Add(event, delay) =>
      var item := Timed(w.ticks + delay, event);
      w.(added := w.added + [item], waiting := w.waiting + [item])
    case Begin => w.(phase := Early)
    case Take =>
      w.(waiting := Except(w.waiting, w.ticks), log := w.log + Dispatch(Only(w.waiting, w.ticks), w))
    case Tick => w.(phase := Late, ticks := w.ticks + 1)
    case End => w.(phase := Idle)
  }

  /** A run, as the sequence of its actions. */
  predicate Legal(run: seq<Action>) {
    run == [] || (Legal(run[..|run| - 1]) && Enabled(After(run[..|run| - 1]), run[|run| - 1]))
  }

  function After(run: seq<Action>): World {
    if run == [] then START else Act(After(run[..|run| - 1]), run[|run| - 1])
  }

  // ----- what holds in every run -----

  /** Nothing waits longer than it should, everything fired at its tick, and for every tick the
      timers due then are, in the order of adding, those fired followed by those waiting. */
  ghost predicate Exact(w: World) {
    && (forall x :: x in w.waiting ==> w.ticks <= x.expire < w.ticks + MAXDELAY)
    && (forall f :: f in w.log ==> f.tick == f.item.expire <= w.ticks)
    && (forall e: nat {:trigger Only(w.added, e)} ::
          Only(Items(w.log), e) + Only(w.waiting, e) == Only(w.added, e))
  }

  lemma ItemsConcat(a: seq<Fired>, items: seq<Item>, w: World)
    ensures Items(a + Dispatch(items, w)) == Items(a) + items
  {
  }

  lemma ExactStep(w: World, a: Action)
    requires Exact(w) && Enabled(w, a)
    ensures Exact(Act(w, a))
  {
    hide Only, Except;
    var w' := Act(w, a);
    match a
    case Add(event, delay) =>
      var item := Timed(w.ticks + delay, event);
      forall e: nat ensures Only(Items(w'.log), e) + Only(w'.waiting, e) == Only(w'.added, e) {
        assert Only(Items(w.log), e) + Only(w.waiting, e) == Only(w.added, e);
        OnlyAppend(w.waiting, item, e);
        OnlyAppend(w.added, item, e);
      }
    case Take => TakeStep(w);
    case Tick => OnlyNone(w.waiting, w.ticks);
    case _ =>
  }

  lemma TakeStep(w: World)
    requires Exact(w)
    ensures Exact(Act(w, Take))
  {
    hide Only, Except;
    var w' := Act(w, Take);
    var due := Only(w.waiting, w.ticks);
    OnlyMembers(w.waiting, w.ticks);
    ExceptMembers(w.waiting, w.ticks);
    ItemsConcat(w.log, due, w);
    assert forall f :: f in Dispatch(due, w) ==> f.tick == w.ticks && f.item in due;
    forall e: nat ensures Only(Items(w'.log), e) + Only(w'.waiting, e) == Only(w'.added, e) {
      assert Only(Items(w.log), e) + Only(w.waiting, e) == Only(w.added, e);
      OnlyConcat(Items(w.log), due, e);
      OnlyTwice(w.waiting, w.ticks, e);
      OnlyExcept(w.waiting, w.ticks, e);
      assert Only(due, e) == [] || Only(Except(w.waiting, w.ticks), e) == [];
    }
  }

  /** Every reachable state is exact. */
  lemma {:induction false} RunsExact(run: seq<Action>)
    requires Legal(run)
    ensures Exact(After(run))
  {
    hide Only, Except;
    if run == [] {
      NothingDue();
    } else {
      RunsExact(run[..|run| - 1]);
      ExactStep(After(run[..|run| - 1]), run[|run| - 1]);
    }
  }

  lemma NothingDue()
    ensures Exact(START)
  {
    assert Items([]) == [];
  }

  /** Timer exactness: once a tick is over, what was fired among the timers due at that tick is
      exactly what was added for it, each once, in the order of adding. */
  lemma FiredExactlyOnce(run: seq<Action>, e: nat)
    requires Legal(run) && e < After(run).ticks
    ensures Only(Items(After(run).log), e) == Only(After(run).added, e)
  {
    hide After, Legal, Only, Except;
    RunsExact(run);
    var w := After(run);
    assert Only(Items(w.log), e) + Only(w.waiting, e) == Only(w.added, e);
    OnlyNone(w.waiting, e);
  }

  /** Every timer is fired in its tick. */
  lemma FiredInItsTick(run: seq<Action>, i: nat)
    requires Legal(run) && i < |After(run).log|
    ensures After(run).log[i].tick == After(run).log[i].item.expire
  {
    hide After, Legal, Only, Except;
    RunsExact(run);
  }

  // ----- positive delays -----

  /** skynet_timeout adds no timer with a delay that is not positive. */
  predicate Positive(run: seq<Action>) {
    forall i :: 0 <= i < |run| && run[i].Add? ==> run[i].delay > 0
  }

  /** Outside the second loop of an update, nothing that waits is due; all was fired in there. */
  predicate Prompt(w: World) {
    && (w.phase != Late ==> forall x :: x in w.waiting ==> w.ticks < x.expire)
    && (forall f :: f in w.log ==> f.phase == Late)
  }

  lemma PromptStep(w: World, a: Action)
    requires Exact(w) && Prompt(w) && Enabled(w, a) && (a.Add? ==> a.delay > 0)
    ensures Prompt(Act(w, a))
  {
    hide Only, Except;
    OnlyNone(w.waiting, w.ticks);
    var due := Only(w.waiting, w.ticks);
    assert forall f :: f in Dispatch(due, w) ==> f.phase == w.phase;
  }

  lemma {:induction false} RunsPrompt(run: seq<Action>)
    requires Legal(run) && Positive(run)
    ensures Prompt(After(run))
  {
    hide Only, Except;
    if run != [] {
      var before := run[..|run| - 1];
      RunsPrompt(before);
      RunsExact(before);
      PromptStep(After(before), run[|run| - 1]);
    }
  }

  /** Every timer is fired in the update that moves time to its tick: after that tick and before
      the update ends. */
  lemma FiredInItsUpdate(run: seq<Action>, i: nat)
    requires Legal(run) && Positive(run) && i < |After(run).log|
    ensures var f := After(run).log[i]; f.tick == f.item.expire && f.phase == Late
  {
    hide After, Legal, Only, Except;
    RunsExact(run);
    RunsPrompt(run);
  }

  /** Between two updates nothing that waits is due, and all that was due up to the current tick
      has been fired, each once and in order. */
  lemma NoneLeftOver(run: seq<Action>, e: nat)
    requires Legal(run) && Positive(run) && After(run).phase != Late && e <= After(run).ticks
    ensures forall x :: x in After(run).waiting ==> After(run).ticks < x.expire
    ensures Only(Items(After(run).log), e) == Only(After(run).added, e)
  {
    hide After, Legal, Only, Except;
    RunsExact(run);
    RunsPrompt(run);
    var w := After(run);
    assert Only(Items(w.log), e) + Only(w.waiting, e) == Only(w.added, e);
    OnlyNone(w.waiting, e);
  }

  /** Before its tick, no timer is fired. */
  lemma NotFiredEarly(run: seq<Action>, e: nat)
    requires Legal(run) && After(run).ticks < e
    ensures Only(After(run).waiting, e) == Only(After(run).added, e)
    ensures forall f :: f in After(run).log ==> f.item.expire != e
  {
    hide After, Legal, Only, Except;
    RunsExact(run);
    var w := After(run);
    assert Only(Items(w.log), e) + Only(w.waiting, e) == Only(w.added, e);
    OnlyNone(Items(w.log), e);
  }

  // ----- the wheel does the same -----

  function NodeOf(x: Item): Node { Timed(x.expire % WORD, x.event) }

  function Nodes(s: seq<Item>): seq<Node> {
    seq(|s|, i requires 0 <= i < |s| => NodeOf(s[i]))
  }

  lemma {:induction false} SameDue(s: seq<Item>, tick: nat)
    requires forall x :: x in s ==> tick <= x.expire < tick + MAXDELAY
    ensures Only(Nodes(s), tick % WORD) == Nodes(Only(s, tick))
    ensures Except(Nodes(s), tick % WORD) == Nodes(Except(s, tick))
  {
    if s != [] {
      var (v, x) := (s[..|s| - 1], s[|s| - 1]);
      SameDue(v, tick);
      assert Nodes(s) == Nodes(v) + [NodeOf(x)];
      assert Nodes(s)[..|s| - 1] == Nodes(v);
      SameWord(x.expire, tick);
      assert Nodes(Only(v, tick) + [x]) == Nodes(Only(v, tick)) + [NodeOf(x)];
      assert Nodes(Except(v, tick) + [x]) == Nodes(Except(v, tick)) + [NodeOf(x)];
    }
  }

  lemma SameWord(a: nat, b: nat)
    requires b <= a < b + WORD
    ensures a % WORD == b % WORD <==> a == b
  {
  }

  /** The wheel stands for the world. */
  ghost predicate Shows(wheel: Timer, w: World)
    reads wheel, wheel.near, wheel.t
  {
    wheel.Valid() && wheel.time == w.ticks % WORD && wheel.pending == Nodes(w.waiting)
  }

  /** One action, done by the wheel. */
  method Perform(wheel: Timer, a: Action, ghost w: World) returns (due: seq<Node>)
    requires Shows(wheel, w) && Exact(w) && Enabled(w, a)
    modifies wheel, wheel.near, wheel.t
    ensures wheel.near == old(wheel.near) && wheel.t == old(wheel.t)
    ensures Shows(wheel, Act(w, a))
    ensures due == if a.Take? then Nodes(Only(w.waiting, w.ticks)) else []
  {
    hide Only, Except, Only, Except;
    due := [];
    SameDue(w.waiting, w.ticks);
    match a {
      case Add(event, delay) =>
        wheel.Add(event, delay);
        SumWord(w.ticks, delay);
        assert Nodes(w.waiting + [Timed(w.ticks + delay, event)])
            == Nodes(w.waiting) + [NodeOf(Timed(w.ticks + delay, event))];
      case Take => due := wheel.TakeDue();
      case Tick =>
        assert Nodes([]) == [];
        wheel.Shift();
        NextWord(w.ticks);
      case _ =>
    }
  }

  lemma SumWord(a: nat, b: nat)
    ensures (a % WORD + b) % WORD == (a + b) % WORD
  {
  }

  lemma NextWord(a: nat)
    ensures Next(a % WORD) == (a + 1) % WORD
  {
  }

  /** Running the wheel: it dispatches what the world dispatches, in the same order. */
  method Execute(run: seq<Action>) returns (fired: seq<Node>)
    requires Legal(run)
    ensures fired == Nodes(Items(After(run).log))
  {
    hide Only, Except, Legal, Exact, Enabled;
    var wheel := new Timer();
    fired := [];
    ghost var w := START;
    assert run[..0] == [] && Items([]) == [];
    EmptyRun();
    for i := 0 to |run|
      invariant fresh(wheel) && fresh(wheel.near) && fresh(wheel.t)
      invariant w == After(run[..i]) && Legal(run[..i]) && Shows(wheel, w)
      invariant fired == Nodes(Items(w.log))
    {
      OneMore(run, i);
      RunsExact(run[..i]);
      var due := Perform(wheel, run[i], w);
      if run[i].Take? {
        ItemsConcat(w.log, Only(w.waiting, w.ticks), w);
        NodesConcat(Items(w.log), Only(w.waiting, w.ticks));
      }
      fired := fired + due;
      w := Act(w, run[i]);
    }
    assert run[..|run|] == run;
  }

  lemma EmptyRun()
    ensures Legal([]) && After([]) == START
  {
  }

  lemma OneMore(run: seq<Action>, i: nat)
    requires Legal(run) && i < |run|
    ensures Legal(run[..i]) && Legal(run[..i + 1])
    ensures Enabled(After(run[..i]), run[i]) && After(run[..i + 1]) == Act(After(run[..i]), run[i])
  {
    LegalPrefix(run, i + 1);
    assert run[..i + 1][..i] == run[..i];
  }

  lemma NodesConcat(a: seq<Item>, b: seq<Item>)
    ensures Nodes(a + b) == Nodes(a) + Nodes(b)
  {
  }

  lemma {:induction false} LegalPrefix(run: seq<Action>, i: nat)
    requires Legal(run) && i <= |run|
    ensures Legal(run[..i])
    decreases |run|
  {
    if i < |run| {
      LegalPrefix(run[..|run| - 1], i);
      assert run[..|run| - 1][..i] == run[..i];
    } else {
      assert run[..i] == run;
    }
  }
}

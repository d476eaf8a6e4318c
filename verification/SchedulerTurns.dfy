/** How many messages a worker dispatches for one service before it turns to the next. */
module SchedulerTurns {
  import opened SchedulerQueue
  import opened Scheduler
  import opened SchedulerSafety
  import opened SchedulerRuns
  import opened SchedulerTheorems
  import opened SchedulerReplies
  import opened SchedulerHandles

  /** The thread is dispatching messages of q. */
  predicate InTurn(t: Thread, q: nat) {
    (t.Serving? || t.Measuring? || t.Working?) && t.q == q
  }

  /** How many messages it has dispatched since it took the queue. */
  function DoneBy(t: Thread): nat {
    match t
    case Serving(_, k, _) => k
    case Measuring(_, _) => 1
    case Working(_, k, _, _) => k + 1
    case _ => 0
  }

  function TurnOf(t: Thread): nat {
    match t case Serving(_, _, n) => n case Working(_, _, n, _) => n case _ => 1
  }

  /** The turn of thread i with q begins at a, and it goes on up to b. */
  ghost predicate Turn(run: seq<World>, a: nat, b: nat, i: nat, q: nat) {
    && Run(run) && a <= b < |run| && i < |run[a].threads| && run[a].threads[i] == Serving(q, 0, 1)
    && forall k :: a <= k <= b ==> i < |run[k].threads| && InTurn(run[k].threads[i], q)
  }

  /** The turn is measured at k: the length of the queue is halved as often as the weight says. */
  ghost predicate MeasuredAt(run: seq<World>, k: nat, i: nat, q: nat, n: nat, weight: nat) {
    && k < |run| && i < |run[k].threads| && run[k].threads[i].Measuring? && run[k].threads[i].q == q
    && n == Halved(|Get(run[k], q).mail.messages|, weight)
  }

  /** What a step of another thread leaves of the messages that thread i dispatches. */
  lemma OthersLeave(w: World, i: nat, j: nat, c: Choice, q: nat)
    requires Inv(w) && i < |w.threads| && j < |w.threads| && i != j && InTurn(w.threads[i], q)
    ensures Known(w, q) && Known(Act(w, j, c), q) && Act(w, j, c).services[q].handled == w.services[q].handled
  {
    ThreadUses(w, i);
    ThreadUses(w, j);
    NextNew(w);
    OneHolder(w, i, j, q);
    HoldsTurn(w.threads[i], q);
    hide Inv;
    NotMine(w, j, c, q);
  }

  lemma HoldsTurn(t: Thread, q: nat)
    requires InTurn(t, q)
    ensures Weight(t, q).tokens > 0
  {
  }

  /** A thread that does not hold a queue takes nothing from it. */
  lemma NotMine(w: World, j: nat, c: Choice, q: nat)
    requires j < |w.threads| && Weight(w.threads[j], q).tokens == 0 && Known(w, q) && q != w.nextHandle
    ensures Known(Act(w, j, c), q) && Act(w, j, c).services[q].handled == w.services[q].handled
  {
    hide Halved, Begin, Proceed, ServeStep, SendStep, ReleaseStep, MarkStep, ReplyStep;
    match w.threads[j]
    case At(Stop) => NotMineBegin(w, j, c, q);
    case At(next) => NotMineNext(w, j, next, q);
    case Serving(p, k, n) => NotMineServe(w, j, p, k, n, c.Weigh? && c.measure, q);
    case Sending(h, m, next) => NotMineCalls(w, j, h, m, next, q);
    case Releasing(h, next) => NotMineCalls(w, j, h, NO_MESSAGE, next, q);
    case Deleting(h, next) => NotMineCalls(w, j, h, NO_MESSAGE, next, q);
    case Replying(p, m) => NotMineReply(w, j, p, m, q);
    case _ =>
  }

  predicate Untouched(w: World, w': World, q: nat) {
    Known(w, q) && Known(w', q) && w'.services[q].handled == w.services[q].handled
  }

  lemma NotMineBegin(w: World, j: nat, c: Choice, q: nat)
    requires j < |w.threads| && Known(w, q) && q != w.nextHandle
    ensures Untouched(w, Begin(w, j, c), q)
  {
  }

  lemma NotMineNext(w: World, j: nat, next: Next, q: nat)
    requires j < |w.threads| && Known(w, q) && TokenOf(next, q) == 0
    ensures Untouched(w, Proceed(w, j, next), q)
  {
  }

  lemma NotMineServe(w: World, j: nat, p: nat, k: nat, n: nat, measure: bool, q: nat)
    requires j < |w.threads| && Known(w, q) && p != q
    ensures Untouched(w, ServeStep(w, j, p, k, n, measure), q)
  {
  }

  lemma NotMineCalls(w: World, j: nat, h: nat, m: Message, next: Next, q: nat)
    requires j < |w.threads| && Known(w, q)
    ensures Untouched(w, SendStep(w, j, h, m, next), q)
    ensures Untouched(w, ReleaseStep(w, j, h, next), q) && Untouched(w, MarkStep(w, j, h, next), q)
  {
  }

  lemma NotMineReply(w: World, j: nat, p: nat, m: Message, q: nat)
    requires j < |w.threads| && Known(w, q)
    ensures Untouched(w, ReplyStep(w, j, p, m), q)
  {
  }

  predicate Within(t: Thread) {
    (t.Serving? ==> t.i < t.n) && (t.Working? ==> t.i == 0 || t.i < t.n)
  }

  /** One own step within a turn, */
  ghost predicate TurnStep(w: World, w': World, i: nat, q: nat) {
    && i < |w.threads| == |w'.threads| && Known(w, q) && Known(w', q)
    && var (t, t', s, s') := (w.threads[i], w'.threads[i], w.services[q], w'.services[q]);
      && (InTurn(t', q) ==>
            && |s'.handled| == |s.handled| + DoneBy(t') - DoneBy(t)
            && (t.Measuring? ==> t'.Working? && exists weight: nat :: t'.n == Halved(|s.mail.messages|, weight))
            && (!t.Measuring? && !t'.Measuring? ==> TurnOf(t') == TurnOf(t))
            && (t'.Measuring? ==> t.Serving? && t.i == 0)
            && Within(t'))
      && (t'.Ending? ==> t.Working? && t.i + 1 >= t.n && s'.handled == s.handled)
  }

  lemma OwnTurn(w: World, i: nat, c: Choice, q: nat)
    requires Inv(w) && i < |w.threads| && InTurn(w.threads[i], q)
    ensures TurnStep(w, Act(w, i, c), i, q)
  {
    ThreadUses(w, i);
    hide Inv, Begin, Proceed, SendStep, ReleaseStep, MarkStep, ReplyStep, Halved;
    if w.threads[i].Measuring? {
      var weight := if c.Weigh? then c.weight else 0;
      assert Act(w, i, c).threads[i].n == Halved(|w.services[q].mail.messages|, weight);
    }
  }

  /** and one of others, which changes nothing of it. */
  lemma TurnGoesOn(w: World, w': World, i: nat, q: nat)
    requires Inv(w) && Steps(w, w') && i < |w.threads| && InTurn(w.threads[i], q)
    ensures TurnStep(w, w', i, q) || (Untouched(w, w', q) && i < |w'.threads| && w'.threads[i] == w.threads[i])
  {
    hide Inv, Act, TurnStep, Untouched;
    var j: nat, c :| j < |w.threads| && w' == Act(w, j, c);
    if j == i {
      OwnTurn(w, i, c, q);
    } else {
      OnlyOwn(w, j, c);
      OthersLeave(w, i, j, c, q);
      assert Untouched(w, w', q) by { IsUntouched(w, w', q); }
    }
  }

  lemma IsUntouched(w: World, w': World, q: nat)
    requires Known(w, q) && Known(w', q) && w'.services[q].handled == w.services[q].handled
    ensures Untouched(w, w', q)
  {
  }

  /** The count of dispatched messages during a turn, and where its length comes from. */
  lemma {:induction false} TurnSoFar(run: seq<World>, a: nat, b: nat, i: nat, q: nat)
    requires Turn(run, a, b, i, q)
    ensures Known(run[a], q) && Known(run[b], q)
    ensures |run[b].services[q].handled| == |run[a].services[q].handled| + DoneBy(run[b].threads[i])
    ensures TurnLengthIs(run, a, b, i, q)
    decreases b
  {
    hide Run, Inv, Steps, TurnStep, Untouched, TurnLengthIs;
    RunKeeps(run, b);
    ThreadUses(run[b], i);
    if a == b {
      TurnBegins(run, a, i, q);
    } else {
      TurnSoFar(run, a, b - 1, i, q);
      RunKeeps(run, b - 1);
      RunSteps(run, b);
      TurnGoesOn(run[b - 1], run[b], i, q);
      CountOn(run[b - 1], run[b], i, q);
      TurnLonger(run, a, b, i, q);
    }
  }

  lemma CountOn(w: World, w': World, i: nat, q: nat)
    requires i < |w.threads| && i < |w'.threads| && InTurn(w'.threads[i], q)
    requires TurnStep(w, w', i, q) || (Untouched(w, w', q) && w'.threads[i] == w.threads[i])
    ensures Known(w, q) && Known(w', q)
    ensures |w'.services[q].handled| == |w.services[q].handled| + DoneBy(w'.threads[i]) - DoneBy(w.threads[i])
  {
  }

  /** A turn has one message unless it was measured. */
  ghost predicate TurnLengthIs(run: seq<World>, a: nat, b: nat, i: nat, q: nat) {
    && a <= b < |run| && i < |run[b].threads| && Within(run[b].threads[i])
    && (run[b].threads[i].Measuring? || LengthIs(run, a, b, i, q, TurnOf(run[b].threads[i])))
  }

  ghost predicate LengthIs(run: seq<World>, a: nat, b: nat, i: nat, q: nat, n: nat) {
    || (n == 1 && NotMeasured(run, a, b, i))
    || exists k: nat, weight: nat :: a < k < b && MeasuredAt(run, k, i, q, n, weight)
  }

  ghost predicate NotMeasured(run: seq<World>, a: nat, b: nat, i: nat) {
    forall k :: a <= k <= b < |run| ==> i < |run[k].threads| && !run[k].threads[i].Measuring?
  }

  lemma TurnBegins(run: seq<World>, a: nat, i: nat, q: nat)
    requires a < |run| && i < |run[a].threads| && run[a].threads[i] == Serving(q, 0, 1)
    ensures TurnLengthIs(run, a, a, i, q)
  {
  }

  lemma TurnLonger(run: seq<World>, a: nat, b: nat, i: nat, q: nat)
    requires a < b < |run| && i < |run[b - 1].threads| && i < |run[b].threads|
    requires InTurn(run[b - 1].threads[i], q) && InTurn(run[b].threads[i], q) && TurnLengthIs(run, a, b - 1, i, q)
    requires run[a].threads != [] && i < |run[a].threads| && run[a].threads[i].Serving?
    requires TurnStep(run[b - 1], run[b], i, q)
          || (Untouched(run[b - 1], run[b], q) && run[b].threads[i] == run[b - 1].threads[i])
    ensures TurnLengthIs(run, a, b, i, q)
  {
    var (t, t') := (run[b - 1].threads[i], run[b].threads[i]);
    if t.Measuring? && t' != t {
      var weight: nat :| t'.n == Halved(|run[b - 1].services[q].mail.messages|, weight);
      assert MeasuredAt(run, b - 1, i, q, t'.n, weight);
    } else if !t'.Measuring? && !NotMeasured(run, a, b - 1, i) {
      var k: nat, weight: nat :| a < k < b - 1 && MeasuredAt(run, k, i, q, TurnOf(t), weight);
      assert MeasuredAt(run, k, i, q, TurnOf(t'), weight);
    }
  }

  /** How the turn of thread i with q, begun at a, ends with its next step after b: it has dispatched
      as many messages as its length says, and at least one; or the queue is empty. The length is 1,
      or the length of the queue when it was measured, halved as often as the weight says. */
  lemma TurnEnds(run: seq<World>, a: nat, b: nat, i: nat, q: nat)
    requires Turn(run, a, b, i, q) && b + 1 < |run|
    requires i < |run[b + 1].threads| && !InTurn(run[b + 1].threads[i], q)
    ensures Known(run[a], q) && Known(run[b], q) && Known(run[b + 1], q)
    ensures var (t, h) := (run[b + 1].threads[i], |run[b + 1].services[q].handled| - |run[a].services[q].handled|);
      if t.Ending? then exists n: nat :: h == (if n == 0 then 1 else n) && LengthIs(run, a, b, i, q, n)
      else t == Releasing(q, Stop) && run[b].services[q].mail.messages == [] && run[b].threads[i].Serving?
  {
    TurnSoFar(run, a, b, i, q);
    RunKeeps(run, b);
    RunSteps(run, b + 1);
    hide Run, Inv, Steps, LengthIs;
    TurnStops(run[b], run[b + 1], i, q);
    if run[b + 1].threads[i].Ending? {
      var n := run[b].threads[i].n;
      assert LengthIs(run, a, b, i, q, n);
    }
  }

  lemma TurnStops(w: World, w': World, i: nat, q: nat)
    requires Inv(w) && Steps(w, w') && i < |w.threads| && i < |w'.threads|
    requires InTurn(w.threads[i], q) && !InTurn(w'.threads[i], q)
    ensures Known(w, q) && Known(w', q) && w'.services[q].handled == w.services[q].handled
    ensures var (t, t') := (w.threads[i], w'.threads[i]);
      || (t'.Ending? && t.Working? && t.i + 1 >= t.n)
      || (t' == Releasing(q, Stop) && w.services[q].mail.messages == [] && t.Serving?)
  {
    hide Inv, Act;
    var j: nat, c :| j < |w.threads| && w' == Act(w, j, c);
    OnlyOwn(w, j, c);
    ThreadUses(w, i);
    StopsHere(w, i, c, q);
  }

  lemma StopsHere(w: World, i: nat, c: Choice, q: nat)
    requires i < |w.threads| && InTurn(w.threads[i], q) && Known(w, q)
    ensures i < |Act(w, i, c).threads|
    ensures var (t, w') := (w.threads[i], Act(w, i, c)); var t' := w'.threads[i];
      !InTurn(t', q) ==>
        && Known(w', q) && w'.services[q].handled == w.services[q].handled
        && (|| (t'.Ending? && t.Working? && t.i + 1 >= t.n)
            || (t' == Releasing(q, Stop) && w.services[q].mail.messages == [] && t.Serving?))
  {
    hide Halved, Begin, Proceed, SendStep, ReleaseStep, MarkStep, ReplyStep;
  }

  /** Halving is shifting: a length is divided by a power of two. */
  lemma {:induction false} HalvedIs(n: nat, weight: nat)
    ensures Halved(n, weight) == n / Pow2(weight)
    decreases weight
  {
    if weight > 0 {
      HalvedIs(n / 2, weight - 1);
      DivideTwice(n, Pow2(weight - 1));
    }
  }

  lemma DivideTwice(n: nat, m: nat)
    requires m > 0
    ensures n / 2 / m == n / (2 * m)
  {
    var (h, r) := (n / 2, n % 2);
    var (a, b) := (h / m, h % m);
    assert n == 2 * h + r && h == m * a + b;
    assert n == (2 * m) * a + (2 * b + r);
    Quotient(n, 2 * m, a, 2 * b + r);
  }

  lemma Quotient(n: nat, m: nat, a: nat, r: nat)
    requires r < m && n == m * a + r
    ensures n / m == a
  {
    Unique(n, m, a, r);
    Divided(n, m);
    assert m * (n / m) == m * a;
    SameFactor(m, n / m, a);
  }

  lemma SameFactor(m: nat, a: nat, b: nat)
    requires m > 0 && m * a == m * b
    ensures a == b
  {
    if a < b { Scale(m, a + 1, b); } else if b < a { Scale(m, b + 1, a); }
  }
}

/** The creator of a service and the others: what may come before its queue is there, and what
    may come after it has given up its reference. */
module SchedulerCreation {
  import opened SchedulerQueue
  import opened Scheduler
  import opened SchedulerSafety
  import opened SchedulerRuns
  import opened SchedulerTheorems
  import opened SchedulerReplies

  // ----- before the queue is there -----

  /** A context lacks its queue exactly while its creator is between registering the handle and
      making the queue. */
  ghost predicate UnsetOk(w: World, h: nat) {
    Known(w, h) ==> (!w.services[h].queued <==> Beginning(w, h))
  }

  ghost predicate Beginning(w: World, h: nat) {
    exists j :: 0 <= j < |w.threads| && w.threads[j] == Registered(h)
  }

  /** A step that neither begins to create a service nor gives one its queue. */
  predicate Bystander(w: World, w': World, i: nat, h: nat) {
    && i < |w.threads| == |w'.threads| && w'.threads == w.threads[i := w'.threads[i]]
    && w.threads[i] != Registered(h) && w'.threads[i] != Registered(h)
    && Get(w', h).queued == Get(w, h).queued && (Known(w', h) ==> Known(w, h))
  }

  lemma BystanderKeeps(w: World, w': World, i: nat, h: nat)
    requires UnsetOk(w, h) && Bystander(w, w', i, h)
    ensures UnsetOk(w', h)
  {
    if j :| 0 <= j < |w.threads| && w.threads[j] == Registered(h) { assert w'.threads[j] == Registered(h); }
    if j :| 0 <= j < |w'.threads| && w'.threads[j] == Registered(h) { assert w.threads[j] == Registered(h); }
  }

  lemma BeginsOther(w: World, i: nat, c: Choice, h: nat)
    requires i < |w.threads| && w.threads[i] == At(Stop) && !(c.Create? && h == w.nextHandle)
    requires w.global != [] ==> Known(w, w.global[0])
    ensures Bystander(w, Begin(w, i, c), i, h)
  {
  }

  lemma ProceedsOther(w: World, i: nat, next: Next, h: nat)
    requires i < |w.threads| && w.threads[i] == At(next) && (next.Stop? || next.Tell? || Known(w, next.q))
    ensures Bystander(w, Proceed(w, i, next), i, h)
  {
  }

  lemma OthersOther(w: World, i: nat, c: Choice, h: nat)
    requires i < |w.threads| && !w.threads[i].At? && w.threads[i] != Registered(h) && Known(w, w.threads[i].q)
    ensures Bystander(w, Act(w, i, c), i, h)
  {
    hide Halved;
  }

  /** The two steps that matter. */
  lemma CreatesUnset(w: World, i: nat)
    requires Inv(w) && i < |w.threads| && w.threads[i] == At(Stop)
    ensures UnsetOk(Begin(w, i, Create), w.nextHandle)
  {
    var w' := Begin(w, i, Create);
    assert w'.threads[i] == Registered(w.nextHandle);
  }

  lemma QueueSet(w: World, i: nat, h: nat)
    requires Inv(w) && i < |w.threads| && w.threads[i] == Registered(h) && Known(w, h)
    ensures UnsetOk(Put(w, i, Creating(h), h, Get(w, h).(queued := true), w.global), h)
  {
    hide Inv;
    var w' := Put(w, i, Creating(h), h, Get(w, h).(queued := true), w.global);
    forall j | 0 <= j < |w'.threads| ensures w'.threads[j] != Registered(h) {
      if j != i { OneHolder(w, i, j, h); }
    }
  }

  lemma ActUnset(w: World, i: nat, c: Choice, h: nat)
    requires Inv(w) && i < |w.threads| && UnsetOk(w, h)
    ensures UnsetOk(Act(w, i, c), h)
  {
    hide Inv, UnsetOk, Bystander, Begin, Proceed, Put;
    ThreadUses(w, i);
    var t := w.threads[i];
    if t.At? {
      AtUnset(w, i, c, h);
    } else if t == Registered(h) {
      QueueSet(w, i, h);
    } else {
      OthersOther(w, i, c, h);
      BystanderKeeps(w, Act(w, i, c), i, h);
    }
  }

  lemma AtUnset(w: World, i: nat, c: Choice, h: nat)
    requires Inv(w) && i < |w.threads| && w.threads[i].At? && UnsetOk(w, h)
    ensures UnsetOk(Act(w, i, c), h)
  {
    hide Inv, UnsetOk, Bystander, Begin, Proceed, Act;
    ThreadUses(w, i);
    AtSteps(w, i, c);
    var next := w.threads[i].next;
    if !next.Stop? {
      ProceedsOther(w, i, next, h);
      BystanderKeeps(w, Proceed(w, i, next), i, h);
    } else if c.Create? && h == w.nextHandle {
      CreatesUnset(w, i);
    } else {
      FirstKnown(w);
      BeginsOther(w, i, c, h);
      BystanderKeeps(w, Begin(w, i, c), i, h);
    }
  }

  lemma FirstKnown(w: World)
    requires Inv(w)
    ensures w.global != [] ==> Known(w, w.global[0])
  {
  }

  lemma {:induction false} RunUnset(run: seq<World>, k: nat, h: nat)
    requires Run(run) && k < |run|
    ensures UnsetOk(run[k], h)
  {
    hide Steps, Inv;
    if k > 0 {
      hide UnsetOk;
      RunUnset(run, k - 1, h);
      RunKeeps(run, k - 1);
      RunSteps(run, k);
      StepUnset(run[k - 1], run[k], h);
    }
  }

  lemma StepUnset(w: World, w': World, h: nat)
    requires Inv(w) && Steps(w, w') && UnsetOk(w, h)
    ensures UnsetOk(w', h)
  {
    hide Inv, Act, UnsetOk;
    var i: nat, c :| i < |w.threads| && w' == Act(w, i, c);
    ActUnset(w, i, c, h);
  }

  /** A push meets no queue exactly when the creator of the context has registered its handle and
      not yet made the queue. */
  lemma PushMeetsNoQueue(run: seq<World>, k: nat, i: nat)
    requires Run(run) && k < |run| && i < |run[k].threads| && run[k].threads[i].Sending?
    ensures var h := run[k].threads[i].q; Known(run[k], h) && (!run[k].services[h].queued <==> Beginning(run[k], h))
  {
    hide Run, Inv;
    RunKeeps(run, k);
    ThreadUses(run[k], i);
    RunUnset(run, k, run[k].threads[i].q);
  }

  // ----- runs of two threads -----

  /** The states of two threads, when the given steps are taken one after another. */
  function Played(steps: seq<(nat, Choice)>): (w: World)
    ensures |w.threads| == 2
  {
    if steps == [] then World(map[], 1, [], [At(Stop), At(Stop)], [])
    else
      var (before, last) := (Played(steps[..|steps| - 1]), steps[|steps| - 1]);
      if last.0 < 2 then OnlyOwn(before, last.0, last.1); Act(before, last.0, last.1) else before
  }

  function PlayedRun(steps: seq<(nat, Choice)>): (run: seq<World>)
    ensures |run| == |steps| + 1
  {
    seq(|steps| + 1, n requires 0 <= n <= |steps| => Played(steps[..n]))
  }

  lemma PlayedIsRun(steps: seq<(nat, Choice)>)
    requires forall n :: 0 <= n < |steps| ==> steps[n].0 < 2
    ensures Run(PlayedRun(steps))
  {
    var run := PlayedRun(steps);
    assert steps[..0] == [];
    hide Act;
    forall k | 0 < k < |run| ensures StepAt(run, k) {
      assert steps[..k][..k - 1] == steps[..k - 1];
      assert run[k] == Act(run[k - 1], steps[k - 1].0, steps[k - 1].1);
    }
  }

  lemma PlayedNext(steps: seq<(nat, Choice)>, n: nat)
    requires n < |steps| && steps[n].0 < 2
    ensures |PlayedRun(steps)[n].threads| == 2
    ensures PlayedRun(steps)[n + 1] == Act(PlayedRun(steps)[n], steps[n].0, steps[n].1)
  {
    assert steps[..n + 1][..n] == steps[..n];
  }

  /** One thread registers a service, and another sends it a message at once. */
  const TOOEARLY: seq<(nat, Choice)> := [(0, Create), (1, Send(1, NO_MESSAGE)), (1, Fetch)]

  lemma SenderTooEarly()
    ensures Run(PlayedRun(TOOEARLY))
    ensures PlayedRun(TOOEARLY)[3].threads == [Registered(1), Stray(1, Stop)]
  {
    PlayedIsRun(TOOEARLY);
    SendBegun();
    hide PlayedRun;
    PlayedNext(TOOEARLY, 2);
  }

  lemma SendBegun()
    ensures var w := PlayedRun(TOOEARLY)[2];
      w.threads == [Registered(1), Sending(1, NO_MESSAGE, Stop)] && !Get(w, 1).queued
  {
    var run := PlayedRun(TOOEARLY);
    assert TOOEARLY[..0] == [];
    hide PlayedRun;
    PlayedNext(TOOEARLY, 0);
    assert run[1].threads == [Registered(1), At(Stop)] && Get(run[1], 1) == CREATED;
    PlayedNext(TOOEARLY, 1);
  }

  // ----- after the reference is given up -----

  /** The creator uses the context without a reference: it marks it initialized, reports the
      launch and returns it. */
  predicate UsesUncounted(t: Thread, q: nat) {
    t == At(Launch(q)) || t == At(Announce(q, true)) || t == At(Tell(q))
  }

  /** Then the context is gone exactly when its handle is retired and no other thread refers to
      it; the creator itself does not. */
  lemma CreatorUses(run: seq<World>, k: nat, i: nat, q: nat)
    requires Run(run) && k < |run| && i < |run[k].threads| && UsesUncounted(run[k].threads[i], q)
    requires Known(run[k], q)
    ensures var (w, s) := (run[k], run[k].services[q]);
      s.deleted == 1 <==> !s.registered && forall j :: 0 <= j < |w.threads| && j != i ==> !Refers(w.threads[j], q)
  {
    hide Run;
    DeletedExactly(run, k, q);
  }

  /** One thread creates a service and another retires it. */
  const TOOLATE: seq<(nat, Choice)> :=
    [(0, Create), (0, Fetch), (0, Succeed(true)), (0, Fetch), (1, Retire(1)), (1, Fetch), (0, Fetch), (0, Fetch)]

  /** The creator gives up its reference before it marks the context initialized, so another
      thread can retire and delete the context in between: all three uses can come too late. */
  lemma CreatorTooLate()
    ensures Run(PlayedRun(TOOLATE))
    ensures var w := PlayedRun(TOOLATE)[6]; w.threads[0] == At(Launch(1)) && Get(w, 1).deleted == 1
    ensures var w := PlayedRun(TOOLATE)[7]; w.threads[0] == At(Announce(1, true)) && Get(w, 1).deleted == 1
    ensures var w := PlayedRun(TOOLATE)[8]; w.threads[0] == At(Tell(1)) && Get(w, 1).deleted == 1
  {
    PlayedIsRun(TOOLATE);
    LateDelete();
    LateMark();
    hide PlayedRun;
    PlayedNext(TOOLATE, 7);
  }

  lemma LateMark()
    ensures var w := PlayedRun(TOOLATE)[7]; w.threads[0] == At(Announce(1, true)) && Get(w, 1).deleted == 1
  {
    LateDelete();
    hide PlayedRun;
    PlayedNext(TOOLATE, 6);
  }

  /** The other thread gives up the last reference. */
  lemma LateDelete()
    ensures var w := PlayedRun(TOOLATE)[6]; w.threads[0] == At(Launch(1)) && Get(w, 1).deleted == 1
  {
    LateRetire();
    hide PlayedRun;
    PlayedNext(TOOLATE, 5);
  }

  lemma LateRetire()
    ensures var w := PlayedRun(TOOLATE)[5];
      w.threads == [At(Launch(1)), Releasing(1, Stop)] && Get(w, 1).refs == 1 && Get(w, 1).deleted == 0
  {
    EarlyLaunch();
    hide PlayedRun;
    PlayedNext(TOOLATE, 4);
  }

  /** Before the other thread comes. */
  lemma EarlyLaunch()
    ensures var w := PlayedRun(TOOLATE)[4];
      && w.threads == [At(Launch(1)), At(Stop)] && w.global == []
      && Get(w, 1) == CREATED.(refs := 1, queued := true)
  {
    var run := PlayedRun(TOOLATE);
    assert TOOLATE[..0] == [];
    hide PlayedRun;
    PlayedNext(TOOLATE, 0);
    PlayedNext(TOOLATE, 1);
    assert run[2].threads == [Creating(1), At(Stop)];
    PlayedNext(TOOLATE, 2);
    PlayedNext(TOOLATE, 3);
  }
}

/** Mail is not only never forgotten: a worker that goes on alone comes to dispatch it. */
module SchedulerProgress {
  import opened SchedulerQueue
  import opened Scheduler
  import opened SchedulerSafety
  import opened SchedulerRuns
  import opened SchedulerTheorems
  import opened SchedulerReplies
  import opened SchedulerCreation

  /** The state after thread i has gone on alone for n steps; when it is idle it takes a queue. */
  function Alone(w: World, i: nat, n: nat): World
    decreases n
  {
    if n == 0 || i >= |w.threads| then w else Alone(Act(w, i, Fetch), i, n - 1)
  }

  lemma {:induction false} AloneTwice(w: World, i: nat, a: nat, b: nat)
    ensures Alone(w, i, a + b) == Alone(Alone(w, i, a), i, b)
    decreases a
  {
    hide Act;
    if a > 0 && i < |w.threads| { AloneTwice(Act(w, i, Fetch), i, a - 1, b); }
  }

  /** Every registered context has its queue. */
  ghost predicate AllSet(w: World) {
    forall h {:trigger Known(w, h)} :: Known(w, h) && w.services[h].registered ==> w.services[h].queued
  }

  /** A queue with mail whose service is registered. */
  predicate Waits(w: World, q: nat) {
    Known(w, q) && w.services[q].registered && w.services[q].mail.messages != []
  }

  /** The queue q is left as it is, perhaps with more mail behind. */
  predicate Spares(w: World, w': World, q: nat) {
    && Known(w, q) && Known(w', q)
    && w'.services[q].registered == w.services[q].registered && w'.services[q].handled == w.services[q].handled
    && w.services[q].mail.messages <= w'.services[q].mail.messages
  }

  /** A worker's state from which it goes on alone. */
  ghost predicate Fit(w: World, i: nat) {
    Inv(w) && AllSet(w) && i < |w.threads|
  }

  lemma SparesTwice(a: World, b: World, c: World, q: nat)
    requires Spares(a, b, q) && Spares(b, c, q)
    ensures Spares(a, c, q)
  {
  }

  // ----- the steps of a worker -----

  /** One step spares q unless it pops from its queue. */
  predicate Spare(t: Thread, q: nat) {
    match t
    case At(next) => next.Stop? || next.Keep? || next.Settle? || (next.Discard? && next.q != q)
    case Serving(p, _, _) => p != q
    case Working(_, _, _, _) => true
    case Ending(_) => true
    case Swapping(_, _) => true
    case Releasing(_, next) => true
    case Replying(_, _) => true
    case Sending(_, _, _) => true
    case Freeing(_) => true
    case _ => false
  }

  /** No service is registered anew and none loses its queue. */
  ghost predicate Tamed(w: World, w': World) {
    forall h {:trigger Known(w', h)} :: Known(w', h) ==>
      && Known(w, h) && (w'.services[h].registered ==> w.services[h].registered)
      && w'.services[h].queued == w.services[h].queued
  }

  lemma TamedSet(w: World, w': World)
    requires AllSet(w) && Tamed(w, w')
    ensures AllSet(w')
  {
  }

  lemma AtKeeps(w: World, i: nat, q: nat)
    requires Fit(w, i) && w.threads[i].At? && Spare(w.threads[i], q) && Known(w, q)
    ensures Tamed(w, Act(w, i, Fetch)) && Spares(w, Act(w, i, Fetch), q)
  {
    ThreadUses(w, i);
    FirstListedKnown(w);
    hide Inv;
  }

  lemma FirstListedKnown(w: World)
    requires Inv(w)
    ensures w.global != [] ==> Known(w, w.global[0])
  {
  }

  lemma ServeKeepsOthers(w: World, i: nat, q: nat)
    requires Fit(w, i) && w.threads[i].Serving? && Spare(w.threads[i], q) && Known(w, q)
    ensures Tamed(w, Act(w, i, Fetch)) && Spares(w, Act(w, i, Fetch), q)
  {
    ThreadUses(w, i);
    hide Inv;
  }

  lemma SendKeepsOthers(w: World, i: nat, q: nat)
    requires Fit(w, i) && w.threads[i].Sending? && Known(w, q)
    ensures Tamed(w, Act(w, i, Fetch)) && Spares(w, Act(w, i, Fetch), q)
  {
    ThreadUses(w, i);
    hide Inv;
  }

  lemma ReleaseSpares(w: World, i: nat, h: nat, next: Next, q: nat)
    requires i < |w.threads| && Known(w, h) && Known(w, q)
    ensures Tamed(w, ReleaseStep(w, i, h, next)) && Spares(w, ReleaseStep(w, i, h, next), q)
  {
  }

  lemma ReplySpares(w: World, i: nat, p: nat, m: Message, q: nat)
    requires i < |w.threads| && Known(w, q)
    ensures Tamed(w, ReplyStep(w, i, p, m)) && Spares(w, ReplyStep(w, i, p, m), q)
  {
  }

  lemma EndSpares(w: World, i: nat, q: nat)
    requires i < |w.threads| && Known(w, q)
    requires var t := w.threads[i]; (t.Ending? || t.Swapping? || t.Freeing? || t.Working?) && Known(w, t.q)
    ensures Tamed(w, Act(w, i, Fetch)) && Spares(w, Act(w, i, Fetch), q)
  {
    hide ReleaseStep, ReplyStep, SendStep, ServeStep, MarkStep, Begin, Proceed, Halved;
  }

  lemma RestKeeps(w: World, i: nat, q: nat)
    requires Fit(w, i) && Spare(w.threads[i], q) && Known(w, q)
    requires var t := w.threads[i]; !t.At? && !t.Serving? && !t.Sending?
    ensures Tamed(w, Act(w, i, Fetch)) && Spares(w, Act(w, i, Fetch), q)
  {
    hide Inv, Tamed, Spares, ReleaseStep, ReplyStep;
    ThreadUses(w, i);
    match w.threads[i]
    case Releasing(h, next) => ReleaseSpares(w, i, h, next, q);
    case Replying(p, m) => ReplySpares(w, i, p, m, q);
    case _ => EndSpares(w, i, q);
  }

  /** So the worker stays fit, and q waits on. */
  lemma StepFit(w: World, i: nat, q: nat)
    requires Fit(w, i) && Waits(w, q) && Spare(w.threads[i], q)
    ensures Fit(Act(w, i, Fetch), i) && Waits(Act(w, i, Fetch), q) && Spares(w, Act(w, i, Fetch), q)
  {
    hide Inv, Act, AllSet, Tamed;
    var t := w.threads[i];
    ActKeeps(w, i, Fetch);
    OwnLength(w, i, Fetch);
    if t.At? { AtKeeps(w, i, q); }
    else if t.Serving? { ServeKeepsOthers(w, i, q); }
    else if t.Sending? { SendKeepsOthers(w, i, q); }
    else { RestKeeps(w, i, q); }
    TamedSet(w, Act(w, i, Fetch));
  }

  lemma OwnLength(w: World, i: nat, c: Choice)
    requires i < |w.threads|
    ensures |Act(w, i, c).threads| == |w.threads|
  {
    hide Act;
    OnlyOwn(w, i, c);
  }

  // ----- where the worker goes next -----

  /** The queues it comes to, in order. */
  function Lineup(w: World, i: nat): seq<nat> {
    if i < |w.threads| && w.threads[i].At? && w.threads[i].next.Keep? then [w.threads[i].next.q] + w.global
    else w.global
  }

  /** One step, and what is known of the thread and the list after it. */
  ghost predicate Goes(w: World, i: nat, q: nat, t: Thread, global: seq<nat>) {
    && i < |w.threads|
    && Fit(Act(w, i, Fetch), i) && Waits(Act(w, i, Fetch), q) && Spares(w, Act(w, i, Fetch), q)
    && Act(w, i, Fetch).threads[i] == t && Act(w, i, Fetch).global == global
  }

  /** A reference that is given up is not the last one of a registered context. */
  lemma NotLast(w: World, i: nat, h: nat)
    requires Inv(w) && i < |w.threads| && w.threads[i].Releasing? && w.threads[i].q == h && Get(w, h).registered
    ensures Get(w, h).refs > 1
  {
    hide Count, Occurs, Inv;
    ThreadUses(w, i);
    var rest := Facts(w, i, h);
  }

  lemma ReleaseGoes(w: World, i: nat, q: nat)
    requires Fit(w, i) && Waits(w, q) && w.threads[i].Releasing? && Get(w, w.threads[i].q).registered
    ensures Goes(w, i, q, At(w.threads[i].next), w.global)
  {
    hide Inv, AllSet, Waits, Spares;
    StepFit(w, i, q);
    NotLast(w, i, w.threads[i].q);
  }

  /** What the worker does with the queue it holds, up to the release of the context. */
  lemma KeepGoes(w: World, i: nat, q: nat, p: nat)
    requires Fit(w, i) && Waits(w, q) && w.threads[i] == At(Keep(p))
    ensures Get(w, p).registered ==> Goes(w, i, q, Serving(p, 0, 1), w.global) && Get(Act(w, i, Fetch), p).registered
    ensures !Get(w, p).registered ==> Goes(w, i, q, At(Settle(p)), w.global) && !Get(Act(w, i, Fetch), p).registered
  {
    hide Inv, AllSet, Waits, Spares;
    StepFit(w, i, q);
  }

  lemma ServeGoes(w: World, i: nat, q: nat, p: nat)
    requires Fit(w, i) && Waits(w, q) && w.threads[i] == Serving(p, 0, 1) && p != q && Get(w, p).registered
    ensures Get(Act(w, i, Fetch), p).registered
    ensures Get(w, p).mail.messages == [] ==> Goes(w, i, q, Releasing(p, Stop), w.global)
    ensures Get(w, p).mail.messages != [] ==> Goes(w, i, q, Working(p, 0, 1, Get(w, p).mail.messages[0]), w.global)
  {
    hide Inv, AllSet, Waits, Spares;
    StepFit(w, i, q);
  }

  lemma WorkGoes(w: World, i: nat, q: nat, p: nat)
    requires Fit(w, i) && Waits(w, q) && w.threads[i].Working? && w.threads[i].q == p && w.threads[i].i == 0
    requires w.threads[i].n == 1 && Get(w, p).registered
    ensures Goes(w, i, q, Ending(p), w.global) && Get(Act(w, i, Fetch), p).registered
  {
    hide Inv, AllSet, Waits, Spares;
    StepFit(w, i, q);
  }

  lemma EndGoes(w: World, i: nat, q: nat, p: nat)
    requires Fit(w, i) && Waits(w, q) && w.threads[i] == Ending(p) && w.global != [] && Get(w, p).registered
    ensures Goes(w, i, q, Swapping(p, w.global[0]), w.global[1..]) && Get(Act(w, i, Fetch), p).registered
  {
    hide Inv, AllSet, Waits, Spares;
    StepFit(w, i, q);
  }

  lemma SwapGoes(w: World, i: nat, q: nat, p: nat, other: nat)
    requires Fit(w, i) && Waits(w, q) && w.threads[i] == Swapping(p, other) && Get(w, p).registered
    ensures Goes(w, i, q, Releasing(p, Keep(other)), w.global + [p]) && Get(Act(w, i, Fetch), p).registered
  {
    hide Inv, AllSet, Waits, Spares;
    StepFit(w, i, q);
  }

  lemma SettleGoes(w: World, i: nat, q: nat, p: nat)
    requires Fit(w, i) && Waits(w, q) && w.threads[i] == At(Settle(p))
    ensures Get(w, p).mail.release ==> Goes(w, i, q, At(Discard(p)), w.global)
    ensures !Get(w, p).mail.release ==> Goes(w, i, q, At(Stop), w.global + [p])
  {
    hide Inv, AllSet, Waits, Spares;
    StepFit(w, i, q);
  }

  /** Only the queue of a service that is not registered any more is dropped. */
  lemma DroppedIsGone(w: World, i: nat, p: nat)
    requires Inv(w) && i < |w.threads|
    requires w.threads[i] == At(Discard(p)) || (w.threads[i].Replying? && w.threads[i].q == p)
    ensures Known(w, p) && !w.services[p].registered
  {
    hide Count, Occurs, Inv;
    ThreadUses(w, i);
    var rest := Facts(w, i, p);
  }

  lemma DiscardGoes(w: World, i: nat, q: nat, p: nat)
    requires Fit(w, i) && Waits(w, q) && w.threads[i] == At(Discard(p))
    ensures Known(w, p) && Known(Act(w, i, Fetch), p) && p != q
    ensures var (s, s') := (w.services[p], Act(w, i, Fetch).services[p]);
      if s.mail.messages == [] then Goes(w, i, q, Freeing(p), w.global) && s'.handled == s.handled
      else
        && Goes(w, i, q, Replying(p, s.mail.messages[0]), w.global)
        && s'.mail.messages == s.mail.messages[1..] && s'.handled == s.handled + [Dropped(s.mail.messages[0])]
  {
    DroppedIsGone(w, i, p);
    assert p != q;
    hide Inv, AllSet, Waits, Spares;
    StepFit(w, i, q);
  }

  /** The two ways of a reply. */
  lemma ReplyGoes(w: World, i: nat, q: nat, p: nat)
    requires Fit(w, i) && Waits(w, q) && w.threads[i].Replying? && w.threads[i].q == p
    ensures var (h, w') := (w.threads[i].m.source, Act(w, i, Fetch));
      && SameMail(w, w', p)
      && if Get(w, h).registered
         then
           && Goes(w, i, q, Sending(h, Message(p, 0, PTYPE_ERROR, []), Discard(p)), w.global)
           && Get(w', h).registered && h != p
         else Goes(w, i, q, At(Discard(p)), w.global)
  {
    DroppedIsGone(w, i, p);
    hide Inv, AllSet, Waits, Spares;
    StepFit(w, i, q);
  }

  predicate SameMail(w: World, w': World, p: nat) {
    && Known(w, p) && Known(w', p)
    && w'.services[p].mail.messages == w.services[p].mail.messages && w'.services[p].handled == w.services[p].handled
  }

  lemma SendGoes(w: World, i: nat, q: nat, h: nat, m: Message, p: nat)
    requires Fit(w, i) && Waits(w, q) && w.threads[i] == Sending(h, m, Discard(p)) && Get(w, h).registered && h != p
    requires Known(w, p)
    ensures var w' := Act(w, i, Fetch); SameMail(w, w', p) && Get(w', h).registered
    ensures Goes(w, i, q, Releasing(h, Discard(p)), if Get(w, h).mail.inGlobal then w.global else w.global + [h])
  {
    assert Get(w, h).queued by { assert Known(w, h); }
    hide Inv, AllSet, Waits, Spares;
    StepFit(w, i, q);
  }

  lemma LetGo(w: World, i: nat, q: nat, h: nat, p: nat)
    requires Fit(w, i) && Waits(w, q) && w.threads[i] == Releasing(h, Discard(p)) && Get(w, h).registered && h != p
    requires Known(w, p)
    ensures SameMail(w, Act(w, i, Fetch), p) && Goes(w, i, q, At(Discard(p)), w.global)
  {
    hide Inv, AllSet, Waits, Spares;
    ReleaseGoes(w, i, q);
  }

  lemma FreeGoes(w: World, i: nat, q: nat, p: nat)
    requires Fit(w, i) && Waits(w, q) && w.threads[i] == Freeing(p) && Known(w, p)
    ensures Goes(w, i, q, At(Stop), w.global)
    ensures var w' := Act(w, i, Fetch);
      Known(w', p) && w'.services[p].freed && w'.services[p].handled == w.services[p].handled
  {
    hide Inv, AllSet, Waits, Spares;
    StepFit(w, i, q);
  }

  // ----- rounds -----

  /** After n steps alone the worker is fit and q waits. */
  ghost predicate Comes(w: World, i: nat, q: nat, n: nat) {
    Fit(Alone(w, i, n), i) && Waits(Alone(w, i, n), q) && Spares(w, Alone(w, i, n), q)
  }

  lemma OneStep(w: World, i: nat, q: nat, t: Thread, global: seq<nat>)
    requires Goes(w, i, q, t, global)
    ensures Alone(w, i, 1) == Act(w, i, Fetch) && Comes(w, i, q, 1)
    ensures Alone(w, i, 1).threads[i] == t && Alone(w, i, 1).global == global
  {
    hide Act, Fit, Waits, Spares;
    assert Alone(w, i, 1) == Alone(Act(w, i, Fetch), i, 0);
  }

  lemma ComesOn(w: World, i: nat, q: nat, a: nat, b: nat)
    requires Comes(w, i, q, a) && Comes(Alone(w, i, a), i, q, b)
    ensures Comes(w, i, q, a + b) && Alone(w, i, a + b) == Alone(Alone(w, i, a), i, b)
  {
    hide Act, Fit, Waits, Alone;
    AloneTwice(w, i, a, b);
    SparesTwice(w, Alone(w, i, a), Alone(w, i, a + b), q);
  }

  /** The reply to a dropped message is sent, if it can be. */
  lemma ReplyRound(w: World, i: nat, q: nat, p: nat) returns (n: nat)
    requires Fit(w, i) && Waits(w, q) && w.threads[i].Replying? && w.threads[i].q == p
    ensures Comes(w, i, q, n) && w.global <= Alone(w, i, n).global
    ensures Alone(w, i, n).threads[i] == At(Discard(p)) && SameMail(w, Alone(w, i, n), p)
  {
    hide Inv, AllSet, Act, Waits, Spares, Alone;
    var h := w.threads[i].m.source;
    ReplyGoes(w, i, q, p);
    var w1 := Act(w, i, Fetch);
    if !Get(w, h).registered {
      OneStep(w, i, q, At(Discard(p)), w.global);
      n := 1;
    } else {
      var e := Message(p, 0, PTYPE_ERROR, []);
      OneStep(w, i, q, Sending(h, e, Discard(p)), w.global);
      SendGoes(w1, i, q, h, e, p);
      var g := if Get(w1, h).mail.inGlobal then w1.global else w1.global + [h];
      OneStep(w1, i, q, Releasing(h, Discard(p)), g);
      ComesOn(w, i, q, 1, 1);
      var w2 := Act(w1, i, Fetch);
      LetGo(w2, i, q, h, p);
      OneStep(w2, i, q, At(Discard(p)), w2.global);
      ComesOn(w, i, q, 2, 1);
      n := 3;
    }
  }

  /** What is left in a released queue, as dropped. */
  function AsDropped(messages: seq<Message>): seq<Handled> {
    seq(|messages|, i requires 0 <= i < |messages| => Dropped(messages[i]))
  }

  /** A released queue is dropped to the end and freed. */
  lemma {:induction false} DropRound(w: World, i: nat, q: nat, p: nat) returns (n: nat)
    requires Fit(w, i) && Waits(w, q) && w.threads[i] == At(Discard(p))
    ensures Comes(w, i, q, n) && w.global <= Alone(w, i, n).global && Alone(w, i, n).threads[i] == At(Stop)
    ensures Known(w, p) && Known(Alone(w, i, n), p) && Alone(w, i, n).services[p].freed
    ensures Alone(w, i, n).services[p].handled == w.services[p].handled + AsDropped(w.services[p].mail.messages)
    decreases |Get(w, p).mail.messages|
  {
    hide Inv, AllSet, Act, Waits, Spares, Alone;
    DiscardGoes(w, i, q, p);
    var (w1, ms) := (Act(w, i, Fetch), w.services[p].mail.messages);
    if ms == [] {
      OneStep(w, i, q, Freeing(p), w.global);
      FreeGoes(w1, i, q, p);
      OneStep(w1, i, q, At(Stop), w1.global);
      ComesOn(w, i, q, 1, 1);
      n := 2;
      assert AsDropped(ms) == [];
    } else {
      OneStep(w, i, q, Replying(p, ms[0]), w.global);
      var a := ReplyRound(w1, i, q, p);
      ComesOn(w, i, q, 1, a);
      var w2 := Alone(w1, i, a);
      var b := DropRound(w2, i, q, p);
      ComesOn(w, i, q, 1 + a, b);
      n := 1 + a + b;
      assert AsDropped(ms) == [Dropped(ms[0])] + AsDropped(ms[1..]);
    }
  }

  /** The worker is done with a queue other than q and comes to the next one. */
  ghost predicate Advances(w: World, i: nat, q: nat, n: nat) {
    var w' := Alone(w, i, n);
    && Comes(w, i, q, n) && w'.threads[i].At? && (w'.threads[i].next.Stop? || w'.threads[i].next.Keep?)
    && w.global <= Lineup(w', i)
  }

  lemma GoneRound(w: World, i: nat, q: nat, p: nat) returns (n: nat)
    requires Fit(w, i) && Waits(w, q) && w.threads[i] == At(Keep(p)) && !Get(w, p).registered
    ensures Advances(w, i, q, n)
  {
    hide Inv, AllSet, Act, Waits, Spares, Alone;
    KeepGoes(w, i, q, p);
    OneStep(w, i, q, At(Settle(p)), w.global);
    var w1 := Act(w, i, Fetch);
    SettleGoes(w1, i, q, p);
    if Get(w1, p).mail.release {
      OneStep(w1, i, q, At(Discard(p)), w1.global);
      ComesOn(w, i, q, 1, 1);
      var w2 := Act(w1, i, Fetch);
      var a := DropRound(w2, i, q, p);
      ComesOn(w, i, q, 2, a);
      n := 2 + a;
    } else {
      OneStep(w1, i, q, At(Stop), w1.global + [p]);
      ComesOn(w, i, q, 1, 1);
      n := 2;
    }
  }

  /** A registered service without mail, */
  lemma EmptyRound(w: World, i: nat, q: nat, p: nat) returns (n: nat)
    requires Fit(w, i) && Waits(w, q) && w.threads[i] == Serving(p, 0, 1) && p != q
    requires Get(w, p).registered && Get(w, p).mail.messages == []
    ensures Advances(w, i, q, n)
  {
    hide Inv, AllSet, Act, Waits, Spares, Alone;
    ServeGoes(w, i, q, p);
    OneStep(w, i, q, Releasing(p, Stop), w.global);
    var w1 := Act(w, i, Fetch);
    ReleaseGoes(w1, i, q);
    OneStep(w1, i, q, At(Stop), w1.global);
    ComesOn(w, i, q, 1, 1);
    n := 2;
  }

  /** and one with mail, whose queue goes to the end of the list. */
  lemma MailRound(w: World, i: nat, q: nat, p: nat) returns (n: nat)
    requires Fit(w, i) && Waits(w, q) && w.threads[i] == Serving(p, 0, 1) && p != q
    requires Get(w, p).registered && Get(w, p).mail.messages != [] && w.global != []
    ensures Advances(w, i, q, n)
  {
    hide Inv, AllSet, Act, Waits, Spares, Alone;
    ServeGoes(w, i, q, p);
    OneStep(w, i, q, Working(p, 0, 1, Get(w, p).mail.messages[0]), w.global);
    var w1 := Act(w, i, Fetch);
    WorkGoes(w1, i, q, p);
    OneStep(w1, i, q, Ending(p), w1.global);
    ComesOn(w, i, q, 1, 1);
    var w2 := Act(w1, i, Fetch);
    var a := EndRound(w2, i, q, p);
    ComesOn(w, i, q, 2, a);
    n := 2 + a;
  }

  lemma EndRound(w: World, i: nat, q: nat, p: nat) returns (n: nat)
    requires Fit(w, i) && Waits(w, q) && w.threads[i] == Ending(p) && w.global != [] && Get(w, p).registered
    ensures Advances(w, i, q, n)
  {
    hide Inv, AllSet, Act, Waits, Spares, Alone;
    var other := w.global[0];
    EndGoes(w, i, q, p);
    OneStep(w, i, q, Swapping(p, other), w.global[1..]);
    var w1 := Act(w, i, Fetch);
    SwapGoes(w1, i, q, p, other);
    OneStep(w1, i, q, Releasing(p, Keep(other)), w1.global + [p]);
    ComesOn(w, i, q, 1, 1);
    var w2 := Act(w1, i, Fetch);
    ReleaseGoes(w2, i, q);
    OneStep(w2, i, q, At(Keep(other)), w2.global);
    ComesOn(w, i, q, 2, 1);
    n := 3;
    assert w.global == [other] + w.global[1..];
  }

  /** Every round brings q one place nearer. */
  lemma Round(w: World, i: nat, q: nat, p: nat) returns (n: nat)
    requires Fit(w, i) && Waits(w, q) && w.threads[i] == At(Keep(p)) && p != q && w.global != []
    ensures Advances(w, i, q, n)
  {
    hide Inv, AllSet, Act, Waits, Spares, Alone;
    KeepGoes(w, i, q, p);
    if !Get(w, p).registered {
      n := GoneRound(w, i, q, p);
    } else {
      OneStep(w, i, q, Serving(p, 0, 1), w.global);
      var w1 := Act(w, i, Fetch);
      var a;
      if Get(w1, p).mail.messages == [] { a := EmptyRound(w1, i, q, p); } else { a := MailRound(w1, i, q, p); }
      ComesOn(w, i, q, 1, a);
      n := 1 + a;
    }
  }

  lemma FetchGoes(w: World, i: nat, q: nat)
    requires Fit(w, i) && Waits(w, q) && w.threads[i] == At(Stop) && w.global != []
    ensures Goes(w, i, q, At(Keep(w.global[0])), w.global[1..])
  {
    hide Inv, AllSet, Waits, Spares;
    StepFit(w, i, q);
  }

  lemma Fetches(w: World, i: nat, q: nat) returns (w1: World)
    requires Fit(w, i) && Waits(w, q) && w.threads[i] == At(Stop) && w.global != []
    ensures w1 == Alone(w, i, 1) && Comes(w, i, q, 1)
    ensures w1.threads[i] == At(Keep(w.global[0])) && Lineup(w1, i) == w.global
  {
    hide Inv, AllSet, Act, Waits, Spares, Alone;
    FetchGoes(w, i, q);
    OneStep(w, i, q, At(Keep(w.global[0])), w.global[1..]);
    w1 := Alone(w, i, 1);
  }

  /** The worker comes to hold q. */
  lemma {:induction false} ComesTo(w: World, i: nat, q: nat, at: nat) returns (n: nat)
    requires Fit(w, i) && Waits(w, q) && at < |Lineup(w, i)| && Lineup(w, i)[at] == q
    requires w.threads[i] == At(Stop) || (w.threads[i].At? && w.threads[i].next.Keep?)
    ensures Comes(w, i, q, n) && Alone(w, i, n).threads[i] == At(Keep(q))
    decreases at, w.threads[i] == At(Stop)
  {
    hide Inv, AllSet, Act, Waits, Spares, Alone;
    if w.threads[i] == At(Stop) {
      var w1 := Fetches(w, i, q);
      var a := ComesTo(w1, i, q, at);
      ComesOn(w, i, q, 1, a);
      n := 1 + a;
    } else if at == 0 {
      n := 0;
      NoStep(w, i, q);
    } else {
      var p := w.threads[i].next.q;
      if p == q {
        n := 0;
        NoStep(w, i, q);
      } else {
        var a := Round(w, i, q, p);
        var w1 := Alone(w, i, a);
        assert Lineup(w1, i)[at - 1] == w.global[at - 1];
        var b := ComesTo(w1, i, q, at - 1);
        ComesOn(w, i, q, a, b);
        n := a + b;
      }
    }
  }

  lemma NoStep(w: World, i: nat, q: nat)
    requires Fit(w, i) && Waits(w, q)
    ensures Alone(w, i, 0) == w && Comes(w, i, q, 0)
  {
    hide Fit;
  }

  /** Progress: an idle worker that goes on alone comes to dispatch the first message of any listed
      queue whose service is registered, if all services have their queues. */
  lemma WorkerDispatches(w: World, i: nat, q: nat) returns (n: nat)
    requires Fit(w, i) && w.threads[i] == At(Stop) && Waits(w, q) && q in w.global
    ensures var w' := Alone(w, i, n);
      && Known(w', q)
      && w'.services[q].handled == w.services[q].handled + [Dispatched(w.services[q].mail.messages[0])]
  {
    hide Inv, AllSet, Act, Alone;
    var at: nat :| at < |w.global| && w.global[at] == q;
    var a := ComesTo(w, i, q, at);
    var w1 := Alone(w, i, a);
    KeepGoes(w1, i, q, q);
    OneStep(w1, i, q, Serving(q, 0, 1), w1.global);
    ComesOn(w, i, q, a, 1);
    var w2 := Act(w1, i, Fetch);
    Pops(w2, i, q);
    AloneTwice(w, i, a + 1, 1);
    n := a + 2;
  }

  lemma Pops(w: World, i: nat, q: nat)
    requires i < |w.threads| && w.threads[i] == Serving(q, 0, 1) && Waits(w, q)
    ensures var w' := Alone(w, i, 1);
      && Known(w', q)
      && w'.services[q].handled == w.services[q].handled + [Dispatched(w.services[q].mail.messages[0])]
  {
    assert Alone(w, i, 1) == Alone(Act(w, i, Fetch), i, 0);
  }

  // ----- whole runs -----

  /** The state after all creators that were about to make a queue have made it. */
  function Readied(w: World, n: nat): (v: World)
    requires n <= |w.threads|
    ensures |v.threads| == |w.threads|
  {
    if n == 0 then w
    else
      var v := Readied(w, n - 1);
      if v.threads[n - 1].Registered? then OwnLength(v, n - 1, Fetch); Act(v, n - 1, Fetch) else v
  }

  /** Apart from that everything is as it was. */
  ghost predicate SameBut(w: World, v: World, n: nat) {
    && |v.threads| == |w.threads| && v.global == w.global
    && (forall j :: 0 <= j < |w.threads| && !w.threads[j].Registered? ==> v.threads[j] == w.threads[j])
    && (forall j :: n <= j < |w.threads| ==> v.threads[j] == w.threads[j])
    && (forall j :: 0 <= j < n <= |w.threads| ==> !v.threads[j].Registered?)
    && forall h {:trigger Known(v, h)} {:trigger Known(w, h)} :: Known(v, h) == Known(w, h) &&
         (Known(w, h) ==> v.services[h] == w.services[h].(queued := v.services[h].queued))
  }

  ghost predicate Settled(w: World) {
    Inv(w) && forall h {:trigger UnsetOk(w, h)} :: UnsetOk(w, h)
  }

  lemma {:induction false} ReadiedSame(w: World, n: nat)
    requires n <= |w.threads| && Settled(w)
    ensures Settled(Readied(w, n)) && SameBut(w, Readied(w, n), n)
  {
    hide Act, Inv, UnsetOk, SameBut, Settled;
    if n == 0 {
      NoneReadied(w);
    } else {
      ReadiedSame(w, n - 1);
      var v := Readied(w, n - 1);
      if v.threads[n - 1].Registered? {
        ReadiesOne(w, v, n - 1);
      } else {
        OneNotReadied(w, v, n - 1);
      }
    }
  }

  lemma NoneReadied(w: World)
    ensures SameBut(w, w, 0)
  {
  }

  lemma OneNotReadied(w: World, v: World, j: nat)
    requires j < |v.threads| && SameBut(w, v, j) && !v.threads[j].Registered?
    ensures SameBut(w, v, j + 1)
  {
  }

  lemma ReadiesOne(w: World, v: World, j: nat)
    requires j < |v.threads| == |w.threads| && SameBut(w, v, j) && Settled(v) && v.threads[j].Registered?
    ensures Settled(Act(v, j, Fetch)) && SameBut(w, Act(v, j, Fetch), j + 1)
  {
    hide Act, Inv, UnsetOk, SameBut;
    var u := Act(v, j, Fetch);
    ActKeeps(v, j, Fetch);
    forall h ensures UnsetOk(u, h) { ActUnset(v, j, Fetch, h); }
    ThreadUses(v, j);
    OneReadied(w, v, j);
  }

  lemma OneReadied(w: World, v: World, j: nat)
    requires j < |w.threads| && SameBut(w, v, j) && v.threads[j].Registered? && Known(v, v.threads[j].q)
    ensures SameBut(w, Act(v, j, Fetch), j + 1)
  {
  }

  /** Then every registered context has its queue. */
  lemma AllReady(v: World)
    requires Settled(v) && forall j :: 0 <= j < |v.threads| ==> !v.threads[j].Registered?
    ensures AllSet(v)
  {
    hide Inv;
    forall h {:trigger Known(v, h)} | Known(v, h) ensures v.services[h].queued {
      assert UnsetOk(v, h);
    }
  }

  /** A way from one state to another, step by step. */
  ghost predicate Path(path: seq<World>, w: World, v: World) {
    && path != [] && path[0] == w && path[|path| - 1] == v
    && forall k :: 0 < k < |path| ==> StepAt(path, k)
  }

  lemma PathOn(path: seq<World>, w: World, u: World, v: World)
    requires Path(path, w, u) && Steps(u, v)
    ensures Path(path + [v], w, v)
  {
    hide Steps;
    var longer := path + [v];
    forall k | 0 < k < |longer| ensures StepAt(longer, k) {
      if k < |path| { assert StepAt(path, k); }
    }
  }

  lemma {:induction false} ReadiedPath(w: World, n: nat) returns (path: seq<World>)
    requires n <= |w.threads|
    ensures Path(path, w, Readied(w, n))
  {
    hide Act, Path;
    if n == 0 {
      path := [w];
      assert Path(path, w, w) by { PathHere(w); }
    } else {
      path := ReadiedPath(w, n - 1);
      var v := Readied(w, n - 1);
      if v.threads[n - 1].Registered? {
        PathOn(path, w, v, Act(v, n - 1, Fetch));
        path := path + [Act(v, n - 1, Fetch)];
      }
    }
  }

  lemma PathHere(w: World)
    ensures Path([w], w, w)
  {
  }

  lemma {:induction false} AlonePath(path: seq<World>, w: World, v: World, i: nat, n: nat) returns (longer: seq<World>)
    requires Path(path, w, v) && i < |v.threads|
    ensures Path(longer, w, Alone(v, i, n))
    decreases n
  {
    hide Act, Path;
    if n == 0 {
      longer := path;
    } else {
      OwnLength(v, i, Fetch);
      PathOn(path, w, v, Act(v, i, Fetch));
      longer := AlonePath(path + [Act(v, i, Fetch)], w, Act(v, i, Fetch), i, n - 1);
    }
  }

  /** Two runs make one. */
  lemma RunOn(run: seq<World>, k: nat, path: seq<World>, v: World)
    requires Run(run) && k < |run| && Path(path, run[k], v)
    ensures Run(run[..k] + path)
  {
    hide Steps, Initial;
    var longer := run[..k] + path;
    assert longer[0] == run[0];
    forall l | 0 < l < |longer| ensures StepAt(longer, l) {
      if l <= k { assert StepAt(run, l); } else { assert StepAt(path, l - k); }
    }
  }

  /** From every state of every run in which a thread is idle, the first message of a listed queue
      whose service is registered can be dispatched: by steps of that thread alone, after those of
      creators that have still to make a queue. */
  lemma MailIsDispatched(run: seq<World>, k: nat, i: nat, q: nat) returns (longer: seq<World>)
    requires Run(run) && k < |run| && i < |run[k].threads| && run[k].threads[i] == At(Stop)
    requires Waits(run[k], q) && q in run[k].global
    ensures Run(longer) && run[..k + 1] <= longer && Known(longer[|longer| - 1], q)
    ensures var (s, s') := (run[k].services[q], longer[|longer| - 1].services[q]);
      s'.handled == s.handled + [Dispatched(s.mail.messages[0])]
  {
    hide Inv, AllSet, Act, Path, Run, Readied, Alone, Waits;
    var w := run[k];
    SettledRun(run, k);
    var v := Readied(w, |w.threads|);
    ReadiedWaits(w, i, q);
    var path := ReadiedPath(w, |w.threads|);
    var n := WorkerDispatches(v, i, q);
    var all := AlonePath(path, w, v, i, n);
    RunOn(run, k, all, Alone(v, i, n));
    PathBegins(all, w, Alone(v, i, n));
    longer := run[..k] + all;
    assert run[..k + 1] == run[..k] + [w];
  }

  lemma ReadiedWaits(w: World, i: nat, q: nat)
    requires Settled(w) && i < |w.threads| && w.threads[i] == At(Stop) && Waits(w, q) && q in w.global
    ensures var v := Readied(w, |w.threads|);
      && Fit(v, i) && v.threads[i] == At(Stop) && Waits(v, q) && q in v.global
      && v.services[q].handled == w.services[q].handled && v.services[q].mail == w.services[q].mail
  {
    hide Inv, AllSet, Readied, UnsetOk;
    ReadiedSame(w, |w.threads|);
    AllReady(Readied(w, |w.threads|));
    assert Known(Readied(w, |w.threads|), q) == Known(w, q);
  }

  lemma PathBegins(path: seq<World>, w: World, v: World)
    requires Path(path, w, v)
    ensures path != [] && path[0] == w && path[|path| - 1] == v && [w] <= path
  {
  }

  lemma SettledRun(run: seq<World>, k: nat)
    requires Run(run) && k < |run|
    ensures Settled(run[k])
  {
    hide Run, Inv, UnsetOk;
    RunKeeps(run, k);
    forall h ensures UnsetOk(run[k], h) { RunUnset(run, k, h); }
  }
}

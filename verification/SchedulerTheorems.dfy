/** The scheduler's guarantees, for every state of every run that begins without services. */
module SchedulerTheorems {
  import opened SchedulerQueue
  import opened Scheduler
  import opened SchedulerSafety
  import opened SchedulerRuns

  // ----- one holder per queue -----

  predicate Holds(t: Thread, q: nat) { Weight(t, q).tokens > 0 }

  /** Dispatching for a service, from taking its queue to letting go of it. */
  predicate Dispatches(t: Thread, q: nat) {
    (t.Serving? || t.Measuring? || t.Working? || t.Ending? || t.Swapping?) && t.q == q
  }

  lemma {:induction false} CountFinds(threads: seq<Thread>, h: nat) returns (i: nat)
    requires Count(threads, h).tokens > 0
    ensures i < |threads| && Holds(threads[i], h)
  {
    var n := |threads| - 1;
    if Holds(threads[n], h) {
      i := n;
    } else {
      i := CountFinds(threads[..n], h);
    }
  }

  lemma {:induction false} OccursTwice(list: seq<nat>, i: nat, j: nat)
    requires i < j < |list| && list[i] == list[j]
    ensures Occurs(list, list[i]) >= 2
  {
    var n := |list| - 1;
    if j < n {
      OccursTwice(list[..n], i, j);
    } else {
      assert list[..n][i] == list[i];
      OccursIn(list[..n], list[i]);
    }
  }

  /** The scheduling token: a queue is on the list or held by a thread exactly when its flag, or
      the release of it, says so, and then only once. */
  lemma TokenExact(run: seq<World>, k: nat, h: nat)
    requires Run(run) && k < |run| && Known(run[k], h)
    ensures var (w, s) := (run[k], run[k].services[h]);
      && Count(w.threads, h).tokens + Occurs(w.global, h) <= 1
      && (Count(w.threads, h).tokens + Occurs(w.global, h) == 1 <==> (s.mail.inGlobal || s.mail.release) && !s.freed)
  {
    hide Count, Occurs, Run;
    RunKeeps(run, k);
    assert ServiceOk(run[k].services[h], Count(run[k].threads, h), Occurs(run[k].global, h));
  }

  /** Two threads never serve one service, and never one whose queue is on the list. */
  lemma NeverTwoDispatchers(run: seq<World>, k: nat, i: nat, j: nat, q: nat)
    requires Run(run) && k < |run| && i < |run[k].threads| && j < |run[k].threads|
    requires Dispatches(run[k].threads[i], q) && Holds(run[k].threads[j], q)
    ensures i == j && q !in run[k].global
  {
    hide Run, Inv;
    RunKeeps(run, k);
    ThreadKnown(run[k], i);
    if i != j {
      OneHolder(run[k], i, j, q);
    }
    NotListed(run[k], i, q);
  }

  /** A service with mail is on the list or held by a thread. */
  lemma MailNotForgotten(run: seq<World>, k: nat, h: nat)
    requires Run(run) && k < |run| && Known(run[k], h) && run[k].services[h].mail.messages != []
    ensures h in run[k].global || exists i :: 0 <= i < |run[k].threads| && Holds(run[k].threads[i], h)
  {
    hide Count, Occurs, Run, Weight, Holds;
    RunKeeps(run, k);
    var w := run[k];
    assert ServiceOk(w.services[h], Count(w.threads, h), Occurs(w.global, h));
    OccursIn(w.global, h);
    if h !in w.global {
      var i := CountFinds(w.threads, h);
    }
  }

  /** No queue is on the list twice. */
  lemma ListedOnce(run: seq<World>, k: nat, i: nat, j: nat)
    requires Run(run) && k < |run| && i < j < |run[k].global|
    ensures run[k].global[i] != run[k].global[j]
  {
    hide Count, Occurs, Run;
    RunKeeps(run, k);
    var (w, h) := (run[k], run[k].global[i]);
    assert h in w.global;
    assert ServiceOk(w.services[h], Count(w.threads, h), Occurs(w.global, h));
    if h == w.global[j] {
      OccursTwice(w.global, i, j);
    }
  }

  /** The threads whose next step puts a queue on the list. */
  predicate Links(w: World, t: Thread, q: nat) {
    match t
    case At(next) => (next.Announce? || (next.Settle? && !Get(w, q).mail.release)) && next.q == q
    case Swapping(p, _) => p == q
    case Sending(p, _, _) => p == q && !Get(w, q).mail.inGlobal
    case Deleting(p, _) => p == q && !Get(w, q).mail.inGlobal
    case _ => false
  }

  /** A queue that is about to be linked into the list is not on it, so its link is clear. */
  lemma LinkIsClear(run: seq<World>, k: nat, i: nat, q: nat)
    requires Run(run) && k < |run| && i < |run[k].threads| && Links(run[k], run[k].threads[i], q)
    ensures Known(run[k], q) && q !in run[k].global
    ensures !Holds(run[k].threads[i], q) ==> forall j :: 0 <= j < |run[k].threads| ==> !Holds(run[k].threads[j], q)
  {
    hide Count, Occurs, Run, Inv;
    RunKeeps(run, k);
    var w := run[k];
    ThreadKnown(w, i);
    var rest := Facts(w, i, q);
    OccursIn(w.global, q);
    if !Holds(w.threads[i], q) {
      forall j | 0 <= j < |w.threads| ensures !Holds(w.threads[j], q) {
        CountOne(w.threads, j, q);
      }
    }
  }

  // ----- lifetimes -----

  /** A thread that holds a counted reference to a context. */
  predicate Refers(t: Thread, h: nat) { Weight(t, h).refs > 0 }

  lemma {:induction false} NoneRefers(threads: seq<Thread>, h: nat)
    ensures Count(threads, h).refs == 0 <==> forall i :: 0 <= i < |threads| ==> !Refers(threads[i], h)
  {
    hide Weight;
    if threads != [] {
      var n := |threads| - 1;
      NoneRefers(threads[..n], h);
      assert forall i :: 0 <= i < n ==> threads[..n][i] == threads[i];
    }
  }

  /** A context is deleted exactly when its handle is retired and no thread refers to it, and it
      is deleted once. */
  lemma DeletedExactly(run: seq<World>, k: nat, h: nat)
    requires Run(run) && k < |run| && Known(run[k], h)
    ensures var (w, s) := (run[k], run[k].services[h]);
      && s.deleted <= 1
      && (s.deleted == 1 <==> !s.registered && forall i :: 0 <= i < |w.threads| ==> !Refers(w.threads[i], h))
  {
    hide Count, Occurs, Run;
    RunKeeps(run, k);
    assert ServiceOk(run[k].services[h], Count(run[k].threads, h), Occurs(run[k].global, h));
    NoneRefers(run[k].threads, h);
  }

  /** The assertion of skynet_mq_mark_release holds, and only one thread is about to run it. */
  lemma MarkedOnce(run: seq<World>, k: nat, i: nat, j: nat, h: nat)
    requires Run(run) && k < |run| && i < |run[k].threads| && j < |run[k].threads|
    requires run[k].threads[i].Deleting? && run[k].threads[i].q == h
    ensures Known(run[k], h) && !run[k].services[h].mail.release
    ensures run[k].threads[j].Deleting? && run[k].threads[j].q == h ==> i == j
  {
    hide Count, Occurs, Run, Inv;
    RunKeeps(run, k);
    var w := run[k];
    ThreadKnown(w, i);
    var rest := Facts(w, i, h);
    if i != j && w.threads[j].Deleting? && w.threads[j].q == h {
      DeletingTwo(w.threads, if i < j then i else j, if i < j then j else i, h);
    }
  }

  lemma {:induction false} DeletingTwo(threads: seq<Thread>, i: nat, j: nat, h: nat)
    requires i < j < |threads|
    ensures Weight(threads[i], h).deletions + Weight(threads[j], h).deletions <= Count(threads, h).deletions
  {
    hide Weight;
    var n := |threads| - 1;
    if j < n {
      DeletingTwo(threads[..n], i, j, h);
    } else {
      CountOne(threads[..n], i, h);
    }
  }

  /** No thread that pushes to, pops from or releases a queue finds it freed. */
  lemma QueueAlive(run: seq<World>, k: nat, i: nat, q: nat)
    requires Run(run) && k < |run| && i < |run[k].threads|
    requires var t := run[k].threads[i]; Holds(t, q) || Refers(t, q) || (t.Deleting? && t.q == q)
    ensures Known(run[k], q) && !run[k].services[q].freed
  {
    hide Count, Occurs, Run, Inv;
    RunKeeps(run, k);
    ThreadKnown(run[k], i);
    var rest := Facts(run[k], i, q);
  }

  /** Messages are dispatched only to a context that is initialized and not deleted. */
  lemma DispatchInitialized(run: seq<World>, k: nat, i: nat, q: nat)
    requires Run(run) && k < |run| && i < |run[k].threads| && Dispatches(run[k].threads[i], q)
    ensures Known(run[k], q) && run[k].services[q].init && run[k].services[q].deleted == 0
  {
    hide Count, Occurs, Run, Inv;
    RunKeeps(run, k);
    ThreadKnown(run[k], i);
    var rest := Facts(run[k], i, q);
  }

  // ----- messages -----

  /** What was accepted is what was dispatched, then dropped, then still waits, in push order; a
      freed queue leaves nothing out. */
  lemma Conserved(run: seq<World>, k: nat, h: nat)
    requires Run(run) && k < |run| && Known(run[k], h)
    ensures var s := run[k].services[h];
      && s.accepted == Messages(s.handled) + s.mail.messages
      && (s.freed ==> s.accepted == Messages(s.handled))
      && DropsLast(s)
  {
    hide Count, Occurs, Run;
    RunKeeps(run, k);
    assert ServiceOk(run[k].services[h], Count(run[k].threads, h), Occurs(run[k].global, h));
  }

  /** How a service may change from one state to a later one. */
  predicate Grows(s: Service, s': Service) {
    && s.accepted <= s'.accepted && s.handled <= s'.handled && s.deleted <= s'.deleted
    && (s.deleted > 0 ==> s'.accepted == s.accepted)
  }

  predicate Grew(w: World, w': World, h: nat) {
    Known(w, h) && Known(w', h) && Grows(w.services[h], w'.services[h])
  }

  lemma BeginGrows(w: World, i: nat, c: Choice, h: nat)
    requires i < |w.threads| && Known(w, h) && h < w.nextHandle
    ensures Grew(w, Begin(w, i, c), h)
  {
  }

  lemma ProceedGrows(w: World, i: nat, next: Next, h: nat)
    requires i < |w.threads| && Known(w, h)
    ensures Grew(w, Proceed(w, i, next), h)
  {
  }

  lemma PushGrows(w: World, i: nat, q: nat, m: Message, next: Next, h: nat)
    requires i < |w.threads| && Known(w, h) && Get(w, q).deleted == 0
    ensures Grew(w, PushStep(w, i, q, m, next), h)
  {
  }

  lemma SendGrows(w: World, i: nat, q: nat, m: Message, next: Next, h: nat)
    requires i < |w.threads| && Known(w, h) && Get(w, q).deleted == 0
    ensures Grew(w, SendStep(w, i, q, m, next), h)
  {
    hide Grew, PushStep;
    if Get(w, q).queued { PushGrows(w, i, q, m, next, h); } else { MoveGrows(w, i, Stray(q, next), h); }
  }

  lemma MoveGrows(w: World, i: nat, t: Thread, h: nat)
    requires i < |w.threads| && Known(w, h)
    ensures Grew(w, Move(w, i, t), h)
  {
  }

  lemma ServeGrows(w: World, i: nat, q: nat, k: nat, n: nat, measure: bool, h: nat)
    requires i < |w.threads| && Known(w, h)
    ensures Grew(w, ServeStep(w, i, q, k, n, measure), h)
  {
  }

  lemma ReleaseGrows(w: World, i: nat, q: nat, next: Next, h: nat)
    requires i < |w.threads| && Known(w, h)
    ensures Grew(w, ReleaseStep(w, i, q, next), h)
    ensures Grew(w, MarkStep(w, i, q, next), h)
  {
  }

  lemma ReplyGrows(w: World, i: nat, q: nat, got: Thread, missed: Thread, h: nat)
    requires i < |w.threads| && Known(w, h)
    ensures Grew(w, GrabThen(w, i, q, got, missed), h)
  {
    hide Grew;
    if Get(w, q).registered { GrabGrows(w, i, q, got, h); } else { MoveGrows(w, i, missed, h); }
  }

  lemma GrabGrows(w: World, i: nat, q: nat, got: Thread, h: nat)
    requires i < |w.threads| && Known(w, h)
    ensures Grew(w, Put(w, i, got, q, Get(w, q).(refs := Get(w, q).refs + 1), w.global), h)
  {
  }

  lemma OtherGrows(w: World, i: nat, c: Choice, h: nat)
    requires i < |w.threads| && Known(w, h) && !w.threads[i].At? && !w.threads[i].Sending?
    ensures Grew(w, Act(w, i, c), h)
  {
    hide Halved, ServeStep, ReleaseStep, MarkStep, GrabThen;
    match w.threads[i]
    case Serving(q, k, n) => ServeGrows(w, i, q, k, n, c.Weigh? && c.measure, h);
    case Releasing(q, next) => ReleaseGrows(w, i, q, next, h);
    case Deleting(q, next) => ReleaseGrows(w, i, q, next, h);
    case Replying(q, m) =>
      ReplyGrows(w, i, m.source, Sending(m.source, Message(q, 0, PTYPE_ERROR, []), Discard(q)), At(Discard(q)), h);
    case _ =>
  }

  lemma ActGrows(w: World, i: nat, c: Choice, h: nat)
    requires Inv(w) && i < |w.threads| && Known(w, h)
    ensures Grew(w, Act(w, i, c), h)
  {
    hide Count, Occurs, ServiceOk, ThreadOk, Grew, Begin, Proceed, SendStep, ServeStep, ReleaseStep, MarkStep, GrabThen;
    match w.threads[i]
    case At(Stop) => BeginGrows(w, i, c, h);
    case At(next) => ProceedGrows(w, i, next, h);
    case Sending(q, m, next) =>
      assert Known(w, q) by { ThreadKnown(w, i); }
      SendingLive(w, i, q);
      SendGrows(w, i, q, m, next, h);
    case _ => OtherGrows(w, i, c, h);
  }

  lemma SendingLive(w: World, i: nat, q: nat)
    requires Inv(w) && i < |w.threads| && w.threads[i].Sending? && w.threads[i].q == q && Known(w, q)
    ensures w.services[q].deleted == 0
  {
    hide Count, Occurs, Inv;
    var rest := Facts(w, i, q);
  }

  /** What is accepted or taken stays so, and nothing is accepted after the deletion. */
  lemma {:induction false} NothingAfterDeletion(run: seq<World>, k: nat, l: nat, h: nat)
    requires Run(run) && k <= l < |run| && Known(run[k], h)
    ensures Known(run[l], h) && Grows(run[k].services[h], run[l].services[h])
    decreases l
  {
    hide Run, Inv, Grows, Steps;
    if k == l {
      GrowsSelf(run[k].services[h]);
    } else {
      NothingAfterDeletion(run, k, l - 1, h);
      RunKeeps(run, l - 1);
      RunSteps(run, l);
      StepGrows(run[l - 1], run[l], h);
      GrowsTwice(run[k].services[h], run[l - 1].services[h], run[l].services[h]);
    }
  }

  lemma RunSteps(run: seq<World>, l: nat)
    requires Run(run) && 0 < l < |run|
    ensures Steps(run[l - 1], run[l])
  {
    hide Steps;
    assert StepAt(run, l);
  }

  lemma GrowsSelf(s: Service)
    ensures Grows(s, s)
  {
  }

  lemma GrowsTwice(a: Service, b: Service, c: Service)
    requires Grows(a, b) && Grows(b, c)
    ensures Grows(a, c)
  {
  }

  lemma StepGrows(w: World, w': World, h: nat)
    requires Inv(w) && Steps(w, w') && Known(w, h)
    ensures Grew(w, w', h)
  {
    hide Inv, Act;
    var i: nat, c :| i < |w.threads| && w' == Act(w, i, c);
    ActGrows(w, i, c, h);
  }
}

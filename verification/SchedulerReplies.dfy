/** Every message that is dropped is answered once: its source is sent an error, and the error is
    accepted if the source is still registered. */
module SchedulerReplies {
  import opened SchedulerQueue
  import opened Scheduler
  import opened SchedulerSafety
  import opened SchedulerRuns
  import opened SchedulerTheorems

  /** The messages of a service that were dropped, in order. */
  function DroppedOf(handled: seq<Handled>): seq<Message> {
    if handled == [] then []
    else
      var last := handled[|handled| - 1];
      DroppedOf(handled[..|handled| - 1]) + if last.Dropped? then [last.m] else []
  }

  /** The messages of a service whose sources an error was sent to, in order. */
  function RepliedOf(replies: seq<Reply>, q: nat): seq<Message> {
    if replies == [] then []
    else
      var last := replies[|replies| - 1];
      RepliedOf(replies[..|replies| - 1], q) + if last.q == q then [last.m] else []
  }

  /** What one thread has dropped and not yet answered. */
  function OwedBy(t: Thread, q: nat): seq<Message> {
    if t.Replying? && t.q == q then [t.m] else []
  }

  /** What all threads have; at most one has anything. */
  function Owed(threads: seq<Thread>, q: nat): seq<Message> {
    if threads == [] then [] else Owed(threads[..|threads| - 1], q) + OwedBy(threads[|threads| - 1], q)
  }

  ghost predicate Answered(w: World, q: nat) {
    DroppedOf(Get(w, q).handled) == RepliedOf(w.replies, q) + Owed(w.threads, q)
  }

  lemma DroppedLast(handled: seq<Handled>, x: Handled)
    ensures DroppedOf(handled + [x]) == DroppedOf(handled) + if x.Dropped? then [x.m] else []
  {
    assert (handled + [x])[..|handled|] == handled;
  }

  lemma RepliedLast(replies: seq<Reply>, x: Reply, q: nat)
    ensures RepliedOf(replies + [x], q) == RepliedOf(replies, q) + if x.q == q then [x.m] else []
  {
    assert (replies + [x])[..|replies|] == replies;
  }

  /** When no other thread owes anything, moving one says what is owed. */
  lemma {:induction false} OwedMove(threads: seq<Thread>, i: nat, t: Thread, q: nat)
    requires i < |threads|
    requires forall j :: 0 <= j < |threads| && j != i ==> OwedBy(threads[j], q) == []
    ensures Owed(threads[i := t], q) == OwedBy(t, q)
    ensures Owed(threads, q) == OwedBy(threads[i], q)
  {
    hide OwedBy;
    var (n, after) := (|threads| - 1, threads[i := t]);
    if i == n {
      assert after[..n] == threads[..n];
      OwedNone(threads[..n], q);
    } else {
      OwedMove(threads[..n], i, t, q);
      assert after[..n] == threads[..n][i := t];
    }
  }

  lemma {:induction false} OwedNone(threads: seq<Thread>, q: nat)
    requires forall j :: 0 <= j < |threads| ==> OwedBy(threads[j], q) == []
    ensures Owed(threads, q) == []
  {
    hide OwedBy;
    if threads != [] {
      OwedNone(threads[..|threads| - 1], q);
    }
  }

  lemma {:induction false} OwedSame(threads: seq<Thread>, i: nat, t: Thread, q: nat)
    requires i < |threads| && OwedBy(threads[i], q) == OwedBy(t, q)
    ensures Owed(threads[i := t], q) == Owed(threads, q)
  {
    hide OwedBy;
    var (n, after) := (|threads| - 1, threads[i := t]);
    if i == n {
      assert after[..n] == threads[..n];
    } else {
      OwedSame(threads[..n], i, t, q);
      assert after[..n] == threads[..n][i := t];
    }
  }

  /** A thread that holds a queue is the only one that may owe a reply for it. */
  lemma OnlyHolderOwes(w: World, i: nat, q: nat)
    requires Inv(w) && i < |w.threads| && Known(w, q) && Weight(w.threads[i], q).tokens > 0
    ensures forall j :: 0 <= j < |w.threads| && j != i ==> OwedBy(w.threads[j], q) == []
  {
    hide Inv;
    forall j | 0 <= j < |w.threads| && j != i ensures OwedBy(w.threads[j], q) == [] {
      OneHolder(w, i, j, q);
    }
  }

  // ----- one step -----

  /** A step that neither drops nor answers anything. */
  predicate Quiet(w: World, w': World, i: nat, q: nat) {
    && i < |w.threads| == |w'.threads| && w'.threads == w.threads[i := w'.threads[i]]
    && !w.threads[i].Replying? && !w'.threads[i].Replying?
    && w'.replies == w.replies && DroppedOf(Get(w', q).handled) == DroppedOf(Get(w, q).handled)
  }

  lemma QuietAnswers(w: World, w': World, i: nat, q: nat)
    requires Answered(w, q) && Quiet(w, w', i, q)
    ensures Answered(w', q)
  {
    OwedSame(w.threads, i, w'.threads[i], q);
  }

  lemma BeginQuiet(w: World, i: nat, c: Choice, q: nat)
    requires i < |w.threads| && w.threads[i] == At(Stop) && !Known(w, w.nextHandle)
    ensures Quiet(w, Begin(w, i, c), i, q)
  {
    hide DroppedOf;
  }

  lemma ProceedQuiet(w: World, i: nat, next: Next, q: nat)
    requires i < |w.threads| && w.threads[i] == At(next) && (next.Stop? || Known(w, next.q) || next.Tell?)
    requires next.Discard? ==> Get(w, next.q).mail.messages == []
    ensures Quiet(w, Proceed(w, i, next), i, q)
  {
    hide DroppedOf;
  }

  lemma ServeQuiet(w: World, i: nat, p: nat, k: nat, n: nat, measure: bool, q: nat)
    requires i < |w.threads| && w.threads[i] == Serving(p, k, n) && Known(w, p)
    ensures Quiet(w, ServeStep(w, i, p, k, n, measure), i, q)
  {
    var s := Get(w, p);
    if s.mail.messages != [] {
      DroppedLast(s.handled, Dispatched(s.mail.messages[0]));
    }
    hide DroppedOf;
  }

  lemma PushQuiet(w: World, i: nat, h: nat, m: Message, next: Next, q: nat)
    requires i < |w.threads| && w.threads[i] == Sending(h, m, next) && Known(w, h)
    ensures Quiet(w, PushStep(w, i, h, m, next), i, q)
  {
    hide DroppedOf;
  }

  lemma SendQuiet(w: World, i: nat, h: nat, m: Message, next: Next, q: nat)
    requires i < |w.threads| && w.threads[i] == Sending(h, m, next) && Known(w, h)
    ensures Quiet(w, SendStep(w, i, h, m, next), i, q)
  {
    hide DroppedOf, PushStep;
    if Get(w, h).queued { PushQuiet(w, i, h, m, next, q); }
  }

  lemma ReleaseQuiet(w: World, i: nat, h: nat, next: Next, q: nat)
    requires i < |w.threads| && !w.threads[i].Replying? && Known(w, h)
    ensures Quiet(w, ReleaseStep(w, i, h, next), i, q)
    ensures Quiet(w, MarkStep(w, i, h, next), i, q)
  {
    hide DroppedOf;
  }

  lemma OtherQuiet(w: World, i: nat, c: Choice, q: nat)
    requires i < |w.threads|
    requires var t := w.threads[i];
      t.Creating? || t.Measuring? || t.Working? || t.Stray?
      || ((t.Registered? || t.Ending? || t.Swapping? || t.Freeing?) && Known(w, t.q))
    ensures Quiet(w, Act(w, i, c), i, q)
  {
    hide DroppedOf, Halved;
  }

  /** The thread that takes a message to be dropped owes its reply. */
  lemma DiscardAnswers(w: World, i: nat, p: nat, q: nat)
    requires Inv(w) && i < |w.threads| && w.threads[i] == At(Discard(p)) && Known(w, p)
    requires Get(w, p).mail.messages != [] && Answered(w, q)
    ensures Answered(DiscardStep(w, i, p), q)
  {
    hide Inv, DroppedOf, RepliedOf, Owed;
    var s := w.services[p];
    var m := s.mail.messages[0];
    DroppedLast(s.handled, Dropped(m));
    if q == p {
      OnlyHolderOwes(w, i, q);
      OwedMove(w.threads, i, Replying(q, m), q);
    } else {
      OwedSame(w.threads, i, Replying(p, m), q);
    }
  }

  /** The reply that was owed is sent. */
  lemma ReplyAnswers(w: World, i: nat, p: nat, m: Message, q: nat)
    requires Inv(w) && i < |w.threads| && w.threads[i] == Replying(p, m) && Known(w, p) && Answered(w, q)
    ensures Answered(ReplyStep(w, i, p, m), q)
  {
    hide Inv, DroppedOf, RepliedOf, Owed;
    var w' := ReplyStep(w, i, p, m);
    RepliedLast(w.replies, Reply(p, m, Get(w, m.source).registered), q);
    assert w'.threads == w.threads[i := w'.threads[i]] && OwedBy(w'.threads[i], q) == [];
    assert Get(w', q).handled == Get(w, q).handled;
    if q == p {
      OnlyHolderOwes(w, i, q);
      OwedMove(w.threads, i, w'.threads[i], q);
    } else {
      OwedSame(w.threads, i, w'.threads[i], q);
    }
  }

  lemma NextNew(w: World)
    requires Inv(w)
    ensures !Known(w, w.nextHandle)
  {
  }

  lemma ThreadUses(w: World, i: nat)
    requires Inv(w) && i < |w.threads|
    ensures var t := w.threads[i]; !t.At? ==> Known(w, t.q)
    ensures var t := w.threads[i]; t.At? && !t.next.Stop? && !t.next.Tell? ==> Known(w, t.next.q)
  {
    assert ThreadOk(w, w.threads[i]);
  }

  lemma AtAnswers(w: World, i: nat, c: Choice, q: nat)
    requires Inv(w) && i < |w.threads| && w.threads[i].At? && Answered(w, q)
    ensures Answered(Act(w, i, c), q)
  {
    hide Inv, Begin, Proceed, Quiet, Answered, Act;
    ThreadUses(w, i);
    var next := w.threads[i].next;
    if next.Stop? {
      NextNew(w);
      BeginQuiet(w, i, c, q);
      QuietAnswers(w, Begin(w, i, c), i, q);
      AtSteps(w, i, c);
    } else {
      AtSteps(w, i, c);
      if next.Discard? && Get(w, next.q).mail.messages != [] {
        DiscardAnswers(w, i, next.q, q);
      } else {
        ProceedQuiet(w, i, next, q);
        QuietAnswers(w, Proceed(w, i, next), i, q);
      }
    }
  }

  lemma AtSteps(w: World, i: nat, c: Choice)
    requires i < |w.threads| && w.threads[i].At?
    ensures var next := w.threads[i].next;
      && Act(w, i, c) == (if next.Stop? then Begin(w, i, c) else Proceed(w, i, next))
      && (next.Discard? ==> Act(w, i, c) == DiscardStep(w, i, next.q))
  {
    hide Begin;
  }

  /** Every step keeps every queue answered. */
  lemma ActAnswers(w: World, i: nat, c: Choice, q: nat)
    requires Inv(w) && i < |w.threads| && Answered(w, q)
    ensures Answered(Act(w, i, c), q)
  {
    hide Inv, Quiet, Answered, Begin, Proceed, ServeStep, SendStep, ReleaseStep, MarkStep, ReplyStep, Halved;
    ThreadUses(w, i);
    match w.threads[i]
    case At(_) => AtAnswers(w, i, c, q);
    case Serving(p, k, n) =>
      ServeQuiet(w, i, p, k, n, c.Weigh? && c.measure, q);
      QuietAnswers(w, Act(w, i, c), i, q);
    case Sending(h, m, next) =>
      SendQuiet(w, i, h, m, next, q);
      QuietAnswers(w, Act(w, i, c), i, q);
    case Releasing(h, next) =>
      ReleaseQuiet(w, i, h, next, q);
      QuietAnswers(w, Act(w, i, c), i, q);
    case Deleting(h, next) =>
      ReleaseQuiet(w, i, h, next, q);
      QuietAnswers(w, Act(w, i, c), i, q);
    case Replying(p, m) => ReplyAnswers(w, i, p, m, q);
    case _ =>
      OtherQuiet(w, i, c, q);
      QuietAnswers(w, Act(w, i, c), i, q);
  }

  // ----- runs -----

  lemma {:induction false} RunAnswers(run: seq<World>, k: nat, q: nat)
    requires Run(run) && k < |run|
    ensures Answered(run[k], q)
  {
    hide Steps, Inv, Answered;
    if k == 0 {
      InitialAnswers(run[0], q);
    } else {
      RunAnswers(run, k - 1, q);
      RunKeeps(run, k - 1);
      RunSteps(run, k);
      StepAnswers(run[k - 1], run[k], q);
    }
  }

  lemma InitialAnswers(w: World, q: nat)
    requires Initial(w)
    ensures Answered(w, q)
  {
    OwedNone(w.threads, q);
  }

  lemma StepAnswers(w: World, w': World, q: nat)
    requires Inv(w) && Steps(w, w') && Answered(w, q)
    ensures Answered(w', q)
  {
    hide Inv, Act, Answered;
    var i: nat, c :| i < |w.threads| && w' == Act(w, i, c);
    ActAnswers(w, i, c, q);
  }

  /** The messages a service dropped are, in order, those answered and at most one that a thread is
      about to answer; once its queue is freed, all are answered. */
  lemma EveryDropAnswered(run: seq<World>, k: nat, q: nat)
    requires Run(run) && k < |run| && Known(run[k], q)
    ensures var (w, s) := (run[k], run[k].services[q]);
      && DroppedOf(s.handled) == RepliedOf(w.replies, q) + Owed(w.threads, q)
      && |Owed(w.threads, q)| <= 1
      && (s.freed ==> DroppedOf(s.handled) == RepliedOf(w.replies, q))
  {
    hide Inv, Run, DroppedOf, RepliedOf, Owed, Weight;
    RunKeeps(run, k);
    RunAnswers(run, k, q);
    OwedOnce(run[k], q);
  }

  lemma OwedOnce(w: World, q: nat)
    requires Inv(w) && Known(w, q)
    ensures |Owed(w.threads, q)| <= 1
    ensures w.services[q].freed ==> Owed(w.threads, q) == []
  {
    hide Inv, Owed;
    if j: nat :| j < |w.threads| && w.threads[j].Replying? && w.threads[j].q == q {
      OnlyHolderOwes(w, j, q);
      OwedMove(w.threads, j, w.threads[j], q);
      NotListed(w, j, q);
    } else {
      OwedNone(w.threads, q);
    }
  }

  // ----- the reply itself -----

  /** A step changes no other thread. */
  lemma OneMoves(w: World, w': World, i: nat)
    requires Inv(w) && Steps(w, w') && i < |w.threads|
    ensures |w'.threads| == |w.threads|
    ensures w'.threads[i] != w.threads[i] ==> exists c :: w' == Act(w, i, c)
  {
    hide Inv, Act;
    var j: nat, c :| j < |w.threads| && w' == Act(w, j, c);
    OnlyOwn(w, j, c);
  }

  predicate OwnOnly(w: World, w': World, j: nat) {
    |w'.threads| == |w.threads| && forall i :: 0 <= i < |w.threads| && i != j ==> w'.threads[i] == w.threads[i]
  }

  lemma OnlyOwn(w: World, j: nat, c: Choice)
    requires j < |w.threads|
    ensures |Act(w, j, c).threads| == |w.threads|
    ensures forall i :: 0 <= i < |w.threads| && i != j ==> Act(w, j, c).threads[i] == w.threads[i]
  {
    hide Begin, Proceed, ServeStep, SendStep, ReleaseStep, MarkStep, ReplyStep, Halved;
    match w.threads[j]
    case At(Stop) => OwnBegin(w, j, c);
    case At(next) => OwnProceed(w, j, next);
    case Serving(q, k, n) => OwnServe(w, j, q, k, n, c.Weigh? && c.measure);
    case Sending(h, m, next) => OwnSend(w, j, h, m, next);
    case Releasing(h, next) => OwnRelease(w, j, h, next);
    case Deleting(h, next) => OwnRelease(w, j, h, next);
    case Replying(q, m) => OwnReply(w, j, q, m);
    case _ =>
  }

  lemma OwnBegin(w: World, j: nat, c: Choice)
    requires j < |w.threads|
    ensures OwnOnly(w, Begin(w, j, c), j)
  {
  }

  lemma OwnProceed(w: World, j: nat, next: Next)
    requires j < |w.threads|
    ensures OwnOnly(w, Proceed(w, j, next), j)
  {
  }

  lemma OwnServe(w: World, j: nat, q: nat, k: nat, n: nat, measure: bool)
    requires j < |w.threads|
    ensures OwnOnly(w, ServeStep(w, j, q, k, n, measure), j)
  {
  }

  lemma OwnSend(w: World, j: nat, h: nat, m: Message, next: Next)
    requires j < |w.threads|
    ensures OwnOnly(w, SendStep(w, j, h, m, next), j)
  {
  }

  lemma OwnRelease(w: World, j: nat, h: nat, next: Next)
    requires j < |w.threads|
    ensures OwnOnly(w, ReleaseStep(w, j, h, next), j) && OwnOnly(w, MarkStep(w, j, h, next), j)
  {
  }

  lemma OwnReply(w: World, j: nat, q: nat, m: Message)
    requires j < |w.threads|
    ensures OwnOnly(w, ReplyStep(w, j, q, m), j)
  {
  }

  lemma {:induction false} SameLength(run: seq<World>, k: nat, l: nat)
    requires Run(run) && k <= l < |run|
    ensures |run[k].threads| == |run[l].threads|
    decreases l
  {
    hide Run, Steps, Inv;
    if k < l {
      SameLength(run, k, l - 1);
      RunKeeps(run, l - 1);
      RunSteps(run, l);
      if run[l - 1].threads != [] {
        OneMoves(run[l - 1], run[l], 0);
      } else {
        NoThreads(run[l - 1], run[l]);
      }
    }
  }

  lemma NoThreads(w: World, w': World)
    requires Steps(w, w')
    ensures w.threads != []
  {
  }

  /** When a thread that sends a message to a context goes on, the message is accepted, unless the
      context had no queue yet. */
  lemma {:induction false} SentIsAccepted(run: seq<World>, k: nat, l: nat, i: nat)
    requires Run(run) && k <= l < |run| && i < |run[k].threads| && run[k].threads[i].Sending?
    ensures |run[k].threads| == |run[l].threads|
    ensures run[l].threads[i] != run[k].threads[i] ==> Delivered(run[k], run[l], i)
    decreases l
  {
    hide Run, Steps, Inv, Act, Delivered;
    SameLength(run, k, l);
    if run[l].threads[i] != run[k].threads[i] {
      SameLength(run, k, l - 1);
      SentBefore(run, k, l, i);
    }
  }

  /** The message that thread i sends in w is among those its receiver has accepted by w', or the
      thread met no queue. */
  predicate Delivered(w: World, w': World, i: nat) {
    && i < |w.threads| == |w'.threads| && w.threads[i].Sending?
    && var t := w.threads[i];
      || w'.threads[i] == Stray(t.q, t.next)
      || (&& Known(w, t.q) && Known(w', t.q)
          && |w.services[t.q].accepted| <= |w'.services[t.q].accepted|
          && t.m in w'.services[t.q].accepted[|w.services[t.q].accepted|..])
  }

  lemma {:induction false} SentBefore(run: seq<World>, k: nat, l: nat, i: nat)
    requires Run(run) && k < l < |run| && i < |run[k].threads| && run[k].threads[i].Sending?
    requires |run[k].threads| == |run[l - 1].threads| == |run[l].threads|
    requires run[l].threads[i] != run[k].threads[i]
    ensures Delivered(run[k], run[l], i)
    decreases l, 0
  {
    hide Run, Steps, Inv, Act, Delivered;
    var t := run[k].threads[i];
    RunKeeps(run, k);
    RunKeeps(run, l - 1);
    RunSteps(run, l);
    ThreadUses(run[k], i);
    NothingAfterDeletion(run, k, l - 1, t.q);
    NothingAfterDeletion(run, l - 1, l, t.q);
    if run[l - 1].threads[i] != t {
      SentIsAccepted(run, k, l - 1, i);
      StillDelivered(run[k], run[l - 1], run[l], i);
    } else {
      OneMoves(run[l - 1], run[l], i);
      PushAccepts(run[l - 1], run[l], i);
      NowDelivered(run[k], run[l - 1], run[l], i);
    }
  }

  lemma StillDelivered(w: World, v: World, v': World, i: nat)
    requires Inv(v) && Steps(v, v') && Delivered(w, v, i) && |v'.threads| == |v.threads|
    requires Known(v', w.threads[i].q) && Known(v, w.threads[i].q)
    requires v.services[w.threads[i].q].accepted <= v'.services[w.threads[i].q].accepted
    ensures Delivered(w, v', i)
  {
    hide Inv, Steps, Act;
    OneMoves(v, v', i);
    if v.threads[i].Stray? && v'.threads[i] != v.threads[i] { StrayStays(v, v', i); }
  }

  lemma StrayStays(v: World, v': World, i: nat)
    requires i < |v.threads| == |v'.threads| && v.threads[i].Stray? && exists c :: v' == Act(v, i, c)
    ensures v' == v
  {
  }

  lemma NowDelivered(w: World, v: World, v': World, i: nat)
    requires i < |w.threads| == |v.threads| == |v'.threads| && w.threads[i].Sending? && v.threads[i] == w.threads[i]
    requires var h := w.threads[i].q;
      Known(w, h) && Known(v, h) && Known(v', h) && w.services[h].accepted <= v.services[h].accepted
    requires Pushes(v, v', i)
    ensures Delivered(w, v', i)
  {
    var h := w.threads[i].q;
    LastIn(v.services[h].accepted, |w.services[h].accepted|, w.threads[i].m);
  }

  lemma LastIn(accepted: seq<Message>, n: nat, m: Message)
    requires n <= |accepted|
    ensures m in (accepted + [m])[n..]
  {
    assert (accepted + [m])[n..][|accepted| - n] == m;
  }

  /** What the step of a sender does. */
  predicate Pushes(w: World, w': World, i: nat) {
    && i < |w.threads| == |w'.threads| && w.threads[i].Sending?
    && var t := w.threads[i];
      && Known(w, t.q) && Known(w', t.q)
      && if w.services[t.q].queued then w'.services[t.q].accepted == w.services[t.q].accepted + [t.m]
         else w'.threads[i] == Stray(t.q, t.next)
  }

  lemma PushAccepts(w: World, w': World, i: nat)
    requires Inv(w) && i < |w.threads| == |w'.threads| && w.threads[i].Sending? && exists c :: w' == Act(w, i, c)
    ensures Pushes(w, w', i)
  {
    hide Inv;
    ThreadUses(w, i);
  }

  /** What the thread that drops a message does next: it notes the attempt, and if the source is
      registered the error is among the messages that the source accepts when the thread has gone
      on, unless the source has no queue yet. */
  lemma ReplyAccepted(run: seq<World>, k: nat, l: nat, i: nat)
    requires Run(run) && k + 1 < l < |run| && i < |run[k].threads| && run[k].threads[i].Replying?
    ensures |run[k].threads| == |run[k + 1].threads| == |run[l].threads|
    ensures run[k + 1].threads[i] != run[k].threads[i] ==>
              && Notes(run[k], run[k + 1], i)
              && (Get(run[k], run[k].threads[i].m.source).registered && run[l].threads[i] != run[k + 1].threads[i] ==>
                    Delivered(run[k + 1], run[l], i))
  {
    hide Run, Steps, Inv, Act, Delivered;
    SameLength(run, k, k + 1);
    SameLength(run, k, l);
    if run[k + 1].threads[i] != run[k].threads[i] {
      RunKeeps(run, k);
      RunSteps(run, k + 1);
      OneMoves(run[k], run[k + 1], i);
      ReplySends(run[k], run[k + 1], i);
      if Get(run[k], run[k].threads[i].m.source).registered { SentIsAccepted(run, k + 1, l, i); }
    }
  }

  /** The reply to a dropped message is noted, and under way if its source is registered. */
  predicate Notes(w: World, w': World, i: nat) {
    && i < |w.threads| == |w'.threads| && w.threads[i].Replying?
    && var t := w.threads[i]; var s := Get(w, t.m.source);
      && w'.replies == w.replies + [Reply(t.q, t.m, s.registered)]
      && (s.registered ==>
            && w'.threads[i] == Sending(t.m.source, Message(t.q, 0, PTYPE_ERROR, []), Discard(t.q))
            && Get(w', t.m.source).accepted == s.accepted)
  }

  lemma ReplySends(w: World, w': World, i: nat)
    requires i < |w.threads| == |w'.threads| && w.threads[i].Replying? && exists c :: w' == Act(w, i, c)
    ensures Notes(w, w', i)
  {
  }
}

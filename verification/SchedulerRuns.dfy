/** The scheduler's guarantees, for every run from a world without services. */
module SchedulerRuns {
  import opened SchedulerQueue
  import opened Scheduler
  import opened SchedulerSafety

  // ----- the remaining steps -----

  lemma FirstListed(w: World)
    requires Inv(w) && w.global != []
    ensures Known(w, w.global[0]) && w.services[w.global[0]].launched
    ensures forall x {:trigger Occurs(w.global[1..], x)} ::
      Occurs(w.global, x) == Bit(w.global[0] == x) + Occurs(w.global[1..], x)
    ensures forall x <- w.global[1..] :: Known(w, x) && w.services[x].launched
  {
    hide Occurs;
    forall x {:trigger Occurs(w.global[1..], x)}
      ensures Occurs(w.global, x) == Bit(w.global[0] == x) + Occurs(w.global[1..], x)
    {
      OccursFirst(w.global, x);
    }
  }

  lemma FetchKeeps(w: World, i: nat)
    requires Inv(w) && i < |w.threads| && w.threads[i] == At(Stop)
    ensures Inv(Begin(w, i, Fetch))
  {
    hide Inv, Count, Occurs, DropsLast, Messages;
    if w.global != [] {
      FirstListed(w);
      var q := w.global[0];
      var rest := Facts(w, i, q);
      PutKeeps(w, i, At(Keep(q)), q, w.services[q], w.global[1..], rest);
    }
  }

  lemma EndKeeps(w: World, i: nat, q: nat)
    requires Inv(w) && i < |w.threads| && w.threads[i] == Ending(q) && w.global != []
    ensures Inv(Put(w, i, Swapping(q, w.global[0]), q, Get(w, q), w.global[1..]))
  {
    hide Inv, Count, Occurs, DropsLast, Messages;
    ThreadKnown(w, i);
    FirstListed(w);
    var rest := Facts(w, i, q);
    NotListed(w, i, q);
    PutKeeps(w, i, Swapping(q, w.global[0]), q, w.services[q], w.global[1..], rest);
  }

  /** A queue that a thread holds is not on the list: the assertions on its link hold. */
  lemma NotListed(w: World, i: nat, q: nat)
    requires Inv(w) && i < |w.threads| && Known(w, q) && Weight(w.threads[i], q).tokens > 0
    ensures q !in w.global && Weight(w.threads[i], q).tokens == 1 && !w.services[q].freed
    ensures Count(w.threads, q).tokens == 1
  {
    hide Count, Occurs, Weight;
    var rest := Facts(w, i, q);
    OccursIn(w.global, q);
  }

  lemma SwapKeeps(w: World, i: nat, q: nat, other: nat)
    requires Inv(w) && i < |w.threads| && w.threads[i] == Swapping(q, other)
    ensures Inv(Put(w, i, Releasing(q, Keep(other)), q, Get(w, q), w.global + [q]))
  {
    hide Inv, Count, Occurs, DropsLast, Messages;
    ThreadKnown(w, i);
    var rest := Facts(w, i, q);
    NotListed(w, i, q);
    OccursLast(w.global, q);
    PutKeeps(w, i, Releasing(q, Keep(other)), q, w.services[q], w.global + [q], rest);
  }

  lemma LaunchKeeps(w: World, i: nat, q: nat)
    requires Inv(w) && i < |w.threads| && w.threads[i] == At(Launch(q))
    ensures Inv(Proceed(w, i, Launch(q)))
  {
    hide Inv, Count, Occurs, DropsLast, Messages;
    ThreadKnown(w, i);
    var rest := Facts(w, i, q);
    var s := w.services[q];
    SameDrops(s, s.(init := true));
    PutKeeps(w, i, At(Announce(q, true)), q, s.(init := true), w.global, rest);
  }

  lemma QueueKeeps(w: World, i: nat, q: nat)
    requires Inv(w) && i < |w.threads| && w.threads[i] == Registered(q)
    ensures Inv(Put(w, i, Creating(q), q, Get(w, q).(queued := true), w.global))
  {
    hide Inv, Count, Occurs, DropsLast, Messages;
    ThreadKnown(w, i);
    var rest := Facts(w, i, q);
    var s := w.services[q];
    SameDrops(s, s.(queued := true));
    PutKeeps(w, i, Creating(q), q, s.(queued := true), w.global, rest);
  }

  lemma SendKeeps(w: World, i: nat, h: nat, m: Message, next: Next)
    requires Inv(w) && i < |w.threads| && w.threads[i] == Sending(h, m, next)
    ensures Inv(SendStep(w, i, h, m, next))
  {
    hide Inv;
    ThreadKnown(w, i);
    var rest := Facts(w, i, h);
    if w.services[h].queued { PushKeeps(w, i, h, m, next); } else { MoveKeeps(w, i, Stray(h, next)); }
  }

  lemma AnnounceKeeps(w: World, i: nat, q: nat, alive: bool)
    requires Inv(w) && i < |w.threads| && w.threads[i] == At(Announce(q, alive))
    ensures Inv(Proceed(w, i, Announce(q, alive)))
  {
    hide Inv, Count, Occurs, DropsLast, Messages;
    ThreadKnown(w, i);
    var rest := Facts(w, i, q);
    var s := w.services[q];
    SameDrops(s, s.(launched := true));
    OccursLast(w.global, q);
    PutKeeps(w, i, At(if alive then Tell(q) else Stop), q, s.(launched := true), w.global + [q], rest);
  }

  lemma FreedOk(s: Service, a: Tally, b: Tally, listed: nat)
    requires ServiceOk(s, a, listed) && s.mail.release && s.mail.messages == []
    requires b.refs == a.refs && b.deletions == a.deletions && b.tokens + 1 == a.tokens
    ensures ServiceOk(s.(freed := true), b, listed)
  {
    SameDrops(s, s.(freed := true));
  }

  lemma FreeKeeps(w: World, i: nat, q: nat)
    requires Inv(w) && i < |w.threads| && w.threads[i] == Freeing(q)
    ensures Inv(Put(w, i, At(Stop), q, Get(w, q).(freed := true), w.global))
  {
    hide Inv, Count, Occurs, ServiceOk;
    ThreadKnown(w, i);
    var rest := Facts(w, i, q);
    var s := w.services[q];
    FreedOk(s, Plus(rest, Weight(Freeing(q), q)), Plus(rest, Weight(At(Stop), q)), Occurs(w.global, q));
    PutKeeps(w, i, At(Stop), q, s.(freed := true), w.global, rest);
  }

  lemma BeginKeeps(w: World, i: nat, c: Choice)
    requires Inv(w) && i < |w.threads| && w.threads[i] == At(Stop)
    ensures Inv(Begin(w, i, c))
  {
    hide Inv;
    match c
    case Fetch => FetchKeeps(w, i);
    case Create => CreateKeeps(w, i);
    case Send(h, m) =>
      KnownWhenRegistered(w, h);
      GrabKeeps(w, i, h, Sending(h, m, Stop), At(Stop));
    case Grab(h) =>
      KnownWhenRegistered(w, h);
      GrabKeeps(w, i, h, Releasing(h, Stop), At(Stop));
    case Retire(h) => RetireKeeps(w, i, h, Stop);
    case _ =>
  }

  lemma KnownWhenRegistered(w: World, h: nat)
    ensures Get(w, h).registered ==> Known(w, h)
  {
  }

  lemma ProceedKeeps(w: World, i: nat, next: Next)
    requires Inv(w) && i < |w.threads| && w.threads[i] == At(next)
    ensures Inv(Proceed(w, i, next))
  {
    hide Inv;
    match next
    case Stop =>
    case Keep(q) => KeepKeeps(w, i, q);
    case Settle(q) => SettleKeeps(w, i, q);
    case Discard(q) => DiscardKeeps(w, i, q);
    case Launch(q) => LaunchKeeps(w, i, q);
    case Announce(q, alive) => AnnounceKeeps(w, i, q, alive);
    case Tell(_) => MoveKeeps(w, i, At(Stop));
    case Withdraw(q) => WithdrawKeeps(w, i, q);
  }

  /** A queue comes to a worker only after its context is initialized or gone. */
  lemma KeepKeeps(w: World, i: nat, q: nat)
    requires Inv(w) && i < |w.threads| && w.threads[i] == At(Keep(q))
    ensures Inv(Proceed(w, i, Keep(q)))
    ensures var w' := Proceed(w, i, Keep(q)); w'.threads[i].Serving? ==> w'.services[q].init && w'.services[q].deleted == 0
  {
    hide Inv, Count, Occurs, DropsLast, Messages;
    ThreadKnown(w, i);
    var rest := Facts(w, i, q);
    GrabKeeps(w, i, q, Serving(q, 0, 1), At(Settle(q)));
  }

  lemma WithdrawKeeps(w: World, i: nat, q: nat)
    requires Inv(w) && i < |w.threads| && w.threads[i] == At(Withdraw(q))
    ensures Inv(Proceed(w, i, Withdraw(q)))
  {
    hide Inv, Count, Occurs, DropsLast, Messages;
    ThreadKnown(w, i);
    var rest := Facts(w, i, q);
    RetireKeeps(w, i, q, Settle(q));
  }

  lemma ReplyKeeps(w: World, i: nat, q: nat, m: Message)
    requires Inv(w) && i < |w.threads| && w.threads[i] == Replying(q, m)
    ensures Inv(ReplyStep(w, i, q, m))
  {
    hide Inv, Count, Occurs, DropsLast, Messages;
    ThreadKnown(w, i);
    var rest := Facts(w, i, q);
    KnownWhenRegistered(w, m.source);
    var (got, missed) := (Sending(m.source, Message(q, 0, PTYPE_ERROR, []), Discard(q)), At(Discard(q)));
    GrabKeeps(w, i, m.source, got, missed);
    Noted(GrabThen(w, i, m.source, got, missed), w.replies + [Reply(q, m, Get(w, m.source).registered)]);
  }

  lemma Noted(w: World, replies: seq<Reply>)
    requires Inv(w)
    ensures Inv(w.(replies := replies))
  {
    hide Count, Occurs, ServiceOk, Weight;
    var w' := w.(replies := replies);
    forall i | 0 <= i < |w'.threads| ensures ThreadOk(w', w'.threads[i]) {
      SameThread(w, w', w.threads[i]);
    }
    assert forall h {:trigger Known(w', h)} :: Known(w', h) ==> Known(w, h);
  }

  /** A step that only moves the thread on. */
  lemma PlainKeeps(w: World, i: nat, c: Choice)
    requires Inv(w) && i < |w.threads|
    requires var t := w.threads[i]; t.Creating? || t.Measuring? || t.Working? || (t.Ending? && w.global == [])
    ensures Inv(Act(w, i, c))
  {
    hide Inv, Count, Occurs, DropsLast, Messages;
    var t := w.threads[i];
    ThreadKnown(w, i);
    var rest := Facts(w, i, t.q);
    MoveKeeps(w, i, Act(w, i, c).threads[i]);
  }

  /** Every step keeps the invariant. */
  lemma ActKeeps(w: World, i: nat, c: Choice)
    requires Inv(w) && i < |w.threads|
    ensures Inv(Act(w, i, c))
  {
    hide Inv, Proceed, Begin, ReplyStep, ServeStep, SendStep, ReleaseStep, MarkStep;
    match w.threads[i]
    case At(Stop) => BeginKeeps(w, i, c);
    case At(next) => ProceedKeeps(w, i, next);
    case Creating(q) => PlainKeeps(w, i, c);
    case Serving(q, k, n) => ServeKeeps(w, i, q, k, n, c.Weigh? && c.measure);
    case Measuring(q, m) => PlainKeeps(w, i, c);
    case Working(q, k, n, m) => PlainKeeps(w, i, c);
    case Ending(q) => if w.global == [] { PlainKeeps(w, i, c); } else { EndKeeps(w, i, q); }
    case Swapping(q, other) => SwapKeeps(w, i, q, other);
    case Registered(q) => QueueKeeps(w, i, q);
    case Sending(h, m, next) => SendKeeps(w, i, h, m, next);
    case Stray(_, _) =>
    case Releasing(h, next) => ReleaseKeeps(w, i, h, next);
    case Deleting(h, next) => MarkKeeps(w, i, h, next);
    case Replying(q, m) => ReplyKeeps(w, i, q, m);
    case Freeing(q) => FreeKeeps(w, i, q);
  }

  // ----- runs -----

  ghost predicate Steps(w: World, w': World) {
    exists i: nat, c :: i < |w.threads| && w' == Act(w, i, c)
  }

  predicate Initial(w: World) {
    && w.services == map[] && w.nextHandle == 1 && w.global == [] && w.replies == []
    && forall i :: 0 <= i < |w.threads| ==> w.threads[i] == At(Stop)
  }

  ghost predicate Run(run: seq<World>) {
    run != [] && Initial(run[0]) && forall k :: 0 < k < |run| ==> StepAt(run, k)
  }

  ghost predicate StepAt(run: seq<World>, k: int)
    requires 0 < k < |run|
  {
    Steps(run[k - 1], run[k])
  }

  lemma StepKeeps(w: World, w': World)
    requires Inv(w) && Steps(w, w')
    ensures Inv(w')
  {
    hide Inv, Act;
    var i: nat, c :| i < |w.threads| && w' == Act(w, i, c);
    ActKeeps(w, i, c);
  }

  lemma {:induction false} RunKeeps(run: seq<World>, k: nat)
    requires Run(run) && k < |run|
    ensures Inv(run[k])
  {
    hide Steps, Inv;
    if k == 0 {
      InitialOk(run[0]);
    } else {
      RunKeeps(run, k - 1);
      assert StepAt(run, k);
      StepKeeps(run[k - 1], run[k]);
    }
  }

  lemma InitialOk(w: World)
    requires Initial(w)
    ensures Inv(w)
  {
  }
}

/** What holds in every run of the scheduler: one holder per queue, no forgotten mail, messages
    kept in order and taken once, and contexts deleted once and only when nobody holds them. */
module SchedulerSafety {
  import opened SchedulerQueue
  import opened Scheduler

  // ----- counting -----

  /** How many references to a context, tokens of its queue and pending deletions there are. */
  datatype Tally = Tally(refs: nat, tokens: nat, deletions: nat)

  function Bit(b: bool): nat { if b then 1 else 0 }

  function TokenOf(next: Next, h: nat): nat {
    Bit(!next.Stop? && !next.Tell? && next.q == h)
  }

  function Weight(t: Thread, h: nat): Tally {
    match t
    case At(next) => Tally(0, TokenOf(next, h), 0)
    case Registered(q) => Tally(Bit(q == h), Bit(q == h), 0)
    case Creating(q) => Tally(Bit(q == h), Bit(q == h), 0)
    case Serving(q, _, _) => Tally(Bit(q == h), Bit(q == h), 0)
    case Measuring(q, _) => Tally(Bit(q == h), Bit(q == h), 0)
    case Working(q, _, _, _) => Tally(Bit(q == h), Bit(q == h), 0)
    case Ending(q) => Tally(Bit(q == h), Bit(q == h), 0)
    case Swapping(q, other) => Tally(Bit(q == h), Bit(q == h) + Bit(other == h), 0)
    case Sending(q, _, next) => Tally(Bit(q == h), TokenOf(next, h), 0)
    case Stray(q, next) => Tally(Bit(q == h), TokenOf(next, h), 0)
    case Releasing(q, next) => Tally(Bit(q == h), TokenOf(next, h), 0)
    case Deleting(q, next) => Tally(0, TokenOf(next, h), Bit(q == h))
    case Replying(q, _) => Tally(0, Bit(q == h), 0)
    case Freeing(q) => Tally(0, Bit(q == h), 0)
  }

  function Plus(a: Tally, b: Tally): Tally {
    Tally(a.refs + b.refs, a.tokens + b.tokens, a.deletions + b.deletions)
  }

  function Count(threads: seq<Thread>, h: nat): Tally {
    if threads == [] then Tally(0, 0, 0)
    else Plus(Count(threads[..|threads| - 1], h), Weight(threads[|threads| - 1], h))
  }

  lemma {:induction false} CountMove(threads: seq<Thread>, i: nat, t: Thread, h: nat)
    requires i < |threads|
    ensures Plus(Count(threads[i := t], h), Weight(threads[i], h)) == Plus(Count(threads, h), Weight(t, h))
  {
    hide Weight;
    var (n, after) := (|threads| - 1, threads[i := t]);
    if i == n {
      assert after[..n] == threads[..n];
    } else {
      CountMove(threads[..n], i, t, h);
      assert after[..n] == threads[..n][i := t];
    }
  }

  /** A count is at least what any one thread adds, or any two. */
  lemma {:induction false} CountOne(threads: seq<Thread>, i: nat, h: nat)
    requires i < |threads|
    ensures Weight(threads[i], h).refs <= Count(threads, h).refs
    ensures Weight(threads[i], h).tokens <= Count(threads, h).tokens
    ensures Weight(threads[i], h).deletions <= Count(threads, h).deletions
  {
    if i < |threads| - 1 {
      CountOne(threads[..|threads| - 1], i, h);
    }
  }

  lemma {:induction false} CountTwo(threads: seq<Thread>, i: nat, j: nat, h: nat)
    requires i < j < |threads|
    ensures Weight(threads[i], h).tokens + Weight(threads[j], h).tokens <= Count(threads, h).tokens
  {
    hide Weight;
    var n := |threads| - 1;
    if j < n {
      CountTwo(threads[..n], i, j, h);
    } else {
      CountOne(threads[..n], i, h);
    }
  }

  /** When no thread mentions a context, nothing is counted for it. */
  lemma {:induction false} CountNone(threads: seq<Thread>, h: nat)
    requires forall i :: 0 <= i < |threads| ==> Weight(threads[i], h) == Tally(0, 0, 0)
    ensures Count(threads, h) == Tally(0, 0, 0)
  {
    if threads != [] {
      CountNone(threads[..|threads| - 1], h);
    }
  }

  /** What the threads other than one add. */
  lemma Others(threads: seq<Thread>, i: nat, h: nat) returns (rest: Tally)
    requires i < |threads|
    ensures Count(threads, h) == Plus(rest, Weight(threads[i], h))
  {
    CountOne(threads, i, h);
    var (all, one) := (Count(threads, h), Weight(threads[i], h));
    rest := Tally(all.refs - one.refs, all.tokens - one.tokens, all.deletions - one.deletions);
  }

  function Occurs(list: seq<nat>, h: nat): nat {
    if list == [] then 0 else Occurs(list[..|list| - 1], h) + Bit(list[|list| - 1] == h)
  }

  lemma OccursLast(list: seq<nat>, q: nat)
    ensures forall h {:trigger Occurs(list, h)} {:trigger Occurs(list + [q], h)} ::
      Occurs(list + [q], h) == Occurs(list, h) + Bit(q == h)
    ensures forall x <- list + [q] :: x == q || x in list
  {
    assert (list + [q])[..|list|] == list;
  }

  lemma {:induction false} OccursFirst(list: seq<nat>, h: nat)
    requires list != []
    ensures Occurs(list, h) == Bit(list[0] == h) + Occurs(list[1..], h)
  {
    var n := |list| - 1;
    if n > 0 {
      OccursFirst(list[..n], h);
      assert list[..n][1..] == list[1..][..n - 1];
    }
  }

  lemma {:induction false} OccursIn(list: seq<nat>, h: nat)
    ensures h in list <==> Occurs(list, h) > 0
  {
    if list != [] {
      OccursIn(list[..|list| - 1], h);
      assert list == list[..|list| - 1] + [list[|list| - 1]];
    }
  }

  // ----- the invariant -----

  function Messages(handled: seq<Handled>): seq<Message> {
    seq(|handled|, i requires 0 <= i < |handled| => handled[i].m)
  }

  /** Messages are dispatched first; dropping begins once the queue is released. */
  predicate DropsLast(s: Service) {
    && (!s.mail.release ==> forall i :: 0 <= i < |s.handled| ==> s.handled[i].Dispatched?)
    && (forall i, j :: 0 <= i < j < |s.handled| && s.handled[i].Dropped? ==> s.handled[j].Dropped?)
  }

  predicate ServiceOk(s: Service, count: Tally, listed: nat) {
    && s.refs == Bit(s.registered) + count.refs
    && count.tokens + listed == Bit((s.mail.inGlobal || s.mail.release) && !s.freed)
    && count.deletions + Bit(s.mail.release) == s.deleted == Bit(s.refs == 0)
    && (s.mail.messages != [] ==> s.mail.inGlobal && !s.freed)
    && s.accepted == Messages(s.handled) + s.mail.messages
    && (s.freed ==> s.mail.release)
    && (s.registered && s.launched ==> s.init)
    && (!s.launched ==> s.mail.inGlobal)
    && DropsLast(s)
  }

  predicate Known(w: World, h: nat) { h in w.services }

  predicate NextOk(w: World, next: Next) {
    next.Stop? || next.Tell? ||
    (Known(w, next.q) &&
    var s := w.services[next.q];
    match next
    case Keep(_) => s.launched
    case Settle(_) => !s.registered
    case Discard(_) => s.mail.release && s.launched
    case Launch(_) => !s.launched
    case Announce(_, _) => !s.launched && (s.registered ==> s.init)
    case Withdraw(_) => !s.launched)
  }

  predicate Ready(w: World, q: nat) {
    Known(w, q) && w.services[q].launched && w.services[q].init
  }

  predicate ThreadOk(w: World, t: Thread) {
    match t
    case At(next) => NextOk(w, next)
    case Registered(q) => Known(w, q) && !w.services[q].launched
    case Creating(q) => Known(w, q) && !w.services[q].launched
    case Serving(q, i, n) => Ready(w, q) && i < n
    case Measuring(q, _) => Ready(w, q)
    case Working(q, _, _, _) => Ready(w, q)
    case Ending(q) => Ready(w, q)
    case Swapping(q, other) => Ready(w, q) && Known(w, other) && w.services[other].launched
    case Sending(q, _, next) => Known(w, q) && NextOk(w, next) && (next.Stop? || next.Discard?)
    case Stray(q, next) => Known(w, q) && NextOk(w, next) && (next.Stop? || next.Discard?)
    case Releasing(q, next) => Known(w, q) && NextOk(w, next) && (next.Launch? ==> next.q == q)
    case Deleting(q, next) => Known(w, q) && NextOk(w, next) && !next.Launch?
    case Replying(q, _) => NextOk(w, Discard(q))
    case Freeing(q) => NextOk(w, Discard(q)) && w.services[q].mail.messages == []
  }

  ghost predicate Inv(w: World) {
    && 0 < w.nextHandle && (forall h <- w.services :: 0 < h < w.nextHandle)
    && (forall h {:trigger Known(w, h)} :: Known(w, h) ==>
          ServiceOk(w.services[h], Count(w.threads, h), Occurs(w.global, h)))
    && (forall i :: 0 <= i < |w.threads| ==> ThreadOk(w, w.threads[i]))
    && (forall h <- w.global :: Known(w, h) && w.services[h].launched)
  }

  // ----- one step -----

  /** A change to a service that a thread not holding its token may make. */
  predicate Tame(s: Service, s': Service) {
    && s'.launched == s.launched && (s.init ==> s'.init) && (s'.registered ==> s.registered)
    && (s.mail.release ==> s'.mail.release && s'.mail.messages == s.mail.messages)
  }

  /** What thread i takes from and adds to the list and its own share evens out elsewhere. */
  predicate Even(t: Thread, t': Thread, list: seq<nat>, list': seq<nat>, x: nat) {
    var (a, b) := (Weight(t, x), Weight(t', x));
    a.refs == b.refs && a.deletions == b.deletions && a.tokens + Occurs(list, x) == b.tokens + Occurs(list', x)
  }

  /** The others stay well when a thread changes one service. */
  lemma OthersKeep(w: World, w': World, h: nat, t: Thread)
    requires Known(w, h) && Known(w', h) && w'.services == w.services[h := w'.services[h]]
    requires ThreadOk(w, t)
    requires Weight(t, h).tokens == 0 || Tame(w.services[h], w'.services[h])
    ensures ThreadOk(w', t)
  {
  }

  lemma SameOk(s: Service, a: Tally, n: nat, b: Tally, m: nat)
    requires ServiceOk(s, a, n)
    requires a.refs == b.refs && a.deletions == b.deletions && a.tokens + n == b.tokens + m
    ensures ServiceOk(s, b, m)
  {
  }

  lemma PutService(w: World, i: nat, t: Thread, h: nat, s: Service, list: seq<nat>, rest: Tally, x: nat)
    requires Inv(w) && i < |w.threads| && Known(w, h) && Known(w, x)
    requires x != h ==> Even(w.threads[i], t, w.global, list, x)
    requires Count(w.threads, h) == Plus(rest, Weight(w.threads[i], h))
    requires ServiceOk(s, Plus(rest, Weight(t, h)), Occurs(list, h))
    ensures ServiceOk(w.services[h := s][x], Count(w.threads[i := t], x), Occurs(list, x))
  {
    hide Count, Weight, ThreadOk, ServiceOk;
    CountMove(w.threads, i, t, x);
    if x != h {
      SameOk(w.services[x], Count(w.threads, x), Occurs(w.global, x), Count(w.threads[i := t], x), Occurs(list, x));
    }
  }

  /** A step by one thread on one service keeps the invariant if it keeps it locally. */
  lemma PutKeeps(w: World, i: nat, t: Thread, h: nat, s: Service, list: seq<nat>, rest: Tally)
    requires Inv(w) && i < |w.threads| && Known(w, h)
    requires Weight(w.threads[i], h).tokens > 0 || Tame(w.services[h], s)
    requires forall x {:trigger Known(w, x)} :: Known(w, x) && x != h ==> Even(w.threads[i], t, w.global, list, x)
    requires Count(w.threads, h) == Plus(rest, Weight(w.threads[i], h))
    requires ServiceOk(s, Plus(rest, Weight(t, h)), Occurs(list, h))
    requires var w' := Put(w, i, t, h, s, list);
      ThreadOk(w', t) && forall x <- list :: Known(w', x) && w'.services[x].launched
    ensures Inv(Put(w, i, t, h, s, list))
  {
    hide Count, Weight, ThreadOk, ServiceOk;
    var w' := Put(w, i, t, h, s, list);
    forall x {:trigger Known(w', x)} | Known(w', x)
      ensures ServiceOk(w'.services[x], Count(w'.threads, x), Occurs(w'.global, x))
    {
      assert Known(w, x);
      PutService(w, i, t, h, s, list, rest, x);
    }
    forall j | 0 <= j < |w'.threads| ensures ThreadOk(w', w'.threads[j]) {
      if j != i {
        assert ThreadOk(w, w.threads[j]);
        OneHolder(w, i, j, h);
        OthersKeep(w, w', h, w.threads[j]);
      }
    }
  }

  /** No queue has two holders, nor one while it is on the list. */
  lemma OneHolder(w: World, i: nat, j: nat, h: nat)
    requires Inv(w) && i < |w.threads| && j < |w.threads| && i != j && Known(w, h)
    ensures Weight(w.threads[i], h).tokens == 0 || Weight(w.threads[j], h).tokens == 0
    ensures Weight(w.threads[i], h).tokens == 0 || h !in w.global
  {
    hide Weight, Count, ThreadOk;
    assert ServiceOk(w.services[h], Count(w.threads, h), Occurs(w.global, h));
    CountTwo(w.threads, if i < j then i else j, if i < j then j else i, h);
    CountOne(w.threads, i, h);
    OccursIn(w.global, h);
  }

  /** A step of a thread that changes neither services nor what is counted. */
  lemma MoveKeeps(w: World, i: nat, t: Thread)
    requires Inv(w) && i < |w.threads| && ThreadOk(w, t)
    requires forall x {:trigger Known(w, x)} :: Known(w, x) ==> Weight(t, x) == Weight(w.threads[i], x)
    ensures Inv(Move(w, i, t))
  {
    hide Count, Weight, ThreadOk, ServiceOk;
    var w' := Move(w, i, t);
    forall x {:trigger Known(w', x)} | Known(w', x)
      ensures ServiceOk(w'.services[x], Count(w'.threads, x), Occurs(w'.global, x))
    {
      assert Known(w, x);
      CountMove(w.threads, i, t, x);
    }
    forall j | 0 <= j < |w'.threads| ensures ThreadOk(w', w'.threads[j]) {
      assert j != i ==> ThreadOk(w, w.threads[j]);
      SameThread(w, w', w'.threads[j]);
    }
  }

  lemma SameThread(w: World, w': World, t: Thread)
    requires w'.services == w.services && ThreadOk(w, t)
    ensures ThreadOk(w', t)
  {
  }

  lemma Facts(w: World, i: nat, h: nat) returns (rest: Tally)
    requires Inv(w) && i < |w.threads| && Known(w, h)
    ensures Count(w.threads, h) == Plus(rest, Weight(w.threads[i], h))
    ensures ServiceOk(w.services[h], Plus(rest, Weight(w.threads[i], h)), Occurs(w.global, h))
    ensures ThreadOk(w, w.threads[i])
    ensures forall x <- w.global :: Known(w, x) && w.services[x].launched
  {
    hide Count, ServiceOk, ThreadOk;
    rest := Others(w.threads, i, h);
    assert Known(w, h);
  }

  lemma ThreadKnown(w: World, i: nat)
    requires Inv(w) && i < |w.threads|
    ensures forall h :: Weight(w.threads[i], h) != Tally(0, 0, 0) ==> Known(w, h)
  {
    assert ThreadOk(w, w.threads[i]);
  }

  /** One thread state has one reference more than another. */
  predicate Gains(t: Thread, t': Thread, h: nat, x: nat) {
    var (a, b) := (Weight(t, x), Weight(t', x));
    b.refs == a.refs + Bit(h == x) && b.tokens == a.tokens && b.deletions == a.deletions
  }

  lemma GrabKeeps(w: World, i: nat, h: nat, got: Thread, missed: Thread)
    requires Inv(w) && i < |w.threads|
    requires Get(w, h).registered ==> ThreadOk(w, got)
    requires forall x {:trigger Known(w, x)} :: Known(w, x) ==> Gains(w.threads[i], got, h, x)
    requires !Get(w, h).registered ==> ThreadOk(w, missed)
    requires forall x {:trigger Known(w, x)} :: Known(w, x) ==> Weight(missed, x) == Weight(w.threads[i], x)
    ensures Inv(GrabThen(w, i, h, got, missed))
  {
    hide Inv, Count, Occurs, Weight, ThreadOk;
    var s := Get(w, h);
    if s.registered {
      assert Known(w, h);
      var rest := Facts(w, i, h);
      var s' := s.(refs := s.refs + 1);
      OthersKeep(w, Put(w, i, got, h, s', w.global), h, got);
      PutKeeps(w, i, got, h, s', w.global, rest);
    } else {
      MoveKeeps(w, i, missed);
    }
  }

  lemma RetireKeeps(w: World, i: nat, h: nat, next: Next)
    requires Inv(w) && i < |w.threads| && !next.Launch?
    requires w.threads[i].At?
    requires forall x {:trigger Known(w, x)} :: Known(w, x) ==> Weight(w.threads[i], x).tokens == TokenOf(next, x)
    requires NextOk(RetireThen(w, i, h, next), next)
    ensures Inv(RetireThen(w, i, h, next))
  {
    hide Inv, Count, Occurs;
    var s := Get(w, h);
    if s.registered {
      assert Known(w, h);
      var rest := Facts(w, i, h);
      PutKeeps(w, i, Releasing(h, next), h, s.(registered := false), w.global, rest);
    } else {
      MoveKeeps(w, i, At(next));
    }
  }

  lemma SameDrops(s: Service, s': Service)
    requires DropsLast(s) && s'.handled == s.handled && s'.mail == s.mail
    ensures DropsLast(s')
  {
  }

  lemma EmptyDrops(s: Service)
    requires DropsLast(s)
    ensures DropsLast(s.(mail := Popped(s.mail)))
  {
  }

  lemma DeletingOk(w: World, w': World, h: nat, next: Next)
    requires Known(w, h) && ThreadOk(w, Releasing(h, next)) && !w.services[h].registered
    requires w'.services == w.services[h := w.services[h].(refs := 0, deleted := w.services[h].deleted + 1)]
    ensures ThreadOk(w', Deleting(h, AfterLast(next)))
  {
  }

  lemma LastReleaseKeeps(w: World, i: nat, h: nat, next: Next)
    requires Inv(w) && i < |w.threads| && w.threads[i] == Releasing(h, next) && Get(w, h).refs == 1
    ensures Inv(ReleaseStep(w, i, h, next))
  {
    hide Inv, Count, Occurs, DropsLast, Messages;
    assert Known(w, h) by { ThreadKnown(w, i); }
    var rest := Facts(w, i, h);
    var s := w.services[h];
    var s' := s.(refs := 0, deleted := s.deleted + 1);
    SameDrops(s, s');
    assert !s.registered && s.deleted == 0;
    DeletingOk(w, Put(w, i, Deleting(h, AfterLast(next)), h, s', w.global), h, next);
    hide ThreadOk, NextOk;
    PutKeeps(w, i, Deleting(h, AfterLast(next)), h, s', w.global, rest);
  }

  lemma ReleaseKeeps(w: World, i: nat, h: nat, next: Next)
    requires Inv(w) && i < |w.threads| && w.threads[i] == Releasing(h, next)
    ensures Inv(ReleaseStep(w, i, h, next))
  {
    hide Inv, Count, Occurs, DropsLast, Messages;
    if Get(w, h).refs == 1 {
      LastReleaseKeeps(w, i, h, next);
    } else {
      ThreadKnown(w, i);
      var rest := Facts(w, i, h);
      var s := w.services[h];
      SameDrops(s, s.(refs := s.refs - 1));
      PutKeeps(w, i, At(next), h, s.(refs := s.refs - 1), w.global, rest);
    }
  }

  lemma PushKeeps(w: World, i: nat, h: nat, m: Message, next: Next)
    requires Inv(w) && i < |w.threads| && w.threads[i] == Sending(h, m, next)
    ensures Inv(PushStep(w, i, h, m, next))
  {
    hide Inv, Count, Occurs;
    assert Known(w, h) by { ThreadKnown(w, i); }
    var rest := Facts(w, i, h);
    var s := w.services[h];
    OccursLast(w.global, h);
    PutKeeps(w, i, Releasing(h, next), h, s.(mail := Pushed(s.mail, m), accepted := s.accepted + [m]),
             if s.mail.inGlobal then w.global else w.global + [h], rest);
  }

  lemma MarkKeeps(w: World, i: nat, h: nat, next: Next)
    requires Inv(w) && i < |w.threads| && w.threads[i] == Deleting(h, next)
    ensures Inv(MarkStep(w, i, h, next))
  {
    hide Inv, Count, Occurs;
    assert Known(w, h) by { ThreadKnown(w, i); }
    var rest := Facts(w, i, h);
    var s := w.services[h];
    OccursLast(w.global, h);
    PutKeeps(w, i, At(next), h, s.(mail := Marked(s.mail)),
             if s.mail.inGlobal then w.global else w.global + [h], rest);
  }

  lemma TakenFirst(s: Service, x: Handled)
    requires s.mail.messages != [] && x.m == s.mail.messages[0]
    requires s.accepted == Messages(s.handled) + s.mail.messages
    requires DropsLast(s) && (x.Dropped? <==> s.mail.release)
    ensures s.accepted == Messages(s.handled + [x]) + s.mail.messages[1..]
    ensures DropsLast(s.(mail := Popped(s.mail), handled := s.handled + [x]))
  {
  }

  lemma ServeKeeps(w: World, i: nat, q: nat, k: nat, n: nat, measure: bool)
    requires Inv(w) && i < |w.threads| && w.threads[i] == Serving(q, k, n)
    ensures Inv(ServeStep(w, i, q, k, n, measure))
  {
    hide Inv, Count, Occurs;
    assert Known(w, q) by { ThreadKnown(w, i); }
    var rest := Facts(w, i, q);
    var s := w.services[q];
    if s.mail.messages == [] {
      PutKeeps(w, i, Releasing(q, Stop), q, s.(mail := Popped(s.mail)), w.global, rest);
    } else {
      var m := s.mail.messages[0];
      assert s.refs > 0 && !s.mail.release;
      TakenFirst(s, Dispatched(m));
      PutKeeps(w, i, if k == 0 && measure then Measuring(q, m) else Working(q, k, n, m), q,
               s.(mail := Popped(s.mail), handled := s.handled + [Dispatched(m)]), w.global, rest);
    }
  }

  lemma DiscardKeeps(w: World, i: nat, q: nat)
    requires Inv(w) && i < |w.threads| && w.threads[i] == At(Discard(q))
    ensures Inv(DiscardStep(w, i, q))
  {
    hide Inv, Count, Occurs, DropsLast, Messages;
    assert Known(w, q) by { ThreadKnown(w, i); }
    var rest := Facts(w, i, q);
    var s := w.services[q];
    if s.mail.messages == [] {
      EmptyDrops(s);
      PutKeeps(w, i, Freeing(q), q, s.(mail := Popped(s.mail)), w.global, rest);
    } else {
      var m := s.mail.messages[0];
      TakenFirst(s, Dropped(m));
      PutKeeps(w, i, Replying(q, m), q,
               s.(mail := Popped(s.mail), handled := s.handled + [Dropped(m)]), w.global, rest);
    }
  }

  lemma SettleKeeps(w: World, i: nat, q: nat)
    requires Inv(w) && i < |w.threads| && w.threads[i] == At(Settle(q))
    ensures Inv(SettleStep(w, i, q))
  {
    hide Inv, Count, Occurs;
    assert Known(w, q) by { ThreadKnown(w, i); }
    var rest := Facts(w, i, q);
    var s := w.services[q];
    if s.mail.release {
      PutKeeps(w, i, At(Discard(q)), q, s.(launched := true), w.global, rest);
    } else {
      OccursLast(w.global, q);
      PutKeeps(w, i, At(Stop), q, s.(launched := true), w.global + [q], rest);
    }
  }

  lemma CreateKeeps(w: World, i: nat)
    requires Inv(w) && i < |w.threads| && w.threads[i] == At(Stop)
    ensures Inv(Begin(w, i, Create))
  {
    hide Count, ServiceOk, ThreadOk, Weight, Occurs;
    var (h, w') := (w.nextHandle, Begin(w, i, Create));
    assert !Known(w, h);
    forall x {:trigger Known(w', x)} | Known(w', x)
      ensures ServiceOk(w'.services[x], Count(w'.threads, x), Occurs(w'.global, x))
    {
      CreateService(w, i, x);
    }
    forall j | 0 <= j < |w'.threads| ensures ThreadOk(w', w'.threads[j]) {
      CreateThread(w, i, j);
    }
  }

  lemma CreateService(w: World, i: nat, x: nat)
    requires Inv(w) && i < |w.threads| && w.threads[i] == At(Stop) && (Known(w, x) || x == w.nextHandle)
    ensures var w' := Begin(w, i, Create); ServiceOk(w'.services[x], Count(w'.threads, x), Occurs(w'.global, x))
  {
    hide Count, ServiceOk, ThreadOk, Weight, Occurs;
    var h := w.nextHandle;
    CountCreated(w.threads, i, h, x);
    if x == h {
      assert !Known(w, h);
      Unmentioned(w, h);
      FreshOk();
    }
  }

  lemma CreateThread(w: World, i: nat, j: nat)
    requires Inv(w) && i < |w.threads| && w.threads[i] == At(Stop) && j < |w.threads|
    ensures var w' := Begin(w, i, Create); ThreadOk(w', w'.threads[j])
  {
    hide Count, ServiceOk, ThreadOk, Weight, Occurs;
    var (h, w') := (w.nextHandle, Begin(w, i, Create));
    assert !Known(w, h);
    if j != i {
      MoreServices(w, w', h, w.threads[j]);
    } else {
      CreatedOk(w', h);
    }
  }

  lemma CountCreated(threads: seq<Thread>, i: nat, h: nat, x: nat)
    requires i < |threads| && threads[i] == At(Stop)
    ensures Count(threads[i := Registered(h)], x) == Plus(Count(threads, x), Tally(Bit(x == h), Bit(x == h), 0))
  {
    hide Count;
    CountMove(threads, i, Registered(h), x);
  }

  lemma MoreServices(w: World, w': World, h: nat, t: Thread)
    requires !Known(w, h) && w'.services == w.services[h := CREATED] && ThreadOk(w, t)
    ensures ThreadOk(w', t)
  {
  }

  lemma Unmentioned(w: World, h: nat)
    requires Inv(w) && !Known(w, h)
    ensures Count(w.threads, h) == Tally(0, 0, 0) && Occurs(w.global, h) == 0
  {
    hide Count;
    OccursIn(w.global, h);
    forall j | 0 <= j < |w.threads| ensures Weight(w.threads[j], h) == Tally(0, 0, 0) {
      assert ThreadOk(w, w.threads[j]);
    }
    CountNone(w.threads, h);
  }

  lemma CreatedOk(w: World, h: nat)
    requires Known(w, h) && w.services[h] == CREATED
    ensures ThreadOk(w, Registered(h))
  {
  }

  lemma FreshOk()
    ensures ServiceOk(CREATED, Tally(1, 1, 0), 0)
  {
  }
}

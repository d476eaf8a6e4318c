/** What a thread gets that sends a message, creates a service or retires one, and goes on alone. */
module SchedulerCalls {
  import opened SchedulerQueue
  import opened Scheduler
  import opened SchedulerSafety
  import opened SchedulerRuns
  import opened SchedulerProgress

  /** The state after the given steps of one thread. */
  function Done(w: World, i: nat, choices: seq<Choice>): World
    decreases |choices|
  {
    if choices == [] || i >= |w.threads| then w else Done(Act(w, i, choices[0]), i, choices[1..])
  }

  lemma DoneOne(w: World, i: nat, c: Choice, more: seq<Choice>)
    requires i < |w.threads|
    ensures Done(w, i, [c] + more) == Done(Act(w, i, c), i, more)
  {
    hide Act;
    assert ([c] + more)[1..] == more;
  }

  predicate Stands(w: World, i: nat, t: Thread, q: nat, s: Service) {
    i < |w.threads| && w.threads[i] == t && Known(w, q) && w.services[q] == s
  }

  /** A message sent to a registered context with a queue is accepted. */
  lemma SendArrives(w: World, i: nat, h: nat, m: Message)
    requires i < |w.threads| && w.threads[i] == At(Stop) && Known(w, h) && w.services[h].registered
    requires w.services[h].queued && w.services[h].refs > 0
    ensures var w' := Done(w, i, [Send(h, m), Fetch, Fetch]); var s := w.services[h];
      && Stands(w', i, At(Stop), h, s.(mail := Pushed(s.mail, m), accepted := s.accepted + [m]))
      && (h in w.global || !s.mail.inGlobal ==> h in w'.global)
  {
    var w1 := Act(w, i, Send(h, m));
    var w2 := Act(w1, i, Fetch);
    var s := w.services[h];
    assert w1.threads[i] == Sending(h, m, Stop) && w1.services[h] == s.(refs := s.refs + 1) && w1.global == w.global;
    assert w2.threads[i] == Releasing(h, Stop) && w2.services[h].refs == s.refs + 1;
    var w3 := Act(w2, i, Fetch);
    assert w3.global == w2.global;
    hide Act;
    ThreeSteps(w, i, Send(h, m), Fetch, Fetch);
  }

  lemma ThreeSteps(w: World, i: nat, a: Choice, b: Choice, c: Choice)
    requires i < |w.threads|
    ensures i < |Act(w, i, a).threads| && i < |Act(Act(w, i, a), i, b).threads|
    ensures Done(w, i, [a, b, c]) == Act(Act(Act(w, i, a), i, b), i, c)
  {
    hide Act;
    var w1 := Act(w, i, a);
    OwnLength(w, i, a);
    OwnLength(w1, i, b);
    assert [a, b, c] == [a] + [b, c] && [b, c] == [b] + [c] && [c] == [c] + [];
    DoneOne(w, i, a, [b, c]);
    DoneOne(w1, i, b, [c]);
    DoneOne(Act(w1, i, b), i, c, []);
  }

  /** A service whose init function succeeds is launched: registered, initialized and listed. */
  lemma CreateLaunches(w: World, i: nat)
    requires i < |w.threads| && w.threads[i] == At(Stop)
    ensures var (q, w') := (w.nextHandle, Done(w, i, [Create, Fetch, Succeed(true), Fetch, Fetch, Fetch, Fetch]));
      && Stands(w', i, At(Stop), q, CREATED.(refs := 1, queued := true, init := true, launched := true))
      && w'.global == w.global + [q]
  {
    var q := w.nextHandle;
    hide Act, Done;
    var w1 := CreateBegins(w, i, true);
    var w3 := Launched(w1, i, q);
    LastSteps(w1, i);
    assert [Create, Fetch, Succeed(true), Fetch, Fetch, Fetch, Fetch]
        == [Create, Fetch, Succeed(true)] + [Fetch, Fetch, Fetch, Fetch];
    DoneTwice(w, i, [Create, Fetch, Succeed(true)], [Fetch, Fetch, Fetch, Fetch]);
    Announced(w3, i, q);
  }

  lemma Launched(w: World, i: nat, q: nat) returns (w': World)
    requires Stands(w, i, Releasing(q, Launch(q)), q, CREATED.(queued := true))
    ensures i < |Act(w, i, Fetch).threads| && w' == Act(Act(w, i, Fetch), i, Fetch) && w'.global == w.global
    ensures Stands(w', i, At(Announce(q, true)), q, CREATED.(refs := 1, queued := true, init := true))
  {
    var w1 := Act(w, i, Fetch);
    assert Stands(w1, i, At(Launch(q)), q, CREATED.(refs := 1, queued := true)) && w1.global == w.global;
    w' := Act(w1, i, Fetch);
  }

  lemma Announced(w: World, i: nat, q: nat)
    requires Stands(w, i, At(Announce(q, true)), q, CREATED.(refs := 1, queued := true, init := true))
    ensures i < |Act(w, i, Fetch).threads|
    ensures var w' := Act(Act(w, i, Fetch), i, Fetch);
      && Stands(w', i, At(Stop), q, CREATED.(refs := 1, queued := true, init := true, launched := true))
      && w'.global == w.global + [q]
  {
    var w1 := Act(w, i, Fetch);
    assert w1.threads[i] == At(Tell(q));
  }

  lemma LastSteps(w: World, i: nat)
    requires i < |w.threads|
    ensures i < |Act(w, i, Fetch).threads| && i < |Act(Act(w, i, Fetch), i, Fetch).threads|
    ensures var w2 := Act(Act(w, i, Fetch), i, Fetch); i < |Act(w2, i, Fetch).threads|
    ensures var w2 := Act(Act(w, i, Fetch), i, Fetch);
      Done(w, i, [Fetch, Fetch, Fetch, Fetch]) == Act(Act(w2, i, Fetch), i, Fetch)
  {
    hide Act;
    OwnLength(w, i, Fetch);
    DoneOne(w, i, Fetch, [Fetch, Fetch, Fetch]);
    assert [Fetch] + [Fetch, Fetch, Fetch] == [Fetch, Fetch, Fetch, Fetch];
    ThreeSteps(Act(w, i, Fetch), i, Fetch, Fetch, Fetch);
    OwnLength(Act(Act(w, i, Fetch), i, Fetch), i, Fetch);
  }

  lemma {:induction false} DoneTwice(w: World, i: nat, a: seq<Choice>, b: seq<Choice>)
    ensures Done(w, i, a + b) == Done(Done(w, i, a), i, b)
    decreases |a|
  {
    hide Act;
    if a == [] {
      assert a + b == b;
    } else if i < |w.threads| {
      assert (a + b)[1..] == a[1..] + b;
      DoneTwice(Act(w, i, a[0]), i, a[1..], b);
    } else {
      NoThread(w, i, a + b);
      NoThread(w, i, b);
    }
  }

  lemma NoThread(w: World, i: nat, a: seq<Choice>)
    requires i >= |w.threads|
    ensures Done(w, i, a) == w
  {
  }

  /** Up to the verdict of the init function. */
  lemma CreateBegins(w: World, i: nat, ok: bool) returns (w': World)
    requires i < |w.threads| && w.threads[i] == At(Stop)
    ensures w' == Done(w, i, [Create, Fetch, Succeed(ok)]) && w'.global == w.global
    ensures var q := w.nextHandle;
      Stands(w', i, Releasing(q, if ok then Launch(q) else Withdraw(q)), q, CREATED.(queued := true))
  {
    var q := w.nextHandle;
    var w1 := Act(w, i, Create);
    assert Stands(w1, i, Registered(q), q, CREATED);
    var w2 := Act(w1, i, Fetch);
    assert Stands(w2, i, Creating(q), q, CREATED.(queued := true));
    w' := Act(w2, i, Succeed(ok));
    assert Stands(w', i, Releasing(q, if ok then Launch(q) else Withdraw(q)), q, CREATED.(queued := true));
    hide Act;
    ThreeSteps(w, i, Create, Fetch, Succeed(ok));
  }

  /** A service whose init function fails is gone, with its queue. */
  lemma CreateFails(w: World, i: nat)
    requires i < |w.threads| && w.threads[i] == At(Stop)
    ensures var steps := [Create, Fetch, Succeed(false), Fetch, Fetch, Fetch, Fetch, Fetch, Fetch, Fetch];
      var (q, w') := (w.nextHandle, Done(w, i, steps));
      && i < |w'.threads| && w'.threads[i] == At(Stop) && Known(w', q) && w'.global == w.global
      && !w'.services[q].registered && w'.services[q].deleted == 1 && w'.services[q].freed
  {
    hide Act, Done;
    var q := w.nextHandle;
    var w1 := CreateBegins(w, i, false);
    var rest := [Fetch, Fetch, Fetch, Fetch, Fetch];
    assert [Create, Fetch, Succeed(false), Fetch, Fetch, Fetch, Fetch, Fetch, Fetch, Fetch]
        == [Create, Fetch, Succeed(false)] + ([Fetch] + ([Fetch] + rest));
    DoneTwice(w, i, [Create, Fetch, Succeed(false)], [Fetch] + ([Fetch] + rest));
    var w2 := WithdrawBegins(w1, i, q);
    DoneOne(w1, i, Fetch, [Fetch] + rest);
    DoneOne(Act(w1, i, Fetch), i, Fetch, rest);
    Withdrawn(w2, i, q);
  }

  lemma WithdrawBegins(w: World, i: nat, q: nat) returns (w': World)
    requires Stands(w, i, Releasing(q, Withdraw(q)), q, CREATED.(refs := 2, queued := true))
    ensures i < |w.threads| && i < |Act(w, i, Fetch).threads| && w' == Act(Act(w, i, Fetch), i, Fetch)
    ensures Stands(w', i, Releasing(q, Settle(q)), q, CREATED.(registered := false, refs := 1, queued := true))
    ensures w'.global == w.global
  {
    var w1 := Act(w, i, Fetch);
    assert Stands(w1, i, At(Withdraw(q)), q, CREATED.(refs := 1, queued := true));
    w' := Act(w1, i, Fetch);
  }

  lemma Withdrawn(w: World, i: nat, q: nat)
    requires Stands(w, i, Releasing(q, Settle(q)), q, CREATED.(registered := false, refs := 1, queued := true))
    ensures var w' := Done(w, i, [Fetch, Fetch, Fetch, Fetch, Fetch]);
      && i < |w'.threads| && w'.threads[i] == At(Stop) && Known(w', q) && w'.global == w.global
      && !w'.services[q].registered && w'.services[q].deleted == 1 && w'.services[q].freed
  {
    var gone := CREATED.(registered := false, refs := 0, deleted := 1, queued := true);
    var w1 := Act(w, i, Fetch);
    assert Stands(w1, i, Deleting(q, Settle(q)), q, gone) && w1.global == w.global;
    var w2 := Act(w1, i, Fetch);
    assert Stands(w2, i, At(Settle(q)), q, gone.(mail := Marked(NEW_MAIL))) && w2.global == w.global;
    hide Act;
    assert [Fetch, Fetch, Fetch, Fetch, Fetch] == [Fetch] + ([Fetch] + [Fetch, Fetch, Fetch]);
    DoneOne(w, i, Fetch, [Fetch] + [Fetch, Fetch, Fetch]);
    DoneOne(w1, i, Fetch, [Fetch, Fetch, Fetch]);
    EmptyFreed(w2, i, q);
  }

  lemma EmptyFreed(w: World, i: nat, q: nat)
    requires i < |w.threads| && w.threads[i] == At(Settle(q)) && Known(w, q)
    requires w.services[q].mail.release && w.services[q].mail.messages == []
    ensures var w' := Done(w, i, [Fetch, Fetch, Fetch]);
      && i < |w'.threads| && w'.threads[i] == At(Stop) && Known(w', q) && w'.global == w.global && w'.services[q].freed
      && w'.services[q].registered == w.services[q].registered && w'.services[q].deleted == w.services[q].deleted
  {
    var w1 := Act(w, i, Fetch);
    assert w1.threads[i] == At(Discard(q)) && w1.services[q] == w.services[q].(launched := true);
    var w2 := Act(w1, i, Fetch);
    assert w2.threads[i] == Freeing(q);
    hide Act;
    ThreeSteps(w, i, Fetch, Fetch, Fetch);
    Frees(w2, i, q);
  }

  lemma Frees(w: World, i: nat, q: nat)
    requires i < |w.threads| && w.threads[i] == Freeing(q) && Known(w, q)
    ensures var w' := Act(w, i, Fetch);
      && i < |w'.threads| && w'.threads[i] == At(Stop) && w'.global == w.global
      && Known(w', q) && w'.services[q] == w.services[q].(freed := true)
  {
  }

  /** A context to which nobody else refers is deleted when its handle is retired, and its queue is
      marked and listed, if it was not. */
  lemma RetireDeletes(w: World, i: nat, h: nat)
    requires i < |w.threads| && w.threads[i] == At(Stop) && Known(w, h)
    requires w.services[h].registered && w.services[h].refs == 1
    ensures var w' := Done(w, i, [Retire(h), Fetch, Fetch]); var s := w.services[h];
      && Stands(w', i, At(Stop), h, s.(registered := false, refs := 0, deleted := s.deleted + 1, mail := Marked(s.mail)))
      && (!s.mail.inGlobal ==> h in w'.global)
  {
    var w1 := Act(w, i, Retire(h));
    var w2 := Act(w1, i, Fetch);
    var s := w.services[h];
    assert w1.threads[i] == Releasing(h, Stop) && w1.services[h] == s.(registered := false);
    assert w2.threads[i] == Deleting(h, Stop);
    hide Act;
    ThreeSteps(w, i, Retire(h), Fetch, Fetch);
    MarkLists(w2, i, h);
  }

  lemma MarkLists(w: World, i: nat, h: nat)
    requires i < |w.threads| && w.threads[i] == Deleting(h, Stop) && Known(w, h)
    ensures var w' := Act(w, i, Fetch); var s := w.services[h];
      && Stands(w', i, At(Stop), h, s.(mail := Marked(s.mail)))
      && (!s.mail.inGlobal ==> h in w'.global)
  {
  }
}

/** Workers, senders and creators of skynet/skynet-src/skynet_server.c as a state machine. A
    world has any number of threads; each locked section and each atomic operation is one step,
    and a handle is registered and stored in its context in one step; its queue comes after that. A queue is on the global
    list or held by a thread when its flag says so; holding it is what allows serving it. */
module Scheduler {
  import opened SchedulerQueue

  const PTYPE_ERROR := 7

  datatype Handled = Dispatched(m: Message) | Dropped(m: Message)

  /** A context and its queue. `queued` tells that the context knows its queue, and `launched`
      that its creator has let go of it; the messages ever accepted and those ever taken are kept for the statements. */
  datatype Service = Service(registered: bool, refs: nat, deleted: nat, freed: bool, init: bool,
                             queued: bool, launched: bool, mail: Mail, accepted: seq<Message>, handled: seq<Handled>)

  const CREATED := Service(true, 2, 0, false, false, false, false, NEW_MAIL, [], [])
  const UNKNOWN := Service(false, 0, 0, true, false, false, false, NEW_MAIL, [], [])

  /** What a thread does next when it is between two calls. */
  datatype Next =
    | Stop
    | Keep(q: nat)        // serve the queue it holds
    | Settle(q: nat)      // skynet_mq_release
    | Discard(q: nat)     // _drop_queue
    | Launch(q: nat)      // creator: mark the context initialized
    | Announce(q: nat, alive: bool)  // creator: put the queue on the global list
    | Tell(q: nat)        // creator: use the context once more and return it
    | Withdraw(q: nat)    // creator: retire the handle after a failure

  datatype Thread =
    | At(next: Next)
    | Registered(q: nat)  // creator: the queue is still to be made
    | Creating(q: nat)
    | Serving(q: nat, i: nat, n: nat)
    | Measuring(q: nat, m: Message)
    | Working(q: nat, i: nat, n: nat, m: Message)
    | Ending(q: nat)
    | Swapping(q: nat, other: nat)
    | Sending(q: nat, m: Message, next: Next)
    | Stray(q: nat, next: Next)  // pushes to a context that has no queue yet
    | Releasing(q: nat, next: Next)
    | Deleting(q: nat, next: Next)
    | Replying(q: nat, m: Message)
    | Freeing(q: nat)

  /** An attempt to tell the source of a dropped message; it is found if it is registered. */
  datatype Reply = Reply(q: nat, m: Message, found: bool)

  datatype World = World(services: map<nat, Service>, nextHandle: nat, global: seq<nat>, threads: seq<Thread>,
                         replies: seq<Reply>)

  /** What the environment decides: what an idle thread begins, whether an init function
      succeeds, and the weight of a worker. */
  datatype Choice = Fetch | Create | Send(h: nat, m: Message) | Grab(h: nat) | Retire(h: nat)
                  | Succeed(ok: bool) | Weigh(measure: bool, weight: nat)

  function Get(w: World, h: nat): Service {
    if h in w.services then w.services[h] else UNKNOWN
  }

  function Move(w: World, i: nat, t: Thread): World
    requires i < |w.threads|
  {
    w.(threads := w.threads[i := t])
  }

  function Put(w: World, i: nat, t: Thread, h: nat, s: Service, global: seq<nat>): World
    requires i < |w.threads|
  {
    w.(services := w.services[h := s], global := global, threads := w.threads[i := t])
  }

  // ----- the calls -----

  /** skynet_handle_grab, then one thing or another. */
  function GrabThen(w: World, i: nat, h: nat, got: Thread, missed: Thread): World
    requires i < |w.threads|
  {
    var s := Get(w, h);
    if s.registered then Put(w, i, got, h, s.(refs := s.refs + 1), w.global) else Move(w, i, missed)
  }

  /** The locked part of skynet_handle_retire; the table's reference passes to the thread. */
  function RetireThen(w: World, i: nat, h: nat, next: Next): World
    requires i < |w.threads|
  {
    var s := Get(w, h);
    if s.registered then Put(w, i, Releasing(h, next), h, s.(registered := false), w.global) else Move(w, i, At(next))
  }

  /** skynet_mq_push, with the message accepted. */
  function PushStep(w: World, i: nat, h: nat, m: Message, next: Next): World
    requires i < |w.threads|
  {
    var s := Get(w, h);
    Put(w, i, Releasing(h, next), h, s.(mail := Pushed(s.mail, m), accepted := s.accepted + [m]),
        if s.mail.inGlobal then w.global else w.global + [h])
  }

  /** What is pushed through a context whose queue is not set goes nowhere. */
  function SendStep(w: World, i: nat, h: nat, m: Message, next: Next): World
    requires i < |w.threads|
  {
    if Get(w, h).queued then PushStep(w, i, h, m, next) else Move(w, i, Stray(h, next))
  }

  /** The creator of a deleted context gets none back. */
  function AfterLast(next: Next): Next {
    if next.Launch? then Announce(next.q, false) else next
  }

  /** skynet_context_release up to the decision to delete. */
  function ReleaseStep(w: World, i: nat, h: nat, next: Next): World
    requires i < |w.threads|
  {
    var s := Get(w, h);
    if s.refs == 1 then Put(w, i, Deleting(h, AfterLast(next)), h, s.(refs := 0, deleted := s.deleted + 1), w.global)
    else Put(w, i, At(next), h, s.(refs := if s.refs == 0 then 0 else s.refs - 1), w.global)
  }

  /** skynet_mq_mark_release. */
  function MarkStep(w: World, i: nat, h: nat, next: Next): World
    requires i < |w.threads|
  {
    var s := Get(w, h);
    Put(w, i, At(next), h, s.(mail := Marked(s.mail)), if s.mail.inGlobal then w.global else w.global + [h])
  }

  /** skynet_mq_pop by the worker serving the queue. */
  function ServeStep(w: World, i: nat, q: nat, k: nat, n: nat, measure: bool): World
    requires i < |w.threads|
  {
    var s := Get(w, q);
    if s.mail.messages == [] then
      Put(w, i, Releasing(q, Stop), q, s.(mail := Popped(s.mail)), w.global)
    else
      var m := s.mail.messages[0];
      Put(w, i, if k == 0 && measure then Measuring(q, m) else Working(q, k, n, m), q,
          s.(mail := Popped(s.mail), handled := s.handled + [Dispatched(m)]), w.global)
  }

  /** skynet_mq_pop by the thread dropping the queue. */
  function DiscardStep(w: World, i: nat, q: nat): World
    requires i < |w.threads|
  {
    var s := Get(w, q);
    if s.mail.messages == [] then
      Put(w, i, Freeing(q), q, s.(mail := Popped(s.mail)), w.global)
    else
      var m := s.mail.messages[0];
      Put(w, i, Replying(q, m), q, s.(mail := Popped(s.mail), handled := s.handled + [Dropped(m)]), w.global)
  }

  /** drop_message: the source is sent an error if its handle is still registered. */
  function ReplyStep(w: World, i: nat, q: nat, m: Message): World
    requires i < |w.threads|
  {
    GrabThen(w, i, m.source, Sending(m.source, Message(q, 0, PTYPE_ERROR, []), Discard(q)), At(Discard(q)))
    .(replies := w.replies + [Reply(q, m, Get(w, m.source).registered)])
  }

  /** skynet_mq_release: drops a released queue, puts back any other. */
  function SettleStep(w: World, i: nat, q: nat): World
    requires i < |w.threads|
  {
    var s := Get(w, q);
    if s.mail.release then Put(w, i, At(Discard(q)), q, s.(launched := true), w.global)
    else Put(w, i, At(Stop), q, s.(launched := true), w.global + [q])
  }

  function Halved(n: nat, weight: nat): nat {
    if weight == 0 then n else Halved(n / 2, weight - 1)
  }

  function Begin(w: World, i: nat, c: Choice): World
    requires i < |w.threads|
  {
    match c
    case Fetch =>
      if w.global == [] then w
      else Put(w, i, At(Keep(w.global[0])), w.global[0], Get(w, w.global[0]), w.global[1..])
    case Create => Put(w, i, Registered(w.nextHandle), w.nextHandle, CREATED, w.global).(nextHandle := w.nextHandle + 1)
    case Send(h, m) => GrabThen(w, i, h, Sending(h, m, Stop), At(Stop))
    case Grab(h) => GrabThen(w, i, h, Releasing(h, Stop), At(Stop))
    case Retire(h) => RetireThen(w, i, h, Stop)
    case _ => w
  }

  function Proceed(w: World, i: nat, next: Next): World
    requires i < |w.threads|
  {
    match next
    case Stop => w
    case Keep(q) => GrabThen(w, i, q, Serving(q, 0, 1), At(Settle(q)))
    case Settle(q) => SettleStep(w, i, q)
    case Discard(q) => DiscardStep(w, i, q)
    case Launch(q) => Put(w, i, At(Announce(q, true)), q, Get(w, q).(init := true), w.global)
    case Announce(q, alive) =>
      Put(w, i, At(if alive then Tell(q) else Stop), q, Get(w, q).(launched := true), w.global + [q])
    case Tell(_) => Move(w, i, At(Stop))
    case Withdraw(q) => RetireThen(w, i, q, Settle(q))
  }

  /** One step of one thread. */
  function Act(w: World, i: nat, c: Choice): World
    requires i < |w.threads|
  {
    match w.threads[i]
    case At(Stop) => Begin(w, i, c)
    case At(next) => Proceed(w, i, next)
    case Registered(q) => Put(w, i, Creating(q), q, Get(w, q).(queued := true), w.global)
    case Creating(q) => Move(w, i, Releasing(q, if c == Succeed(true) then Launch(q) else Withdraw(q)))
    case Serving(q, k, n) => ServeStep(w, i, q, k, n, c.Weigh? && c.measure)
    case Measuring(q, m) =>
      Move(w, i, Working(q, 0, Halved(|Get(w, q).mail.messages|, if c.Weigh? then c.weight else 0), m))
    case Working(q, k, n, m) => Move(w, i, if k + 1 < n then Serving(q, k + 1, n) else Ending(q))
    case Ending(q) =>
      if w.global == [] then Move(w, i, Releasing(q, Keep(q)))
      else Put(w, i, Swapping(q, w.global[0]), q, Get(w, q), w.global[1..])
    case Swapping(q, other) => Put(w, i, Releasing(q, Keep(other)), q, Get(w, q), w.global + [q])
    case Sending(h, m, next) => SendStep(w, i, h, m, next)
    case Stray(_, _) => w
    case Releasing(h, next) => ReleaseStep(w, i, h, next)
    case Deleting(h, next) => MarkStep(w, i, h, next)
    case Replying(q, m) => ReplyStep(w, i, q, m)
    case Freeing(q) => Put(w, i, At(Stop), q, Get(w, q).(freed := true), w.global)
  }
}

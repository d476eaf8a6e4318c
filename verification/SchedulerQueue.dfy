/** The ring queue of a service and the global queue of queues, from skynet/skynet-src/skynet_mq.c.
    The methods are the sections that run under a queue's lock or under the global lock. */
module SchedulerQueue {
  const DEFAULT_QUEUE_SIZE := 64
  const MQ_OVERLOAD := 1024

  datatype Message = Message(source: nat, session: int, kind: nat, data: seq<int>)

  const NO_MESSAGE := Message(0, 0, 0, [])

  /** What a queue stands for: its messages in order, and its two flags. */
  datatype Mail = Mail(messages: seq<Message>, inGlobal: bool, release: bool)

  const NEW_MAIL := Mail([], true, false)

  function Pushed(mail: Mail, m: Message): Mail {
    mail.(messages := mail.messages + [m], inGlobal := true)
  }

  /** A pop takes the first message; finding none, it clears the flag. */
  function Popped(mail: Mail): Mail {
    if mail.messages == [] then mail.(inGlobal := false) else mail.(messages := mail.messages[1..])
  }

  function Marked(mail: Mail): Mail {
    mail.(release := true)
  }

  /** The overload threshold, doubled until it is no less than a length. */
  function Doubled(threshold: nat, length: nat): nat
    requires threshold > 0
    decreases length - threshold
  {
    if length > threshold then Doubled(2 * threshold, length) else threshold
  }

  /** Doubling stops at the first threshold that covers the length. */
  lemma {:induction false} DoubledLeast(threshold: nat, length: nat)
    requires threshold > 0
    ensures length <= Doubled(threshold, length)
    ensures Doubled(threshold, length) == threshold || Doubled(threshold, length) < 2 * length
    decreases length - threshold
  {
    if length > threshold {
      DoubledLeast(2 * threshold, length);
    }
  }

  class MessageQueue {
    const handle: nat
    var cap: nat
    var head: nat
    var tail: nat
    var release: bool
    var inGlobal: bool
    var overload: nat
    var threshold: nat
    var queue: array<Message>
    var next: MessageQueue?

    ghost predicate Valid()
      reads this
    {
      cap == queue.Length && head < cap && tail < cap && threshold > 0
    }

    ghost function Contents(): seq<Message>
      requires Valid()
      reads this, queue
    {
      if head <= tail then queue[head..tail] else queue[head..] + queue[..tail]
    }

    ghost function Abs(): Mail
      requires Valid()
      reads this, queue
    {
      Mail(Contents(), inGlobal, release)
    }

    constructor (handle: nat)
      ensures Valid() && fresh(queue) && this.handle == handle
      ensures Abs() == NEW_MAIL && next == null
      ensures overload == 0 && threshold == MQ_OVERLOAD
    {
      this.handle := handle;
      cap, head, tail := DEFAULT_QUEUE_SIZE, 0, 0;
      inGlobal, release := true, false;
      overload, threshold := 0, MQ_OVERLOAD;
      queue := new Message[DEFAULT_QUEUE_SIZE](_ => NO_MESSAGE);
      next := null;
    }

    method Length() returns (length: nat)
      requires Valid()
      ensures length == |Contents()|
    {
      if head <= tail {
        return tail - head;
      }
      return tail + cap - head;
    }

    method TakeOverload() returns (length: nat)
      requires Valid()
      modifies this`overload
      ensures length == old(overload) && overload == 0
    {
      length := overload;
      if overload != 0 {
        overload := 0;
      }
    }

    /** Takes the first message. When the rest is longer than the threshold its length is noted
        and the threshold doubled until it covers the rest; an empty queue resets it. */
    method Pop() returns (empty: bool, m: Message)
      requires Valid()
      modifies this`head, this`inGlobal, this`overload, this`threshold
      ensures Valid()
      ensures Abs() == Popped(old(Abs()))
      ensures empty == (old(Contents()) == [])
      ensures !empty ==> m == old(Contents())[0]
      ensures empty ==> threshold == MQ_OVERLOAD && overload == old(overload)
      ensures !empty ==> threshold == Doubled(old(threshold), |Contents()|)
      ensures !empty ==> overload == if |Contents()| > old(threshold) then |Contents()| else old(overload)
    {
      empty, m := true, NO_MESSAGE;
      if head != tail {
        m := Take();
        empty := false;
        var length: int := tail - head;
        if length < 0 {
          length := length + cap;
        }
        assert length == |Contents()|;
        Watch(length);
      } else {
        threshold := MQ_OVERLOAD;
      }
      if empty {
        inGlobal := false;
      }
    }

    /** Takes the first message out of the ring. */
    method Take() returns (m: Message)
      requires Valid() && head != tail
      modifies this`head
      ensures Valid() && old(Contents()) == [m] + Contents()
    {
      m := queue[head];
      head := head + 1;
      if head >= cap {
        head := 0;
      }
    }

    /** Notes a length over the threshold, and raises the threshold to cover it. */
    method Watch(length: nat)
      requires Valid()
      modifies this`threshold, this`overload
      ensures Valid() && threshold == Doubled(old(threshold), length)
      ensures overload == if length > old(threshold) then length else old(overload)
    {
      while length > threshold
        invariant threshold > 0
        invariant Doubled(threshold, length) == Doubled(old(threshold), length)
        invariant overload == if threshold > old(threshold) then length else old(overload)
        invariant threshold >= old(threshold)
        invariant threshold > old(threshold) ==> length > old(threshold)
        decreases length - threshold
      {
        overload := length;
        threshold := threshold * 2;
      }
    }

    /** Moves a full ring to one of twice the size; nothing is lost or reordered. */
    method Expand()
      requires Valid() && head == tail
      modifies this`cap, this`head, this`tail, this`queue
      ensures Valid() && fresh(queue) && cap == 2 * old(cap)
      ensures Contents() == old(queue[head..] + queue[..head])
    {
      var larger := new Message[2 * cap](_ => NO_MESSAGE);
      for i := 0 to cap
        invariant unchanged(this)
        invariant larger[..i] == (queue[head..] + queue[..head])[..i]
      {
        Wrapped(head, i, cap);
        larger[i] := queue[(head + i) % cap];
      }
      head, tail := 0, cap;
      cap := cap * 2;
      queue := larger;
    }

    /** Adds a message at the end, in a larger ring when that used the last slot. */
    method Store(m: Message)
      requires Valid()
      modifies this`cap, this`head, this`tail, this`queue, queue
      ensures Valid() && (queue == old(queue) || fresh(queue))
      ensures Contents() == old(Contents()) + [m]
    {
      ghost var ring := queue[..];
      queue[tail] := m;
      assert queue[..] == ring[tail := m];
      tail := tail + 1;
      if tail >= cap {
        tail := 0;
      }
      if head == tail {
        Expand();
      }
    }

    /** A push puts the queue on the global list, unless its flag says that it is there already
        or being served. */
    method Push(m: Message, global: GlobalQueue)
      requires Valid() && global.Valid() && this in global.queues
      requires !inGlobal ==> this !in global.list
      modifies this`cap, this`head, this`tail, this`queue, this`inGlobal, queue, global, global.list`next
      ensures Valid() && (queue == old(queue) || fresh(queue))
      ensures Abs() == Pushed(old(Abs()), m)
      ensures global.Valid() && global.queues == old(global.queues)
      ensures global.list == if old(inGlobal) then old(global.list) else old(global.list) + [this]
    {
      hide GlobalQueue.Valid, Contents;
      var linked := Accept(m);
      if !linked {
        global.Push(this);
      }
    }

    /** The part of a push that does not concern the list. */
    method Accept(m: Message) returns (linked: bool)
      requires Valid()
      modifies this`cap, this`head, this`tail, this`queue, this`inGlobal, queue
      ensures Valid() && (queue == old(queue) || fresh(queue))
      ensures Abs() == Pushed(old(Abs()), m) && linked == old(inGlobal)
    {
      Store(m);
      hide Contents;
      linked := inGlobal;
      inGlobal := true;
    }

    method MarkRelease(global: GlobalQueue)
      requires Valid() && global.Valid() && this in global.queues
      requires !release
      requires !inGlobal ==> this !in global.list
      modifies this`release, global, global.list`next
      ensures Valid() && Abs() == Marked(old(Abs()))
      ensures global.Valid() && global.queues == old(global.queues)
      ensures global.list == if old(inGlobal) then old(global.list) else old(global.list) + [this]
    {
      release := true;
      if !inGlobal {
        global.Push(this);
      }
    }

    /** Drops what is left of a released queue, in order. */
    method Drop() returns (dropped: seq<Message>)
      requires Valid()
      modifies this`head, this`inGlobal, this`overload, this`threshold
      ensures Valid() && dropped == old(Contents())
      ensures Abs() == Mail([], false, old(release))
    {
      hide Doubled, Contents;
      dropped := [];
      var empty, m := Pop();
      while !empty
        invariant Valid()
        invariant !empty ==> old(Contents()) == dropped + [m] + Contents()
        invariant empty ==> !inGlobal && Contents() == [] && dropped == old(Contents())
        decreases !empty, |Contents()|
      {
        dropped := dropped + [m];
        ghost var left := Contents();
        empty, m := Pop();
        assert !empty ==> left == [m] + Contents();
      }
    }
  }

  lemma Wrapped(head: nat, i: nat, cap: nat)
    requires head < cap && i < cap
    ensures (head + i) % cap == if head + i < cap then head + i else head + i - cap
  {
    if head + i >= cap {
      assert (head + i - cap) % cap == (head + i) % cap;
    }
  }

  /** The global queue, linked through the queues on it. Of all queues there are, those that are
      not on it have a clear link. */
  class GlobalQueue {
    var head: MessageQueue?
    var tail: MessageQueue?
    ghost var list: seq<MessageQueue>
    ghost var queues: set<MessageQueue>

    ghost predicate Valid()
      reads this, list`next, queues`next
    {
      && (list == [] ==> head == null && tail == null)
      && (list != [] ==> head == list[0] && tail == list[|list| - 1] && list[|list| - 1].next == null)
      && (forall i :: 0 <= i < |list| - 1 ==> list[i].next == list[i + 1])
      && (forall i, j :: 0 <= i < j < |list| ==> list[i] != list[j])
      && (forall i :: 0 <= i < |list| ==> list[i] in queues)
      && (forall q <- queues :: q !in list ==> q.next == null)
    }

    /** A link is clear exactly when its queue is not on the list or is the last one there. */
    lemma LinkClear(queue: MessageQueue)
      requires Valid() && queue in queues
      ensures queue.next == null <==> queue !in list || queue == list[|list| - 1]
    {
      if queue in list {
        var i :| 0 <= i < |list| && queue == list[i];
        assert i < |list| - 1 ==> list[i].next == list[i + 1];
      }
    }

    constructor ()
      ensures Valid() && list == [] && queues == {}
    {
      head, tail, list, queues := null, null, [], {};
    }

    /** A new queue, not yet on the list. */
    ghost method Enroll(queue: MessageQueue)
      requires Valid() && queue.next == null
      modifies this`queues
      ensures Valid() && queues == old(queues) + {queue}
    {
      queues := queues + {queue};
    }

    /** A queue that is freed is not on the list; its link is asserted to be clear. */
    method Forget(queue: MessageQueue)
      requires Valid() && queue in queues && queue !in list
      modifies this`queues
      ensures Valid() && queues == old(queues) - {queue} && queue.next == null
    {
      assert queue.next == null;
      queues := queues - {queue};
    }

    method Push(queue: MessageQueue)
      requires Valid() && queue in queues && queue !in list
      modifies this`head, this`tail, this`list, list`next
      ensures Valid() && list == old(list) + [queue]
    {
      assert queue.next == null;
      if tail != null {
        tail.next := queue;
        tail := queue;
      } else {
        head, tail := queue, queue;
      }
      list := list + [queue];
    }

    method Pop() returns (queue: MessageQueue?)
      requires Valid()
      modifies this`head, this`tail, this`list, list`next
      ensures Valid()
      ensures queue == null <==> old(list) == []
      ensures queue == null ==> list == []
      ensures queue != null ==> old(list) == [queue] + list && queue.next == null && queue !in list
    {
      queue := head;
      if queue != null {
        assert |list| > 1 ==> list[0].next == list[1];
        head := queue.next;
        if head == null {
          assert queue == tail;
          tail := null;
        }
        queue.next := null;
        list := list[1..];
      }
    }
  }
}

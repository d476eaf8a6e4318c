/** Whole runs of a TCP socket: senders, the pipe and the socket thread take their steps in any
    order, with any answers from the kernel. */
module SocketRuns {
  import opened SocketBuffers
  import opened SocketServer

  datatype Move =
    | SendHigh(data: seq<bv8>, locked: bool, n: int)
    | SendLow(data: seq<bv8>)
    | Post(i: nat)
    | Ask(request: Request)
    | Command(opening: Opening, pollFails: bool)
    | Poll(event: Event, connected: bool, pollFails: bool)

  // ----- what integrity means -----

  lemma {:induction false} OfCount(packets: seq<Packet>, p: Packet)
    ensures multiset(packets)[p] == multiset(Of(packets, p.origin))[p]
  {
    if packets != [] {
      var n := |packets| - 1;
      OfCount(packets[..n], p);
      assert packets == packets[..n] + [packets[n]];
    }
  }

  /** Every accepted packet is sent whole or still pending, once; the wire carries the packets
      sent whole and then some of the first pending one; and each origin is sent in order. */
  lemma WireIntegrity(pending: seq<WriteBuffer>, wire: seq<bv8>, whole: seq<Packet>, accepted: seq<Packet>)
    requires WritesOk(pending, wire, whole, accepted)
    ensures multiset(accepted) == multiset(whole) + multiset(Packets(pending))
    ensures forall o: Origin {:trigger Of(whole, o)} :: Of(whole, o) <= Of(accepted, o)
    ensures Flatten(whole) <= wire
    ensures pending != [] ==> wire[|Flatten(whole)|..] <= pending[0].packet.data
    ensures pending == [] ==> wire == Flatten(whole)
  {
    hide Of, Flatten;
    forall p ensures multiset(accepted)[p] == (multiset(whole) + multiset(Packets(pending)))[p] {
      assert Of(accepted, p.origin) == Of(whole, p.origin) + Of(Packets(pending), p.origin);
      OfCount(accepted, p);
      OfCount(whole, p);
      OfCount(Packets(pending), p);
    }
    forall o: Origin {:trigger Of(whole, o)} ensures Of(whole, o) <= Of(accepted, o) {
      assert Of(accepted, o) == Of(whole, o) + Of(Packets(pending), o);
    }
    assert wire[|Flatten(whole)|..] == Begun(pending);
  }

  // ----- any run -----

  /** One step keeps integrity; a socket whose read side is closed is left only to be freed, a
      freed one stays so, and what was reported stays reported. */
  method Step(s: Socket, m: Move) returns (ok: bool)
    requires s.Valid()
    modifies s
    ensures ok ==> s.Valid()
    ensures !ok ==> m.Command? && s.early > 0
    ensures s.early >= old(s.early)
    ensures ok && old(s.kind.HalfcloseRead?) ==> s.kind.HalfcloseRead? || s.kind.Invalid?
    ensures old(s.kind.Invalid?) ==> s.kind.Invalid?
    ensures ok ==> old(s.reports) <= s.reports
  {
    hide *;
    s.ClosedIsReported();
    ok := true;
    var accepted, r, failed := false, Silent, false;
    match m {
      case SendHigh(data, locked, n) => accepted := s.SendHigh(data, locked, if n <= |data| then n else |data|);
      case SendLow(data) => accepted := s.SendLow(data);
      case Post(i) => if i < |s.limbo| { s.Post(i); }
      case Ask(request) => if !request.Open? && !request.Send? && !request.Wake? { s.Ask(request); }
      case Command(opening, pollFails) =>
        if s.pipe != [] {
          SendFirst(s.pipe);
          r, ok := s.Command(opening, pollFails);
        }
      case Poll(event, connected, pollFails) => r, failed := s.Poll(event, connected, pollFails);
    }
    if ok {
      Kept(old(s.reports), s.reports, r);
      s.ClosedIsReported();
    }
  }

  lemma Kept(before: seq<Report>, after: seq<Report>, r: Report)
    requires after == before || after == Log(before, r)
    ensures before <= after
    ensures Closed in before ==> Closed in after
  {
  }

  lemma SendFirst(pipe: seq<Request>)
    requires pipe != []
    ensures pipe[0].Send? ==> Sends(pipe) > 0
  {
    PipeRest(pipe, []);
  }

  /** Any run keeps the write lists, the close protocol and the counter of sends; it stops at an
      assertion only if a send began while the id was reserved. */
  method Run(moves: seq<Move>, accepted: bool) returns (s: Socket, ok: bool)
    ensures ok ==> s.Valid()
    ensures s.early == 0 ==> ok
    ensures ok ==>
      && s.wire == Flatten(s.whole) + Begun(s.Pending())
      && multiset(s.accepted) == multiset(s.whole) + multiset(Packets(s.Pending()))
      && Orderly(s.reports)
  {
    hide WritesOk, Line, Unsent, Of, Flatten, Sends, Waking, Held;
    if accepted {
      s := new Socket.Accepted();
    } else {
      s := new Socket.Reserved();
    }
    ok := true;
    for k := 0 to |moves|
      invariant fresh(s) && ok && s.Valid()
    {
      ok := Step(s, moves[k]);
      if !ok {
        return;
      }
    }
    Integrity(s.Pending(), s.wire, s.whole, s.accepted);
  }

  lemma Integrity(pending: seq<WriteBuffer>, wire: seq<bv8>, whole: seq<Packet>, accepted: seq<Packet>)
    requires WritesOk(pending, wire, whole, accepted)
    ensures pending != [] ==> Fits(pending[0])
    ensures wire == Flatten(whole) + Begun(pending)
    ensures multiset(accepted) == multiset(whole) + multiset(Packets(pending))
  {
    WireIntegrity(pending, wire, whole, accepted);
  }

  // ----- two runs -----

  /** A send that begins while the id is reserved is not counted: when its request is done with,
      the assertion of dec_sending_ref fails. */
  method EarlySend(data: seq<bv8>) returns (s: Socket, ok: bool)
    ensures s.early == 1 && !ok
  {
    s := SendWhileReserved(data);
    hide Sends;
    OneSend(data);
    assert [Open, Send(data, false)][1..] == [Send(data, false)];
    var r;
    r, ok := s.Command(Immediate, false);
    assert s.pipe == [Send(data, false)] && s.limbo == [] && s.tcp;
    assert Sends(s.pipe) + Sends(s.limbo) == 1 && s.early == 1;
    r, ok := s.Command(Immediate, false);
  }

  method SendWhileReserved(data: seq<bv8>) returns (s: Socket)
    ensures fresh(s) && s.Valid() && s.pipe == [Open, Send(data, false)] && s.limbo == [] && s.early == 1
    ensures s.kind.Reserve?
  {
    hide WritesOk, Line, Held, Unsent, CloseOk, ListsOk, WakeOk, Waking, LowOk, Scaled, Log, Sends;
    s := new Socket.Reserved();
    assert !s.tcp;
    var accepted := s.SendHigh(data, true, 0);
    assert s.limbo == [Send(data, false)];
    s.Post(0);
  }

  lemma OneSend(data: seq<bv8>)
    ensures Sends([Send(data, false)]) == 1 && Sends([]) == 0
  {
    SendsLast([], Send(data, false));
    assert [] + [Send(data, false)] == [Send(data, false)];
  }

  /** A close request overtakes a counted send: the socket stays half closed with nothing to
      send, not watched for writing, and no request on its way. */
  method ClosedTooEarly(data: seq<bv8>) returns (s: Socket)
    ensures s.Valid() && s.stuck && s.kind == HalfcloseRead && s.closing && !s.writing
    ensures s.high == [] && s.low == [] && s.dw == [] && s.sending == 0 && s.pipe == [] && s.limbo == []
  {
    s := CloseAndSend(data);
    hide *;
    CloseFirst(s, data);
    DropLast(s, data);
  }

  method CloseFirst(s: Socket, data: seq<bv8>)
    requires s.Valid() && s.pipe == [Close(false), Send(data, false)] && s.limbo == []
    requires s.kind.Connected? && s.early == 0 && s.sending == 1 && !s.writing && !s.closing
    requires s.high == [] && s.low == [] && s.dw == []
    modifies s
    ensures s.Valid() && s.stuck && s.kind == HalfcloseRead && s.closing && !s.writing && s.early == 0
    ensures s.high == [] && s.low == [] && s.dw == [] && s.sending == 1 && s.pipe == [Send(data, false)] && s.limbo == []
  {
    hide WritesOk, Unsent, CloseOk, LowOk, Scaled, Log, Sends, Waking, ListsOk, SendingOk, PipeOk, WakeOk, Line, Held;
    NotWaking(data);
    assert [Close(false), Send(data, false)][1..] == [Send(data, false)];
    var r := s.CloseSocket(false);
    s.EndRequest();
  }

  method DropLast(s: Socket, data: seq<bv8>)
    requires s.Valid() && s.stuck && s.kind == HalfcloseRead && s.closing && !s.writing && s.early == 0
    requires s.high == [] && s.low == [] && s.dw == [] && s.sending == 1 && s.pipe == [Send(data, false)] && s.limbo == []
    modifies s
    ensures s.Valid() && s.stuck && s.kind == HalfcloseRead && s.closing && !s.writing
    ensures s.high == [] && s.low == [] && s.dw == [] && s.sending == 0 && s.pipe == [] && s.limbo == []
  {
    hide WritesOk, Unsent, CloseOk, LowOk, Scaled, Log, Sends, Waking, ListsOk, PipeOk, Line, Held;
    OneSend(data);
    assert [Send(data, false)][1..] == [];
    var r := s.SendSocket(data, false, false);
    var ok := s.EndSend();
  }

  method CloseAndSend(data: seq<bv8>) returns (s: Socket)
    ensures fresh(s) && s.Valid() && s.pipe == [Close(false), Send(data, false)] && s.limbo == []
    ensures s.kind.Connected? && s.early == 0 && s.sending == 1 && !s.writing && !s.closing
    ensures s.high == [] && s.low == [] && s.dw == []
  {
    s := Started();
    hide WritesOk, Unsent, CloseOk, LowOk, Scaled, Log, Sends, Waking;
    var accepted := s.SendHigh(data, false, 0);
    assert s.limbo == [Send(data, false)] && s.sending == 1;
    s.Ask(Close(false));
    assert s.pipe == [Close(false)];
    s.Post(0);
    assert s.pipe == [Close(false)] + [Send(data, false)];
  }

  method Started() returns (s: Socket)
    ensures fresh(s) && s.Valid() && s.pipe == [] && s.limbo == [] && s.early == 0
    ensures s.kind.Connected? && s.sending == 0 && !s.writing && !s.closing
    ensures s.high == [] && s.low == [] && s.dw == []
  {
    hide WritesOk, Unsent, CloseOk, LowOk, Scaled, Log, Sends, Waking;
    s := new Socket.Accepted();
    s.Ask(Resume);
    assert [Resume][1..] == [];
    var r := s.ResumeSocket(false);
    s.EndRequest();
  }

  lemma NotWaking(data: seq<bv8>)
    ensures !Waking([Close(false), Send(data, false)], [])
  {
  }
}

/** One TCP socket of skynet/skynet-src/socket_server.c, from the moment its id is reserved. The
    fields are those of its slot; the pipe carries the requests that name its id, and `limbo`
    those prepared by senders but not yet written to the pipe. What the kernel answers and when
    the events come is left open. The ghost fields record what happened. */
module SocketServer {
  import opened SocketBuffers

  const MIN_READ_BUFFER := 64
  const WARNING_SIZE := 1024 * 1024
  const MAX_SENDING := 0xffff

  datatype Kind = Invalid | Reserve | Connecting | Connected | HalfcloseRead | HalfcloseWrite | PAccept | Bound

  datatype Request = Open | Send(data: seq<bv8>, low: bool) | Wake | Close(shutdown: bool) | Resume | Pause | SetOption

  /** How opening goes: no fd or no room for it, a failure after that, a connection under way or
      made at once, or an fd that was there before. */
  datatype Opening = Refused | Unwatched | InProgress | Immediate | Given

  /** What write() answers. */
  datatype Answer = Wrote(n: nat) | Again | Interrupted | Failed

  /** What read() answers. */
  datatype Input = Got(bytes: seq<bv8>) | EndOfFile | NoInput | ReadError

  /** What the event poll says of an fd. */
  datatype Event = Readable(input: Input) | Writable(locked: bool, answers: seq<Answer>) | Fault | Hangup

  datatype Report = Silent | Opened | Data(bytes: seq<bv8>) | Closed | Error | Warning(size: nat)

  /** The sizes of a read buffer: the least one, doubled any number of times. */
  ghost predicate Scaled(size: nat) {
    exists k: nat :: size == Least(k)
  }

  function Least(k: nat): nat { if k == 0 then MIN_READ_BUFFER else 2 * Least(k - 1) }

  lemma Rescaled(size: nat)
    requires Scaled(size)
    ensures Scaled(2 * size) && size > 0
    ensures size > MIN_READ_BUFFER ==> Scaled(size / 2)
  {
    var k: nat :| size == Least(k);
    LeastPositive(k);
    assert 2 * size == Least(k + 1);
    assert k > 0 ==> size / 2 == Least(k - 1);
  }

  lemma {:induction false} LeastPositive(k: nat)
    ensures Least(k) >= MIN_READ_BUFFER
  {
    if k > 0 {
      LeastPositive(k - 1);
    }
  }

  /** What draining a list comes to: what is left of it and of the answers, and whether it failed. */
  datatype Drained = Drained(left: seq<WriteBuffer>, more: seq<Answer>, failed: bool)

  /** The kernel's answers applied to a list, one write at a time. */
  function Taken(list: seq<WriteBuffer>, answers: seq<Answer>): Drained
    decreases |answers|
  {
    if list == [] || answers == [] then Drained(list, answers, false)
    else match answers[0]
      case Again => Drained(list, answers[1..], false)
      case Interrupted => Taken(list, answers[1..])
      case Failed => Drained(list, answers[1..], true)
      case Wrote(n) =>
        if n < Left(list[0]) then
          Drained([list[0].(offset := list[0].offset + n)] + list[1..], answers[1..], false)
        else Taken(list[1..], answers[1..])
  }

  /** How many bytes of a list the answers take. */
  function Accepts(list: seq<WriteBuffer>, answers: seq<Answer>): int
    decreases |answers|
  {
    if list == [] || answers == [] then 0
    else match answers[0]
      case Again => 0
      case Interrupted => Accepts(list, answers[1..])
      case Failed => 0
      case Wrote(n) => if n < Left(list[0]) then n else Left(list[0]) + Accepts(list[1..], answers[1..])
  }

  /** The bytes that the answers take, the first unsent ones of the list, are put on the wire. */
  ghost predicate Put(list: seq<WriteBuffer>, answers: seq<Answer>, wire: seq<bv8>, wire': seq<bv8>) {
    0 <= Accepts(list, answers) <= |Bytes(list)| && wire' == wire + Bytes(list)[..Accepts(list, answers)]
  }

  const NO_BUFFER := WriteBuffer(Packet(Direct, []), 0)

  function Sends(requests: seq<Request>): nat {
    if requests == [] then 0 else Sends(requests[..|requests| - 1]) + if requests[|requests| - 1].Send? then 1 else 0
  }

  function Log(reports: seq<Report>, r: Report): seq<Report> {
    if r.Silent? then reports else reports + [r]
  }

  /** SOCKET_CLOSE comes at most once, and no SOCKET_DATA after it. */
  predicate Orderly(reports: seq<Report>) {
    forall i, j :: 0 <= i < j < |reports| && reports[i].Closed? ==> !reports[j].Closed? && !reports[j].Data?
  }

  /** Close protocol: once SOCKET_CLOSE is reported the socket is half closed or gone, and a
      socket is half closed or gone only when it is reported or opening it failed. */
  ghost predicate CloseOk(kind: Kind, closing: bool, reports: seq<Report>, broken: bool) {
    && Orderly(reports)
    && (Closed in reports ==> kind.HalfcloseRead? || kind.Invalid?)
    && (kind.HalfcloseRead? ==> Closed in reports)
    && (kind.Invalid? ==> Closed in reports || broken)
    && (closing ==> kind.HalfcloseRead? || kind.Invalid?)
  }

  ghost predicate ListsOk(kind: Kind, dw: seq<WriteBuffer>, high: seq<WriteBuffer>, low: seq<WriteBuffer>, wbSize: int) {
    && |dw| <= 1
    && (kind.Invalid? || kind.Reserve? ==> dw == [] && high == [] && low == [])
    && (!kind.Invalid? && !kind.Reserve? ==> wbSize == Unsent(high) + Unsent(low))
  }

  predicate LowOk(low: seq<WriteBuffer>) {
    forall i :: 0 <= i < |low| ==> low[i].packet.origin == Low && low[i].offset == 0
  }

  /** The counter of sends under way is short of exactly those begun while the id was reserved. */
  predicate SendingOk(kind: Kind, tcp: bool, sending: nat, early: nat, pipe: seq<Request>, limbo: seq<Request>) {
    && (kind.Reserve? ==> !tcp && early == Sends(pipe) + Sends(limbo))
    && (!kind.Reserve? && !kind.Invalid? ==> tcp)
    && (tcp ==> sending + early == Sends(pipe) + Sends(limbo))
  }

  /** The request to open comes first, and only while the id is reserved. */
  predicate PipeOk(kind: Kind, pipe: seq<Request>, limbo: seq<Request>) {
    && (kind.Reserve? ==> pipe != [] && pipe[0].Open?)
    && (forall i :: 0 <= i < |pipe| && pipe[i].Open? ==> kind.Reserve? && i == 0)
    && (forall i :: 0 <= i < |limbo| ==> !limbo[i].Open?)
  }

  lemma SendsLast(requests: seq<Request>, r: Request)
    ensures Sends(requests + [r]) == Sends(requests) + if r.Send? then 1 else 0
  {
    assert (requests + [r])[..|requests|] == requests;
  }

  lemma {:induction false} SendsConcat(a: seq<Request>, b: seq<Request>)
    ensures Sends(a + b) == Sends(a) + Sends(b)
    decreases |b|
  {
    if b == [] {
      assert a + b == a;
    } else {
      var n := |b| - 1;
      SendsConcat(a, b[..n]);
      assert a + b == (a + b[..n]) + [b[n]];
      SendsLast(a + b[..n], b[n]);
    }
  }

  lemma SendsWithout(a: seq<Request>, r: Request, b: seq<Request>)
    ensures Sends(a + [r] + b) == Sends(a + b) + if r.Send? then 1 else 0
  {
    SendsLast(a, r);
    SendsConcat(a, b);
    SendsConcat(a + [r], b);
  }

  /** What is to be sent, in order. */
  function Line(dw: seq<WriteBuffer>, high: seq<WriteBuffer>, low: seq<WriteBuffer>): seq<WriteBuffer> {
    dw + high + low
  }

  /** The ways of holding the same line. */
  lemma LineParts(b: WriteBuffer, high: seq<WriteBuffer>, low: seq<WriteBuffer>)
    ensures Line([], high, low) == high + low
    ensures Line([], [], low) == low + [] == low
    ensures Line([b], high, low) == Line([], [b] + high, low)
    ensures Line([b], [], []) == [b] + [] == [b]
    ensures low != [] ==> Line([], [low[0]], low[1..]) == low
  {
  }

  /** A socket with something to send is watched for writing, or will be; so is a closing one,
      except when it is stuck. */
  predicate WakeOk(kind: Kind, closing: bool, writing: bool, stuck: bool, empty: bool, waking: bool) {
    && (!kind.Invalid? && !kind.HalfcloseWrite? && !empty ==> writing || waking)
    && (closing && !kind.Invalid? ==> (stuck <==> !writing && !waking))
  }

  predicate Waking(pipe: seq<Request>, limbo: seq<Request>) { Wake in pipe || Wake in limbo }

  /** What is pending: the line, or what was in it when the socket was closed. */
  function Held(kind: Kind, lost: seq<WriteBuffer>, dw: seq<WriteBuffer>, high: seq<WriteBuffer>, low: seq<WriteBuffer>)
    : seq<WriteBuffer>
  {
    if kind.Invalid? then lost else Line(dw, high, low)
  }

  /** All that holds of a slot when its id is reserved or its connection accepted. */
  lemma NothingYet(kind: Kind, pipe: seq<Request>)
    requires (kind.Reserve? && pipe == [Open]) || (kind.PAccept? && pipe == [])
    ensures Held(kind, [], [], [], []) == []
    ensures WritesOk([], [], [], []) && LowOk([]) && ListsOk(kind, [], [], [], 0) && CloseOk(kind, false, [], false)
    ensures SendingOk(kind, kind.PAccept?, 0, 0, pipe, []) && PipeOk(kind, pipe, []) && Scaled(MIN_READ_BUFFER)
    ensures WakeOk(kind, false, false, false, true, Waking(pipe, []))
  {
    hide Sends, Unsent, WritesOk, Least, PipeOk;
    NothingWritten([], [], []);
    NothingAsked(kind, pipe, []);
    NothingUnsent([]);
    NoneSent([]);
    SendsLast([], Open);
    assert [] + [Open] == [Open];
    assert Scaled(MIN_READ_BUFFER) by { LeastIsLeast(0); }
  }

  /** Lists written one after the other are written like one. */
  lemma {:induction false} TakenConcat(a: seq<WriteBuffer>, b: seq<WriteBuffer>, answers: seq<Answer>)
    ensures var t := Taken(a, answers);
      Taken(a + b, answers) ==
        if !t.failed && t.left == [] then Taken(b, t.more) else Drained(t.left + b, t.more, t.failed)
    decreases |answers|
  {
    if a == [] {
      assert a + b == b;
    } else if answers != [] {
      assert (a + b)[0] == a[0] && (a + b)[1..] == a[1..] + b;
      match answers[0]
      case Interrupted => TakenConcat(a, b, answers[1..]);
      case Wrote(n) =>
        if n < Left(a[0]) {
          var after := [a[0].(offset := a[0].offset + n)];
          assert after + a[1..] + b == after + (a[1..] + b);
        } else {
          TakenConcat(a[1..], b, answers[1..]);
        }
      case _ =>
    }
  }

  lemma NothingBefore(low: seq<WriteBuffer>)
    ensures [] + low == low
  {
  }

  /** What the answers take of a list is what is missing from its bytes afterwards. */
  lemma {:induction false} TakenBytes(list: seq<WriteBuffer>, answers: seq<Answer>)
    requires forall i :: 0 <= i < |list| ==> Fits(list[i])
    ensures 0 <= Accepts(list, answers) <= |Bytes(list)|
    ensures Bytes(Taken(list, answers).left) == Bytes(list)[Accepts(list, answers)..]
    decreases |answers|
  {
    if list != [] && answers != [] {
      var b := list[0];
      hide Bytes;
      BytesFirst(list);
      match answers[0]
      case Interrupted => TakenBytes(list, answers[1..]);
      case Wrote(n) =>
        if n < Left(b) {
          BytesAfter(list, n);
        } else {
          TakenBytes(list[1..], answers[1..]);
          BytesBeyond(b.packet.data[b.offset..], Bytes(list[1..]), Accepts(list[1..], answers[1..]));
        }
      case _ =>
    }
  }

  lemma BytesBeyond(a: seq<bv8>, b: seq<bv8>, m: nat)
    requires m <= |b|
    ensures (a + b)[|a| + m..] == b[m..]
  {
  }

  lemma BytesAfter(list: seq<WriteBuffer>, n: nat)
    requires list != [] && Fits(list[0]) && n < Left(list[0])
    ensures n <= |Bytes(list)|
    ensures Bytes([list[0].(offset := list[0].offset + n)] + list[1..]) == Bytes(list)[n..]
  {
    var (b, tail) := (list[0], list[1..]);
    var after := b.(offset := b.offset + n);
    assert ([after] + tail)[1..] == tail;
    BytesFirst([after] + tail);
    BytesFirst(list);
    hide Bytes;
    var (x, y) := (b.packet.data[b.offset..], after.packet.data[after.offset..]);
    assert x[n..] == y;
    assert (x + Bytes(tail))[n..] == x[n..] + Bytes(tail);
  }

  lemma BytesFirst(list: seq<WriteBuffer>)
    requires list != [] && Fits(list[0])
    ensures Bytes(list) == list[0].packet.data[list[0].offset..] + Bytes(list[1..])
  {
  }

  /** A first answer takes as much of the first buffer as it says. */
  lemma TakesFirst(list: seq<WriteBuffer>, answers: seq<Answer>, n: nat)
    requires (forall i :: 0 <= i < |list| ==> Fits(list[i])) && list != [] && answers != [] && answers[0] == Wrote(n)
    ensures Accepts(list, answers) >= if n < Left(list[0]) then n else Left(list[0])
  {
    TakenBytes(list[1..], answers[1..]);
  }

  /** Answers that cover every buffer leave nothing. */
  lemma {:induction false} TakesAll(list: seq<WriteBuffer>, answers: seq<Answer>)
    requires |list| <= |answers|
    requires forall i :: 0 <= i < |list| ==> answers[i].Wrote? && answers[i].n >= Left(list[i])
    ensures Taken(list, answers).left == [] && !Taken(list, answers).failed
  {
    if list != [] { TakesAll(list[1..], answers[1..]); }
  }

  /** Integrity before and after says what is on the wire. */
  lemma WireGrows(line: seq<WriteBuffer>, answers: seq<Answer>, wire: seq<bv8>, wire': seq<bv8>,
                  whole: seq<Packet>, whole': seq<Packet>, accepted: seq<Packet>)
    requires WritesOk(line, wire, whole, accepted)
    requires var left := Taken(line, answers).left;
      WritesOk(left, wire', whole', accepted) && Advanced(line, left, whole, whole')
    ensures Put(line, answers, wire, wire')
    ensures Taken(line, answers).left == [] ==> whole' == whole + Packets(line)
  {
    hide Of, Flatten, Taken, Accepts;
    var left := Taken(line, answers).left;
    TakenBytes(line, answers);
    var k: nat :| AdvancedBy(line, left, whole, whole', k);
    FlattenConcat(whole, Packets(line[..k]));
    GoneBytes(line, left, k);
    assert left == [] ==> line[..k] == line;
    var n := Accepts(line, answers);
    var sent := Flatten(Packets(line[..k])) + Begun(left);
    assert Bytes(line) == Bytes(line)[..n] + Bytes(line)[n..];
    SentIs(Begun(line), sent, Bytes(line), Bytes(left), n);
    assert wire' == Flatten(whole) + sent;
  }

  lemma SentIs(begun: seq<bv8>, sent: seq<bv8>, bytes: seq<bv8>, left: seq<bv8>, n: nat)
    requires n <= |bytes| && left == bytes[n..] && begun + bytes == sent + left
    ensures sent == begun + bytes[..n]
  {
    assert |sent| == |begun| + n;
    assert (begun + bytes)[..|sent|] == begun + bytes[..n] && (sent + left)[..|sent|] == sent;
  }

  lemma NothingWritten(none: seq<WriteBuffer>, wire: seq<bv8>, packets: seq<Packet>)
    requires none == [] && wire == [] && packets == []
    ensures WritesOk(none, wire, packets, packets)
  {
    assert Packets(none) == packets;
  }

  lemma NothingUnsent(none: seq<WriteBuffer>)
    requires none == []
    ensures Unsent(none) == 0
  {
  }

  lemma NoneSent(none: seq<Request>)
    requires none == []
    ensures Sends(none) == 0
  {
  }

  lemma NothingAsked(kind: Kind, pipe: seq<Request>, none: seq<Request>)
    requires none == [] && ((kind.Reserve? && pipe == [Open]) || (kind.PAccept? && pipe == none))
    ensures PipeOk(kind, pipe, none)
  {
  }

  lemma LeastIsLeast(k: nat)
    requires k == 0
    ensures Least(k) == MIN_READ_BUFFER
  {
  }

  datatype Mode = Mode(kind: Kind, writing: bool, warnSize: nat)

  /** After a failed write the write side is shut, or the socket gone. */
  predicate WriteShut(from: Mode, closing: bool, to: Mode, r: Report) {
    && r == (if closing || from.kind.HalfcloseRead? || from.kind.HalfcloseWrite? then Silent else Error)
    && to.kind == if closing || from.kind.HalfcloseRead? then Invalid else HalfcloseWrite
  }

  /** After everything is sent, the socket is gone if it was closing, and otherwise not watched for
      writing any more; the end of a warning is reported. */
  predicate AllSent(from: Mode, closing: bool, to: Mode, pollFails: bool, r: Report) {
    var stays := from.writing && pollFails;
    if closing then to.kind == Invalid && r == Silent
    else
      && to == Mode(from.kind, false, if stays then from.warnSize else 0)
      && r == if stays then Error else if from.warnSize > 0 then Warning(0) else Silent
  }

  /** What becomes of the socket when some of its line is written. */
  predicate AfterWriting(from: Mode, closing: bool, to: Mode, empty: bool, pollFails: bool, r: Report, failed: bool) {
    if failed then WriteShut(from, closing, to, r)
    else if empty then AllSent(from, closing, to, pollFails, r)
    else to == from && r == Silent
  }

  /** What comes of reading, when nothing more is to be sent or something is. */
  predicate AfterReading(from: Mode, closing: bool, idle: bool, input: Input, to: Mode, r: Report) {
    match input
    case Got(bytes) => to == from && r == if from.kind.HalfcloseRead? then Silent else Data(bytes)
    case NoInput => to == from && r == Silent
    case ReadError => to == from && r == Error
    case EndOfFile =>
      && to == from.(kind := if (closing && idle) || from.kind.HalfcloseWrite? then Invalid else HalfcloseRead)
      && r == if from.kind.HalfcloseRead? then Silent else Closed
  }

  /** What comes of opening. */
  function KindAfter(opening: Opening): Kind {
    match opening case Refused => Invalid case Unwatched => Invalid case InProgress => Connecting
                  case Immediate => Connected case Given => Bound
  }

  function ReportAfter(opening: Opening): Report {
    match KindAfter(opening) case Invalid => Error case Connecting => Silent case _ => Opened
  }

  /** The size of the buffer for the next read. */
  function Resized(size: nat, n: nat): nat {
    if n == size then 2 * size else if size > MIN_READ_BUFFER && 2 * n < size then size / 2 else size
  }

  class Socket {
    var kind: Kind
    var tcp: bool
    var closing: bool
    var writing: bool
    var high: seq<WriteBuffer>
    var low: seq<WriteBuffer>
    /** The rest of a direct write: none or one. */
    var dw: seq<WriteBuffer>
    var wbSize: int
    var warnSize: nat
    var readSize: nat
    var sending: nat
    var pipe: seq<Request>
    var limbo: seq<Request>

    /** The bytes given to the kernel, the packets given whole, those accepted, and those left
        behind when the socket was closed. */
    ghost var wire: seq<bv8>
    ghost var whole: seq<Packet>
    ghost var accepted: seq<Packet>
    ghost var lost: seq<WriteBuffer>
    ghost var reports: seq<Report>
    /** How many sends began before the socket was open. */
    ghost var early: nat
    /** Opening failed. */
    ghost var broken: bool
    /** Closing when nothing was left that would finish it. */
    ghost var stuck: bool

    ghost function Pending(): seq<WriteBuffer>
      reads this
    {
      Held(kind, lost, dw, high, low)
    }

    ghost predicate Valid()
      reads this
    {
      Sound() && LowOk(low)
    }

    /** All that holds even while the first buffer of the low list is begun. */
    ghost predicate Sound()
      reads this
    {
      && WritesOk(Pending(), wire, whole, accepted)
      && ListsOk(kind, dw, high, low, wbSize)
      && CloseOk(kind, closing, reports, broken)
      && SendingOk(kind, tcp, sending, early, pipe, limbo)
      && PipeOk(kind, pipe, limbo)
      && WakeOk(kind, closing, writing, stuck, dw == [] && high == [] && low == [], Waking(pipe, limbo))
      && Scaled(readSize)
    }

    /** A reserved id with the request to open it on its way. */
    constructor Reserved()
      ensures Valid() && kind == Reserve && pipe == [Open] && limbo == [] && early == 0
      ensures accepted == [] && wire == [] && reports == [] && Pending() == []
      ensures !closing && !writing && sending == 0
    {
      hide Held, WritesOk, Scaled, CloseOk, LowOk, ListsOk, SendingOk, PipeOk, WakeOk, Waking, Sends, Unsent, Line;
      kind, tcp, closing, writing := Reserve, false, false, false;
      high, low, dw, wbSize, warnSize, readSize, sending := [], [], [], 0, 0, MIN_READ_BUFFER, 0;
      pipe, limbo := [Open], [];
      wire, whole, accepted, lost, reports, early, broken, stuck := [], [], [], [], [], 0, false, false;
      new;
      NothingYet(Reserve, [Open]);
    }

    /** A connection taken from a listening socket. */
    constructor Accepted()
      ensures Valid() && kind == PAccept && pipe == [] && limbo == [] && early == 0
      ensures accepted == [] && wire == [] && reports == [] && Pending() == []
      ensures !closing && !writing && sending == 0
    {
      hide Held, WritesOk, Scaled, CloseOk, LowOk, ListsOk, SendingOk, PipeOk, WakeOk, Waking, Sends, Unsent, Line;
      kind, tcp, closing, writing := PAccept, true, false, false;
      high, low, dw, wbSize, warnSize, readSize, sending := [], [], [], 0, 0, MIN_READ_BUFFER, 0;
      pipe, limbo := [], [];
      wire, whole, accepted, lost, reports, early, broken, stuck := [], [], [], [], [], 0, false, false;
      new;
      NothingYet(PAccept, []);
    }

    // ----- senders -----

    predicate NoMoreSending()
      reads this
    {
      Idle() || kind.HalfcloseWrite?
    }

    /** Nothing is to be sent, and no send is under way. */
    predicate Idle()
      reads this
    {
      high == [] && low == [] && dw == [] && sending == 0
    }

    predicate CanDirectWrite()
      reads this
    {
      NoMoreSending() && kind.Connected?
    }

    /** The direct write, under the lock: what the kernel does not take stays for the socket
        thread, which is sent a request to watch for writing. */
    method WriteDirectly(data: seq<bv8>, n: int)
      requires Valid() && CanDirectWrite() && n <= |data|
      modifies this`dw, this`limbo, this`wire, this`whole, this`accepted
      ensures Valid()
      ensures accepted == old(accepted) + [Packet(Direct, data)]
      ensures wire == old(wire) + data[..if n < 0 then 0 else n]
      ensures n == |data| ==> Pending() == [] && whole == old(whole) + [Packet(Direct, data)]
    {
      hide WritesOk, Scaled, Line, CloseOk, LowOk, ListsOk, SendingOk, PipeOk, WakeOk, Waking;
      NotClosing(kind, closing, reports, broken);
      var written := if n < 0 then 0 else n;
      var b := WriteBuffer(Packet(Direct, data), written);
      LineParts(b, [], []);
      DirectOk(b.packet, written, wire, whole, accepted);
      DirectLeft(b, wbSize, writing, stuck, tcp, sending, early, pipe, limbo);
      TakeDirect(b);
    }

    method TakeDirect(b: WriteBuffer)
      requires Fits(b)
      modifies this`dw, this`limbo, this`wire, this`whole, this`accepted
      ensures accepted == old(accepted) + [b.packet] && wire == old(wire) + b.packet.data[..b.offset]
      ensures Left(b) == 0 ==> whole == old(whole) + [b.packet] && dw == old(dw) && limbo == old(limbo)
      ensures Left(b) != 0 ==> whole == old(whole) && dw == [b] && limbo == old(limbo) + [Wake]
    {
      accepted, wire := accepted + [b.packet], wire + b.packet.data[..b.offset];
      if Left(b) == 0 {
        whole := whole + [b.packet];
      } else {
        dw, limbo := [b], limbo + [Wake];
      }
    }

    /** The counter of sends is at its limit. */
    predicate Full()
      reads this
    {
      tcp && sending == MAX_SENDING
    }

    /** Counts a send and prepares its request. While the counter is full the sender waits. */
    method BeginSend(data: seq<bv8>, lowPriority: bool)
      requires Valid() && !kind.Invalid?
      modifies this`sending, this`limbo, this`early
      ensures Valid()
      ensures limbo == if old(Full()) then old(limbo) else old(limbo) + [Send(data, lowPriority)]
      ensures sending == if tcp && !old(Full()) then old(sending) + 1 else old(sending)
      ensures early == if tcp then old(early) else old(early) + 1
    {
      hide WritesOk, Scaled, ListsOk, CloseOk, Sends, Line;
      var r := Send(data, lowPriority);
      if tcp {
        if sending == MAX_SENDING {
          return;
        }
        sending := sending + 1;
      } else {
        early := early + 1;
      }
      SendsLast(limbo, r);
      assert Wake in limbo <==> Wake in limbo + [r];
      limbo := limbo + [r];
    }

    /** socket_server_send. */
    method SendHigh(data: seq<bv8>, locked: bool, n: int) returns (ok: bool)
      requires Valid() && n <= |data|
      modifies this`dw, this`limbo, this`wire, this`whole, this`accepted, this`sending, this`early
      ensures Valid() && (ok <==> !kind.Invalid? && !closing)
      ensures !ok ==> accepted == old(accepted) && limbo == old(limbo) && wire == old(wire) && early == old(early)
      ensures ok && locked && old(CanDirectWrite()) ==>
                early == old(early) && accepted == old(accepted) + [Packet(Direct, data)]
      ensures ok && locked && old(CanDirectWrite()) ==> wire == old(wire) + data[..if n < 0 then 0 else n]
      ensures ok && !(locked && old(CanDirectWrite())) ==>
                accepted == old(accepted) && wire == old(wire) && dw == old(dw)
      ensures ok && !(locked && old(CanDirectWrite())) ==>
                limbo == if old(Full()) then old(limbo) else old(limbo) + [Send(data, false)]
      ensures ok && !(locked && old(CanDirectWrite())) ==>
                sending == if tcp && !old(Full()) then old(sending) + 1 else old(sending)
      ensures ok && !(locked && old(CanDirectWrite())) ==> early == if tcp then old(early) else old(early) + 1
    {
      hide *;
      if kind.Invalid? || closing {
        return false;
      }
      if CanDirectWrite() && locked {
        WriteDirectly(data, n);
      } else {
        BeginSend(data, false);
      }
      return true;
    }

    /** socket_server_send_lowpriority. */
    method SendLow(data: seq<bv8>) returns (ok: bool)
      requires Valid()
      modifies this`limbo, this`sending, this`early
      ensures Valid() && (ok <==> !kind.Invalid?) && early >= old(early)
      ensures ok ==> limbo == if old(Full()) then old(limbo) else old(limbo) + [Send(data, true)]
      ensures ok ==> sending == if tcp && !old(Full()) then old(sending) + 1 else old(sending)
      ensures !ok ==> limbo == old(limbo) && sending == old(sending)
    {
      if kind.Invalid? {
        return false;
      }
      BeginSend(data, true);
      return true;
    }

    /** One prepared request is written to the pipe. */
    method Post(i: nat)
      requires Valid() && i < |limbo|
      modifies this`limbo, this`pipe
      ensures Valid() && pipe == old(pipe) + [old(limbo)[i]]
      ensures limbo == old(limbo[..i] + limbo[i + 1..])
    {
      hide WritesOk, Scaled, ListsOk, CloseOk, Sends, Line;
      var r := limbo[i];
      assert limbo == limbo[..i] + [r] + limbo[i + 1..];
      SendsWithout(limbo[..i], r, limbo[i + 1..]);
      SendsLast(pipe, r);
      assert (pipe + [r])[|pipe|] == r;
      assert Waking(pipe, limbo) == (Wake in pipe + [r] || Wake in limbo[..i] + limbo[i + 1..]);
      pipe := pipe + [r];
      limbo := limbo[..i] + limbo[i + 1..];
    }

    /** A request of the owner is written to the pipe. */
    method Ask(r: Request)
      requires Valid() && !r.Open? && !r.Send? && !r.Wake?
      modifies this`pipe
      ensures Valid() && pipe == old(pipe) + [r]
    {
      hide WritesOk, Scaled, ListsOk, CloseOk, Sends, Line;
      SendsLast(pipe, r);
      assert Wake in pipe <==> Wake in pipe + [r];
      pipe := pipe + [r];
    }

    // ----- the socket thread: writing -----

    /** force_close: the fd is closed and what is pending is lost. */
    method CloseFd()
      requires !kind.Reserve? && !kind.Invalid?
      modifies this`kind, this`high, this`low, this`dw, this`lost
      ensures kind == Invalid && high == [] && low == [] && dw == [] && Pending() == old(Pending())
    {
      lost := Line(dw, high, low);
      high, low, dw := [], [], [];
      kind := Invalid;
    }

    /** What the writing of the line may change beside the line. */
    function State(): Mode
      reads this
    {
      Mode(kind, writing, warnSize)
    }

    lemma PendingLists()
      requires dw == [] && !kind.Invalid?
      ensures Pending() == high + low
    {
      LineParts(NO_BUFFER, high, low);
    }

    /** close_write: a failed write shuts the write side or, once the read side is shut, all. */
    method CloseWrite() returns (r: Report)
      requires Valid() && !kind.Reserve? && !kind.Invalid?
      modifies this`kind, this`high, this`low, this`dw, this`lost, this`writing, this`reports
      ensures Valid() && reports == Log(old(reports), r) && Pending() == old(Pending())
      ensures WriteShut(old(State()), closing, State(), r)
    {
      hide WritesOk, Scaled, Sends, Unsent, Line, Waking;
      if closing || kind.HalfcloseRead? {
        CloseFd();
        return Silent;
      }
      if kind.HalfcloseWrite? {
        return Silent;
      }
      kind := HalfcloseWrite;
      writing := false;
      r := Error;
      reports := reports + [Error];
    }

    /** send_list_tcp up to a failure: writes a list as far as the kernel takes it. */
    method Drain(list: seq<WriteBuffer>, ghost rest: seq<WriteBuffer>, answers: seq<Answer>)
      returns (left: seq<WriteBuffer>, more: seq<Answer>, failed: bool, ghost gone: nat)
      requires WritesOk(list + rest, wire, whole, accepted)
      modifies this`wbSize, this`wire, this`whole
      ensures WritesOk(left + rest, wire, whole, accepted)
      ensures wbSize - Unsent(left) == old(wbSize) - Unsent(list)
      ensures AdvancedBy(list, left, old(whole), whole, gone)
      ensures failed ==> left == list[gone..]
      ensures Drained(left, more, failed) == Taken(list, answers)
    {
      hide WritesOk, Scaled, Unsent, Packets, AdvancedBy;
      left, more, failed, gone := list, answers, false, 0;
      NoneGone(list, whole);
      while left != []
        invariant WritesOk(left + rest, wire, whole, accepted)
        invariant wbSize - Unsent(left) == old(wbSize) - Unsent(list)
        invariant gone <= |list| && left == list[gone..] && whole == old(whole) + Packets(list[..gone])
        invariant AdvancedBy(list, left, old(whole), whole, gone)
        invariant Taken(left, more) == Taken(list, answers)
        decreases |more|
      {
        if more == [] || more[0].Again? {
          more := if more == [] then [] else more[1..];
          return;
        }
        var answer := more[0];
        more := more[1..];
        if answer.Interrupted? {
          continue;
        }
        if answer.Failed? {
          failed := true;
          return;
        }
        var b := left[0];
        var n := WriteFirst(left, rest, answer.n);
        var after := b.(offset := b.offset + n);
        UnsentFirst(left, after);
        AdvancedOne(list, old(whole), gone);
        OneGone(list, gone);
        if n != Left(b) {
          left := [after] + left[1..];
          return;
        }
        left := left[1..];
        gone := gone + 1;
      }
    }

    /** One write: the kernel takes some of the first buffer. */
    method WriteFirst(list: seq<WriteBuffer>, ghost rest: seq<WriteBuffer>, most: nat) returns (n: nat)
      requires list != [] && WritesOk(list + rest, wire, whole, accepted)
      modifies this`wbSize, this`wire, this`whole
      ensures n == (if most <= Left(list[0]) then most else Left(list[0])) && wbSize == old(wbSize) - n
      ensures whole == if n < Left(list[0]) then old(whole) else old(whole) + [list[0].packet]
      ensures WritesOk(Rest(list, n) + rest, wire, whole, accepted)
    {
      hide WritesOk;
      var b := list[0];
      FirstFits(list, rest, wire, whole, accepted);
      n := if most <= Left(b) then most else Left(b);
      ghost var tail := list[1..] + rest;
      assert list + rest == [b] + tail;
      SentMore(b, tail, n, wire, whole, accepted);
      wire := wire + b.packet.data[b.offset..b.offset + n];
      wbSize := wbSize - n;
      ghost var after := b.(offset := b.offset + n);
      assert [after] + list[1..] + rest == [after] + tail;
      assert Rest(list, n) + rest == if n < Left(b) then [after] + tail else tail;
      if n == Left(b) {
        SentWhole(after, tail, wire, whole, accepted);
        whole := whole + [b.packet];
      }
    }

    /** raise_uncomplete: a begun low buffer moves to the empty high list. */
    method Raise()
      requires Sound() && dw == [] && high == [] && low != [] && LowOk(low[1..]) && !kind.Reserve? && !kind.Invalid?
      modifies this`high, this`low
      ensures Valid() && high == [old(low)[0]] && low == old(low)[1..] && Pending() == old(Pending())
    {
      hide WritesOk, Scaled, Unsent, Sends, Orderly, Line, Waking, PipeOk, LowOk;
      var b := low[0];
      NothingUnsent([]);
      RaisedUnsent(low);
      LineParts(b, [], low);
      low := low[1..];
      assert high == [];
      high := [b];
    }

    /** send_list on the high list. */
    method SendHighList(answers: seq<Answer>) returns (r: Report, more: seq<Answer>, failed: bool)
      requires Valid() && dw == [] && !kind.Reserve? && !kind.Invalid?
      modifies this`kind, this`high, this`low, this`lost, this`writing, this`reports, this`wbSize, this`wire,
               this`whole, this`dw
      ensures Valid() && reports == Log(old(reports), r)
      ensures Advanced(old(Pending()), Pending(), old(whole), whole)
      ensures !failed ==> r == Silent && dw == [] && low == old(low) && kind == old(kind) && writing == old(writing)
      ensures more == Taken(old(high), answers).more && failed == Taken(old(high), answers).failed
      ensures !failed ==> high == Taken(old(high), answers).left
      ensures Pending() == Taken(old(high), answers).left + old(low)
      ensures failed ==> WriteShut(old(State()), closing, State(), r)
    {
      hide Valid, Pending, Taken, Advanced, Log;
      SilentLog(reports);
      more, failed := DrainHigh(answers);
      PendingLists();
      r := Silent;
      if failed {
        r := CloseWrite();
      }
    }

    method DrainHigh(answers: seq<Answer>) returns (more: seq<Answer>, failed: bool)
      requires Valid() && dw == [] && !kind.Reserve? && !kind.Invalid?
      modifies this`high, this`wbSize, this`wire, this`whole
      ensures Valid() && Advanced(old(Pending()), Pending(), old(whole), whole)
      ensures Drained(high, more, failed) == Taken(old(high), answers)
    {
      hide WritesOk, Scaled, CloseOk, Line, LowOk, ListsOk, SendingOk, PipeOk, WakeOk, Waking, Advanced, AdvancedBy, Taken;
      ghost var (gone, before) := (0, whole);
      LineParts(NO_BUFFER, high, low);
      var left;
      left, more, failed, gone := Drain(high, low, answers);
      LineParts(NO_BUFFER, left, low);
      AdvancedFront(high, left, low, before, whole, gone);
      StillLined(high, left, gone, before, whole);
      Shrunk(kind, high, left, low, old(wbSize), wbSize);
      WakesStill(kind, closing, writing, stuck, high == [] && low == [], left == [] && low == [], Waking(pipe, limbo));
      high := left;
    }

    method DrainLow(answers: seq<Answer>) returns (failed: bool)
      requires Valid() && dw == [] && high == [] && !kind.Reserve? && !kind.Invalid?
      modifies this`low, this`wbSize, this`wire, this`whole
      ensures Sound() && (low != [] ==> LowOk(low[1..]))
      ensures failed == Taken(old(low), answers).failed && low == Taken(old(low), answers).left
      ensures failed || low == [] || low[0].offset == 0 ==> Valid()
      ensures Advanced(old(Pending()), Pending(), old(whole), whole)
    {
      hide WritesOk, Scaled, Unsent, Sends, Orderly, Line, Waking, PipeOk, LowOk, Advanced, AdvancedBy, Taken;
      ghost var (gone, list, before) := (0, low, whole);
      var more;
      LineParts(NO_BUFFER, high, low);
      low, more, failed, gone := Drain(low, [], answers);
      LineParts(NO_BUFFER, high, low);
      LowRest(list, low, gone, before, whole);
      NothingUnsent([]);
    }

    /** send_list on the low list; a buffer that is begun moves to the high list. */
    method SendLowList(answers: seq<Answer>) returns (r: Report, failed: bool)
      requires Valid() && dw == [] && high == [] && !kind.Reserve? && !kind.Invalid?
      modifies this`kind, this`high, this`low, this`lost, this`writing, this`reports, this`wbSize, this`wire,
               this`whole, this`dw
      ensures Valid() && reports == Log(old(reports), r)
      ensures Advanced(old(Pending()), Pending(), old(whole), whole)
      ensures !failed ==> r == Silent && dw == [] && kind == old(kind) && writing == old(writing)
      ensures failed == Taken(old(low), answers).failed && Pending() == Taken(old(low), answers).left
      ensures failed ==> WriteShut(old(State()), closing, State(), r)
    {
      hide Valid, Sound, LowOk, Pending, Taken, Advanced, Log;
      SilentLog(reports);
      failed := DrainLow(answers);
      PendingLists();
      NothingBefore(low);
      r := Silent;
      if failed {
        r := CloseWrite();
      } else if low != [] && low[0].offset != 0 {
        Raise();
      }
    }

    /** Everything is sent: the socket is closed if it was closing, and otherwise not watched for
        writing any more. */
    method Finish(pollFails: bool) returns (r: Report)
      requires Valid() && dw == [] && high == [] && low == [] && !kind.Reserve? && !kind.Invalid?
      modifies this`kind, this`high, this`low, this`dw, this`lost, this`writing, this`warnSize, this`reports
      ensures Valid() && reports == Log(old(reports), r)
      ensures kind.Invalid? ==> lost == []
      ensures Pending() == old(Pending()) && AllSent(old(State()), closing, State(), pollFails, r)
    {
      hide WritesOk, Scaled, Sends, Line, Waking, LowOk, Unsent;
      assert high == [] && low == [] && wbSize == 0 by { NothingUnsent([]); }
      LineParts(NO_BUFFER, [], []);
      if closing {
        CloseFd();
        return Silent;
      }
      r := Silent;
      var changed := writing;
      writing := false;
      if changed && pollFails {
        r := Error;
      } else if warnSize > 0 {
        warnSize := 0;
        r := Warning(0);
      }
      reports := Log(reports, r);
    }

    /** The part of send_buffer_ that comes when the high list is sent. */
    method SendRest(answers: seq<Answer>, pollFails: bool) returns (r: Report, failed: bool)
      requires Valid() && dw == [] && high == [] && !kind.Reserve? && !kind.Invalid?
      modifies this`kind, this`high, this`low, this`lost, this`writing, this`reports, this`wbSize, this`wire,
               this`whole, this`dw, this`warnSize
      ensures Valid() && reports == Log(old(reports), r)
      ensures Advanced(old(Pending()), Pending(), old(whole), whole)
      ensures kind == old(kind) || failed || (old(closing) && kind.Invalid? && lost == [])
      ensures failed == Taken(old(low), answers).failed && Pending() == Taken(old(low), answers).left
      ensures AfterWriting(old(State()), closing, State(), Pending() == [], pollFails, r, failed)
    {
      hide Valid, Advanced, Pending, Log;
      SilentLog(reports);
      PendingLists();
      NothingBefore(low);
      r, failed := Silent, false;
      if low != [] {
        r, failed := SendLowList(answers);
      } else {
        NotAdvanced(Pending(), whole);
      }
      if !failed && high == [] && low == [] {
        PendingLists();
        r := Finish(pollFails);
      } else if !failed {
        PendingLists();
      }
    }

    /** send_buffer_: the high list, then the low one. Without a failure the fd is closed only
        when all that was accepted is sent. */
    method SendLists(answers: seq<Answer>, pollFails: bool) returns (r: Report, failed: bool)
      requires Valid() && dw == [] && !kind.Reserve? && !kind.Invalid?
      modifies this`kind, this`high, this`low, this`lost, this`writing, this`reports, this`wbSize, this`wire,
               this`whole, this`dw, this`warnSize
      ensures Valid() && reports == Log(old(reports), r)
      ensures Advanced(old(Pending()), Pending(), old(whole), whole)
      ensures kind == old(kind) || failed || (old(closing) && kind.Invalid? && lost == [])
      ensures var t := Taken(old(high + low), answers); failed == t.failed && Pending() == t.left
      ensures AfterWriting(old(State()), closing, State(), Pending() == [], pollFails, r, failed)
    {
      hide Valid, Advanced, Pending, Log, Taken, WriteShut, AllSent;
      SilentLog(reports);
      TakenConcat(high, low, answers);
      var more;
      r, more, failed := SendHighList(answers);
      if !failed && high == [] {
        assert reports == old(reports);
        label between:
        r, failed := SendRest(more, pollFails);
        AdvancedTwice(old(Pending()), old@between(Pending()), Pending(), old(whole), old@between(whole), whole);
      }
    }

    /** The rest of a direct write becomes the first high buffer and is counted. */
    method MoveDirect()
      requires Valid() && !kind.Reserve? && !kind.Invalid?
      modifies this`high, this`dw, this`wbSize
      ensures Valid() && dw == [] && Pending() == old(Pending())
      ensures high == old(dw + high)
    {
      hide WritesOk, Scaled, Unsent, Line, Sends, Waking, PipeOk, Orderly, LowOk;
      if dw != [] {
        MovedUnsent(dw[0], high);
        LineParts(dw[0], high, low);
        assert dw == [dw[0]];
        wbSize := wbSize + Left(dw[0]);
        high := [dw[0]] + high;
        dw := [];
      }
    }

    /** send_buffer: what is left of a direct write goes before everything else. */
    method SendBuffer(locked: bool, answers: seq<Answer>, pollFails: bool) returns (r: Report, failed: bool)
      requires Valid() && !kind.Reserve? && !kind.Invalid?
      modifies this`kind, this`high, this`low, this`lost, this`writing, this`reports, this`wbSize, this`wire,
               this`whole, this`dw, this`warnSize
      ensures Valid() && reports == Log(old(reports), r)
      ensures Advanced(old(Pending()), Pending(), old(whole), whole)
      ensures kind == old(kind) || failed || (old(closing) && kind.Invalid? && lost == [])
      ensures locked ==> Written(answers, pollFails, r, failed)
      ensures !locked ==> NothingWrote(r, failed)
    {
      hide Valid, Advanced, Pending, Log, Taken, AfterWriting, Put;
      if !locked {
        NotAdvanced(Pending(), whole);
        SilentLog(reports);
        return Silent, false;
      }
      Integrity();
      MoveDirect();
      PendingLists();
      label between:
      r, failed := SendLists(answers, pollFails);
      Integrity();
      WireGrows(old(Pending()), answers, old(wire), wire, old(whole), whole, accepted);
    }

    /** The line is written as the answers say: their bytes are on the wire, in order, and when
        nothing is left all packets are sent whole. */
    twostate predicate Written(answers: seq<Answer>, pollFails: bool, r: Report, failed: bool)
      reads this
    {
      && Pending() == Taken(old(Pending()), answers).left && failed == Taken(old(Pending()), answers).failed
      && Put(old(Pending()), answers, old(wire), wire)
      && (Pending() == [] ==> whole == old(whole) + Packets(old(Pending())))
      && AfterWriting(old(State()), closing, State(), Pending() == [], pollFails, r, failed)
    }

    twostate predicate NothingWrote(r: Report, failed: bool)
      reads this
    {
      && r == Silent && !failed && State() == old(State())
      && wire == old(wire) && whole == old(whole) && Pending() == old(Pending())
    }

    lemma Integrity()
      requires Valid()
      ensures WritesOk(Pending(), wire, whole, accepted)
    {
      hide WritesOk, Held, ListsOk, CloseOk, SendingOk, PipeOk, WakeOk, LowOk, Scaled, Waking;
    }

    // ----- the socket thread: requests -----

    /** append_sendbuffer and append_sendbuffer_low. */
    method Append(o: Origin, data: seq<bv8>)
      requires Valid() && !kind.Reserve? && !kind.Invalid? && o != Direct && (writing || Waking(pipe, limbo))
      modifies this`high, this`low, this`wbSize, this`accepted
      ensures Valid() && accepted == old(accepted) + [Packet(o, data)]
      ensures wbSize == old(wbSize) + |data|
      ensures high == if o.High? then old(high) + [WriteBuffer(Packet(o, data), 0)] else old(high)
      ensures low == if o.Low? then old(low) + [WriteBuffer(Packet(o, data), 0)] else old(low)
    {
      hide WritesOk, Scaled, Line, Sends, Unsent, Orderly, Waking;
      var b := WriteBuffer(Packet(o, data), 0);
      LineJoined(dw, high, low, b);
      UnsentLast(high, b);
      UnsentLast(low, b);
      if o.High? {
        Joined(dw + high, low, b.packet, wire, whole, accepted);
        high := high + [b];
      } else {
        Joined(dw + high + low, [], b.packet, wire, whole, accepted);
        low := low + [b];
      }
      accepted := accepted + [b.packet];
      wbSize := wbSize + |data|;
    }

    predicate Refuses()
      reads this
    {
      kind.Invalid? || kind.HalfcloseWrite? || kind.PAccept? || closing
    }

    /** send_socket: a packet goes to the end of its list, to the high one when both are empty. */
    method SendSocket(data: seq<bv8>, lowPriority: bool, pollFails: bool) returns (r: Report)
      requires Valid() && !kind.Reserve?
      modifies this`high, this`low, this`wbSize, this`accepted, this`writing, this`warnSize, this`reports
      ensures Valid() && reports == Log(old(reports), r)
      ensures Queued(data, lowPriority, pollFails, r)
    {
      hide Valid, Log, Refuses;
      SilentLog(reports);
      if Refuses() {
        return Silent;
      }
      NotRefused();
      if high == [] && low == [] {
        var changed := Watch();
        Append(High, data);
        if changed && pollFails {
          r := Report(Error);
          return;
        }
      } else {
        Append(if lowPriority then Low else High, data);
      }
      r := WarnOfSize();
    }

    /** The packet is refused, or it joins its list and the socket is watched for writing. */
    twostate predicate Queued(data: seq<bv8>, lowPriority: bool, pollFails: bool, r: Report)
      reads this
    {
      if old(Refuses()) then
        && r == Silent && accepted == old(accepted) && high == old(high) && low == old(low)
        && wbSize == old(wbSize) && writing == old(writing) && warnSize == old(warnSize)
      else
        var first := old(high == [] && low == []);
        var o := if lowPriority && !first then Low else High;
        var b := WriteBuffer(Packet(o, data), 0);
        var fails := first && !old(writing) && pollFails;
        var warns := !fails && wbSize >= WARNING_SIZE && wbSize >= old(warnSize);
        && accepted == old(accepted) + [b.packet] && wbSize == old(wbSize) + |data|
        && high == (if o.High? then old(high) + [b] else old(high))
        && low == (if o.Low? then old(low) + [b] else old(low))
        && writing == (first || old(writing))
        && r == (if fails then Error else if warns then Warning((wbSize + 1023) / 1024) else Silent)
        && warnSize == if !warns then old(warnSize)
                       else if old(warnSize) == 0 then WARNING_SIZE * 2 else old(warnSize) * 2
    }

    lemma NotRefused()
      requires Valid() && !Refuses()
      ensures !kind.Invalid? && !closing
      ensures high != [] || low != [] ==> writing || Waking(pipe, limbo)
    {
    }

    /** The fd is watched for writing. */
    method Watch() returns (changed: bool)
      requires Valid() && !closing
      modifies this`writing
      ensures Valid() && writing && changed == !old(writing)
    {
      hide WritesOk, Scaled, Line, LowOk, ListsOk, CloseOk, SendingOk, PipeOk, Waking;
      changed := !writing;
      writing := true;
    }

    /** A line that is too long is reported, and again when it has doubled. */
    method WarnOfSize() returns (r: Report)
      requires Valid()
      modifies this`warnSize, this`reports
      ensures Valid() && reports == Log(old(reports), r)
      ensures r == if wbSize >= WARNING_SIZE && wbSize >= old(warnSize) then Warning((wbSize + 1023) / 1024) else Silent
      ensures warnSize == if !r.Warning? then old(warnSize)
                          else if old(warnSize) == 0 then WARNING_SIZE * 2 else old(warnSize) * 2
    {
      hide Valid, Log;
      SilentLog(reports);
      r := Silent;
      if wbSize >= WARNING_SIZE && wbSize >= warnSize {
        r := Report(Warning(if wbSize % 1024 == 0 then wbSize / 1024 else wbSize / 1024 + 1));
        Double();
      }
    }

    /** The next warning comes at twice the size. */
    method Double()
      requires Valid()
      modifies this`warnSize
      ensures Valid()
      ensures warnSize == if old(warnSize) == 0 then WARNING_SIZE * 2 else old(warnSize) * 2
    {
      hide WritesOk, Scaled, Held, LowOk, ListsOk, CloseOk, SendingOk, PipeOk, WakeOk, Waking;
      warnSize := if warnSize == 0 then WARNING_SIZE * 2 else warnSize * 2;
    }

    /** dec_sending_ref, when a send is done with. Its assertion holds exactly when more sends are
        under way than began while the id was reserved. */
    method EndSend() returns (ok: bool)
      requires Valid() && !kind.Reserve? && pipe != [] && pipe[0].Send?
      modifies this`sending, this`pipe
      ensures ok <==> !tcp || Sends(old(pipe)) + Sends(limbo) > early
      ensures ok ==> Valid() && pipe == old(pipe)[1..]
    {
      hide WritesOk, Scaled, Line, Unsent, Orderly, LowOk;
      PipeRest(pipe, limbo);
      ok := true;
      if tcp {
        if sending == 0 {
          return false;
        }
        sending := sending - 1;
      }
      hide Sends, Waking;
      pipe := pipe[1..];
    }

    /** Another request is done with. */
    method EndRequest()
      requires Valid() && !kind.Reserve? && pipe != [] && !pipe[0].Send?
      requires pipe[0].Wake? ==> writing || kind.Invalid?
      modifies this`pipe
      ensures Valid() && pipe == old(pipe)[1..] && Pending() == old(Pending())
    {
      hide WritesOk, Scaled, Line, Unsent, Orderly, LowOk;
      PipeRest(pipe, limbo);
      hide Sends, Waking;
      pipe := pipe[1..];
    }

    /** trigger_write. */
    method Trigger(pollFails: bool) returns (r: Report)
      requires Valid()
      modifies this`writing, this`stuck, this`reports
      ensures Valid() && reports == Log(old(reports), r)
      ensures r == if !kind.Invalid? && !old(writing) && pollFails then Error else Silent
      ensures (writing || kind.Invalid?) && Pending() == old(Pending())
    {
      hide WritesOk, Scaled, Line, Sends, Unsent, LowOk, Waking;
      r := Silent;
      if !kind.Invalid? {
        var changed := !writing;
        stuck := false;
        writing := true;
        if changed && pollFails {
          r := Error;
        }
        reports := Log(reports, r);
      }
    }

    /** close_socket when something is still to be sent: only the read side is closed. */
    method CloseLater() returns (r: Report)
      requires Valid() && !kind.Reserve? && !kind.Invalid? && !NoMoreSending()
      modifies this`kind, this`closing, this`stuck, this`reports
      ensures Valid() && reports == Log(old(reports), r) && Pending() == old(Pending())
      ensures r == if old(kind.HalfcloseRead?) then Silent else Closed
      ensures kind == HalfcloseRead && closing && (stuck <==> !writing && !Waking(pipe, limbo))
      ensures stuck ==> dw == [] && high == [] && low == [] && sending > 0
    {
      hide WritesOk, Scaled, Line, CloseOk, Waking, Log, LowOk, ListsOk, SendingOk, PipeOk, WakeOk;
      r := if kind.HalfcloseRead? then Silent else Closed;
      var waiting := dw == [] && high == [] && low == [];
      HalfCloses(kind, closing, reports, broken);
      StillOpen(kind, dw, high, low, wbSize, tcp, sending, early, pipe, limbo);
      StillWatched(kind, closing, writing, stuck, waiting, Waking(pipe, limbo));
      MarkClosing(r);
    }

    method MarkClosing(r: Report)
      modifies this`kind, this`closing, this`stuck, this`reports
      ensures kind == HalfcloseRead && closing && reports == Log(old(reports), r)
      ensures stuck == (!writing && !Waking(pipe, limbo))
    {
      kind, closing, stuck, reports := HalfcloseRead, true, !writing && !Waking(pipe, limbo), Log(reports, r);
    }

    /** Closes the fd, with SOCKET_CLOSE unless that was reported. */
    method CloseNow() returns (r: Report)
      requires Valid() && !kind.Reserve? && !kind.Invalid?
      modifies this`kind, this`high, this`low, this`dw, this`lost, this`reports
      ensures Valid() && reports == Log(old(reports), r) && Pending() == old(Pending())
      ensures r == if old(kind.HalfcloseRead?) then Silent else Closed
      ensures kind.Invalid?
    {
      hide WritesOk, Scaled, Line, Sends, Unsent, CloseOk, Waking, Log;
      SilentLog(reports);
      r := Silent;
      if kind.HalfcloseRead? {
        HalfClosedOk(closing, reports, broken);
      } else {
        r := Closed;
        ReportedOk(kind, closing, reports, broken);
        reports := Log(reports, r);
      }
      CloseFd();
    }

    /** close_socket: closes at once when nothing is to be sent; otherwise what was accepted is
        sent first. It is stuck if only a counted send keeps it open. */
    method CloseSocket(shutdown: bool) returns (r: Report)
      requires Valid() && !kind.Reserve?
      modifies this`kind, this`high, this`low, this`dw, this`lost, this`closing, this`stuck, this`reports
      ensures Valid() && reports == Log(old(reports), r) && Pending() == old(Pending())
      ensures r == if old(kind.Invalid? || kind.HalfcloseRead?) then Silent else Closed
      ensures kind == if old(kind.Invalid? || shutdown || NoMoreSending()) then Invalid else HalfcloseRead
      ensures !kind.Invalid? ==> closing && (stuck <==> !writing && !Waking(pipe, limbo))
      ensures !kind.Invalid? && stuck ==> dw == [] && high == [] && low == [] && sending > 0
    {
      hide *;
      if kind.Invalid? {
        SilentLog(reports);
        r := Silent;
      } else if shutdown || NoMoreSending() {
        r := CloseNow();
      } else {
        r := CloseLater();
      }
    }

    /** resume_socket: starts an accepted connection; one that is closed cannot be started. */
    method ResumeSocket(readFails: bool) returns (r: Report)
      requires Valid() && !kind.Reserve?
      modifies this`kind, this`reports
      ensures Valid() && reports == Log(old(reports), r)
      ensures kind == if old(kind.PAccept?) && !readFails then Connected else old(kind)
      ensures r == if old(kind.Invalid? || kind.HalfcloseRead?) || readFails then Error
                   else if kind.Connected? then Opened else Silent
      ensures Pending() == old(Pending())
    {
      hide WritesOk, Scaled, Line, Sends, Unsent, LowOk, CloseOk, Waking, Log;
      if kind.Invalid? || kind.HalfcloseRead? || readFails {
        r := Error;
      } else if kind.PAccept? {
        NotClosedOk(kind, Connected, closing, reports, broken);
        kind := Connected;
        r := Opened;
      } else if kind.Connected? {
        r := Opened;
      } else {
        r := Silent;
      }
      LogOk(kind, closing, reports, broken, r);
      reports := Log(reports, r);
    }

    /** pause_socket. */
    method PauseSocket(readFails: bool) returns (r: Report)
      requires Valid()
      modifies this`reports
      ensures Valid() && reports == Log(old(reports), r) && Pending() == old(Pending())
      ensures r == if !kind.Invalid? && readFails then Error else Silent
    {
      hide *;
      r := Report(if !kind.Invalid? && readFails then Error else Silent);
    }

    /** open_socket and bind_socket, with the request taken from the pipe. */
    method OpenSocket(opening: Opening) returns (r: Report)
      requires Valid() && kind.Reserve?
      modifies this`kind, this`tcp, this`writing, this`wbSize, this`warnSize, this`sending, this`lost, this`broken,
               this`reports, this`pipe
      ensures Valid() && reports == Log(old(reports), r)
      ensures kind == KindAfter(opening) && r == ReportAfter(opening)
      ensures pipe == old(pipe)[1..]
      ensures !opening.Refused? ==> tcp
    {
      if opening.Refused? || opening.Unwatched? {
        r := FailOpening(opening.Unwatched?);
      } else {
        r := if opening.InProgress? then Silent else Opened;
        Opens(if opening.InProgress? then Connecting else if opening.Immediate? then Connected else Bound, r);
      }
    }

    /** What new_fd resets; the lists of a reserved slot are empty. */
    method NewFd(watched: bool)
      modifies this`tcp, this`writing, this`wbSize, this`warnSize, this`sending
      ensures tcp && sending == 0 && wbSize == 0 && warnSize == 0 && writing == watched
    {
      tcp, sending, wbSize, warnSize, writing := true, 0, 0, 0, watched;
    }

    method TakeSlot(to: Kind, r: Report)
      requires pipe != []
      modifies this`kind, this`tcp, this`writing, this`wbSize, this`warnSize, this`sending, this`reports, this`pipe
      ensures kind == to && tcp && sending == 0 && wbSize == 0 && warnSize == 0 && writing == to.Connecting?
      ensures pipe == old(pipe)[1..] && reports == Log(old(reports), r)
    {
      NewFd(to.Connecting?);
      kind, pipe, reports := to, pipe[1..], Log(reports, r);
    }

    method FreeSlot(added: bool)
      requires pipe != []
      modifies this`kind, this`tcp, this`writing, this`wbSize, this`warnSize, this`sending, this`lost, this`broken,
               this`reports, this`pipe
      ensures kind == Invalid && broken && lost == Line(dw, high, low)
      ensures tcp == (added || old(tcp)) && sending == (if added then 0 else old(sending))
      ensures wbSize == if added then 0 else old(wbSize)
      ensures pipe == old(pipe)[1..] && reports == Log(old(reports), Error)
    {
      if added {
        NewFd(false);
      }
      kind, broken, lost := Invalid, true, Line(dw, high, low);
      pipe, reports := pipe[1..], Log(reports, Error);
    }

    /** The slot is free again; after new_fd the counter and the protocol are set. */
    method FailOpening(added: bool) returns (r: Report)
      requires Valid() && kind.Reserve?
      modifies this`kind, this`tcp, this`writing, this`wbSize, this`warnSize, this`sending, this`lost, this`broken,
               this`reports, this`pipe
      ensures Valid() && r.Error? && reports == Log(old(reports), r) && kind == Invalid && pipe == old(pipe)[1..]
      ensures added ==> tcp
    {
      hide WritesOk, Scaled, Line, Held, LowOk, ListsOk, CloseOk, WakeOk, PipeOk, SendingOk, Waking, Log, Sends, Unsent;
      LeavesReserve(Invalid, lost, dw, high, low, wbSize, closing, reports, broken, Error);
      OpenTaken(pipe, limbo, Invalid, tcp, sending, early);
      FreeSlot(added);
      r := Error;
      IdleWell(kind, writing, stuck, Waking(pipe, limbo));
    }

    /** new_fd for a connection; one under way is watched for writing. */
    method Opens(to: Kind, r: Report)
      requires Valid() && kind.Reserve? && (to.Connecting? || to.Connected? || to.Bound?) && (r.Silent? || r.Opened?)
      modifies this`kind, this`tcp, this`writing, this`wbSize, this`warnSize, this`sending, this`reports, this`pipe
      ensures Valid() && reports == Log(old(reports), r) && kind == to && pipe == old(pipe)[1..] && tcp
    {
      hide WritesOk, Scaled, Line, Held, LowOk, ListsOk, CloseOk, WakeOk, PipeOk, SendingOk, Waking, Log, Sends, Unsent;
      LeavesReserve(to, lost, dw, high, low, wbSize, closing, reports, broken, r);
      OpenTaken(pipe, limbo, to, tcp, sending, early);
      TakeSlot(to, r);
      IdleWell(kind, writing, stuck, Waking(pipe, limbo));
    }

    /** The requests but those to open and to send. */
    method Serve(pollFails: bool) returns (r: Report)
      requires Valid() && pipe != [] && !kind.Reserve? && !pipe[0].Open? && !pipe[0].Send?
      modifies this`kind, this`high, this`low, this`dw, this`lost, this`closing, this`stuck, this`reports,
               this`writing, this`pipe
      ensures Valid() && pipe == old(pipe)[1..] && reports == Log(old(reports), r)
      ensures Pending() == old(Pending()) && Obeyed(old(pipe)[0], pollFails, r)
      ensures old(kind.Invalid?) ==> kind.Invalid?
    {
      hide Valid, Log, Pending, NoMoreSending, Waking;
      if pipe[0].Wake? {
        r := Trigger(pollFails);
      } else if pipe[0].Close? {
        r := CloseSocket(pipe[0].shutdown);
      } else if pipe[0].Resume? {
        r := ResumeSocket(pollFails);
      } else {
        r := PauseSocket(pipe[0].Pause? && pollFails);
      }
      EndRequest();
    }

    /** What a request of the owner, or one to watch for writing, does: the socket is watched, closed
        at once or later, started, paused or left as it is. */
    twostate predicate Obeyed(request: Request, pollFails: bool, r: Report)
      reads this
    {
      match request
      case Wake =>
        && kind == old(kind) && (writing || kind.Invalid?)
        && r == if !kind.Invalid? && !old(writing) && pollFails then Error else Silent
      case Close(shutdown) =>
        && kind == (if old(kind.Invalid? || shutdown || NoMoreSending()) then Invalid else HalfcloseRead)
        && (!kind.Invalid? ==> closing && (stuck <==> !writing && !Waking(old(pipe), limbo)))
        && r == if old(kind.Invalid? || kind.HalfcloseRead?) then Silent else Closed
      case Resume =>
        && kind == (if old(kind.PAccept?) && !pollFails then Connected else old(kind))
        && r == if old(kind.Invalid? || kind.HalfcloseRead?) || pollFails then Error
                else if kind.Connected? then Opened else Silent
      case Pause => kind == old(kind) && r == if !kind.Invalid? && pollFails then Error else Silent
      case _ => kind == old(kind) && r == Silent
    }

    /** The requests to send. */
    method ServeSend(pollFails: bool) returns (r: Report, ok: bool)
      requires Valid() && pipe != [] && !kind.Reserve? && pipe[0].Send?
      modifies this`high, this`low, this`wbSize, this`accepted, this`writing, this`warnSize, this`reports,
               this`sending, this`pipe
      ensures ok <==> !tcp || old(Sends(pipe)) + Sends(limbo) > early
      ensures ok ==> Valid() && pipe == old(pipe)[1..] && reports == Log(old(reports), r)
      ensures Queued(old(pipe)[0].data, old(pipe)[0].low, pollFails, r)
    {
      hide Valid, Log, Sends, Refuses;
      r := SendSocket(pipe[0].data, pipe[0].low, pollFails);
      ok := EndSend();
    }

    /** ctrl_cmd: one request from the pipe; an option that is set changes nothing modelled. It
        fails only at the assertion of EndSend. */
    method Command(opening: Opening, pollFails: bool) returns (r: Report, ok: bool)
      requires Valid() && pipe != []
      modifies this
      ensures ok <==> !(old(pipe)[0].Send? && old(tcp) && old(Sends(pipe) + Sends(limbo)) <= early)
      ensures ok ==> Valid() && pipe == old(pipe)[1..] && reports == Log(old(reports), r)
      ensures limbo == old(limbo) && early == old(early) && (old(kind.Invalid?) ==> kind.Invalid?)
      ensures match old(pipe)[0]
              case Open => kind == KindAfter(opening) && r == ReportAfter(opening) && (!opening.Refused? ==> tcp)
              case Send(data, lowPriority) => kind == old(kind) && Queued(data, lowPriority, pollFails, r)
              case _ => Obeyed(old(pipe)[0], pollFails, r)
    {
      hide Valid, Log, Queued, Obeyed, Sends;
      OpenFirst();
      ok := true;
      if pipe[0].Open? {
        r := OpenSocket(opening);
      } else if pipe[0].Send? {
        r, ok := ServeSend(pollFails);
      } else {
        r := Serve(pollFails);
      }
    }

    lemma OpenFirst()
      requires Valid() && pipe != []
      ensures pipe[0].Open? <==> kind.Reserve?
    {
    }

    // ----- the socket thread: events -----

    /** The other side has sent all: what is left to be sent still is, unless nothing can be. */
    method ReadEnd() returns (r: Report)
      requires Valid() && !kind.Reserve? && !kind.Invalid? && !kind.Connecting?
      modifies this`kind, this`high, this`low, this`dw, this`lost, this`reports
      ensures Valid() && reports == Log(old(reports), r) && Pending() == old(Pending())
      ensures AfterReading(old(State()), closing, old(NoMoreSending()), EndOfFile, State(), r)
      ensures old(closing) && kind.Invalid? ==> lost == []
    {
      hide WritesOk, Scaled, Line, Sends, Unsent, CloseOk, Waking, Log, LowOk;
      SilentLog(reports);
      LineParts(NO_BUFFER, [], []);
      if kind.HalfcloseRead? {
        r := Silent;
        if closing && NoMoreSending() {
          HalfClosedOk(closing, reports, broken);
          r := CloseNow();
        }
        return;
      }
      assert !closing by { assert CloseOk(kind, closing, reports, broken); NotClosing(kind, closing, reports, broken); }
      if kind.HalfcloseWrite? {
        r := CloseNow();
        return;
      }
      ReportedOk(kind, closing, reports, broken);
      kind := HalfcloseRead;
      r := Closed;
      reports := Log(reports, r);
    }

    /** forward_message_tcp: what was read is passed on unless the read side is closed. */
    method ForwardMessage(input: Input) returns (r: Report)
      requires Valid() && !kind.Reserve? && !kind.Invalid? && !kind.Connecting?
      requires input.Got? ==> 0 < |input.bytes| <= readSize
      modifies this`kind, this`high, this`low, this`dw, this`lost, this`reports, this`readSize
      ensures Valid() && reports == Log(old(reports), r) && Pending() == old(Pending())
      ensures AfterReading(old(State()), closing, old(NoMoreSending()), input, State(), r)
      ensures readSize == if r.Data? then Resized(old(readSize), |r.bytes|) else old(readSize)
      ensures old(closing) && kind.Invalid? ==> lost == []
    {
      hide Sound, WritesOk, Line, Sends, Unsent, CloseOk, Waking, LowOk, Log;
      SilentLog(reports);
      match input {
        case ReadError => r := Report(Error);
        case NoInput => r := Silent;
        case EndOfFile => r := ReadEnd();
        case Got(bytes) =>
          if kind.HalfcloseRead? {
            r := Silent;
          } else {
            r := Report(Data(bytes));
            Resize(|bytes|);
          }
      }
    }

    method Report(x: Report) returns (r: Report)
      requires Valid() && !x.Closed? && (x.Data? ==> !kind.HalfcloseRead? && !kind.Invalid?)
      modifies this`reports
      ensures Valid() && r == x && reports == Log(old(reports), x) && Pending() == old(Pending())
    {
      hide WritesOk, Scaled, Line, Sends, Unsent, CloseOk, Waking, LowOk, Log;
      LogOk(kind, closing, reports, broken, x);
      r := x;
      reports := Log(reports, x);
    }

    /** A full buffer is doubled for the next read, one less than half full is halved. */
    method Resize(n: nat)
      requires Valid() && n <= readSize
      modifies this`readSize
      ensures Valid()
      ensures readSize == Resized(old(readSize), n)
    {
      hide WritesOk, Line, Sends, Unsent, CloseOk, Waking, LowOk, Scaled;
      Rescaled(readSize);
      if n == readSize {
        readSize := 2 * readSize;
      } else if readSize > MIN_READ_BUFFER && 2 * n < readSize {
        readSize := readSize / 2;
      }
    }

    /** report_connect. */
    method ReportConnect(connected: bool, pollFails: bool) returns (r: Report)
      requires Valid() && kind.Connecting?
      modifies this`kind, this`high, this`low, this`dw, this`lost, this`writing, this`broken, this`reports
      ensures Valid() && reports == Log(old(reports), r) && Pending() == old(Pending())
      ensures r == if connected && !(pollFails && old(writing && Idle())) then Opened else Error
      ensures kind == (if r.Opened? then Connected else Invalid) && (r.Opened? ==> writing == old(writing && !Idle()))
    {
      hide Valid, Log, Pending;
      var changed := false;
      if connected {
        changed := Connect();
      }
      if connected && !(changed && pollFails) {
        r := Report(Opened);
      } else {
        r := GiveUp();
      }
    }

    /** The connection is made; it is watched for writing only as long as something is to be sent. */
    method Connect() returns (changed: bool)
      requires Valid() && kind.Connecting?
      modifies this`kind, this`writing
      ensures Valid() && kind == Connected && Pending() == old(Pending())
      ensures changed == old(writing && Idle()) && writing == old(writing && !Idle())
    {
      hide WritesOk, Scaled, Line, Sends, Unsent, CloseOk, Waking, LowOk;
      NotClosing(kind, closing, reports, broken);
      NotClosedOk(kind, Connected, closing, reports, broken);
      kind, changed := Connected, false;
      if NoMoreSending() {
        changed := writing;
        writing := false;
      }
    }

    /** Opening failed and the fd is closed. */
    method GiveUp() returns (r: Report)
      requires Valid() && (kind.Connecting? || kind.Connected?)
      modifies this`kind, this`high, this`low, this`dw, this`lost, this`broken, this`reports
      ensures Valid() && r == Error && reports == Log(old(reports), r) && Pending() == old(Pending())
      ensures kind == Invalid
    {
      hide WritesOk, Scaled, Line, Sends, Unsent, CloseOk, Waking, Log;
      NotClosedOk(kind, Connected, closing, reports, broken);
      LogOk(Invalid, closing, reports, true, Error);
      CloseFd();
      r := Error;
      broken, reports := true, Log(reports, r);
    }

    /** What socket_server_poll does with an event for the socket: a connection under way is
        reported, an open socket answers the event. It is closed with something unsent only by a
        failure, a connection that was never made or the end of the fd. */
    method Poll(event: Event, connected: bool, pollFails: bool) returns (r: Report, failed: bool)
      requires Valid()
      modifies this
      ensures Valid() && reports == Log(old(reports), r)
      ensures accepted == old(accepted) && pipe == old(pipe) && limbo == old(limbo) && early == old(early)
      ensures Advanced(old(Pending()), Pending(), old(whole), whole)
      ensures !failed && old(closing) && !event.Hangup? && kind.Invalid? && !old(kind.Invalid?) ==> lost == []
      ensures old(kind.Reserve? || kind.Invalid?) ==> NothingWrote(r, failed) && kind == old(kind)
      ensures old(kind.Connecting?) ==>
                && r == (if connected && !(pollFails && old(writing && Idle())) then Opened else Error)
                && kind == (if r.Opened? then Connected else Invalid) && wire == old(wire) && Pending() == old(Pending())
      ensures !old(kind.Reserve? || kind.Invalid? || kind.Connecting?) ==> Answered(event, pollFails, r, failed)
    {
      hide Valid, Log, Advanced, Pending, Answered, Idle;
      NotAdvanced(Pending(), whole);
      ClosesHalfClosed();
      SilentLog(reports);
      r, failed := Silent, false;
      if kind.Reserve? || kind.Invalid? {
        return;
      }
      if kind.Connecting? {
        r := ReportConnect(connected, pollFails);
      } else {
        r, failed := Dispatch(event, pollFails);
      }
    }

    /** How an open socket answers an event: what is read is reported unless the read side is
        closed, the line is written as far as the kernel takes it, a fault is reported, and at the
        end of the fd the socket is gone. */
    twostate predicate Answered(event: Event, pollFails: bool, r: Report, failed: bool)
      reads this
    {
      match event
      case Readable(input) =>
        if input.Got? && !(0 < |input.bytes| <= old(readSize)) then NothingWrote(r, failed)
        else
          && AfterReading(old(State()), closing, old(NoMoreSending()), input, State(), r) && !failed
          && wire == old(wire) && whole == old(whole) && Pending() == old(Pending())
          && readSize == if r.Data? then Resized(old(readSize), |r.bytes|) else old(readSize)
      case Writable(locked, answers) =>
        if locked then Written(answers, pollFails, r, failed) else NothingWrote(r, failed)
      case Fault =>
        && r == Error && !failed && State() == old(State())
        && wire == old(wire) && whole == old(whole) && Pending() == old(Pending())
      case Hangup =>
        && r == (if old(kind.HalfcloseRead?) then Silent else Closed) && !failed && kind == Invalid
        && wire == old(wire) && whole == old(whole) && Pending() == old(Pending())
    }

    lemma ClosedIsReported()
      requires Valid()
      ensures kind.HalfcloseRead? ==> Closed in reports
      ensures Closed in reports ==> kind.HalfcloseRead? || kind.Invalid?
    {
    }

    lemma ClosesHalfClosed()
      requires Valid()
      ensures closing ==> kind.HalfcloseRead? || kind.Invalid?
    {
      NotClosing(kind, closing, reports, broken);
    }

    /** An event for an open socket. */
    method Dispatch(event: Event, pollFails: bool) returns (r: Report, failed: bool)
      requires Valid() && !kind.Reserve? && !kind.Invalid? && !kind.Connecting?
      modifies this`kind, this`high, this`low, this`lost, this`writing, this`reports, this`wbSize, this`wire,
               this`whole, this`dw, this`warnSize, this`readSize
      ensures Valid() && reports == Log(old(reports), r)
      ensures Advanced(old(Pending()), Pending(), old(whole), whole)
      ensures !failed && old(closing) && !event.Hangup? && kind.Invalid? ==> lost == []
      ensures Answered(event, pollFails, r, failed)
    {
      hide Valid, Log, Advanced, Pending, AfterReading, Written, Resized;
      NotAdvanced(Pending(), whole);
      SilentLog(reports);
      r, failed := Silent, false;
      match event {
        case Readable(input) =>
          if !input.Got? || 0 < |input.bytes| <= readSize {
            r := ForwardMessage(input);
          }
        case Writable(locked, answers) => r, failed := SendBuffer(locked, answers, pollFails);
        case Fault => r := Report(Error);
        case Hangup => r := CloseNow();
      }
    }
  }

  /** A report that may come in a state keeps the protocol. */
  lemma LogOk(kind: Kind, closing: bool, reports: seq<Report>, broken: bool, r: Report)
    requires CloseOk(kind, closing, reports, broken) && !r.Closed?
    requires r.Data? ==> !kind.HalfcloseRead? && !kind.Invalid?
    ensures CloseOk(kind, closing, Log(reports, r), broken)
  {
  }

  /** SOCKET_CLOSE is reported with the change to half closed or gone. */
  lemma ReportedOk(kind: Kind, closing: bool, reports: seq<Report>, broken: bool)
    requires CloseOk(kind, closing, reports, broken) && !kind.HalfcloseRead? && !kind.Invalid?
    ensures CloseOk(HalfcloseRead, true, Log(reports, Closed), broken)
    ensures CloseOk(HalfcloseRead, closing, Log(reports, Closed), broken)
    ensures CloseOk(Invalid, closing, Log(reports, Closed), broken)
  {
    assert (reports + [Closed])[|reports|] == Closed;
  }

  /** Another state that is not closed, or a socket that failed to open. */
  lemma NotClosedOk(kind: Kind, kind': Kind, closing: bool, reports: seq<Report>, broken: bool)
    requires CloseOk(kind, closing, reports, broken) && !kind.HalfcloseRead? && !kind.Invalid?
    ensures !kind'.HalfcloseRead? && !kind'.Invalid? ==> CloseOk(kind', closing, reports, broken)
    ensures CloseOk(Invalid, closing, reports, true)
  {
  }

  lemma NotClosing(kind: Kind, closing: bool, reports: seq<Report>, broken: bool)
    requires CloseOk(kind, closing, reports, broken)
    ensures closing ==> kind.HalfcloseRead? || kind.Invalid?
  {
  }

  lemma HalfClosedOk(closing: bool, reports: seq<Report>, broken: bool)
    requires CloseOk(HalfcloseRead, closing, reports, broken)
    ensures CloseOk(HalfcloseRead, true, reports, broken) && CloseOk(Invalid, closing, reports, broken)
  {
  }

  /** The request to open is not counted, and none is left. */
  lemma OpenTaken(pipe: seq<Request>, limbo: seq<Request>, to: Kind, tcp: bool, sending: nat, early: nat)
    requires PipeOk(Reserve, pipe, limbo) && SendingOk(Reserve, tcp, sending, early, pipe, limbo) && !to.Reserve?
    ensures pipe != [] && pipe[0].Open? && PipeOk(to, pipe[1..], limbo)
    ensures SendingOk(to, true, 0, early, pipe[1..], limbo) && SendingOk(Invalid, tcp, sending, early, pipe[1..], limbo)
  {
    PipeRest(pipe, limbo);
  }

  /** A reserved socket holds nothing and is not closing, so opening it, or failing to, is well. */
  lemma LeavesReserve(to: Kind, lost: seq<WriteBuffer>, dw: seq<WriteBuffer>, high: seq<WriteBuffer>, low: seq<WriteBuffer>,
                      wbSize: int, closing: bool, reports: seq<Report>, broken: bool, r: Report)
    requires ListsOk(Reserve, dw, high, low, wbSize) && CloseOk(Reserve, closing, reports, broken)
    requires !to.Reserve? && !to.HalfcloseRead? && (r.Silent? || r.Error? || r.Opened?)
    ensures !closing && dw == [] && high == [] && low == []
    ensures Held(Reserve, lost, dw, high, low) == Line(dw, high, low)
    ensures Held(to, if to.Invalid? then Line(dw, high, low) else lost, dw, high, low) == Line(dw, high, low)
    ensures ListsOk(to, dw, high, low, 0) && ListsOk(Invalid, dw, high, low, wbSize)
    ensures CloseOk(to, closing, Log(reports, r), broken || to.Invalid?)
  {
    NotClosedOk(Reserve, to, closing, reports, broken);
    LogOk(to, closing, reports, broken || to.Invalid?, r);
  }

  /** The read side is closed, with SOCKET_CLOSE unless that was reported. */
  lemma HalfCloses(kind: Kind, closing: bool, reports: seq<Report>, broken: bool)
    requires CloseOk(kind, closing, reports, broken) && !kind.Invalid?
    ensures CloseOk(HalfcloseRead, true, Log(reports, if kind.HalfcloseRead? then Silent else Closed), broken)
  {
    if kind.HalfcloseRead? {
      HalfClosedOk(closing, reports, broken);
    } else {
      ReportedOk(kind, closing, reports, broken);
    }
  }

  /** Closing the read side leaves the lists, the requests and the counter as they are. */
  lemma StillOpen(kind: Kind, dw: seq<WriteBuffer>, high: seq<WriteBuffer>, low: seq<WriteBuffer>, wbSize: int,
                  tcp: bool, sending: nat, early: nat, pipe: seq<Request>, limbo: seq<Request>)
    requires ListsOk(kind, dw, high, low, wbSize) && !kind.Reserve? && !kind.Invalid?
    requires SendingOk(kind, tcp, sending, early, pipe, limbo) && PipeOk(kind, pipe, limbo)
    ensures ListsOk(HalfcloseRead, dw, high, low, wbSize)
    ensures SendingOk(HalfcloseRead, tcp, sending, early, pipe, limbo) && PipeOk(HalfcloseRead, pipe, limbo)
  {
  }

  lemma StillWatched(kind: Kind, closing: bool, writing: bool, stuck: bool, empty: bool, waking: bool)
    requires WakeOk(kind, closing, writing, stuck, empty, waking) && !kind.HalfcloseWrite? && !kind.Invalid?
    ensures WakeOk(HalfcloseRead, true, writing, !writing && !waking, empty, waking)
    ensures !writing && !waking ==> empty
  {
  }

  lemma IdleWell(kind: Kind, writing: bool, stuck: bool, waking: bool)
    ensures WakeOk(kind, false, writing, stuck, true, waking)
  {
  }

  lemma SilentLog(reports: seq<Report>)
    ensures Log(reports, Silent) == reports
  {
  }

  lemma LineJoined(dw: seq<WriteBuffer>, high: seq<WriteBuffer>, low: seq<WriteBuffer>, b: WriteBuffer)
    ensures Line(dw, high, low) == (dw + high) + low == (dw + high + low) + []
    ensures Line(dw, high + [b], low) == (dw + high) + [b] + low
    ensures Line(dw, high, low + [b]) == (dw + high + low) + [b] + []
  {
  }

  lemma UnsentLast(list: seq<WriteBuffer>, b: WriteBuffer)
    ensures Unsent(list + [b]) == Unsent(list) + Left(b)
  {
    UnsentConcat(list, [b]);
    assert [b][1..] == [];
  }

  lemma PipeRest(pipe: seq<Request>, limbo: seq<Request>)
    requires pipe != []
    ensures Sends(pipe) == Sends(pipe[1..]) + if pipe[0].Send? then 1 else 0
    ensures Waking(pipe, limbo) <==> pipe[0].Wake? || Waking(pipe[1..], limbo)
    ensures forall i :: 0 <= i < |pipe| - 1 ==> pipe[1..][i] == pipe[i + 1]
  {
    SendsWithout([], pipe[0], pipe[1..]);
    assert pipe == [] + [pipe[0]] + pipe[1..] && [] + pipe[1..] == pipe[1..];
  }

  /** A direct write, whole or in part, when nothing is pending. */
  lemma DirectOk(p: Packet, n: nat, wire: seq<bv8>, whole: seq<Packet>, accepted: seq<Packet>)
    requires WritesOk([], wire, whole, accepted) && n <= |p.data|
    ensures WritesOk([WriteBuffer(p, n)], wire + p.data[..n], whole, accepted + [p])
    ensures n == |p.data| ==> WritesOk([], wire + p.data[..n], whole + [p], accepted + [p])
  {
    hide WritesOk;
    var (b, none) := (WriteBuffer(p, 0), []);
    assert none + [b] + none == [b] + none && none + none == none;
    Joined(none, none, p, wire, whole, accepted);
    SentMore(b, none, n, wire, whole, accepted + [p]);
    assert p.data[0..0 + n] == p.data[..n];
    assert [b.(offset := n)] + none == [WriteBuffer(p, n)];
    if n == |p.data| {
      SentWhole(b.(offset := n), none, wire + p.data[..n], whole, accepted + [p]);
    }
  }

  /** The rest of a direct write is kept and the request to watch for writing prepared. */
  lemma DirectLeft(b: WriteBuffer, wbSize: int, writing: bool, stuck: bool,
                   tcp: bool, sending: nat, early: nat, pipe: seq<Request>, limbo: seq<Request>)
    requires ListsOk(Connected, [], [], [], wbSize) && PipeOk(Connected, pipe, limbo)
    requires SendingOk(Connected, tcp, sending, early, pipe, limbo)
    ensures ListsOk(Connected, [b], [], [], wbSize) && PipeOk(Connected, pipe, limbo + [Wake])
    ensures SendingOk(Connected, tcp, sending, early, pipe, limbo + [Wake])
    ensures WakeOk(Connected, false, writing, stuck, false, Waking(pipe, limbo + [Wake]))
  {
    hide Sends, Unsent;
    SendsLast(limbo, Wake);
    assert (limbo + [Wake])[|limbo|] == Wake;
  }

  lemma FirstFits(left: seq<WriteBuffer>, rest: seq<WriteBuffer>, wire: seq<bv8>, whole: seq<Packet>, accepted: seq<Packet>)
    requires left != [] && WritesOk(left + rest, wire, whole, accepted)
    ensures Fits(left[0])
  {
    assert (left + rest)[0] == left[0];
  }

  lemma NoneGone(list: seq<WriteBuffer>, whole: seq<Packet>)
    ensures AdvancedBy(list, list, whole, whole, 0) && whole == whole + Packets(list[..0])
  {
  }

  /** What a list becomes when a write takes n bytes of its first buffer. */
  function Rest(list: seq<WriteBuffer>, n: nat): seq<WriteBuffer>
    requires list != []
  {
    if n < Left(list[0]) then [list[0].(offset := list[0].offset + n)] + list[1..] else list[1..]
  }

  lemma StillLined(list: seq<WriteBuffer>, left: seq<WriteBuffer>, k: nat, whole: seq<Packet>, whole': seq<Packet>)
    requires AdvancedBy(list, left, whole, whole', k)
    ensures left != [] ==> list != []
  {
  }

  /** The count of unsent bytes follows the high list. */
  lemma Shrunk(kind: Kind, high: seq<WriteBuffer>, left: seq<WriteBuffer>, low: seq<WriteBuffer>,
               wbSize: int, wbSize': int)
    requires ListsOk(kind, [], high, low, wbSize) && !kind.Reserve? && !kind.Invalid?
    requires wbSize' - Unsent(left) == wbSize - Unsent(high)
    ensures ListsOk(kind, [], left, low, wbSize')
  {
  }

  lemma WakesStill(kind: Kind, closing: bool, writing: bool, stuck: bool, empty: bool, empty': bool, waking: bool)
    requires WakeOk(kind, closing, writing, stuck, empty, waking) && (empty ==> empty')
    ensures WakeOk(kind, closing, writing, stuck, empty', waking)
  {
  }

  lemma LowRest(list: seq<WriteBuffer>, left: seq<WriteBuffer>, k: nat, whole: seq<Packet>, whole': seq<Packet>)
    requires LowOk(list) && AdvancedBy(list, left, whole, whole', k)
    ensures left != [] ==> LowOk(left[1..])
    ensures left != [] && left[0].offset == 0 ==> LowOk(left)
    ensures left == list[k..] ==> LowOk(left)
    ensures left == [] ==> LowOk(left)
    ensures Advanced(list, left, whole, whole') && (left != [] ==> list != [])
  {
  }

  lemma OneGone(list: seq<WriteBuffer>, k: nat)
    requires k < |list|
    ensures Packets(list[..k + 1]) == Packets(list[..k]) + [list[k].packet]
  {
  }

  lemma UnsentFirst(list: seq<WriteBuffer>, after: WriteBuffer)
    requires list != []
    ensures Unsent(list) == Left(list[0]) + Unsent(list[1..])
    ensures Unsent([after] + list[1..]) == Left(after) + Unsent(list[1..])
  {
    assert ([after] + list[1..])[1..] == list[1..];
  }

  lemma RaisedUnsent(list: seq<WriteBuffer>)
    requires list != []
    ensures Unsent(list) == Unsent([list[0]]) + Unsent(list[1..])
  {
    assert [list[0]][1..] == [];
  }

  lemma MovedUnsent(b: WriteBuffer, high: seq<WriteBuffer>)
    ensures Unsent([b] + high) == Left(b) + Unsent(high)
  {
    assert ([b] + high)[1..] == high;
  }
}

/** What a TCP socket has accepted, sent and still holds, as sequences of packets; the values
    behind the write lists of skynet/skynet-src/socket_server.c. */
module SocketBuffers {
  /** How a packet was accepted: written directly, or put on the high or the low list. */
  datatype Origin = Direct | High | Low

  datatype Packet = Packet(origin: Origin, data: seq<bv8>)

  /** A packet with the number of its bytes that are written. */
  datatype WriteBuffer = WriteBuffer(packet: Packet, offset: nat)

  predicate Fits(b: WriteBuffer) { b.offset <= |b.packet.data| }

  function Left(b: WriteBuffer): int { |b.packet.data| - b.offset }

  function Unsent(list: seq<WriteBuffer>): int {
    if list == [] then 0 else Left(list[0]) + Unsent(list[1..])
  }

  function Flatten(packets: seq<Packet>): seq<bv8> {
    if packets == [] then [] else Flatten(packets[..|packets| - 1]) + packets[|packets| - 1].data
  }

  function Packets(list: seq<WriteBuffer>): seq<Packet> {
    seq(|list|, i requires 0 <= i < |list| => list[i].packet)
  }

  /** The packets of one origin, in order. */
  function Of(packets: seq<Packet>, o: Origin): seq<Packet> {
    if packets == [] then []
    else Of(packets[..|packets| - 1], o) + if packets[|packets| - 1].origin == o then [packets[|packets| - 1]] else []
  }

  /** The bytes already written of the first packet. */
  function Begun(pending: seq<WriteBuffer>): seq<bv8>
    requires pending != [] ==> Fits(pending[0])
  {
    if pending == [] then [] else pending[0].packet.data[..pending[0].offset]
  }

  /** The unsent bytes of a list. */
  function Bytes(list: seq<WriteBuffer>): seq<bv8> {
    if list == [] then []
    else (if Fits(list[0]) then list[0].packet.data[list[0].offset..] else []) + Bytes(list[1..])
  }

  predicate OnlyFirstBegun(pending: seq<WriteBuffer>) {
    && (forall i :: 0 <= i < |pending| ==> Fits(pending[i]))
    && (forall i :: 0 < i < |pending| ==> pending[i].offset == 0)
  }

  /** Write integrity: the wire carries whole packets and the beginning of the first pending one;
      for each origin, the packets sent and then those pending are those accepted, in order. */
  ghost predicate WritesOk(pending: seq<WriteBuffer>, wire: seq<bv8>, whole: seq<Packet>, accepted: seq<Packet>) {
    && OnlyFirstBegun(pending)
    && wire == Flatten(whole) + Begun(pending)
    && forall o: Origin {:trigger Of(accepted, o)} ::
         Of(accepted, o) == Of(whole, o) + Of(Packets(pending), o)
  }

  lemma OfLast(packets: seq<Packet>, p: Packet, o: Origin)
    ensures Of(packets + [p], o) == Of(packets, o) + if p.origin == o then [p] else []
  {
    assert (packets + [p])[..|packets|] == packets;
  }

  lemma {:induction false} OfConcat(a: seq<Packet>, b: seq<Packet>, o: Origin)
    ensures Of(a + b, o) == Of(a, o) + Of(b, o)
    decreases |b|
  {
    if b == [] {
      assert a + b == a;
    } else {
      hide Of;
      var (v, x) := (b[..|b| - 1], b[|b| - 1]);
      assert b == v + [x];
      assert a + b == (a + v) + [x];
      OfConcat(a, v, o);
      OfLast(v, x, o);
      OfLast(a + v, x, o);
    }
  }

  lemma {:induction false} OfNone(packets: seq<Packet>, o: Origin)
    requires forall i :: 0 <= i < |packets| ==> packets[i].origin != o
    ensures Of(packets, o) == []
  {
    if packets != [] {
      OfNone(packets[..|packets| - 1], o);
    }
  }

  lemma {:induction false} UnsentConcat(a: seq<WriteBuffer>, b: seq<WriteBuffer>)
    ensures Unsent(a + b) == Unsent(a) + Unsent(b)
  {
    if a == [] {
      assert a + b == b;
    } else {
      assert (a + b)[1..] == a[1..] + b;
      UnsentConcat(a[1..], b);
    }
  }

  lemma FlattenLast(packets: seq<Packet>, p: Packet)
    ensures Flatten(packets + [p]) == Flatten(packets) + p.data
  {
    assert (packets + [p])[..|packets|] == packets;
  }

  lemma OfFirst(first: WriteBuffer, rest: seq<WriteBuffer>, o: Origin)
    ensures Of(Packets([first] + rest), o) == Of([first.packet], o) + Of(Packets(rest), o)
  {
    assert Packets([first] + rest) == [first.packet] + Packets(rest);
    OfConcat([first.packet], Packets(rest), o);
  }

  /** Writing more of the first packet. */
  lemma SentMore(first: WriteBuffer, rest: seq<WriteBuffer>, n: nat,
                 wire: seq<bv8>, whole: seq<Packet>, accepted: seq<Packet>)
    requires WritesOk([first] + rest, wire, whole, accepted) && n <= Left(first)
    ensures first.offset + n <= |first.packet.data|
    ensures WritesOk([first.(offset := first.offset + n)] + rest,
                     wire + first.packet.data[first.offset..first.offset + n], whole, accepted)
  {
    hide Of, Flatten, OnlyFirstBegun, Begun, Packets;
    FirstOf(first, rest);
    MoreBegun(first, rest, n);
    var after := [first.(offset := first.offset + n)] + rest;
    var more := first.packet.data[first.offset..first.offset + n];
    assert wire + more == Flatten(whole) + Begun(after);
    forall o: Origin {:trigger Of(accepted, o)} ensures Of(accepted, o) == Of(whole, o) + Of(Packets(after), o) {
    }
  }

  lemma FirstOf(first: WriteBuffer, rest: seq<WriteBuffer>)
    requires OnlyFirstBegun([first] + rest)
    ensures Fits(first)
  {
    assert ([first] + rest)[0] == first;
  }

  lemma MoreBegun(first: WriteBuffer, rest: seq<WriteBuffer>, n: nat)
    requires OnlyFirstBegun([first] + rest) && Fits(first) && n <= Left(first)
    ensures var after := [first.(offset := first.offset + n)] + rest;
      && OnlyFirstBegun(after) && Packets(after) == Packets([first] + rest)
      && Begun(after) == Begun([first] + rest) + first.packet.data[first.offset..first.offset + n]
  {
    var (before, after) := ([first] + rest, [first.(offset := first.offset + n)] + rest);
    assert forall i :: 0 < i < |after| ==> after[i] == before[i];
    assert Packets(after) == Packets(before);
  }

  /** The first packet is written out. */
  lemma SentWhole(first: WriteBuffer, rest: seq<WriteBuffer>, wire: seq<bv8>, whole: seq<Packet>, accepted: seq<Packet>)
    requires WritesOk([first] + rest, wire, whole, accepted) && Left(first) == 0
    ensures WritesOk(rest, wire, whole + [first.packet], accepted)
  {
    hide Of, Flatten;
    var before := [first] + rest;
    assert before[0] == first && forall i :: 0 <= i < |rest| ==> rest[i] == before[i + 1];
    FlattenLast(whole, first.packet);
    assert Begun(before) == first.packet.data && Begun(rest) == [];
    forall o: Origin {:trigger Of(accepted, o)}
      ensures Of(accepted, o) == Of(whole + [first.packet], o) + Of(Packets(rest), o)
    {
      OfFirst(first, rest, o);
      OfConcat(whole, [first.packet], o);
    }
  }

  /** A packet joins those of its origin at the end, behind everything begun. */
  lemma Joined(front: seq<WriteBuffer>, back: seq<WriteBuffer>, p: Packet,
               wire: seq<bv8>, whole: seq<Packet>, accepted: seq<Packet>)
    requires WritesOk(front + back, wire, whole, accepted)
    requires forall i :: 0 <= i < |back| ==> back[i].packet.origin != p.origin && back[i].offset == 0
    ensures WritesOk(front + [WriteBuffer(p, 0)] + back, wire, whole, accepted + [p])
  {
    hide Of, Flatten, OnlyFirstBegun;
    var before := front + back;
    var after := front + [WriteBuffer(p, 0)] + back;
    JoinedBegun(front, back, p);
    forall o: Origin {:trigger Of(accepted + [p], o)}
      ensures Of(accepted + [p], o) == Of(whole, o) + Of(Packets(after), o)
    {
      assert Of(accepted, o) == Of(whole, o) + Of(Packets(before), o);
      OfConcat(accepted, [p], o);
      OfConcat(Packets(front), Packets(back), o);
      OfConcat(Packets(front), [p], o);
      OfConcat(Packets(front) + [p], Packets(back), o);
      OneOf(p, o);
      if o == p.origin {
        OfNone(Packets(back), o);
      }
    }
  }

  lemma JoinedBegun(front: seq<WriteBuffer>, back: seq<WriteBuffer>, p: Packet)
    requires OnlyFirstBegun(front + back)
    requires forall i :: 0 <= i < |back| ==> back[i].offset == 0
    ensures var after := front + [WriteBuffer(p, 0)] + back;
      OnlyFirstBegun(after) && Begun(after) == Begun(front + back)
    ensures Packets(front + back) == Packets(front) + Packets(back)
    ensures Packets(front + [WriteBuffer(p, 0)] + back) == Packets(front) + [p] + Packets(back)
  {
    var (after, before, k) := (front + [WriteBuffer(p, 0)] + back, front + back, |front|);
    forall i | 0 <= i < |after| ensures Fits(after[i]) && (i > 0 ==> after[i].offset == 0) {
      assert after[i] == if i < k then before[i] else if i == k then WriteBuffer(p, 0) else before[i - 1];
    }
    assert front != [] ==> after[0] == before[0];
    assert front == [] && back != [] ==> before[0] == back[0];
  }

  lemma OneOf(p: Packet, o: Origin)
    ensures Of([p], o) == if p.origin == o then [p] else []
  {
    assert [p] == [] + [p];
    OfLast([], p, o);
  }

  lemma {:induction false} FlattenConcat(a: seq<Packet>, b: seq<Packet>)
    ensures Flatten(a + b) == Flatten(a) + Flatten(b)
    decreases |b|
  {
    if b == [] {
      assert a + b == a;
    } else {
      var (v, x) := (b[..|b| - 1], b[|b| - 1]);
      assert a + b == (a + v) + [x];
      assert b == v + [x];
      hide Flatten;
      FlattenConcat(a, v);
      FlattenLast(a + v, x);
      FlattenLast(v, x);
    }
  }

  // ----- progress along the line -----

  /** The first k buffers of a line are written whole, and perhaps some of the next one. */
  predicate AdvancedBy(line: seq<WriteBuffer>, line': seq<WriteBuffer>, whole: seq<Packet>, whole': seq<Packet>, k: nat) {
    && k <= |line| && |line'| == |line| - k && whole' == whole + Packets(line[..k])
    && (forall i :: 0 < i < |line'| ==> line'[i] == line[k + i])
    && (line' != [] ==> line'[0].packet == line[k].packet && line'[0].offset >= line[k].offset)
  }

  ghost predicate Advanced(line: seq<WriteBuffer>, line': seq<WriteBuffer>, whole: seq<Packet>, whole': seq<Packet>) {
    exists k: nat :: AdvancedBy(line, line', whole, whole', k)
  }

  lemma NotAdvanced(line: seq<WriteBuffer>, whole: seq<Packet>)
    ensures Advanced(line, line, whole, whole)
  {
    assert whole + Packets(line[..0]) == whole;
    assert AdvancedBy(line, line, whole, whole, 0);
  }

  lemma AdvancedFront(list: seq<WriteBuffer>, left: seq<WriteBuffer>, rest: seq<WriteBuffer>,
                      whole: seq<Packet>, whole': seq<Packet>, k: nat)
    requires AdvancedBy(list, left, whole, whole', k)
    ensures Advanced(list + rest, left + rest, whole, whole')
  {
    assert (list + rest)[..k] == list[..k];
    assert AdvancedBy(list + rest, left + rest, whole, whole', k);
  }

  lemma AdvancedTwice(a: seq<WriteBuffer>, b: seq<WriteBuffer>, c: seq<WriteBuffer>,
                      u: seq<Packet>, v: seq<Packet>, w: seq<Packet>)
    requires Advanced(a, b, u, v) && Advanced(b, c, v, w)
    ensures Advanced(a, c, u, w)
  {
    var k: nat :| AdvancedBy(a, b, u, v, k);
    var j: nat :| AdvancedBy(b, c, v, w, j);
    assert Packets(a[..k]) + Packets(b[..j]) == Packets(a[..k + j]);
    assert (u + Packets(a[..k])) + Packets(b[..j]) == u + (Packets(a[..k]) + Packets(b[..j]));
    assert AdvancedBy(a, c, u, w, k + j);
  }

  /** One more buffer is gone from the front. */
  lemma AdvancedOne(list: seq<WriteBuffer>, whole: seq<Packet>, k: nat)
    requires k < |list|
    ensures AdvancedBy(list, list[k..], whole, whole + Packets(list[..k]), k)
    ensures AdvancedBy(list, list[k + 1..], whole, whole + Packets(list[..k]) + [list[k].packet], k + 1)
    ensures forall b: WriteBuffer :: b.packet == list[k].packet && b.offset >= list[k].offset ==>
              AdvancedBy(list, [b] + list[k + 1..], whole, whole + Packets(list[..k]), k)
  {
    assert Packets(list[..k + 1]) == Packets(list[..k]) + [list[k].packet];
  }

  /** The bytes of a line, the begun ones included, are those of the buffers that are gone, then
      those of the rest. */
  lemma {:induction false} GoneBytes(line: seq<WriteBuffer>, left: seq<WriteBuffer>, k: nat)
    requires OnlyFirstBegun(line) && OnlyFirstBegun(left)
    requires k <= |line| && |left| == |line| - k
    requires forall i :: 0 < i < |left| ==> left[i] == line[k + i]
    requires left != [] ==> left[0].packet == line[k].packet
    ensures Begun(line) + Bytes(line) == Flatten(Packets(line[..k])) + Begun(left) + Bytes(left)
  {
    assert left != [] ==> Fits(left[0]);
    hide Flatten, Bytes, Begun, OnlyFirstBegun;
    if k == 0 {
      NoneGoneBytes(line, left);
    } else {
      var tail := line[1..];
      WholeOf(line);
      GoneBytes(tail, left, k - 1);
      hide Packets;
      FirstPacket(line, k);
      FlattenConcat([line[0].packet], Packets(tail[..k - 1]));
      OneFlat(line[0].packet);
      GroupedFour(line[0].packet.data, Flatten(Packets(tail[..k - 1])), Begun(left), Bytes(left));
      assert [] + Bytes(tail) == Bytes(tail);
    }
  }

  lemma NoneGoneBytes(line: seq<WriteBuffer>, left: seq<WriteBuffer>)
    requires OnlyFirstBegun(line) && OnlyFirstBegun(left) && |left| == |line|
    requires forall i :: 0 < i < |left| ==> left[i] == line[i]
    requires left != [] ==> left[0].packet == line[0].packet
    ensures Begun(line) + Bytes(line) == Flatten(Packets(line[..0])) + Begun(left) + Bytes(left)
  {
    hide Flatten;
    assert Packets(line[..0]) == [];
    NoneFlat();
    assert [] + Begun(left) == Begun(left);
    if left != [] {
      assert left[1..] == line[1..];
      hide Bytes, Begun, OnlyFirstBegun;
      WholeOf(left);
      WholeOf(line);
    }
  }

  lemma FirstPacket(line: seq<WriteBuffer>, k: nat)
    requires 0 < k <= |line|
    ensures Packets(line[..k]) == [line[0].packet] + Packets(line[1..][..k - 1])
  {
  }

  lemma GroupedFour(a: seq<bv8>, b: seq<bv8>, c: seq<bv8>, d: seq<bv8>)
    ensures a + (b + c + d) == a + b + c + d
  {
  }

  lemma NoneFlat()
    ensures Flatten([]) == []
  {
  }

  lemma OneFlat(p: Packet)
    ensures Flatten([p]) == p.data
  {
    FlattenLast([], p);
    assert [] + [p] == [p];
  }

  lemma WholeOf(list: seq<WriteBuffer>)
    requires list != [] && OnlyFirstBegun(list)
    ensures OnlyFirstBegun(list[1..]) && Begun(list[1..]) == []
    ensures Begun(list) + Bytes(list) == list[0].packet.data + Bytes(list[1..])
  {
    var (b, tail) := (list[0], list[1..]);
    assert forall i :: 0 <= i < |tail| ==> tail[i] == list[i + 1];
    assert tail != [] ==> tail[0].packet.data[..tail[0].offset] == [];
    assert Bytes(list) == b.packet.data[b.offset..] + Bytes(tail);
    hide Bytes, OnlyFirstBegun;
    assert b.packet.data == b.packet.data[..b.offset] + b.packet.data[b.offset..];
    Grouped(b.packet.data[..b.offset], b.packet.data[b.offset..], Bytes(tail));
  }

  lemma Grouped(a: seq<bv8>, b: seq<bv8>, c: seq<bv8>)
    ensures a + (b + c) == (a + b) + c
  {
  }
}

// Framed messages over a byte stream, and the compacting buffers at its two ends.
module NetBuffers {
  import opened Common
  import opened BigEndian

  const NETBUF_ALLOC_SIZE: nat := 10 * 1024 * 1024
  const OPENLI_PROTO_MAGIC: nat := 0x5c4c6c5c
  const HEADER_LENGTH: nat := 16
  const NO_MESSAGE: nat := 1

  datatype Message = Message(kind: nat, id: nat, body: seq<byte>)

  // What the header can carry; NO_MESSAGE is how the receiver says that there is none.
  predicate Sendable(m: Message) {
    m.kind < Pow256(2) && m.kind != NO_MESSAGE && m.id < Pow256(8) && |m.body| < Pow256(2)
  }

  function Header(kind: nat, bodyLength: nat, id: nat): (bs: seq<byte>)
    ensures |bs| == HEADER_LENGTH
  {
    Bytes(OPENLI_PROTO_MAGIC, 4) + Bytes(bodyLength, 2) + Bytes(kind, 2) + Bytes(id, 8)
  }

  function Frame(m: Message): seq<byte> {
    Header(m.kind, |m.body|, m.id) + m.body
  }

  function Frames(ms: seq<Message>): seq<byte> {
    Flat(Frame, ms)
  }

  // What the receiver is told; Closed and Failed tell of the connection.
  datatype Parsed = Nothing | Invalid | Got(message: Message) | Closed | Failed

  // What a socket gives when it is read: bytes, none of them at the end of the stream.
  datatype Input = Data(bytes: seq<byte>) | Blocked | Broken

  // What it does with bytes it is given.
  datatype Reply = Refused | Again | Accepted(count: nat)

  // parse_received_message as a function of the buffer's contents: its result and how many
  // bytes it consumes
  function Parse(bs: seq<byte>): (r: (Parsed, nat))
    ensures r.1 <= |bs| && !r.0.Closed? && !r.0.Failed?
  {
    if |bs| < HEADER_LENGTH then (Nothing, 0)
    else if Value(bs[0..4]) != OPENLI_PROTO_MAGIC then (Invalid, 0)
    else
      var length := Value(bs[4..6]);
      if |bs| < HEADER_LENGTH + length then (Nothing, 0)
      else
        var kind := Value(bs[6..8]);
        if kind == NO_MESSAGE then (Nothing, HEADER_LENGTH + length)
        else (Got(Message(kind, Value(bs[8..16]), bs[HEADER_LENGTH..HEADER_LENGTH + length])), HEADER_LENGTH + length)
  }

  // receive_net_buffer as a function of the contents and what the socket gives: its result and
  // the new contents.
  function Receive(bs: seq<byte>, input: Input): (Parsed, seq<byte>) {
    var (first, skip) := Parse(bs);
    if !first.Nothing? then (first, bs[skip..])
    else
      match input
      case Blocked => (Nothing, bs[skip..])
      case Broken => (Failed, bs[skip..])
      case Data(chunk) =>
        if chunk == [] then (Closed, bs[skip..])
        else
          var more := bs[skip..] + chunk;
          var (second, skip') := Parse(more);
          (second, more[skip'..])
  }

  lemma PowersOf256()
    ensures Pow256(2) == 65536 && Pow256(4) == 0x1_0000_0000 && Pow256(8) == 0x1_0000_0000_0000_0000
  {
    assert Pow256(1) == 256;
    assert Pow256(3) == 16777216;
    assert Pow256(5) == 256 * Pow256(4);
    assert Pow256(7) == 256 * (256 * Pow256(5));
  }

  lemma HeaderFields(kind: nat, bodyLength: nat, id: nat, rest: seq<byte>)
    requires kind < Pow256(2) && bodyLength < Pow256(2) && id < Pow256(8)
    ensures var bs := Header(kind, bodyLength, id) + rest;
      && Value(bs[0..4]) == OPENLI_PROTO_MAGIC && Value(bs[4..6]) == bodyLength
      && Value(bs[6..8]) == kind && Value(bs[8..16]) == id
      && bs[HEADER_LENGTH..] == rest
  {
    PowersOf256();
    BytesRoundTrip(OPENLI_PROTO_MAGIC, 4);
    BytesRoundTrip(bodyLength, 2);
    BytesRoundTrip(kind, 2);
    BytesRoundTrip(id, 8);
    var bs := Header(kind, bodyLength, id) + rest;
    assert bs[0..4] == Bytes(OPENLI_PROTO_MAGIC, 4);
    assert bs[4..6] == Bytes(bodyLength, 2);
    assert bs[6..8] == Bytes(kind, 2);
    assert bs[8..16] == Bytes(id, 8);
  }

  lemma ParseFields(bs: seq<byte>, kind: nat, length: nat, id: nat)
    requires |bs| >= HEADER_LENGTH + length && kind != NO_MESSAGE
    requires Value(bs[0..4]) == OPENLI_PROTO_MAGIC && Value(bs[4..6]) == length
    requires Value(bs[6..8]) == kind && Value(bs[8..16]) == id
    ensures Parse(bs) == (Got(Message(kind, id, bs[HEADER_LENGTH..HEADER_LENGTH + length])), HEADER_LENGTH + length)
  {
  }

  lemma Middle(h: seq<byte>, body: seq<byte>, rest: seq<byte>)
    ensures h + body + rest == h + (body + rest)
    ensures (h + body + rest)[|h|..|h| + |body|] == body
  {
  }

  lemma Halves(bs: seq<byte>, a: nat, b: nat)
    requires a <= b <= |bs|
    ensures bs[..a] + bs[a..b] == bs[..b]
  {
  }

  // The header's bytes are determined by its values.
  lemma HeaderUnique(bs: seq<byte>)
    requires |bs| >= HEADER_LENGTH && Value(bs[0..4]) == OPENLI_PROTO_MAGIC
    ensures bs[..HEADER_LENGTH] == Header(Value(bs[6..8]), Value(bs[4..6]), Value(bs[8..16]))
  {
    ValueRoundTrip(bs[0..4]);
    ValueRoundTrip(bs[4..6]);
    ValueRoundTrip(bs[6..8]);
    ValueRoundTrip(bs[8..16]);
    assert bs[..4] == bs[0..4];
    Halves(bs, 4, 6);
    Halves(bs, 6, 8);
    Halves(bs, 8, 16);
  }

  // A whole frame at the front is parsed, whatever follows.
  lemma ParseWhole(m: Message, rest: seq<byte>)
    requires Sendable(m)
    ensures Parse(Frame(m) + rest) == (Got(m), |Frame(m)|)
  {
    Middle(Header(m.kind, |m.body|, m.id), m.body, rest);
    HeaderFields(m.kind, |m.body|, m.id, m.body + rest);
    ParseFields(Frame(m) + rest, m.kind, |m.body|, m.id);
  }

  // Less than a frame is no message yet.
  lemma ParsePart(m: Message, n: nat)
    requires Sendable(m) && n < |Frame(m)|
    ensures Parse(Frame(m)[..n]) == (Nothing, 0)
  {
    var bs := Frame(m)[..n];
    if HEADER_LENGTH <= n {
      HeaderFields(m.kind, |m.body|, m.id, m.body[..n - HEADER_LENGTH]);
      assert bs == Header(m.kind, |m.body|, m.id) + m.body[..n - HEADER_LENGTH];
    }
  }

  // A message is returned if and only if its frame is at the front.
  lemma GotExactly(bs: seq<byte>, m: Message)
    ensures Parse(bs).0 == Got(m) <==> Sendable(m) && Frame(m) <= bs
  {
    hide Parse, Frame, Sendable;
    if Sendable(m) && Frame(m) <= bs {
      assert bs == Frame(m) + bs[|Frame(m)|..];
      ParseWhole(m, bs[|Frame(m)|..]);
    }
    if Parse(bs).0 == Got(m) { GotFrame(bs, m); }
  }

  lemma GotFrame(bs: seq<byte>, m: Message)
    requires Parse(bs).0 == Got(m)
    ensures Sendable(m) && Frame(m) <= bs
  {
    hide Value, Bytes, Pow256, Header;
    HeaderUnique(bs);
    ValueRoundTrip(bs[4..6]);
    ValueRoundTrip(bs[6..8]);
    ValueRoundTrip(bs[8..16]);
    var n := HEADER_LENGTH + |m.body|;
    Halves(bs, HEADER_LENGTH, n);
    assert Frame(m) == bs[..n];
  }

  // What follows is not a message if and only if it does not begin with the magic number.
  lemma InvalidExactly(bs: seq<byte>)
    ensures Parse(bs).0.Invalid? <==> |bs| >= HEADER_LENGTH && bs[..4] != Bytes(OPENLI_PROTO_MAGIC, 4)
  {
    if |bs| >= HEADER_LENGTH {
      assert bs[..4] == bs[0..4];
      ValueRoundTrip(bs[0..4]);
      PowersOf256();
      BytesRoundTrip(OPENLI_PROTO_MAGIC, 4);
    }
  }

  // ---- Both ends of a connection ----

  // The contents of the sending and receiving buffers, the bytes between them, and what has
  // been pushed and returned so far.
  datatype Link = Link(outgoing: seq<byte>, wire: seq<byte>, incoming: seq<byte>,
                       pushed: seq<Message>, returned: seq<Message>, broken: bool)

  datatype Step =
    | Push(m: Message)
    | Transmit(accepted: nat)
    | Read(cut: nat)

  function Perform(l: Link, step: Step): Link {
    match step
    case Push(m) => l.(outgoing := l.outgoing + Frame(m), pushed := l.pushed + [m])
    case Transmit(accepted) =>
      var n := Min(accepted, |l.outgoing|);
      l.(outgoing := l.outgoing[n..], wire := l.wire + l.outgoing[..n])
    case Read(cut) =>
      var n := Min(cut, |l.wire|);
      var (p, incoming) := Receive(l.incoming, if n == 0 then Blocked else Data(l.wire[..n]));
      l.(incoming := incoming, wire := if Parse(l.incoming).0.Nothing? then l.wire[n..] else l.wire,
         returned := if p.Got? then l.returned + [p.message] else l.returned,
         broken := l.broken || p.Invalid?)
  }

  function After(steps: seq<Step>): Link {
    if steps == [] then Link([], [], [], [], [], false)
    else Perform(After(steps[..|steps| - 1]), steps[|steps| - 1])
  }

  predicate Legal(steps: seq<Step>) {
    forall step :: step in steps ==> step.Push? ==> Sendable(step.m)
  }

  // What has not been returned is in the buffers and between them, in order.
  ghost predicate Inv(l: Link) {
    && !l.broken
    && l.returned <= l.pushed
    && (forall m :: m in l.pushed ==> Sendable(m))
    && l.incoming + l.wire + l.outgoing == Frames(l.pushed[|l.returned|..])
  }

  lemma Overlap(a: seq<byte>, b: seq<byte>, f: seq<byte>, g: seq<byte>)
    requires a + b == f + g
    ensures if |a| < |f| then a == f[..|a|] else a == f + a[|f|..] && a[|f|..] + b == g
  {
    assert forall i :: 0 <= i < |a| ==> a[i] == (f + g)[i];
    if |f| <= |a| {
      assert a[..|f|] == f;
      assert (a + b)[|f|..] == a[|f|..] + b;
      assert (f + g)[|f|..] == g;
    }
  }

  // What is at the front of the stream: the next message, once all of it is there.
  lemma ParseFront(bs: seq<byte>, later: seq<byte>, ms: seq<Message>)
    requires bs + later == Frames(ms) && forall m :: m in ms ==> Sendable(m)
    ensures Parse(bs) == (Nothing, 0) ||
      (ms != [] && Parse(bs) == (Got(ms[0]), |Frame(ms[0])|) && bs[|Frame(ms[0])|..] + later == Frames(ms[1..]))
    ensures ms != [] && |Frame(ms[0])| <= |bs| ==> Parse(bs).0 == Got(ms[0])
  {
    if ms == [] {
      assert bs == [];
    } else {
      var f := Frame(ms[0]);
      Overlap(bs, later, f, Frames(ms[1..]));
      if |bs| < |f| {
        ParsePart(ms[0], |bs|);
      } else {
        ParseWhole(ms[0], bs[|f|..]);
      }
    }
  }

  lemma PushInv(l: Link, m: Message)
    requires Inv(l) && Sendable(m)
    ensures Inv(Perform(l, Push(m)))
  {
    var rest := l.pushed[|l.returned|..];
    assert (l.pushed + [m])[|l.returned|..] == rest + [m];
    FlatConcat(Frame, rest, [m]);
    FlatOne(Frame, m);
    Associate(l.incoming + l.wire, l.outgoing, Frame(m));
  }

  lemma TransmitInv(l: Link, accepted: nat)
    requires Inv(l)
    ensures Inv(Perform(l, Transmit(accepted)))
  {
    var n := Min(accepted, |l.outgoing|);
    Regroup(l.incoming, l.wire, l.outgoing, n);
  }

  // Moving n bytes of c to the end of b.
  lemma Regroup(a: seq<byte>, b: seq<byte>, c: seq<byte>, n: nat)
    requires n <= |c|
    ensures a + (b + c[..n]) + c[n..] == a + b + c
  {
    assert c == c[..n] + c[n..];
  }

  // Reading: either a message was already there, or some bytes are taken off the wire first.
  lemma ReceiveFront(bs: seq<byte>, chunk: seq<byte>, later: seq<byte>, ms: seq<Message>)
    requires bs + chunk + later == Frames(ms) && forall m :: m in ms ==> Sendable(m)
    ensures var (p, bs') := Receive(bs, if chunk == [] then Blocked else Data(chunk));
      && !p.Invalid? && (p.Got? ==> ms != [] && p.message == ms[0])
      && bs' + (if Parse(bs).0.Nothing? then later else chunk + later) == Frames(if p.Got? then ms[1..] else ms)
  {
    hide Parse, Frames, Sendable;
    Associate(bs, chunk, later);
    ParseFront(bs, chunk + later, ms);
    if Parse(bs).0.Nothing? {
      assert bs[0..] == bs && bs[0..] + chunk == bs + chunk && bs + [] == bs;
      ParseFront(bs + chunk, later, ms);
      assert (bs + chunk)[0..] == bs + chunk;
    }
  }

  lemma TakeOff(a: seq<byte>, wire: seq<byte>, c: seq<byte>, n: nat)
    requires n <= |wire|
    ensures a + wire[..n] + (wire[n..] + c) == a + wire + c
    ensures wire[..n] + (wire[n..] + c) == wire + c
  {
    assert wire == wire[..n] + wire[n..];
  }

  // One more message returned.
  lemma ReturnedNext(pushed: seq<Message>, returned: seq<Message>)
    requires returned <= pushed && |returned| < |pushed|
    ensures returned + [pushed[|returned|..][0]] <= pushed
    ensures pushed[|returned| + 1..] == pushed[|returned|..][1..]
  {
  }

  lemma ReadInv(l: Link, cut: nat)
    requires Inv(l)
    ensures Inv(Perform(l, Read(cut)))
  {
    var n := Min(cut, |l.wire|);
    var chunk, later, ms := l.wire[..n], l.wire[n..] + l.outgoing, l.pushed[|l.returned|..];
    TakeOff(l.incoming, l.wire, l.outgoing, n);
    ReceiveFront(l.incoming, chunk, later, ms);
    var (p, incoming) := Receive(l.incoming, if n == 0 then Blocked else Data(chunk));
    Associate(incoming, if Parse(l.incoming).0.Nothing? then l.wire[n..] else l.wire, l.outgoing);
    if p.Got? { ReturnedNext(l.pushed, l.returned); }
  }

  lemma {:induction false} RunInv(steps: seq<Step>)
    requires Legal(steps)
    ensures Inv(After(steps))
  {
    if steps != [] {
      var n := |steps| - 1;
      RunInv(steps[..n]);
      assert steps[n] in steps;
      match steps[n]
      case Push(m) => PushInv(After(steps[..n]), m);
      case Transmit(accepted) => TransmitInv(After(steps[..n]), accepted);
      case Read(cut) => ReadInv(After(steps[..n]), cut);
    }
  }

  // However the stream is cut, the messages come out as pushed, in order; all of them, once
  // nothing is under way and the receiver finds no more.
  lemma ReturnedInOrder(steps: seq<Step>)
    requires Legal(steps)
    ensures var l := After(steps);
      && !l.broken && l.returned <= l.pushed
      && (l.outgoing == [] && l.wire == [] && Parse(l.incoming).0.Nothing? ==> l.returned == l.pushed)
  {
    RunInv(steps);
    var l := After(steps);
    var ms := l.pushed[|l.returned|..];
    if l.outgoing == [] && l.wire == [] && ms != [] {
      assert l.incoming + [] + [] == l.incoming + [];
      ParseFront(l.incoming, [], ms);
      assert |Frame(ms[0])| <= |Frames(ms)|;
    }
  }

  // Each read that finds bytes either takes some or returns a message.
  lemma ReadProgress(l: Link, cut: nat)
    requires Inv(l) && cut > 0 && l.wire != []
    ensures var l' := Perform(l, Read(cut)); |l'.wire| < |l.wire| || |l'.returned| > |l.returned|
  {
    var n := Min(cut, |l.wire|);
    TakeOff(l.incoming, l.wire, l.outgoing, n);
    ReceiveFront(l.incoming, l.wire[..n], l.wire[n..] + l.outgoing, l.pushed[|l.returned|..]);
  }

  // ---- The buffers ----

  class NetBuffer {
    var buf: array<byte>
    var act: nat
    var append: nat

    predicate Valid()
      reads this
    {
      act <= append <= buf.Length
    }

    function Contents(): seq<byte>
      requires Valid()
      reads this, buf
    {
      buf[act..append]
    }

    // create_net_buffer
    constructor ()
      ensures Valid() && fresh(buf) && Contents() == [] && buf.Length == NETBUF_ALLOC_SIZE
    {
      buf := new byte[NETBUF_ALLOC_SIZE];
      act, append := 0, 0;
    }

    // Three quarters of the buffer have been dealt with.
    // extend_net_buffer: the contents move to the front if three quarters of the buffer are free
    // there, and it grows unless that is enough.
    method Extend(mustHave: nat)
      requires Valid()
      modifies this, buf
      ensures Valid() && (buf == old(buf) || fresh(buf)) && Contents() == old(Contents())
      ensures act == if old(4 * act >= 3 * buf.Length) then 0 else old(act)
      ensures old(4 * act >= 3 * buf.Length && buf.Length - (append - act) >= mustHave) ==>
        buf.Length == old(buf.Length)
      ensures !old(4 * act >= 3 * buf.Length && buf.Length - (append - act) >= mustHave) ==>
        buf.Length == old(buf.Length) + NETBUF_ALLOC_SIZE
      ensures buf.Length - append >= mustHave || buf.Length - append >= old(buf.Length - append) + NETBUF_ALLOC_SIZE
    {
      var frontFree, size := act, append - act;
      if 4 * frontFree >= 3 * buf.Length {
        MoveDown(buf, frontFree, size);
        act, append := 0, size;
        if buf.Length - append >= mustHave {
          return;
        }
        frontFree := 0;
      }
      ghost var contents := Contents();
      buf := Resized(buf, buf.Length + NETBUF_ALLOC_SIZE, frontFree + size);
      act := frontFree;
      append := act + size;
      assert Contents() == contents;
    }

    // push_generic_onto_net_buffer
    method PushGeneric(data: seq<byte>)
      requires Valid()
      modifies this, buf
      ensures Valid() && (buf == old(buf) || fresh(buf)) && Contents() == old(Contents()) + data
    {
      if |data| == 0 {
        return;
      }
      while buf.Length - append < |data|
        invariant Valid() && (buf == old(buf) || fresh(buf)) && Contents() == old(Contents())
        decreases |data| - (buf.Length - append)
      {
        Extend(|data|);
      }
      CopyIn(data);
    }

    // transmit_net_buffer: an error if and only if there was something to send and the socket
    // refused it, 0 if nothing is left, and else how much is, or 1 if the socket is busy.
    method TransmitBuffer(reply: Reply) returns (r: int)
      requires Valid()
      modifies this, buf
      ensures Valid() && buf == old(buf)
      ensures r < 0 <==> old(Contents()) != [] && reply.Refused?
      ensures r == 0 <==> Contents() == []
      ensures reply.Accepted? ==> r == |Contents()|
      ensures r > 0 && reply.Again? ==> r == 1
      ensures var n := if reply.Accepted? then Min(reply.count, |old(Contents())|) else 0;
        && Contents() == old(Contents())[n..]
        && (old(Contents()) != [] && reply.Accepted? ==>
              act == if old(act) + n > NETBUF_ALLOC_SIZE then 0 else old(act) + n)
    {
      if append == act {
        return 0;
      }
      match reply {
        case Refused => return -1;
        case Again => return 1;
        case Accepted(count) => act := act + Min(count, append - act);
      }
      if act > NETBUF_ALLOC_SIZE {
        var size := append - act;
        ghost var contents := Contents();
        if size > 0 {
          MoveDown(buf, act, size);
        }
        act, append := 0, size;
        assert Contents() == contents;
      }
      r := append - act;
    }

    // parse_received_message
    method ParseMessage() returns (p: Parsed)
      requires Valid()
      modifies this`act
      ensures Valid()
      ensures p == Parse(old(Contents())).0 && Contents() == old(Contents())[Parse(old(Contents())).1..]
    {
      if append - act < HEADER_LENGTH {
        return Nothing;
      }
      var hdr := buf[act..act + HEADER_LENGTH];
      ghost var bs := Contents();
      assert hdr == bs[..HEADER_LENGTH];
      assert hdr[0..4] == bs[0..4] && hdr[4..6] == bs[4..6] && hdr[6..8] == bs[6..8] && hdr[8..16] == bs[8..16];
      if Value(hdr[0..4]) != OPENLI_PROTO_MAGIC {
        return Invalid;
      }
      var length := Value(hdr[4..6]);
      if append - act < HEADER_LENGTH + length {
        return Nothing;
      }
      var body := buf[act + HEADER_LENGTH..act + HEADER_LENGTH + length];
      SubSlice(buf[..], act, append, HEADER_LENGTH, HEADER_LENGTH + length);
      var kind := Value(hdr[6..8]);
      act := act + (length + HEADER_LENGTH);
      assert Contents() == bs[HEADER_LENGTH + length..];
      p := if kind == NO_MESSAGE then Nothing else Got(Message(kind, Value(hdr[8..16]), body));
    }

    // receive_net_buffer, and how many of the bytes there were read.  The end of the stream and a
    // broken connection are told of only when no message is left.
    method ReceiveBuffer(input: Input) returns (p: Parsed, count: nat)
      requires Valid()
      modifies this, buf
      ensures Valid() && (buf == old(buf) || fresh(buf)) && count <= if input.Data? then |input.bytes| else 0
      ensures (p, Contents())
        == Receive(old(Contents()), if input.Data? then Data(input.bytes[..count]) else input)
      ensures count > 0 <==> Parse(old(Contents())).0.Nothing? && input.Data? && input.bytes != []
      ensures p.Closed? <==> Parse(old(Contents())).0.Nothing? && input == Data([])
      ensures p.Failed? <==> Parse(old(Contents())).0.Nothing? && input.Broken?
    {
      p := ParseMessage();
      count := 0;
      if !p.Nothing? {
        return;
      }
      if buf.Length - append < NETBUF_ALLOC_SIZE {
        Extend(NETBUF_ALLOC_SIZE);
      }
      match input {
        case Blocked => return Nothing, 0;
        case Broken => return Failed, 0;
        case Data(bytes) =>
          if |bytes| == 0 {
            return Closed, 0;
          }
          count := Min(|bytes|, buf.Length - append);
          CopyIn(bytes[..count]);
      }
      p := ParseMessage();
    }

    // The socket writes at the append position.
    method CopyIn(data: seq<byte>)
      requires Valid() && append + |data| <= buf.Length
      modifies this`append, buf
      ensures Valid() && Contents() == old(Contents()) + data
    {
      PutAt(buf, append, data);
      append := append + |data|;
      assert Contents() == old(Contents()) + data;
    }
  }
}

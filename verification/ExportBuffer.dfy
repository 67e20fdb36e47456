// The queue of encoded records waiting for one mediator: a byte buffer that grows, slides and
// shrinks, is sent in batches, and keeps a sparse index of record starts to cut batches at.
module ExportBuffers {
  import opened Common

  const BUFFER_ALLOC_SIZE: nat := 1024 * 1024 * 50
  const BUF_OFFSET_FREQUENCY: nat := 1024 * 256
  const HEADER_LENGTH: nat := 16

  // An encoded message: header, encoded part and copied IP contents.
  datatype Message = Message(header: seq<byte>, encoded: seq<byte>, ipContents: seq<byte>)

  function Whole(m: Message): seq<byte> {
    m.header + m.encoded + m.ipContents
  }

  // What the socket did with an offered batch.
  datatype Reply = Refused | Again | Accepted(count: nat)

  // What may happen to a buffer.
  datatype Op =
    | Pdu(pdu: seq<byte>)
    | Encoded(message: Message)
    | Send(byteLimit: nat, reply: Reply)
    | Restart
    | Resume

  predicate WellFormed(op: Op) {
    op.Encoded? ==> |op.message.header| == HEADER_LENGTH
  }

  predicate AllWellFormed(ops: seq<Op>) {
    forall i :: 0 <= i < |ops| ==> WellFormed(ops[i])
  }

  // Records are shorter than 256 KiB, batches may be that long, and reconnections go through
  // reset_export_buffer.
  predicate Bounded(op: Op) {
    match op
    case Pdu(pdu) => |pdu| < BUF_OFFSET_FREQUENCY
    case Encoded(m) => |Whole(m)| < BUF_OFFSET_FREQUENCY
    case Send(byteLimit, _) => BUF_OFFSET_FREQUENCY <= byteLimit
    case Restart => true
    case Resume => false
  }

  predicate AllBounded(ops: seq<Op>) {
    forall i :: 0 <= i < |ops| ==> Bounded(ops[i])
  }

  predicate OneConnection(ops: seq<Op>) {
    forall i :: 0 <= i < |ops| ==> !ops[i].Restart? && !ops[i].Resume?
  }

  function Data(op: Op): seq<byte> {
    match op
    case Pdu(pdu) => pdu
    case Encoded(m) => Whole(m)
    case _ => []
  }

  function AllData(ops: seq<Op>): seq<byte> {
    if ops == [] then [] else AllData(ops[..|ops| - 1]) + Data(ops[|ops| - 1])
  }

  lemma AllDataNext(all: seq<byte>, ops: seq<Op>, n: nat)
    requires n < |ops|
    ensures all + AllData(ops[..n + 1]) == all + AllData(ops[..n]) + Data(ops[n])
  {
    assert ops[..n + 1][..n] == ops[..n];
    assert all + (AllData(ops[..n]) + Data(ops[n])) == all + AllData(ops[..n]) + Data(ops[n]);
  }

  // ---- The index of record starts ----

  // What is left of the index after the first `slide` bytes are dropped.
  function Slid(offsets: set<nat>, slide: nat, amount: nat): set<nat> {
    if amount == 0 then {} else set o | o in offsets && slide <= o :: o - slide
  }

  function One(n: nat): set<nat> {
    {n}
  }

  // What one offset becomes.
  function Lowered(o: nat, slide: nat): set<nat> {
    if slide <= o then {o - slide} else {}
  }

  ghost predicate Marked(offsets: set<nat>, x: nat, limit: nat) {
    exists o :: o in offsets && x < o <= x + limit
  }

  // Records at least every 256 KiB are marked from `dead` on, and the latest mark is `since`
  // bytes back unless it has been sent.
  ghost predicate Dense(offsets: set<nat>, dead: nat, tail: nat, since: nat) {
    && since < BUF_OFFSET_FREQUENCY
    && (tail - since > dead ==> tail - since in offsets)
    && (forall x :: dead <= x && x + BUF_OFFSET_FREQUENCY <= tail ==> Marked(offsets, x, BUF_OFFSET_FREQUENCY))
  }

  lemma SlidDense(offsets: set<nat>, dead: nat, tail: nat, since: nat)
    requires Dense(offsets, dead, tail, since) && dead <= tail
    ensures Dense(Slid(offsets, dead, tail - dead), 0, tail - dead, since)
  {
    var slid := Slid(offsets, dead, tail - dead);
    if tail - dead > since {
      assert tail - since in offsets;
      assert (tail - since) - dead in slid;
    }
    forall x: nat | x + BUF_OFFSET_FREQUENCY <= tail - dead ensures Marked(slid, x, BUF_OFFSET_FREQUENCY) {
      assert Marked(offsets, x + dead, BUF_OFFSET_FREQUENCY);
      var o :| o in offsets && x + dead < o <= x + dead + BUF_OFFSET_FREQUENCY;
      assert o - dead in slid;
    }
  }

  // Appending `len` bytes, marking the record when 256 KiB have come since the last mark.
  lemma AppendedDense(offsets: set<nat>, dead: nat, tail: nat, since: nat, len: nat)
    requires Dense(offsets, dead, tail, since) && dead <= tail && len < BUF_OFFSET_FREQUENCY
    ensures if since + len >= BUF_OFFSET_FREQUENCY then Dense(offsets + {tail}, dead, tail + len, len)
            else Dense(offsets, dead, tail + len, since + len)
  {
    var marks := since + len >= BUF_OFFSET_FREQUENCY;
    var offsets' := if marks then offsets + {tail} else offsets;
    var last := if marks then tail else tail - since;
    forall x | dead <= x && x + BUF_OFFSET_FREQUENCY <= tail + len
      ensures Marked(offsets', x, BUF_OFFSET_FREQUENCY)
    {
      if x + BUF_OFFSET_FREQUENCY <= tail {
        assert Marked(offsets, x, BUF_OFFSET_FREQUENCY);
        var o :| o in offsets && x < o <= x + BUF_OFFSET_FREQUENCY;
        assert o in offsets';
      } else {
        assert last in offsets' && x < last <= x + BUF_OFFSET_FREQUENCY;
      }
    }
  }

  // Every mark is the start of a record, or the end of the last one.
  ghost predicate OnRecords(offsets: set<nat>, base: nat, starts: set<nat>, end: nat) {
    forall o :: o in offsets ==> base + o in starts || base + o == end
  }

  // A place where a batch may be cut.
  ghost predicate Cut(starts: set<nat>, end: nat, p: nat) {
    p in starts || p == end
  }

  // The index of a buffer, with what it depends on: where the unsent bytes and the free space
  // begin, the position of the buffer's first byte in all that was appended, and where in that
  // the records start.
  datatype Index = Index(offsets: set<nat>, since: nat, dead: nat, tail: nat, base: nat, starts: set<nat>)

  // A batch of n bytes may be cut here.
  ghost predicate CutAt(ix: Index, n: nat) {
    Cut(ix.starts, ix.base + ix.tail, ix.base + ix.dead + n)
  }

  // Every mark is a record boundary, and no record starts past the end.
  ghost predicate Exact(ix: Index) {
    && OnRecords(ix.offsets, ix.base, ix.starts, ix.base + ix.tail)
    && (forall p :: p in ix.starts ==> p <= ix.base + ix.tail)
  }

  ghost predicate Indexed(ix: Index) {
    && Dense(ix.offsets, ix.dead, ix.tail, ix.since) && Exact(ix)
    && ix.dead <= ix.tail && CutAt(ix, 0)
  }

  // A batch of `front` bytes ends at a record boundary.
  ghost predicate Cuttable(ix: Index, front: nat) {
    Indexed(ix) && CutAt(ix, front)
  }

  ghost function SlideIndex(ix: Index): Index
    requires ix.dead <= ix.tail
  {
    Index(Slid(ix.offsets, ix.dead, ix.tail - ix.dead), ix.since, 0, ix.tail - ix.dead, ix.base + ix.dead, ix.starts)
  }

  // Appending `len` bytes to a buffer of `room` makes extend_buffer slide out what was sent.
  ghost predicate Slides(ix: Index, room: nat, len: nat) {
    room < ix.tail + len && ix.dead > 0
  }

  // What the index becomes while room is made, ...
  ghost function ReserveIndex(ix: Index, room: nat, len: nat): Index
    requires ix.dead <= ix.tail
  {
    if Slides(ix, room, len) then SlideIndex(ix) else ix
  }

  // ... and when the last `len` bytes are made a record, marked at `bufUsed` if it is time.
  ghost function MarkIndex(ix: Index, bufUsed: nat, len: nat): Index
    requires len <= ix.tail
  {
    var marks := ix.since + len >= BUF_OFFSET_FREQUENCY;
    ix.(offsets := if marks then ix.offsets + One(bufUsed) else ix.offsets,
        since := if marks then len else ix.since + len,
        starts := ix.starts + One(ix.base + ix.tail - len))
  }

  ghost function AppendIndex(ix: Index, room: nat, len: nat): Index
    requires ix.dead <= ix.tail
  {
    var ix1 := ReserveIndex(ix, room, len);
    MarkIndex(ix1.(tail := ix1.tail + len), ix.tail, len)
  }

  lemma SlideKeepsExact(ix: Index)
    requires Exact(ix) && ix.dead <= ix.tail
    ensures Exact(SlideIndex(ix))
  {
  }

  lemma SlideKeepsIndex(ix: Index)
    requires ix.dead <= ix.tail
    ensures Indexed(ix) ==> Indexed(SlideIndex(ix))
  {
    if Indexed(ix) { SlidDense(ix.offsets, ix.dead, ix.tail, ix.since); }
  }

  // An append that slides marks the record where it would have been without the slide, which
  // is a boundary only if as many bytes were slid out as the record is long.
  lemma MarkExact(ix: Index, room: nat, len: nat)
    requires Exact(ix) && ix.dead <= ix.tail
    ensures Exact(AppendIndex(ix, room, len)) <==>
      !(ix.since + len >= BUF_OFFSET_FREQUENCY && Slides(ix, room, len) && ix.dead != len)
  {
    var ix', end := AppendIndex(ix, room, len), ix.base + ix.tail;
    if Slides(ix, room, len) { SlideKeepsExact(ix); }
    if ix.since + len >= BUF_OFFSET_FREQUENCY {
      assert ix.tail in ix'.offsets;
      if Slides(ix, room, len) && ix.dead != len {
        assert ix'.base + ix.tail == end + ix.dead;
        assert !Exact(ix');
      }
    }
  }

  // An append that marks and slides.  The index survives it only if the mark happens to fall on
  // the end of the new record and the record's start needs no mark or has one.
  ghost predicate Slips(ix: Index, room: nat, len: nat) {
    && ix.since + len >= BUF_OFFSET_FREQUENCY && Slides(ix, room, len)
    && !(ix.dead == len && (ix.tail == ix.dead || ix.tail in ix.offsets))
  }

  // A record marked, if at all, where it starts.
  lemma MarkHere(ix: Index, len: nat, front: nat)
    requires Cuttable(ix, front) && len < BUF_OFFSET_FREQUENCY
    ensures Cuttable(MarkIndex(ix.(tail := ix.tail + len), ix.tail, len), front)
  {
    AppendedDense(ix.offsets, ix.dead, ix.tail, ix.since, len);
    assert ix.base + ix.tail in One(ix.base + ix.tail);
  }

  lemma UnslidKeepsIndex(ix: Index, room: nat, len: nat, front: nat)
    requires Cuttable(ix, front) && len < BUF_OFFSET_FREQUENCY
    requires !(ix.since + len >= BUF_OFFSET_FREQUENCY && Slides(ix, room, len))
    ensures Cuttable(AppendIndex(ix, room, len), front)
  {
    UnslidMark(ix, room, len);
    if Slides(ix, room, len) { SlideKeepsCut(ix, front); }
    MarkHere(ReserveIndex(ix, room, len), len, front);
  }

  lemma SlideKeepsCut(ix: Index, front: nat)
    requires Cuttable(ix, front)
    ensures Cuttable(SlideIndex(ix), front)
  {
    SlideKeepsIndex(ix);
  }

  // What does not slide is marked where it starts, and what is not marked may slide.
  lemma UnslidMark(ix: Index, room: nat, len: nat)
    requires ix.dead <= ix.tail && !(ix.since + len >= BUF_OFFSET_FREQUENCY && Slides(ix, room, len))
    ensures var ix1 := ReserveIndex(ix, room, len);
      AppendIndex(ix, room, len) == MarkIndex(ix1.(tail := ix1.tail + len), ix1.tail, len)
  {
  }

  lemma LuckyMark(ix: Index, room: nat, len: nat, front: nat)
    requires Cuttable(ix, front) && len < BUF_OFFSET_FREQUENCY && Slides(ix, room, len)
    requires ix.since + len >= BUF_OFFSET_FREQUENCY && ix.dead == len
    ensures Cuttable(AppendIndex(ix, room, len), front) <==> ix.tail == ix.dead || ix.tail in ix.offsets
  {
    var ix1, ix' := SlideIndex(ix), AppendIndex(ix, room, len);
    SlideKeepsIndex(ix);
    MarkExact(ix, room, len);
    var start := ix.tail - ix.dead;
    assert ix'.tail == ix.tail && ix'.since == len && ix'.dead == 0;
    assert start > 0 ==> (start in ix'.offsets <==> ix.tail in ix.offsets);
    if ix.tail == ix.dead || ix.tail in ix.offsets {
      forall x: nat | x + BUF_OFFSET_FREQUENCY <= ix'.tail ensures Marked(ix'.offsets, x, BUF_OFFSET_FREQUENCY) {
        if x + BUF_OFFSET_FREQUENCY <= start {
          assert Marked(ix1.offsets, x, BUF_OFFSET_FREQUENCY);
          var o :| o in ix1.offsets && x < o <= x + BUF_OFFSET_FREQUENCY;
          assert o in ix'.offsets;
        } else {
          assert start in ix'.offsets;
        }
      }
    }
  }

  // Exactly which appends keep the index in order.
  lemma AppendKeepsIndex(ix: Index, room: nat, len: nat, front: nat)
    requires Cuttable(ix, front)
    ensures Cuttable(AppendIndex(ix, room, len), front) <==> len < BUF_OFFSET_FREQUENCY && !Slips(ix, room, len)
  {
    if len < BUF_OFFSET_FREQUENCY {
      if ix.since + len >= BUF_OFFSET_FREQUENCY && Slides(ix, room, len) {
        if ix.dead == len { LuckyMark(ix, room, len, front); } else { MarkExact(ix, room, len); }
      } else {
        UnslidKeepsIndex(ix, room, len, front);
      }
    }
  }

  // ---- What a run does to the index ----

  // A buffer without its bytes: its index, its size, and how much of a batch was sent and is left.
  datatype State = State(ix: Index, room: nat, front: nat, rem: nat)

  ghost predicate Sane(s: State) {
    s.ix.dead + s.front + s.rem <= s.ix.tail && (s.front > 0 ==> s.rem > 0)
  }

  // Batches, those partly sent included, end at record boundaries.
  ghost predicate Good(s: State) {
    Cuttable(s.ix, s.front + s.rem)
  }

  ghost function Initial(): State {
    State(Index({}, 0, 0, 0, 0, {}), 0, 0, 0)
  }

  // The size after enough calls of extend_buffer.
  function Grown(room: nat, tail: nat, len: nat): nat
    decreases tail + len - room
  {
    if room < tail + len then Grown(room + BUFFER_ALLOC_SIZE, tail, len) else room
  }

  function Reserved(dead: nat, tail: nat, room: nat, len: nat): nat
    requires dead <= tail
  {
    if room < tail + len then Grown(room + BUFFER_ALLOC_SIZE, tail - dead, len) else room
  }

  ghost function Append(s: State, len: nat): State
    requires Sane(s)
  {
    State(AppendIndex(s.ix, s.room, len), Reserved(s.ix.dead, s.ix.tail, s.room, len), s.front, s.rem)
  }

  // When to shrink the buffer, and when to slide in place.
  predicate TooLarge(dead: nat, tail: nat, room: nat) {
    tail - dead < room / 2 && room > 10 * BUFFER_ALLOC_SIZE
  }

  predicate TooFull(dead: nat, tail: nat, room: nat) {
    4 * (room - tail) < room && 4 * dead >= room
  }

  // post_transmit
  ghost function Post(ix: Index, room: nat): State
    requires ix.dead <= ix.tail
  {
    if TooLarge(ix.dead, ix.tail, room) then
      State(SlideIndex(ix), ((ix.tail - ix.dead) / BUFFER_ALLOC_SIZE + 1) * BUFFER_ALLOC_SIZE, 0, 0)
    else if TooFull(ix.dead, ix.tail, room) then State(SlideIndex(ix), room, 0, 0)
    else State(ix, room, 0, 0)
  }

  // n bytes have been handed on whole.
  ghost function Handed(ix: Index, room: nat, n: nat): State
    requires ix.dead + n <= ix.tail
  {
    Post(ix.(dead := ix.dead + n), room)
  }

  // The greatest mark up to x.
  ghost predicate Latest(offsets: set<nat>, x: nat, mark: nat) {
    mark in offsets && mark <= x && forall o :: o in offsets && o <= x ==> o <= mark
  }

  lemma {:induction false} LatestExists(offsets: set<nat>, x: nat)
    ensures (exists mark: nat :: Latest(offsets, x, mark)) <==> exists o :: o in offsets && o <= x
  {
    if x in offsets {
      assert Latest(offsets, x, x);
    } else if exists o :: o in offsets && o <= x {
      var o :| o in offsets && o <= x;
      LatestExists(offsets, x - 1);
      assert o <= x - 1;
      var mark: nat :| Latest(offsets, x - 1, mark);
      assert Latest(offsets, x, mark);
    }
  }

  // What transmit_buffered_records finds to send: a batch; no mark to cut one at, where it fails
  // an assertion; or only marks before the unsent bytes, where the size of the batch wraps around
  // and is stored and offered all the same.  The model stops at the last two.
  datatype Choice = Batch(sent: nat) | NoMark | Behind(mark: nat)

  ghost function Choose(s: State, byteLimit: nat): (c: Choice)
    requires Sane(s)
    ensures c.Batch? ==> s.ix.dead + s.front + c.sent <= s.ix.tail && (s.front > 0 ==> c.sent > 0)
    ensures s.rem > 0 ==> c == Batch(s.rem)
    ensures s.rem == 0 && s.ix.tail <= s.ix.dead + byteLimit ==> c == Batch(s.ix.tail - s.ix.dead)
    ensures s.rem == 0 && s.ix.dead + byteLimit < s.ix.tail ==>
      match c
      case NoMark => forall o :: o in s.ix.offsets ==> s.ix.dead + byteLimit < o
      case Behind(mark) => mark < s.ix.dead && Latest(s.ix.offsets, s.ix.dead + byteLimit, mark)
      case Batch(sent) => Latest(s.ix.offsets, s.ix.dead + byteLimit, s.ix.dead + sent)
  {
    if s.rem > 0 then Batch(s.rem)
    else if s.ix.tail <= s.ix.dead + byteLimit then Batch(s.ix.tail - s.ix.dead)
    else
      var x := s.ix.dead + byteLimit;
      LatestExists(s.ix.offsets, x);
      if mark: nat :| Latest(s.ix.offsets, x, mark) then
        if mark < s.ix.dead then Behind(mark) else Batch(mark - s.ix.dead)
      else NoMark
  }

  // What becomes of the batch.
  ghost function Offered(s: State, sent: nat, reply: Reply): (s': State)
    requires Sane(s) && s.ix.dead + s.front + sent <= s.ix.tail
    requires s.front > 0 ==> sent > 0
    ensures Sane(s')
  {
    if sent == 0 then Post(s.ix, s.room)
    else if !reply.Accepted? then s.(rem := sent)
    else if reply.count < sent then s.(front := s.front + reply.count, rem := sent - reply.count)
    else Handed(s.ix, s.room, s.front + sent)
  }

  lemma OfferedSame(s: State, sent: nat, reply: Reply)
    requires Sane(s) && s.ix.dead + s.front + sent <= s.ix.tail && (s.front > 0 ==> sent > 0)
    ensures Offered(s.(rem := sent), sent, reply) == Offered(s, sent, reply)
  {
  }

  // One step of a run; none where transmit_buffered_records has nothing to send.
  ghost function Step(s: State, op: Op): (r: Option<State>)
    requires Sane(s)
    ensures r.Some? ==> Sane(r.value)
  {
    match op
    case Pdu(pdu) => Some(Append(s, |pdu|))
    case Encoded(m) => Some(Append(s, |Whole(m)|))
    case Send(byteLimit, reply) =>
      var c := Choose(s, byteLimit);
      if c.Batch? then Some(Offered(s, c.sent, reply)) else None
    case Restart => Some(s.(front := 0, rem := 0))
    case Resume => Some(s.(front := 0))
  }

  ghost function After(s: State, ops: seq<Op>): (r: Option<State>)
    requires Sane(s)
    ensures r.Some? ==> Sane(r.value)
  {
    if ops == [] then Some(s)
    else
      var t := After(s, ops[..|ops| - 1]);
      if t.None? then None else Step(t.value, ops[|ops| - 1])
  }

  lemma AfterNext(s: State, ops: seq<Op>, n: nat)
    requires Sane(s) && n < |ops|
    ensures After(s, ops[..n + 1]) == var t := After(s, ops[..n]); if t.None? then None else Step(t.value, ops[n])
  {
    assert ops[..n + 1][..n] == ops[..n];
  }

  // A run that stops does so for good.
  lemma {:induction false} Stopped(s: State, ops: seq<Op>, n: nat)
    requires Sane(s) && n <= |ops| && After(s, ops[..n]).None?
    ensures After(s, ops).None?
    decreases |ops| - n
  {
    if n == |ops| {
      assert ops[..n] == ops;
    } else {
      AfterNext(s, ops, n);
      Stopped(s, ops, n + 1);
    }
  }

  // ---- When a run keeps the index in order ----

  lemma PostKeepsIndex(ix: Index, room: nat)
    requires ix.dead <= ix.tail
    ensures CutAt(Post(ix, room).ix, 0) <==> CutAt(ix, 0)
    ensures Indexed(ix) ==> Good(Post(ix, room))
  {
    SlideKeepsIndex(ix);
  }

  lemma AdvanceIndex(ix: Index, n: nat)
    requires Indexed(ix) && ix.dead + n <= ix.tail
    ensures Indexed(ix.(dead := ix.dead + n)) <==> CutAt(ix, n)
  {
  }

  // Sending n bytes keeps it exactly if they end at a record boundary.
  lemma SendKeepsIndex(ix: Index, room: nat, n: nat)
    requires Indexed(ix) && ix.dead + n <= ix.tail
    ensures Good(Handed(ix, room, n)) <==> CutAt(ix, n)
  {
    AdvanceIndex(ix, n);
    PostKeepsIndex(ix.(dead := ix.dead + n), room);
  }

  // The steps that keep it.
  ghost predicate Keeps(s: State, op: Op)
    requires Sane(s)
  {
    match op
    case Pdu(pdu) => |pdu| < BUF_OFFSET_FREQUENCY && !Slips(s.ix, s.room, |pdu|)
    case Encoded(m) => |Whole(m)| < BUF_OFFSET_FREQUENCY && !Slips(s.ix, s.room, |Whole(m)|)
    case Send(byteLimit, _) => Choose(s, byteLimit).Batch?
    case Restart => true
    case Resume => CutAt(s.ix, s.rem)
  }

  // A batch chosen in a buffer that is in order ends at a record boundary.
  lemma ChoiceCut(s: State, byteLimit: nat)
    requires Sane(s) && Good(s) && Choose(s, byteLimit).Batch?
    ensures CutAt(s.ix, s.front + Choose(s, byteLimit).sent)
  {
  }

  lemma OfferedGood(s: State, sent: nat, reply: Reply)
    requires Sane(s) && Indexed(s.ix) && s.ix.dead + s.front + sent <= s.ix.tail && (s.front > 0 ==> sent > 0)
    requires CutAt(s.ix, s.front + sent)
    ensures Good(Offered(s, sent, reply))
  {
    if sent == 0 {
      PostKeepsIndex(s.ix, s.room);
    } else if reply.Accepted? && sent <= reply.count {
      OfferedWhole(s, sent, reply);
    } else {
      OfferedPart(s, sent, reply);
    }
  }

  lemma OfferedWhole(s: State, sent: nat, reply: Reply)
    requires Sane(s) && Indexed(s.ix) && s.ix.dead + s.front + sent <= s.ix.tail && CutAt(s.ix, s.front + sent)
    requires reply.Accepted? && 0 < sent <= reply.count
    ensures Good(Offered(s, sent, reply))
  {
    SendKeepsIndex(s.ix, s.room, s.front + sent);
    assert Offered(s, sent, reply) == Handed(s.ix, s.room, s.front + sent);
  }

  lemma OfferedPart(s: State, sent: nat, reply: Reply)
    requires Sane(s) && Indexed(s.ix) && s.ix.dead + s.front + sent <= s.ix.tail && CutAt(s.ix, s.front + sent)
    requires sent > 0 && (reply.Accepted? ==> reply.count < sent)
    ensures Good(Offered(s, sent, reply))
  {
    var s' := Offered(s, sent, reply);
    assert s'.ix == s.ix && s'.front + s'.rem == s.front + sent;
  }

  lemma SendGood(s: State, byteLimit: nat, reply: Reply)
    requires Sane(s) && Good(s) && Choose(s, byteLimit).Batch?
    ensures Good(Offered(s, Choose(s, byteLimit).sent, reply))
  {
    ChoiceCut(s, byteLimit);
    OfferedGood(s, Choose(s, byteLimit).sent, reply);
  }

  lemma AppendGood(s: State, len: nat)
    requires Sane(s) && Good(s)
    ensures Good(Append(s, len)) <==> len < BUF_OFFSET_FREQUENCY && !Slips(s.ix, s.room, len)
  {
    AppendKeepsIndex(s.ix, s.room, len, s.front + s.rem);
  }

  lemma StepGood(s: State, op: Op)
    requires Sane(s) && Good(s)
    ensures Step(s, op).Some? && Good(Step(s, op).value) <==> Keeps(s, op)
  {
    match op
    case Pdu(pdu) => AppendGood(s, |pdu|);
    case Encoded(m) => AppendGood(s, |Whole(m)|);
    case Send(byteLimit, reply) => if Choose(s, byteLimit).Batch? { SendGood(s, byteLimit, reply); }
    case Restart =>
    case Resume =>
  }

  ghost predicate GoodThroughout(s: State, ops: seq<Op>)
    requires Sane(s)
  {
    && After(s, ops).Some? && Good(After(s, ops).value)
    && (ops != [] ==> GoodThroughout(s, ops[..|ops| - 1]))
  }

  ghost predicate AllKeep(s: State, ops: seq<Op>)
    requires Sane(s)
  {
    ops != [] ==>
      var n := |ops| - 1;
      AllKeep(s, ops[..n]) && After(s, ops[..n]).Some? && Keeps(After(s, ops[..n]).value, ops[n])
  }

  // A run never stops and cuts all its batches at record boundaries if and only if each of its
  // steps keeps the index in order.
  lemma {:induction false} RunGood(s: State, ops: seq<Op>)
    requires Sane(s) && Good(s)
    ensures GoodThroughout(s, ops) <==> AllKeep(s, ops)
  {
    if ops != [] {
      var n := |ops| - 1;
      RunGood(s, ops[..n]);
      if GoodThroughout(s, ops[..n]) { StepGood(After(s, ops[..n]).value, ops[n]); }
    }
  }

  // Records shorter than 256 KiB leave a mark within every 256 KiB, so a batch that long can be
  // cut, and is not empty.
  lemma BatchExists(s: State, byteLimit: nat)
    requires Sane(s) && Good(s) && BUF_OFFSET_FREQUENCY <= byteLimit
    ensures Choose(s, byteLimit).Batch? && (s.ix.dead < s.ix.tail ==> Choose(s, byteLimit).sent > 0)
  {
    if s.rem == 0 && s.ix.tail > s.ix.dead + byteLimit {
      assert Marked(s.ix.offsets, s.ix.dead, BUF_OFFSET_FREQUENCY);
      var o :| o in s.ix.offsets && s.ix.dead < o <= s.ix.dead + BUF_OFFSET_FREQUENCY;
      assert o <= s.ix.dead + byteLimit;
    }
  }

  ghost predicate NeverSlips(s: State, ops: seq<Op>)
    requires Sane(s)
  {
    ops != [] ==>
      var t := After(s, ops[..|ops| - 1]);
      NeverSlips(s, ops[..|ops| - 1]) && t.Some? && !Slips(t.value.ix, t.value.room, |Data(ops[|ops| - 1])|)
  }

  // For bounded steps only the slips are left.
  lemma {:induction false} BoundedRun(s: State, ops: seq<Op>)
    requires Sane(s) && Good(s) && AllBounded(ops)
    ensures GoodThroughout(s, ops) <==> NeverSlips(s, ops)
  {
    if ops != [] {
      var n := |ops| - 1;
      BoundedRun(s, ops[..n]);
      if GoodThroughout(s, ops[..n]) {
        BoundedStep(After(s, ops[..n]).value, ops[n]);
      }
    }
  }

  lemma BoundedStep(s: State, op: Op)
    requires Sane(s) && Good(s) && Bounded(op)
    ensures Step(s, op).Some? && Good(Step(s, op).value) <==> !Slips(s.ix, s.room, |Data(op)|)
  {
    StepGood(s, op);
    if op.Send? { BatchExists(s, op.byteLimit); }
  }

  // ---- Buffers that are published ----

  datatype Pub = Put(pdu: seq<byte>) | Emit(byteLimit: nat, published: bool)

  function PubData(op: Pub): seq<byte> {
    if op.Put? then op.pdu else []
  }

  function AllPubData(ops: seq<Pub>): seq<byte> {
    if ops == [] then [] else AllPubData(ops[..|ops| - 1]) + PubData(ops[|ops| - 1])
  }

  // How many bytes go.
  ghost function Emitted(s: State, op: Pub): nat
    requires Sane(s) && op.Emit?
  {
    if op.published then Min(s.ix.tail - s.ix.dead, op.byteLimit) else 0
  }

  ghost function PubStep(s: State, op: Pub): (s': State)
    requires Sane(s) && s.front == 0
    ensures Sane(s') && s'.front == 0
  {
    match op
    case Put(pdu) => Append(s, |pdu|)
    case Emit(_, _) => Handed(s.ix, s.room, Emitted(s, op))
  }

  ghost function PubAfter(s: State, ops: seq<Pub>): (s': State)
    requires Sane(s) && s.front == 0
    ensures Sane(s') && s'.front == 0
  {
    if ops == [] then s else PubStep(PubAfter(s, ops[..|ops| - 1]), ops[|ops| - 1])
  }

  lemma PubNext(s: State, all: seq<byte>, ops: seq<Pub>, n: nat)
    requires Sane(s) && s.front == 0 && n < |ops|
    ensures PubAfter(s, ops[..n + 1]) == PubStep(PubAfter(s, ops[..n]), ops[n])
    ensures all + AllPubData(ops[..n + 1]) == all + AllPubData(ops[..n]) + PubData(ops[n])
  {
    assert ops[..n + 1][..n] == ops[..n];
    assert all + (AllPubData(ops[..n]) + PubData(ops[n])) == all + AllPubData(ops[..n]) + PubData(ops[n]);
  }

  ghost predicate PubKeeps(s: State, op: Pub)
    requires Sane(s)
  {
    match op
    case Put(pdu) => |pdu| < BUF_OFFSET_FREQUENCY && !Slips(s.ix, s.room, |pdu|)
    case Emit(_, _) => CutAt(s.ix, Emitted(s, op))
  }

  ghost predicate PubGoodThroughout(s: State, ops: seq<Pub>)
    requires Sane(s) && s.front == 0
  {
    Good(PubAfter(s, ops)) && (ops != [] ==> PubGoodThroughout(s, ops[..|ops| - 1]))
  }

  ghost predicate AllPubKeep(s: State, ops: seq<Pub>)
    requires Sane(s) && s.front == 0
  {
    ops != [] ==>
      var n := |ops| - 1;
      AllPubKeep(s, ops[..n]) && PubKeeps(PubAfter(s, ops[..n]), ops[n])
  }

  // Such a run begins and ends its messages at record boundaries if and only if each append keeps
  // the index and each limit falls on a boundary.
  lemma {:induction false} PubGood(s: State, ops: seq<Pub>)
    requires Sane(s) && s.front == 0 && Good(s)
    ensures PubGoodThroughout(s, ops) <==> AllPubKeep(s, ops)
  {
    hide Good, Slips, CutAt, PubStep;
    if ops != [] {
      var n := |ops| - 1;
      PubGood(s, ops[..n]);
      var t := PubAfter(s, ops[..n]);
      if Good(t) { PubStepGood(t, ops[n]); }
    }
  }

  lemma PubStepGood(s: State, op: Pub)
    requires Sane(s) && s.front == 0 && Good(s)
    ensures Good(PubStep(s, op)) <==> PubKeeps(s, op)
  {
    match op
    case Put(pdu) => AppendGood(s, |pdu|);
    case Emit(_, _) => SendKeepsIndex(s.ix, s.room, Emitted(s, op));
  }

  // ---- A mark that is no record boundary ----

  const BLOCK: nat := BUF_OFFSET_FREQUENCY - 1

  // Five bytes appended and sent, and then n records just short of 256 KiB.
  function FillOps(a: seq<byte>, block: seq<byte>, n: nat): seq<Op> {
    [Pdu(a), Send(BUF_OFFSET_FREQUENCY, Accepted(5))] + seq(n, _ => Pdu(block))
  }

  ghost predicate Filled(s: State, n: nat) {
    && Sane(s) && Good(s) && s.front == 0 && s.rem == 0 && s.room == BUFFER_ALLOC_SIZE
    && s.ix.dead == 5 && s.ix.tail == 5 + n * BLOCK && s.ix.since == if n == 0 then 5 else BLOCK
  }

  lemma FirstAppended()
    ensures var s := Append(Initial(), 5);
      && Good(s) && s.front == 0 && s.rem == 0 && s.room == BUFFER_ALLOC_SIZE
      && s.ix.dead == 0 && s.ix.tail == 5 && s.ix.since == 5
  {
    AppendGood(Initial(), 5);
  }

  lemma FirstSent(s: State)
    requires Sane(s) && Good(s) && s.front == 0 && s.rem == 0 && s.room == BUFFER_ALLOC_SIZE
    requires s.ix.dead == 0 && s.ix.tail == 5 && s.ix.since == 5
    ensures Filled(Offered(s, 5, Accepted(5)), 0)
  {
    SendGood(s, BUF_OFFSET_FREQUENCY, Accepted(5));
  }

  lemma AfterTwo(s: State, a: seq<byte>, byteLimit: nat, reply: Reply, t: State)
    requires Sane(s) && t == Append(s, |a|) && t.rem == 0 && t.ix.dead == 0 && t.ix.tail == 5 <= byteLimit
    ensures After(s, [Pdu(a), Send(byteLimit, reply)]) == Some(Offered(t, 5, reply))
  {
    var ops := [Pdu(a), Send(byteLimit, reply)];
    AfterNext(s, ops, 0);
    AfterNext(s, ops, 1);
    assert ops[..0] == [] && ops[..2] == ops;
    assert Choose(t, byteLimit) == Batch(5);
  }

  lemma FillFirst(s: State, a: seq<byte>, block: seq<byte>, t: State)
    requires Sane(s) && t == Append(s, |a|) && t.rem == 0 && t.ix.dead == 0 && t.ix.tail == 5
    ensures After(s, FillOps(a, block, 0)) == Some(Offered(t, 5, Accepted(5)))
  {
    assert FillOps(a, block, 0) == [Pdu(a), Send(BUF_OFFSET_FREQUENCY, Accepted(5))];
    AfterTwo(s, a, BUF_OFFSET_FREQUENCY, Accepted(5), t);
  }

  lemma FillStart(a: seq<byte>, block: seq<byte>) returns (s: State)
    requires |a| == 5
    ensures After(Initial(), FillOps(a, block, 0)) == Some(s) && Filled(s, 0)
  {
    FirstAppended();
    FillFirst(Initial(), a, block, Append(Initial(), 5));
    FirstSent(Append(Initial(), 5));
    s := Offered(Append(Initial(), 5), 5, Accepted(5));
  }

  lemma FillNext(s: State, n: nat)
    requires Filled(s, n) && n < 200
    ensures Filled(Append(s, BLOCK), n + 1)
  {
    AppendGood(s, BLOCK);
    assert (n + 1) * BLOCK == n * BLOCK + BLOCK;
  }

  lemma FilledAfter(a: seq<byte>, block: seq<byte>, n: nat, s: State)
    requires 0 < n && Sane(s) && After(Initial(), FillOps(a, block, n - 1)) == Some(s)
    ensures After(Initial(), FillOps(a, block, n)) == Some(Append(s, |block|))
  {
    var ops := FillOps(a, block, n);
    assert ops[..|ops| - 1] == FillOps(a, block, n - 1);
  }

  lemma {:induction false} Fill(a: seq<byte>, block: seq<byte>, n: nat) returns (s: State)
    requires |a| == 5 && |block| == BLOCK && n <= 200
    ensures After(Initial(), FillOps(a, block, n)) == Some(s) && Filled(s, n)
  {
    if n == 0 {
      s := FillStart(a, block);
    } else {
      var t := Fill(a, block, n - 1);
      FilledAfter(a, block, n, t);
      FillNext(t, n - 1);
      s := Append(t, |block|);
    }
  }

  lemma FillBounded(a: seq<byte>, block: seq<byte>, n: nat)
    requires |a| == 5 && |block| == BLOCK
    ensures AllBounded(FillOps(a, block, n)) && AllWellFormed(FillOps(a, block, n))
  {
  }

  // The record that no longer fits slides the five bytes out, and its mark lies five bytes past
  // its start.
  lemma MarkPast(s: State)
    requires Filled(s, 200)
    ensures var ix := Append(s, BLOCK).ix;
      s.ix.tail in ix.offsets && !Cut(ix.starts, ix.base + ix.tail, ix.base + s.ix.tail) && !Exact(ix)
  {
    var ix := Append(s, BLOCK).ix;
    assert ix.base + s.ix.tail == s.ix.base + s.ix.tail + 5;
    assert s.ix.tail in One(s.ix.tail);
  }

  // A bounded run from the start whose index marks the middle of a record.
  lemma MisplacedMark(a: seq<byte>, block: seq<byte>)
    requires |a| == 5 && |block| == BLOCK
    ensures AllBounded(FillOps(a, block, 201)) && After(Initial(), FillOps(a, block, 201)).Some?
    ensures var ix := After(Initial(), FillOps(a, block, 201)).value.ix;
      && 5 + 200 * BLOCK in ix.offsets && !Cut(ix.starts, ix.base + ix.tail, ix.base + (5 + 200 * BLOCK))
      && !Exact(ix)
  {
    FillBounded(a, block, 201);
    var s := Fill(a, block, 200);
    FilledAfter(a, block, 201, s);
    MarkPast(s);
  }

  // ---- Reconnecting in the middle of a batch ----

  lemma ResumedState(s: State, reply: Reply)
    requires Sane(s) && s.front == 0 && s.rem == 0 && s.ix.dead == 0 && s.ix.tail == 5
    requires reply.Accepted? && reply.count < 5
    ensures Step(Offered(s, 5, reply), Resume) == Some(s.(rem := 5 - reply.count))
  {
  }

  lemma ResumedAfter(s: State, a: seq<byte>, t: State)
    requires Sane(s) && t == Append(s, |a|) && t.front == 0 && t.rem == 0 && t.ix.dead == 0 && t.ix.tail == 5
    ensures After(s, [Pdu(a), Send(BUF_OFFSET_FREQUENCY, Accepted(2))] + [Resume]) == Some(t.(rem := 3))
  {
    var ops := [Pdu(a), Send(BUF_OFFSET_FREQUENCY, Accepted(2))];
    AfterTwo(s, a, BUF_OFFSET_FREQUENCY, Accepted(2), t);
    ResumedState(t, Accepted(2));
    assert (ops + [Resume])[..2] == ops;
  }

  // Five bytes, two of them sent before the connection is lost: the next one is offered the first
  // three, which is no whole record.
  lemma ResumedMidRecord(a: seq<byte>) returns (s: State)
    requires |a| == 5
    ensures After(Initial(), [Pdu(a), Send(BUF_OFFSET_FREQUENCY, Accepted(2))] + [Resume]) == Some(s)
    ensures s.ix.dead == 0 && s.front == 0 && s.rem == 3 && !Good(s)
  {
    FirstAppended();
    s := ResumedFrom(Initial(), a, Append(Initial(), 5));
  }

  lemma ResumedFrom(s0: State, a: seq<byte>, t: State) returns (s: State)
    requires Sane(s0) && s0.ix.starts == {} && s0.ix.base == 0 && s0.ix.dead == 0 && s0.ix.tail == 0
    requires t == Append(s0, |a|) && t.front == 0 && t.rem == 0 && t.ix.dead == 0 && t.ix.tail == 5
    ensures After(s0, [Pdu(a), Send(BUF_OFFSET_FREQUENCY, Accepted(2))] + [Resume]) == Some(s)
    ensures s.ix.dead == 0 && s.front == 0 && s.rem == 3 && !Good(s)
  {
    AppendStarts(s0, |a|);
    ResumedAfter(s0, a, t);
    s := t.(rem := 3);
    MidRecord(s);
  }

  // A record starts where the last one ended.
  lemma AppendStarts(s: State, len: nat)
    requires Sane(s)
    ensures var ix := Append(s, len).ix;
      && ix.base + ix.dead == s.ix.base + s.ix.dead
      && forall p :: p in ix.starts <==> p in s.ix.starts || p == s.ix.base + s.ix.tail
  {
  }

  lemma MidRecord(s: State)
    requires (forall p :: p in s.ix.starts ==> p == 0) && s.ix.base == 0 && s.ix.dead == 0 && s.ix.tail == 5
    requires s.front == 0 && s.rem == 3
    ensures !Good(s)
  {
    assert !CutAt(s.ix, 3);
  }

  // ---- Records longer than a batch ----

  // The only mark within reach is where the unsent bytes begin.
  ghost predicate Stuck(s: State, byteLimit: nat) {
    && s.rem == 0 && s.ix.dead + byteLimit < s.ix.tail && s.ix.dead in s.ix.offsets
    && forall o :: o in s.ix.offsets ==> o <= s.ix.dead || s.ix.dead + byteLimit < o
  }

  // Then, and only then, an empty batch is chosen while there is something to send.
  lemma StuckExactly(s: State, byteLimit: nat)
    requires Sane(s) && s.ix.dead < s.ix.tail
    ensures Choose(s, byteLimit) == Batch(0) <==> Stuck(s, byteLimit)
  {
  }

  lemma StuckPost(s: State, byteLimit: nat)
    requires Sane(s) && Stuck(s, byteLimit)
    ensures Stuck(Post(s.ix, s.room), byteLimit)
  {
    var s' := Post(s.ix, s.room);
    if s'.ix.dead == 0 {
      assert s.ix.dead - s.ix.dead in s'.ix.offsets || s.ix.dead == 0;
    }
  }

  lemma StuckAppend(s: State, len: nat, byteLimit: nat)
    requires Sane(s) && Stuck(s, byteLimit)
    ensures Stuck(Append(s, len), byteLimit)
  {
    if Slides(s.ix, s.room, len) {
      assert s.ix.dead - s.ix.dead in SlideIndex(s.ix).offsets;
    }
  }

  // From there on nothing is ever sent, whatever is appended and however often it is tried.
  lemma {:induction false} StuckForever(s: State, ops: seq<Op>, byteLimit: nat)
    requires Sane(s) && Stuck(s, byteLimit)
    requires forall i :: 0 <= i < |ops| && ops[i].Send? ==> ops[i].byteLimit == byteLimit
    ensures var t := After(s, ops);
      t.Some? && Stuck(t.value, byteLimit) && t.value.ix.base + t.value.ix.dead == s.ix.base + s.ix.dead
  {
    if ops != [] {
      var n := |ops| - 1;
      StuckForever(s, ops[..n], byteLimit);
      var t := After(s, ops[..n]).value;
      StuckExactly(t, byteLimit);
      match ops[n]
      case Pdu(pdu) => StuckAppend(t, |pdu|, byteLimit);
      case Encoded(m) => StuckAppend(t, |Whole(m)|, byteLimit);
      case Send(_, _) => StuckPost(t, byteLimit);
      case _ =>
    }
  }

  // One record longer than a batch is enough.
  lemma LongRecord(pdu: seq<byte>, byteLimit: nat)
    requires BUF_OFFSET_FREQUENCY <= byteLimit < |pdu|
    ensures Stuck(Step(Initial(), Pdu(pdu)).value, byteLimit)
  {
    assert 0 in One(0);
  }

  // The first, next or previous member of the index.
  method FirstFrom(s: set<nat>, from: nat) returns (r: Option<nat>)
    ensures r.None? ==> forall x :: x in s ==> x < from
    ensures r.Some? ==> r.value in s && from <= r.value && forall x :: x in s && from <= x ==> r.value <= x
  {
    r := None;
    var rest := s;
    while rest != {}
      invariant rest <= s
      invariant r.None? ==> forall x :: x in s && x !in rest ==> x < from
      invariant r.Some? ==> r.value in s && from <= r.value
      invariant r.Some? ==> forall x :: x in s && x !in rest && from <= x ==> r.value <= x
      decreases rest
    {
      var x :| x in rest;
      if from <= x && (r.None? || x < r.value) { r := Some(x); }
      rest := rest - {x};
    }
  }

  method LastBefore(s: set<nat>, before: nat) returns (r: Option<nat>)
    ensures r.None? ==> forall x :: x in s ==> before <= x
    ensures r.Some? ==> r.value in s && r.value < before && forall x :: x in s && x < before ==> x <= r.value
  {
    r := None;
    var rest := s;
    while rest != {}
      invariant rest <= s
      invariant r.None? ==> forall x :: x in s && x !in rest ==> before <= x
      invariant r.Some? ==> r.value in s && r.value < before
      invariant r.Some? ==> forall x :: x in s && x !in rest && x < before ==> x <= r.value
      decreases rest
    {
      var x :| x in rest;
      if x < before && (r.None? || r.value < x) { r := Some(x); }
      rest := rest - {x};
    }
  }

  // The unsent part of the buffer is the rest of what was appended.
  ghost predicate Holds(b: seq<byte>, dead: nat, tail: nat, all: seq<byte>, base: nat) {
    && dead <= tail <= |b| && base + tail == |all|
    && b[dead..tail] == all[base + dead..]
  }

  // A connection that began at `from` has taken everything up to `upto`.
  ghost predicate Carried(all: seq<byte>, from: nat, upto: nat, wire: seq<byte>) {
    from <= upto <= |all| && wire == all[from..upto]
  }

  // Putting more bytes at the tail.
  lemma AppendMore(b: seq<byte>, b': seq<byte>, dead: nat, tail: nat, all: seq<byte>, base: nat, data: seq<byte>)
    requires Holds(b, dead, tail, all, base) && tail + |data| <= |b| == |b'|
    requires b'[..tail] == b[..tail] && b'[tail..tail + |data|] == data
    ensures Holds(b', dead, tail + |data|, all + data, base)
  {
    SubSlice(b, 0, tail, dead, tail);
    SubSlice(b', 0, tail, dead, tail);
    assert b[0..tail] == b[..tail] && b'[0..tail] == b'[..tail];
    assert b'[dead..tail + |data|] == b'[dead..tail] + b'[tail..tail + |data|];
    assert (all + data)[base + dead..] == all[base + dead..] + data;
  }

  lemma CarriedStill(all: seq<byte>, data: seq<byte>, from: nat, upto: nat, wire: seq<byte>)
    requires Carried(all, from, upto, wire)
    ensures Carried(all + data, from, upto, wire)
  {
    assert (all + data)[from..upto] == all[from..upto];
  }

  // Sending n more bytes from `front` past the dead ones.
  lemma SendMore(b: seq<byte>, dead: nat, tail: nat, all: seq<byte>, base: nat, from: nat, wire: seq<byte>,
                 front: nat, n: nat)
    requires Holds(b, dead, tail, all, base) && dead + front + n <= tail
    requires Carried(all, from, base + dead + front, wire)
    ensures Carried(all, from, base + dead + front + n, wire + b[dead + front..dead + front + n])
    ensures Holds(b, dead + front + n, tail, all, base)
  {
    SendPart(b, dead, tail, all, base, from, wire, front, n);
    DropMore(b, dead, tail, all, base + dead, front + n);
  }

  lemma SendPart(b: seq<byte>, dead: nat, tail: nat, all: seq<byte>, base: nat, from: nat, wire: seq<byte>,
                 front: nat, n: nat)
    requires Holds(b, dead, tail, all, base) && dead + front + n <= tail
    requires Carried(all, from, base + dead + front, wire)
    ensures Carried(all, from, base + dead + front + n, wire + b[dead + front..dead + front + n])
  {
    Extends(b, dead, tail, all, from, base + dead, front, n);
  }

  // ---- Answers ----

  // There is a batch to send, and the connection refuses it.
  ghost predicate Refuses(s: State, op: Op)
    requires Sane(s)
  {
    op.Send? && op.reply.Refused? && Choose(s, op.byteLimit).Batch? && Choose(s, op.byteLimit).sent > 0
  }

  // What a run of steps has returned: an error for each refusal, and for nothing else.
  ghost predicate Answered(s: State, ops: seq<Op>, answers: seq<int>)
    requires Sane(s) && |answers| <= |ops|
  {
    forall i :: 0 <= i < |answers| ==>
      After(s, ops[..i]).Some? && (answers[i] < 0 <==> Refuses(After(s, ops[..i]).value, ops[i]))
  }

  lemma StartRun(s: State, ops: seq<Op>)
    requires Sane(s)
    ensures After(s, []) == Some(s) && Answered(s, ops, []) && AllData([]) == [] && AllGained([]) == 0
  {
  }

  lemma AnsweredNext(s: State, ops: seq<Op>, answers: seq<int>, r: int)
    requires Sane(s) && |answers| < |ops| && Answered(s, ops, answers) && After(s, ops[..|answers|]).Some?
    requires r < 0 <==> Refuses(After(s, ops[..|answers|]).value, ops[|answers|])
    ensures Answered(s, ops, answers + [r])
  {
    hide After, Refuses;
  }

  function Gain(r: int): nat {
    if r < 0 then 0 else r
  }

  function AllGained(answers: seq<int>): nat {
    if answers == [] then 0 else AllGained(answers[..|answers| - 1]) + Gain(answers[|answers| - 1])
  }

  lemma GainNext(answers: seq<int>, r: int)
    ensures AllGained(answers + [r]) == AllGained(answers) + Gain(r)
  {
    assert (answers + [r])[..|answers|] == answers;
  }

  // ---- Room ----

  // After post_transmit what is unsent is still there, at most 500 MiB are held or at least half is
  // in use, and what is left at the end is a quarter, or what is dead at the front less than that.
  // A buffer is made smaller only if it was larger than that and half empty.
  lemma PostTidy(ix: Index, room: nat)
    requires ix.dead <= ix.tail <= room
    ensures var s, rem := Post(ix, room), ix.tail - ix.dead;
      && s.ix.tail - s.ix.dead == rem && s.ix.tail <= s.room && s.front == s.rem == 0
      && (s.room <= 10 * BUFFER_ALLOC_SIZE || rem >= s.room / 2)
      && (4 * (s.room - s.ix.tail) >= s.room || 4 * s.ix.dead < s.room)
      && (s.room != room ==>
            && room > 10 * BUFFER_ALLOC_SIZE && rem < room / 2 && rem < s.room <= rem + BUFFER_ALLOC_SIZE
            && s.room % BUFFER_ALLOC_SIZE == 0)
      && (s.ix.dead != ix.dead && s.room == room && rem >= room / 2 ==>
            4 * (room - ix.tail) < room && 4 * ix.dead >= room)
  {
    var q := ix.tail - ix.dead;
    if TooLarge(ix.dead, ix.tail, room) { Blocks(q); }
  }

  lemma Blocks(q: nat)
    ensures var resize := (q / BUFFER_ALLOC_SIZE + 1) * BUFFER_ALLOC_SIZE;
      q < resize <= q + BUFFER_ALLOC_SIZE && resize % BUFFER_ALLOC_SIZE == 0
  {
  }

  // An append grows the buffer only if it has to, by whole blocks, and by no more than it has to.
  lemma {:induction false} GrownLeast(room: nat, tail: nat, len: nat)
    ensures Grown(room, tail, len) >= tail + len && Grown(room, tail, len) >= room
    ensures Grown(room, tail, len) == room || Grown(room, tail, len) < tail + len + BUFFER_ALLOC_SIZE
    decreases tail + len - room
  {
    if room < tail + len { GrownLeast(room + BUFFER_ALLOC_SIZE, tail, len); }
  }

  // It moves the unsent bytes to the front exactly if it has to grow and there is something to drop.
  lemma SlidesExactly(ix: Index, room: nat, len: nat)
    requires ix.dead <= ix.tail
    ensures var ix' := AppendIndex(ix, room, len);
      && ix'.tail - ix'.dead == ix.tail - ix.dead + len
      && ix'.dead == if room < ix.tail + len then 0 else ix.dead
  {
  }

  lemma ReservedLeast(dead: nat, tail: nat, room: nat, len: nat)
    requires dead <= tail <= room
    ensures var r := Reserved(dead, tail, room, len);
      && (tail + len <= room ==> r == room)
      && (room < tail + len ==>
            && r >= room + BUFFER_ALLOC_SIZE && r >= tail - dead + len
            && (r == room + BUFFER_ALLOC_SIZE || r < tail - dead + len + BUFFER_ALLOC_SIZE))
  {
    if room < tail + len { GrownLeast(room + BUFFER_ALLOC_SIZE, tail - dead, len); }
  }

  class ExportBuffer {
    var buf: array<byte>
    var tail: nat
    var dead: nat
    var partialFront: nat
    var partialRem: nat
    var offsets: set<nat>
    var since: nat

    // Everything appended so far, where its records start, and the position of buf[0] in it.
    ghost var appended: seq<byte>
    ghost var starts: set<nat>
    ghost var base: nat
    // The bytes the current connection has accepted, and where in `appended` it began.
    ghost var wire: seq<byte>
    ghost var wireStart: nat

    ghost predicate Holding()
      reads `buf, `dead, `tail, `appended, `base, buf
    {
      Holds(buf[..], dead, tail, appended, base)
    }

    // Everything before the dead bytes' end has been sent.
    ghost predicate Settled()
      reads `buf, `dead, `tail, `appended, `base, `wireStart, `wire, buf
    {
      Holding() && Carried(appended, wireStart, base + dead, wire)
    }

    ghost predicate Valid()
      reads `buf, `dead, `tail, `partialFront, `partialRem, `appended, `base, `wireStart, `wire, buf
    {
      && dead + partialFront + partialRem <= tail
      && (partialFront > 0 ==> partialRem > 0)
      && Holding()
      && Carried(appended, wireStart, base + dead + partialFront, wire)
    }

    // The n unsent bytes next in line.
    ghost function Next(n: nat): seq<byte>
      requires dead + partialFront + n <= tail <= buf.Length
      reads `buf, `dead, `tail, `partialFront, buf
    {
      buf[..][dead + partialFront..dead + partialFront + n]
    }

    ghost function View(): Index
      reads `offsets, `since, `dead, `tail, `base, `starts
    {
      Index(offsets, since, dead, tail, base, starts)
    }

    ghost function Here(): State
      reads `offsets, `since, `dead, `tail, `base, `starts, `partialFront, `partialRem, `buf
    {
      State(View(), buf.Length, partialFront, partialRem)
    }

    function Unsent(): seq<byte>
      requires dead + partialFront <= tail <= buf.Length
      reads this, buf
    {
      buf[dead + partialFront..tail]
    }

    // Nothing is lost, doubled or reordered: what the connection has accepted, followed by
    // what waits, is what was appended from the connection's first byte on.
    lemma Conservation()
      requires Valid()
      ensures wire + Unsent() == appended[wireStart..]
    {
      DropMore(buf[..], dead, tail, appended, base + dead, partialFront);
      assert Unsent() == buf[..][dead + partialFront..tail];
    }

    // init_export_buffer
    constructor ()
      ensures Valid() && Here() == Initial() && fresh(buf)
      ensures appended == [] && wire == [] && wireStart == 0
    {
      buf := new byte[0];
      tail, dead, partialFront, partialRem, offsets, since := 0, 0, 0, 0, {}, 0;
      appended, starts, base, wire, wireStart := [], {}, 0, [], 0;
    }

    // slide_buffer
    method Slide(slide: nat, amount: nat)
      requires slide + amount <= buf.Length
      modifies buf, this`offsets
      ensures offsets == Slid(old(offsets), slide, amount)
      ensures buf[..amount] == old(buf[slide..slide + amount])
      ensures buf[amount..] == old(buf[amount..])
    {
      if amount == 0 {
        offsets := {};
        return;
      }
      MoveDown(buf, slide, amount);
      SlideOffsets(slide, amount);
    }

    // The loop of slide_buffer takes out and puts back offsets while it walks them.
    method SlideOffsets(slide: nat, amount: nat)
      requires amount > 0
      modifies this`offsets
      ensures offsets == Slid(old(offsets), slide, amount)
    {
      ghost var was, rest := offsets, offsets;
      var index := FirstFrom(offsets, 0);
      SweepStart(was, slide, amount);
      SweepNext(was, rest, offsets, slide, amount, 0, index);
      while index.Some?
        invariant index.None? ==> offsets == Slid(was, slide, amount)
        invariant index.Some? ==> Sweep(was, rest, offsets, slide, amount, index.value) && index.value in rest
        decreases rest
      {
        var i := index.value;
        SweepStep(was, rest, offsets, slide, amount, i);
        offsets := offsets - {i} + Lowered(i, slide);
        rest := rest - {i};
        index := FirstFrom(offsets, i + 1);
        SweepNext(was, rest, offsets, slide, amount, i + 1, index);
      }
    }

    // extend_buffer, for a buffer in order
    method ExtendValid() returns (space: nat)
      requires Valid()
      modifies buf, this`buf, this`tail, this`dead, this`offsets, this`base
      ensures Valid() && dead == 0 && tail == old(tail - dead) && base == old(base + dead) && fresh(buf)
      ensures buf.Length == old(buf.Length) + BUFFER_ALLOC_SIZE && space == buf.Length - tail
      ensures offsets == if old(dead) > 0 then Slid(old(offsets), old(dead), tail) else old(offsets)
    {
      space := Extend();
    }

    // The buffer's start has been moved up to the first unsent byte, in an array at least as
    // long as needed.
    twostate predicate Moved()
      requires old(dead <= tail <= buf.Length)
      reads this, buf
    {
      && dead == 0 && tail == old(tail - dead) <= buf.Length
      && base == old(base + dead)
      && buf[..tail] == old(buf[dead..tail])
      && fresh(buf)
    }

    // extend_buffer
    method Extend() returns (space: nat)
      requires dead <= tail <= buf.Length
      modifies buf, this`buf, this`tail, this`dead, this`offsets, this`base
      ensures Moved() && buf.Length == old(buf.Length) + BUFFER_ALLOC_SIZE && space == buf.Length - tail
      ensures offsets == if old(dead) > 0 then Slid(old(offsets), old(dead), tail) else old(offsets)
    {
      var bufUsed := tail - dead;
      if dead > 0 {
        Slide(dead, bufUsed);
      }
      assert buf[..bufUsed] == old(buf[dead..tail]);
      buf := Resized(buf, buf.Length + BUFFER_ALLOC_SIZE, bufUsed);
      base := base + dead;
      dead := 0;
      tail := bufUsed;
      space := buf.Length - bufUsed;
    }

    // The loop at the start of both append functions
    method Reserve(len: nat)
      requires Valid()
      modifies buf, this`buf, this`tail, this`dead, this`offsets, this`base
      ensures Valid() && tail + len <= buf.Length
      ensures buf == old(buf) || fresh(buf)
      ensures View() == ReserveIndex(old(View()), old(buf.Length), len)
      ensures buf.Length == Reserved(old(dead), old(tail), old(buf.Length), len)
    {
      var space := buf.Length - tail;
      ghost var grown, goal := false, Reserved(dead, tail, buf.Length, len);
      while space < len
        invariant space == buf.Length - tail && Valid()
        invariant if grown then fresh(buf) && old(buf.Length - tail) < len else buf == old(buf)
        invariant dead == (if grown then 0 else old(dead))
        invariant tail == old(tail) - (old(dead) - dead) && base == old(base) + (old(dead) - dead)
        invariant offsets == if grown && old(dead) > 0 then Slid(old(offsets), old(dead), tail) else old(offsets)
        invariant if grown then Grown(buf.Length, tail, len) == goal else buf.Length == old(buf.Length)
        decreases len - space
      {
        space := ExtendValid();
        grown := true;
      }
    }

    // memcpy to the tail
    method Copy(data: seq<byte>)
      requires Valid() && tail + |data| <= buf.Length
      modifies buf, this`tail, this`appended
      ensures Valid() && tail == old(tail) + |data| && appended == old(appended) + data
    {
      ghost var was := buf[..];
      PutAt(buf, tail, data);
      AppendMore(was, buf[..], dead, tail, appended, base, data);
      CarriedStill(appended, data, wireStart, base + dead + partialFront, wire);
      tail := tail + |data|;
      appended := appended + data;
    }

    // The last step of both append functions: mark the record that began at `bufUsed` of the
    // buffer as it was before any sliding.
    method Mark(bufUsed: nat, added: nat)
      requires added <= tail
      modifies this`offsets, this`since, this`starts
      ensures View() == MarkIndex(old(View()), bufUsed, added)
    {
      if since + added >= BUF_OFFSET_FREQUENCY {
        offsets := offsets + {bufUsed};
        since := 0;
      }
      since := since + added;
      starts := starts + One(base + tail - added);
    }

    // append_etsipdu_to_buffer
    method AppendPdu(pdu: seq<byte>) returns (total: nat)
      requires Valid()
      modifies buf, this`buf, this`tail, this`dead, this`offsets, this`base, this`appended, this`since, this`starts
      ensures Valid() && (buf == old(buf) || fresh(buf)) && total == tail
      ensures appended == old(appended) + pdu
      ensures Here() == Append(old(Here()), |pdu|)
    {
      var bufUsed := tail;
      Reserve(|pdu|);
      Store(bufUsed, pdu);
      total := tail;
    }

    method Store(bufUsed: nat, pdu: seq<byte>)
      requires Valid() && tail + |pdu| <= buf.Length
      modifies buf, this`tail, this`appended, this`offsets, this`since, this`starts
      ensures Valid() && appended == old(appended) + pdu
      ensures View() == MarkIndex(old(View()).(tail := old(tail) + |pdu|), bufUsed, |pdu|)
    {
      Copy(pdu);
      Mark(bufUsed, |pdu|);
    }

    // append_message_to_buffer
    method AppendMessage(m: Message) returns (total: nat)
      requires Valid() && |m.header| == HEADER_LENGTH
      modifies buf, this`buf, this`tail, this`dead, this`offsets, this`base, this`appended, this`since, this`starts
      ensures Valid() && (buf == old(buf) || fresh(buf)) && total == tail
      ensures appended == old(appended) + (m.header + m.encoded + m.ipContents)
      ensures Here() == Append(old(Here()), |m.header| + |m.encoded| + |m.ipContents|)
    {
      var needed := |m.encoded| + |m.ipContents| + HEADER_LENGTH;
      assert needed == |Whole(m)|;
      total := AppendWhole(m, needed);
    }

    method AppendWhole(m: Message, needed: nat) returns (total: nat)
      requires Valid() && |m.header| == HEADER_LENGTH && needed == |Whole(m)|
      modifies buf, this`buf, this`tail, this`dead, this`offsets, this`base, this`appended, this`since, this`starts
      ensures Valid() && (buf == old(buf) || fresh(buf)) && total == tail
      ensures appended == old(appended) + Whole(m)
      ensures Here() == Append(old(Here()), needed)
    {
      var bufUsed := tail;
      Reserve(needed);
      ghost var reserved := View();
      var added := CopyMessage(m);
      assert View() == reserved.(tail := reserved.tail + needed);
      Mark(bufUsed, added);
      total := tail;
    }

    method CopyMessage(m: Message) returns (added: nat)
      requires Valid() && |m.header| == HEADER_LENGTH && tail + |Whole(m)| <= buf.Length
      modifies buf, this`tail, this`appended
      ensures Valid() && added == |Whole(m)|
      ensures tail == old(tail) + |Whole(m)| && appended == old(appended) + Whole(m)
    {
      added := 0;
      Copy(m.header);
      added := added + HEADER_LENGTH;
      CopySome(m.encoded);
      CopySome(m.ipContents);
      added := added + (|m.encoded| + |m.ipContents|);
      Regroup(old(appended), m.header, m.encoded, m.ipContents);
    }

    method CopySome(data: seq<byte>)
      requires Valid() && tail + |data| <= buf.Length
      modifies buf, this`tail, this`appended
      ensures Valid() && tail == old(tail) + |data| && appended == old(appended) + data
    {
      if |data| > 0 { Copy(data); }
    }

    // post_transmit
    method PostTransmit()
      requires Settled()
      modifies buf, this`buf, this`tail, this`dead, this`offsets, this`base, this`partialFront, this`partialRem
      ensures Settled() && partialFront == 0 && partialRem == 0 && (buf == old(buf) || fresh(buf))
      ensures Here() == Post(old(View()), old(buf.Length))
    {
      assert tail >= dead;
      var rem := tail - dead;
      if TooLarge(dead, tail, buf.Length) {
        Shrink((rem / BUFFER_ALLOC_SIZE + 1) * BUFFER_ALLOC_SIZE);
      } else if TooFull(dead, tail, buf.Length) {
        SlideHome();
        assert tail < buf.Length;
      }
      partialFront, partialRem := 0, 0;
    }

    method SlideHome()
      requires Settled()
      modifies buf, this`tail, this`dead, this`offsets, this`base
      ensures Settled() && View() == SlideIndex(old(View()))
    {
      var rem := tail - dead;
      Slide(dead, rem);
      base := base + dead;
      tail, dead := rem, 0;
      assert buf[dead..tail] == old(buf[dead..tail]);
    }

    method Shrink(resize: nat)
      requires Settled() && tail - dead < resize
      modifies buf, this`buf, this`tail, this`dead, this`offsets, this`base
      ensures Settled() && View() == SlideIndex(old(View())) && fresh(buf) && buf.Length == resize
    {
      SlideHome();
      ghost var was := buf[..tail];
      buf := Resized(buf, resize, tail);
      assert buf[dead..tail] == was;
    }

    // The first part of transmit_buffered_records: the batch to offer.
    method ChooseBatch(byteLimit: nat) returns (c: Choice)
      requires Valid()
      modifies this`partialRem
      ensures Valid() && c == Choose(old(Here()), byteLimit)
      ensures Here() == if c.Batch? then old(Here()).(rem := c.sent) else old(Here())
    {
      if partialRem > 0 {
        c := Batch(partialRem);
      } else {
        var sent := tail - (dead + partialFront);
        if sent > byteLimit {
          var index := LastBefore(offsets, byteLimit + 1 + dead);
          if index.None? { return NoMark; }
          if index.value < dead { return Behind(index.value); }
          sent := index.value - dead;
        }
        partialRem := sent;
        c := Batch(sent);
      }
    }

    // The socket has accepted part of the batch.
    method TakePart(ret: nat)
      requires Valid() && ret < partialRem
      modifies this`partialFront, this`partialRem, this`wire
      ensures Valid() && wire == old(wire) + old(Next(ret))
      ensures Here() == old(Here()).(front := old(partialFront) + ret, rem := old(partialRem) - ret)
    {
      ghost var b := buf[..];
      SendPart(b, dead, tail, appended, base, wireStart, wire, partialFront, ret);
      wire := wire + Next(ret);
      partialFront := partialFront + ret;
      partialRem := partialRem - ret;
      assert Carried(appended, wireStart, base + dead + partialFront, wire);
    }

    // The socket has accepted all of it.
    method TakeAll(ret: nat)
      requires Valid() && ret == partialRem
      modifies this`dead, this`wire
      ensures Settled() && wire == old(wire) + old(Next(ret))
      ensures View() == old(View()).(dead := old(dead) + partialFront + ret)
    {
      ghost var b := buf[..];
      SendMore(b, dead, tail, appended, base, wireStart, wire, partialFront, ret);
      wire := wire + Next(ret);
      dead := dead + (ret + partialFront);
      assert Holds(b, dead, tail, appended, base) && Carried(appended, wireStart, base + dead, wire);
    }

    method Finish()
      requires Settled()
      modifies buf, this`buf, this`tail, this`dead, this`offsets, this`base, this`partialFront, this`partialRem
      ensures Valid() && partialFront == 0 && (buf == old(buf) || fresh(buf))
      ensures Here() == Post(old(View()), old(buf.Length))
    {
      PostTransmit();
    }

    method SendAll(ret: nat)
      requires Valid() && ret == partialRem
      modifies buf, this`buf, this`tail, this`dead, this`offsets, this`base
      modifies this`partialFront, this`partialRem, this`wire
      ensures Valid() && (buf == old(buf) || fresh(buf)) && wire == old(wire) + old(Next(ret))
      ensures Here() == Handed(old(View()), old(buf.Length), old(partialFront) + ret)
    {
      ghost var front := partialFront;
      TakeAll(ret);
      assert View() == old(View()).(dead := old(dead) + (front + ret));
      Finish();
    }

    // The socket has accepted up to `count` bytes.
    method Taken(sent: nat, count: nat) returns (r: int)
      requires Valid() && sent == partialRem > 0
      modifies buf, this`buf, this`tail, this`dead, this`offsets, this`base
      modifies this`partialFront, this`partialRem, this`wire
      ensures Valid() && (buf == old(buf) || fresh(buf))
      ensures r == Min(count, sent) && wire == old(wire) + old(Next(r))
      ensures Here() == Offered(old(Here()), sent, Accepted(count))
    {
      r := Min(count, sent);
      if r < sent {
        TakePart(r);
      } else {
        SendAll(r);
      }
    }

    // The second part: what the socket makes of it.
    method Offer(sent: nat, reply: Reply) returns (r: int)
      requires Valid() && sent == partialRem
      modifies buf, this`buf, this`tail, this`dead, this`offsets, this`base
      modifies this`partialFront, this`partialRem, this`wire
      ensures Valid() && (buf == old(buf) || fresh(buf))
      ensures r < 0 <==> sent > 0 && reply.Refused?
      ensures r >= 0 ==> r == |wire| - |old(wire)|
      ensures sent > 0 && reply.Accepted? ==> r == Min(reply.count, sent)
      ensures wire == if r > 0 then old(wire) + old(Next(r)) else old(wire)
      ensures Here() == Offered(old(Here()), sent, reply)
    {
      if sent != 0 {
        match reply
        case Refused => return -1;
        case Again => return 0;
        case Accepted(count) =>
          r := Taken(sent, count);
          return;
      }
      Finish();
      return 0;
    }

    // transmit_buffered_records, with the choice of what to offer, as far as it is a batch.  It
    // returns an error if and only if a batch was refused, and else the number of bytes taken.
    method Transmit(byteLimit: nat, reply: Reply) returns (r: int, c: Choice)
      requires Valid()
      modifies buf, this`buf, this`tail, this`dead, this`offsets, this`base
      modifies this`partialFront, this`partialRem, this`wire
      ensures Valid() && (buf == old(buf) || fresh(buf))
      ensures c == Choose(old(Here()), byteLimit)
      ensures !c.Batch? ==> r == 0 && Here() == old(Here()) && wire == old(wire)
      ensures r < 0 <==> c.Batch? && c.sent > 0 && reply.Refused?
      ensures r >= 0 ==> r == |wire| - |old(wire)|
      ensures c.Batch? ==>
        && Here() == Offered(old(Here()), c.sent, reply)
        && (c.sent > 0 && reply.Accepted? ==> r == Min(reply.count, c.sent))
        && wire == if r > 0 then old(wire) + old(Next(r)) else old(wire)
    {
      hide Choose, Offered;
      c := ChooseBatch(byteLimit);
      r := 0;
      if c.Batch? {
        OfferedSame(old(Here()), c.sent, reply);
        r := Offer(c.sent, reply);
      }
    }

    // The next n bytes have been handed on whole.
    method Advance(n: nat)
      requires Valid() && partialFront == 0 && dead + n <= tail
      modifies this`dead, this`wire
      ensures Settled() && View() == old(View()).(dead := old(dead) + n) && wire == old(wire) + old(Next(n))
    {
      ghost var b := buf[..];
      SendMore(b, dead, tail, appended, base, wireStart, wire, 0, n);
      wire := wire + Next(n);
      dead := dead + n;
      assert Holds(b, dead, tail, appended, base) && Carried(appended, wireStart, base + dead, wire);
    }

    // The next n bytes have been handed on whole, and the buffer tidied.
    method Forward(n: nat)
      requires Valid() && partialFront == 0 && dead + n <= tail
      modifies buf, this`buf, this`tail, this`dead, this`offsets, this`base
      modifies this`partialFront, this`partialRem, this`wire
      ensures Valid() && partialFront == 0 && (buf == old(buf) || fresh(buf)) && wire == old(wire) + old(Next(n))
      ensures Here() == Handed(old(View()), old(buf.Length), n)
    {
      Advance(n);
      Finish();
    }

    // The index stays in order exactly if those bytes ended at a record boundary.
    method ForwardWhole(n: nat)
      requires Valid() && partialFront == 0 && dead + n <= tail
      modifies buf, this`buf, this`tail, this`dead, this`offsets, this`base
      modifies this`partialFront, this`partialRem, this`wire
      ensures Valid() && partialFront == 0 && (buf == old(buf) || fresh(buf)) && wire == old(wire) + old(Next(n))
      ensures Here() == Handed(old(View()), old(buf.Length), n)
      ensures old(Indexed(View())) ==> (Good(Here()) <==> CutAt(old(View()), n))
    {
      ghost var was, room := View(), buf.Length;
      Forward(n);
      if Indexed(was) { SendKeepsIndex(was, room, n); }
    }

    // transmit_buffered_records_RMQ
    method Publish(byteLimit: nat, published: bool) returns (sent: nat)
      requires Valid() && partialFront == 0
      modifies buf, this`buf, this`tail, this`dead, this`offsets, this`base
      modifies this`partialFront, this`partialRem, this`wire
      ensures Valid() && partialFront == 0 && (buf == old(buf) || fresh(buf))
      ensures sent == Min(old(tail - dead), byteLimit)
      ensures var n := if published then sent else 0;
        && wire == old(wire) + old(Next(n))
        && Here() == Handed(old(View()), old(buf.Length), n)
        && (old(Indexed(View())) ==> (Good(Here()) <==> CutAt(old(View()), n)))
    {
      sent := tail - dead;
      if sent > byteLimit {
        sent := byteLimit;
      }
      ForwardWhole(if sent != 0 && published then sent else 0);
    }

    // advance_export_buffer_head
    method AdvanceHead(amount: nat)
      requires Valid() && partialFront == 0
      modifies buf, this`buf, this`tail, this`dead, this`offsets, this`base
      modifies this`partialFront, this`partialRem, this`wire
      ensures Valid() && partialFront == 0 && (buf == old(buf) || fresh(buf))
      ensures var n := Min(amount, old(tail - dead));
        && wire == old(wire) + old(Next(n))
        && Here() == Handed(old(View()), old(buf.Length), n)
        && (old(Indexed(View())) ==> (Good(Here()) <==> CutAt(old(View()), n)))
    {
      var rem := tail - dead;
      ForwardWhole(Min(amount, rem));
    }

    // reset_export_buffer: the next connection starts with the whole of a partly sent batch.
    method Reset()
      requires Valid()
      modifies this`partialFront, this`partialRem, this`wire, this`wireStart
      ensures Valid() && partialFront == 0 && partialRem == 0 && wire == [] && wireStart == base + dead
    {
      partialFront, partialRem := 0, 0;
      wire, wireStart := [], base + dead;
    }

    // The forwarder's reconnection forgets how much of a batch was sent, but not how much of it
    // was left, and so resends that much from the batch's start.
    method Reconnect()
      requires Valid()
      modifies this`partialFront, this`wire, this`wireStart
      ensures Valid() && partialFront == 0 && wire == [] && wireStart == base + dead
      ensures old(Good(Here())) ==> (Good(Here()) <==> CutAt(View(), partialRem))
    {
      partialFront := 0;
      wire, wireStart := [], base + dead;
    }

    // One step of a run; only sending can fail.  `r` is what sending returns.
    method Perform(op: Op) returns (ok: bool, r: int)
      requires Valid() && WellFormed(op)
      modifies this, buf
      ensures Valid() && (buf == old(buf) || fresh(buf))
      ensures ok == Step(old(Here()), op).Some?
      ensures Here() == if ok then Step(old(Here()), op).value else old(Here())
      ensures appended == old(appended) + Data(op)
      ensures !op.Restart? && !op.Resume? ==> wireStart == old(wireStart) && old(wire) <= wire
      ensures r < 0 <==> Refuses(old(Here()), op)
      ensures !op.Restart? && !op.Resume? ==> |wire| == |old(wire)| + Gain(r)
    {
      hide Choose, Offered, Append;
      ok, r := true, 0;
      match op
      case Pdu(pdu) => var _ := AppendPdu(pdu);
      case Encoded(m) => var _ := AppendMessage(m);
      case Send(byteLimit, reply) =>
        var c;
        r, c := Transmit(byteLimit, reply);
        ok := c.Batch?;
      case Restart => Reset();
      case Resume => Reconnect();
    }

    // The step after ops[..n] of a run from s.
    method PerformAt(ops: seq<Op>, n: nat, ghost s: State, ghost all: seq<byte>)
      returns (ok: bool, r: int)
      requires Valid() && n < |ops| && WellFormed(ops[n])
      requires Sane(s) && After(s, ops[..n]) == Some(Here()) && appended == all + AllData(ops[..n])
      modifies this, buf
      ensures Valid() && (buf == old(buf) || fresh(buf))
      ensures After(s, ops[..n + 1]) == if ok then Some(Here()) else None
      ensures !ok ==> Here() == old(Here())
      ensures appended == all + AllData(ops[..if ok then n + 1 else n])
      ensures !ops[n].Restart? && !ops[n].Resume? ==> wireStart == old(wireStart) && old(wire) <= wire
      ensures r < 0 <==> Refuses(After(s, ops[..n]).value, ops[n])
      ensures !ops[n].Restart? && !ops[n].Resume? ==> |wire| == |old(wire)| + Gain(r)
    {
      AllDataNext(all, ops, n);
      AfterNext(s, ops, n);
      ok, r := Perform(ops[n]);
    }

    // One step of a buffer that is published.
    method PerformPub(op: Pub)
      requires Valid() && partialFront == 0
      modifies this, buf
      ensures Valid() && partialFront == 0 && (buf == old(buf) || fresh(buf))
      ensures Here() == PubStep(old(Here()), op) && appended == old(appended) + PubData(op)
      ensures wireStart == old(wireStart) && old(wire) <= wire
    {
      match op
      case Put(pdu) => var _ := AppendPdu(pdu);
      case Emit(byteLimit, published) => var _ := Publish(byteLimit, published);
    }

    // Every run of appends and publications keeps the bytes in order, without loss or duplication.
    method RunPub(ops: seq<Pub>)
      requires Valid() && partialFront == 0
      modifies this, buf
      ensures Valid() && Here() == PubAfter(old(Here()), ops) && appended == old(appended) + AllPubData(ops)
      ensures wireStart == old(wireStart) && old(wire) <= wire && wire + Unsent() == appended[wireStart..]
    {
      var n := 0;
      assert ops[..0] == [];
      while n < |ops|
        invariant n <= |ops| && Valid() && partialFront == 0 && (buf == old(buf) || fresh(buf))
        invariant Here() == PubAfter(old(Here()), ops[..n]) && appended == old(appended) + AllPubData(ops[..n])
        invariant wireStart == old(wireStart) && old(wire) <= wire
      {
        PubNext(old(Here()), old(appended), ops, n);
        PerformPub(ops[n]);
        n := n + 1;
      }
      assert ops[..n] == ops;
      Conservation();
    }

    // A run as far as it gets, and what its steps return.
    method Go(ops: seq<Op>) returns (done: nat, answers: seq<int>)
      requires Valid() && AllWellFormed(ops)
      modifies this, buf
      ensures Valid() && done <= |ops| && After(old(Here()), ops[..done]) == Some(Here())
      ensures done < |ops| ==> After(old(Here()), ops[..done + 1]).None?
      ensures appended == old(appended) + AllData(ops[..done])
      ensures OneConnection(ops) ==> wireStart == old(wireStart) && old(wire) <= wire
      ensures |answers| == done && Answered(old(Here()), ops, answers)
      ensures OneConnection(ops) ==> |wire| == |old(wire)| + AllGained(answers)
    {
      hide Refuses, Gain, AllGained, Answered, After, AllData, Sane;
      ghost var s := Here();
      StartRun(s, ops);
      done, answers := 0, [];
      assert ops[..0] == [];
      while done < |ops|
        invariant done <= |ops| && Valid() && (buf == old(buf) || fresh(buf))
        invariant After(s, ops[..done]) == Some(Here())
        invariant appended == old(appended) + AllData(ops[..done])
        invariant OneConnection(ops) ==> wireStart == old(wireStart) && old(wire) <= wire
        invariant |answers| == done && Answered(s, ops, answers)
        invariant OneConnection(ops) ==> |wire| == |old(wire)| + AllGained(answers)
      {
        var ok, r := PerformAt(ops, done, s, old(appended));
        if !ok { return; }
        GainNext(answers, r);
        AnsweredNext(s, ops, answers, r);
        answers := answers + [r];
        done := done + 1;
      }
    }

    // Every run keeps the bytes in order and follows the steps of its index.  A bounded one in
    // which no append slips never stops, and cuts all its batches at record boundaries.  It is told
    // of an error exactly where a batch was refused, and else of the bytes the connection took.
    method Run(ops: seq<Op>) returns (done: nat, answers: seq<int>)
      requires Valid() && AllWellFormed(ops)
      modifies this, buf
      ensures Valid() && done <= |ops| && After(old(Here()), ops[..done]) == Some(Here())
      ensures done == |ops| <==> After(old(Here()), ops).Some?
      ensures appended == old(appended) + AllData(ops[..done])
      ensures wire + Unsent() == appended[wireStart..]
      ensures OneConnection(ops) ==> wireStart == old(wireStart) && old(wire) <= wire
      ensures old(Good(Here())) && AllBounded(ops) && NeverSlips(old(Here()), ops) ==> done == |ops| && Good(Here())
      ensures |answers| == done && Answered(old(Here()), ops, answers)
      ensures OneConnection(ops) ==> |wire| == |old(wire)| + AllGained(answers)
    {
      ghost var s := Here();
      done, answers := Go(ops);
      if done < |ops| { Stopped(s, ops, done + 1); }
      assert ops[..|ops|] == ops;
      if Good(s) && AllBounded(ops) { BoundedRun(s, ops); }
      Conservation();
    }
  }

  // The same on a buffer.
  method Misplaced(a: seq<byte>, block: seq<byte>) returns (b: ExportBuffer)
    requires |a| == 5 && |block| == BLOCK
    ensures fresh(b) && b.Valid() && b.appended == AllData(FillOps(a, block, 201)) && !Exact(b.View())
  {
    FillBounded(a, block, 201);
    MisplacedMark(a, block);
    var ops := FillOps(a, block, 201);
    ghost var end := After(Initial(), ops);
    b := Made(ops);
    assert b.Here() == end.value;
  }

  // A new buffer after a run that does not stop.
  method Made(ops: seq<Op>) returns (b: ExportBuffer)
    requires AllWellFormed(ops) && After(Initial(), ops).Some?
    ensures fresh(b) && b.Valid() && b.appended == AllData(ops) && After(Initial(), ops) == Some(b.Here())
  {
    b := new ExportBuffer();
    var done, _ := b.Run(ops);
    assert ops[..done] == ops && [] + AllData(ops) == AllData(ops);
  }

  lemma Extends(b: seq<byte>, dead: nat, tail: nat, all: seq<byte>, from: nat, pos: nat, front: nat, n: nat)
    requires dead + front + n <= tail <= |b| && from <= pos + front && pos + (tail - dead) == |all|
    requires b[dead..tail] == all[pos..]
    ensures all[from..pos + front] + b[dead + front..dead + front + n] == all[from..pos + front + n]
  {
    SubSlice(b, dead, tail, front, front + n);
    SubSlice(all, pos, |all|, front, front + n);
    assert all[pos..|all|] == all[pos..];
  }

  lemma DropMore(b: seq<byte>, dead: nat, tail: nat, all: seq<byte>, pos: nat, n: nat)
    requires dead + n <= tail <= |b| && pos <= |all| && b[dead..tail] == all[pos..]
    ensures b[dead + n..tail] == all[pos + n..]
  {
    SubSlice(b, dead, tail, n, tail - dead);
    SubSlice(all, pos, |all|, n, |all| - pos);
    assert all[pos..|all|] == all[pos..] && all[pos + n..|all|] == all[pos + n..];
  }

  lemma Regroup(a: seq<byte>, b: seq<byte>, c: seq<byte>, d: seq<byte>)
    ensures a + b + c + d == a + (b + c + d)
  {
  }

  // Part-way through the walk: the offsets below `bound` have been moved, `rest` have not.
  ghost predicate Sweep(was: set<nat>, rest: set<nat>, offsets: set<nat>, slide: nat, amount: nat, bound: nat) {
    && rest <= was
    && offsets == Slid(was - rest, slide, amount) + rest
    && (forall o :: o in rest ==> bound <= o)
    && (forall o :: o in was && o !in rest ==> o < bound)
  }

  lemma SweepStart(was: set<nat>, slide: nat, amount: nat)
    ensures Sweep(was, was, was, slide, amount, 0)
  {
    assert was - was == {};
  }

  lemma SweepStep(was: set<nat>, rest: set<nat>, offsets: set<nat>, slide: nat, amount: nat, i: nat)
    requires Sweep(was, rest, offsets, slide, amount, i) && i in rest && amount > 0
    ensures Sweep(was, rest - {i}, offsets - {i} + Lowered(i, slide), slide, amount, i + 1)
  {
    var done := was - rest;
    SlidBelow(done, i, slide, amount);
    SlidOne(done, i, slide, amount);
    assert was - (rest - {i}) == done + {i};
  }

  lemma SweepNext(was: set<nat>, rest: set<nat>, offsets: set<nat>, slide: nat, amount: nat, i: nat, next: Option<nat>)
    requires Sweep(was, rest, offsets, slide, amount, i)
    requires next.None? ==> forall x :: x in offsets ==> x < i
    requires next.Some? ==> next.value in offsets && i <= next.value
    requires next.Some? ==> forall x :: x in offsets && i <= x ==> next.value <= x
    ensures next.None? ==> offsets == Slid(was, slide, amount)
    ensures next.Some? ==> Sweep(was, rest, offsets, slide, amount, next.value) && next.value in rest
  {
    SlidBelow(was - rest, i, slide, amount);
    if next.None? {
      assert rest == {};
      assert was - rest == was;
    }
  }

  lemma SlidBelow(s: set<nat>, i: nat, slide: nat, amount: nat)
    requires forall o :: o in s ==> o < i
    ensures forall o :: o in Slid(s, slide, amount) ==> o < i
  {
  }

  lemma SlidOne(s: set<nat>, i: nat, slide: nat, amount: nat)
    requires amount > 0
    ensures Slid(s + {i}, slide, amount) == Slid(s, slide, amount) + Lowered(i, slide)
  {
    forall x | x in Slid(s, slide, amount) + Lowered(i, slide) ensures x in Slid(s + {i}, slide, amount) {
      assert x + slide in s + {i};
    }
  }
}

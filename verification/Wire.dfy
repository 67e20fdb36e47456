// Intercept announcements and modifications as type-length-value fields in one message body.
module Wire {
  import opened Common
  import opened BigEndian
  import opened NetBuffers

  const MAX_VALUE: nat := 4096 - 4
  const VENDOR_MIRROR_NONE: nat := 0xffffffff
  const COMPRESSED_DEFAULT: nat := 255

  const MEDIATORID: nat := 0
  const USERNAME: nat := 3
  const LIID: nat := 5
  const AUTHCC: nat := 6
  const DELIVCC: nat := 7
  const INTERCEPTID: nat := 8
  const LEAID: nat := 9
  const VENDMIRRORID: nat := 17
  const ACCESSTYPE: nat := 20
  const INTOPTIONS: nat := 25
  const START_TIME: nat := 30
  const END_TIME: nat := 31
  const TOMEDIATE: nat := 33
  const PAYLOAD_ENCRYPTION: nat := 34
  const ENCRYPTION_KEY: nat := 35
  const DELIVER_COMPRESSED: nat := 36

  type Text = seq<byte>

  // The parts all intercepts share.  The three lengths are kept beside the strings.
  datatype Shared = Shared(
    liid: Option<Text>, authcc: Option<Text>, delivcc: Option<Text>, agency: Option<Text>,
    liidLen: nat, authccLen: nat, delivccLen: nat,
    startTime: nat, endTime: nat, destid: nat, toMediate: nat, encrypt: nat, key: Option<Text>)

  datatype Particular =
    | Ip(username: Option<Text>, usernameLen: nat, access: nat, ipOptions: nat, mirror: nat)
    | Voip(voipOptions: nat, internalId: nat)
    | Email(compressed: nat)

  datatype Intercept = Intercept(common: Shared, own: Particular)

  // What the functions that push an intercept take for granted: the strings are there, the
  // integers fit their types, and the user name's length is known.
  predicate Proper(i: Intercept) {
    var c := i.common;
    && c.liid.Some? && c.authcc.Some? && c.delivcc.Some? && c.agency.Some?
    && c.startTime < Pow256(8) && c.endTime < Pow256(8)
    && c.destid < Pow256(4) && c.toMediate < Pow256(4) && c.encrypt < Pow256(4)
    && match i.own
       case Ip(username, usernameLen, access, options, mirror) =>
         && usernameLen == (if username.Some? then |username.value| else 0)
         && access < Pow256(4) && options < Pow256(4) && mirror < Pow256(4)
       case Voip(options, internalId) => options < Pow256(4) && internalId < Pow256(8)
       case Email(compressed) => compressed < Pow256(1)
  }

  // A string's length is passed as 16 bits.
  function Short(s: Text): Text {
    s[..|s| % 65536]
  }

  datatype Field = Field(kind: nat, value: Text)

  function Str(kind: nat, s: Option<Text>): Field {
    Field(kind, if s.Some? then Short(s.value) else [])
  }

  function Num(kind: nat, v: nat, width: nat): Field {
    Field(kind, NativeBytes(v, width))
  }

  // _push_intercept_common_fields
  function StringFields(c: Shared): seq<Field> {
    [Str(LIID, c.liid), Str(AUTHCC, c.authcc), Str(DELIVCC, c.delivcc), Str(LEAID, c.agency)]
  }

  function NumberFields(c: Shared): seq<Field> {
    [Num(START_TIME, c.startTime, 8), Num(END_TIME, c.endTime, 8), Num(MEDIATORID, c.destid, 4),
     Num(TOMEDIATE, c.toMediate, 4), Num(PAYLOAD_ENCRYPTION, c.encrypt, 4)]
  }

  function KeyField(c: Shared): seq<Field> {
    if c.key.Some? then [Str(ENCRYPTION_KEY, c.key)] else []
  }

  function OwnFields(p: Particular): seq<Field> {
    match p
    case Ip(username, _, access, options, mirror) =>
      [Str(USERNAME, username), Num(ACCESSTYPE, access, 4), Num(INTOPTIONS, options, 4)]
      + MirrorField(mirror)
    case Voip(options, _) => [Num(INTOPTIONS, options, 4)]
    case Email(compressed) => [Num(DELIVER_COMPRESSED, compressed, 1)]
  }

  function MirrorField(mirror: nat): seq<Field> {
    if mirror != VENDOR_MIRROR_NONE then [Num(VENDMIRRORID, mirror, 4)] else []
  }

  function Fields(i: Intercept): seq<Field> {
    StringFields(i.common) + NumberFields(i.common) + KeyField(i.common) + OwnFields(i.own)
  }

  function Tlv(f: Field): seq<byte> {
    Bytes(f.kind, 2) + Bytes(|f.value|, 2) + f.value
  }

  function Tlvs(fs: seq<Field>): seq<byte> {
    Flat(Tlv, fs)
  }

  predicate AllShort(fs: seq<Field>) {
    forall f :: f in fs ==> |f.value| <= MAX_VALUE
  }

  // ---- Lengths ----

  // INTERCEPT_COMMON_LEN and the *_BODY_LEN macros
  function BodyLength(i: Intercept): nat
    requires Proper(i)
  {
    var c := i.common;
    c.liidLen + c.authccLen + 8 + 8 + 4 + |c.agency.value| + 4 + 4 + c.delivccLen
    + (if c.key.Some? then |c.key.value| + 4 else 0) + 9 * 4
    + match i.own
      case Ip(_, usernameLen, _, _, mirror) =>
        if mirror != VENDOR_MIRROR_NONE then usernameLen + 4 + 4 + 4 + 4 * 4 else usernameLen + 4 + 4 + 3 * 4
      case Voip(_, _) => 4 + 1 * 4
      case Email(_) => 1 + 1 * 4
  }

  function Total(fs: seq<Field>): nat {
    if fs == [] then 0 else 4 + |fs[0].value| + Total(fs[1..])
  }

  lemma {:induction false} TlvsLength(fs: seq<Field>)
    ensures |Tlvs(fs)| == Total(fs)
    ensures AllShort(fs) ==> Total(fs) <= 4096 * |fs|
  {
    if fs != [] {
      TlvsLength(fs[1..]);
    }
  }

  lemma {:induction false} TotalConcat(a: seq<Field>, b: seq<Field>)
    ensures Total(a + b) == Total(a) + Total(b)
  {
    if a == [] {
      assert a + b == b;
    } else {
      TotalConcat(a[1..], b);
      assert (a + b)[1..] == a[1..] + b;
    }
  }

  function Width(f: Field): nat {
    4 + |f.value|
  }

  lemma TotalFew(a: Field, b: Field, c: Field, d: Field, e: Field)
    ensures Total([a]) == Width(a)
    ensures Total([a, b, c]) == Width(a) + Width(b) + Width(c)
    ensures Total([a, b, c, d]) == Width(a) + Width(b) + Width(c) + Width(d)
    ensures Total([a, b, c, d, e]) == Width(a) + Width(b) + Width(c) + Width(d) + Width(e)
  {
    TotalConcat([a], [b]);
    TotalConcat([a] + [b], [c]);
    TotalConcat([a] + [b] + [c], [d]);
    TotalConcat([a] + [b] + [c] + [d], [e]);
    assert [a, b, c] == [a] + [b] + [c];
    assert [a, b, c, d] == [a] + [b] + [c] + [d];
    assert [a, b, c, d, e] == [a] + [b] + [c] + [d] + [e];
  }

  function Strlen(s: Option<Text>): nat {
    if s.Some? then |s.value| else 0
  }

  // The bytes of a string that go into its field.
  function Sent(s: Option<Text>): nat {
    |Str(0, s).value|
  }

  lemma CommonTotal(c: Shared)
    ensures Total(StringFields(c) + NumberFields(c) + KeyField(c))
      == Sent(c.liid) + Sent(c.authcc) + Sent(c.delivcc) + Sent(c.agency)
         + 8 + 8 + 4 + 4 + 4 + 9 * 4 + (if c.key.Some? then Sent(c.key) + 4 else 0)
  {
    var s, n, k := StringFields(c), NumberFields(c), KeyField(c);
    TotalFew(s[0], s[1], s[2], s[3], s[0]);
    NumbersTotal(c);
    if c.key.Some? { TotalFew(k[0], k[0], k[0], k[0], k[0]); }
    TotalConcat(s, n);
    TotalConcat(s + n, k);
  }

  lemma NumbersTotal(c: Shared)
    ensures Total(NumberFields(c)) == 8 + 8 + 4 + 4 + 4 + 5 * 4
  {
    var n := NumberFields(c);
    TotalFew(n[0], n[1], n[2], n[3], n[4]);
  }

  lemma OwnTotal(p: Particular)
    ensures Total(OwnFields(p)) == match p
      case Ip(username, _, _, _, mirror) =>
        Sent(username) + 4 + 4 + 3 * 4 + (if mirror != VENDOR_MIRROR_NONE then 4 + 4 else 0)
      case Voip(_, _) => 4 + 4
      case Email(_) => 1 + 4
  {
    var fs := OwnFields(p);
    if p.Ip? {
      var m := MirrorField(p.mirror);
      TotalFew(fs[0], fs[1], fs[2], fs[0], fs[0]);
      if m != [] { TotalFew(m[0], m[0], m[0], m[0], m[0]); }
      assert fs == [fs[0], fs[1], fs[2]] + m;
      TotalConcat([fs[0], fs[1], fs[2]], m);
    } else {
      TotalFew(fs[0], fs[0], fs[0], fs[0], fs[0]);
    }
  }

  // The lengths kept beside the strings agree with them, up to multiples of 2^16.
  predicate LengthsAgree(c: Shared) {
    Kept(c) % 65536 == Exact(c) % 65536
  }

  function Kept(c: Shared): nat {
    c.liidLen + c.authccLen + c.delivccLen
  }

  function Exact(c: Shared): nat {
    Strlen(c.liid) + Strlen(c.authcc) + Strlen(c.delivcc)
  }

  // The exact length of everything but the three strings whose lengths are kept.
  function OtherLength(i: Intercept): nat
    requires Proper(i)
  {
    BodyLength(i) - Kept(i.common)
  }

  lemma Congruent(a: nat, b: nat, r: nat)
    ensures (a + r) % 65536 == (b + r) % 65536 <==> a % 65536 == b % 65536
  {
  }

  lemma LengthIff(body: nat, kept: nat, exact: nat, others: nat, total: nat)
    requires body == kept + others && (exact + others) % 65536 == total
    ensures body % 65536 == total <==> kept % 65536 == exact % 65536
  {
    Congruent(kept, exact, others);
  }

  lemma Residue(x: nat, t: nat, q: nat)
    requires x == t + 65536 * q && t < 65536
    ensures x % 65536 == t
  {
  }

  function Wraps(x: nat): nat {
    x / 65536
  }

  lemma WrapsOf(s: Option<Text>)
    ensures Strlen(s) == Sent(s) + 65536 * Wraps(Strlen(s))
  {
  }

  // The body's length against the strings' true lengths.
  lemma BodyResidue(i: Intercept)
    requires Proper(i) && |Tlvs(Fields(i))| < 65536
    ensures (Exact(i.common) + OtherLength(i)) % 65536 == |Tlvs(Fields(i))|
  {
    hide Tlvs, Fields, OtherLength, Wraps, Strlen, Sent;
    var c, t := i.common, |Tlvs(Fields(i))|;
    BodyTotal(i);
    WrapsOf(c.liid);
    WrapsOf(c.authcc);
    WrapsOf(c.delivcc);
    WrapsOf(c.agency);
    WrapsOf(c.key);
    WrapsOf(User(i.own));
    Residue(Exact(c) + OtherLength(i), t,
            Wraps(Strlen(c.liid)) + Wraps(Strlen(c.authcc)) + Wraps(Strlen(c.delivcc))
            + Wraps(Strlen(c.agency)) + Wraps(Strlen(c.key)) + Wraps(Strlen(User(i.own))));
  }

  function User(p: Particular): Option<Text> {
    if p.Ip? then p.username else None
  }

  lemma BodyTotal(i: Intercept)
    requires Proper(i)
    ensures |Tlvs(Fields(i))| + Strlen(i.common.agency) + Strlen(i.common.key) + Strlen(User(i.own))
      == Sent(i.common.liid) + Sent(i.common.authcc) + Sent(i.common.delivcc)
         + Sent(i.common.agency) + Sent(i.common.key) + Sent(User(i.own)) + OtherLength(i)
  {
    TlvsLength(Fields(i));
    CommonTotal(i.common);
    OwnTotal(i.own);
    TotalConcat(StringFields(i.common) + NumberFields(i.common) + KeyField(i.common), OwnFields(i.own));
  }

  // At most fourteen fields of at most 4096 bytes.
  lemma BodyFits(i: Intercept)
    requires AllShort(Fields(i))
    ensures |Tlvs(Fields(i))| <= 14 * 4096
  {
    TlvsLength(Fields(i));
    assert |StringFields(i.common)| + |NumberFields(i.common)| == 9;
    assert |KeyField(i.common)| <= 1 && |OwnFields(i.own)| <= 4;
  }

  // When all fields are short enough to be pushed, the 16-bit length in the header is the exact
  // length of the body if and only if the lengths kept beside the strings agree with them.
  lemma HeaderLength(i: Intercept)
    requires Proper(i) && AllShort(Fields(i))
    ensures BodyLength(i) % 65536 == |Tlvs(Fields(i))| <==> LengthsAgree(i.common)
  {
    BodyFits(i);
    BodyResidue(i);
    LengthIff(BodyLength(i), Kept(i.common), Exact(i.common), OtherLength(i), |Tlvs(Fields(i))|);
  }

  // ---- Decoding ----

  datatype Kind = IpKind | VoipKind | EmailKind

  function KindOf(p: Particular): Kind {
    match p
    case Ip(_, _, _, _, _) => IpKind
    case Voip(_, _) => VoipKind
    case Email(_) => EmailKind
  }

  // What the decoders start from
  function Blank(kind: Kind): Intercept {
    Intercept(Shared(None, None, None, None, 0, 0, 0, 0, 0, 0, 0, 0, None),
              match kind
              case IpKind => Ip(None, 0, 0, 0, VENDOR_MIRROR_NONE)
              case VoipKind => Voip(0, 0)
              case EmailKind => Email(COMPRESSED_DEFAULT))
  }

  // An integer of n bytes read where a value starts, whatever the value's length.
  function Read(mem: seq<byte>, n: nat): nat {
    NativeValue(mem[..Min(n, |mem|)])
  }

  function ApplyCommon(c: Shared, kind: nat, len: nat, mem: seq<byte>): Option<Shared>
    requires len <= |mem|
  {
    if kind == MEDIATORID then Some(c.(destid := Read(mem, 4)))
    else if kind == LIID then Some(c.(liid := Some(mem[..len]), liidLen := len))
    else if kind == AUTHCC then Some(c.(authcc := Some(mem[..len]), authccLen := len))
    else if kind == DELIVCC then Some(c.(delivcc := Some(mem[..len]), delivccLen := len))
    else if kind == LEAID then Some(c.(agency := Some(mem[..len])))
    else if kind == START_TIME then Some(c.(startTime := Read(mem, 8)))
    else if kind == END_TIME then Some(c.(endTime := Read(mem, 8)))
    else if kind == TOMEDIATE then Some(c.(toMediate := Read(mem, 4)))
    else if kind == PAYLOAD_ENCRYPTION then Some(c.(encrypt := Read(mem, 4)))
    else if kind == ENCRYPTION_KEY then Some(c.(key := Some(mem[..len])))
    else None
  }

  function ApplyOwn(p: Particular, kind: nat, len: nat, mem: seq<byte>): Option<Particular>
    requires len <= |mem|
  {
    match p
    case Ip(_, _, _, _, _) =>
      if kind == VENDMIRRORID then Some(p.(mirror := Read(mem, 4)))
      else if kind == ACCESSTYPE then Some(p.(access := Read(mem, 4)))
      else if kind == INTOPTIONS then Some(p.(ipOptions := Read(mem, 4)))
      else if kind == USERNAME then
        Some(p.(username := if len == 0 then None else Some(mem[..len]), usernameLen := len))
      else None
    case Voip(_, _) =>
      if kind == INTOPTIONS then Some(p.(voipOptions := Read(mem, 4)))
      else if kind == INTERCEPTID then Some(p.(internalId := Read(mem, 8)))
      else None
    case Email(_) =>
      if kind == DELIVER_COMPRESSED then Some(p.(compressed := Read(mem, 1))) else None
  }

  // One field of a body: its kind, its length, and the memory where its value starts.
  function Apply(i: Intercept, kind: nat, len: nat, mem: seq<byte>): Option<Intercept>
    requires len <= |mem|
  {
    var c := ApplyCommon(i.common, kind, len, mem);
    if c.Some? then Some(i.(common := c.value))
    else
      var p := ApplyOwn(i.own, kind, len, mem);
      if p.Some? then Some(i.(own := p.value)) else None
  }

  // The decoders' loop as a function of what is left of the body.  An integer in a field that is
  // too short for it takes its other bytes from what comes next, past the body's end if need be,
  // where the memory holds `after`.
  function DecodeRest(bs: seq<byte>, after: seq<byte>, i: Intercept): Option<Intercept>
    decreases |bs|
  {
    if bs == [] then Some(i)
    else if |bs| <= 4 then None
    else
      var kind, len := Value(bs[0..2]), Value(bs[2..4]);
      if 4 + len > |bs| then None
      else
        var next := Apply(i, kind, len, bs[4..] + after);
        if next.None? then None else DecodeRest(bs[4 + len..], after, next.value)
  }

  // decode_ipintercept_start, decode_voipintercept_start, decode_emailintercept_start
  method Decode(kind: Kind, body: seq<byte>, after: seq<byte>) returns (r: Option<Intercept>)
    ensures r == DecodeRest(body, after, Blank(kind))
  {
    var i, pos := Blank(kind), 0;
    while pos < |body|
      invariant pos <= |body| && DecodeRest(body[pos..], after, i) == DecodeRest(body, after, Blank(kind))
    {
      ghost var bs := body[pos..];
      if pos + 4 >= |body| {
        return None;
      }
      var type16, len := Value(body[pos..pos + 2]), Value(body[pos + 2..pos + 4]);
      assert body[pos..pos + 2] == bs[0..2] && body[pos + 2..pos + 4] == bs[2..4];
      if pos + 4 + len > |body| {
        return None;
      }
      var next := Apply(i, type16, len, body[pos + 4..] + after);
      assert body[pos + 4..] == bs[4..] && body[pos + 4 + len..] == bs[4 + len..];
      if next.None? {
        return None;
      }
      i, pos := next.value, pos + 4 + len;
    }
    r := Some(i);
  }

  // ---- Decoding what was pushed ----

  function Expected(kind: nat): Option<nat> {
    if kind == START_TIME || kind == END_TIME || kind == INTERCEPTID then Some(8)
    else if kind == MEDIATORID || kind == TOMEDIATE || kind == PAYLOAD_ENCRYPTION || kind == VENDMIRRORID
            || kind == ACCESSTYPE || kind == INTOPTIONS then Some(4)
    else if kind == DELIVER_COMPRESSED then Some(1)
    else None
  }

  predicate Sized(f: Field) {
    f.kind < 65536 && |f.value| < 65536 && (Expected(f.kind).Some? ==> |f.value| == Expected(f.kind).value)
  }

  function Fold(i: Intercept, fs: seq<Field>): Option<Intercept>
    decreases |fs|
  {
    if fs == [] then Some(i)
    else
      var next := Apply(i, fs[0].kind, |fs[0].value|, fs[0].value);
      if next.None? then None else Fold(next.value, fs[1..])
  }

  lemma ApplyLocal(i: Intercept, f: Field, rest: seq<byte>)
    requires Sized(f)
    ensures Apply(i, f.kind, |f.value|, f.value + rest) == Apply(i, f.kind, |f.value|, f.value)
  {
    var mem := f.value + rest;
    assert mem[..|f.value|] == f.value[..|f.value|];
    if Expected(f.kind).Some? {
      var n := Expected(f.kind).value;
      assert mem[..Min(n, |mem|)] == f.value[..Min(n, |f.value|)];
    }
  }

  lemma Slices(h: seq<byte>, l: seq<byte>, v: seq<byte>, rest: seq<byte>)
    requires |h| == 2 && |l| == 2
    ensures var bs := h + l + v + rest;
      bs[0..2] == h && bs[2..4] == l && bs[4..] == v + rest && bs[4 + |v|..] == rest
  {
  }

  lemma TlvParts(f: Field, rest: seq<byte>)
    requires f.kind < 65536 && |f.value| < 65536
    ensures var bs := Tlv(f) + rest;
      && Value(bs[0..2]) == f.kind && Value(bs[2..4]) == |f.value|
      && bs[4..] == f.value + rest && bs[4 + |f.value|..] == rest
  {
    PowersOf256();
    BytesRoundTrip(f.kind, 2);
    BytesRoundTrip(|f.value|, 2);
    Slices(Bytes(f.kind, 2), Bytes(|f.value|, 2), f.value, rest);
  }

  lemma {:induction false} DecodeTlvs(i: Intercept, fs: seq<Field>, after: seq<byte>)
    requires forall f :: f in fs ==> Sized(f)
    requires fs != [] ==> fs[|fs| - 1].value != []
    ensures DecodeRest(Tlvs(fs), after, i) == Fold(i, fs)
    decreases |fs|
  {
    if fs != [] {
      var f, rest := fs[0], Tlvs(fs[1..]);
      assert f in fs;
      TlvParts(f, rest);
      ApplyLocal(i, f, rest + after);
      Associate(f.value, rest, after);
      assert fs[1..] == [] ==> f.value != [];
      assert fs[1..] != [] ==> |rest| >= 4;
      var next := Apply(i, f.kind, |f.value|, f.value);
      if next.Some? {
        DecodeTlvs(next.value, fs[1..], after);
      }
    }
  }

  // ---- What cannot be decoded ----

  // The fields each decoder knows.
  predicate KnownField(kind: Kind, field: nat) {
    || field in {MEDIATORID, LIID, AUTHCC, DELIVCC, LEAID, START_TIME, END_TIME, TOMEDIATE, PAYLOAD_ENCRYPTION,
                 ENCRYPTION_KEY}
    || match kind
       case IpKind => field in {VENDMIRRORID, ACCESSTYPE, INTOPTIONS, USERNAME}
       case VoipKind => field in {INTOPTIONS, INTERCEPTID}
       case EmailKind => field == DELIVER_COMPRESSED
  }

  lemma ApplyKnown(i: Intercept, field: nat, len: nat, mem: seq<byte>)
    requires len <= |mem|
    ensures Apply(i, field, len, mem).Some? <==> KnownField(KindOf(i.own), field)
    ensures Apply(i, field, len, mem).Some? ==> KindOf(Apply(i, field, len, mem).value.own) == KindOf(i.own)
  {
  }

  // What a decoder gives for fields that are not there ...
  lemma EmptyBody(after: seq<byte>)
    ensures var c := Shared(None, None, None, None, 0, 0, 0, 0, 0, 0, 0, 0, None);
      && DecodeRest([], after, Blank(IpKind)) == Some(Intercept(c, Ip(None, 0, 0, 0, 0xffffffff)))
      && DecodeRest([], after, Blank(VoipKind)) == Some(Intercept(c, Voip(0, 0)))
      && DecodeRest([], after, Blank(EmailKind)) == Some(Intercept(c, Email(255)))
  {
  }

  // ... and for the one that is not among those pushed here.
  lemma InternalId(i: Intercept, id: nat)
    requires i.own.Voip? && id < Pow256(8)
    ensures Apply(i, INTERCEPTID, 8, NativeBytes(id, 8)) == Some(i.(own := Voip(i.own.voipOptions, id)))
  {
    ReadNum(INTERCEPTID, id, 8);
  }

  // A body that is a sequence of whole fields the decoder knows, the last of them not empty.
  ghost predicate Decodable(bs: seq<byte>, fs: seq<Field>, kind: Kind) {
    && bs == Tlvs(fs) && (fs != [] ==> fs[|fs| - 1].value != [])
    && forall f :: f in fs ==> f.kind < 65536 && |f.value| < 65536 && KnownField(kind, f.kind)
  }

  lemma FirstField(bs: seq<byte>) returns (f: Field)
    requires |bs| > 4 && 4 + Value(bs[2..4]) <= |bs|
    ensures f.kind == Value(bs[0..2]) < 65536 && |f.value| == Value(bs[2..4]) < 65536
    ensures bs == Tlv(f) + bs[4 + |f.value|..]
  {
    f := Field(Value(bs[0..2]), bs[4..4 + Value(bs[2..4])]);
    PowersOf256();
    ValueRoundTrip(bs[0..2]);
    ValueRoundTrip(bs[2..4]);
    assert bs == bs[0..2] + bs[2..4] + f.value + bs[4 + |f.value|..];
  }

  lemma {:induction false} DecodedFields(bs: seq<byte>, after: seq<byte>, i: Intercept) returns (fs: seq<Field>)
    requires DecodeRest(bs, after, i).Some?
    ensures Decodable(bs, fs, KindOf(i.own))
    decreases |bs|
  {
    if bs == [] {
      fs := [];
    } else {
      var f := FirstField(bs);
      var rest := bs[4 + |f.value|..];
      ApplyKnown(i, f.kind, |f.value|, bs[4..] + after);
      var more := DecodedFields(rest, after, Apply(i, f.kind, |f.value|, bs[4..] + after).value);
      fs := [f] + more;
      assert fs[1..] == more;
      assert more == [] ==> rest == [];
    }
  }

  lemma {:induction false} FieldsDecoded(bs: seq<byte>, fs: seq<Field>, after: seq<byte>, i: Intercept)
    requires Decodable(bs, fs, KindOf(i.own))
    ensures DecodeRest(bs, after, i).Some?
    decreases |fs|
  {
    if fs != [] {
      var f, rest := fs[0], Tlvs(fs[1..]);
      assert f in fs;
      TlvParts(f, rest);
      ApplyKnown(i, f.kind, |f.value|, bs[4..] + after);
      assert fs[1..] == [] ==> f.value != [];
      assert fs[1..] != [] ==> |rest| >= 4;
      FieldsDecoded(rest, fs[1..], after, Apply(i, f.kind, |f.value|, bs[4..] + after).value);
    }
  }

  // A body is decoded if and only if it is such a sequence: one that is cut off, runs over or holds
  // a field the decoder does not know is refused.
  lemma DecodesExactly(bs: seq<byte>, after: seq<byte>, i: Intercept)
    ensures DecodeRest(bs, after, i).Some? <==> exists fs :: Decodable(bs, fs, KindOf(i.own))
  {
    if DecodeRest(bs, after, i).Some? {
      var fs := DecodedFields(bs, after, i);
    }
    if fs :| Decodable(bs, fs, KindOf(i.own)) {
      FieldsDecoded(bs, fs, after, i);
    }
  }

  lemma {:induction false} FoldConcat(i: Intercept, a: seq<Field>, b: seq<Field>)
    requires Fold(i, a).Some?
    ensures Fold(i, a + b) == Fold(Fold(i, a).value, b)
    decreases |a|
  {
    if a == [] {
      assert a + b == b;
    } else {
      assert (a + b)[1..] == a[1..] + b;
      FoldConcat(Apply(i, a[0].kind, |a[0].value|, a[0].value).value, a[1..], b);
    }
  }

  lemma FoldStep(i: Intercept, done: seq<Field>, i1: Intercept, f: Field, i2: Intercept)
    requires Fold(i, done) == Some(i1) && Apply(i1, f.kind, |f.value|, f.value) == Some(i2)
    ensures Fold(i, done + [f]) == Some(i2)
  {
    FoldConcat(i, done, [f]);
    assert [f][1..] == [];
    assert Fold(i2, []) == Some(i2);
  }

  lemma ReadNum(kind: nat, v: nat, n: nat)
    requires v < Pow256(n)
    ensures Read(Num(kind, v, n).value, n) == v
  {
    NativeRoundTrip(v, n);
    assert NativeBytes(v, n)[..n] == NativeBytes(v, n);
  }

  // The strings as they arrive.
  function WithStrings(c: Shared, from: Shared): Shared {
    c.(liid := Some(Str(LIID, from.liid).value), liidLen := Sent(from.liid),
       authcc := Some(Str(AUTHCC, from.authcc).value), authccLen := Sent(from.authcc),
       delivcc := Some(Str(DELIVCC, from.delivcc).value), delivccLen := Sent(from.delivcc),
       agency := Some(Str(LEAID, from.agency).value))
  }

  lemma FoldStrings(i: Intercept, c: Shared)
    ensures Fold(i, StringFields(c)) == Some(i.(common := WithStrings(i.common, c)))
  {
    var s := StringFields(c);
    var a, b, d, e := s[0], s[1], s[2], s[3];
    assert forall f :: f in s ==> f.value[..|f.value|] == f.value;
    var c1 := i.common.(liid := Some(a.value), liidLen := |a.value|);
    var c2 := c1.(authcc := Some(b.value), authccLen := |b.value|);
    var c3 := c2.(delivcc := Some(d.value), delivccLen := |d.value|);
    FoldStep(i, [], i, a, i.(common := c1));
    FoldStep(i, [] + [a], i.(common := c1), b, i.(common := c2));
    FoldStep(i, [] + [a] + [b], i.(common := c2), d, i.(common := c3));
    FoldStep(i, [] + [a] + [b] + [d], i.(common := c3), e, i.(common := WithStrings(i.common, c)));
    assert s == [] + [a] + [b] + [d] + [e];
  }

  function WithNumbers(c: Shared, from: Shared): Shared {
    c.(startTime := from.startTime, endTime := from.endTime, destid := from.destid,
       toMediate := from.toMediate, encrypt := from.encrypt)
  }

  lemma FoldNumbers(i: Intercept, c: Shared)
    requires c.startTime < Pow256(8) && c.endTime < Pow256(8)
    requires c.destid < Pow256(4) && c.toMediate < Pow256(4) && c.encrypt < Pow256(4)
    ensures Fold(i, NumberFields(c)) == Some(i.(common := WithNumbers(i.common, c)))
  {
    var n := NumberFields(c);
    var c1 := i.common.(startTime := c.startTime);
    var c2 := c1.(endTime := c.endTime);
    var c3 := c2.(destid := c.destid);
    var c4 := c3.(toMediate := c.toMediate);
    ReadNum(START_TIME, c.startTime, 8);
    ReadNum(END_TIME, c.endTime, 8);
    ReadNum(MEDIATORID, c.destid, 4);
    ReadNum(TOMEDIATE, c.toMediate, 4);
    ReadNum(PAYLOAD_ENCRYPTION, c.encrypt, 4);
    FoldStep(i, [], i, n[0], i.(common := c1));
    FoldStep(i, [] + [n[0]], i.(common := c1), n[1], i.(common := c2));
    FoldStep(i, [] + [n[0]] + [n[1]], i.(common := c2), n[2], i.(common := c3));
    FoldStep(i, [] + [n[0]] + [n[1]] + [n[2]], i.(common := c3), n[3], i.(common := c4));
    FoldStep(i, [] + [n[0]] + [n[1]] + [n[2]] + [n[3]], i.(common := c4), n[4], i.(common := WithNumbers(i.common, c)));
    assert n == [] + [n[0]] + [n[1]] + [n[2]] + [n[3]] + [n[4]];
  }

  function ArrivedText(s: Option<Text>): Option<Text> {
    if s.Some? then Some(Short(s.value)) else None
  }

  lemma FoldKey(i: Intercept, c: Shared)
    requires i.common.key.None?
    ensures Fold(i, KeyField(c)) == Some(i.(common := i.common.(key := ArrivedText(c.key))))
  {
    if c.key.Some? {
      var f := Str(ENCRYPTION_KEY, c.key);
      assert f.value[..|f.value|] == f.value;
      FoldStep(i, [], i, f, i.(common := i.common.(key := ArrivedText(c.key))));
      assert [] + [f] == KeyField(c);
    }
  }

  // The particular part as it arrives: an empty user name is as good as none, and the VoIP
  // internal identifier is not sent.
  function ArrivedOwn(p: Particular): Particular {
    match p
    case Ip(username, _, access, options, mirror) =>
      var f := Str(USERNAME, username);
      Ip(if f.value == [] then None else Some(f.value), |f.value|, access, options, mirror)
    case Voip(options, _) => Voip(options, 0)
    case Email(compressed) => Email(compressed)
  }

  lemma FoldIp(i: Intercept, p: Particular)
    requires p.Ip? && i.own == Ip(None, 0, 0, 0, VENDOR_MIRROR_NONE)
    requires p.access < Pow256(4) && p.ipOptions < Pow256(4) && p.mirror < Pow256(4)
    ensures Fold(i, OwnFields(p)) == Some(i.(own := ArrivedOwn(p)))
  {
    var fs := OwnFields(p);
    var p1 := i.own.(username := ArrivedOwn(p).username, usernameLen := |fs[0].value|);
    var p2 := p1.(access := p.access);
    var p3 := p2.(ipOptions := p.ipOptions);
    assert fs[0].value[..|fs[0].value|] == fs[0].value;
    ReadNum(ACCESSTYPE, p.access, 4);
    ReadNum(INTOPTIONS, p.ipOptions, 4);
    ReadNum(VENDMIRRORID, p.mirror, 4);
    FoldStep(i, [], i, fs[0], i.(own := p1));
    FoldStep(i, [] + [fs[0]], i.(own := p1), fs[1], i.(own := p2));
    FoldStep(i, [] + [fs[0]] + [fs[1]], i.(own := p2), fs[2], i.(own := p3));
    if p.mirror != VENDOR_MIRROR_NONE {
      FoldStep(i, [] + [fs[0]] + [fs[1]] + [fs[2]], i.(own := p3), fs[3], i.(own := ArrivedOwn(p)));
      assert fs == [] + [fs[0]] + [fs[1]] + [fs[2]] + [fs[3]];
    } else {
      assert fs == [] + [fs[0]] + [fs[1]] + [fs[2]];
    }
  }

  lemma FoldOwn(i: Intercept, p: Particular)
    requires i.own == Blank(KindOf(p)).own
    requires p.Ip? ==> p.access < Pow256(4) && p.ipOptions < Pow256(4) && p.mirror < Pow256(4)
    requires p.Voip? ==> p.voipOptions < Pow256(4)
    requires p.Email? ==> p.compressed < Pow256(1)
    ensures Fold(i, OwnFields(p)) == Some(i.(own := ArrivedOwn(p)))
  {
    match p
    case Ip(_, _, _, _, _) => FoldIp(i, p);
    case Voip(options, _) =>
      ReadNum(INTOPTIONS, options, 4);
      FoldStep(i, [], i, OwnFields(p)[0], i.(own := ArrivedOwn(p)));
      assert [] + [OwnFields(p)[0]] == OwnFields(p);
    case Email(compressed) =>
      ReadNum(DELIVER_COMPRESSED, compressed, 1);
      FoldStep(i, [], i, OwnFields(p)[0], i.(own := ArrivedOwn(p)));
      assert [] + [OwnFields(p)[0]] == OwnFields(p);
  }

  // What the receiver gets of an intercept.
  function Arrived(i: Intercept): Intercept {
    var common := WithNumbers(WithStrings(Blank(KindOf(i.own)).common, i.common), i.common);
    Intercept(common.(key := ArrivedText(i.common.key)), ArrivedOwn(i.own))
  }

  lemma FoldFields(i: Intercept)
    requires Proper(i)
    ensures Fold(Blank(KindOf(i.own)), Fields(i)) == Some(Arrived(i))
  {
    var blank, c := Blank(KindOf(i.own)), i.common;
    var s, n, k := StringFields(c), NumberFields(c), KeyField(c);
    FoldStrings(blank, c);
    var i1 := Fold(blank, s).value;
    FoldNumbers(i1, c);
    FoldConcat(blank, s, n);
    var i2 := Fold(i1, n).value;
    FoldKey(i2, c);
    FoldConcat(blank, s + n, k);
    FoldOwn(Fold(i2, k).value, i.own);
    FoldConcat(blank, s + n + k, OwnFields(i.own));
  }

  predicate AllSized(fs: seq<Field>) {
    forall f :: f in fs ==> Sized(f)
  }

  lemma CommonSized(c: Shared)
    ensures AllSized(StringFields(c)) && AllSized(NumberFields(c)) && AllSized(KeyField(c))
  {
  }

  lemma OwnSized(p: Particular)
    ensures AllSized(OwnFields(p)) && OwnFields(p) != [] && OwnFields(p)[|OwnFields(p)| - 1].value != []
  {
  }

  // Decoding the fields pushed for an intercept gives what arrives of it ...
  lemma DecodePushed(i: Intercept, after: seq<byte>)
    requires Proper(i)
    ensures DecodeRest(Tlvs(Fields(i)), after, Blank(KindOf(i.own))) == Some(Arrived(i))
  {
    CommonSized(i.common);
    OwnSized(i.own);
    DecodeTlvs(Blank(KindOf(i.own)), Fields(i), after);
    FoldFields(i);
  }

  // The wire fields of an intercept: the lengths are those of the strings.
  function Plain(i: Intercept): Intercept {
    var c := i.common;
    Intercept(c.(liidLen := Strlen(c.liid), authccLen := Strlen(c.authcc), delivccLen := Strlen(c.delivcc)),
              match i.own
              case Ip(username, _, access, options, mirror) =>
                Ip(if Strlen(username) == 0 then None else username, Strlen(username), access, options, mirror)
              case Voip(options, _) => Voip(options, 0)
              case Email(compressed) => Email(compressed))
  }

  // No string is too long for its 16-bit length.
  predicate Whole(i: Intercept) {
    && Strlen(i.common.liid) < 65536 && Strlen(i.common.authcc) < 65536 && Strlen(i.common.delivcc) < 65536
    && Strlen(i.common.agency) < 65536 && Strlen(i.common.key) < 65536 && Strlen(User(i.own)) < 65536
  }

  lemma ShortWhole(s: Text)
    ensures |s| < 65536 ==> Short(s) == s
    ensures |s| >= 65536 ==> |Short(s)| < |s|
  {
  }

  // ... which is every one of its wire fields if and only if no string is cut off.
  lemma RoundTrip(i: Intercept, after: seq<byte>)
    requires Proper(i)
    ensures DecodeRest(Tlvs(Fields(i)), after, Blank(KindOf(i.own))) == Some(Plain(i)) <==> Whole(i)
  {
    DecodePushed(i, after);
    var c := i.common;
    ShortWhole(c.liid.value);
    ShortWhole(c.authcc.value);
    ShortWhole(c.delivcc.value);
    ShortWhole(c.agency.value);
    if c.key.Some? { ShortWhole(c.key.value); }
    if i.own.Ip? && i.own.username.Some? { ShortWhole(i.own.username.value); }
  }

  // An email intercept for an agency with a name of 65536 bytes.
  function LongNamed(): Intercept {
    Intercept(Shared(Some([]), Some([]), Some([]), Some(seq(65536, _ => 'x' as byte)), 0, 0, 0, 0, 0, 0, 0, 0, None),
              Email(0))
  }

  // It can be pushed, and arrives without the name.
  lemma LongNameLost(after: seq<byte>)
    ensures Proper(LongNamed()) && AllShort(Fields(LongNamed()))
    ensures DecodeRest(Tlvs(Fields(LongNamed())), after, Blank(EmailKind)) != Some(Plain(LongNamed()))
  {
    var i := LongNamed();
    assert Pow256(1) == 256;
    PowersOf256();
    assert AllShort(StringFields(i.common)) && AllShort(NumberFields(i.common));
    assert AllShort(KeyField(i.common)) && AllShort(OwnFields(i.own));
    RoundTrip(i, after);
  }

  // ---- Pushing ----

  // push_tlv
  method PushTlv(nb: NetBuffer, f: Field) returns (ok: bool)
    requires nb.Valid()
    modifies nb, nb.buf
    ensures nb.Valid() && (nb.buf == old(nb.buf) || fresh(nb.buf))
    ensures ok <==> |f.value| <= MAX_VALUE
    ensures nb.Contents() == old(nb.Contents()) + (if ok then Tlv(f) else [])
  {
    if |f.value| > MAX_VALUE {
      return false;
    }
    nb.PushGeneric(Tlv(f));
    ok := true;
  }

  // How many fields there are before the first that is too long.
  function LongAt(fs: seq<Field>): (n: nat)
    ensures n <= |fs| && AllShort(fs[..n]) && (n < |fs| ==> |fs[n].value| > MAX_VALUE)
  {
    if fs == [] || |fs[0].value| > MAX_VALUE then 0
    else
      var n := LongAt(fs[1..]);
      assert fs[..n + 1] == [fs[0]] + fs[1..][..n];
      n + 1
  }

  lemma LongAtUnique(fs: seq<Field>, n: nat)
    requires n <= |fs| && AllShort(fs[..n]) && (n < |fs| ==> |fs[n].value| > MAX_VALUE)
    ensures LongAt(fs) == n && (n == |fs| <==> AllShort(fs))
  {
    assert n == |fs| ==> fs[..n] == fs;
  }

  // The pushes of an intercept's fields, given up at the first that fails
  method PushFields(nb: NetBuffer, fs: seq<Field>) returns (ok: bool)
    requires nb.Valid()
    modifies nb, nb.buf
    ensures nb.Valid() && (nb.buf == old(nb.buf) || fresh(nb.buf))
    ensures ok <==> AllShort(fs)
    ensures nb.Contents() == old(nb.Contents()) + Tlvs(fs[..LongAt(fs)])
  {
    var n := 0;
    while n < |fs|
      invariant n <= |fs| && nb.Valid() && (nb.buf == old(nb.buf) || fresh(nb.buf))
      invariant AllShort(fs[..n]) && nb.Contents() == old(nb.Contents()) + Tlvs(fs[..n])
    {
      ok := PushTlv(nb, fs[n]);
      if !ok {
        LongAtUnique(fs, n);
        return;
      }
      TlvsNext(fs, n);
      Associate(old(nb.Contents()), Tlvs(fs[..n]), Tlv(fs[n]));
      n := n + 1;
    }
    LongAtUnique(fs, n);
    ok := true;
  }

  lemma TlvsNext(fs: seq<Field>, n: nat)
    requires n < |fs|
    ensures Tlvs(fs[..n + 1]) == Tlvs(fs[..n]) + Tlv(fs[n])
    ensures AllShort(fs[..n]) && |fs[n].value| <= MAX_VALUE ==> AllShort(fs[..n + 1])
  {
    assert fs[..n + 1] == fs[..n] + [fs[n]];
    FlatConcat(Tlv, fs[..n], [fs[n]]);
    FlatOne(Tlv, fs[n]);
  }

  const START_IP: nat := 2
  const START_VOIP: nat := 4
  const MODIFY_VOIP: nat := 24
  const MODIFY_IP: nat := 26
  const START_EMAIL: nat := 34
  const MODIFY_EMAIL: nat := 36

  function MessageKind(p: Particular, changed: bool): nat {
    match p
    case Ip(_, _, _, _, _) => if changed then MODIFY_IP else START_IP
    case Voip(_, _) => if changed then MODIFY_VOIP else START_VOIP
    case Email(_) => if changed then MODIFY_EMAIL else START_EMAIL
  }

  // ---- What the collector does with a message ----

  // The threads of a collector that keep intercepts.
  datatype Thread = SyncThread | VoipThread | EmailThread

  function ThreadFor(p: Particular): Thread {
    match p
    case Ip(_, _, _, _, _) => SyncThread
    case Voip(_, _) => VoipThread
    case Email(_) => EmailThread
  }

  // recv_from_provisioner keeps the messages about IP intercepts and passes the others on.
  function Route(kind: nat): Option<Thread> {
    if kind == START_IP || kind == MODIFY_IP then Some(SyncThread)
    else if kind == START_VOIP || kind == MODIFY_VOIP then Some(VoipThread)
    else if kind == START_EMAIL || kind == MODIFY_EMAIL then Some(EmailThread)
    else None
  }

  // An intercept as a thread takes it: new, or changed.
  datatype Order = Order(intercept: Intercept, changed: bool)

  // The switches of recv_from_provisioner, process_intersync_msg and handle_provisioner_message.
  // Changes are decoded by the functions for new intercepts.
  function Taken(thread: Thread, m: NetBuffers.Message, after: seq<byte>): Option<Order> {
    match thread
    case SyncThread =>
      if m.kind == START_IP then AsOrder(DecodeRest(m.body, after, Blank(IpKind)), false)
      else if m.kind == MODIFY_IP then AsOrder(DecodeRest(m.body, after, Blank(IpKind)), true)
      else None
    case VoipThread =>
      if m.kind == START_VOIP then AsOrder(DecodeRest(m.body, after, Blank(VoipKind)), false)
      else if m.kind == MODIFY_VOIP then AsOrder(DecodeRest(m.body, after, Blank(VoipKind)), true)
      else None
    case EmailThread =>
      if m.kind == START_EMAIL then AsOrder(DecodeRest(m.body, after, Blank(EmailKind)), false)
      else if m.kind == MODIFY_EMAIL then AsOrder(DecodeRest(m.body, after, Blank(EmailKind)), true)
      else None
  }

  function AsOrder(i: Option<Intercept>, changed: bool): Option<Order> {
    if i.None? then None else Some(Order(i.value, changed))
  }

  // The first message of a stream, and what becomes of it.
  function Ordered(stream: seq<byte>): Option<Order> {
    var (parsed, used) := Parse(stream);
    if !parsed.Got? || Route(parsed.message.kind).None? then None
    else Taken(Route(parsed.message.kind).value, parsed.message, stream[used..])
  }

  // What a push appends.
  function Pushed(i: Intercept, changed: bool): seq<byte>
    requires Proper(i)
  {
    Header(MessageKind(i.own, changed), BodyLength(i) % 65536, 0) + Tlvs(Fields(i))
  }

  // The six functions that push an intercept or a change to one; the static ranges that
  // follow an IP intercept are messages of their own.  Only two of them look at the length before it
  // is cut to 16 bits.  A failed push leaves nothing in the buffer if the length was found too large,
  // and else the header and the fields before the first that is too long.
  method PushIntercept(nb: NetBuffer, i: Intercept, changed: bool) returns (ok: bool)
    requires nb.Valid() && Proper(i)
    modifies nb, nb.buf
    ensures nb.Valid() && (nb.buf == old(nb.buf) || fresh(nb.buf))
    ensures ok <==> AllShort(Fields(i)) && (changed || i.own.Email? || BodyLength(i) <= 65535)
    ensures ok ==> nb.Contents() == old(nb.Contents()) + Pushed(i, changed)
    ensures !ok && !changed && !i.own.Email? && BodyLength(i) > 65535 ==> nb.Contents() == old(nb.Contents())
    ensures !ok && (changed || i.own.Email? || BodyLength(i) <= 65535) ==>
      var n := LongAt(Fields(i));
      && n < |Fields(i)|
      && nb.Contents() == old(nb.Contents()) + (Pushed(i, changed)[..HEADER_LENGTH] + Tlvs(Fields(i)[..n]))
  {
    if !changed && (i.own.Ip? || i.own.Voip?) && BodyLength(i) > 65535 {
      return false;
    }
    ghost var header, fs := Header(MessageKind(i.own, changed), BodyLength(i) % 65536, 0), Fields(i);
    nb.PushGeneric(Header(MessageKind(i.own, changed), BodyLength(i) % 65536, 0));
    ok := PushFields(nb, Fields(i));
    Associate(old(nb.Contents()), header, Tlvs(fs[..LongAt(fs)]));
    if ok { AllPushed(fs); }
  }

  lemma AllPushed(fs: seq<Field>)
    requires AllShort(fs)
    ensures fs[..LongAt(fs)] == fs
  {
    assert fs[..|fs|] == fs;
    LongAtUnique(fs, |fs|);
  }

  // The receiver takes as many bytes for the body as the header says.
  lemma CutBody(kind: nat, length: nat, fields: seq<byte>, rest: seq<byte>)
    requires kind < Pow256(2) && kind != NO_MESSAGE && length < Pow256(2) && length <= |fields| + |rest|
    ensures var body := (fields + rest)[..length];
      && Parse(Header(kind, length, 0) + (fields + rest))
         == (Got(NetBuffers.Message(kind, 0, body)), HEADER_LENGTH + length)
      && (body == fields <==> length == |fields|)
  {
    CutStream(kind, length, fields + rest);
    if |fields| == length { assert (fields + rest)[..length] == fields; }
  }

  lemma CutStream(kind: nat, length: nat, stream: seq<byte>)
    requires kind < Pow256(2) && kind != NO_MESSAGE && length < Pow256(2) && length <= |stream|
    ensures Parse(Header(kind, length, 0) + stream)
      == (Got(NetBuffers.Message(kind, 0, stream[..length])), HEADER_LENGTH + length)
  {
    hide Parse, Header;
    var m, rest := NetBuffers.Message(kind, 0, stream[..length]), stream[length..];
    ParseWhole(m, rest);
    Associate(Header(kind, length, 0), m.body, rest);
    assert m.body + rest == stream;
  }

  // Those are the pushed fields if and only if the kept lengths agree with the strings.
  lemma ReceivedBody(i: Intercept, changed: bool, rest: seq<byte>)
    requires Proper(i) && AllShort(Fields(i)) && BodyLength(i) % 65536 <= |Tlvs(Fields(i))| + |rest|
    ensures var kind, length := MessageKind(i.own, changed), BodyLength(i) % 65536;
      var body := (Tlvs(Fields(i)) + rest)[..length];
      && Parse(Header(kind, length, 0) + (Tlvs(Fields(i)) + rest))
         == (Got(NetBuffers.Message(kind, 0, body)), HEADER_LENGTH + length)
      && (body == Tlvs(Fields(i)) <==> LengthsAgree(i.common))
  {
    HeaderLength(i);
    PowersOf256();
    CutBody(MessageKind(i.own, changed), BodyLength(i) % 65536, Tlvs(Fields(i)), rest);
  }

  // An email intercept that keeps the length 0 for a LIID of one byte.
  function OffByOne(): Intercept {
    Intercept(Shared(Some([7]), Some([]), Some([]), Some([]), 0, 0, 0, 0, 0, 0, 0, 0, None), Email(0))
  }

  lemma OffByOneLength(i: Intercept)
    requires i == OffByOne()
    ensures Proper(i) && AllShort(Fields(i)) && |Tlvs(Fields(i))| == BodyLength(i) + 1
  {
    assert Pow256(1) == 256;
    PowersOf256();
    assert AllShort(StringFields(i.common)) && AllShort(NumberFields(i.common));
    assert AllShort(KeyField(i.common)) && AllShort(OwnFields(i.own));
    BodyTotal(i);
    assert Sent(i.common.liid) == 1;
  }

  // Its body arrives a byte short.
  lemma WrongLength(i: Intercept, rest: seq<byte>)
    requires i == OffByOne()
    ensures Proper(i) && AllShort(Fields(i)) && |Tlvs(Fields(i))| > 0
    ensures Parse(Header(START_EMAIL, BodyLength(i) % 65536, 0) + (Tlvs(Fields(i)) + rest)).0
      == Got(NetBuffers.Message(START_EMAIL, 0, Tlvs(Fields(i))[..|Tlvs(Fields(i))| - 1]))
  {
    OffByOneLength(i);
    BodyFits(i);
    ByteShort(START_EMAIL, BodyLength(i), Tlvs(Fields(i)), rest);
  }

  lemma ByteShort(kind: nat, length: nat, fields: seq<byte>, rest: seq<byte>)
    requires kind < 65536 && kind != NO_MESSAGE && |fields| == length + 1 <= 65536
    ensures Parse(Header(kind, length % 65536, 0) + (fields + rest)).0
      == Got(NetBuffers.Message(kind, 0, fields[..|fields| - 1]))
  {
    PowersOf256();
    assert length % 65536 == length;
    CutBody(kind, length, fields, rest);
    assert (fields + rest)[..length] == fields[..length];
  }

  // The pushed message is found by the receiver, whatever follows, with exactly its fields as body.
  lemma FoundWhole(i: Intercept, changed: bool, rest: seq<byte>)
    requires Proper(i) && AllShort(Fields(i)) && LengthsAgree(i.common)
    ensures var m := NetBuffers.Message(MessageKind(i.own, changed), 0, Tlvs(Fields(i)));
      && Pushed(i, changed) == Frame(m) && Parse(Pushed(i, changed) + rest) == (Got(m), |Frame(m)|)
  {
    BodyFits(i);
    HeaderLength(i);
    PowersOf256();
    ParseWhole(NetBuffers.Message(MessageKind(i.own, changed), 0, Tlvs(Fields(i))), rest);
  }

  // The switches on the kind undo its choice.
  lemma Switched(p: Particular, changed: bool, body: seq<byte>, after: seq<byte>)
    ensures var m := NetBuffers.Message(MessageKind(p, changed), 0, body);
      && Route(m.kind) == Some(ThreadFor(p))
      && Taken(ThreadFor(p), m, after) == AsOrder(DecodeRest(body, after, Blank(KindOf(p))), changed)
  {
  }

  // From end to end, whatever follows in the stream: a pushed intercept reaches the thread for its
  // kind as a new one if it was pushed as new, and as a changed one if it was pushed as changed, and
  // with exactly its wire fields if and only if no string is cut off.
  lemma EndToEnd(i: Intercept, changed: bool, rest: seq<byte>)
    requires Proper(i) && AllShort(Fields(i)) && LengthsAgree(i.common)
    ensures Ordered(Pushed(i, changed) + rest) == Some(Order(Plain(i), changed)) <==> Whole(i)
    ensures Ordered(Pushed(i, changed) + rest) == Some(Order(Arrived(i), changed))
    ensures var (parsed, _) := Parse(Pushed(i, changed) + rest);
      parsed.Got? && Route(parsed.message.kind) == Some(ThreadFor(i.own))
  {
    hide DecodeRest, Parse, Plain, Whole, Arrived, Pushed, Frame, Route, Taken, MessageKind, Proper;
    FoundWhole(i, changed, rest);
    Switched(i.own, changed, Tlvs(Fields(i)), rest);
    DecodePushed(i, rest);
    RoundTrip(i, rest);
    assert (Pushed(i, changed) + rest)[|Pushed(i, changed)|..] == rest;
  }
}

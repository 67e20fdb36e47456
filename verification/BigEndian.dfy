// Fixed-width unsigned integers as bytes, in network order and in the order of a little-endian
// host.
module BigEndian {
  import opened Common

  function Pow256(n: nat): (p: nat)
    ensures p > 0
  {
    if n == 0 then 1 else 256 * Pow256(n - 1)
  }

  // The n low bytes of v, most significant first; two's complement if v is negative.
  function Bytes(v: int, n: nat): (bs: seq<byte>)
    ensures |bs| == n
    decreases n
  {
    if n == 0 then [] else Bytes(v / 256, n - 1) + [(v % 256) as byte]
  }

  function Value(bs: seq<byte>): nat {
    if bs == [] then 0 else 256 * Value(bs[..|bs| - 1]) + bs[|bs| - 1] as nat
  }

  lemma {:induction false} BytesRoundTrip(v: nat, n: nat)
    requires v < Pow256(n)
    ensures Value(Bytes(v, n)) == v
  {
    if n > 0 {
      BytesRoundTrip(v / 256, n - 1);
      assert Bytes(v, n)[..n - 1] == Bytes(v / 256, n - 1);
    }
  }

  lemma {:induction false} ValueRoundTrip(bs: seq<byte>)
    ensures Value(bs) < Pow256(|bs|)
    ensures Bytes(Value(bs), |bs|) == bs
  {
    if bs != [] {
      var n := |bs| - 1;
      ValueRoundTrip(bs[..n]);
      assert Value(bs) / 256 == Value(bs[..n]);
      assert bs == bs[..n] + [bs[n]];
    }
  }

  // The n low bytes of v, least significant first.
  function NativeBytes(v: nat, n: nat): (bs: seq<byte>)
    ensures |bs| == n
  {
    if n == 0 then [] else [(v % 256) as byte] + NativeBytes(v / 256, n - 1)
  }

  function NativeValue(bs: seq<byte>): nat {
    if bs == [] then 0 else 256 * NativeValue(bs[1..]) + bs[0] as nat
  }

  lemma {:induction false} NativeRoundTrip(v: nat, n: nat)
    requires v < Pow256(n)
    ensures NativeValue(NativeBytes(v, n)) == v
  {
    if n > 0 {
      NativeRoundTrip(v / 256, n - 1);
      assert NativeBytes(v, n)[1..] == NativeBytes(v / 256, n - 1);
    }
  }

  // The two's-complement value of a string of bytes.
  function Signed(bs: seq<byte>): int {
    if bs != [] && bs[0] >= 128 then Value(bs) - Pow256(|bs|) else Value(bs)
  }

  // Low bytes do not change when a multiple of 256^n is added.
  lemma {:induction false} BytesModulo(v: int, n: nat)
    ensures Bytes(v + Pow256(n), n) == Bytes(v, n)
    decreases n
  {
    if n > 0 {
      BytesModulo(v / 256, n - 1);
      assert (v + Pow256(n)) / 256 == v / 256 + Pow256(n - 1);
      assert (v + Pow256(n)) % 256 == v % 256;
    }
  }

  // The first byte tells in which half of the range a value lies.
  lemma {:induction false} FirstByte(bs: seq<byte>)
    requires bs != []
    ensures bs[0] as nat * Pow256(|bs| - 1) <= Value(bs) < (bs[0] as nat + 1) * Pow256(|bs| - 1)
  {
    if |bs| > 1 {
      var n := |bs| - 1;
      FirstByte(bs[..n]);
      assert bs[..n][0] == bs[0];
      Scale(bs[0] as nat, Pow256(n - 1));
      Scale(bs[0] as nat + 1, Pow256(n - 1));
    }
  }

  lemma Scale(a: nat, p: nat)
    ensures a * (256 * p) == 256 * (a * p)
  {
  }

  lemma {:induction false} Monotone(a: nat, b: nat, p: nat)
    requires a <= b
    ensures a * p <= b * p
  {
    if p > 0 {
      Monotone(a, b, p - 1);
      assert a * p == a * (p - 1) + a && b * p == b * (p - 1) + b;
    }
  }

  predicate Fits(v: int, n: nat) {
    n > 0 && -128 * Pow256(n - 1) <= v < 128 * Pow256(n - 1)
  }

  // The bytes of a value that fits are the only ones with that value.
  lemma SignedUnique(bs: seq<byte>, v: int)
    requires bs != [] && Fits(v, |bs|)
    ensures Signed(bs) == v <==> bs == Bytes(v, |bs|)
  {
    SignedRoundTrip(v, |bs|);
    if Signed(bs) == v {
      ValueRoundTrip(bs);
      BytesModulo(v, |bs|);
    }
  }

  lemma SignedRoundTrip(v: int, n: nat)
    requires Fits(v, n)
    ensures Signed(Bytes(v, n)) == v
  {
    var u := if v >= 0 then v else v + Pow256(n);
    assert Pow256(n) == 256 * Pow256(n - 1);
    BytesModulo(v, n);
    BytesRoundTrip(u, n);
    FirstByte(Bytes(v, n));
    Half(Bytes(v, n)[0] as nat, Pow256(n - 1), u);
  }

  lemma Half(b: nat, p: nat, u: nat)
    requires b * p <= u < (b + 1) * p
    ensures b >= 128 <==> u >= 128 * p
  {
    if b >= 128 { Monotone(128, b, p); } else { Monotone(b + 1, 128, p); }
  }
}

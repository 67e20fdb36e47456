// Definitions shared by the other modules.
module Common {
  datatype Option<+T> = None | Some(value: T)

  newtype byte = x: int | 0 <= x < 256

  function Min(a: nat, b: nat): nat {
    if a < b then a else b
  }

  lemma SubSlice(s: seq<byte>, a: nat, b: nat, i: nat, j: nat)
    requires a <= b <= |s| && i <= j <= b - a
    ensures s[a..b][i..j] == s[a + i..a + j]
  {
    var u, v := s[a..b][i..j], s[a + i..a + j];
    assert |u| == |v|;
    forall k | 0 <= k < |u| ensures u[k] == v[k] {
      assert u[k] == s[a..b][i + k];
      assert v[k] == s[a + i + k];
    }
  }

  // memmove to the front of the buffer
  method MoveDown(buf: array<byte>, slide: nat, amount: nat)
    requires slide + amount <= buf.Length
    modifies buf
    ensures buf[..amount] == old(buf[slide..slide + amount])
    ensures buf[amount..] == old(buf[amount..])
  {
    forall i | 0 <= i < amount {
      buf[i] := buf[i + slide];
    }
  }

  // memcpy into a buffer
  method PutAt(buf: array<byte>, at: nat, data: seq<byte>)
    requires at + |data| <= buf.Length
    modifies buf
    ensures buf[..at] == old(buf[..at]) && buf[at..at + |data|] == data
    ensures buf[at + |data|..] == old(buf[at + |data|..])
  {
    forall i | 0 <= i < |data| {
      buf[at + i] := data[i];
    }
  }

  // realloc, keeping at least the first `used` bytes
  method Resized(buf: array<byte>, length: nat, used: nat) returns (space: array<byte>)
    requires used <= buf.Length && used <= length
    ensures fresh(space) && space.Length == length && space[..used] == buf[..used]
  {
    space := new byte[length];
    forall i | 0 <= i < buf.Length && i < length {
      space[i] := buf[i];
    }
  }

  // The encodings of a sequence of things, one after the other.
  function Flat<T>(encode: T -> seq<byte>, ts: seq<T>): seq<byte> {
    if ts == [] then [] else encode(ts[0]) + Flat(encode, ts[1..])
  }

  lemma Associate(a: seq<byte>, b: seq<byte>, c: seq<byte>)
    ensures a + (b + c) == a + b + c
  {
  }

  lemma {:induction false} FlatConcat<T>(encode: T -> seq<byte>, a: seq<T>, b: seq<T>)
    ensures Flat(encode, a + b) == Flat(encode, a) + Flat(encode, b)
  {
    if a == [] {
      assert a + b == b;
    } else {
      FlatConcat(encode, a[1..], b);
      assert (a + b)[1..] == a[1..] + b;
      Associate(encode(a[0]), Flat(encode, a[1..]), Flat(encode, b));
    }
  }

  lemma FlatOne<T>(encode: T -> seq<byte>, t: T)
    ensures Flat(encode, [t]) == encode(t)
  {
    assert [t][1..] == [];
    assert Flat(encode, [t]) == encode(t) + [];
  }
}

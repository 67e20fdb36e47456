// Patching the sequence number and timestamp of an encoded PS header in place.
module HeaderTemplates {
  import opened Common
  import opened BigEndian

  // Where the contents of an INTEGER lie in the header.
  datatype Window = Window(at: nat, size: nat)

  predicate Inside(w: Window, length: nat) {
    w.at + w.size <= length
  }

  predicate Apart(v: Window, w: Window) {
    v.at + v.size <= w.at || w.at + w.size <= v.at
  }

  predicate Covers(w: Window, k: nat) {
    w.at <= k < w.at + w.size
  }

  class Template {
    const header: array<byte>
    const seqno: Window
    const sec: Window
    const usec: Window

    constructor (header: array<byte>, seqno: Window, sec: Window, usec: Window)
      ensures this.header == header && this.seqno == seqno && this.sec == sec && this.usec == usec
    {
      this.header, this.seqno, this.sec, this.usec := header, seqno, sec, usec;
    }

    predicate Valid() {
      && Inside(seqno, header.Length) && Inside(sec, header.Length) && Inside(usec, header.Length)
      && Apart(seqno, sec) && Apart(seqno, usec) && Apart(sec, usec)
    }

    // etsili_update_header_template; what its loops leave of the timestamp is returned.
    method Update(seqnoValue: int, secValue: int, usecValue: int) returns (secRest: int, usecRest: int)
      requires Valid()
      modifies header
      ensures Patched(old(header[..]), header[..], seqno, seqnoValue, sec, secValue, usec, usecValue)
      ensures secRest == Shift(secValue, sec.size) && usecRest == Shift(usecValue, usec.size)
    {
      var _ := WriteLow(header, seqno, seqnoValue);
      secRest := WriteLow(header, sec, secValue);
      assert header[seqno.at..seqno.at + seqno.size] == Bytes(seqnoValue, seqno.size);
      usecRest := WriteLow(header, usec, usecValue);
      assert header[seqno.at..seqno.at + seqno.size] == Bytes(seqnoValue, seqno.size);
      assert header[sec.at..sec.at + sec.size] == Bytes(secValue, sec.size);
    }
  }

  // Each window holds the low bytes of its value, and every other byte is as it was.
  ghost predicate Patched(h: seq<byte>, h': seq<byte>, v: Window, a: int, w: Window, b: int, x: Window, c: int) {
    && |h'| == |h| && Inside(v, |h|) && Inside(w, |h|) && Inside(x, |h|)
    && h'[v.at..v.at + v.size] == Bytes(a, v.size)
    && h'[w.at..w.at + w.size] == Bytes(b, w.size)
    && h'[x.at..x.at + x.size] == Bytes(c, x.size)
    && forall k :: 0 <= k < |h| && !Covers(v, k) && !Covers(w, k) && !Covers(x, k) ==> h'[k] == h[k]
  }

  // One of the countdown loops.
  method WriteLow(h: array<byte>, w: Window, value: int) returns (rest: int)
    requires Inside(w, h.Length)
    modifies h
    ensures h[w.at..w.at + w.size] == Bytes(value, w.size)
    ensures forall k :: 0 <= k < h.Length && !Covers(w, k) ==> h[k] == old(h[k])
    ensures rest == Shift(value, w.size)
  {
    rest := value;
    var i := w.size - 1;
    while i >= 0
      invariant -1 <= i < w.size
      invariant h[w.at + i + 1..w.at + w.size] == Bytes(value, w.size - 1 - i)
      invariant rest == Shift(value, w.size - 1 - i)
      invariant forall k :: 0 <= k < h.Length && !Covers(w, k) ==> h[k] == old(h[k])
    {
      ghost var n := w.size - 1 - i;
      ghost var done := h[w.at + i + 1..w.at + w.size];
      h[w.at + i] := (rest % 256) as byte;
      assert h[w.at + i..w.at + w.size] == [h[w.at + i]] + done;
      OneMore(value, n);
      rest := rest / 256;
      i := i - 1;
    }
  }

  // Arithmetic shift to the right by n bytes.
  function Shift(v: int, n: nat): int
    decreases n
  {
    if n == 0 then v else Shift(v / 256, n - 1)
  }

  // The next byte up.
  lemma {:induction false} OneMore(v: int, n: nat)
    ensures Bytes(v, n + 1) == [(Shift(v, n) % 256) as byte] + Bytes(v, n)
    ensures Shift(v, n) / 256 == Shift(v, n + 1)
    decreases n
  {
    if n > 0 {
      OneMore(v / 256, n - 1);
      assert Bytes(v, n) == Bytes(v / 256, n - 1) + [(v % 256) as byte];
    }
  }

  // The window holds contents that mean the value (section 8.3 of ITU-T X.690).
  ghost predicate Means(h: seq<byte>, w: Window, v: int) {
    Inside(w, |h|) && Signed(h[w.at..w.at + w.size]) == v
  }

  lemma MeansOnce(h: seq<byte>, f: seq<byte>, w: Window, v: int)
    requires Means(f, w, v) && Fits(v, w.size) && Inside(w, |h|) && h[w.at..w.at + w.size] == Bytes(v, w.size)
    ensures forall k: nat :: Covers(w, k) ==> f[k] == h[k]
  {
    SignedUnique(f[w.at..w.at + w.size], v);
    forall k: nat | Covers(w, k) ensures f[k] == h[k] {
      assert f[w.at..w.at + w.size][k - w.at] == h[w.at..w.at + w.size][k - w.at];
    }
  }

  // Patching a template gives the header that a fresh encoding of the same widths would give:
  // the only one that means the new values and agrees with the template everywhere else.
  lemma PatchedIsFresh(h: seq<byte>, h': seq<byte>, v: Window, a: int, w: Window, b: int, x: Window, c: int,
                       fresh': seq<byte>)
    requires Patched(h, h', v, a, w, b, x, c)
    requires Fits(a, v.size) && Fits(b, w.size) && Fits(c, x.size)
    requires |fresh'| == |h| && Means(fresh', v, a) && Means(fresh', w, b) && Means(fresh', x, c)
    requires forall k :: 0 <= k < |h| && !Covers(v, k) && !Covers(w, k) && !Covers(x, k) ==> fresh'[k] == h[k]
    ensures fresh' == h'
  {
    MeansOnce(h', fresh', v, a);
    MeansOnce(h', fresh', w, b);
    MeansOnce(h', fresh', x, c);
  }

  // And it does mean them.
  lemma PatchedMeans(h: seq<byte>, h': seq<byte>, v: Window, a: int, w: Window, b: int, x: Window, c: int)
    requires Patched(h, h', v, a, w, b, x, c)
    requires Fits(a, v.size) && Fits(b, w.size) && Fits(c, x.size)
    ensures Means(h', v, a) && Means(h', w, b) && Means(h', x, c)
  {
    SignedRoundTrip(a, v.size);
    SignedRoundTrip(b, w.size);
    SignedRoundTrip(c, x.size);
  }
}

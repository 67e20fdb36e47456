// The Patricia trie of extlib/libpatricia/patricia.c: a compressed binary trie over
// IP prefixes, with parent links and "glue" nodes that carry no prefix.
//
// An address is its sequence of bits.  Host bits past `bitlen` are stored as given, so
// two prefixes are the same prefix when they agree on their first `bitlen` bits.
module Patricia {
  import opened Common

  const PATRICIA_MAXBITS := 128

  datatype Prefix = Prefix(addr: seq<bool>, bitlen: nat)

  // The masked prefix: the bits that decide equality.
  function Masked(p: Prefix): seq<bool>
    requires p.bitlen <= |p.addr|
  {
    p.addr[..p.bitlen]
  }

  // comp_with_mask: whole bytes first, then the leading bits of the next byte.
  predicate CompWithMask(a: seq<bool>, b: seq<bool>, mask: nat)
    requires mask <= |a| && mask <= |b|
    ensures CompWithMask(a, b, mask) <==> a[..mask] == b[..mask]
  {
    var n := 8 * (mask / 8);
    assert a[..mask] == a[..n] + a[n..mask] && b[..mask] == b[..n] + b[n..mask];
    a[..n] == b[..n] && (mask % 8 == 0 || a[n..mask] == b[n..mask])
  }

  // patricia_lookup's search for the first differing bit: byte by byte, bit by bit inside a
  // byte that differs, clamped to `checkBit`, which need not be a byte boundary.
  method FirstDifference(a: seq<bool>, b: seq<bool>, checkBit: nat) returns (differBit: nat)
    requires checkBit <= |a| && checkBit <= |b| && |a| % 8 == 0 && |b| % 8 == 0
    ensures differBit <= checkBit
    ensures a[..differBit] == b[..differBit]
    ensures differBit < checkBit ==> a[differBit] != b[differBit]
  {
    differBit := 0;
    var i := 0;
    while i * 8 < checkBit
      invariant 0 <= i && differBit == 8 * i <= |a| && differBit <= |b|
      invariant forall k :: 0 <= k < differBit ==> a[k] == b[k]
    {
      var j := 0;
      while j < 8 && a[8 * i + j] == b[8 * i + j]
        invariant 0 <= j <= 8
        invariant forall k :: 0 <= k < 8 * i + j ==> a[k] == b[k]
      {
        j := j + 1;
      }
      differBit := i * 8 + j;
      if j < 8 {
        break;
      }
      i := i + 1;
    }
    if differBit > checkBit {
      differBit := checkBit;
    }
  }

  datatype Op = Insert(p: Prefix) | Delete(p: Prefix)

  // The reference: a plain finite set of masked prefixes.
  ghost function Held(ops: seq<Op>): set<seq<bool>> {
    if ops == [] then {}
    else
      var last := ops[|ops| - 1];
      var before := Held(ops[..|ops| - 1]);
      if last.p.bitlen > |last.p.addr| then before
      else if last.Insert? then before + {Masked(last.p)} else before - {Masked(last.p)}
  }

  class Node<D> {
    var bit: nat
    var prefix: Option<Prefix>
    var l: Node?<D>
    var r: Node?<D>
    var parent: Node?<D>
    var data: Option<D>
    // The first `bit` bits shared by every address below this node.
    ghost var path: seq<bool>

    constructor (bit: nat, prefix: Option<Prefix>, l: Node?<D>, r: Node?<D>, ghost path: seq<bool>)
      ensures this.bit == bit && this.prefix == prefix && this.path == path
      ensures this.l == l && this.r == r && parent == null && data == None
    {
      this.bit, this.prefix, this.path := bit, prefix, path;
      this.l, this.r, this.parent, this.data := l, r, null, None;
    }
  }

  class Tree<D> {
    const maxbits: nat
    var head: Node?<D>
    var numActive: int
    // The allocated nodes of this tree.
    ghost var nodes: set<Node<D>>

    ghost predicate Fits(p: Prefix) {
      p.bitlen <= maxbits <= |p.addr| && |p.addr| % 8 == 0
    }

    // `c` hangs off `p` on the side given by its bit number p.bit.
    ghost predicate ChildOk(p: Node<D>, c: Node<D>, right: bool)
      reads p, c
    {
      && c.parent == p
      && p.bit < c.bit == |c.path|
      && c.path[..p.bit] == p.path
      && c.path[p.bit] == right
    }

    ghost predicate NodeOk(n: Node<D>)
      reads `head, `nodes, nodes, n
    {
      && |n.path| == n.bit <= maxbits
      && (n.prefix.Some? ==>
            Fits(n.prefix.value) && n.prefix.value.bitlen == n.bit && Masked(n.prefix.value) == n.path)
      && (n.prefix.None? ==> n.data.None? && n.l != null && n.r != null)
      && (n.l != null ==> n.l in nodes && ChildOk(n, n.l, false))
      && (n.r != null ==> n.r in nodes && ChildOk(n, n.r, true))
      && (n.parent == null <==> n == head)
      && (n.parent != null ==> n.parent in nodes && (n.parent.l == n || n.parent.r == n))
    }

    ghost predicate Shape()
      reads `head, `nodes, nodes
    {
      && maxbits <= PATRICIA_MAXBITS
      && (if head == null then nodes == {} else head in nodes)
      && forall n {:trigger NodeOk(n)} :: n in nodes ==> NodeOk(n)
    }

    ghost predicate Valid()
      reads this, nodes
    {
      Shape() && numActive == |nodes|
    }

    // The abstract value: the finite set of masked prefixes held.
    ghost function Stored(): set<seq<bool>>
      reads `nodes, nodes
    {
      set n | n in nodes && n.prefix.Some? :: n.path
    }

    constructor (maxbits: nat)
      requires maxbits <= PATRICIA_MAXBITS
      ensures Valid() && nodes == {} && Stored() == {} && this.maxbits == maxbits
    {
      this.maxbits := maxbits;
      head, numActive, nodes := null, 0, {};
    }

    // ---- Facts about the shape of a valid tree ----

    ghost predicate Below(m: Node<D>, x: Node<D>)
      requires Shape() && m in nodes
      reads this, nodes
      decreases m.bit
    {
      assert NodeOk(m);
      m == x || (m.parent != null && (assert NodeOk(m.parent); Below(m.parent, x)))
    }

    lemma {:induction false} AllBelowHead(m: Node<D>)
      requires Shape() && m in nodes
      ensures head != null && Below(m, head)
      decreases m.bit
    {
      assert NodeOk(m);
      if m.parent != null {
        assert NodeOk(m.parent);
        AllBelowHead(m.parent);
      }
    }

    lemma {:induction false} BelowExtends(m: Node<D>, x: Node<D>)
      requires Shape() && m in nodes && x in nodes && Below(m, x)
      ensures x.path <= m.path && x.bit == |x.path| && m.bit == |m.path|
      decreases m.bit
    {
      assert NodeOk(m) && NodeOk(x);
      if m != x {
        assert NodeOk(m.parent);
        BelowExtends(m.parent, x);
        assert m.parent.path == m.path[..m.parent.bit];
      }
    }

    // A node strictly below x is below the child of x on the side of its bit x.bit.
    lemma {:induction false} BelowChild(m: Node<D>, x: Node<D>) returns (c: Node<D>)
      requires Shape() && m in nodes && x in nodes && Below(m, x) && m != x
      ensures c in nodes && c.bit > x.bit && Below(m, c) && |m.path| > x.bit
      ensures if m.path[x.bit] then c == x.r else c == x.l
      decreases m.bit
    {
      assert NodeOk(m) && NodeOk(m.parent) && NodeOk(x);
      if m.parent == x {
        c := m;
      } else {
        c := BelowChild(m.parent, x);
        assert m.parent.path == m.path[..m.parent.bit];
      }
    }

    lemma {:induction false} PrefixBelowFrom(n: Node<D>, m: Node<D>, x: Node<D>)
      requires Shape() && n in nodes && m in nodes && x in nodes
      requires Below(n, x) && Below(m, x) && n.path <= m.path
      ensures Below(m, n)
      decreases maxbits - x.bit
    {
      assert NodeOk(n) && NodeOk(m) && NodeOk(x);
      if x != n {
        var c := BelowChild(n, x);
        assert NodeOk(c);
        var c' := BelowChild(m, x);
        assert c == c';
        PrefixBelowFrom(n, m, c);
      }
    }

    // Path extension is the same thing as lying below.
    lemma PrefixBelow(n: Node<D>, m: Node<D>)
      requires Shape() && n in nodes && m in nodes && n.path <= m.path
      ensures Below(m, n)
    {
      AllBelowHead(n);
      AllBelowHead(m);
      PrefixBelowFrom(n, m, head);
    }

    // No two nodes share a path.
    lemma PathsUnique(n: Node<D>, m: Node<D>)
      requires Shape() && n in nodes && m in nodes && n.path == m.path
      ensures n == m
    {
      PrefixBelow(n, m);
      assert NodeOk(n) && NodeOk(m);
      if n != m {
        var c := BelowChild(m, n);
        BelowExtends(m, c);
      }
    }

    // Descending on the bits of a longer path stays on the way to it.
    lemma Towards(x: Node<D>, m: Node<D>)
      requires Shape() && x in nodes && m in nodes && x.path <= m.path && x.bit < |m.path|
      ensures m.path[x.bit] ==> x.r != null && x.r in nodes && x.r.path <= m.path
      ensures !m.path[x.bit] ==> x.l != null && x.l in nodes && x.l.path <= m.path
    {
      assert NodeOk(x) && NodeOk(m);
      PrefixBelow(x, m);
      var c := BelowChild(m, x);
      BelowExtends(m, c);
    }

    // ---- patricia_search_exact ----

    // A node for the masked prefix q, if there is one, lies at or below x.
    ghost predicate OnWay(x: Node<D>, q: seq<bool>)
      reads this, nodes, x
    {
      forall m :: m in nodes && m.path == q ==> x.path <= m.path
    }

    lemma OnWayStep(x: Node<D>, q: seq<bool>)
      requires Valid() && x in nodes && x.bit < |q| && OnWay(x, q)
      ensures var c := if q[x.bit] then x.r else x.l;
        if c == null then forall m :: m in nodes ==> m.path != q
        else c in nodes && OnWay(c, q) && x.bit < c.bit <= maxbits
    {
      assert NodeOk(x);
      var c := if q[x.bit] then x.r else x.l;
      if c != null { assert NodeOk(c); }
      forall m | m in nodes && m.path == q
        ensures c != null && c.path <= m.path
      {
        Towards(x, m);
      }
    }

    lemma OnWayEnd(x: Node<D>, q: seq<bool>)
      requires Valid() && x in nodes && |q| <= x.bit && OnWay(x, q)
      ensures forall m :: m in nodes && m.path == q ==> m == x
    {
      assert NodeOk(x);
      forall m | m in nodes && m.path == q
        ensures m == x
      {
        assert NodeOk(m);
        assert x.path == m.path;
        PathsUnique(x, m);
      }
    }

    method SearchExact(p: Prefix) returns (node: Node?<D>)
      requires Valid() && Fits(p)
      ensures node != null ==> node in nodes && node.prefix.Some? && node.path == Masked(p)
      ensures node != null <==> Masked(p) in Stored()
    {
      if head == null {
        return null;
      }
      var cur := head;
      assert OnWay(head, Masked(p)) by {
        forall m | m in nodes ensures head.path <= m.path {
          AllBelowHead(m);
          BelowExtends(m, head);
        }
      }
      while cur.bit < p.bitlen
        invariant cur in nodes && OnWay(cur, Masked(p))
        decreases maxbits - cur.bit
      {
        OnWayStep(cur, Masked(p));
        var next := if p.addr[cur.bit] then cur.r else cur.l;
        if next == null {
          return null;
        }
        cur := next;
      }
      OnWayEnd(cur, Masked(p));
      assert NodeOk(cur);
      if cur.bit > p.bitlen || cur.prefix.None? {
        return null;
      }
      assert cur.bit == p.bitlen;
      assert cur.bit == cur.prefix.value.bitlen;
      if CompWithMask(cur.prefix.value.addr, p.addr, p.bitlen) {
        return cur;
      }
      return null;
    }

    // ---- patricia_search_best2 ----

    // The nodes a query may return: stored prefixes covering the address and shorter than
    // the query, and, when inclusive, the first node at or past the query's length.
    ghost predicate Eligible(m: Node<D>, p: Prefix, inclusive: bool)
      reads this, nodes, m
    {
      && m in nodes && m.prefix.Some? && m.path <= p.addr
      && (m.bit < p.bitlen || (inclusive && FirstBeyond(m, p)))
    }

    ghost predicate FirstBeyond(m: Node<D>, p: Prefix)
      reads this, nodes, m
    {
      forall k :: k in nodes && k.path <= p.addr && p.bitlen <= k.bit ==> m.bit <= k.bit
    }

    // Every node covering the address is still ahead at x, or was passed and stacked.
    ghost predicate Passed(x: Node?<D>, stack: seq<Node<D>>, p: Prefix)
      reads this, nodes, x
    {
      forall m :: m in nodes && m.path <= p.addr ==>
        (x != null && x.path <= m.path) || (m.bit < p.bitlen && (m.prefix.Some? ==> m in stack))
    }

    // Stacked nodes carry prefixes and get strictly longer.
    ghost predicate StackOk(stack: seq<Node<D>>, limit: nat)
      reads this, nodes
    {
      && (forall i :: 0 <= i < |stack| ==>
            stack[i] in nodes && stack[i].prefix.Some? && i <= stack[i].bit < limit)
      && (forall i, j :: 0 <= i < j < |stack| ==> stack[i] in nodes && stack[j] in nodes && stack[i].bit < stack[j].bit)
    }

    lemma StackPush(stack: seq<Node<D>>, limit: nat, x: Node<D>)
      requires StackOk(stack, limit) && limit <= x.bit && |stack| <= x.bit
      requires x in nodes && x.prefix.Some?
      ensures StackOk(stack + [x], x.bit + 1)
    {
    }

    lemma StackWiden(stack: seq<Node<D>>, a: nat, b: nat)
      requires StackOk(stack, a) && a <= b
      ensures StackOk(stack, b)
    {
    }

    lemma PassedStep(x: Node<D>, stack: seq<Node<D>>, stack': seq<Node<D>>, p: Prefix)
      requires Valid() && Fits(p) && x in nodes && x.bit < p.bitlen && Passed(x, stack, p)
      requires stack' == if x.prefix.Some? then stack + [x] else stack
      ensures Passed(if p.addr[x.bit] then x.r else x.l, stack', p)
    {
      assert NodeOk(x);
      var c := if p.addr[x.bit] then x.r else x.l;
      forall m | m in nodes && m.path <= p.addr && x.path <= m.path
        ensures (c != null && c.path <= m.path) || (m.bit < p.bitlen && (m.prefix.Some? ==> m in stack'))
      {
        assert NodeOk(m);
        if x.bit < |m.path| {
          Towards(x, m);
        } else {
          assert m.path == x.path;
          PathsUnique(m, x);
        }
      }
    }

    // The state of the descent of patricia_search_best2.  The stack array of the original
    // has PATRICIA_MAXBITS + 1 entries.
    ghost predicate Descending(stack: seq<Node<D>>, cur: Node?<D>, p: Prefix)
      reads this, nodes, cur
    {
      && |stack| <= p.bitlen
      && (cur != null ==> cur in nodes && |stack| <= cur.bit)
      && StackOk(stack, if cur == null then p.bitlen else Min(cur.bit, p.bitlen))
      && Passed(cur, stack, p)
    }

    lemma DescendStart(p: Prefix)
      requires Valid() && Fits(p) && head != null
      ensures Descending([], head, p)
    {
      forall m | m in nodes ensures head.path <= m.path {
        AllBelowHead(m);
        BelowExtends(m, head);
      }
    }

    lemma DescendStep(stack: seq<Node<D>>, cur: Node<D>, p: Prefix)
      requires Valid() && Fits(p) && Descending(stack, cur, p) && cur.bit < p.bitlen
      ensures var c := if p.addr[cur.bit] then cur.r else cur.l;
        && Descending(if cur.prefix.Some? then stack + [cur] else stack, c, p)
        && (c != null ==> cur.bit < c.bit <= maxbits)
    {
      assert NodeOk(cur);
      var c := if p.addr[cur.bit] then cur.r else cur.l;
      if c != null { assert NodeOk(c); }
      var stack' := if cur.prefix.Some? then stack + [cur] else stack;
      PassedStep(cur, stack, stack', p);
      var limit := if c == null then p.bitlen else Min(c.bit, p.bitlen);
      if cur.prefix.Some? {
        StackPush(stack, cur.bit, cur);
        StackWiden(stack', cur.bit + 1, limit);
      } else {
        StackWiden(stack, cur.bit, limit);
      }
    }

    method DescendBest(p: Prefix) returns (stack: seq<Node<D>>, cur: Node?<D>)
      requires Valid() && Fits(p) && head != null
      ensures |stack| <= PATRICIA_MAXBITS
      ensures cur != null ==> cur in nodes && p.bitlen <= cur.bit && |stack| <= cur.bit
      ensures Passed(cur, stack, p) && StackOk(stack, p.bitlen)
    {
      stack, cur := [], head;
      DescendStart(p);
      while cur != null && cur.bit < p.bitlen
        invariant Descending(stack, cur, p)
        decreases if cur == null then 0 else maxbits + 1 - cur.bit
      {
        DescendStep(stack, cur, p);
        if cur.prefix.Some? {
          assert |stack| < PATRICIA_MAXBITS + 1;
          stack := stack + [cur];
        }
        cur := if p.addr[cur.bit] then cur.r else cur.l;
      }
    }

    lemma EligibleStacked(m: Node<D>, p: Prefix, inclusive: bool, stack: seq<Node<D>>, cur: Node?<D>)
      requires Valid() && Fits(p) && Passed(cur, stack, p)
      requires cur != null ==> cur in nodes && p.bitlen <= cur.bit
      requires Eligible(m, p, inclusive)
      ensures m in stack || (inclusive && m == cur)
    {
      assert NodeOk(m);
      if m !in stack {
        assert NodeOk(cur);
        assert cur.path <= p.addr;
        assert m.path == cur.path;
        PathsUnique(m, cur);
      }
    }

    lemma CurEligible(p: Prefix, stack: seq<Node<D>>, cur: Node<D>)
      requires Valid() && Fits(p) && Passed(cur, stack, p)
      requires cur in nodes && p.bitlen <= cur.bit && cur.prefix.Some? && cur.path <= p.addr
      ensures Eligible(cur, p, true)
    {
      forall k | k in nodes && k.path <= p.addr && p.bitlen <= k.bit
        ensures cur.bit <= k.bit
      {
        assert NodeOk(k) && NodeOk(cur);
      }
    }

    // Everything the original has on its stack when it starts popping.
    ghost predicate Stacked(stack: seq<Node<D>>, p: Prefix, inclusive: bool)
      reads this, nodes
    {
      && StackOk(stack, maxbits + 1)
      && (forall m :: m in nodes && Eligible(m, p, inclusive) ==> m in stack)
      && (forall i :: 0 <= i < |stack| && stack[i].path <= p.addr ==> Eligible(stack[i], p, inclusive))
    }

    lemma StackedAll(p: Prefix, inclusive: bool, stack: seq<Node<D>>, cur: Node?<D>)
      requires Valid() && Fits(p) && Passed(cur, stack, p) && StackOk(stack, p.bitlen)
      requires cur != null ==> cur in nodes && p.bitlen <= cur.bit && |stack| <= cur.bit
      ensures Stacked(if inclusive && cur != null && cur.prefix.Some? then stack + [cur] else stack, p, inclusive)
    {
      var all := if inclusive && cur != null && cur.prefix.Some? then stack + [cur] else stack;
      if inclusive && cur != null && cur.prefix.Some? {
        StackPush(stack, p.bitlen, cur);
        assert NodeOk(cur);
      }
      forall m | m in nodes && Eligible(m, p, inclusive) ensures m in all {
        EligibleStacked(m, p, inclusive, stack, cur);
      }
      forall i | 0 <= i < |all| && all[i].path <= p.addr
        ensures Eligible(all[i], p, inclusive)
      {
        if i == |stack| {
          CurEligible(p, stack, cur);
        } else {
          assert all[i] == stack[i] && stack[i].bit < p.bitlen;
        }
      }
    }

    lemma TopIsBest(stack: seq<Node<D>>, k: nat, p: Prefix, inclusive: bool)
      requires Stacked(stack, p, inclusive) && k < |stack| && stack[k].path <= p.addr
      requires forall i :: k < i < |stack| ==> !(stack[i].path <= p.addr)
      ensures Eligible(stack[k], p, inclusive)
      ensures forall m :: m in nodes && Eligible(m, p, inclusive) ==> m.bit <= stack[k].bit
    {
      forall m | m in nodes && Eligible(m, p, inclusive) ensures m.bit <= stack[k].bit {
        assert m in stack;
        var i :| 0 <= i < |stack| && stack[i] == m;
        assert i <= k;
      }
    }

    lemma CompCovers(n: Node<D>, p: Prefix)
      requires Valid() && Fits(p) && n in nodes && n.prefix.Some?
      ensures n.prefix.value.bitlen <= |n.prefix.value.addr| && n.prefix.value.bitlen <= |p.addr|
      ensures CompWithMask(n.prefix.value.addr, p.addr, n.prefix.value.bitlen) <==> n.path <= p.addr
    {
      assert NodeOk(n);
      if n.path <= p.addr {
        assert n.path == p.addr[..n.bit];
      }
    }

    // The popping loop of patricia_search_best2.
    method PopBest(stack: seq<Node<D>>, p: Prefix, ghost inclusive: bool) returns (node: Node?<D>)
      requires Valid() && Fits(p) && Stacked(stack, p, inclusive)
      ensures node != null ==> Eligible(node, p, inclusive)
      ensures node != null ==> forall m :: m in nodes && Eligible(m, p, inclusive) ==> m.bit <= node.bit
      ensures node == null ==> forall m :: m in nodes ==> !Eligible(m, p, inclusive)
    {
      var cnt := |stack|;
      while cnt > 0
        invariant 0 <= cnt <= |stack|
        invariant forall i :: cnt <= i < |stack| ==> !(stack[i].path <= p.addr)
      {
        cnt := cnt - 1;
        var top := stack[cnt];
        CompCovers(top, p);
        if CompWithMask(top.prefix.value.addr, p.addr, top.prefix.value.bitlen) {
          TopIsBest(stack, cnt, p, inclusive);
          return top;
        }
      }
      return null;
    }

    method SearchBest2(p: Prefix, inclusive: bool) returns (node: Node?<D>)
      requires Valid() && Fits(p)
      ensures node != null ==> Eligible(node, p, inclusive)
      ensures node != null ==> forall m :: m in nodes && Eligible(m, p, inclusive) ==> m.bit <= node.bit
      ensures node == null ==> forall m :: m in nodes ==> !Eligible(m, p, inclusive)
    {
      if head == null {
        return null;
      }
      var stack, cur := DescendBest(p);
      StackedAll(p, inclusive, stack, cur);
      if inclusive && cur != null && cur.prefix.Some? {
        assert |stack| < PATRICIA_MAXBITS + 1;
        stack := stack + [cur];
      }
      node := PopBest(stack, p, inclusive);
    }

    // `node` answers the query `p` as a longest-prefix match over the stored set.
    ghost predicate LongestMatch(node: Node?<D>, p: Prefix)
      requires p.bitlen <= |p.addr|
      reads this, nodes, node
    {
      if node == null then forall q :: q in Stored() ==> !(q <= Masked(p))
      else node in nodes && node.path in Stored() && node.path <= Masked(p) &&
           forall q :: q in Stored() && q <= Masked(p) ==> |q| <= |node.path|
    }

    // The first node at or past the query's length, on the way its host bits point, carries
    // a prefix longer than the query.
    ghost predicate Overshoots(p: Prefix)
      reads this, nodes
    {
      exists f :: f in nodes && f.prefix.Some? && f.path <= p.addr && p.bitlen < f.bit && FirstBeyond(f, p)
    }

    lemma AddressNeverOvershoots(p: Prefix)
      requires Valid() && Fits(p) && p.bitlen == maxbits
      ensures !Overshoots(p)
    {
      forall f | f in nodes ensures f.bit <= maxbits {
        assert NodeOk(f);
      }
    }

    lemma EligibleWithin(p: Prefix, m: Node<D>)
      requires Valid() && Fits(p) && m in nodes && m.bit <= p.bitlen && m.prefix.Some?
      ensures |m.path| == m.bit && (Eligible(m, p, true) <==> m.path <= Masked(p))
    {
      assert NodeOk(m);
      assert m.path <= p.addr <==> m.path <= Masked(p);
      forall k | k in nodes && k.path <= p.addr && p.bitlen <= k.bit ensures m.bit <= k.bit {
        assert NodeOk(k);
      }
    }

    // patricia_search_best is longest-prefix match, except when the query overshoots.
    method SearchBest(p: Prefix) returns (node: Node?<D>)
      requires Valid() && Fits(p)
      ensures LongestMatch(node, p) <==> !Overshoots(p)
      ensures p.bitlen == maxbits ==> LongestMatch(node, p)
    {
      node := SearchBest2(p, true);
      BestMatches(node, p);
      if p.bitlen == maxbits { AddressNeverOvershoots(p); }
    }

    lemma BestMatches(node: Node?<D>, p: Prefix)
      requires Valid() && Fits(p)
      requires node != null ==> Eligible(node, p, true)
      requires node != null ==> forall m :: m in nodes && Eligible(m, p, true) ==> m.bit <= node.bit
      requires node == null ==> forall m :: m in nodes ==> !Eligible(m, p, true)
      ensures LongestMatch(node, p) <==> !Overshoots(p)
    {
      if Overshoots(p) {
        var f :| f in nodes && f.prefix.Some? && f.path <= p.addr && p.bitlen < f.bit && FirstBeyond(f, p);
        assert Eligible(f, p, true);
        assert NodeOk(node);
      } else {
        if node != null {
          assert NodeOk(node);
          assert node.bit <= p.bitlen;
          EligibleWithin(p, node);
          assert node.path in Stored();
        }
        forall q | q in Stored() && q <= Masked(p) ensures node != null && |q| <= |node.path| {
          var m :| m in nodes && m.prefix.Some? && m.path == q;
          assert NodeOk(m);
          EligibleWithin(p, m);
        }
      }
    }

    // ---- patricia_lookup ----

    // The descent that led to `o` took, above it, the branches given by the bits of addr.
    ghost predicate Followed(o: Node<D>, addr: seq<bool>)
      reads this, nodes, o
    {
      forall a :: a in nodes && a.path <= o.path && a.bit < o.bit ==>
        a.bit < |addr| && a.bit < |o.path| && o.path[a.bit] == addr[a.bit]
    }

    lemma FollowedStep(x: Node<D>, c: Node<D>, addr: seq<bool>)
      requires Valid() && x in nodes && c in nodes && c.parent == x && Followed(x, addr)
      requires maxbits <= |addr| && x.bit < maxbits && c == if addr[x.bit] then x.r else x.l
      ensures Followed(c, addr)
    {
      assert NodeOk(x) && NodeOk(c);
      forall a | a in nodes && a.path <= c.path && a.bit < c.bit
        ensures a.bit < |addr| && c.path[a.bit] == addr[a.bit]
      {
        assert NodeOk(a);
        PrefixBelow(a, c);
        BelowExtends(x, a);
        if a.bit == x.bit {
          PathsUnique(a, x);
        } else {
          assert c.path[a.bit] == c.path[..x.bit][a.bit];
        }
      }
    }

    method DescendLookup(p: Prefix) returns (o: Node<D>)
      requires Valid() && Fits(p) && head != null
      ensures o in nodes && o.prefix.Some? && Followed(o, p.addr)
      ensures o.bit < p.bitlen ==> (if p.addr[o.bit] then o.r else o.l) == null
    {
      o := head;
      assert NodeOk(o);
      assert Followed(o, p.addr) by {
        forall a | a in nodes ensures o.bit <= a.bit {
          AllBelowHead(a);
          BelowExtends(a, o);
        }
      }
      while o.bit < p.bitlen || o.prefix.None?
        invariant o in nodes && Followed(o, p.addr)
        decreases maxbits - o.bit
      {
        assert NodeOk(o);
        var next := if o.bit < maxbits && p.addr[o.bit] then o.r else o.l;
        if next == null {
          break;
        }
        assert NodeOk(next);
        FollowedStep(o, next, p.addr);
        o := next;
      }
    }

    method Climb(o: Node<D>, differBit: nat) returns (node: Node<D>)
      requires Valid() && o in nodes && differBit <= o.bit
      ensures node in nodes && node.path <= o.path && differBit <= node.bit <= o.bit
      ensures node.parent != null ==> node.parent in nodes && node.parent.bit < differBit
    {
      node := o;
      assert NodeOk(o);
      var parent := node.parent;
      while parent != null && parent.bit >= differBit
        invariant node in nodes && parent == node.parent
        invariant parent != null ==> parent in nodes
        invariant node.path <= o.path && differBit <= node.bit <= o.bit
        decreases node.bit
      {
        assert NodeOk(node) && NodeOk(parent);
        assert parent.path == node.path[..parent.bit];
        node := parent;
        parent := node.parent;
      }
    }

    // Keys, data and paths of the nodes in S are as before.
    twostate predicate SameContents(S: set<Node<D>>)
      reads S
    {
      forall m :: m in S ==>
        m.bit == old(m.bit) && m.path == old(m.path) && m.data == old(m.data) && m.prefix == old(m.prefix)
    }

    twostate predicate SameLinks(m: Node<D>)
      reads m
    {
      m.l == old(m.l) && m.r == old(m.r) && m.parent == old(m.parent)
    }

    // A new leaf `n` hangs on the free side of `node`; nothing else has changed.
    twostate predicate Attached(node: Node<D>, new n: Node<D>, new right: bool)
      reads this, nodes, node, n
    {
      && old(Shape()) && node in old(nodes) && n !in old(nodes) && nodes == old(nodes) + {n}
      && head == old(head) && SameContents(old(nodes))
      && (forall m :: m in old(nodes) && m != node ==> SameLinks(m))
      && node.parent == old(node.parent)
      && (if right then old(node.r) == null && node.r == n && node.l == old(node.l)
                   else old(node.l) == null && node.l == n && node.r == old(node.r))
      && n.l == null && n.r == null && Carries(n) && ChildOk(node, n, right)
    }

    twostate lemma AttachedShape(node: Node<D>, new n: Node<D>, new right: bool)
      requires Attached(node, n, right)
      ensures Shape()
    {
      forall m | m in nodes ensures NodeOk(m) {
        assert m != n ==> old(NodeOk(m));
      }
    }

    method AttachLinks(node: Node<D>, n: Node<D>, right: bool)
      requires Shape() && node in nodes && n !in nodes && Carries(n) && n.l == null && n.r == null
      requires (if right then node.r else node.l) == null
      requires node.bit < n.bit && node.path == n.path[..node.bit] && n.path[node.bit] == right
      modifies `nodes, n`parent, node`l, node`r
      ensures Attached(node, n, right)
    {
      n.parent := node;
      if right {
        assert node.r == null;
        node.r := n;
      } else {
        assert node.l == null;
        node.l := n;
      }
      nodes := nodes + {n};
    }

    method Attach(node: Node<D>, n: Node<D>, right: bool)
      requires Shape() && node in nodes && n !in nodes && Carries(n) && n.l == null && n.r == null
      requires (if right then node.r else node.l) == null
      requires node.bit < n.bit && node.path == n.path[..node.bit] && n.path[node.bit] == right
      modifies `nodes, n`parent, node`l, node`r
      ensures Shape() && nodes == old(nodes) + {n}
    {
      AttachLinks(node, n, right);
      AttachedShape(node, n, right);
    }

    // new_node #2: a new leaf on the free side of `node`.
    method InsertChild(node: Node<D>, p: Prefix) returns (n: Node<D>)
      requires Valid() && Fits(p) && node in nodes && node.bit < p.bitlen
      requires node.path == p.addr[..node.bit]
      requires (if p.addr[node.bit] then node.r else node.l) == null
      modifies this, node`l, node`r
      ensures Valid() && fresh(n) && nodes == old(nodes) + {n}
      ensures n.prefix == Some(p) && n.path == Masked(p) && n.data == None
    {
      n := new Node(p.bitlen, Some(p), null, null, Masked(p));
      numActive := numActive + 1;
      Attach(node, n, node.bit < maxbits && p.addr[node.bit]);
    }

    // `top` has been spliced in between `node` and its parent; apart from the links this
    // needs, the nodes that were there are unchanged.
    twostate predicate Spliced(node: Node<D>, new parent: Node?<D>, new top: Node<D>, new right: bool)
      requires parent == old(node.parent)
      reads this, nodes, node, top, parent
    {
      && old(Shape()) && node in old(nodes) && top !in old(nodes) && top in nodes && old(nodes) <= nodes
      && SameContents(old(nodes))
      && (forall m :: m in old(nodes) && m != node && m != parent ==> SameLinks(m))
      && node.l == old(node.l) && node.r == old(node.r)
      && top.parent == parent && |top.path| == top.bit
      && ChildOk(top, node, right)
      && (if right then top.r == node else top.l == node)
      && (parent == null ==> head == top)
      && (parent != null ==>
            && head == old(head) && parent.parent == old(parent.parent)
            && parent.bit < top.bit
            && (if old(parent.r) == node then parent.r == top && parent.l == old(parent.l)
                                         else parent.l == top && parent.r == old(parent.r)))
    }

    twostate lemma SplicedOthers(node: Node<D>, new parent: Node?<D>, new top: Node<D>, new right: bool, new m: Node<D>)
      requires parent == old(node.parent) && Spliced(node, parent, top, right)
      requires m in old(nodes) && m != node && m != parent
      ensures NodeOk(m)
    {
      assert old(NodeOk(m)) && old(NodeOk(node));
      if parent != null { assert old(NodeOk(parent)); }
    }

    twostate lemma SplicedTouched(node: Node<D>, new parent: Node?<D>, new top: Node<D>, new right: bool)
      requires parent == old(node.parent) && Spliced(node, parent, top, right)
      ensures NodeOk(node)
      ensures parent != null ==> parent in nodes && NodeOk(parent)
      ensures parent == null <==> top == head
      ensures parent != null ==> parent.l == top || parent.r == top
    {
      assert old(NodeOk(node));
      if parent != null { assert old(NodeOk(parent)); }
    }

    // A prefix-carrying or glue node all of whose own conditions but those on its parent hold.
    ghost predicate Ready(top: Node<D>, node: Node<D>, leaf: Node?<D>, right: bool)
      reads top, node, leaf
    {
      && |top.path| == top.bit < |node.path| && top.path == node.path[..top.bit] && node.path[top.bit] == right
      && (if right then top.r == node && top.l == leaf else top.l == node && top.r == leaf)
      && (leaf == null ==> Carries(top))
      && (leaf != null ==>
            && top.prefix.None? && top.data.None? && Carries(leaf)
            && leaf.l == null && leaf.r == null && ChildOk(top, leaf, !right))
    }

    ghost predicate Carries(n: Node<D>)
      reads n
    {
      && |n.path| == n.bit <= maxbits
      && n.prefix.Some? && Fits(n.prefix.value) && n.prefix.value.bitlen == n.bit && Masked(n.prefix.value) == n.path
    }

    ghost function Up(n: Node?<D>): set<Node<D>> {
      if n == null then {} else {n}
    }

    // Put `top` where `node` hangs: at its parent, or at the head.
    method Relink(parent: Node?<D>, node: Node<D>, top: Node?<D>)
      requires parent == null ==> head == node
      requires parent != null ==> parent.l == node || parent.r == node
      modifies this`head, Up(parent)`l, Up(parent)`r
      ensures parent == null ==> head == top
      ensures parent != null ==> head == old(head)
      ensures parent != null && old(parent.r) == node ==> parent.r == top && parent.l == old(parent.l)
      ensures parent != null && old(parent.r) != node ==> parent.l == top && parent.r == old(parent.r)
    {
      if parent == null {
        head := top;
      } else if parent.r == node {
        parent.r := top;
      } else {
        assert parent.l == node;
        parent.l := top;
      }
    }

    // The link updates shared by new_node #3 and #4: `top` takes the place of `node`.
    method SpliceLinks(node: Node<D>, top: Node<D>, ghost parent: Node?<D>, ghost leaf: Node?<D>, ghost right: bool)
      requires Shape() && node in nodes && top !in nodes && parent == node.parent
      requires Ready(top, node, leaf, right)
      requires parent != null ==> parent in nodes && parent.bit < top.bit
      modifies this`head, this`nodes, node`parent, Up(parent)`l, Up(parent)`r, top`parent
      ensures nodes == old(nodes) + {top} + Up(leaf)
      ensures Spliced(node, parent, top, right)
    {
      assert NodeOk(node);
      top.parent := node.parent;
      Relink(node.parent, node, top);
      node.parent := top;
      nodes := nodes + {top} + Up(leaf);
    }

    method SpliceIn(node: Node<D>, top: Node<D>, ghost leaf: Node?<D>, ghost right: bool)
      requires Shape() && node in nodes && top !in nodes && leaf !in nodes && top != leaf
      requires Ready(top, node, leaf, right)
      requires node.parent != null ==> node.parent in nodes && node.parent.bit < top.bit
      modifies this`head, this`nodes, node`parent, Up(node.parent)`l, Up(node.parent)`r, top`parent
      ensures Shape() && nodes == old(nodes) + {top} + Up(leaf)
    {
      ghost var parent := node.parent;
      SpliceLinks(node, top, parent, leaf, right);
      SplicedShape(node, parent, top, right, leaf);
    }

    twostate lemma SplicedShape(node: Node<D>, new parent: Node?<D>, new top: Node<D>, new right: bool,
                                new leaf: Node?<D>)
      requires parent == old(node.parent) && Spliced(node, parent, top, right)
      requires Ready(top, node, leaf, right)
      requires nodes == old(nodes) + {top} + Up(leaf)
      requires top != leaf && leaf !in old(nodes)
      ensures Shape()
    {
      SplicedTouched(node, parent, top, right);
      forall m | m in nodes ensures NodeOk(m) {
        if m in old(nodes) && m != node && m != parent {
          SplicedOthers(node, parent, top, right, m);
        }
      }
    }

    // new_node #3: a new node directly above `node`.
    method InsertAbove(node: Node<D>, p: Prefix, testAddr: seq<bool>) returns (n: Node<D>)
      requires Valid() && Fits(p) && node in nodes && p.bitlen < |node.path|
      requires node.path[..p.bitlen] == Masked(p) && node.path <= testAddr
      requires node.parent != null ==> node.parent in nodes && node.parent.bit < p.bitlen
      modifies this, node`parent, Up(node.parent)`l, Up(node.parent)`r
      ensures Valid() && fresh(n) && nodes == old(nodes) + {n}
      ensures n.prefix == Some(p) && n.path == Masked(p) && n.data == None
    {
      assert NodeOk(node);
      var right := p.bitlen < maxbits && testAddr[p.bitlen];
      n := new Node(p.bitlen, Some(p), if right then null else node, if right then node else null, Masked(p));
      numActive := numActive + 1;
      SpliceIn(node, n, null, right);
    }

    // new_node #4: a glue node above `node` and a new leaf.
    method MakeGlue(node: Node<D>, p: Prefix, differBit: nat) returns (n: Node<D>, glue: Node<D>, right: bool)
      requires Fits(p) && node in nodes && NodeOk(node) && differBit < |node.path| && differBit < p.bitlen
      requires node.path[..differBit] == p.addr[..differBit] && node.path[differBit] != p.addr[differBit]
      ensures fresh(n) && fresh(glue) && n != glue
      ensures n.prefix == Some(p) && n.path == Masked(p) && n.data == None
      ensures glue.bit == differBit && glue.prefix == None && glue.data == None
      ensures Ready(glue, node, n, !right)
    {
      n := new Node(p.bitlen, Some(p), null, null, Masked(p));
      right := differBit < maxbits && p.addr[differBit];
      glue := new Node(differBit, None, if right then node else n, if right then n else node, p.addr[..differBit]);
      n.parent := glue;
    }

    method InsertGlue(node: Node<D>, p: Prefix, differBit: nat) returns (n: Node<D>, ghost glue: Node<D>)
      requires Valid() && Fits(p) && node in nodes && differBit < |node.path| && differBit < p.bitlen
      requires node.path[..differBit] == p.addr[..differBit] && node.path[differBit] != p.addr[differBit]
      requires node.parent != null ==> node.parent in nodes && node.parent.bit < differBit
      modifies this, node`parent, Up(node.parent)`l, Up(node.parent)`r
      ensures Valid() && fresh(n) && fresh(glue) && nodes == old(nodes) + {n, glue}
      ensures n.prefix == Some(p) && n.path == Masked(p) && n.data == None && glue.prefix == None && glue.data == None
    {
      assert NodeOk(node);
      var g, right;
      n, g, right := MakeGlue(node, p, differBit);
      glue := g;
      TwoMore(nodes, n, g);
      SpliceIn(node, g, n, !right);
      numActive := numActive + 2;
      assert nodes == old(nodes) + {n, g};
    }

    lemma TwoMore(s: set<Node<D>>, x: Node<D>, y: Node<D>)
      requires x !in s && y !in s && x != y
      ensures |s + {x, y}| == |s| + 2
    {
      assert s + {x, y} == s + {x} + {y};
    }

    // What the descent to `o`, the first difference and the climb to `node` establish.
    ghost predicate Located(o: Node<D>, node: Node<D>, p: Prefix, differBit: nat)
      reads this, nodes, o, node
    {
      && Valid() && Fits(p) && o in nodes && node in nodes
      && o.prefix.Some? && Followed(o, p.addr)
      && (o.bit < p.bitlen ==> (if p.addr[o.bit] then o.r else o.l) == null)
      && differBit <= Min(o.bit, p.bitlen)
      && o.bit == |o.path|
      && p.addr[..differBit] == o.path[..differBit]
      && (differBit < Min(o.bit, p.bitlen) ==> p.addr[differBit] != o.path[differBit])
      && node.path <= o.path && differBit <= node.bit <= o.bit
      && (node.parent != null ==> node.parent in nodes && node.parent.bit < differBit)
    }

    lemma LocatedCases(o: Node<D>, node: Node<D>, p: Prefix, differBit: nat)
      requires Located(o, node, p, differBit)
      ensures |node.path| == node.bit && node.path[..differBit] == p.addr[..differBit]
      ensures node.bit == differBit < p.bitlen ==> (if p.addr[differBit] then node.r else node.l) == null
      ensures differBit < node.bit && differBit < p.bitlen ==> p.addr[differBit] != node.path[differBit]
      ensures node.path <= o.prefix.value.addr
    {
      assert NodeOk(o) && NodeOk(node);
      assert node.path[..differBit] == o.path[..differBit];
      if node.bit == o.bit {
        assert node.path == o.path;
        PathsUnique(node, o);
      }
    }

    twostate lemma StoredGrew(new n: Node<D>, new added: set<Node<D>>)
      requires n in nodes && n.prefix.Some? && nodes == old(nodes) + added
      requires forall m :: m in added && m.prefix.Some? ==> m == n
      requires forall m :: m in old(nodes) ==> m.path == old(m.path) && (m == n || m.prefix == old(m.prefix))
      ensures Stored() == old(Stored()) + {n.path}
    {
      forall q | q in old(Stored()) ensures q in Stored() {
        var m :| m in old(nodes) && old(m.prefix.Some?) && old(m.path) == q;
        assert m in nodes && m.path == q;
      }
      forall q | q in Stored() ensures q in old(Stored()) + {n.path} {
        var m :| m in nodes && m.prefix.Some? && m.path == q;
      }
    }

    lemma NotStoredElsewhere(n: Node<D>, q: seq<bool>)
      requires Valid() && n in nodes && n.path == q
      ensures forall m :: m in nodes && m != n ==> m.path != q
    {
      forall m | m in nodes && m != n ensures m.path != q {
        if m.path == q { PathsUnique(m, n); }
      }
    }

    // new node #1: a glue node gets the prefix.
    method FillGlue(node: Node<D>, p: Prefix)
      requires Valid() && Fits(p) && node in nodes && node.bit == p.bitlen && node.path == Masked(p)
      modifies node`prefix
      ensures Valid() && node.prefix == Some(p)
    {
      node.prefix := Some(p);
      forall m | m in nodes ensures NodeOk(m) {
        assert old(NodeOk(m));
      }
    }

    // patricia_lookup once it is known that no node stands for the prefix yet.
    method PlaceNew(o: Node<D>, node: Node<D>, p: Prefix, differBit: nat)
      returns (n: Node<D>, ghost added: set<Node<D>>)
      requires Located(o, node, p, differBit) && !(differBit == p.bitlen == node.bit)
      modifies this, nodes
      ensures Valid() && nodes == old(nodes) + added && fresh(added) && n in added
      ensures n.prefix == Some(p) && n.path == Masked(p) && n.data == None
      ensures forall m :: m in added ==> m.data == None && (m.prefix.Some? ==> m == n)
      ensures SameContents(old(nodes))
    {
      LocatedCases(o, node, p, differBit);
      if node.bit == differBit {
        n := InsertChild(node, p);
        added := {n};
      } else if p.bitlen == differBit {
        n := InsertAbove(node, p, o.prefix.value.addr);
        added := {n};
      } else {
        ghost var glue;
        n, glue := InsertGlue(node, p, differBit);
        added := {n, glue};
      }
    }

    // The outcome of patricia_lookup: the prefix is in, nothing else has changed.
    twostate predicate Added(p: Prefix, new n: Node<D>)
      requires p.bitlen <= |p.addr|
      reads this, nodes
    {
      && Valid() && old(nodes) <= nodes && fresh(nodes - old(nodes))
      && n in nodes && n.prefix.Some? && n.path == Masked(p)
      && Stored() == old(Stored()) + {Masked(p)}
      && (Masked(p) in old(Stored()) ==> n in old(nodes) && nodes == old(nodes) && n.prefix == old(n.prefix))
      && (Masked(p) !in old(Stored()) ==> n.prefix == Some(p) && n.data == None)
      && (forall m :: m in old(nodes) ==>
            && m.bit == old(m.bit) && m.path == old(m.path) && m.data == old(m.data)
            && (m != n ==> m.prefix == old(m.prefix)))
      && (forall m :: m in nodes && m !in old(nodes) ==> m.data == None)
    }

    // patricia_lookup below the head: where the prefix belongs is known.
    method Place(o: Node<D>, node: Node<D>, p: Prefix, differBit: nat) returns (n: Node<D>)
      requires Located(o, node, p, differBit)
      modifies this, nodes
      ensures Added(p, n)
    {
      if differBit == p.bitlen && node.bit == p.bitlen {
        LocatedCases(o, node, p, differBit);
        n := node;
        NotStoredElsewhere(node, Masked(p));
        if node.prefix.None? {
          assert NodeOk(node);
          FillGlue(node, p);
          assert node.data == None;
        }
        StoredGrew(n, {});
      } else {
        ghost var added;
        n, added := PlaceNew(o, node, p, differBit);
        StoredGrew(n, added);
        NotStoredElsewhere(n, Masked(p));
      }
    }

    // Descent, first difference and climb.
    method Locate(p: Prefix) returns (o: Node<D>, node: Node<D>, differBit: nat)
      requires Valid() && Fits(p) && head != null
      ensures Located(o, node, p, differBit)
    {
      o := DescendLookup(p);
      assert NodeOk(o);
      var testAddr := o.prefix.value.addr;
      var checkBit := if o.bit < p.bitlen then o.bit else p.bitlen;
      differBit := FirstDifference(p.addr, testAddr, checkBit);
      assert testAddr[..differBit] == o.path[..differBit];
      node := Climb(o, differBit);
    }

    method Lookup(p: Prefix) returns (n: Node<D>)
      requires Valid() && Fits(p)
      modifies this, nodes
      ensures Added(p, n)
      ensures old(nodes) == {} ==> nodes == {n}
    {
      if head == null {
        n := new Node(p.bitlen, Some(p), null, null, Masked(p));
        head := n;
        numActive := numActive + 1;
        nodes := {n};
        assert NodeOk(n);
      } else {
        var o, node, differBit := Locate(p);
        n := Place(o, node, p, differBit);
      }
    }

    // ---- patricia_remove ----

    // `child` has taken the place of its parent `dead`, which is gone together with its
    // other child, if it had one.
    twostate predicate Promoted(dead: Node<D>, new above: Node?<D>, new child: Node<D>, new leaf: Node?<D>)
      requires above == old(dead.parent)
      reads this, nodes, child, above
    {
      && old(Shape()) && dead in old(nodes) && child in old(nodes) && child != dead
      && ((old(dead.l) == child && old(dead.r) == leaf) || (old(dead.r) == child && old(dead.l) == leaf))
      && leaf != child && (leaf != null ==> leaf in old(nodes) && old(leaf.l) == null && old(leaf.r) == null)
      && nodes == old(nodes) - {dead} - Up(leaf)
      && child in nodes && SameContents(nodes)
      && (forall m :: m in nodes && m != child && m != above ==> SameLinks(m))
      && child.l == old(child.l) && child.r == old(child.r) && child.parent == above
      && (above == null ==> head == child)
      && (above != null ==>
            && head == old(head) && above in nodes && above.parent == old(above.parent)
            && (if old(above.r) == dead then above.r == child && above.l == old(above.l)
                                        else above.l == child && above.r == old(above.r)))
    }

    twostate lemma PromotedOthers(dead: Node<D>, new above: Node?<D>, new child: Node<D>, new leaf: Node?<D>,
                                  new m: Node<D>)
      requires above == old(dead.parent) && Promoted(dead, above, child, leaf)
      requires m in nodes && m != child && m != above
      ensures NodeOk(m)
    {
      assert old(NodeOk(m)) && old(NodeOk(dead)) && old(NodeOk(child));
      if above != null { assert old(NodeOk(above)); }
      if leaf != null { assert old(NodeOk(leaf)); }
    }

    twostate lemma PromotedChild(dead: Node<D>, new above: Node?<D>, new child: Node<D>, new leaf: Node?<D>)
      requires above == old(dead.parent) && Promoted(dead, above, child, leaf)
      ensures NodeOk(child)
    {
      assert old(NodeOk(dead)) && old(NodeOk(child));
      if above != null { assert old(NodeOk(above)); }
      if leaf != null { assert old(NodeOk(leaf)); }
    }

    twostate lemma PromotedAbove(dead: Node<D>, new above: Node<D>, new child: Node<D>, new leaf: Node?<D>)
      requires above == old(dead.parent) && Promoted(dead, above, child, leaf)
      ensures NodeOk(above)
    {
      assert old(NodeOk(dead)) && old(NodeOk(child)) && old(NodeOk(above));
      if leaf != null { assert old(NodeOk(leaf)); }
    }

    twostate lemma PromotedHead(dead: Node<D>, new above: Node?<D>, new child: Node<D>, new leaf: Node?<D>)
      requires above == old(dead.parent) && Promoted(dead, above, child, leaf)
      ensures head != null && head in nodes
    {
      assert old(NodeOk(dead));
      if leaf != null { assert old(NodeOk(leaf)); }
    }

    lemma PromoteFacts(dead: Node<D>, child: Node<D>, leaf: Node?<D>)
      requires Shape() && dead in nodes && child in nodes
      requires (dead.l == child && dead.r == leaf) || (dead.r == child && dead.l == leaf)
      ensures child != dead && leaf != child && leaf != dead && child.parent == dead
      ensures leaf != null ==> leaf in nodes && leaf.parent == dead
      ensures dead.parent == null <==> head == dead
      ensures dead.parent != null ==>
        && dead.parent in nodes && dead.parent != child && dead.parent != leaf && dead.parent != dead
        && (dead.parent.l == dead || dead.parent.r == dead)
    {
      assert NodeOk(dead) && NodeOk(child);
      if dead.parent != null { assert NodeOk(dead.parent); }
      if leaf != null { assert NodeOk(leaf); }
    }

    method PromoteLinks(dead: Node<D>, child: Node<D>, ghost above: Node?<D>, ghost leaf: Node?<D>)
      requires Shape() && dead in nodes && child in nodes && above == dead.parent
      requires (dead.l == child && dead.r == leaf) || (dead.r == child && dead.l == leaf)
      requires leaf != null ==> leaf.l == null && leaf.r == null
      modifies this`head, this`nodes, child`parent, Up(above)`l, Up(above)`r
      ensures Promoted(dead, above, child, leaf)
    {
      PromoteFacts(dead, child, leaf);
      Relink(dead.parent, dead, child);
      child.parent := dead.parent;
      nodes := nodes - {dead} - Up(leaf);
    }

    // `child` replaces its parent `dead`.
    method Promote(dead: Node<D>, child: Node<D>, ghost leaf: Node?<D>)
      requires Shape() && dead in nodes && child in nodes
      requires (dead.l == child && dead.r == leaf) || (dead.r == child && dead.l == leaf)
      requires leaf != null ==> leaf.l == null && leaf.r == null
      modifies this`head, this`nodes, child`parent, Up(dead.parent)`l, Up(dead.parent)`r
      ensures Shape() && nodes == old(nodes) - {dead} - Up(leaf)
      ensures leaf != null ==> leaf in old(nodes) && leaf != dead
    {
      assert NodeOk(dead);
      ghost var above := dead.parent;
      PromoteLinks(dead, child, above, leaf);
      PromotedShape(dead, above, child, leaf);
    }

    twostate lemma PromotedShape(dead: Node<D>, new above: Node?<D>, new child: Node<D>, new leaf: Node?<D>)
      requires above == old(dead.parent) && Promoted(dead, above, child, leaf)
      ensures Shape()
    {
      PromotedHead(dead, above, child, leaf);
      PromotedChild(dead, above, child, leaf);
      if above != null { PromotedAbove(dead, above, child, leaf); }
      forall m | m in nodes ensures NodeOk(m) {
        if m != child && m != above { PromotedOthers(dead, above, child, leaf, m); }
      }
    }

    // A leaf under a prefix-carrying parent goes: only the parent's link changes.
    method DropLeaf(leaf: Node<D>, parent: Node<D>)
      requires Shape() && leaf in nodes && leaf.l == null && leaf.r == null
      requires leaf.parent == parent && parent.prefix.Some?
      modifies this`nodes, parent`l, parent`r
      ensures Shape() && nodes == old(nodes) - {leaf}
    {
      assert NodeOk(leaf) && NodeOk(parent);
      if parent.r == leaf {
        parent.r := null;
      } else {
        assert parent.l == leaf;
        parent.l := null;
      }
      nodes := nodes - {leaf};
      DroppedShape(leaf, parent);
    }

    twostate lemma DroppedShape(leaf: Node<D>, new parent: Node<D>)
      requires old(Shape()) && leaf in old(nodes) && nodes == old(nodes) - {leaf} && head == old(head)
      requires parent == old(leaf.parent) && old(leaf.l) == null && old(leaf.r) == null
      requires SameContents(nodes) && parent in nodes && parent.prefix.Some?
      requires forall m :: m in nodes && m != parent ==> SameLinks(m)
      requires parent.parent == old(parent.parent)
      requires old(parent.r) == leaf ==> parent.r == null && parent.l == old(parent.l)
      requires old(parent.r) != leaf ==> parent.l == null && parent.r == old(parent.r)
      ensures Shape()
    {
      assert old(NodeOk(leaf)) && old(NodeOk(parent));
      forall m | m in nodes ensures NodeOk(m) {
        assert old(NodeOk(m));
      }
    }

    // A node with two children stays on as glue.
    method MakeBare(node: Node<D>)
      requires Valid() && node in nodes && node.l != null && node.r != null
      modifies node`prefix, node`data
      ensures Valid() && node.prefix == None && node.data == None
    {
      node.prefix := None;
      node.data := None;
      forall m | m in nodes ensures NodeOk(m) {
        assert old(NodeOk(m));
      }
    }

    // patricia_remove on a leaf: a glue parent goes with it.
    method DetachLeaf(node: Node<D>) returns (ghost gone: set<Node<D>>)
      requires Valid() && node in nodes && node.r == null && node.l == null
      modifies this, nodes`l, nodes`r, nodes`parent
      ensures Valid() && nodes == old(nodes) - gone && gone <= old(nodes) && node in gone
      ensures forall m :: m in gone && m != node ==> old(m.prefix) == None
    {
      assert NodeOk(node);
      var parent := node.parent;
      if parent == null {
        OnlyNode(node);
      }
      numActive := numActive - 1;
      if parent == null {
        assert head == node;
        head := null;
        gone := {node};
        nodes := {};
      } else if parent.prefix.Some? {
        gone := {node};
        DropLeaf(node, parent);
      } else {
        assert NodeOk(parent);
        var child := if parent.r == node then parent.l else parent.r;
        gone := {node, parent};
        numActive := numActive - 1;
        Promote(parent, child, node);
      }
    }

    // The structural part of patricia_remove.
    method Detach(node: Node<D>) returns (ghost gone: set<Node<D>>)
      requires Valid() && node in nodes
      modifies this, nodes`l, nodes`r, nodes`parent, node`prefix, node`data
      ensures Valid() && nodes == old(nodes) - gone && gone <= old(nodes)
      ensures node in gone || (node.prefix == None && node.data == None)
      ensures forall m :: m in gone && m != node ==> old(m.prefix) == None
    {
      assert NodeOk(node);
      gone := {};
      if node.r != null && node.l != null {
        MakeBare(node);
      } else if node.r == null && node.l == null {
        gone := DetachLeaf(node);
      } else {
        var child := if node.r != null then node.r else node.l;
        gone := {node};
        numActive := numActive - 1;
        Promote(node, child, null);
      }
    }

    lemma OnlyNode(n: Node<D>)
      requires Valid() && n in nodes && n == head && n.l == null && n.r == null
      ensures nodes == {n}
    {
      forall m | m in nodes ensures m == n {
        AllBelowHead(m);
        if m != n {
          var c := BelowChild(m, n);
        }
      }
    }

    method Remove(node: Node<D>)
      requires Valid() && node in nodes
      modifies this, nodes
      ensures Valid() && nodes <= old(nodes)
      ensures Stored() == if old(node.prefix).Some? then old(Stored()) - {old(node.path)} else old(Stored())
      ensures node in nodes ==> node.prefix == None && node.data == None
      ensures SameContents(nodes - {node})
      ensures forall m :: m in old(nodes) && m !in nodes && m != node ==> old(m.data) == None
    {
      ghost var q := node.path;
      NotStoredElsewhere(node, q);
      assert forall m :: m in nodes && m.prefix == None ==> m.data == None by {
        forall m | m in nodes && m.prefix == None ensures m.data == None {
          assert NodeOk(m);
        }
      }
      ghost var gone := Detach(node);
      StoredShrank(node, gone);
    }

    twostate lemma StoredShrank(node: Node<D>, new gone: set<Node<D>>)
      requires node in old(nodes) && gone <= old(nodes) && nodes == old(nodes) - gone
      requires forall m :: m in gone && m != node ==> old(m.prefix) == None
      requires node in gone || node.prefix == None
      requires SameContents(nodes - {node})
      requires forall m :: m in old(nodes) && m != node ==> old(m.path) != old(node.path)
      ensures Stored() == if old(node.prefix).Some? then old(Stored()) - {old(node.path)} else old(Stored())
    {
      forall q | q in Stored() ensures q in old(Stored()) && q != old(node.path) {
        var m :| m in nodes && m.prefix.Some? && m.path == q;
        assert old(m.prefix).Some? && old(m.path) == q;
      }
      forall q | q in old(Stored()) && (old(node.prefix).None? || q != old(node.path)) ensures q in Stored() {
        var m :| m in old(nodes) && old(m.prefix).Some? && old(m.path) == q;
        assert m != node && m !in gone;
        assert m in nodes && m.prefix.Some? && m.path == q;
      }
    }

    // The users of the trie hang their data on prefix-carrying nodes.
    method SetData(node: Node<D>, data: Option<D>)
      requires Valid() && node in nodes && node.prefix.Some?
      modifies node`data
      ensures Valid() && node.data == data
    {
      node.data := data;
      forall m | m in nodes ensures NodeOk(m) {
        assert old(NodeOk(m));
      }
    }

    // ---- Clear_Patricia ----

    ghost function Subtrees(roots: seq<Node<D>>): set<Node<D>>
      reads `nodes, nodes, roots
    {
      set m | m in nodes && exists i :: 0 <= i < |roots| && roots[i].path <= m.path
    }

    ghost predicate Apart(a: seq<bool>, b: seq<bool>) {
      !(a <= b) && !(b <= a)
    }

    // Roots of disjoint subtrees.
    ghost predicate Disjoint(roots: seq<Node<D>>)
      reads `nodes, nodes, roots
    {
      && (forall i :: 0 <= i < |roots| ==> roots[i] in nodes)
      && (forall i, j :: 0 <= i < j < |roots| ==> Apart(roots[i].path, roots[j].path))
    }

    // marks[i] is the bit of the parent of stack[i]; the parents lie ever deeper.
    ghost predicate Deepening(stack: seq<Node<D>>, marks: seq<nat>, limit: nat)
      reads stack
    {
      && |marks| == |stack|
      && (forall i :: 0 <= i < |marks| ==> i <= marks[i] < limit && marks[i] < stack[i].bit)
      && (forall i, j :: 0 <= i < j < |marks| ==> marks[i] < marks[j])
    }

    // The children of x take its place at the end of a list of roots.
    ghost function Children(x: Node<D>): seq<Node<D>>
      reads x
    {
      (if x.r == null then [] else [x.r]) + (if x.l == null then [] else [x.l])
    }

    lemma ChildrenPaths(x: Node<D>, c: Node<D>)
      requires Shape() && x in nodes && c in Children(x)
      ensures c in nodes && x.path <= c.path && x.path != c.path
    {
      assert NodeOk(x);
    }

    lemma SubtreesStep(rest: seq<Node<D>>, x: Node<D>)
      requires Shape() && Disjoint(rest + [x])
      ensures x in nodes && x !in Subtrees(rest + Children(x))
      ensures Subtrees(rest + [x]) == Subtrees(rest + Children(x)) + {x}
      ensures Disjoint(rest + Children(x))
    {
      var roots, next := rest + [x], rest + Children(x);
      assert roots[|rest|] == x && NodeOk(x);
      forall i | 0 <= i < |next| ensures next[i] in nodes && !(next[i].path <= x.path) {
        if i < |rest| {
          assert roots[i] == rest[i];
        } else {
          ChildrenPaths(x, next[i]);
        }
      }
      forall m | m in nodes && m != x
        ensures m in Subtrees(roots) <==> m in Subtrees(next)
      {
        SubtreesMember(rest, x, m);
      }
      forall i, j | 0 <= i < j < |next| ensures Apart(next[i].path, next[j].path) {
        ChildrenApart(rest, x, i, j);
      }
    }

    lemma ChildrenApart(rest: seq<Node<D>>, x: Node<D>, i: nat, j: nat)
      requires Shape() && Disjoint(rest + [x]) && i < j < |rest + Children(x)|
      ensures Apart((rest + Children(x))[i].path, (rest + Children(x))[j].path)
    {
      var roots, next := rest + [x], rest + Children(x);
      assert roots[|rest|] == x && NodeOk(x);
      if j < |rest| {
        assert roots[i] == rest[i] && roots[j] == rest[j];
      } else if i < |rest| {
        assert roots[i] == rest[i] && Apart(roots[i].path, x.path);
        ChildrenPaths(x, next[j]);
      } else {
        assert next[i] == x.r && next[j] == x.l;
      }
    }

    lemma SubtreesMember(rest: seq<Node<D>>, x: Node<D>, m: Node<D>)
      requires Shape() && Disjoint(rest + [x]) && m in nodes && m != x
      ensures m in Subtrees(rest + [x]) <==> m in Subtrees(rest + Children(x))
    {
      var roots, next := rest + [x], rest + Children(x);
      assert roots[|rest|] == x && NodeOk(x) && NodeOk(m);
      if m in Subtrees(roots) {
        var i :| 0 <= i < |roots| && roots[i].path <= m.path;
        if i < |rest| {
          assert next[i] == roots[i];
        } else {
          if m.path == x.path { PathsUnique(m, x); }
          Towards(x, m);
          var c := if m.path[x.bit] then x.r else x.l;
          assert c in Children(x);
          assert c in next;
        }
      }
      if m in Subtrees(next) {
        var i :| 0 <= i < |next| && next[i].path <= m.path;
        if i < |rest| {
          assert roots[i] == next[i];
        } else {
          ChildrenPaths(x, next[i]);
        }
      }
    }

    lemma HeadCoversAll()
      requires Shape() && head != null
      ensures Disjoint([head]) && Subtrees([head]) == nodes
    {
      forall m | m in nodes ensures m in Subtrees([head]) {
        AllBelowHead(m);
        BelowExtends(m, head);
        assert [head][0].path <= m.path;
      }
    }

    // The traversal stands at `cur` with `stack` waiting; `left` is what remains to free.
    ghost predicate Walk(stack: seq<Node<D>>, cur: Node?<D>, marks: seq<nat>, left: set<Node<D>>)
      reads `head, `nodes, nodes, stack, cur
    {
      && Shape()
      && (cur == null ==> left == {})
      && (cur != null ==>
            Disjoint(stack + [cur]) && left == Subtrees(stack + [cur]) && Deepening(stack, marks, cur.bit))
    }

    lemma Shallow(stack: seq<Node<D>>, marks: seq<nat>, limit: nat)
      requires Deepening(stack, marks, limit)
      ensures |stack| <= limit
    {
      if |marks| > 0 { assert |marks| - 1 <= marks[|marks| - 1]; }
    }

    // What Clear_Patricia visits after `cur`.
    method WalkNext(stack: seq<Node<D>>, cur: Node<D>, ghost marks: seq<nat>, ghost left: set<Node<D>>)
      returns (stack': seq<Node<D>>, cur': Node?<D>, ghost marks': seq<nat>)
      requires Walk(stack, cur, marks, left)
      ensures cur in left && cur in nodes && Walk(stack', cur', marks', left - {cur})
      ensures |stack'| <= |stack| || |stack'| <= PATRICIA_MAXBITS
    {
      SubtreesStep(stack, cur);
      assert NodeOk(cur);
      assert (stack + [cur])[|stack|] == cur;
      Shallow(stack, marks, cur.bit);
      stack', marks' := stack, marks;
      var l, r := cur.l, cur.r;
      if l != null {
        if r != null {
          assert |stack| < PATRICIA_MAXBITS + 1;
          assert NodeOk(l);
          stack', marks' := stack + [r], marks + [cur.bit];
        }
        cur' := l;
        assert stack + Children(cur) == stack' + [l];
      } else if r != null {
        assert stack + Children(cur) == stack + [r];
        cur' := r;
      } else {
        assert stack + Children(cur) == stack;
        if |stack| > 0 {
          var last := |stack| - 1;
          cur', stack', marks' := stack[last], stack[..last], marks[..last];
          assert stack' + [stack[last]] == stack;
        } else {
          cur' := null;
        }
      }
    }

    // Every node is freed or left, none twice.
    static ghost predicate Accounted(all: set<Node<D>>, freed: seq<Node<D>>, left: set<Node<D>>) {
      && left <= all && |freed| + |left| == |all|
      && (forall n :: n in all ==> n in freed || n in left)
      && (forall n :: n in freed ==> n in all)
    }

    static lemma FreeOne(all: set<Node<D>>, freed: seq<Node<D>>, left: set<Node<D>>, x: Node<D>)
      requires x in left && Accounted(all, freed, left)
      ensures |left - {x}| == |left| - 1 && Accounted(all, freed + [x], left - {x})
    {
    }

    // The nodes in the order Clear_Patricia frees them, each exactly once.  `active` is the
    // node count, decremented at each node.
    method ClearLoop() returns (freed: seq<Node<D>>, active: int)
      requires Valid()
      ensures active == 0
      ensures |freed| == |nodes| && forall n :: n in nodes <==> n in freed
    {
      freed, active := [], numActive;
      var cur := head;
      var stack: seq<Node<D>> := [];
      ghost var marks: seq<nat> := [];
      ghost var left := nodes;
      if head != null {
        HeadCoversAll();
        assert stack + [head] == [head];
      }
      while cur != null
        invariant Walk(stack, cur, marks, left)
        invariant active == |left| && Accounted(nodes, freed, left)
        decreases |left|
      {
        var x: Node<D> := cur;
        stack, cur, marks := WalkNext(stack, x, marks, left);
        FreeOne(nodes, freed, left, x);
        freed := freed + [x];
        left := left - {x};
        active := active - 1;
      }
    }

    // The head is left as it was: the original only calls this before freeing the tree.
    method Clear() returns (freed: seq<Node<D>>)
      requires Valid()
      modifies this`numActive
      ensures numActive == 0
      ensures |freed| == |nodes| && forall n :: n in nodes <==> n in freed
    {
      freed, numActive := ClearLoop();
      assert numActive == 0;
    }

    // One step of a run: insert the prefix, or remove it if it is there.
    method Apply(op: Op)
      requires Valid() && Fits(op.p)
      modifies this, nodes
      ensures Valid() && fresh(nodes - old(nodes))
      ensures Stored() == if op.Insert? then old(Stored()) + {Masked(op.p)} else old(Stored()) - {Masked(op.p)}
    {
      match op
      case Insert(p) =>
        var n := Lookup(p);
      case Delete(p) =>
        var n := SearchExact(p);
        if n != null {
          Remove(n);
        }
    }

    // Any run of insertions and removals from the empty tree keeps the invariant and holds
    // exactly the prefixes a plain set would.
    method Run(ops: seq<Op>)
      requires Valid() && nodes == {}
      requires forall i :: 0 <= i < |ops| ==> Fits(ops[i].p)
      modifies this
      ensures Valid() && fresh(nodes)
      ensures Stored() == Held(ops)
    {
      for i := 0 to |ops|
        invariant Valid() && fresh(nodes)
        invariant Stored() == Held(ops[..i])
      {
        assert ops[..i + 1][..i] == ops[..i];
        Apply(ops[i]);
      }
      assert ops[..|ops|] == ops;
    }
  }

  // A query for the default route in a tree that holds one host route: the answer is the host
  // route, which does not cover the query.
  method ShortQuery(maxbits: nat, addr: seq<bool>) returns (t: Tree<int>, node: Node?<int>)
    requires maxbits == 32 || maxbits == 128
    requires |addr| == maxbits
    ensures t.Valid() && t.maxbits == maxbits && t.Fits(Prefix(addr, 0)) && t.Stored() == {addr}
    ensures node != null && !t.LongestMatch(node, Prefix(addr, 0))
  {
    t := new Tree<int>(maxbits);
    var n := t.Lookup(Prefix(addr, maxbits));
    assert addr[..maxbits] == addr;
    assert t.NodeOk(n);
    assert t.Overshoots(Prefix(addr, 0));
    node := t.SearchBest(Prefix(addr, 0));
    assert forall q :: q in t.Stored() ==> !(q <= Masked(Prefix(addr, 0)));
  }
}

// Putting encoded records back in order (src/collector/collector_forwarder.c).  Sequence
// numbers are 32 bits wide and wrap around.
module Reorder {
  import opened Common

  const SEQ_MOD := 0x1_0000_0000

  // The job kinds a tracker numbers; the first four carry communication content.
  datatype JobType =
    | IpCC | IpmmCC | UmtsCC | EmailCC
    | IpIRI | IpmmIRI | UmtsIRI | EmailIRI | RawSync

  predicate IsCC(t: JobType) {
    t.IpCC? || t.IpmmCC? || t.UmtsCC? || t.EmailCC?
  }

  datatype Job = Job(kind: JobType, liid: string, cin: nat, destid: nat, content: seq<byte>)

  // An encoded record: the job, the "LIID-CIN" string of its session and its number.
  datatype Record = Record(job: Job, cinstr: string, seqno: nat)

  datatype Reorderer = Reorderer(liid: string, expected: nat, pending: map<nat, Record>)

  function Next(seqno: nat): nat {
    (seqno + 1) % SEQ_MOD
  }

  // The drain loop of enqueue_result.
  function Drain(r: Reorderer): (Reorderer, seq<Record>)
    decreases |r.pending|
  {
    if r.expected !in r.pending then (r, [])
    else
      var stored := r.pending[r.expected];
      var (r', rest) := Drain(r.(expected := Next(stored.seqno), pending := r.pending - {r.expected}));
      (r', [stored] + rest)
  }

  // enqueue_result for one reorderer: its new state and the records it lets go.
  function Accept(r: Reorderer, rec: Record): (Reorderer, seq<Record>) {
    if rec.seqno != r.expected then (r.(pending := r.pending[rec.seqno := rec]), [])
    else
      var (r', rest) := Drain(r.(expected := Next(rec.seqno)));
      (r', [rec] + rest)
  }

  // ---- A reorderer against the order the tracker assigned ----

  // `log` lists the records of one stream as numbered.
  ghost predicate Numbered(log: seq<Record>) {
    forall i :: 0 <= i < |log| ==> log[i].seqno == i % SEQ_MOD
  }

  // After `d` records have been let go, the ones waiting are those of `held` (a set of
  // indices into the log) from index d on.
  ghost predicate Tracks(r: Reorderer, log: seq<Record>, d: nat, held: set<nat>) {
    && Numbered(log) && d <= |log| <= d + SEQ_MOD
    && r.expected == d % SEQ_MOD
    && (forall i :: i in held && d <= i ==> Waits(r, log, i))
    && (forall k :: k in r.pending ==> Accounted(k, held, d))
  }

  // Some held index has the number k.
  ghost predicate Accounted(k: nat, held: set<nat>, d: nat) {
    exists i :: i in held && d <= i && i % SEQ_MOD == k
  }

  ghost predicate Waits(r: Reorderer, log: seq<Record>, i: nat) {
    i < |log| && i % SEQ_MOD in r.pending && r.pending[i % SEQ_MOD] == log[i]
  }

  // The first index from d on that is not held.
  ghost function FirstGap(held: set<nat>, d: nat, n: nat): (g: nat)
    requires d <= n
    ensures d <= g <= n && (g < n ==> g !in held)
    ensures forall i :: d <= i < g ==> i in held
    decreases n - d
  {
    if d < n && d in held then FirstGap(held, d + 1, n) else d
  }

  lemma SameResidue(i: nat, j: nat, d: nat)
    requires d <= i < d + SEQ_MOD && d <= j < d + SEQ_MOD && i % SEQ_MOD == j % SEQ_MOD
    ensures i == j
  {
  }

  lemma NextResidue(d: nat)
    ensures Next(d % SEQ_MOD) == (d + 1) % SEQ_MOD
  {
  }

  // Letting go of the record at d, however it arrived, moves on to d + 1.
  lemma Advance(r: Reorderer, r1: Reorderer, log: seq<Record>, d: nat, held: set<nat>)
    requires Tracks(r, log, d, held) && d < |log|
    requires r1.expected == Next(log[d].seqno)
    requires forall k :: k in r1.pending <==> k in r.pending && k != d % SEQ_MOD
    requires forall k :: k in r1.pending ==> r1.pending[k] == r.pending[k]
    ensures Tracks(r1, log, d + 1, held)
  {
    NextResidue(d);
    forall i | i in held && d + 1 <= i ensures Waits(r1, log, i) {
      assert Waits(r, log, i);
      if i % SEQ_MOD == d % SEQ_MOD { SameResidue(i, d, d); }
    }
    forall k | k in r1.pending ensures Accounted(k, held, d + 1) {
      assert Accounted(k, held, d);
      var i :| i in held && d <= i && i % SEQ_MOD == k;
      assert d + 1 <= i;
    }
  }

  // One turn of the drain loop.
  lemma DrainStep(r: Reorderer, log: seq<Record>, d: nat, held: set<nat>)
    requires Tracks(r, log, d, held) && d in held
    ensures d < |log| && r.expected in r.pending && r.pending[r.expected] == log[d]
    ensures Tracks(r.(expected := Next(log[d].seqno), pending := r.pending - {r.expected}), log, d + 1, held)
  {
    assert Waits(r, log, d);
    Advance(r, r.(expected := Next(log[d].seqno), pending := r.pending - {r.expected}), log, d, held);
  }

  // With nothing held at d, the expected number does not wait: the drain loop stops.
  lemma DrainStop(r: Reorderer, log: seq<Record>, d: nat, held: set<nat>)
    requires Tracks(r, log, d, held) && d !in held
    ensures r.expected !in r.pending
  {
    if r.expected in r.pending {
      assert Accounted(r.expected, held, d);
      var i :| i in held && d <= i && i % SEQ_MOD == r.expected;
      assert Waits(r, log, i);
      SameResidue(i, d, d);
    }
  }

  lemma {:induction false} DrainTracks(r: Reorderer, log: seq<Record>, d: nat, held: set<nat>)
    requires Tracks(r, log, d, held) && |log| !in held
    ensures var d' := FirstGap(held, d, |log|);
      Drain(r).1 == log[d..d'] && Tracks(Drain(r).0, log, d', held)
    decreases |log| - d
  {
    if d in held {
      DrainStep(r, log, d, held);
      var r1 := r.(expected := Next(log[d].seqno), pending := r.pending - {r.expected});
      DrainTracks(r1, log, d + 1, held);
      var d' := FirstGap(held, d, |log|);
      assert log[d..d'] == [log[d]] + log[d + 1..d'];
    } else {
      DrainStop(r, log, d, held);
    }
  }

  // Whatever record of the stream arrives next, what comes out continues the log.
  lemma AcceptTracks(r: Reorderer, log: seq<Record>, d: nat, held: set<nat>, j: nat)
    requires Tracks(r, log, d, held) && d !in held && |log| !in held
    requires d <= j < |log| && j !in held
    ensures var d' := FirstGap(held + {j}, d, |log|);
      && Accept(r, log[j]).1 == log[d..d']
      && Tracks(Accept(r, log[j]).0, log, d', held + {j})
  {
    if j == d {
      AcceptNow(r, log, d, held);
    } else {
      AcceptLater(r, log, d, held, j);
    }
  }

  lemma AcceptNow(r: Reorderer, log: seq<Record>, d: nat, held: set<nat>)
    requires Tracks(r, log, d, held) && d !in held && |log| !in held && d < |log|
    ensures var d' := FirstGap(held + {d}, d, |log|);
      Accept(r, log[d]).1 == log[d..d'] && Tracks(Accept(r, log[d]).0, log, d', held + {d})
  {
    var r1, held' := r.(expected := Next(log[d].seqno)), held + {d};
    DrainStop(r, log, d, held);
    Advance(r, r1, log, d, held);
    MoreHeld(r1, log, d + 1, held, d);
    DrainTracks(r1, log, d + 1, held');
    var d' := FirstGap(held', d, |log|);
    assert d' == FirstGap(held', d + 1, |log|);
    assert log[d..d'] == [log[d]] + log[d + 1..d'];
    assert Accept(r, log[d]) == (Drain(r1).0, [log[d]] + Drain(r1).1);
  }

  lemma MoreHeld(r: Reorderer, log: seq<Record>, d: nat, held: set<nat>, j: nat)
    requires Tracks(r, log, d, held) && j < d
    ensures Tracks(r, log, d, held + {j})
  {
    forall k | k in r.pending ensures Accounted(k, held + {j}, d) {
      assert Accounted(k, held, d);
      var i :| i in held && d <= i && i % SEQ_MOD == k;
      assert i in held + {j};
    }
  }

  lemma AcceptLater(r: Reorderer, log: seq<Record>, d: nat, held: set<nat>, j: nat)
    requires Tracks(r, log, d, held) && d !in held && d < j < |log| && j !in held
    ensures Accept(r, log[j]).1 == [] && Tracks(Accept(r, log[j]).0, log, d, held + {j})
  {
    if log[j].seqno == r.expected { SameResidue(j, d, d); }
    var r1 := Accept(r, log[j]).0;
    var held' := held + {j};
    forall i | i in held' && d <= i ensures Waits(r1, log, i) {
      if i != j {
        assert Waits(r, log, i);
        if i % SEQ_MOD == j % SEQ_MOD { SameResidue(i, j, d); }
      }
    }
    forall k | k in r1.pending ensures Accounted(k, held', d) {
      if k == j % SEQ_MOD {
        assert j in held';
      } else {
        assert Accounted(k, held, d);
        var i :| i in held && d <= i && i % SEQ_MOD == k;
        assert i in held';
      }
    }
  }

  // ---- Order independence ----

  function Fresh(liid: string): Reorderer {
    Reorderer(liid, 0, map[])
  }

  // A reorderer fed with a sequence of records.
  function Feed(r: Reorderer, recs: seq<Record>): (Reorderer, seq<Record>) {
    if recs == [] then (r, [])
    else
      var (r1, out) := Feed(r, recs[..|recs| - 1]);
      var (r2, more) := Accept(r1, recs[|recs| - 1]);
      (r2, out + more)
  }

  // The records of the log with the given indices, in that order of arrival.
  ghost predicate Arrivals(log: seq<Record>, js: seq<nat>, recs: seq<Record>) {
    && |recs| == |js|
    && (forall k :: 0 <= k < |js| ==> js[k] < |log| && recs[k] == log[js[k]])
    && (forall k, m :: 0 <= k < m < |js| ==> js[k] != js[m])
  }

  ghost function Elements(js: seq<nat>): set<nat> {
    set j | j in js
  }

  lemma {:induction false} FeedTracks(liid: string, log: seq<Record>, js: seq<nat>, recs: seq<Record>)
    requires Numbered(log) && |log| <= SEQ_MOD && Arrivals(log, js, recs)
    ensures var d := FirstGap(Elements(js), 0, |log|);
      && Feed(Fresh(liid), recs).1 == log[..d]
      && Tracks(Feed(Fresh(liid), recs).0, log, d, Elements(js))
      && Feed(Fresh(liid), recs).0.liid == liid
    decreases |js|
  {
    if js != [] {
      var n := |js| - 1;
      FeedTracks(liid, log, js[..n], recs[..n]);
      FeedStep(Feed(Fresh(liid), recs[..n]), log, js[..n], js[n]);
      AcceptKeepsLiid(Feed(Fresh(liid), recs[..n]).0, log[js[n]]);
      assert Elements(js) == Elements(js[..n]) + {js[n]};
    }
  }

  // One more arrival.
  lemma FeedStep(fed: (Reorderer, seq<Record>), log: seq<Record>, js: seq<nat>, j: nat)
    requires var d := FirstGap(Elements(js), 0, |log|);
      fed.1 == log[..d] && Tracks(fed.0, log, d, Elements(js))
    requires j < |log| && j !in js && forall k :: k in js ==> k < |log|
    ensures var d' := FirstGap(Elements(js) + {j}, 0, |log|);
      && fed.1 + Accept(fed.0, log[j]).1 == log[..d']
      && Tracks(Accept(fed.0, log[j]).0, log, d', Elements(js) + {j})
  {
    var held := Elements(js);
    var d := FirstGap(held, 0, |log|);
    GapGrows(held, j, |log|);
    AcceptTracks(fed.0, log, d, held, j);
    var d' := FirstGap(held + {j}, d, |log|);
    Extended(log, d, d');
  }

  lemma Extended(log: seq<Record>, d: nat, d': nat)
    requires d <= d' <= |log|
    ensures log[..d] + log[d..d'] == log[..d']
  {
  }

  lemma {:induction false} DrainSettles(r: Reorderer)
    ensures Drain(r).0.expected !in Drain(r).0.pending
    decreases |r.pending|
  {
    if r.expected in r.pending {
      DrainSettles(r.(expected := Next(r.pending[r.expected].seqno), pending := r.pending - {r.expected}));
    }
  }

  // Between calls the expected number is never pending, whatever has arrived.
  lemma {:induction false} ExpectedNotPending(liid: string, recs: seq<Record>)
    ensures var r := Feed(Fresh(liid), recs).0; r.expected !in r.pending
  {
    if recs != [] {
      var n := |recs| - 1;
      ExpectedNotPending(liid, recs[..n]);
      DrainSettles(Feed(Fresh(liid), recs[..n]).0.(expected := Next(recs[n].seqno)));
    }
  }

  lemma {:induction false} DrainKeepsLiid(r: Reorderer)
    ensures Drain(r).0.liid == r.liid
    decreases |r.pending|
  {
    if r.expected in r.pending {
      DrainKeepsLiid(r.(expected := Next(r.pending[r.expected].seqno), pending := r.pending - {r.expected}));
    }
  }

  lemma AcceptKeepsLiid(r: Reorderer, rec: Record)
    ensures Accept(r, rec).0.liid == r.liid
  {
    DrainKeepsLiid(r.(expected := Next(rec.seqno)));
  }

  // Restarting the search for a gap at the old gap finds the new one.
  lemma {:induction false} GapFrom(held: set<nat>, a: nat, d: nat, n: nat)
    requires a <= d <= n && forall i :: a <= i < d ==> i in held
    ensures FirstGap(held, a, n) == FirstGap(held, d, n)
    decreases d - a
  {
    if a < d { GapFrom(held, a + 1, d, n); }
  }

  lemma GapGrows(held: set<nat>, j: nat, n: nat)
    requires j < n && j !in held && forall i :: i in held ==> i < n
    ensures var d := FirstGap(held, 0, n);
      d <= j && d !in held && FirstGap(held + {j}, 0, n) == FirstGap(held + {j}, d, n)
  {
    var d := FirstGap(held, 0, n);
    GapFrom(held + {j}, 0, d, n);
  }

  lemma TracksUnique(r: Reorderer, r': Reorderer, log: seq<Record>, d: nat, held: set<nat>)
    requires Tracks(r, log, d, held) && Tracks(r', log, d, held) && r.liid == r'.liid
    ensures r == r'
  {
    forall k | k in r.pending ensures k in r'.pending && r'.pending[k] == r.pending[k] {
      assert Accounted(k, held, d);
      var i :| i in held && d <= i && i % SEQ_MOD == k;
      assert Waits(r, log, i) && Waits(r', log, i);
    }
    forall k | k in r'.pending ensures k in r.pending {
      assert Accounted(k, held, d);
      var i :| i in held && d <= i && i % SEQ_MOD == k;
      assert Waits(r, log, i);
    }
    assert r.pending == r'.pending;
  }

  // State and output depend only on which records have arrived, not on their order.
  lemma OrderIndependent(liid: string, log: seq<Record>,
                         js: seq<nat>, recs: seq<Record>, js': seq<nat>, recs': seq<Record>)
    requires Numbered(log) && |log| <= SEQ_MOD
    requires Arrivals(log, js, recs) && Arrivals(log, js', recs')
    requires Elements(js) == Elements(js')
    ensures Feed(Fresh(liid), recs) == Feed(Fresh(liid), recs')
  {
    FeedTracks(liid, log, js, recs);
    FeedTracks(liid, log, js', recs');
    var d := FirstGap(Elements(js), 0, |log|);
    TracksUnique(Feed(Fresh(liid), recs).0, Feed(Fresh(liid), recs').0, log, d, Elements(js));
  }

  // ---- A reorderer that expects another number than the first ----

  // What waits: the held records below e, where the reorderer began, and those from d on.
  ghost function Waiting(log: seq<Record>, held: set<nat>, e: nat, d: nat): map<nat, Record> {
    map i | i in held && i < |log| && (i < e || d <= i) :: log[i]
  }

  lemma WaitingNext(log: seq<Record>, held: set<nat>, e: nat, d: nat)
    requires d in held && e <= d < |log|
    ensures d in Waiting(log, held, e, d) && Waiting(log, held, e, d)[d] == log[d]
    ensures Waiting(log, held, e, d) - {d} == Waiting(log, held, e, d + 1)
  {
  }

  lemma WaitingMore(log: seq<Record>, held: set<nat>, e: nat, d: nat, j: nat)
    requires j < |log| && j !in held && (j < e || d <= j)
    ensures Waiting(log, held, e, d)[j := log[j]] == Waiting(log, held + {j}, e, d)
  {
  }

  lemma WaitingPassed(log: seq<Record>, held: set<nat>, e: nat, d: nat)
    requires d !in held && e <= d
    ensures Waiting(log, held, e, d) == Waiting(log, held + {d}, e, d + 1)
  {
  }

  lemma FirstOf(log: seq<Record>, d: nat, g: nat)
    requires d < g <= |log|
    ensures log[d..g] == [log[d]] + log[d + 1..g]
  {
  }

  lemma {:induction false} DrainFrom(liid: string, log: seq<Record>, held: set<nat>, e: nat, d: nat)
    requires Numbered(log) && |log| < SEQ_MOD && e <= d <= |log|
    ensures var g := FirstGap(held, d, |log|);
      Drain(Reorderer(liid, d, Waiting(log, held, e, d))) == (Reorderer(liid, g, Waiting(log, held, e, g)), log[d..g])
    decreases |log| - d
  {
    if d in held && d < |log| {
      WaitingNext(log, held, e, d);
      DrainFrom(liid, log, held, e, d + 1);
      FirstOf(log, d, FirstGap(held, d, |log|));
      assert Next(log[d].seqno) == d + 1;
    } else {
      assert d !in Waiting(log, held, e, d) && log[d..d] == [];
    }
  }

  lemma AcceptNext(liid: string, log: seq<Record>, held: set<nat>, e: nat, d: nat)
    requires Numbered(log) && |log| < SEQ_MOD && e <= d < |log| && d !in held
    ensures var g := FirstGap(held + {d}, d, |log|);
      Accept(Reorderer(liid, d, Waiting(log, held, e, d)), log[d])
        == (Reorderer(liid, g, Waiting(log, held + {d}, e, g)), log[d..g])
  {
    assert log[d].seqno == d && Next(log[d].seqno) == d + 1;
    WaitingPassed(log, held, e, d);
    DrainFrom(liid, log, held + {d}, e, d + 1);
    FirstOf(log, d, FirstGap(held + {d}, d, |log|));
  }

  lemma AcceptFrom(liid: string, log: seq<Record>, held: set<nat>, e: nat, j: nat)
    requires Numbered(log) && |log| < SEQ_MOD && e <= |log| && j < |log| && j !in held
    ensures var d, d' := FirstGap(held, e, |log|), FirstGap(held + {j}, e, |log|);
      d <= d' && Accept(Reorderer(liid, d, Waiting(log, held, e, d)), log[j])
        == (Reorderer(liid, d', Waiting(log, held + {j}, e, d')), log[d..d'])
  {
    var d := FirstGap(held, e, |log|);
    GapFrom(held + {j}, e, d, |log|);
    if j == d {
      AcceptNext(liid, log, held, e, d);
    } else {
      assert log[j].seqno == j && log[d..d] == [];
      WaitingMore(log, held, e, d, j);
    }
  }

  // A reorderer that starts out expecting the number e lets go exactly the records from index e
  // on, as far as they have arrived without a gap; those before index e wait.
  lemma {:induction false} FeedFrom(r: Reorderer, log: seq<Record>, js: seq<nat>, recs: seq<Record>)
    requires Numbered(log) && r.expected <= |log| < SEQ_MOD && r.pending == map[] && Arrivals(log, js, recs)
    ensures var d := FirstGap(Elements(js), r.expected, |log|);
      && r.expected <= d <= |log| && Feed(r, recs).1 == log[r.expected..d]
      && Feed(r, recs).0 == Reorderer(r.liid, d, Waiting(log, Elements(js), r.expected, d))
    decreases |js|
  {
    var e := r.expected;
    if js == [] {
      assert Elements(js) == {} && Waiting(log, {}, e, e) == map[];
    } else {
      var n := |js| - 1;
      var held := Elements(js[..n]);
      FeedFrom(r, log, js[..n], recs[..n]);
      assert Elements(js) == held + {js[n]};
      AcceptFrom(r.liid, log, held, e, js[n]);
      Sliced(log, e, FirstGap(held, e, |log|), FirstGap(held + {js[n]}, e, |log|));
    }
  }

  lemma Sliced(log: seq<Record>, e: nat, d: nat, d': nat)
    requires e <= d <= d' <= |log|
    ensures log[e..d] + log[d..d'] == log[e..d']
  {
  }
}

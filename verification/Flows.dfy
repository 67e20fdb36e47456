// One life of a numbered stream: the order the tracker assigned, the records under way, what the
// reorderer holds and what it has let go.
module Flows {
  import opened Reorder

  ghost function Held(log: seq<Record>, d: nat, bag: multiset<Record>): set<nat> {
    set i | d <= i < |log| && log[i] !in bag
  }

  // What has been let go of a stream continues its completed lives with a prefix of the log,
  // and the reorderer holds what has left the bag since.
  ghost predicate Flow(out: seq<Record>, past: seq<Record>, log: seq<Record>, bag: multiset<Record>, r: Reorderer) {
    var d := |out| - |past|;
    && 0 <= d <= |log|
    && out == past + log[..d]
    && (d < |log| ==> log[d] in bag)
    && (forall i :: d <= i < |log| ==> bag[log[i]] <= 1)
    && Tracks(r, log, d, Held(log, d, bag))
  }

  // Tracks looks at `held` only from d on, and a longer log is still tracked.
  lemma TracksLonger(r: Reorderer, log: seq<Record>, d: nat, held: set<nat>, rec: Record, held': set<nat>)
    requires Tracks(r, log, d, held) && |log| + 1 <= d + SEQ_MOD && rec.seqno == |log| % SEQ_MOD
    requires forall i :: d <= i ==> (i in held' <==> i in held)
    ensures Tracks(r, log + [rec], d, held')
  {
    TracksSame(r, log, d, held, held');
    forall i | i in held' && d <= i ensures Waits(r, log + [rec], i) {
      assert Waits(r, log, i);
    }
  }

  lemma TracksSame(r: Reorderer, log: seq<Record>, d: nat, held: set<nat>, held': set<nat>)
    requires Tracks(r, log, d, held) && forall i :: d <= i ==> (i in held' <==> i in held)
    ensures Tracks(r, log, d, held')
  {
    forall k | k in r.pending ensures Accounted(k, held', d) {
      assert Accounted(k, held, d);
      var i :| i in held && d <= i && i % SEQ_MOD == k;
      assert i in held';
    }
    forall i | i in held' && d <= i ensures Waits(r, log, i) {
      assert i in held;
    }
  }

  // The next number is new among the records not yet let go.
  lemma FreshNumber(log: seq<Record>, d: nat, rec: Record)
    requires Numbered(log) && d <= |log| < d + SEQ_MOD && rec.seqno == |log| % SEQ_MOD
    ensures forall i :: d <= i < |log| ==> log[i] != rec
  {
    forall i | d <= i < |log| ensures log[i] != rec {
      assert log[i].seqno == i % SEQ_MOD;
      if log[i] == rec { SameResidue(i, |log|, d); }
    }
  }

  lemma FlowPublish(out: seq<Record>, past: seq<Record>, log: seq<Record>, bag: multiset<Record>, r: Reorderer,
                    rec: Record)
    requires Flow(out, past, log, bag, r)
    requires rec.seqno == |log| % SEQ_MOD && |log| - (|out| - |past|) < SEQ_MOD && rec !in bag
    ensures Flow(out, past, log + [rec], bag + multiset{rec}, r)
  {
    var d := |out| - |past|;
    var log', bag' := log + [rec], bag + multiset{rec};
    FreshNumber(log, d, rec);
    assert log'[..d] == log[..d];
    forall i | d <= i < |log'|
      ensures bag'[log'[i]] <= 1 && (i < |log| ==> (log'[i] in bag' <==> log[i] in bag))
    {
    }
    TracksLonger(r, log, d, Held(log, d, bag), rec, Held(log', d, bag'));
  }

  // Taking log[j] out of the bag adds exactly j to the held indices.
  lemma HeldGrows(log: seq<Record>, d: nat, bag: multiset<Record>, j: nat, i: nat)
    requires Numbered(log) && d <= j < |log| <= d + SEQ_MOD && d <= i < |log|
    requires bag[log[j]] == 1
    ensures log[i] in bag - multiset{log[j]} <==> log[i] in bag && i != j
  {
    if i != j && log[i] == log[j] {
      assert log[i].seqno == i % SEQ_MOD && log[j].seqno == j % SEQ_MOD;
      SameResidue(i, j, d);
    }
  }

  // The bag after log[j] has left it, from d' on.
  lemma BagAdvance(log: seq<Record>, d: nat, bag: multiset<Record>, j: nat, d': nat)
    requires Numbered(log) && d <= j < |log| <= d + SEQ_MOD
    requires bag[log[j]] == 1 && forall i :: d <= i < |log| ==> bag[log[i]] <= 1
    requires d' == FirstGap(Held(log, d, bag) + {j}, d, |log|)
    ensures var held, bag' := Held(log, d, bag) + {j}, bag - multiset{log[j]};
      && (d' < |log| ==> log[d'] in bag')
      && (forall i :: d <= i < |log| ==> bag'[log[i]] <= 1)
      && (forall i :: d <= i < d' ==> log[i] !in bag')
      && (forall i :: d' <= i ==> (i in Held(log, d', bag') <==> i in held))
  {
    var held, bag' := Held(log, d, bag) + {j}, bag - multiset{log[j]};
    forall i | d <= i < |log| ensures log[i] in bag' <==> i !in held {
      HeldGrows(log, d, bag, j, i);
    }
  }

  lemma FlowIntro(out: seq<Record>, past: seq<Record>, log: seq<Record>, d: nat, d': nat, bag: multiset<Record>,
                  r: Reorderer)
    requires d <= d' <= |log| && out == past + log[..d]
    requires d' < |log| ==> log[d'] in bag
    requires forall i :: d <= i < |log| ==> bag[log[i]] <= 1
    requires Tracks(r, log, d', Held(log, d', bag))
    ensures Flow(out + log[d..d'], past, log, bag, r)
  {
    assert log[..d'] == log[..d] + log[d..d'];
    var out' := out + log[d..d'];
    assert out' == past + log[..d'];
    assert |out'| - |past| == d';
  }

  lemma FlowDeliver(out: seq<Record>, past: seq<Record>, log: seq<Record>, bag: multiset<Record>, r: Reorderer, j: nat)
    requires Flow(out, past, log, bag, r)
    requires |out| - |past| <= j < |log| && log[j] in bag
    ensures var more := Accept(r, log[j]).1;
      && Flow(out + more, past, log, bag - multiset{log[j]}, Accept(r, log[j]).0)
      && (forall rec :: rec in more ==> rec in log)
      && (forall i :: |out| - |past| <= i < |out + more| - |past| ==> log[i] !in bag - multiset{log[j]})
  {
    var d := |out| - |past|;
    var held := Held(log, d, bag);
    AcceptTracks(r, log, d, held, j);
    var d' := FirstGap(held + {j}, d, |log|);
    BagAdvance(log, d, bag, j, d');
    var bag' := bag - multiset{log[j]};
    TracksSame(Accept(r, log[j]).0, log, d', held + {j}, Held(log, d', bag'));
    FlowIntro(out, past, log, d, d', bag', Accept(r, log[j]).0);
  }

  lemma NothingHeld(r: Reorderer, log: seq<Record>, d: nat, held: set<nat>)
    requires Tracks(r, log, d, held) && forall i :: i in held ==> i < d
    ensures r.pending == map[]
  {
    assert forall k :: k in r.pending ==> Accounted(k, held, d);
  }

  // Nothing is let go until the expected number arrives.
  lemma {:induction false} Stalled(r: Reorderer, recs: seq<Record>)
    ensures Feed(r, recs).1 == [] <==> forall rec :: rec in recs ==> rec.seqno != r.expected
    ensures Feed(r, recs).1 == [] ==> Feed(r, recs).0.expected == r.expected
  {
    if recs != [] {
      var n := |recs| - 1;
      Stalled(r, recs[..n]);
      assert recs == recs[..n] + [recs[n]];
      var (r1, out) := Feed(r, recs[..n]);
      if out == [] {
        assert Feed(r, recs).1 == [] <==> recs[n].seqno != r.expected;
      }
    }
  }

  // ---- With nothing else under way ----

  ghost predicate Ahead(log: seq<Record>, d: nat, rec: Record) {
    exists i :: d <= i < |log| && log[i] == rec
  }

  // The records under way are all of this life, and not yet let go.
  ghost predicate Whole(out: seq<Record>, past: seq<Record>, log: seq<Record>, bag: multiset<Record>, r: Reorderer) {
    exists d: nat :: WholeAt(out, past, log, bag, r, d)
  }

  ghost predicate WholeAt(out: seq<Record>, past: seq<Record>, log: seq<Record>, bag: multiset<Record>, r: Reorderer,
                          d: nat)
  {
    |out| == |past| + d && Flow(out, past, log, bag, r) && forall rec :: rec in bag ==> Ahead(log, d, rec)
  }

  lemma WholePublish(out: seq<Record>, past: seq<Record>, log: seq<Record>, bag: multiset<Record>, r: Reorderer,
                     rec: Record)
    requires Whole(out, past, log, bag, r) && rec.seqno == |log| % SEQ_MOD && |log| - (|out| - |past|) < SEQ_MOD
    ensures Whole(out, past, log + [rec], bag + multiset{rec}, r)
  {
    var d: nat :| WholeAt(out, past, log, bag, r, d);
    FreshNumber(log, d, rec);
    assert rec !in bag;
    FlowPublish(out, past, log, bag, r, rec);
    forall x | x in bag + multiset{rec} ensures Ahead(log + [rec], d, x) {
      if x == rec {
        assert (log + [rec])[|log|] == rec;
      } else {
        assert Ahead(log, d, x);
        var i :| d <= i < |log| && log[i] == x;
        assert (log + [rec])[i] == x;
      }
    }
    assert WholeAt(out, past, log + [rec], bag + multiset{rec}, r, d);
  }

  lemma WholeDeliver(out: seq<Record>, past: seq<Record>, log: seq<Record>, bag: multiset<Record>, r: Reorderer,
                     rec: Record)
    requires Whole(out, past, log, bag, r) && rec in bag
    ensures Whole(out + Accept(r, rec).1, past, log, bag - multiset{rec}, Accept(r, rec).0)
  {
    var d: nat :| WholeAt(out, past, log, bag, r, d);
    assert Ahead(log, d, rec);
    var j :| d <= j < |log| && log[j] == rec;
    FlowDeliver(out, past, log, bag, r, j);
    var out' := out + Accept(r, rec).1;
    var d' := |out'| - |past|;
    forall x | x in bag - multiset{rec} ensures Ahead(log, d', x) {
      assert Ahead(log, d, x);
      var i :| d <= i < |log| && log[i] == x;
      assert d' <= i;
    }
    assert WholeAt(out', past, log, bag - multiset{rec}, Accept(r, rec).0, d');
  }

  // Nothing is under way exactly when all has been let go, and then nothing waits.
  lemma WholeGone(out: seq<Record>, past: seq<Record>, log: seq<Record>, bag: multiset<Record>, r: Reorderer)
    requires Whole(out, past, log, bag, r)
    ensures bag == multiset{} <==> out == past + log
    ensures bag == multiset{} ==> r.expected == |log| % SEQ_MOD && r.pending == map[]
    ensures |past| <= |out| <= |past| + |log| && past <= out && out <= past + log
    ensures |out| == |past| + |log| ==> bag == multiset{}
  {
    var d: nat :| WholeAt(out, past, log, bag, r, d);
    if d == |log| {
      assert log[..d] == log;
      assert bag == multiset{};
      NothingHeld(r, log, d, Held(log, d, bag));
    }
  }

  // A life of which everything is still under way.
  lemma WholeStart(past: seq<Record>, log: seq<Record>, r: Reorderer)
    requires Numbered(log) && |log| <= SEQ_MOD && r.expected == 0 && r.pending == map[]
    ensures Whole(past, past, log, multiset(log), r)
  {
    Distinct(log);
    assert past + log[..0] == past;
    assert Held(log, 0, multiset(log)) == {};
    forall rec | rec in multiset(log) ensures Ahead(log, 0, rec) {
      assert rec in log;
    }
    assert WholeAt(past, past, log, multiset(log), r, 0);
  }

  lemma {:induction false} Distinct(log: seq<Record>)
    requires Numbered(log) && |log| <= SEQ_MOD
    ensures forall i :: 0 <= i < |log| ==> multiset(log)[log[i]] == 1
  {
    if log != [] {
      var n := |log| - 1;
      Distinct(log[..n]);
      assert log == log[..n] + [log[n]];
      FreshNumber(log[..n], 0, log[n]);
      assert log[n] !in multiset(log[..n]);
    }
  }

  // A reorderer that starts afresh has let nothing go of a life of fewer than 2^32 records.
  lemma WholeFresh(out: seq<Record>, past: seq<Record>, log: seq<Record>, bag: multiset<Record>, r: Reorderer)
    requires Whole(out, past, log, bag, r) && r.expected == 0 && r.pending == map[] && |log| < SEQ_MOD
    ensures out == past && bag == multiset(log)
  {
    var d: nat :| WholeAt(out, past, log, bag, r, d);
    assert d == 0 && past + log[..0] == past;
    NoneHeld(log, bag, r);
    BagIsLog(log, bag);
  }

  lemma NoneHeld(log: seq<Record>, bag: multiset<Record>, r: Reorderer)
    requires Tracks(r, log, 0, Held(log, 0, bag)) && r.pending == map[]
    ensures forall i :: 0 <= i < |log| ==> log[i] in bag
  {
    assert forall i :: i in Held(log, 0, bag) ==> Waits(r, log, i);
    assert forall i :: 0 <= i < |log| ==> i in Held(log, 0, bag) || log[i] in bag;
  }

  lemma BagIsLog(log: seq<Record>, bag: multiset<Record>)
    requires Numbered(log) && |log| <= SEQ_MOD
    requires forall i :: 0 <= i < |log| ==> bag[log[i]] == 1
    requires forall rec :: rec in bag ==> Ahead(log, 0, rec)
    ensures bag == multiset(log)
  {
    Distinct(log);
    forall rec ensures bag[rec] == multiset(log)[rec] {
      if rec in bag {
        assert Ahead(log, 0, rec);
        var i :| 0 <= i < |log| && log[i] == rec;
      }
    }
  }

  lemma NoneAhead(out: seq<Record>, past: seq<Record>, bag: multiset<Record>, r: Reorderer, rec: Record)
    requires rec in bag
    ensures !Whole(out, past, [], bag, r)
  {
    forall d: nat ensures !WholeAt(out, past, [], bag, r, d) {
      assert !Ahead([], d, rec);
    }
  }

  // The reorderer of a life of which nothing has been let go expects number 0.
  lemma WholeNone(past: seq<Record>, log: seq<Record>, bag: multiset<Record>, r: Reorderer)
    requires Whole(past, past, log, bag, r)
    ensures r.expected == 0
  {
    var d: nat :| WholeAt(past, past, log, bag, r, d);
  }
}

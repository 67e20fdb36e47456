// The sequence tracker thread (src/collector/collector_seqtracker.c): numbering records per
// LIID and CIN, and the life of the pre-encoded field arrays.
module SeqTracker {
  import opened Common
  import opened Keys
  import opened Reorder

  const VERSION_MOD := 256
  const RETIRE_SECONDS := 15

  datatype CinSeq = CinSeq(cc: nat, iri: nat, cinstr: string)

  // `preencoded` names the array allocated for the intercept's static fields.
  datatype InterceptState = InterceptState(cins: map<nat, CinSeq>, version: nat, preencoded: nat)

  type Intercepts = map<string, InterceptState>

  // What goes to the encoders: the numbered record and the fields to encode it with.
  datatype EncodingJob = EncodingJob(rec: Record, preencoded: nat, version: nat)

  datatype Retired = Retired(haltedAt: int, preencoded: nat)

  function CinFor(st: InterceptState, liid: string, cin: nat): CinSeq {
    if cin in st.cins then st.cins[cin] else CinSeq(0, 0, SessionKey(liid, cin))
  }

  function Counter(c: CinSeq, cc: bool): nat {
    if cc then c.cc else c.iri
  }

  function Bump(c: CinSeq, cc: bool): CinSeq {
    if cc then c.(cc := Next(c.cc)) else c.(iri := Next(c.iri))
  }

  // The jobs numbered by the CC counter.
  predicate CountsCC(kind: JobType) {
    kind.IpmmCC? || kind.IpCC? || kind.UmtsCC? || kind.EmailCC?
  }

  // run_encoding_job as a function of the table.
  function Number(ints: Intercepts, job: Job): (Intercepts, Option<EncodingJob>) {
    if job.liid !in ints then (ints, None)
    else
      var st, cc := ints[job.liid], CountsCC(job.kind);
      var c := CinFor(st, job.liid, job.cin);
      var rec := Record(job, c.cinstr, Counter(c, cc));
      (ints[job.liid := st.(cins := st.cins[job.cin := Bump(c, cc)])],
       Some(EncodingJob(rec, st.preencoded, st.version)))
  }

  // Each kind of job by name: the number it gets, and the counter that is stepped.
  lemma CounterByKind(ints: Intercepts, job: Job)
    requires job.liid in ints
    ensures var st, (ints', r) := ints[job.liid], Number(ints, job);
      && r.Some? && job.liid in ints' && job.cin in ints'[job.liid].cins
      && var c, c' := CinFor(st, job.liid, job.cin), ints'[job.liid].cins[job.cin];
      && (job.kind in {IpCC, IpmmCC, UmtsCC, EmailCC} ==>
            r.value.rec.seqno == c.cc && c'.cc == (c.cc + 1) % 0x1_0000_0000 && c'.iri == c.iri)
      && (job.kind in {IpIRI, IpmmIRI, UmtsIRI, EmailIRI, RawSync} ==>
            r.value.rec.seqno == c.iri && c'.iri == (c.iri + 1) % 0x1_0000_0000 && c'.cc == c.cc)
  {
  }

  // purge_removedints: the younger entries, in order.
  function Young(removed: seq<Retired>, now: int): seq<Retired> {
    if removed == [] then []
    else if now - removed[0].haltedAt < RETIRE_SECONDS then [removed[0]] + Young(removed[1..], now)
    else Young(removed[1..], now)
  }

  // ---- Ownership of the pre-encoded arrays ----

  // The arrays current in some intercept, those retired, those given back, and how many were
  // ever allocated.  Arrays are named by the order of their allocation.
  datatype Arrays = Arrays(current: map<string, nat>, retired: seq<nat>, freed: set<nat>, next: nat)

  // Every array is in exactly one place: current in one intercept, retired once, or freed.
  ghost predicate Owned(m: Arrays) {
    && (forall a, b :: a in m.current && b in m.current && m.current[a] == m.current[b] ==> a == b)
    && (forall i, j :: 0 <= i < j < |m.retired| ==> m.retired[i] != m.retired[j])
    && (forall a :: a in m.current ==> m.current[a] !in m.retired && m.current[a] !in m.freed)
    && (forall p :: p in m.retired ==> p !in m.freed)
    && (forall p: nat :: p < m.next <==> Known(m, p))
  }

  ghost predicate IsCurrent(m: Arrays, p: nat) {
    exists a :: a in m.current && m.current[a] == p
  }

  ghost predicate Known(m: Arrays, p: nat) {
    IsCurrent(m, p) || p in m.retired || p in m.freed
  }

  // remove_preencoded, then preencode_etsi_fields.
  function Renew(m: Arrays, liid: string): Arrays
    requires liid in m.current
  {
    Arrays(m.current[liid := m.next], [m.current[liid]] + m.retired, m.freed, m.next + 1)
  }

  // preencode_etsi_fields for a new intercept.
  function Allot(m: Arrays, liid: string): Arrays {
    m.(current := m.current[liid := m.next], next := m.next + 1)
  }

  // remove_preencoded for an intercept that ends.
  function Retire(m: Arrays, liid: string): Arrays
    requires liid in m.current
  {
    m.(current := m.current - {liid}, retired := [m.current[liid]] + m.retired)
  }

  lemma AllotOwned(m: Arrays, liid: string)
    requires Owned(m) && liid !in m.current
    ensures Owned(Allot(m, liid))
  {
    var m' := Allot(m, liid);
    assert !Known(m, m.next);
    forall a | a in m.current ensures m.current[a] < m.next {
      assert IsCurrent(m, m.current[a]);
      assert Known(m, m.current[a]);
    }
    forall p: nat ensures p < m'.next <==> Known(m', p) {
      if IsCurrent(m, p) {
        var a :| a in m.current && m.current[a] == p;
        assert a in m'.current && m'.current[a] == p;
      }
      if p == m.next { assert m'.current[liid] == p; }
      assert p < m.next <==> Known(m, p);
    }
  }

  lemma RetireOwned(m: Arrays, liid: string)
    requires Owned(m) && liid in m.current
    ensures Owned(Retire(m, liid))
  {
    var m', q := Retire(m, liid), m.current[liid];
    forall p: nat ensures p < m'.next <==> Known(m', p) {
      assert p < m.next <==> Known(m, p);
      if IsCurrent(m, p) && p != q {
        var a :| a in m.current && m.current[a] == p;
        assert a in m'.current && m'.current[a] == p;
      }
      assert p == q ==> IsCurrent(m, p);
    }
  }

  lemma RenewOwned(m: Arrays, liid: string)
    requires Owned(m) && liid in m.current
    ensures Owned(Renew(m, liid))
  {
    RetireOwned(m, liid);
    AllotOwned(Retire(m, liid), liid);
    assert Renew(m, liid).current == Allot(Retire(m, liid), liid).current;
  }

  // ---- Purging ----

  lemma {:induction false} YoungMembers(removed: seq<Retired>, now: int)
    ensures forall r :: r in Young(removed, now) <==> r in removed && now - r.haltedAt < RETIRE_SECONDS
    ensures |Young(removed, now)| <= |removed|
  {
    if removed != [] {
      YoungMembers(removed[1..], now);
    }
  }

  lemma Prepended(r: Retired, x: seq<Retired>, y: seq<Retired>)
    ensures [r] + (x + y) == [r] + x + y
  {
  }

  // Keeping the young entries distributes over concatenation: their order is unchanged.
  lemma {:induction false} YoungConcat(a: seq<Retired>, b: seq<Retired>, now: int)
    ensures Young(a + b, now) == Young(a, now) + Young(b, now)
  {
    if a == [] {
      assert a + b == b;
    } else {
      YoungConcat(a[1..], b, now);
      assert (a + b)[1..] == a[1..] + b && (a + b)[0] == a[0];
      Prepended(a[0], Young(a[1..], now), Young(b, now));
    }
  }

  // The arrays purge_removedints gives back.
  function Aged(removed: seq<Retired>, now: int): set<nat> {
    if removed == [] then {}
    else if now - removed[0].haltedAt < RETIRE_SECONDS then Aged(removed[1..], now)
    else {removed[0].preencoded} + Aged(removed[1..], now)
  }

  lemma {:induction false} AgedMembers(removed: seq<Retired>, now: int, p: nat)
    ensures p in Aged(removed, now) <==>
      exists r :: r in removed && r.preencoded == p && now - r.haltedAt >= RETIRE_SECONDS
  {
    if removed != [] {
      AgedMembers(removed[1..], now, p);
      assert forall r :: r in removed <==> r == removed[0] || r in removed[1..];
    }
  }

  ghost function Ids(removed: seq<Retired>): seq<nat> {
    seq(|removed|, i requires 0 <= i < |removed| => removed[i].preencoded)
  }

  // Freeing one retired array.
  lemma FreeOwned(m: Arrays, i: nat)
    requires Owned(m) && i < |m.retired|
    ensures Owned(m.(retired := m.retired[..i] + m.retired[i + 1..], freed := m.freed + {m.retired[i]}))
  {
    var m' := m.(retired := m.retired[..i] + m.retired[i + 1..], freed := m.freed + {m.retired[i]});
    assert m.retired == m.retired[..i] + [m.retired[i]] + m.retired[i + 1..];
    forall p | p in m'.retired ensures p in m.retired && p != m.retired[i] {
      var k :| 0 <= k < |m'.retired| && m'.retired[k] == p;
      assert p == m.retired[if k < i then k else k + 1];
    }
    forall p: nat ensures p < m'.next <==> Known(m', p) {
      assert p < m.next <==> Known(m, p);
      assert IsCurrent(m', p) <==> IsCurrent(m, p);
    }
  }

  // New and changed intercepts, and reconfigurations, leave the counters of known LIIDs alone
  // and start new LIIDs without counters.
  ghost predicate SameCounters(ints: Intercepts, ints': Intercepts) {
    && ints.Keys <= ints'.Keys
    && forall a :: a in ints' ==> ints'[a].cins == if a in ints then ints[a].cins else map[]
  }

  // `st'` is `st` with a newer array and the next version.
  ghost predicate Renewed(st: InterceptState, st': InterceptState, since: nat) {
    st'.cins == st.cins && st'.version == (st.version + 1) % VERSION_MOD && st'.preencoded >= since
  }

  // ---- The thread's state ----

  // The newest retired array comes first.
  datatype TrackerState = TrackerState(ints: Intercepts, removed: seq<Retired>, next: nat, freed: set<nat>)

  const IDLE := TrackerState(map[], [], 0, {})

  ghost function ArraysOf(s: TrackerState): Arrays {
    Arrays(map a | a in s.ints :: s.ints[a].preencoded, Ids(s.removed), s.freed, s.next)
  }

  // The intercept's array is retired and another allotted.
  function Replace(s: TrackerState, liid: string, now: int): TrackerState
    requires liid in s.ints
  {
    var st := s.ints[liid];
    TrackerState(s.ints[liid := InterceptState(st.cins, (st.version + 1) % VERSION_MOD, s.next)],
                 [Retired(now, st.preencoded)] + s.removed, s.next + 1, s.freed)
  }

  // What the thread does, and what the clock reads then.  A reconfiguration comes with the order in
  // which it walks the intercepts.
  datatype Call =
    | Encode(at: int, job: Job)
    | Track(at: int, liid: string)
    | Change(at: int, liid: string)
    | End(at: int, liid: string)
    | Reconfigure(at: int, walk: seq<string>)
    | Purge(at: int)

  function ReplaceAll(s: TrackerState, walk: seq<string>, now: int): TrackerState {
    if walk == [] then s
    else
      var s', liid := ReplaceAll(s, walk[..|walk| - 1], now), walk[|walk| - 1];
      if liid in s'.ints then Replace(s', liid, now) else s'
  }

  function Called(s: TrackerState, c: Call): TrackerState {
    match c
    case Encode(_, job) => s.(ints := Number(s.ints, job).0)
    case Track(now, liid) =>
      if liid in s.ints then Replace(s, liid, now)
      else s.(ints := s.ints[liid := InterceptState(map[], 0, s.next)], next := s.next + 1)
    case Change(now, liid) => if liid in s.ints then Replace(s, liid, now) else s
    case End(now, liid) =>
      if liid in s.ints then
        s.(ints := s.ints - {liid}, removed := [Retired(now, s.ints[liid].preencoded)] + s.removed)
      else s
    case Reconfigure(now, walk) => ReplaceAll(s, walk, now)
    case Purge(now) => s.(removed := Young(s.removed, now), freed := s.freed + Aged(s.removed, now))
  }

  function CalledAll(cs: seq<Call>): TrackerState {
    if cs == [] then IDLE else Called(CalledAll(cs[..|cs| - 1]), cs[|cs| - 1])
  }

  lemma CalledNext(cs: seq<Call>, n: nat)
    requires n < |cs|
    ensures CalledAll(cs[..n + 1]) == Called(CalledAll(cs[..n]), cs[n])
  {
    assert cs[..n + 1][..n] == cs[..n];
  }

  // ---- Every array is owned once ----

  ghost predicate Sound(s: TrackerState) {
    Owned(ArraysOf(s))
  }

  lemma ReplaceSound(s: TrackerState, liid: string, now: int)
    requires Sound(s) && liid in s.ints
    ensures Sound(Replace(s, liid, now))
  {
    var m, m' := ArraysOf(s), ArraysOf(Replace(s, liid, now));
    RenewOwned(m, liid);
    assert m'.current == Renew(m, liid).current && m'.retired == Renew(m, liid).retired;
  }

  lemma {:induction false} ReplaceAllSound(s: TrackerState, walk: seq<string>, now: int)
    requires Sound(s)
    ensures Sound(ReplaceAll(s, walk, now))
  {
    if walk != [] {
      var n := |walk| - 1;
      ReplaceAllSound(s, walk[..n], now);
      var s' := ReplaceAll(s, walk[..n], now);
      if walk[n] in s'.ints { ReplaceSound(s', walk[n], now); }
    }
  }

  lemma EncodeSound(s: TrackerState, job: Job)
    requires Sound(s)
    ensures Sound(s.(ints := Number(s.ints, job).0))
  {
    assert ArraysOf(s.(ints := Number(s.ints, job).0)).current == ArraysOf(s).current;
  }

  lemma TrackSound(s: TrackerState, liid: string, now: int)
    requires Sound(s)
    ensures Sound(Called(s, Track(now, liid)))
  {
    if liid in s.ints {
      ReplaceSound(s, liid, now);
    } else {
      AllotOwned(ArraysOf(s), liid);
      assert ArraysOf(Called(s, Track(now, liid))).current == Allot(ArraysOf(s), liid).current;
    }
  }

  lemma EndSound(s: TrackerState, liid: string, now: int)
    requires Sound(s) && liid in s.ints
    ensures Sound(Called(s, End(now, liid)))
  {
    var m, m' := ArraysOf(s), ArraysOf(Called(s, End(now, liid)));
    RetireOwned(m, liid);
    assert m'.current == Retire(m, liid).current && m'.retired == Retire(m, liid).retired;
  }

  // One retired entry is unlinked and its array freed.
  function Unlinked(s: TrackerState, i: nat): TrackerState
    requires i < |s.removed|
  {
    s.(removed := s.removed[..i] + s.removed[i + 1..], freed := s.freed + {s.removed[i].preencoded})
  }

  lemma UnlinkSound(s: TrackerState, i: nat)
    requires Sound(s) && i < |s.removed|
    ensures Sound(Unlinked(s, i))
  {
    var m := ArraysOf(s);
    FreeOwned(m, i);
    assert ArraysOf(Unlinked(s, i)).retired == m.retired[..i] + m.retired[i + 1..];
    assert ArraysOf(Unlinked(s, i)).current == m.current;
  }

  // What a purge leaves when the entries before the i-th have been looked at.
  function PurgedFrom(s: TrackerState, i: nat, now: int): TrackerState
    requires i <= |s.removed|
  {
    s.(removed := s.removed[..i] + Young(s.removed[i..], now), freed := s.freed + Aged(s.removed[i..], now))
  }

  lemma PurgedNext(s: TrackerState, i: nat, now: int)
    requires i < |s.removed|
    ensures PurgedFrom(s, i, now)
      == if now - s.removed[i].haltedAt < RETIRE_SECONDS then PurgedFrom(s, i + 1, now)
         else PurgedFrom(Unlinked(s, i), i, now)
  {
    var rest, s' := s.removed[i..], Unlinked(s, i);
    assert rest[0] == s.removed[i] && rest[1..] == s.removed[i + 1..];
    assert s.removed[..i + 1] == s.removed[..i] + [s.removed[i]];
    assert s'.removed[..i] == s.removed[..i] && s'.removed[i..] == s.removed[i + 1..];
  }

  lemma {:induction false} PurgeSound(s: TrackerState, i: nat, now: int)
    requires Sound(s) && i <= |s.removed|
    ensures Sound(PurgedFrom(s, i, now))
    decreases |s.removed| - i
  {
    if i == |s.removed| {
      assert PurgedFrom(s, i, now) == s by {
        assert s.removed[..i] == s.removed && s.removed[i..] == [];
      }
    } else {
      PurgedNext(s, i, now);
      if now - s.removed[i].haltedAt < RETIRE_SECONDS {
        PurgeSound(s, i + 1, now);
      } else {
        UnlinkSound(s, i);
        PurgeSound(Unlinked(s, i), i, now);
      }
    }
  }

  lemma CallSound(s: TrackerState, c: Call)
    requires Sound(s)
    ensures Sound(Called(s, c))
  {
    hide Sound;
    match c
    case Encode(_, job) => EncodeSound(s, job);
    case Track(now, liid) => TrackSound(s, liid, now);
    case Change(now, liid) => if liid in s.ints { ReplaceSound(s, liid, now); }
    case End(now, liid) => if liid in s.ints { EndSound(s, liid, now); }
    case Reconfigure(now, walk) => ReplaceAllSound(s, walk, now);
    case Purge(now) =>
      PurgeSound(s, 0, now);
      assert s.removed[..0] == [] && s.removed[0..] == s.removed;
      assert PurgedFrom(s, 0, now).removed == Young(s.removed, now);
  }

  // Over every run each array is current in one intercept, retired once, or freed.
  lemma {:induction false} RunSound(cs: seq<Call>)
    ensures Sound(CalledAll(cs))
  {
    if cs != [] {
      RunSound(cs[..|cs| - 1]);
      CallSound(CalledAll(cs[..|cs| - 1]), cs[|cs| - 1]);
    }
  }

  // ---- How long an array lasts ----

  ghost predicate InUse(s: TrackerState, p: nat) {
    exists a :: a in s.ints && s.ints[a].preencoded == p
  }

  // The clock never goes back.
  ghost predicate Clocked(cs: seq<Call>) {
    forall i, j :: 0 <= i <= j < |cs| ==> cs[i].at <= cs[j].at
  }

  // If the array is retired, then not before the given time.
  ghost predicate RetiredSince(removed: seq<Retired>, p: nat, time: int) {
    forall r :: r in removed && r.preencoded == p ==> r.haltedAt >= time
  }

  lemma {:induction false} ReplaceAllSince(s: TrackerState, walk: seq<string>, now: int, p: nat, time: int)
    requires RetiredSince(s.removed, p, time) && now >= time
    ensures RetiredSince(ReplaceAll(s, walk, now).removed, p, time) && ReplaceAll(s, walk, now).freed == s.freed
  {
    if walk != [] { ReplaceAllSince(s, walk[..|walk| - 1], now, p, time); }
  }

  lemma CallSince(s: TrackerState, c: Call, p: nat, time: int)
    requires RetiredSince(s.removed, p, time) && c.at >= time
    ensures RetiredSince(Called(s, c).removed, p, time)
    ensures p in Called(s, c).freed ==> p in s.freed || c.at >= time + RETIRE_SECONDS
  {
    match c
    case Reconfigure(now, walk) => ReplaceAllSince(s, walk, now, p, time);
    case Purge(now) =>
      YoungMembers(s.removed, now);
      AgedMembers(s.removed, now, p);
    case _ =>
  }

  // An array is not freed until 15 seconds after it was last in use.
  lemma {:induction false} KeptInUse(cs: seq<Call>, i: nat, j: nat, p: nat)
    requires Clocked(cs) && i < j <= |cs| && InUse(CalledAll(cs[..i]), p)
    ensures RetiredSince(CalledAll(cs[..j]).removed, p, cs[i].at)
    ensures p in CalledAll(cs[..j]).freed ==> cs[j - 1].at >= cs[i].at + RETIRE_SECONDS
  {
    CalledNext(cs, j - 1);
    if j == i + 1 {
      RunSound(cs[..i]);
      UsedOnly(CalledAll(cs[..i]), p);
    } else {
      KeptInUse(cs, i, j - 1, p);
    }
    CallSince(CalledAll(cs[..j - 1]), cs[j - 1], p, cs[i].at);
  }

  lemma UsedOnly(s: TrackerState, p: nat)
    requires Sound(s) && InUse(s, p)
    ensures p !in s.freed && p < s.next && forall r :: r in s.removed ==> r.preencoded != p
  {
    var m := ArraysOf(s);
    var a :| a in s.ints && s.ints[a].preencoded == p;
    assert m.current[a] == p;
    assert IsCurrent(m, p) && Known(m, p);
    forall r | r in s.removed ensures r.preencoded != p {
      var i :| 0 <= i < |s.removed| && s.removed[i] == r;
      assert m.retired[i] == r.preencoded;
    }
  }

  // The array is freed, or was retired by the given time.
  ghost predicate RetiredBy(s: TrackerState, p: nat, time: int) {
    p in s.freed || exists r :: r in s.removed && r.preencoded == p && r.haltedAt <= time
  }

  ghost predicate Dated(s: TrackerState, time: int) {
    forall r :: r in s.removed ==> r.haltedAt <= time
  }

  // Nothing leaves the list of retired arrays but by being freed.
  lemma StillBy(s: TrackerState, s': TrackerState, p: nat, time: int)
    requires RetiredBy(s, p, time) && s.freed <= s'.freed
    requires forall r :: r in s.removed ==> r in s'.removed || r.preencoded in s'.freed
    ensures RetiredBy(s', p, time)
  {
    if p !in s.freed {
      var r :| r in s.removed && r.preencoded == p && r.haltedAt <= time;
      assert r in s'.removed || r.preencoded in s'.freed;
    }
  }

  lemma {:induction false} ReplaceAllBy(s: TrackerState, walk: seq<string>, now: int)
    ensures ReplaceAll(s, walk, now).freed == s.freed
    ensures forall r :: r in s.removed ==> r in ReplaceAll(s, walk, now).removed
    ensures Dated(s, now) ==> Dated(ReplaceAll(s, walk, now), now)
  {
    if walk != [] { ReplaceAllBy(s, walk[..|walk| - 1], now); }
  }

  lemma CallBy(s: TrackerState, c: Call)
    ensures s.freed <= Called(s, c).freed
    ensures forall r :: r in s.removed ==> r in Called(s, c).removed || r.preencoded in Called(s, c).freed
    ensures Dated(s, c.at) ==> Dated(Called(s, c), c.at)
  {
    match c
    case Reconfigure(now, walk) => ReplaceAllBy(s, walk, now);
    case Purge(now) =>
      YoungMembers(s.removed, now);
      forall r | r in s.removed && now - r.haltedAt >= RETIRE_SECONDS ensures r.preencoded in Aged(s.removed, now) {
        AgedMembers(s.removed, now, r.preencoded);
      }
    case _ =>
  }

  lemma {:induction false} RunDated(cs: seq<Call>, n: nat)
    requires Clocked(cs) && 0 < n <= |cs|
    ensures Dated(CalledAll(cs[..n]), cs[n - 1].at)
  {
    CalledNext(cs, n - 1);
    if n > 1 {
      RunDated(cs, n - 1);
    } else {
      assert CalledAll(cs[..0]) == IDLE;
    }
    CallBy(CalledAll(cs[..n - 1]), cs[n - 1]);
  }

  lemma UsedNot(s: TrackerState, p: nat, time: int)
    requires Sound(s) && p < s.next && !InUse(s, p) && Dated(s, time)
    ensures RetiredBy(s, p, time)
  {
    var m := ArraysOf(s);
    assert Known(m, p);
    if p in m.retired {
      var i :| 0 <= i < |m.retired| && m.retired[i] == p;
      assert s.removed[i] in s.removed && s.removed[i].preencoded == p;
    }
  }

  lemma {:induction false} StaysBy(cs: seq<Call>, i: nat, j: nat, p: nat, time: int)
    requires i <= j <= |cs| && RetiredBy(CalledAll(cs[..i]), p, time)
    ensures RetiredBy(CalledAll(cs[..j]), p, time)
  {
    if i < j {
      StaysBy(cs, i, j - 1, p, time);
      CalledNext(cs, j - 1);
      CallBy(CalledAll(cs[..j - 1]), cs[j - 1]);
      StillBy(CalledAll(cs[..j - 1]), CalledAll(cs[..j]), p, time);
    }
  }

  // One no longer in use is freed by the first purge 15 seconds later.
  lemma FreedInTime(cs: seq<Call>, i: nat, j: nat, p: nat)
    requires Clocked(cs) && 0 < i <= j < |cs| && cs[j].Purge? && cs[j].at >= cs[i - 1].at + RETIRE_SECONDS
    requires p < CalledAll(cs[..i]).next && !InUse(CalledAll(cs[..i]), p)
    ensures p in CalledAll(cs[..j + 1]).freed
  {
    RunSound(cs[..i]);
    RunDated(cs, i);
    UsedNot(CalledAll(cs[..i]), p, cs[i - 1].at);
    StaysBy(cs, i, j, p, cs[i - 1].at);
    CalledNext(cs, j);
    AgedMembers(CalledAll(cs[..j]).removed, cs[j].at, p);
  }

  // ---- What a job carries ----

  // The job that goes to the encoders for the i-th call.
  function Sent(cs: seq<Call>, i: nat): Option<EncodingJob>
    requires i < |cs| && cs[i].Encode?
  {
    Number(CalledAll(cs[..i]).ints, cs[i].job).1
  }

  // A job is sent exactly for an intercept the thread knows; it carries that intercept's array and
  // version, and the array is not freed until 15 seconds later.
  lemma JobKept(cs: seq<Call>, i: nat, j: nat)
    requires Clocked(cs) && i < j <= |cs| && cs[i].Encode?
    ensures var st := CalledAll(cs[..i]);
      && (Sent(cs, i).Some? <==> cs[i].job.liid in st.ints)
      && (Sent(cs, i).Some? ==>
            && var (e, own) := (Sent(cs, i).value, st.ints[cs[i].job.liid]);
            && e.rec.job == cs[i].job && e.preencoded == own.preencoded && e.version == own.version
            && (e.preencoded in CalledAll(cs[..j]).freed ==> cs[j - 1].at >= cs[i].at + RETIRE_SECONDS))
  {
    var st, l := CalledAll(cs[..i]), cs[i].job.liid;
    if l in st.ints {
      assert InUse(st, st.ints[l].preencoded);
      KeptInUse(cs, i, j, st.ints[l].preencoded);
    }
  }

  // The call ends the intercept's array, or would.
  predicate Touches(c: Call, liid: string) {
    match c
    case Encode(_, _) => false
    case Track(_, l) => l == liid
    case Change(_, l) => l == liid
    case End(_, l) => l == liid
    case Reconfigure(_, walk) => liid in walk
    case Purge(_) => false
  }

  lemma {:induction false} ReplaceAllOther(s: TrackerState, walk: seq<string>, now: int, liid: string)
    requires liid !in walk
    ensures ReplaceAll(s, walk, now).ints.Keys == s.ints.Keys
    ensures liid in s.ints ==> ReplaceAll(s, walk, now).ints[liid] == s.ints[liid]
  {
    if walk != [] { ReplaceAllOther(s, walk[..|walk| - 1], now, liid); }
  }

  lemma Untouched(s: TrackerState, c: Call, liid: string)
    requires !Touches(c, liid) && liid in s.ints
    ensures liid in Called(s, c).ints
    ensures Called(s, c).ints[liid].preencoded == s.ints[liid].preencoded
    ensures Called(s, c).ints[liid].version == s.ints[liid].version
  {
    if c.Reconfigure? { ReplaceAllOther(s, c.walk, c.at, liid); }
  }

  // An array that has been handed out and is not in use.
  ghost predicate Spent(s: TrackerState, p: nat) {
    p < s.next && !InUse(s, p)
  }

  lemma SpentReplace(s: TrackerState, liid: string, now: int, p: nat)
    requires liid in s.ints && p < s.next
    ensures Spent(s, p) ==> Spent(Replace(s, liid, now), p)
    ensures Sound(s) && s.ints[liid].preencoded == p ==> Spent(Replace(s, liid, now), p)
  {
    if Sound(s) && s.ints[liid].preencoded == p { UsedOnce(s, liid, p); }
  }

  lemma UsedOnce(s: TrackerState, liid: string, p: nat)
    requires Sound(s) && liid in s.ints && s.ints[liid].preencoded == p
    ensures forall a :: a in s.ints && s.ints[a].preencoded == p ==> a == liid
  {
    var m := ArraysOf(s);
    forall a | a in s.ints && s.ints[a].preencoded == p ensures a == liid {
      assert m.current[a] == m.current[liid];
    }
  }

  lemma {:induction false} SpentReplaceAll(s: TrackerState, walk: seq<string>, now: int, p: nat)
    requires Spent(s, p)
    ensures Spent(ReplaceAll(s, walk, now), p)
  {
    if walk != [] {
      var s', l := ReplaceAll(s, walk[..|walk| - 1], now), walk[|walk| - 1];
      SpentReplaceAll(s, walk[..|walk| - 1], now, p);
      if l in s'.ints { SpentReplace(s', l, now, p); }
    }
  }

  // It never comes back, ...
  lemma SpentCall(s: TrackerState, c: Call, p: nat)
    requires Spent(s, p)
    ensures Spent(Called(s, c), p)
  {
    match c
    case Encode(_, job) => assert forall a :: a in Called(s, c).ints ==> a in s.ints;
    case Track(now, l) => if l in s.ints { SpentReplace(s, l, now, p); }
    case Change(now, l) => if l in s.ints { SpentReplace(s, l, now, p); }
    case End(_, _) => assert forall a :: a in Called(s, c).ints ==> a in s.ints;
    case Reconfigure(now, walk) => SpentReplaceAll(s, walk, now, p);
    case Purge(_) =>
  }

  // ... and a call that touches the intercept spends its array.
  lemma {:induction false} ReplaceAllSpends(s: TrackerState, walk: seq<string>, now: int, liid: string)
    requires Sound(s) && liid in s.ints && liid in walk
    ensures Spent(ReplaceAll(s, walk, now), s.ints[liid].preencoded)
  {
    var n, p := |walk| - 1, s.ints[liid].preencoded;
    assert InUse(s, p);
    UsedOnly(s, p);
    var s', l := ReplaceAll(s, walk[..n], now), walk[n];
    ReplaceAllSound(s, walk[..n], now);
    if liid in walk[..n] {
      ReplaceAllSpends(s, walk[..n], now, liid);
      if l in s'.ints { SpentReplace(s', l, now, p); }
    } else {
      assert walk == walk[..n] + [l];
      ReplaceAllOther(s, walk[..n], now, liid);
      ReplaceAllNext(s, walk[..n], now);
      SpentReplace(s', liid, now, p);
    }
  }

  lemma {:induction false} ReplaceAllNext(s: TrackerState, walk: seq<string>, now: int)
    ensures ReplaceAll(s, walk, now).next >= s.next
  {
    if walk != [] { ReplaceAllNext(s, walk[..|walk| - 1], now); }
  }

  lemma TouchSpends(s: TrackerState, c: Call, liid: string)
    requires Sound(s) && liid in s.ints && Touches(c, liid)
    ensures Spent(Called(s, c), s.ints[liid].preencoded)
  {
    var p := s.ints[liid].preencoded;
    assert InUse(s, p);
    UsedOnly(s, p);
    match c
    case Track(now, _) => SpentReplace(s, liid, now, p);
    case Change(now, _) => SpentReplace(s, liid, now, p);
    case End(_, _) => UsedOnce(s, liid, p);
    case Reconfigure(now, walk) => ReplaceAllSpends(s, walk, now, liid);
  }

  ghost predicate TouchedBetween(cs: seq<Call>, i: nat, j: nat, liid: string)
    requires i <= j <= |cs|
  {
    exists k :: i <= k < j && Touches(cs[k], liid)
  }

  lemma {:induction false} ArrayLasts(cs: seq<Call>, i: nat, j: nat, liid: string)
    requires i <= j <= |cs| && liid in CalledAll(cs[..i]).ints
    ensures var st, s, s' := CalledAll(cs[..i]).ints[liid], CalledAll(cs[..i]), CalledAll(cs[..j]);
      if TouchedBetween(cs, i, j, liid) then Spent(s', st.preencoded)
      else liid in s'.ints && s'.ints[liid].preencoded == st.preencoded && s'.ints[liid].version == st.version
  {
    hide Called, Spent, Touches;
    if i < j {
      var s := CalledAll(cs[..j - 1]);
      ArrayLasts(cs, i, j - 1, liid);
      CalledNext(cs, j - 1);
      RunSound(cs[..j - 1]);
      if TouchedBetween(cs, i, j - 1, liid) {
        assert TouchedBetween(cs, i, j, liid);
        SpentCall(s, cs[j - 1], CalledAll(cs[..i]).ints[liid].preencoded);
      } else if Touches(cs[j - 1], liid) {
        assert TouchedBetween(cs, i, j, liid);
        TouchSpends(s, cs[j - 1], liid);
      } else {
        Untouched(s, cs[j - 1], liid);
      }
    }
  }

  // Two jobs carry the same array if and only if they are of one intercept and nothing has
  // touched it in between; and then they carry the same version.
  lemma SameArray(cs: seq<Call>, i: nat, j: nat)
    requires i <= j < |cs| && cs[i].Encode? && cs[j].Encode? && Sent(cs, i).Some? && Sent(cs, j).Some?
    ensures var e, e' := Sent(cs, i).value, Sent(cs, j).value;
      && (e.preencoded == e'.preencoded
          <==> cs[i].job.liid == cs[j].job.liid && !TouchedBetween(cs, i, j, cs[i].job.liid))
      && (e.preencoded == e'.preencoded ==> e.version == e'.version)
  {
    var l, l' := cs[i].job.liid, cs[j].job.liid;
    var s' := CalledAll(cs[..j]);
    ArrayLasts(cs, i, j, l);
    RunSound(cs[..j]);
    assert InUse(s', s'.ints[l'].preencoded);
    if !TouchedBetween(cs, i, j, l) { UsedOnce(s', l, s'.ints[l].preencoded); }
  }

  // ---- Versions ----

  // The intercept has been announced, and not withdrawn since.
  predicate Knows(cs: seq<Call>, liid: string) {
    if cs == [] then false
    else
      var n := |cs| - 1;
      match cs[n]
      case Track(_, l) => l == liid || Knows(cs[..n], liid)
      case End(_, l) => l != liid && Knows(cs[..n], liid)
      case _ => Knows(cs[..n], liid)
  }

  // How often a call changes it.
  ghost function Steps(c: Call, liid: string): nat {
    match c
    case Track(_, l) => if l == liid then 1 else 0
    case Change(_, l) => if l == liid then 1 else 0
    case Reconfigure(_, walk) => multiset(walk)[liid]
    case _ => 0
  }

  // How often it has been changed since it was announced.
  ghost function Changes(cs: seq<Call>, liid: string): nat {
    if cs == [] then 0
    else
      var n := |cs| - 1;
      if Knows(cs[..n], liid) then Changes(cs[..n], liid) + Steps(cs[n], liid) else 0
  }

  lemma Modular(v: nat, k: nat)
    ensures ((v + k) % VERSION_MOD + 1) % VERSION_MOD == (v + (k + 1)) % VERSION_MOD
  {
  }

  lemma {:induction false} ReplaceAllVersion(s: TrackerState, walk: seq<string>, now: int, liid: string)
    ensures ReplaceAll(s, walk, now).ints.Keys == s.ints.Keys
    ensures liid in s.ints && s.ints[liid].version < VERSION_MOD ==>
      ReplaceAll(s, walk, now).ints[liid].version == (s.ints[liid].version + multiset(walk)[liid]) % VERSION_MOD
  {
    if walk != [] {
      var n := |walk| - 1;
      ReplaceAllVersion(s, walk[..n], now, liid);
      assert walk == walk[..n] + [walk[n]];
      if liid in s.ints { Modular(s.ints[liid].version, multiset(walk[..n])[liid]); }
    }
  }

  lemma CallKnows(s: TrackerState, c: Call, liid: string)
    ensures liid in Called(s, c).ints <==> (c.Track? && c.liid == liid) || (liid in s.ints && c != End(c.at, liid))
  {
    if c.Reconfigure? { ReplaceAllVersion(s, c.walk, c.at, liid); }
  }

  lemma CallVersion(s: TrackerState, c: Call, liid: string)
    requires liid in Called(s, c).ints && (liid in s.ints ==> s.ints[liid].version < VERSION_MOD)
    ensures Called(s, c).ints[liid].version
      == if liid in s.ints then (s.ints[liid].version + Steps(c, liid)) % VERSION_MOD else 0
  {
    CallKnows(s, c, liid);
    if c.Reconfigure? { ReplaceAllVersion(s, c.walk, c.at, liid); }
  }

  lemma Accumulated(n: nat, k: nat)
    ensures (n % VERSION_MOD + k) % VERSION_MOD == (n + k) % VERSION_MOD
  {
  }

  // A version counts the changes of its intercept, modulo 256.
  lemma {:induction false} VersionCounts(cs: seq<Call>, liid: string)
    ensures liid in CalledAll(cs).ints <==> Knows(cs, liid)
    ensures Knows(cs, liid) ==> CalledAll(cs).ints[liid].version == Changes(cs, liid) % VERSION_MOD
  {
    if cs != [] {
      var n := |cs| - 1;
      var s := CalledAll(cs[..n]);
      VersionCounts(cs[..n], liid);
      CallKnows(s, cs[n], liid);
      hide Called;
      if Knows(cs, liid) {
        CallVersion(s, cs[n], liid);
        Accumulated(Changes(cs[..n], liid), Steps(cs[n], liid));
      }
    }
  }

  // Each intercept walked has a newer array and the next version.
  lemma {:induction false} ReplaceAllRenewed(s: TrackerState, walk: seq<string>, now: int)
    requires forall i, j :: 0 <= i < j < |walk| ==> walk[i] != walk[j]
    ensures var s' := ReplaceAll(s, walk, now);
      && s'.ints.Keys == s.ints.Keys && s'.next >= s.next
      && (forall a :: a in s.ints && a !in walk ==> s'.ints[a] == s.ints[a])
      && (forall a :: a in s.ints && a in walk ==> Renewed(s.ints[a], s'.ints[a], s.next))
  {
    if walk != [] {
      var n := |walk| - 1;
      ReplaceAllRenewed(s, walk[..n], now);
      assert walk == walk[..n] + [walk[n]] && walk[n] !in walk[..n];
    }
  }

  // ---- The thread ----

  // The keys of a table in the order in which it is walked.
  ghost predicate Lists(walk: seq<string>, keys: set<string>) {
    (forall x :: x in walk <==> x in keys) && forall i, j :: 0 <= i < j < |walk| ==> walk[i] != walk[j]
  }

  // Reconfigurations walk all intercepts, each once.
  ghost predicate Walked(cs: seq<Call>) {
    forall i :: 0 <= i < |cs| && cs[i].Reconfigure? ==> Lists(cs[i].walk, CalledAll(cs[..i]).ints.Keys)
  }

  class Tracker {
    var intercepts: Intercepts
    // The newest entry first.
    var removed: seq<Retired>
    var nextArray: nat
    var freed: set<nat>

    ghost function View(): TrackerState
      reads this
    {
      TrackerState(intercepts, removed, nextArray, freed)
    }

    constructor ()
      ensures View() == IDLE && Sound(View())
    {
      intercepts, removed, nextArray, freed := map[], [], 0, {};
    }

    // run_encoding_job
    method RunEncodingJob(job: Job, ghost now: int) returns (r: Option<EncodingJob>)
      modifies `intercepts
      ensures View() == Called(old(View()), Encode(now, job)) && r == Number(old(intercepts), job).1
      ensures r.Some? <==> job.liid in old(intercepts)
      ensures r.Some? ==>
        && r.value.rec.job == job
        && r.value.preencoded == intercepts[job.liid].preencoded && r.value.version == intercepts[job.liid].version
    {
      if job.liid !in intercepts {
        return None;
      }
      var st := intercepts[job.liid];
      var c: CinSeq;
      if job.cin in st.cins {
        c := st.cins[job.cin];
      } else {
        c := CinSeq(0, 0, SessionKey(job.liid, job.cin));
      }
      var seqno: nat;
      if job.kind.IpmmCC? || job.kind.IpCC? || job.kind.UmtsCC? || job.kind.EmailCC? {
        seqno := c.cc;
        c := c.(cc := Next(c.cc));
      } else {
        seqno := c.iri;
        c := c.(iri := Next(c.iri));
      }
      intercepts := intercepts[job.liid := st.(cins := st.cins[job.cin := c])];
      r := Some(EncodingJob(Record(job, c.cinstr, seqno), st.preencoded, st.version));
    }

    // remove_preencoded
    method RetireFields(liid: string, now: int)
      requires liid in intercepts
      modifies `removed
      ensures removed == [Retired(now, intercepts[liid].preencoded)] + old(removed)
    {
      removed := [Retired(now, intercepts[liid].preencoded)] + removed;
    }

    // remove_preencoded, then preencode_etsi_fields, with the version stepped.
    method RenewFields(liid: string, now: int)
      requires liid in intercepts
      modifies this
      ensures View() == Replace(old(View()), liid, now)
    {
      RetireFields(liid, now);
      var st := intercepts[liid];
      intercepts := intercepts[liid := InterceptState(st.cins, (st.version + 1) % VERSION_MOD, nextArray)];
      nextArray := nextArray + 1;
    }

    // track_new_intercept: a known LIID keeps its counters.
    method TrackNewIntercept(liid: string, now: int)
      requires Sound(View())
      modifies this
      ensures Sound(View()) && View() == Called(old(View()), Track(now, liid))
      ensures SameCounters(old(intercepts), intercepts) && intercepts.Keys == old(intercepts.Keys) + {liid}
    {
      TrackSound(View(), liid, now);
      if liid in intercepts {
        RenewFields(liid, now);
      } else {
        intercepts := intercepts[liid := InterceptState(map[], 0, nextArray)];
        nextArray := nextArray + 1;
      }
    }

    // modify_tracked_intercept
    method ModifyTrackedIntercept(liid: string, now: int) returns (ok: bool)
      requires Sound(View())
      modifies this
      ensures Sound(View()) && View() == Called(old(View()), Change(now, liid))
      ensures ok <==> liid in old(intercepts)
      ensures SameCounters(old(intercepts), intercepts) && intercepts.Keys == old(intercepts.Keys)
    {
      ok := liid in intercepts;
      if ok {
        ReplaceSound(View(), liid, now);
        RenewFields(liid, now);
      }
    }

    // remove_tracked_intercept
    method RemoveTrackedIntercept(liid: string, now: int) returns (ok: bool)
      requires Sound(View())
      modifies this
      ensures Sound(View()) && View() == Called(old(View()), End(now, liid))
      ensures ok <==> liid in old(intercepts)
      ensures intercepts == old(intercepts) - {liid}
    {
      ok := liid in intercepts;
      if ok {
        EndSound(View(), liid, now);
        RetireFields(liid, now);
        intercepts := intercepts - {liid};
      }
    }

    // reconfigure_intercepts: every intercept gets a new array; no counter changes.
    method ReconfigureIntercepts(walk: seq<string>, now: int)
      requires Sound(View()) && Lists(walk, intercepts.Keys)
      modifies this
      ensures Sound(View()) && View() == Called(old(View()), Reconfigure(now, walk))
      ensures SameCounters(old(intercepts), intercepts) && intercepts.Keys == old(intercepts.Keys)
      ensures forall a :: a in intercepts ==> Renewed(old(intercepts)[a], intercepts[a], old(nextArray))
    {
      hide Sound, Replace;
      ghost var s := View();
      assert walk[..0] == [] && walk[..|walk|] == walk;
      for n := 0 to |walk|
        invariant View() == ReplaceAll(s, walk[..n], now) && intercepts.Keys == s.ints.Keys
      {
        assert walk[..n + 1][..n] == walk[..n] && walk[n] in walk;
        RenewFields(walk[n], now);
        ReplaceAllVersion(s, walk[..n + 1], now, walk[n]);
      }
      ReplaceAllSound(s, walk, now);
      ReplaceAllRenewed(s, walk, now);
    }

    // One retired entry is unlinked and its array freed.
    method Unlink(i: nat)
      requires i < |removed|
      modifies `removed, `freed
      ensures View() == Unlinked(old(View()), i)
    {
      freed := freed + {removed[i].preencoded};
      removed := removed[..i] + removed[i + 1..];
    }

    // purge_removedints: entries halted less than 15 seconds ago stay, in order; the arrays of
    // the others, and only those, are freed.
    method PurgeRemoved(now: int)
      requires Sound(View())
      modifies `removed, `freed
      ensures Sound(View()) && View() == Called(old(View()), Purge(now))
    {
      hide Sound;
      CallSound(View(), Purge(now));
      ghost var goal := Called(View(), Purge(now));
      assert removed[..0] == [] && removed[0..] == removed;
      var i := 0;
      while i < |removed|
        invariant 0 <= i <= |removed| && PurgedFrom(View(), i, now) == goal
        decreases |removed| - i
      {
        PurgedNext(View(), i, now);
        if now - removed[i].haltedAt < RETIRE_SECONDS {
          i := i + 1;
        } else {
          Unlink(i);
        }
      }
      assert removed[..i] + Young(removed[i..], now) == removed && freed + Aged(removed[i..], now) == freed;
      assert View() == goal;
    }

    method Perform(c: Call)
      requires Sound(View()) && (c.Reconfigure? ==> Lists(c.walk, intercepts.Keys))
      modifies this
      ensures Sound(View()) && View() == Called(old(View()), c)
    {
      hide Sound, Called;
      CallSound(View(), c);
      match c
      case Encode(now, job) => var r := RunEncodingJob(job, now);
      case Track(now, liid) => TrackNewIntercept(liid, now);
      case Change(now, liid) => var ok := ModifyTrackedIntercept(liid, now);
      case End(now, liid) => var ok := RemoveTrackedIntercept(liid, now);
      case Reconfigure(now, walk) => ReconfigureIntercepts(walk, now);
      case Purge(now) => PurgeRemoved(now);
    }

    // Any run of the thread.
    method Run(cs: seq<Call>)
      requires View() == IDLE && Walked(cs)
      modifies this
      ensures View() == CalledAll(cs)
    {
      hide Sound, Called;
      RunSound([]);
      assert cs[..0] == [] && cs[..|cs|] == cs;
      for n := 0 to |cs|
        invariant Sound(View()) && View() == CalledAll(cs[..n])
      {
        CalledNext(cs, n);
        Perform(cs[n]);
      }
    }
  }
}

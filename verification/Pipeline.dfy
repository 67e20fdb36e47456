// From the tracker through the encoders to the forwarder.  The encoders work in parallel and
// may hand records on in any order, so what lies between is a bag.
module Pipeline {
  import opened Common
  import opened Keys
  import opened Reorder
  import opened SeqTracker
  import opened Forwarder
  import opened Flows
  import opened Lives

  datatype System = System(ints: Intercepts, bag: multiset<Record>, fwd: State)

  // The records of a stream among those appended to a destination.
  function Project(recs: seq<Record>, s: Stream): seq<Record> {
    if recs == [] then []
    else
      var last := recs[|recs| - 1];
      Project(recs[..|recs| - 1], s) + (if StreamOf(last) == s then [last] else [])
  }

  function Delivered(sys: System, destOf: Stream -> nat, s: Stream): seq<Record> {
    Project(Appended(sys.fwd.dests, destOf(s)), s)
  }

  function Look(f: State, s: Stream): Reorderer {
    var t := TableFor(f, s.cc);
    if KeyOf(s) in t then t[KeyOf(s)] else Fresh(s.liid)
  }

  // OPENLI_EXPORT_INTERCEPT_OVER at the forwarder
  function Forget(f: State, liid: string): State {
    State(Without(f.cc, Some(liid)), Without(f.iri, Some(liid)), f.dests)
  }

  ghost function Perform(sys: System, step: Step): System {
    match step
    case Retable(ints) => sys.(ints := ints)
    case Publish(job) =>
      var (ints', r) := Number(sys.ints, job);
      if r.None? then sys else sys.(ints := ints', bag := sys.bag + multiset{r.value.rec})
    case Deliver(rec) => sys.(bag := sys.bag - multiset{rec}, fwd := Handle(sys.fwd, rec))
    case TrackerOver(liid) => sys.(ints := sys.ints - {liid})
    case ForwarderOver(liid) => sys.(fwd := Forget(sys.fwd, liid))
    case WithdrawIp(liid) => sys.(ints := sys.ints - {liid})
  }

  function Start(): System {
    System(map[], multiset{}, State(map[], map[], map[]))
  }

  ghost function After(steps: seq<Step>): System {
    if steps == [] then Start() else Perform(After(steps[..|steps| - 1]), steps[|steps| - 1])
  }

  // The history of a stream in a run.
  function Seen(s: Stream, steps: seq<Step>): Sight {
    MoveAll(s, First(s), steps)
  }

  // Tables keep their counters, streams have one destination and fewer than 2^32 records of a life
  // under way, and only what is under way is delivered.  Withdrawals may come at any time.
  ghost predicate Enabled(destOf: Stream -> nat, steps: seq<Step>, step: Step) {
    match step
    case Retable(ints) => SameCounters(After(steps).ints, ints)
    case Publish(job) => job.destid == destOf(JobStream(job)) && May(JobStream(job), Seen(JobStream(job), steps), step)
    case Deliver(rec) => rec in After(steps).bag
    case _ => true
  }

  ghost predicate Legal(destOf: Stream -> nat, steps: seq<Step>) {
    steps != [] ==>
      var n := |steps| - 1;
      Legal(destOf, steps[..n]) && Enabled(destOf, steps[..n], steps[n])
  }

  // ---- Each stream by itself ----

  ghost predicate Own(destOf: Stream -> nat, s: Stream, rec: Record) {
    StreamOf(rec) == s && rec.cinstr == KeyOf(s) && rec.job.destid == destOf(s)
  }

  ghost predicate ShowsTracker(ints: Intercepts, s: Stream, tracked: bool, lives: seq<seq<Record>>) {
    && lives != [] && (tracked <==> s.liid in ints)
    && if s.liid in ints then
         var c := CinFor(ints[s.liid], s.liid, s.cin);
         c.cinstr == KeyOf(s) && Counter(c, s.cc) == |Last(lives)| % SEQ_MOD
       else Last(lives) == []
  }

  ghost predicate ShowsForwarder(f: State, destOf: Stream -> nat, s: Stream, r: Reorderer, out: seq<Record>) {
    && Look(f, s) == r && r.liid == s.liid && Project(Appended(f.dests, destOf(s)), s) == out
    && forall k :: k in r.pending ==> Own(destOf, s, r.pending[k])
  }

  ghost predicate ShowsBag(all: multiset<Record>, destOf: Stream -> nat, s: Stream, bag: multiset<Record>) {
    && (forall rec :: bag[rec] == if StreamOf(rec) == s then all[rec] else 0)
    && forall rec :: rec in bag ==> Own(destOf, s, rec)
  }

  // The system looks to the stream as its own history says.
  ghost predicate Shows(sys: System, destOf: Stream -> nat, s: Stream, v: Sight) {
    && ShowsTracker(sys.ints, s, v.tracked, v.lives)
    && ShowsForwarder(sys.fwd, destOf, s, v.r, v.out)
    && ShowsBag(sys.bag, destOf, s, v.bag)
  }

  // ---- Projection ----

  lemma {:induction false} ProjectConcat(a: seq<Record>, b: seq<Record>, s: Stream)
    ensures Project(a + b, s) == Project(a, s) + Project(b, s)
  {
    if b == [] {
      assert a + b == a;
    } else {
      ProjectConcat(a, b[..|b| - 1], s);
      assert (a + b)[..|a + b| - 1] == a + b[..|b| - 1];
    }
  }

  lemma {:induction false} ProjectUniform(recs: seq<Record>, s: Stream, t: Stream)
    requires forall rec :: rec in recs ==> StreamOf(rec) == t
    ensures Project(recs, s) == if s == t then recs else []
  {
    if recs != [] {
      ProjectUniform(recs[..|recs| - 1], s, t);
    }
  }

  // ---- The tracker ----

  // Numbering a job steps the counter of its own stream only.
  lemma NumberCounters(ints: Intercepts, job: Job, s: Stream)
    requires job.liid in ints && s.liid in ints
    ensures var ints' := Number(ints, job).0;
      && s.liid in ints'
      && (var c, c' := CinFor(ints[s.liid], s.liid, s.cin), CinFor(ints'[s.liid], s.liid, s.cin);
          && c'.cinstr == c.cinstr
          && Counter(c', s.cc) == if s == Stream(job.liid, job.cin, IsCC(job.kind)) then Next(Counter(c, s.cc))
                                  else Counter(c, s.cc))
  {
  }

  lemma ShowsStart(destOf: Stream -> nat, s: Stream)
    ensures Shows(Start(), destOf, s, First(s))
  {
  }

  lemma TrackerNumbers(ints: Intercepts, s: Stream, v: Sight, job: Job)
    requires ShowsTracker(ints, s, v.tracked, v.lives)
    ensures var v' := Move(s, v, Publish(job)); ShowsTracker(Number(ints, job).0, s, v'.tracked, v'.lives)
  {
    if job.liid in ints && s.liid in ints {
      NumberCounters(ints, job, s);
      NextResidue(|Last(v.lives)|);
    }
  }

  // The record numbered is the next of its stream.
  lemma NumberedRecord(ints: Intercepts, v: Sight, job: Job)
    requires ShowsTracker(ints, JobStream(job), v.tracked, v.lives)
    ensures v.tracked <==> Number(ints, job).1.Some?
    ensures v.tracked ==> Number(ints, job).1.value.rec == NextRecord(JobStream(job), v, job)
  {
  }

  lemma BagGrows(all: multiset<Record>, destOf: Stream -> nat, s: Stream, bag: multiset<Record>, rec: Record)
    requires ShowsBag(all, destOf, s, bag) && (StreamOf(rec) == s ==> Own(destOf, s, rec))
    ensures ShowsBag(all + multiset{rec}, destOf, s, if StreamOf(rec) == s then bag + multiset{rec} else bag)
  {
  }

  lemma BagShrinks(all: multiset<Record>, destOf: Stream -> nat, s: Stream, bag: multiset<Record>, rec: Record)
    requires ShowsBag(all, destOf, s, bag)
    ensures ShowsBag(all - multiset{rec}, destOf, s, if StreamOf(rec) == s then bag - multiset{rec} else bag)
  {
  }

  lemma ShowPublish(sys: System, destOf: Stream -> nat, s: Stream, v: Sight, t: Sight, job: Job)
    requires Shows(sys, destOf, s, v) && Shows(sys, destOf, JobStream(job), t) && job.destid == destOf(JobStream(job))
    requires JobStream(job) == s ==> t == v
    ensures Shows(Perform(sys, Publish(job)), destOf, s, Move(s, v, Publish(job)))
  {
    hide ShowsBag, ShowsTracker, ShowsForwarder;
    NumberedRecord(sys.ints, t, job);
    TrackerNumbers(sys.ints, s, v, job);
    if t.tracked {
      BagGrows(sys.bag, destOf, s, v.bag, NextRecord(JobStream(job), t, job));
    } else {
      NotNumbered(sys.ints, t, job);
    }
  }

  lemma NotNumbered(ints: Intercepts, t: Sight, job: Job)
    requires ShowsTracker(ints, JobStream(job), t.tracked, t.lives) && !t.tracked
    ensures Number(ints, job).0 == ints
  {
  }

  lemma ShowRetable(sys: System, destOf: Stream -> nat, s: Stream, v: Sight, ints: Intercepts)
    requires Shows(sys, destOf, s, v) && SameCounters(sys.ints, ints)
    ensures Shows(Perform(sys, Retable(ints)), destOf, s, Move(s, v, Retable(ints)))
  {
    hide ShowsBag, ShowsForwarder;
  }

  lemma ShowTrackerOver(sys: System, destOf: Stream -> nat, s: Stream, v: Sight, liid: string)
    requires Shows(sys, destOf, s, v)
    ensures Shows(Perform(sys, TrackerOver(liid)), destOf, s, Move(s, v, TrackerOver(liid)))
    ensures Shows(Perform(sys, WithdrawIp(liid)), destOf, s, Move(s, v, WithdrawIp(liid)))
  {
    hide ShowsBag, ShowsForwarder;
  }

  // ---- The forwarder ----

  lemma {:induction false} DrainOwn(destOf: Stream -> nat, s: Stream, r: Reorderer)
    requires forall k :: k in r.pending ==> Own(destOf, s, r.pending[k])
    ensures forall k :: k in Drain(r).0.pending ==> Own(destOf, s, Drain(r).0.pending[k])
    ensures Drain(r).0.liid == r.liid && forall rec :: rec in Drain(r).1 ==> Own(destOf, s, rec)
    decreases |r.pending|
  {
    if r.expected in r.pending {
      var stored := r.pending[r.expected];
      assert Own(destOf, s, stored);
      DrainOwn(destOf, s, r.(expected := Next(stored.seqno), pending := r.pending - {r.expected}));
    }
  }

  lemma AcceptOwn(destOf: Stream -> nat, s: Stream, r: Reorderer, rec: Record)
    requires Own(destOf, s, rec) && forall k :: k in r.pending ==> Own(destOf, s, r.pending[k])
    ensures forall k :: k in Accept(r, rec).0.pending ==> Own(destOf, s, Accept(r, rec).0.pending[k])
    ensures Accept(r, rec).0.liid == r.liid && forall x :: x in Accept(r, rec).1 ==> Own(destOf, s, x)
  {
    if rec.seqno == r.expected { DrainOwn(destOf, s, r.(expected := Next(rec.seqno))); }
  }

  lemma KeysDiffer(s: Stream, t: Stream)
    requires s != t && s.cc == t.cc
    ensures KeyOf(s) != KeyOf(t)
  {
    if KeyOf(s) == KeyOf(t) { SessionKeyInjective(s.liid, s.cin, t.liid, t.cin); }
  }

  lemma HandleOwn(f: State, destOf: Stream -> nat, s: Stream, r: Reorderer, out: seq<Record>, rec: Record)
    requires ShowsForwarder(f, destOf, s, r, out) && Own(destOf, s, rec)
    ensures ShowsForwarder(Handle(f, rec), destOf, s, Accept(r, rec).0, out + Accept(r, rec).1)
  {
    AcceptOwn(destOf, s, r, rec);
    var more := Accept(r, rec).1;
    ProjectConcat(Appended(f.dests, destOf(s)), more, s);
    ProjectUniform(more, s, s);
  }

  lemma LookOther(f: State, rec: Record, s: Stream)
    requires rec.cinstr == KeyOf(StreamOf(rec)) && s != StreamOf(rec)
    ensures Look(Handle(f, rec), s) == Look(f, s)
  {
    if s.cc == StreamOf(rec).cc { KeysDiffer(s, StreamOf(rec)); }
  }

  lemma AppendOther(dests: map<nat, seq<Record>>, d: nat, more: seq<Record>, s: Stream, t: Stream, e: nat)
    requires s != t && forall r :: r in more ==> StreamOf(r) == t
    ensures Project(Appended(dests[d := Appended(dests, d) + more], e), s) == Project(Appended(dests, e), s)
  {
    ProjectConcat(Appended(dests, d), more, s);
    ProjectUniform(more, s, t);
  }

  lemma HandleOther(f: State, destOf: Stream -> nat, s: Stream, r: Reorderer, out: seq<Record>,
                    t: Stream, q: Reorderer, past: seq<Record>, rec: Record)
    requires ShowsForwarder(f, destOf, s, r, out) && ShowsForwarder(f, destOf, t, q, past)
    requires Own(destOf, t, rec) && s != t
    ensures ShowsForwarder(Handle(f, rec), destOf, s, r, out)
  {
    LookOther(f, rec, s);
    AcceptOwn(destOf, t, q, rec);
    AppendOther(f.dests, rec.job.destid, Accept(q, rec).1, s, t, destOf(s));
  }

  lemma ShowDeliver(sys: System, destOf: Stream -> nat, s: Stream, v: Sight, t: Sight, rec: Record)
    requires Shows(sys, destOf, s, v) && Shows(sys, destOf, StreamOf(rec), t) && rec in sys.bag
    requires StreamOf(rec) == s ==> t == v
    ensures Shows(Perform(sys, Deliver(rec)), destOf, s, Move(s, v, Deliver(rec)))
  {
    hide ShowsTracker, ShowsForwarder;
    assert t.bag[rec] > 0 && Own(destOf, StreamOf(rec), rec);
    BagShrinks(sys.bag, destOf, s, v.bag, rec);
    if StreamOf(rec) == s {
      HandleOwn(sys.fwd, destOf, s, v.r, v.out, rec);
    } else {
      HandleOther(sys.fwd, destOf, s, v.r, v.out, StreamOf(rec), t.r, t.out, rec);
    }
  }

  // A message forgets exactly the reorderers of its LIID.
  lemma ShowForwarderOver(sys: System, destOf: Stream -> nat, s: Stream, v: Sight, liid: string)
    requires Shows(sys, destOf, s, v)
    ensures Shows(Perform(sys, ForwarderOver(liid)), destOf, s, Move(s, v, ForwarderOver(liid)))
  {
    hide ShowsTracker, ShowsBag;
  }

  // ---- Whole runs ----

  lemma ShowStep(destOf: Stream -> nat, steps: seq<Step>, step: Step, s: Stream)
    requires (forall t :: Shows(After(steps), destOf, t, Seen(t, steps))) && Enabled(destOf, steps, step)
    ensures Shows(Perform(After(steps), step), destOf, s, Move(s, Seen(s, steps), step))
  {
    hide Shows, Perform, Move;
    var sys, v := After(steps), Seen(s, steps);
    match step
    case Retable(ints) => ShowRetable(sys, destOf, s, v, ints);
    case Publish(job) => ShowPublish(sys, destOf, s, v, Seen(JobStream(job), steps), job);
    case Deliver(rec) => ShowDeliver(sys, destOf, s, v, Seen(StreamOf(rec), steps), rec);
    case TrackerOver(liid) => ShowTrackerOver(sys, destOf, s, v, liid);
    case ForwarderOver(liid) => ShowForwarderOver(sys, destOf, s, v, liid);
    case WithdrawIp(liid) => ShowTrackerOver(sys, destOf, s, v, liid);
  }

  // In every legal run the system looks to each stream as its own history says.
  lemma {:induction false} SeenRun(destOf: Stream -> nat, steps: seq<Step>)
    requires Legal(destOf, steps)
    ensures forall s :: Shows(After(steps), destOf, s, Seen(s, steps))
  {
    hide Shows;
    forall s ensures Shows(After(steps), destOf, s, Seen(s, steps)) {
      if steps == [] {
        ShowsStart(destOf, s);
      } else {
        var n := |steps| - 1;
        SeenRun(destOf, steps[..n]);
        ShowStep(destOf, steps[..n], steps[n], s);
      }
    }
  }

  // A legal run is one each stream may take.
  lemma {:induction false} LegalMay(destOf: Stream -> nat, steps: seq<Step>, s: Stream)
    requires Legal(destOf, steps)
    ensures MayAll(s, First(s), steps)
  {
    if steps != [] {
      var n := |steps| - 1;
      LegalMay(destOf, steps[..n], s);
      SeenRun(destOf, steps[..n]);
      assert Shows(After(steps[..n]), destOf, s, Seen(s, steps[..n]));
      MayStep(destOf, steps[..n], steps[n], s);
    }
  }

  lemma MayStep(destOf: Stream -> nat, steps: seq<Step>, step: Step, s: Stream)
    requires Enabled(destOf, steps, step) && Shows(After(steps), destOf, s, Seen(s, steps))
    ensures May(s, Seen(s, steps), step)
  {
  }

  // The order of a stream holds at every point of a run if and only if each step keeps it.
  lemma OrderExactly(destOf: Stream -> nat, steps: seq<Step>, s: Stream)
    requires Legal(destOf, steps)
    ensures InvThroughout(s, First(s), steps) <==> AllOrderly(s, First(s), steps)
  {
    hide Lives.Inv;
    LegalMay(destOf, steps, s);
    FirstInv(s);
    RunExactly(s, First(s), steps);
  }

  ghost predicate NoneUnderWay(sys: System, s: Stream) {
    forall rec :: rec in sys.bag ==> StreamOf(rec) != s
  }

  // Then what its destination has been given are the lives over for the forwarder and a gap-free,
  // duplicate-free part of the one it is at, in the order the tracker assigned; and all that was
  // numbered, once nothing is under way.
  lemma DeliveredInOrder(destOf: Stream -> nat, steps: seq<Step>, s: Stream)
    requires Legal(destOf, steps) && AllOrderly(s, First(s), steps)
    ensures var sys, v := After(steps), Seen(s, steps);
      && Done(v) <= Delivered(sys, destOf, s) <= Done(v) + Cur(v)
      && (NoneUnderWay(sys, s) ==> Delivered(sys, destOf, s) == Joined(v.lives))
  {
    hide Lives.Inv;
    var sys, v := After(steps), Seen(s, steps);
    OrderExactly(destOf, steps, s);
    SeenRun(destOf, steps);
    assert Shows(sys, destOf, s, v);
    InOrder(v);
    if NoneUnderWay(sys, s) { EmptyBag(sys, destOf, s, v); }
  }

  lemma EmptyBag(sys: System, destOf: Stream -> nat, s: Stream, v: Sight)
    requires ShowsBag(sys.bag, destOf, s, v.bag) && NoneUnderWay(sys, s)
    ensures v.bag == multiset{}
  {
  }

  // ---- A withdrawal in a run, its two messages apart ----

  lemma {:induction false} MoveConcat(s: Stream, v: Sight, a: seq<Step>, b: seq<Step>)
    ensures MoveAll(s, v, a + b) == MoveAll(s, MoveAll(s, v, a), b)
    ensures MayAll(s, v, a + b) ==> MayAll(s, MoveAll(s, v, a), b)
  {
    hide Move, May;
    if b == [] {
      assert a + b == a;
    } else {
      var n := |b| - 1;
      MoveConcat(s, v, a, b[..n]);
      assert (a + b)[..|a + b| - 1] == a + b[..n];
    }
  }

  ghost function Withdrawn(steps: seq<Step>, first: Step, mid: seq<Step>): seq<Step> {
    steps + ([first] + mid)
  }

  lemma SeenWithdrawn(destOf: Stream -> nat, steps: seq<Step>, first: Step, mid: seq<Step>, second: Step, s: Stream)
    requires Legal(destOf, Withdrawn(steps, first, mid) + [second])
    ensures var w := MoveAll(s, Move(s, Seen(s, steps), first), mid);
      && MayAll(s, Move(s, Seen(s, steps), first), mid) && Seen(s, Withdrawn(steps, first, mid)) == w
      && Seen(s, Withdrawn(steps, first, mid) + [second]) == Move(s, w, second)
  {
    hide Move, May, Legal, Enabled;
    var all, v := Withdrawn(steps, first, mid), Seen(s, steps);
    LegalMay(destOf, all + [second], s);
    assert (all + [second])[..|all|] == all;
    MoveConcat(s, First(s), steps, [first] + mid);
    MoveConcat(s, v, [first], mid);
    assert [first][..0] == [];
    assert MoveAll(s, v, [first]) == Move(s, v, first);
  }

  // The tracker is told first.  The order holds again after the second message if what is under way
  // of the stream when it is handled are exactly the records numbered since the first; and only if,
  // unless those are 2^32 or more.
  lemma TrackerThenForwarder(destOf: Stream -> nat, steps: seq<Step>, mid: seq<Step>, s: Stream)
    requires Legal(destOf, Withdrawn(steps, TrackerOver(s.liid), mid) + [ForwarderOver(s.liid)]) && AllBetween(s, mid)
    requires Lives.Inv(Seen(s, steps)) && Level(Seen(s, steps))
    ensures var w := Seen(s, Withdrawn(steps, TrackerOver(s.liid), mid));
      var v' := Seen(s, Withdrawn(steps, TrackerOver(s.liid), mid) + [ForwarderOver(s.liid)]);
      && (w.bag == multiset(Last(w.lives)) ==> Lives.Inv(v'))
      && (Lives.Inv(v') && |Last(w.lives)| < SEQ_MOD ==> w.bag == multiset(Last(w.lives)))
  {
    hide Lives.Inv, Legal, MoveAll, MayAll, Move;
    SeenWithdrawn(destOf, steps, TrackerOver(s.liid), mid, ForwarderOver(s.liid), s);
    TrackerFirst(s, Seen(s, steps), mid);
  }

  // The forwarder is told first.  It holds again if nothing of the stream is under way when the
  // first message is handled, and nothing is numbered until the second is; and only if, unless both
  // together are 2^32 records or more.
  lemma ForwarderThenTracker(destOf: Stream -> nat, steps: seq<Step>, mid: seq<Step>, s: Stream)
    requires Legal(destOf, Withdrawn(steps, ForwarderOver(s.liid), mid) + [TrackerOver(s.liid)]) && AllBetween(s, mid)
    requires Lives.Inv(Seen(s, steps)) && Level(Seen(s, steps))
    ensures var v, w := Seen(s, steps), Seen(s, Withdrawn(steps, ForwarderOver(s.liid), mid));
      var v' := Seen(s, Withdrawn(steps, ForwarderOver(s.liid), mid) + [TrackerOver(s.liid)]);
      && (v.bag == multiset{} && w.lives == v.lives ==> Lives.Inv(v'))
      && (Lives.Inv(v') && |Last(w.lives)| - Gone(v) < SEQ_MOD ==> v.bag == multiset{} && w.lives == v.lives)
  {
    hide Lives.Inv, Legal, MoveAll, MayAll, Move;
    SeenWithdrawn(destOf, steps, ForwarderOver(s.liid), mid, TrackerOver(s.liid), s);
    ForwarderFirst(s, Seen(s, steps), mid);
  }

  // ---- Runs out of order ----

  // A legal run after which the stream's history is v.
  ghost predicate Sees(destOf: Stream -> nat, s: Stream, steps: seq<Step>, v: Sight) {
    Legal(destOf, steps) && Seen(s, steps) == v
  }

  // The LIID is announced.
  ghost function Announced(steps: seq<Step>, liid: string): seq<Step> {
    steps + [Retable(After(steps).ints[liid := InterceptState(map[], 0, 0)])]
  }

  ghost predicate Nth(destOf: Stream -> nat, s: Stream, rec: Record, n: nat) {
    Own(destOf, s, rec) && rec.seqno == n
  }

  lemma SeeStart(destOf: Stream -> nat, s: Stream)
    ensures Sees(destOf, s, [], First(s))
  {
  }

  lemma SeeMove(destOf: Stream -> nat, s: Stream, steps: seq<Step>, v: Sight, step: Step)
    requires Sees(destOf, s, steps, v) && Enabled(destOf, steps, step)
    ensures Sees(destOf, s, steps + [step], Move(s, v, step))
  {
    hide Enabled, Move, After;
    assert (steps + [step])[..|steps|] == steps;
  }

  lemma SeeAnnounced(destOf: Stream -> nat, s: Stream, steps: seq<Step>, v: Sight)
    requires Sees(destOf, s, steps, v) && !v.tracked
    ensures Sees(destOf, s, Announced(steps, s.liid), v.(tracked := true))
  {
    SeenRun(destOf, steps);
    assert Shows(After(steps), destOf, s, v);
    SeeMove(destOf, s, steps, v, Retable(After(steps).ints[s.liid := InterceptState(map[], 0, 0)]));
  }

  lemma SeePublish(destOf: Stream -> nat, s: Stream, steps: seq<Step>, v: Sight, rec: Record)
    requires Sees(destOf, s, steps, v) && v.tracked && Nth(destOf, s, rec, |Last(v.lives)|)
    requires 1 <= |v.lives| <= 2 && |v.lives[0]| < 1000 && |Last(v.lives)| < 1000
    ensures Sees(destOf, s, steps + [Publish(rec.job)],
                 v.(lives := WithRecord(v.lives, rec), bag := v.bag + multiset{rec}))
  {
    hide Sees, Legal, After, Seen, WithRecord;
    FewGone(v);
    assert NextRecord(s, v, rec.job) == rec;
    PublishEnabled(destOf, s, steps, v, rec.job);
    SeeMove(destOf, s, steps, v, Publish(rec.job));
  }

  lemma PublishEnabled(destOf: Stream -> nat, s: Stream, steps: seq<Step>, v: Sight, job: Job)
    requires Sees(destOf, s, steps, v) && |Last(v.lives)| - Gone(v) < SEQ_MOD
    requires JobStream(job) == s && job.destid == destOf(s)
    ensures Enabled(destOf, steps, Publish(job))
  {
  }

  lemma SeeDeliver(destOf: Stream -> nat, s: Stream, steps: seq<Step>, v: Sight, rec: Record, r: Reorderer,
                   more: seq<Record>)
    requires Sees(destOf, s, steps, v) && rec in v.bag && StreamOf(rec) == s && Accept(v.r, rec) == (r, more)
    ensures Sees(destOf, s, steps + [Deliver(rec)], v.(bag := v.bag - multiset{rec}, r := r, out := v.out + more))
  {
    SeenRun(destOf, steps);
    assert Shows(After(steps), destOf, s, v);
    SeeMove(destOf, s, steps, v, Deliver(rec));
  }

  // What a reorderer makes of a record: out of turn, in turn, and in turn before one that waits.
  lemma AcceptCases(r: Reorderer, rec: Record)
    ensures rec.seqno != r.expected ==> Accept(r, rec) == (r.(pending := r.pending[rec.seqno := rec]), [])
    ensures rec.seqno == r.expected && r.pending == map[] ==>
      Accept(r, rec) == (r.(expected := Next(rec.seqno)), [rec])
  {
    assert [rec] + [] == [rec];
  }

  lemma AcceptTwo(liid: string, rec: Record, waits: Record)
    requires rec.seqno == 0 && waits.seqno == 1
    ensures Accept(Reorderer(liid, 0, map[1 := waits]), rec) == (Reorderer(liid, 2, map[]), [rec, waits])
  {
    var r := Reorderer(liid, 1, map[1 := waits]);
    assert r.pending - {1} == map[];
    assert Drain(Reorderer(liid, 2, map[])) == (Reorderer(liid, 2, map[]), []);
    assert Drain(r) == (Reorderer(liid, 2, map[]), [waits] + []);
    assert [rec] + ([waits] + []) == [rec, waits];
  }

  lemma Lists(a: Record, b: Record)
    ensures multiset{a} - multiset{a} == multiset{} && multiset{} + multiset{a} == multiset{a}
    ensures multiset{a} + multiset{b} == multiset{a, b}
    ensures multiset{a, b} - multiset{a} == multiset{b} && multiset{a, b} - multiset{b} == multiset{a}
    ensures [] + [a] == [a] && [a] + [b] == [a, b] && [a] + [] == [a]
    ensures WithRecord([[]], a) == [[a]] && WithRecord([[a]], b) == [[a, b]]
  {
  }

  // The lives of two numberings.
  lemma TwoLives(l: seq<Record>, a: Record, b: Record)
    ensures [l] + [[]] == [l, []] && WithRecord([l, []], a) == [l, [a]] && WithRecord([l, [a]], b) == [l, [a, b]]
  {
    assert [] + [a] == [a] && [a] + [b] == [a, b];
    assert WithRecord([l, []], a)[1] == [a];
    assert WithRecord([l, [a]], b)[1] == [a, b];
  }

  // There is room for a few more.
  lemma FewGone(v: Sight)
    requires 1 <= |v.lives| <= 2 && |v.lives[0]| < 1000 && |Last(v.lives)| < 1000
    ensures |Last(v.lives)| - Gone(v) < SEQ_MOD
  {
    AllLives(v);
    JoinedOne(v.lives[0]);
    if |v.lives| == 2 {
      assert v.lives == [v.lives[0]] + [v.lives[1]];
      JoinedOne(v.lives[1]);
      JoinedConcat([v.lives[0]], [v.lives[1]]);
    } else {
      assert v.lives == [v.lives[0]];
    }
  }

  // One record numbered and delivered.
  ghost function OneSent(s: Stream, a0: Record): seq<Step> {
    Announced([], s.liid) + [Publish(a0.job)] + [Deliver(a0)]
  }

  lemma SeeOneSent(destOf: Stream -> nat, s: Stream, a0: Record)
    requires Nth(destOf, s, a0, 0)
    ensures Sees(destOf, s, OneSent(s, a0), Sight(true, [[a0]], 0, multiset{}, Reorderer(s.liid, 1, map[]), [a0]))
  {
    hide Sees, Accept, WithRecord;
    Lists(a0, a0);
    SeeStart(destOf, s);
    SeeAnnounced(destOf, s, [], First(s));
    SeePublish(destOf, s, Announced([], s.liid), Sight(true, [[]], 0, multiset{}, Fresh(s.liid), []), a0);
    AcceptCases(Fresh(s.liid), a0);
    SeeDeliver(destOf, s, Announced([], s.liid) + [Publish(a0.job)],
               Sight(true, [[a0]], 0, multiset{a0}, Fresh(s.liid), []), a0, Reorderer(s.liid, 1, map[]), [a0]);
  }

  // The forwarder forgets first; the tracker numbers another record, which waits, and forgets.
  ghost function ToldApart(s: Stream, a1: Record, steps: seq<Step>): seq<Step> {
    steps + [ForwarderOver(s.liid)] + [Publish(a1.job)] + [Deliver(a1)] + [TrackerOver(s.liid)]
  }

  lemma SeeToldApart(destOf: Stream -> nat, s: Stream, steps: seq<Step>, a0: Record, a1: Record)
    requires Sees(destOf, s, steps, Sight(true, [[a0]], 0, multiset{}, Reorderer(s.liid, 1, map[]), [a0]))
    requires Nth(destOf, s, a1, 1)
    ensures Sees(destOf, s, ToldApart(s, a1, steps),
                 Sight(false, [[a0, a1], []], 1, multiset{}, Reorderer(s.liid, 0, map[1 := a1]), [a0]))
  {
    hide Sees, Accept, WithRecord;
    Lists(a0, a1);
    Lists(a1, a1);
    TwoLives([a0, a1], a0, a0);
    SeeMove(destOf, s, steps, Sight(true, [[a0]], 0, multiset{}, Reorderer(s.liid, 1, map[]), [a0]),
            ForwarderOver(s.liid));
    var s1 := steps + [ForwarderOver(s.liid)];
    SeePublish(destOf, s, s1, Sight(true, [[a0]], 1, multiset{}, Fresh(s.liid), [a0]), a1);
    AcceptCases(Fresh(s.liid), a1);
    SeeDeliver(destOf, s, s1 + [Publish(a1.job)], Sight(true, [[a0, a1]], 1, multiset{a1}, Fresh(s.liid), [a0]), a1,
               Reorderer(s.liid, 0, map[1 := a1]), []);
    SeeMove(destOf, s, s1 + [Publish(a1.job)] + [Deliver(a1)],
            Sight(true, [[a0, a1]], 1, multiset{}, Reorderer(s.liid, 0, map[1 := a1]), [a0]), TrackerOver(s.liid));
  }

  // The next life: two records numbered and delivered.
  ghost function TwoMore(s: Stream, b0: Record, b1: Record, steps: seq<Step>): seq<Step> {
    Announced(steps, s.liid) + [Publish(b0.job)] + [Publish(b1.job)] + [Deliver(b0)] + [Deliver(b1)]
  }

  lemma SeeTwoNumbered(destOf: Stream -> nat, s: Stream, steps: seq<Step>, v: Sight, l: seq<Record>, b0: Record,
                       b1: Record)
    requires Sees(destOf, s, steps, v) && !v.tracked && v.lives == [l, []] && |l| < 1000
    requires Nth(destOf, s, b0, 0) && Nth(destOf, s, b1, 1)
    ensures Sees(destOf, s, Announced(steps, s.liid) + [Publish(b0.job)] + [Publish(b1.job)],
                 v.(tracked := true, lives := [l, [b0, b1]], bag := v.bag + multiset{b0} + multiset{b1}))
  {
    hide Sees, WithRecord;
    TwoLives(l, b0, b1);
    SeeAnnounced(destOf, s, steps, v);
    SeePublish(destOf, s, Announced(steps, s.liid), v.(tracked := true), b0);
    SeePublish(destOf, s, Announced(steps, s.liid) + [Publish(b0.job)],
               v.(tracked := true, lives := [l, [b0]], bag := v.bag + multiset{b0}), b1);
  }

  lemma SeeTwoMore(destOf: Stream -> nat, s: Stream, steps: seq<Step>, a0: Record, a1: Record, b0: Record, b1: Record)
    requires Sees(destOf, s, steps,
                  Sight(false, [[a0, a1], []], 1, multiset{}, Reorderer(s.liid, 0, map[1 := a1]), [a0]))
    requires Nth(destOf, s, a1, 1) && Nth(destOf, s, b0, 0) && Nth(destOf, s, b1, 1)
    ensures Sees(destOf, s, TwoMore(s, b0, b1, steps),
                 Sight(true, [[a0, a1], [b0, b1]], 1, multiset{}, Reorderer(s.liid, 2, map[1 := b1]), [a0, b0, a1]))
  {
    hide Sees, Accept, WithRecord;
    var v := Sight(false, [[a0, a1], []], 1, multiset{}, Reorderer(s.liid, 0, map[1 := a1]), [a0]);
    SeeTwoNumbered(destOf, s, steps, v, [a0, a1], b0, b1);
    Lists(b0, b1);
    Lists(b1, b1);
    var s1 := Announced(steps, s.liid) + [Publish(b0.job)] + [Publish(b1.job)];
    var v1 := v.(tracked := true, lives := [[a0, a1], [b0, b1]], bag := multiset{b0, b1});
    AcceptTwo(s.liid, b0, a1);
    SeeDeliver(destOf, s, s1, v1, b0, Reorderer(s.liid, 2, map[]), [b0, a1]);
    assert [a0] + [b0, a1] == [a0, b0, a1] && [a0, b0, a1] + [] == [a0, b0, a1];
    AcceptCases(Reorderer(s.liid, 2, map[]), b1);
    SeeDeliver(destOf, s, s1 + [Deliver(b0)],
               v1.(bag := multiset{b1}, r := Reorderer(s.liid, 2, map[]), out := [a0, b0, a1]), b1,
               Reorderer(s.liid, 2, map[1 := b1]), []);
  }

  // Nothing is under way when either message is handled, and yet a1, numbered between the two, is
  // let go in the next life, in the place of b1, which waits for good.
  lemma ForwarderToldFirst(destOf: Stream -> nat, s: Stream, a0: Record, a1: Record, b0: Record, b1: Record)
    requires Nth(destOf, s, a0, 0) && Nth(destOf, s, a1, 1) && Nth(destOf, s, b0, 0) && Nth(destOf, s, b1, 1)
    ensures var steps := TwoMore(s, b0, b1, ToldApart(s, a1, OneSent(s, a0)));
      var sys := After(steps);
      && Legal(destOf, steps) && NoneUnderWay(sys, s)
      && Seen(s, steps).lives == [[a0, a1], [b0, b1]] && Delivered(sys, destOf, s) == [a0, b0, a1]
      && Look(sys.fwd, s).pending == map[1 := b1]
  {
    hide TwoMore, ToldApart, OneSent;
    SeeOneSent(destOf, s, a0);
    SeeToldApart(destOf, s, OneSent(s, a0), a0, a1);
    SeeTwoMore(destOf, s, ToldApart(s, a1, OneSent(s, a0)), a0, a1, b0, b1);
    var steps := TwoMore(s, b0, b1, ToldApart(s, a1, OneSent(s, a0)));
    SeenRun(destOf, steps);
    assert Shows(After(steps), destOf, s, Seen(s, steps));
    NoneLeft(After(steps), destOf, s);
  }

  lemma NoneLeft(sys: System, destOf: Stream -> nat, s: Stream)
    requires ShowsBag(sys.bag, destOf, s, multiset{})
    ensures NoneUnderWay(sys, s)
  {
    forall rec | rec in sys.bag ensures StreamOf(rec) != s {
      assert multiset{}[rec] == if StreamOf(rec) == s then sys.bag[rec] else 0;
    }
  }

  // Both messages at once, with a1 under way.
  ghost function CutOff(s: Stream, a1: Record, steps: seq<Step>): seq<Step> {
    steps + [Publish(a1.job)] + [TrackerOver(s.liid)] + [ForwarderOver(s.liid)]
  }

  lemma SeeCutOff(destOf: Stream -> nat, s: Stream, steps: seq<Step>, a0: Record, a1: Record)
    requires Sees(destOf, s, steps, Sight(true, [[a0]], 0, multiset{}, Reorderer(s.liid, 1, map[]), [a0]))
    requires Nth(destOf, s, a1, 1)
    ensures Sees(destOf, s, CutOff(s, a1, steps),
                 Sight(false, [[a0, a1], []], 1, multiset{a1}, Fresh(s.liid), [a0]))
  {
    hide Sees, WithRecord;
    Lists(a0, a1);
    Lists(a1, a1);
    TwoLives([a0, a1], a0, a0);
    var v := Sight(true, [[a0]], 0, multiset{}, Reorderer(s.liid, 1, map[]), [a0]);
    SeePublish(destOf, s, steps, v, a1);
    var v1 := v.(lives := [[a0, a1]], bag := multiset{a1});
    SeeMove(destOf, s, steps + [Publish(a1.job)], v1, TrackerOver(s.liid));
    SeeMove(destOf, s, steps + [Publish(a1.job)] + [TrackerOver(s.liid)],
            v1.(tracked := false, lives := [[a0, a1], []]), ForwarderOver(s.liid));
  }

  ghost function Overtaken(s: Stream, a1: Record, b0: Record, b1: Record, steps: seq<Step>): seq<Step> {
    Announced(steps, s.liid) + [Publish(b0.job)] + [Publish(b1.job)] + [Deliver(b0)] + [Deliver(a1)] + [Deliver(b1)]
  }

  lemma ThreeUnderWay(a: Record, b: Record, c: Record)
    ensures multiset{a} + multiset{b} + multiset{c} - multiset{b} == multiset{a, c}
    ensures multiset{a, c} - multiset{a} == multiset{c} && multiset{c} - multiset{c} == multiset{}
  {
  }

  lemma SeeOvertaken(destOf: Stream -> nat, s: Stream, steps: seq<Step>, a0: Record, a1: Record, b0: Record, b1: Record)
    requires Sees(destOf, s, steps, Sight(false, [[a0, a1], []], 1, multiset{a1}, Fresh(s.liid), [a0]))
    requires Nth(destOf, s, a1, 1) && Nth(destOf, s, b0, 0) && Nth(destOf, s, b1, 1)
    ensures Sees(destOf, s, Overtaken(s, a1, b0, b1, steps),
                 Sight(true, [[a0, a1], [b0, b1]], 1, multiset{}, Reorderer(s.liid, 2, map[1 := b1]), [a0, b0, a1]))
  {
    hide Sees, Accept, WithRecord;
    var v := Sight(false, [[a0, a1], []], 1, multiset{a1}, Fresh(s.liid), [a0]);
    SeeTwoNumbered(destOf, s, steps, v, [a0, a1], b0, b1);
    ThreeUnderWay(a1, b0, b1);
    var s1 := Announced(steps, s.liid) + [Publish(b0.job)] + [Publish(b1.job)];
    var bag := multiset{a1} + multiset{b0} + multiset{b1};
    var v1 := v.(tracked := true, lives := [[a0, a1], [b0, b1]], bag := bag);
    assert [a0] + [b0] == [a0, b0] && [a0, b0] + [a1] == [a0, b0, a1] && [a0, b0, a1] + [] == [a0, b0, a1];
    AcceptCases(Fresh(s.liid), b0);
    SeeDeliver(destOf, s, s1, v1, b0, Reorderer(s.liid, 1, map[]), [b0]);
    var v2 := v1.(bag := multiset{a1, b1}, r := Reorderer(s.liid, 1, map[]), out := [a0, b0]);
    AcceptCases(Reorderer(s.liid, 1, map[]), a1);
    SeeDeliver(destOf, s, s1 + [Deliver(b0)], v2, a1, Reorderer(s.liid, 2, map[]), [a1]);
    var v3 := v2.(bag := multiset{b1}, r := Reorderer(s.liid, 2, map[]), out := [a0, b0, a1]);
    AcceptCases(Reorderer(s.liid, 2, map[]), b1);
    SeeDeliver(destOf, s, s1 + [Deliver(b0)] + [Deliver(a1)], v3, b1, Reorderer(s.liid, 2, map[1 := b1]), []);
  }

  // A withdrawal with a1 under way comes to the same.
  lemma WithdrawnUnderWay(destOf: Stream -> nat, s: Stream, a0: Record, a1: Record, b0: Record, b1: Record)
    requires Nth(destOf, s, a0, 0) && Nth(destOf, s, a1, 1) && Nth(destOf, s, b0, 0) && Nth(destOf, s, b1, 1)
    ensures var steps := Overtaken(s, a1, b0, b1, CutOff(s, a1, OneSent(s, a0)));
      var sys := After(steps);
      && Legal(destOf, steps) && NoneUnderWay(sys, s)
      && Seen(s, steps).lives == [[a0, a1], [b0, b1]] && Delivered(sys, destOf, s) == [a0, b0, a1]
      && Look(sys.fwd, s).pending == map[1 := b1]
  {
    hide Overtaken, CutOff, OneSent;
    SeeOneSent(destOf, s, a0);
    SeeCutOff(destOf, s, OneSent(s, a0), a0, a1);
    SeeOvertaken(destOf, s, CutOff(s, a1, OneSent(s, a0)), a0, a1, b0, b1);
    var steps := Overtaken(s, a1, b0, b1, CutOff(s, a1, OneSent(s, a0)));
    SeenRun(destOf, steps);
    assert Shows(After(steps), destOf, s, Seen(s, steps));
    NoneLeft(After(steps), destOf, s);
  }

  // The tracker is told, the LIID announced again, and a record of the new life delivered.
  ghost function Early(s: Stream, over: Step, b0: Record, steps: seq<Step>): seq<Step> {
    Announced(steps + [over], s.liid) + [Publish(b0.job)] + [Deliver(b0)]
  }

  lemma SeeEarly(destOf: Stream -> nat, s: Stream, steps: seq<Step>, over: Step, a0: Record, b0: Record)
    requires Sees(destOf, s, steps, Sight(true, [[a0]], 0, multiset{}, Reorderer(s.liid, 1, map[]), [a0]))
    requires Nth(destOf, s, b0, 0) && (over == TrackerOver(s.liid) || over == WithdrawIp(s.liid))
    ensures Sees(destOf, s, Early(s, over, b0, steps),
                 Sight(true, [[a0], [b0]], if over.WithdrawIp? then 1 else 0, multiset{},
                       Reorderer(s.liid, 1, map[0 := b0]), [a0]))
  {
    hide Sees, Accept, WithRecord;
    Lists(b0, b0);
    TwoLives([a0], b0, b0);
    assert [a0] + [] == [a0];
    SeeMove(destOf, s, steps, Sight(true, [[a0]], 0, multiset{}, Reorderer(s.liid, 1, map[]), [a0]), over);
    var v := Sight(false, [[a0], []], if over.WithdrawIp? then 1 else 0, multiset{}, Reorderer(s.liid, 1, map[]), [a0]);
    SeeAnnounced(destOf, s, steps + [over], v);
    SeePublish(destOf, s, Announced(steps + [over], s.liid), v.(tracked := true), b0);
    AcceptCases(Reorderer(s.liid, 1, map[]), b0);
    SeeDeliver(destOf, s, Announced(steps + [over], s.liid) + [Publish(b0.job)],
               v.(tracked := true, lives := [[a0], [b0]], bag := multiset{b0}), b0,
               Reorderer(s.liid, 1, map[0 := b0]), []);
  }

  // The tracker is told first, and a record of the new life delivered before the forwarder is: the
  // forwarder forgets that record, and the next one waits for it.
  lemma TrackerToldFirst(destOf: Stream -> nat, s: Stream, a0: Record, b0: Record, b1: Record)
    requires Nth(destOf, s, a0, 0) && Nth(destOf, s, b0, 0) && Nth(destOf, s, b1, 1)
    ensures var steps := Early(s, TrackerOver(s.liid), b0, OneSent(s, a0)) + [ForwarderOver(s.liid)]
        + [Publish(b1.job)] + [Deliver(b1)];
      var sys := After(steps);
      && Legal(destOf, steps) && NoneUnderWay(sys, s)
      && Seen(s, steps).lives == [[a0], [b0, b1]] && Delivered(sys, destOf, s) == [a0]
      && Look(sys.fwd, s).pending == map[1 := b1]
  {
    hide Early, OneSent, WithRecord, Accept;
    SeeOneSent(destOf, s, a0);
    SeeEarly(destOf, s, OneSent(s, a0), TrackerOver(s.liid), a0, b0);
    var s1 := Early(s, TrackerOver(s.liid), b0, OneSent(s, a0));
    SeeForgotten(destOf, s, s1, a0, b0, b1);
    var steps := s1 + [ForwarderOver(s.liid)] + [Publish(b1.job)] + [Deliver(b1)];
    SeenRun(destOf, steps);
    assert Shows(After(steps), destOf, s, Seen(s, steps));
    NoneLeft(After(steps), destOf, s);
  }

  lemma SeeForgotten(destOf: Stream -> nat, s: Stream, steps: seq<Step>, a0: Record, b0: Record, b1: Record)
    requires Nth(destOf, s, b1, 1)
    requires Sees(destOf, s, steps,
                  Sight(true, [[a0], [b0]], 0, multiset{}, Reorderer(s.liid, 1, map[0 := b0]), [a0]))
    ensures Sees(destOf, s, steps + [ForwarderOver(s.liid)] + [Publish(b1.job)] + [Deliver(b1)],
                 Sight(true, [[a0], [b0, b1]], 1, multiset{}, Reorderer(s.liid, 0, map[1 := b1]), [a0]))
  {
    hide Sees, Accept, WithRecord;
    Lists(b1, b1);
    TwoLives([a0], b0, b1);
    assert [a0] + [] == [a0];
    var v := Sight(true, [[a0], [b0]], 0, multiset{}, Reorderer(s.liid, 1, map[0 := b0]), [a0]);
    SeeMove(destOf, s, steps, v, ForwarderOver(s.liid));
    var v1 := v.(at := 1, r := Fresh(s.liid));
    SeePublish(destOf, s, steps + [ForwarderOver(s.liid)], v1, b1);
    AcceptCases(Fresh(s.liid), b1);
    SeeDeliver(destOf, s, steps + [ForwarderOver(s.liid)] + [Publish(b1.job)],
               v1.(lives := [[a0], [b0, b1]], bag := multiset{b1}), b1, Reorderer(s.liid, 0, map[1 := b1]), []);
  }

  // An IP intercept withdrawn with nothing under way and announced again: its next record waits.
  lemma IpRecordHeld(destOf: Stream -> nat, s: Stream, a0: Record, b0: Record)
    requires Nth(destOf, s, a0, 0) && Nth(destOf, s, b0, 0)
    ensures var steps := Early(s, WithdrawIp(s.liid), b0, OneSent(s, a0));
      var sys := After(steps);
      && Legal(destOf, steps) && NoneUnderWay(sys, s)
      && Seen(s, steps).lives == [[a0], [b0]] && Delivered(sys, destOf, s) == [a0]
      && Look(sys.fwd, s).pending == map[0 := b0]
  {
    hide Early, OneSent;
    SeeOneSent(destOf, s, a0);
    SeeEarly(destOf, s, OneSent(s, a0), WithdrawIp(s.liid), a0, b0);
    var steps := Early(s, WithdrawIp(s.liid), b0, OneSent(s, a0));
    SeenRun(destOf, steps);
    assert Shows(After(steps), destOf, s, Seen(s, steps));
    NoneLeft(After(steps), destOf, s);
  }
}

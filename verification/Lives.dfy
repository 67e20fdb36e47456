// The records of one session and one kind, over the lives of their intercept.  A withdrawal ends a
// life for the tracker and, by another message, for the forwarder; either may be handled first.
module Lives {
  import opened Common
  import opened Keys
  import opened Reorder
  import opened SeqTracker
  import opened Flows

  // The records that are numbered together.
  datatype Stream = Stream(liid: string, cin: nat, cc: bool)

  function StreamOf(rec: Record): Stream {
    Stream(rec.job.liid, rec.job.cin, IsCC(rec.job.kind))
  }

  function JobStream(job: Job): Stream {
    Stream(job.liid, job.cin, IsCC(job.kind))
  }

  function KeyOf(s: Stream): string {
    SessionKey(s.liid, s.cin)
  }

  // A VoIP withdrawal is handled by the tracker and by the forwarder at times of their own.  An IP
  // withdrawal is told to the tracker only, so that for the forwarder nothing changes.
  datatype Step =
    | Retable(ints: Intercepts)
    | Publish(job: Job)
    | Deliver(rec: Record)
    | TrackerOver(liid: string)
    | ForwarderOver(liid: string)
    | WithdrawIp(liid: string)

  // What has happened to a stream: whether the tracker knows its LIID, what it has numbered in each
  // life, the life that the forwarder is at, the records under way, the reorderer, and what has
  // been let go.
  datatype Sight = Sight(
    tracked: bool, lives: seq<seq<Record>>, at: nat, bag: multiset<Record>, r: Reorderer, out: seq<Record>)

  function First(s: Stream): Sight {
    Sight(false, [[]], 0, multiset{}, Fresh(s.liid), [])
  }

  // The life the tracker is at.
  function Last(lives: seq<seq<Record>>): seq<Record> {
    if lives == [] then [] else lives[|lives| - 1]
  }

  function NextRecord(s: Stream, v: Sight, job: Job): Record {
    Record(job, KeyOf(s), |Last(v.lives)| % SEQ_MOD)
  }

  function WithRecord(lives: seq<seq<Record>>, rec: Record): seq<seq<Record>> {
    if lives == [] then [[rec]] else lives[|lives| - 1 := Last(lives) + [rec]]
  }

  // The job is one of the stream's, and gets a number.
  predicate Numbers(s: Stream, v: Sight, job: Job) {
    JobStream(job) == s && v.tracked
  }

  function Move(s: Stream, v: Sight, step: Step): Sight {
    match step
    case Retable(ints) => v.(tracked := s.liid in ints)
    case Publish(job) =>
      if !Numbers(s, v, job) then v
      else
        var rec := NextRecord(s, v, job);
        v.(lives := WithRecord(v.lives, rec), bag := v.bag + multiset{rec})
    case Deliver(rec) =>
      if StreamOf(rec) != s then v
      else v.(bag := v.bag - multiset{rec}, r := Accept(v.r, rec).0, out := v.out + Accept(v.r, rec).1)
    case TrackerOver(liid) => if liid != s.liid then v else v.(tracked := false, lives := v.lives + [[]])
    case ForwarderOver(liid) => if liid != s.liid then v else v.(at := v.at + 1, r := Fresh(liid))
    case WithdrawIp(liid) =>
      if liid != s.liid then v else v.(tracked := false, lives := v.lives + [[]], at := v.at + 1)
  }

  function MoveAll(s: Stream, v: Sight, steps: seq<Step>): Sight {
    if steps == [] then v else Move(s, MoveAll(s, v, steps[..|steps| - 1]), steps[|steps| - 1])
  }

  // ---- The lives as the forwarder is at them ----

  function Joined(lives: seq<seq<Record>>): seq<Record> {
    if lives == [] then [] else Joined(lives[..|lives| - 1]) + lives[|lives| - 1]
  }

  // The lives over for the forwarder, the one it is at, and those to come.
  function Over(lives: seq<seq<Record>>, at: nat): seq<Record> {
    Joined(lives[..Min(at, |lives|)])
  }

  function Now(lives: seq<seq<Record>>, at: nat): seq<Record> {
    if at < |lives| then lives[at] else []
  }

  function Coming(lives: seq<seq<Record>>, at: nat): seq<Record> {
    if at < |lives| then Joined(lives[at + 1..]) else []
  }

  function Done(v: Sight): seq<Record> {
    Over(v.lives, v.at)
  }

  function Cur(v: Sight): seq<Record> {
    Now(v.lives, v.at)
  }

  function Later(v: Sight): seq<Record> {
    Coming(v.lives, v.at)
  }

  // What is under way of the life that the forwarder is at.
  function Mine(v: Sight): multiset<Record> {
    v.bag - multiset(Later(v))
  }

  // How many records of the tracker's life have been let go.
  function Gone(v: Sight): int {
    if v.at + 1 == |v.lives| then |v.out| - |Done(v)| else 0
  }

  // What may happen: fewer than 2^32 records of a life are under way or wait, and only what is under
  // way is delivered.
  predicate May(s: Stream, v: Sight, step: Step) {
    match step
    case Publish(job) => Numbers(s, v, job) ==> |Last(v.lives)| - Gone(v) < SEQ_MOD
    case Deliver(rec) => StreamOf(rec) == s ==> rec in v.bag
    case _ => true
  }

  predicate MayAll(s: Stream, v: Sight, steps: seq<Step>) {
    steps != [] ==>
      var n := |steps| - 1;
      MayAll(s, v, steps[..n]) && May(s, MoveAll(s, v, steps[..n]), steps[n])
  }

  ghost predicate Shaped(v: Sight) {
    && v.lives != []
    && (forall i :: 0 <= i < |v.lives| ==> Numbered(v.lives[i]))
    && (forall i :: v.at < i < |v.lives| ==> |v.lives[i]| <= SEQ_MOD)
  }

  // What has been let go are all the lives over for the forwarder and a gap-free part of the one it
  // is at, whose reorderer holds what else has arrived of it; the later lives are all under way.
  ghost predicate Inv(v: Sight) {
    && Shaped(v)
    && multiset(Later(v)) <= v.bag
    && Whole(v.out, Done(v), Cur(v), Mine(v), v.r)
  }

  // The steps that keep it: nothing is numbered in a life that is over for the forwarder, only
  // records of the life it is at are delivered, and nothing of that life is under way when it ends.
  // If the forwarder is not told, that life must have had a multiple of 2^32 records.
  predicate Orderly(s: Stream, v: Sight, step: Step) {
    match step
    case Retable(_) => true
    case Publish(job) => Numbers(s, v, job) ==> v.at < |v.lives|
    case Deliver(rec) => StreamOf(rec) == s ==> rec in Mine(v)
    case TrackerOver(_) => true
    case ForwarderOver(liid) => liid == s.liid ==> Mine(v) == multiset{}
    case WithdrawIp(liid) => liid == s.liid ==> Mine(v) == multiset{} && |Cur(v)| % SEQ_MOD == 0
  }

  lemma FirstInv(s: Stream)
    ensures Inv(First(s))
  {
    var v := First(s);
    assert v.lives[..0] == [] && v.lives[1..] == [];
    WholeStart([], [], v.r);
  }

  // ---- Shapes ----

  lemma {:induction false} JoinedConcat(a: seq<seq<Record>>, b: seq<seq<Record>>)
    ensures Joined(a + b) == Joined(a) + Joined(b)
  {
    if b == [] {
      assert a + b == a;
    } else {
      var n := |b| - 1;
      JoinedConcat(a, b[..n]);
      assert (a + b)[..|a + b| - 1] == a + b[..n];
    }
  }

  lemma JoinedOne(l: seq<Record>)
    ensures Joined([l]) == l
  {
    assert [l][..0] == [];
  }

  // Another life for the tracker.
  lemma MoreLives(lives: seq<seq<Record>>, at: nat)
    ensures Over(lives + [[]], at) == Over(lives, at)
    ensures Now(lives + [[]], at) == Now(lives, at) && Coming(lives + [[]], at) == Coming(lives, at)
  {
    var lives', n := lives + [[]], |lives|;
    JoinedOne([]);
    if at < n {
      assert lives'[..at] == lives[..at];
      assert lives'[at + 1..] == lives[at + 1..] + [[]];
      JoinedConcat(lives[at + 1..], [[]]);
    } else {
      assert lives[..n] == lives;
      assert at == n ==> lives'[..n] == lives;
      assert at > n ==> lives'[..n + 1] == lives';
      JoinedConcat(lives, [[]]);
      if at == n { assert lives'[n + 1..] == []; }
    }
  }

  // The next life for the forwarder.
  lemma NextLife(lives: seq<seq<Record>>, at: nat)
    ensures Over(lives, at + 1) == Over(lives, at) + Now(lives, at)
    ensures Coming(lives, at) == Now(lives, at + 1) + Coming(lives, at + 1)
  {
    if at < |lives| {
      assert lives[..at + 1] == lives[..at] + [lives[at]];
      JoinedOne(lives[at]);
      JoinedConcat(lives[..at], [lives[at]]);
      LifeAhead(lives, at);
    }
  }

  lemma LifeAhead(lives: seq<seq<Record>>, at: nat)
    requires at < |lives|
    ensures Coming(lives, at) == Now(lives, at + 1) + Coming(lives, at + 1)
  {
    if at + 1 < |lives| {
      assert lives[at + 1..] == [lives[at + 1]] + lives[at + 2..];
      JoinedOne(lives[at + 1]);
      JoinedConcat([lives[at + 1]], lives[at + 2..]);
    } else {
      assert lives[at + 1..] == [];
    }
  }

  // One more record in the last life.
  lemma Grows(lives: seq<seq<Record>>, at: nat, rec: Record)
    requires at < |lives|
    ensures var lives' := WithRecord(lives, rec);
      && Over(lives', at) == Over(lives, at)
      && (at + 1 == |lives| ==>
            Now(lives', at) == Now(lives, at) + [rec] && Coming(lives', at) == Coming(lives, at) == [])
      && (at + 1 < |lives| ==> Now(lives', at) == Now(lives, at) && Coming(lives', at) == Coming(lives, at) + [rec])
  {
    var lives', n := WithRecord(lives, rec), |lives| - 1;
    assert lives'[..at] == lives[..at];
    if at == n {
      assert lives[at + 1..] == [] && lives'[at + 1..] == [];
    } else {
      var l, l' := lives[at + 1..], lives'[at + 1..];
      assert l'[..|l| - 1] == l[..|l| - 1] && l'[|l| - 1] == l[|l| - 1] + [rec];
      assert Joined(l') == Joined(l) + [rec];
    }
  }

  // ---- Bags ----

  lemma BagMore(bag: multiset<Record>, later: multiset<Record>, rec: Record)
    requires later <= bag
    ensures (bag + multiset{rec}) - (later + multiset{rec}) == bag - later
    ensures later + multiset{rec} <= bag + multiset{rec}
    ensures later == multiset{} ==> (bag + multiset{rec}) - later == bag - later + multiset{rec}
  {
  }

  lemma BagLess(bag: multiset<Record>, later: multiset<Record>, rec: Record)
    requires later <= bag && rec in bag
    ensures later <= bag - multiset{rec} <==> rec in bag - later
    ensures rec in bag - later ==> (bag - multiset{rec}) - later == (bag - later) - multiset{rec}
  {
    assert rec !in bag - later ==> (bag - multiset{rec})[rec] < later[rec];
  }

  lemma BagNext(bag: multiset<Record>, now: seq<Record>, next: seq<Record>)
    requires multiset(now + next) <= bag && bag - multiset(now + next) == multiset{}
    ensures multiset(next) <= bag && bag - multiset(next) == multiset(now)
  {
    assert multiset(now + next) == multiset(now) + multiset(next);
    forall rec ensures (bag - multiset(next))[rec] == multiset(now)[rec] {
      assert (bag - multiset(now + next))[rec] == 0;
    }
  }

  lemma MultisetAppend(a: seq<Record>, rec: Record)
    ensures multiset(a + [rec]) == multiset(a) + multiset{rec}
  {
  }

  // ---- Each step ----

  lemma InvFrom(v: Sight, past: seq<Record>, cur: seq<Record>, mine: multiset<Record>)
    requires Shaped(v) && multiset(Later(v)) <= v.bag && Done(v) == past && Cur(v) == cur && Mine(v) == mine
    ensures Inv(v) <==> Whole(v.out, past, cur, mine, v.r)
  {
  }

  lemma GrowsShaped(v: Sight, rec: Record)
    requires Shaped(v) && rec.seqno == |Last(v.lives)| % SEQ_MOD
    requires v.at + 1 < |v.lives| ==> |Last(v.lives)| < SEQ_MOD
    ensures Shaped(v.(lives := WithRecord(v.lives, rec)))
  {
  }

  lemma PublishLast(s: Stream, v: Sight, job: Job)
    requires Inv(v) && Numbers(s, v, job) && May(s, v, Publish(job)) && v.at + 1 == |v.lives|
    ensures Inv(Move(s, v, Publish(job)))
  {
    var rec := NextRecord(s, v, job);
    var v' := Move(s, v, Publish(job));
    Grows(v.lives, v.at, rec);
    GrowsShaped(v, rec);
    BagMore(v.bag, multiset(Later(v)), rec);
    WholePublish(v.out, Done(v), Cur(v), Mine(v), v.r, rec);
    InvFrom(v', Done(v), Cur(v) + [rec], Mine(v) + multiset{rec});
  }

  lemma PublishLater(s: Stream, v: Sight, job: Job)
    requires Inv(v) && Numbers(s, v, job) && May(s, v, Publish(job)) && v.at + 1 < |v.lives|
    ensures Inv(Move(s, v, Publish(job)))
  {
    var rec := NextRecord(s, v, job);
    var v' := Move(s, v, Publish(job));
    Grows(v.lives, v.at, rec);
    GrowsShaped(v, rec);
    MultisetAppend(Later(v), rec);
    BagMore(v.bag, multiset(Later(v)), rec);
    InvFrom(v', Done(v), Cur(v), Mine(v));
  }

  // A record numbered in a life that is over for the forwarder.
  lemma PublishLate(s: Stream, v: Sight, job: Job)
    requires Inv(v) && Numbers(s, v, job) && v.at >= |v.lives|
    ensures !Inv(Move(s, v, Publish(job)))
  {
    var rec := NextRecord(s, v, job);
    var v' := Move(s, v, Publish(job));
    assert rec in Mine(v') && Cur(v') == [];
    NoneAhead(v'.out, Done(v'), Mine(v'), v'.r, rec);
  }

  lemma DeliverInv(s: Stream, v: Sight, rec: Record)
    requires Inv(v) && StreamOf(rec) == s && rec in v.bag
    ensures Inv(Move(s, v, Deliver(rec))) <==> rec in Mine(v)
  {
    var v' := Move(s, v, Deliver(rec));
    BagLess(v.bag, multiset(Later(v)), rec);
    if rec in Mine(v) {
      WholeDeliver(v.out, Done(v), Cur(v), Mine(v), v.r, rec);
      InvFrom(v', Done(v), Cur(v), Mine(v) - multiset{rec});
    }
  }

  lemma TrackerInv(s: Stream, v: Sight)
    requires Inv(v)
    ensures Inv(Move(s, v, TrackerOver(s.liid)))
  {
    var v' := Move(s, v, TrackerOver(s.liid));
    SameLives(v, v');
    InvFrom(v', Done(v), Cur(v), Mine(v));
  }

  // The next life of the forwarder can begin only when nothing of the last is under way ...
  lemma ForwardOnly(v: Sight, v': Sight)
    requires Inv(v) && v'.lives == v.lives && v'.at == v.at + 1 && v'.bag == v.bag && v'.out == v.out && Inv(v')
    ensures Mine(v) == multiset{} && v'.r.expected == 0
  {
    NextLife(v.lives, v.at);
    WholeGone(v.out, Done(v), Cur(v), Mine(v), v.r);
    WholeGone(v'.out, Done(v'), Cur(v'), Mine(v'), v'.r);
    WholeNone(Done(v'), Cur(v'), Mine(v'), v'.r);
  }

  // ... and then does, if the reorderer is as a new one.
  lemma ForwardBegins(v: Sight, v': Sight)
    requires Inv(v) && v'.lives == v.lives && v'.at == v.at + 1 && v'.bag == v.bag && v'.out == v.out
    requires Mine(v) == multiset{} && v'.r.expected == 0 && v'.r.pending == map[]
    ensures Inv(v')
  {
    NextLife(v.lives, v.at);
    BagNext(v.bag, Cur(v'), Later(v'));
    AllGone(v);
    assert Numbered(Cur(v')) && |Cur(v')| <= SEQ_MOD;
    WholeStart(Done(v'), Cur(v'), v'.r);
    InvFrom(v', Done(v'), Cur(v'), multiset(Cur(v')));
  }

  lemma ForwarderInv(s: Stream, v: Sight)
    requires Inv(v)
    ensures Inv(Move(s, v, ForwarderOver(s.liid))) <==> Mine(v) == multiset{}
  {
    hide Inv;
    var v' := Move(s, v, ForwarderOver(s.liid));
    if Mine(v) == multiset{} { ForwardBegins(v, v'); } else if Inv(v') { ForwardOnly(v, v'); }
  }

  lemma WithdrawIpInv(s: Stream, v: Sight)
    requires Inv(v)
    ensures Inv(Move(s, v, WithdrawIp(s.liid))) <==> Mine(v) == multiset{} && |Cur(v)| % SEQ_MOD == 0
  {
    hide Inv;
    TrackerInv(s, v);
    UnresetAfter(v, Move(s, v, TrackerOver(s.liid)), Move(s, v, WithdrawIp(s.liid)));
  }

  lemma UnresetAfter(v: Sight, v1: Sight, v': Sight)
    requires Inv(v1) && v1.lives == v.lives + [[]] && v1.at == v.at && v1.bag == v.bag && v' == v1.(at := v.at + 1)
    ensures Inv(v') <==> Mine(v) == multiset{} && |Cur(v)| % SEQ_MOD == 0
  {
    hide Inv;
    SameLives(v, v1);
    Unreset(v1, v');
  }

  lemma SameLives(v: Sight, v': Sight)
    requires v'.lives == v.lives + [[]] && v'.at == v.at && v'.bag == v.bag
    ensures Done(v') == Done(v) && Cur(v') == Cur(v) && Later(v') == Later(v) && Mine(v') == Mine(v)
  {
    MoreLives(v.lives, v.at);
  }

  // The next life with the reorderer of the last.
  lemma Unreset(v: Sight, v': Sight)
    requires Inv(v) && v'.lives == v.lives && v'.at == v.at + 1 && v'.bag == v.bag && v'.out == v.out && v'.r == v.r
    ensures Inv(v') <==> Mine(v) == multiset{} && |Cur(v)| % SEQ_MOD == 0
  {
    hide Inv;
    AllGone(v);
    if Mine(v) == multiset{} && |Cur(v)| % SEQ_MOD == 0 {
      ForwardBegins(v, v');
    } else if Inv(v') {
      ForwardOnly(v, v');
    }
  }

  lemma AllGone(v: Sight)
    requires Inv(v)
    ensures Mine(v) == multiset{} <==> v.out == Done(v) + Cur(v)
    ensures Mine(v) == multiset{} ==> v.r.expected == |Cur(v)| % SEQ_MOD && v.r.pending == map[]
  {
    WholeGone(v.out, Done(v), Cur(v), Mine(v), v.r);
  }

  // Exactly which steps keep the order.
  lemma StepInv(s: Stream, v: Sight, step: Step)
    requires Inv(v) && May(s, v, step)
    ensures Inv(Move(s, v, step)) <==> Orderly(s, v, step)
  {
    hide Inv;
    match step
    case Retable(ints) => RetableInv(s, v, ints);
    case Publish(job) =>
      if Numbers(s, v, job) {
        if v.at + 1 == |v.lives| {
          PublishLast(s, v, job);
        } else if v.at + 1 < |v.lives| {
          PublishLater(s, v, job);
        } else {
          PublishLate(s, v, job);
        }
      }
    case Deliver(rec) => if StreamOf(rec) == s { DeliverInv(s, v, rec); }
    case TrackerOver(liid) => if liid == s.liid { TrackerInv(s, v); }
    case ForwarderOver(liid) => if liid == s.liid { ForwarderInv(s, v); }
    case WithdrawIp(liid) => if liid == s.liid { WithdrawIpInv(s, v); }
  }

  lemma RetableInv(s: Stream, v: Sight, ints: Intercepts)
    requires Inv(v)
    ensures Inv(Move(s, v, Retable(ints)))
  {
    InvFrom(Move(s, v, Retable(ints)), Done(v), Cur(v), Mine(v));
  }

  // ---- Whole runs ----

  predicate AllOrderly(s: Stream, v: Sight, steps: seq<Step>) {
    steps != [] ==>
      var n := |steps| - 1;
      AllOrderly(s, v, steps[..n]) && Orderly(s, MoveAll(s, v, steps[..n]), steps[n])
  }

  ghost predicate InvThroughout(s: Stream, v: Sight, steps: seq<Step>) {
    Inv(MoveAll(s, v, steps)) && (steps != [] ==> InvThroughout(s, v, steps[..|steps| - 1]))
  }

  // The order holds all through a run if and only if each of its steps keeps it.
  lemma {:induction false} RunExactly(s: Stream, v: Sight, steps: seq<Step>)
    requires Inv(v) && MayAll(s, v, steps)
    ensures InvThroughout(s, v, steps) <==> AllOrderly(s, v, steps)
  {
    hide Inv;
    if steps != [] {
      var n := |steps| - 1;
      RunExactly(s, v, steps[..n]);
      var w := MoveAll(s, v, steps[..n]);
      if Inv(w) { StepInv(s, w, steps[n]); }
    }
  }

  // What the invariant says of the records let go.
  lemma InOrder(v: Sight)
    requires Inv(v)
    ensures Done(v) <= v.out <= Done(v) + Cur(v)
    ensures v.bag == multiset{} ==> v.out == Joined(v.lives)
  {
    WholeGone(v.out, Done(v), Cur(v), Mine(v), v.r);
    if v.bag == multiset{} {
      assert |Later(v)| == |multiset(Later(v))| == 0;
      AllLives(v);
    }
  }

  lemma AllLives(v: Sight)
    ensures Done(v) + Cur(v) + Later(v) == Joined(v.lives)
  {
    if v.at < |v.lives| {
      assert v.lives == v.lives[..v.at] + [v.lives[v.at]] + v.lives[v.at + 1..];
      JoinedOne(v.lives[v.at]);
      JoinedConcat(v.lives[..v.at], [v.lives[v.at]]);
      JoinedConcat(v.lives[..v.at] + [v.lives[v.at]], v.lives[v.at + 1..]);
    } else {
      assert v.lives[..|v.lives|] == v.lives;
    }
  }

  // ---- A withdrawal, its two messages apart ----

  // Neither message of a withdrawal of the stream's intercept.
  predicate Between(s: Stream, step: Step) {
    match step
    case TrackerOver(liid) => liid != s.liid
    case ForwarderOver(liid) => liid != s.liid
    case WithdrawIp(liid) => liid != s.liid
    case _ => true
  }

  predicate AllBetween(s: Stream, steps: seq<Step>) {
    forall i :: 0 <= i < |steps| ==> Between(s, steps[i])
  }

  // Tracker and forwarder are at the same life.
  predicate Level(v: Sight) {
    v.at + 1 == |v.lives|
  }

  // A record of a later life has been delivered.
  ghost predicate Short(v: Sight) {
    !(multiset(Later(v)) <= v.bag)
  }

  lemma ShortStays(s: Stream, v: Sight, step: Step)
    requires v.at + 1 < |v.lives| && Between(s, step)
    ensures Move(s, v, step).at == v.at && |Move(s, v, step).lives| == |v.lives|
    ensures Short(v) ==> Short(Move(s, v, step))
  {
    match step
    case Publish(job) =>
      var rec := NextRecord(s, v, job);
      Grows(v.lives, v.at, rec);
      MultisetAppend(Later(v), rec);
      MoreOfBoth(v.bag, multiset(Later(v)), rec);
    case Deliver(rec) => assert v.bag - multiset{rec} <= v.bag;
    case _ =>
  }

  lemma MoreOfBoth(bag: multiset<Record>, later: multiset<Record>, rec: Record)
    ensures later + multiset{rec} <= bag + multiset{rec} <==> later <= bag
  {
    if later + multiset{rec} <= bag + multiset{rec} {
      forall x ensures later[x] <= bag[x] {
        assert (later + multiset{rec})[x] <= (bag + multiset{rec})[x];
      }
    }
  }

  // After the tracker's message the order holds until a record of the new life is delivered, and is
  // lost from then on.
  lemma {:induction false} TrackerAhead(s: Stream, v: Sight, mid: seq<Step>)
    requires Inv(v) && v.at + 1 < |v.lives| && MayAll(s, v, mid) && AllBetween(s, mid)
    ensures var w := MoveAll(s, v, mid);
      w.at == v.at && |w.lives| == |v.lives| && (Inv(w) <==> !Short(w))
  {
    hide Inv, Short;
    NotShort(v);
    if mid != [] {
      var n := |mid| - 1;
      var w := MoveAll(s, v, mid[..n]);
      TrackerAhead(s, v, mid[..n]);
      TrackerAheadStep(s, w, mid[n]);
    }
  }

  lemma NotShort(v: Sight)
    requires Inv(v)
    ensures !Short(v)
  {
  }

  lemma TrackerAheadStep(s: Stream, v: Sight, step: Step)
    requires (Inv(v) <==> !Short(v)) && v.at + 1 < |v.lives| && May(s, v, step) && Between(s, step)
    ensures var v' := Move(s, v, step); v'.at == v.at && |v'.lives| == |v.lives| && (Inv(v') <==> !Short(v'))
  {
    hide Inv, Short, Move;
    ShortStays(s, v, step);
    if Inv(v) {
      StepInv(s, v, step);
      if Orderly(s, v, step) { NotShort(Move(s, v, step)); } else { KeptUnlessShort(s, v, step); }
    } else if Inv(Move(s, v, step)) {
      NotShort(Move(s, v, step));
    }
  }

  lemma KeptUnlessShort(s: Stream, v: Sight, step: Step)
    requires Inv(v) && v.at + 1 < |v.lives| && May(s, v, step) && Between(s, step) && !Orderly(s, v, step)
    ensures Short(Move(s, v, step))
  {
    BagLess(v.bag, multiset(Later(v)), step.rec);
  }

  // The tracker is told first: once the forwarder has been told as well, the order holds if exactly
  // what the tracker has numbered since is under way then; and only if, unless that is 2^32 records
  // or more.
  lemma TrackerFirst(s: Stream, v: Sight, mid: seq<Step>)
    requires Inv(v) && Level(v) && AllBetween(s, mid) && MayAll(s, Move(s, v, TrackerOver(s.liid)), mid)
    ensures var w := MoveAll(s, Move(s, v, TrackerOver(s.liid)), mid);
      var v' := Move(s, w, ForwarderOver(s.liid));
      && Level(v')
      && (w.bag == multiset(Last(w.lives)) ==> Inv(v'))
      && (Inv(v') && |Last(w.lives)| < SEQ_MOD ==> w.bag == multiset(Last(w.lives)))
  {
    hide Inv, Short;
    var v1 := Move(s, v, TrackerOver(s.liid));
    var w := MoveAll(s, v1, mid);
    TrackerInv(s, v);
    TrackerAhead(s, v1, mid);
    SecondMessage(s, w);
  }

  // The forwarder's message, one life behind the tracker.
  lemma SecondMessage(s: Stream, w: Sight)
    requires w.at + 2 == |w.lives| && (Inv(w) <==> !Short(w))
    ensures var v' := Move(s, w, ForwarderOver(s.liid));
      && (w.bag == multiset(Last(w.lives)) ==> Inv(v'))
      && (Inv(v') && |Last(w.lives)| < SEQ_MOD ==> w.bag == multiset(Last(w.lives)))
  {
    hide Inv;
    LastLater(w);
    if w.bag == multiset(Last(w.lives)) { ForwarderInv(s, w); }
    var v' := Move(s, w, ForwarderOver(s.liid));
    if Inv(v') && |Last(w.lives)| < SEQ_MOD {
      LastLater(v');
      AllUnderWay(v');
    }
  }

  lemma AllUnderWay(v: Sight)
    requires Inv(v) && v.r.expected == 0 && v.r.pending == map[] && |Cur(v)| < SEQ_MOD && Later(v) == []
    ensures v.bag == multiset(Cur(v))
  {
    WholeFresh(v.out, Done(v), Cur(v), Mine(v), v.r);
  }

  lemma LastLater(v: Sight)
    ensures v.at + 2 == |v.lives| ==> Later(v) == Last(v.lives)
    ensures v.at + 1 == |v.lives| ==> Later(v) == [] && Cur(v) == Last(v.lives)
  {
    if v.at + 2 == |v.lives| {
      assert v.lives[v.at + 1..] == [Last(v.lives)];
      JoinedOne(Last(v.lives));
    } else if v.at + 1 == |v.lives| {
      assert v.lives[v.at + 1..] == [];
    }
  }

  // ---- The forwarder told first ----

  // Records wait under their own numbers.
  ghost predicate Keyed(r: Reorderer) {
    r.expected < SEQ_MOD && forall k :: k in r.pending ==> r.pending[k].seqno == k
  }

  lemma {:induction false} DrainCounts(r: Reorderer)
    requires Keyed(r)
    ensures Keyed(Drain(r).0) && Drain(r).0.expected == (r.expected + |Drain(r).1|) % SEQ_MOD
    decreases |r.pending|
  {
    if r.expected in r.pending {
      var stored := r.pending[r.expected];
      DrainCounts(r.(expected := Next(stored.seqno), pending := r.pending - {r.expected}));
    }
  }

  // A reorderer's expected number counts what it lets go.
  lemma AcceptCounts(r: Reorderer, rec: Record)
    requires Keyed(r)
    ensures Keyed(Accept(r, rec).0) && Accept(r, rec).0.expected == (r.expected + |Accept(r, rec).1|) % SEQ_MOD
  {
    if rec.seqno == r.expected {
      var r1 := r.(expected := Next(rec.seqno));
      DrainCounts(r1);
      AddResidue(r.expected + 1, |Drain(r1).1|);
    }
  }

  // From a new reorderer on, and while no message of a withdrawal is handled.
  lemma {:induction false} CountsSince(s: Stream, v: Sight, mid: seq<Step>)
    requires Keyed(v.r) && v.r.expected == 0 && AllBetween(s, mid) && v.lives != []
    ensures var w := MoveAll(s, v, mid);
      && w.at == v.at && |w.lives| == |v.lives|
      && Keyed(w.r) && v.out <= w.out && w.r.expected == (|w.out| - |v.out|) % SEQ_MOD
  {
    if mid != [] {
      var n := |mid| - 1;
      CountsSince(s, v, mid[..n]);
      CountsStep(s, MoveAll(s, v, mid[..n]), mid[n], |v.out|);
    }
  }

  lemma CountsStep(s: Stream, v: Sight, step: Step, from: nat)
    requires Keyed(v.r) && Between(s, step) && from <= |v.out| && v.r.expected == (|v.out| - from) % SEQ_MOD
    ensures var w := Move(s, v, step);
      && w.at == v.at && (v.lives != [] ==> |w.lives| == |v.lives|)
      && Keyed(w.r) && v.out <= w.out && w.r.expected == (|w.out| - from) % SEQ_MOD
  {
    hide Keyed, Accept;
    if step.Deliver? && StreamOf(step.rec) == s {
      AcceptCounts(v.r, step.rec);
      AddResidue(|v.out| - from, |Accept(v.r, step.rec).1|);
    }
  }

  lemma AddResidue(x: nat, k: nat)
    ensures (x % SEQ_MOD + k) % SEQ_MOD == (x + k) % SEQ_MOD
  {
    var q := x / SEQ_MOD;
    assert x == q * SEQ_MOD + x % SEQ_MOD;
    SameModulo(x % SEQ_MOD + k, q);
  }

  lemma {:induction false} SameModulo(y: nat, q: nat)
    ensures (q * SEQ_MOD + y) % SEQ_MOD == y % SEQ_MOD
  {
    if q > 0 {
      SameModulo(y, q - 1);
      assert q * SEQ_MOD + y == ((q - 1) * SEQ_MOD + y) + SEQ_MOD;
    }
  }

  // The last life only grows, and the others stay.
  ghost predicate Longer(lives: seq<seq<Record>>, lives': seq<seq<Record>>) {
    && lives != [] && |lives'| == |lives| && lives'[..|lives| - 1] == lives[..|lives| - 1]
    && Last(lives) <= Last(lives')
  }

  lemma LongerStep(s: Stream, v: Sight, step: Step)
    requires v.lives != [] && Between(s, step)
    ensures Longer(v.lives, Move(s, v, step).lives) && Move(s, v, step).at == v.at
    ensures step.Publish? && Numbers(s, v, step.job) ==> |Last(v.lives)| < |Last(Move(s, v, step).lives)|
  {
  }

  lemma {:induction false} LongerAll(s: Stream, v: Sight, mid: seq<Step>)
    requires v.lives != [] && AllBetween(s, mid)
    ensures Longer(v.lives, MoveAll(s, v, mid).lives)
  {
    if mid != [] {
      var n := |mid| - 1;
      LongerAll(s, v, mid[..n]);
      LongerStep(s, MoveAll(s, v, mid[..n]), mid[n]);
    }
  }

  // The forwarder is a life ahead, and the tracker numbers nothing more in its own.
  lemma {:induction false} NothingMore(s: Stream, v: Sight, mid: seq<Step>)
    requires Inv(v) && v.lives != [] && v.at == |v.lives| && MayAll(s, v, mid) && AllBetween(s, mid)
    requires |Last(MoveAll(s, v, mid).lives)| == |Last(v.lives)|
    ensures Inv(MoveAll(s, v, mid)) && MoveAll(s, v, mid).at == v.at && |MoveAll(s, v, mid).lives| == |v.lives|
  {
    hide Inv;
    if mid != [] {
      var n := |mid| - 1;
      var w := MoveAll(s, v, mid[..n]);
      LongerAll(s, v, mid[..n]);
      LongerStep(s, w, mid[n]);
      NothingMore(s, v, mid[..n]);
      StepInv(s, w, mid[n]);
      assert Later(w) == [];
    }
  }

  lemma SameLast(lives: seq<seq<Record>>, lives': seq<seq<Record>>)
    requires Longer(lives, lives')
    ensures Joined(lives') == Joined(lives[..|lives| - 1]) + Last(lives')
    ensures |Last(lives')| == |Last(lives)| ==> lives' == lives
  {
    if |Last(lives')| == |Last(lives)| {
      assert Last(lives') == Last(lives);
      assert lives' == lives'[..|lives| - 1] + [Last(lives')] && lives == lives[..|lives| - 1] + [Last(lives)];
    }
  }

  // The forwarder is told first: once the tracker has been told as well, the order holds if nothing
  // was under way then and nothing has been numbered since; and only if, unless 2^32 records or more
  // were.
  lemma ForwarderFirst(s: Stream, v: Sight, mid: seq<Step>)
    requires Inv(v) && Level(v) && AllBetween(s, mid) && MayAll(s, Move(s, v, ForwarderOver(s.liid)), mid)
    ensures var w := MoveAll(s, Move(s, v, ForwarderOver(s.liid)), mid);
      var v' := Move(s, w, TrackerOver(s.liid));
      && Level(v')
      && (v.bag == multiset{} && w.lives == v.lives ==> Inv(v'))
      && (Inv(v') && |Last(w.lives)| - Gone(v) < SEQ_MOD ==> v.bag == multiset{} && w.lives == v.lives)
  {
    hide Inv, MoveAll;
    var v1 := Move(s, v, ForwarderOver(s.liid));
    var w := MoveAll(s, v1, mid);
    CountsSince(s, v1, mid);
    LongerAll(s, v1, mid);
    if v.bag == multiset{} && w.lives == v.lives { NothingBetween(s, v, mid); }
    NoneOrMany(s, v, w);
  }

  lemma NothingBetween(s: Stream, v: Sight, mid: seq<Step>)
    requires Inv(v) && Level(v) && AllBetween(s, mid) && MayAll(s, Move(s, v, ForwarderOver(s.liid)), mid)
    requires v.bag == multiset{} && MoveAll(s, Move(s, v, ForwarderOver(s.liid)), mid).lives == v.lives
    ensures Inv(Move(s, MoveAll(s, Move(s, v, ForwarderOver(s.liid)), mid), TrackerOver(s.liid)))
  {
    hide Inv;
    LastLater(v);
    ForwarderInv(s, v);
    NothingMore(s, Move(s, v, ForwarderOver(s.liid)), mid);
    TrackerInv(s, MoveAll(s, Move(s, v, ForwarderOver(s.liid)), mid));
  }

  lemma NoneOrMany(s: Stream, v: Sight, w: Sight)
    requires Inv(v) && Level(v) && Longer(v.lives, w.lives) && w.at == |w.lives|
    requires v.out <= w.out && w.r.expected == (|w.out| - |v.out|) % SEQ_MOD
    ensures Inv(Move(s, w, TrackerOver(s.liid))) && |Last(w.lives)| - Gone(v) < SEQ_MOD
      ==> v.bag == multiset{} && w.lives == v.lives
  {
    hide Inv;
    var v' := Move(s, w, TrackerOver(s.liid));
    if Inv(v') && |Last(w.lives)| - Gone(v) < SEQ_MOD { NoneSince(v, w, v'); }
  }

  lemma NoneSince(v: Sight, w: Sight, v': Sight)
    requires Inv(v) && Level(v) && Longer(v.lives, w.lives)
    requires v.out <= w.out && w.r.expected == (|w.out| - |v.out|) % SEQ_MOD
    requires Inv(v') && v'.lives == w.lives + [[]] && v'.at == |w.lives| && v'.r == w.r && v'.out == w.out
    requires |Last(w.lives)| - Gone(v) < SEQ_MOD
    ensures v.bag == multiset{} && w.lives == v.lives
  {
    hide Inv;
    LastLater(v);
    Ended(v, w, v');
    SameLast(v.lives, w.lives);
    InOrder(v);
    AllGone(v);
    assert |w.out| == |Done(v)| + |Last(w.lives)|;
    assert |w.out| == |v.out|;
  }

  lemma Ended(v: Sight, w: Sight, v': Sight)
    requires Inv(v') && v'.lives == w.lives + [[]] && v'.at == |w.lives|
    ensures v'.out == Joined(w.lives) && v'.r.expected == 0
  {
    hide Inv;
    assert v'.lives[..|w.lives|] == w.lives && Cur(v') == [];
    assert Done(v') + [] == Done(v');
    InOrder(v');
    AllGone(v');
  }

  // ---- An IP intercept announced again ----

  // Nothing under way: the reorderer expects the number at which the life has stopped.
  lemma Stopped(v: Sight)
    requires Inv(v) && v.bag == multiset{}
    ensures v.r.expected == |Cur(v)| % SEQ_MOD && v.r.pending == map[]
  {
    hide Inv;
    AllGone(v);
  }

  // The tracker starts over and the forwarder does not know: what arrives of the next life is held
  // back until some record bears the number at which the earlier one stopped, ...
  lemma HeldBack(v: Sight, arrived: seq<Record>)
    requires Inv(v) && v.bag == multiset{}
    ensures Feed(v.r, arrived).1 == [] <==> forall rec :: rec in arrived ==> rec.seqno != |Cur(v)| % SEQ_MOD
  {
    hide Inv;
    Stopped(v);
    Stalled(v.r, arrived);
  }

  // ... so its first record gets through exactly if the earlier life had a multiple of 2^32 records.
  lemma FirstThrough(s: Stream, v: Sight, ints: Intercepts, job: Job)
    requires Inv(v) && v.bag == multiset{} && s.liid in ints && JobStream(job) == s
    ensures var w := Move(s, Move(s, Move(s, v, WithdrawIp(s.liid)), Retable(ints)), Publish(job));
      var rec := NextRecord(s, Move(s, v, WithdrawIp(s.liid)), job);
      && w.bag == multiset{rec} && Last(w.lives) == [rec]
      && (Move(s, w, Deliver(rec)).out != w.out <==> |Cur(v)| % SEQ_MOD == 0)
  {
    hide Inv;
    Stopped(v);
    var rec := NextRecord(s, Move(s, v, WithdrawIp(s.liid)), job);
    assert rec.seqno == 0;
    if Accept(v.r, rec).1 != [] { assert |v.out + Accept(v.r, rec).1| > |v.out|; }
  }

  // Of its records exactly those from that number on get through, as far as they have arrived
  // without a gap, ...
  lemma IpNextLife(v: Sight, next: seq<Record>, js: seq<nat>, arrived: seq<Record>)
    requires Inv(v) && v.bag == multiset{}
    requires Numbered(next) && |next| < SEQ_MOD && Arrivals(next, js, arrived)
    ensures var e := |Cur(v)| % SEQ_MOD;
      Feed(v.r, arrived).1 == if e <= |next| then next[e..FirstGap(Elements(js), e, |next|)] else []
  {
    hide Inv;
    Stopped(v);
    FedFrom(v.r, next, js, arrived);
  }

  lemma FedFrom(r: Reorderer, next: seq<Record>, js: seq<nat>, arrived: seq<Record>)
    requires r.expected < SEQ_MOD && r.pending == map[]
    requires Numbered(next) && |next| < SEQ_MOD && Arrivals(next, js, arrived)
    ensures Feed(r, arrived).1
      == if r.expected <= |next| then next[r.expected..FirstGap(Elements(js), r.expected, |next|)] else []
  {
    if r.expected <= |next| {
      FeedFrom(r, next, js, arrived);
    } else {
      forall rec | rec in arrived ensures rec.seqno != r.expected {
        var k :| 0 <= k < |arrived| && arrived[k] == rec;
        assert rec == next[js[k]];
      }
      Stalled(r, arrived);
    }
  }

  // The numbers of these records follow on each other from e.
  ghost predicate NumberedFrom(recs: seq<Record>, e: nat) {
    forall i :: 0 <= i < |recs| ==> recs[i].seqno == (e + i) % SEQ_MOD
  }

  lemma NumberedJoin(a: seq<Record>, b: seq<Record>, e: nat)
    requires NumberedFrom(a, e) && NumberedFrom(b, (e + |a|) % SEQ_MOD)
    ensures NumberedFrom(a + b, e)
  {
    forall i | 0 <= i < |a + b| ensures (a + b)[i].seqno == (e + i) % SEQ_MOD {
      if |a| <= i {
        assert (a + b)[i] == b[i - |a|];
        AddResidue(e + |a|, i - |a|);
      }
    }
  }

  lemma {:induction false} DrainNumbers(r: Reorderer)
    requires Keyed(r)
    ensures NumberedFrom(Drain(r).1, r.expected)
    decreases |r.pending|
  {
    if r.expected in r.pending {
      var stored := r.pending[r.expected];
      var r1 := r.(expected := Next(stored.seqno), pending := r.pending - {r.expected});
      DrainNumbers(r1);
      NumberedJoin([stored], Drain(r1).1, r.expected);
    }
  }

  lemma AcceptNumbers(r: Reorderer, rec: Record)
    requires Keyed(r)
    ensures NumberedFrom(Accept(r, rec).1, r.expected)
  {
    if rec.seqno == r.expected {
      var r1 := r.(expected := Next(rec.seqno));
      DrainNumbers(r1);
      NumberedJoin([rec], Drain(r1).1, r.expected);
    }
  }

  // ... and however long it lasts, what gets through is numbered on from there.
  lemma {:induction false} NumberedOn(r: Reorderer, arrived: seq<Record>)
    requires Keyed(r)
    ensures var (r', out) := Feed(r, arrived);
      Keyed(r') && r'.expected == (r.expected + |out|) % SEQ_MOD && NumberedFrom(out, r.expected)
  {
    hide Keyed, NumberedFrom, Accept;
    if arrived == [] {
      NoneYet(r);
    } else {
      var n := |arrived| - 1;
      NumberedOn(r, arrived[..n]);
      var (r1, out) := Feed(r, arrived[..n]);
      AcceptCounts(r1, arrived[n]);
      AcceptNumbers(r1, arrived[n]);
      AddResidue(r.expected + |out|, |Accept(r1, arrived[n]).1|);
      NumberedJoin(out, Accept(r1, arrived[n]).1, r.expected);
    }
  }

  lemma NoneYet(r: Reorderer)
    requires Keyed(r)
    ensures r.expected == r.expected % SEQ_MOD && NumberedFrom([], r.expected)
  {
  }
}

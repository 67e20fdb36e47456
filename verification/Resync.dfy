// The collector's tables of IP intercepts, static ranges, core servers and default RADIUS users,
// and their confirmation after the provisioner has been lost and found again.
module Resync {
  datatype StaticRange = StaticRange(cin: nat, awaiting: bool)

  // The stored name of a target; a name that replaced another is freed as soon as it is stored, and
  // once more when it is replaced in its turn or goes with its intercept.
  datatype Name = Known(text: string) | Lost

  datatype IpIntercept = IpIntercept(name: Name, awaiting: bool, statics: map<string, StaticRange>)

  // Core servers and RADIUS users are kept with their flag only.  `refreed` are the intercepts
  // whose name has been freed twice.
  datatype Tables = Tables(
    ints: map<string, IpIntercept>, servers: map<string, bool>, radius: map<string, bool>, refreed: set<string>)

  const EMPTY := Tables(map[], map[], map[], {})

  // What may happen.  `alike` is what comparing the name with freed memory comes out as.
  datatype Event =
    | Disconnect
    | Start(liid: string, username: string, alike: bool)
    | Modify(liid: string, username: string, alike: bool)
    | Halt(liid: string)
    | AddRange(liid: string, range: string, cin: nat)
    | ModifyRange(liid: string, range: string, cin: nat)
    | RemoveRange(liid: string, range: string)
    | AnnounceServer(server: string)
    | WithdrawServer(server: string)
    | AnnounceRadius(user: string)
    | WithdrawRadius(user: string)
    | NoMore

  // ---- The handlers as functions of the tables ----

  function Flagged(flags: map<string, bool>): map<string, bool> {
    map k | k in flags :: true
  }

  function FlaggedRanges(statics: map<string, StaticRange>): map<string, StaticRange> {
    map k | k in statics :: statics[k].(awaiting := true)
  }

  function TouchedIntercept(i: IpIntercept): IpIntercept {
    i.(awaiting := true, statics := FlaggedRanges(i.statics))
  }

  // sync_disconnect_provisioner
  function Touched(t: Tables): Tables {
    Tables(map l | l in t.ints :: TouchedIntercept(t.ints[l]), Flagged(t.servers), Flagged(t.radius), t.refreed)
  }

  function Unflagged(flags: map<string, bool>): map<string, bool> {
    map k | k in flags && !flags[k] :: flags[k]
  }

  function ConfirmedRanges(statics: map<string, StaticRange>): map<string, StaticRange> {
    map k | k in statics && !statics[k].awaiting :: statics[k]
  }

  function ConfirmedIntercept(i: IpIntercept): IpIntercept {
    i.(statics := ConfirmedRanges(i.statics))
  }

  // Freeing an intercept's name frees it again if it is lost.
  function FreeName(i: IpIntercept, l: string): set<string> {
    if i.name.Lost? then {l} else {}
  }

  // disable_unconfirmed_intercepts
  function Purged(t: Tables): Tables {
    Tables(map l | l in t.ints && !t.ints[l].awaiting :: ConfirmedIntercept(t.ints[l]),
           Unflagged(t.servers), Unflagged(t.radius),
           t.refreed + set l | l in t.ints && FreedAtEnd(t, l))
  }

  predicate FreedAtEnd(t: Tables, l: string)
    requires l in t.ints
  {
    t.ints[l].awaiting && t.ints[l].name.Lost?
  }

  predicate SameName(i: IpIntercept, username: string, alike: bool) {
    if i.name.Lost? then alike else i.name.text == username
  }

  // update_modified_intercept, as far as these tables go: a new target ends all ranges, and its
  // name is freed with the message it came in.
  function Retargeted(i: IpIntercept, username: string, alike: bool): IpIntercept {
    if SameName(i, username, alike) then i else i.(name := Lost, statics := map[])
  }

  function FreedByName(t: Tables, l: string, username: string, alike: bool): set<string> {
    if l in t.ints && !SameName(t.ints[l], username, alike) then FreeName(t.ints[l], l) else {}
  }

  // One message, and whether it was handled; if not, the provisioner is disconnected.
  function Handle(t: Tables, e: Event): (Tables, bool) {
    match e
    case Disconnect => (Touched(t), true)
    case Start(l, u, alike) =>
      (t.(ints := t.ints[l := if l in t.ints then Retargeted(t.ints[l], u, alike).(awaiting := false)
                              else IpIntercept(Known(u), false, map[])],
          refreed := t.refreed + FreedByName(t, l, u, alike)), true)
    case Modify(l, u, alike) =>
      (t.(ints := t.ints[l := if l in t.ints then Retargeted(t.ints[l], u, alike)
                              else IpIntercept(Known(u), false, map[])],
          refreed := t.refreed + FreedByName(t, l, u, alike)), true)
    case Halt(l) =>
      if l !in t.ints then (t, false)
      else (t.(ints := t.ints - {l}, refreed := t.refreed + FreeName(t.ints[l], l)), true)
    case AddRange(l, r, cin) =>
      if l !in t.ints then (t, false)
      else
        var s := t.ints[l].statics;
        var s' := if r in s then s[r := s[r].(awaiting := false)] else s[r := StaticRange(cin, false)];
        (t.(ints := t.ints[l := t.ints[l].(statics := s')]), true)
    case ModifyRange(l, r, cin) =>
      if l !in t.ints then (t, false)
      else
        var s := t.ints[l].statics;
        (if r in s then t.(ints := t.ints[l := t.ints[l].(statics := s[r := s[r].(cin := cin)])]) else t, true)
    case RemoveRange(l, r) =>
      if l !in t.ints then (t, false)
      else (t.(ints := t.ints[l := t.ints[l].(statics := t.ints[l].statics - {r})]), true)
    case AnnounceServer(k) => (t.(servers := t.servers[k := false]), true)
    case WithdrawServer(k) => (t.(servers := t.servers - {k}), true)
    case AnnounceRadius(n) => (t.(radius := t.radius[n := false]), true)
    case WithdrawRadius(n) => (t.(radius := t.radius - {n}), true)
    case NoMore => (Purged(t), true)
  }

  function Step(t: Tables, e: Event): Tables {
    var (t', ok) := Handle(t, e);
    if ok then t' else Touched(t')
  }

  // ---- What the collector has been told ----

  predicate Understood(known: set<string>, e: Event) {
    e.Halt? || e.AddRange? || e.ModifyRange? || e.RemoveRange? ==> e.liid in known
  }

  // The targets named since their intercepts began, those that were changed, and the intercepts not
  // announced again since the last disconnection.
  datatype History = History(names: map<string, string>, changed: set<string>, waits: set<string>)

  function Renamed(h: History, l: string, u: string): History {
    h.(names := h.names[l := u],
       changed := if l in h.names && h.names[l] != u then h.changed + {l} else h.changed)
  }

  // A modification leaves an intercept waiting, and the end of the list ends what waits.
  function Recall(h: History, e: Event): History {
    if !Understood(h.names.Keys, e) then h.(waits := h.names.Keys)
    else
      match e
      case Disconnect => h.(waits := h.names.Keys)
      case Start(l, u, _) => Renamed(h, l, u).(waits := h.waits - {l})
      case Modify(l, u, _) => Renamed(h, l, u)
      case Halt(l) => History(h.names - {l}, h.changed - {l}, h.waits - {l})
      case NoMore => History(h.names - h.waits, h.changed - h.waits, {})
      case _ => h
  }

  // The stored name is the one last named, unless the target was changed.
  predicate NameMatches(i: IpIntercept, username: string, changed: bool) {
    if changed then i.name.Lost? else i.name == Known(username)
  }

  ghost predicate Recorded(t: Tables, h: History, l: string) {
    && (l in t.ints <==> l in h.names) && (l in h.changed ==> l in h.names) && (l in h.waits ==> l in h.names)
    && (l in h.names ==>
          (t.ints[l].awaiting <==> l in h.waits) && NameMatches(t.ints[l], h.names[l], l in h.changed))
  }

  ghost predicate NamesMatch(t: Tables, h: History) {
    forall l :: Recorded(t, h, l)
  }

  // An intercept whose target was changed is withdrawn, goes with the end of the list, or is named
  // again while freed memory no longer compares as the name it held.
  predicate FreesAgain(h: History, e: Event) {
    match e
    case Halt(l) => l in h.changed
    case NoMore => exists l :: l in h.changed && l in h.waits
    case Start(l, _, alike) => l in h.changed && !alike
    case Modify(l, _, alike) => l in h.changed && !alike
    case _ => false
  }

  lemma TouchedNames(t: Tables, h: History)
    requires NamesMatch(t, h)
    ensures NamesMatch(Touched(t), h.(waits := h.names.Keys))
  {
    forall l ensures Recorded(Touched(t), h.(waits := h.names.Keys), l) {
      assert Recorded(t, h, l);
    }
  }

  lemma PurgedNames(t: Tables, h: History)
    requires NamesMatch(t, h)
    ensures NamesMatch(Purged(t), Recall(h, NoMore))
    ensures t.refreed == {} ==> (Purged(t).refreed != {} <==> FreesAgain(h, NoMore))
  {
    forall l
      ensures Recorded(Purged(t), Recall(h, NoMore), l)
      ensures l in Purged(t).refreed <==> l in t.refreed || (l in h.changed && l in h.waits)
    {
      assert Recorded(t, h, l);
    }
  }

  // An event about one intercept.
  lemma OneName(t: Tables, h: History, e: Event)
    requires NamesMatch(t, h) && Understood(h.names.Keys, e)
    requires e.Start? || e.Modify? || e.Halt? || e.AddRange? || e.ModifyRange? || e.RemoveRange?
    ensures NamesMatch(Handle(t, e).0, Recall(h, e))
    ensures t.refreed == {} ==> (Handle(t, e).0.refreed != {} <==> FreesAgain(h, e))
  {
    var t', h' := Handle(t, e).0, Recall(h, e);
    assert Recorded(t, h, e.liid);
    forall l ensures Recorded(t', h', l) {
      assert Recorded(t, h, l);
    }
  }

  lemma OtherTables(t: Tables, h: History, e: Event)
    requires NamesMatch(t, h)
    requires e.AnnounceServer? || e.WithdrawServer? || e.AnnounceRadius? || e.WithdrawRadius?
    ensures NamesMatch(Handle(t, e).0, Recall(h, e)) && Handle(t, e).0.refreed == t.refreed
  {
    forall l ensures Recorded(Handle(t, e).0, Recall(h, e), l) {
      assert Recorded(t, h, l);
    }
  }

  lemma UnderstoodHandled(t: Tables, h: History, e: Event)
    requires NamesMatch(t, h)
    ensures Understood(h.names.Keys, e) <==> Handle(t, e).1
    ensures !Understood(h.names.Keys, e) ==> Handle(t, e).0 == t
  {
    if e.Halt? || e.AddRange? || e.ModifyRange? || e.RemoveRange? {
      assert Recorded(t, h, e.liid);
    }
  }

  // The tables go with the history whatever happens, and an event frees a name again exactly in
  // the cases above.
  lemma StepFrees(t: Tables, h: History, e: Event)
    requires NamesMatch(t, h)
    ensures NamesMatch(Step(t, e), Recall(h, e))
    ensures t.refreed <= Step(t, e).refreed && (t.refreed == {} ==> (Step(t, e).refreed != {} <==> FreesAgain(h, e)))
  {
    UnderstoodHandled(t, h, e);
    if !Understood(h.names.Keys, e) {
      assert Recorded(t, h, e.liid);
      TouchedNames(t, h);
    } else {
      match e
      case Disconnect => TouchedNames(t, h);
      case NoMore => PurgedNames(t, h);
      case AnnounceServer(_) => OtherTables(t, h, e);
      case WithdrawServer(_) => OtherTables(t, h, e);
      case AnnounceRadius(_) => OtherTables(t, h, e);
      case WithdrawRadius(_) => OtherTables(t, h, e);
      case _ => OneName(t, h, e);
    }
  }

  // ---- What the provisioner has announced ----

  datatype Target = Target(username: string, ranges: set<string>)

  // The intercepts announced and not withdrawn since the last disconnection, with their ranges; and
  // those held from before it and not announced again yet, with the ranges announced early.
  datatype Announced = Announced(
    ints: map<string, Target>, held: map<string, Target>, servers: set<string>, radius: set<string>)

  const SILENCE := Announced(map[], map[], {}, {})

  predicate Has(a: Announced, l: string) {
    l in a.ints || l in a.held
  }

  function TargetOf(a: Announced, l: string): Target
    requires Has(a, l)
  {
    if l in a.ints then a.ints[l] else a.held[l]
  }

  // Naming an intercept's target; ranges announced for another target do not carry over.
  function Named(a: Announced, l: string, u: string): Announced {
    var same := Has(a, l) && TargetOf(a, l).username == u;
    a.(ints := a.ints[l := if same then TargetOf(a, l) else Target(u, {})], held := a.held - {l})
  }

  function WithRanges(a: Announced, l: string, ranges: set<string>): Announced
    requires Has(a, l)
  {
    if l in a.ints then a.(ints := a.ints[l := a.ints[l].(ranges := ranges)])
    else a.(held := a.held[l := a.held[l].(ranges := ranges)])
  }

  // The provisioner is gone: everything has to be announced again.
  function Dropped(a: Announced): Announced {
    Announced(map[], map l | l in a.held.Keys + a.ints.Keys :: Target(TargetOf(a, l).username, {}), {}, {})
  }

  // What has been announced and not withdrawn since the last disconnection, whether it was asked
  // for or came of a message that was not understood.
  function Announce(a: Announced, e: Event): Announced {
    if !Understood(a.held.Keys + a.ints.Keys, e) then Dropped(a)
    else
      match e
      case Disconnect => Dropped(a)
      case Start(l, u, _) => Named(a, l, u)
      case Modify(l, u, _) => Named(a, l, u)
      case Halt(l) => a.(ints := a.ints - {l}, held := a.held - {l})
      case AddRange(l, r, _) => WithRanges(a, l, TargetOf(a, l).ranges + {r})
      case ModifyRange(_, _, _) => a
      case RemoveRange(l, r) => WithRanges(a, l, TargetOf(a, l).ranges - {r})
      case AnnounceServer(k) => a.(servers := a.servers + {k})
      case WithdrawServer(k) => a.(servers := a.servers - {k})
      case AnnounceRadius(n) => a.(radius := a.radius + {n})
      case WithdrawRadius(n) => a.(radius := a.radius - {n})
      case NoMore => a.(held := map[])
  }

  // ---- Tables against announcements ----

  ghost predicate FlagsMatch(flags: map<string, bool>, names: set<string>) {
    forall k :: k in names <==> k in flags && !flags[k]
  }

  ghost predicate RangesMatch(statics: map<string, StaticRange>, ranges: set<string>) {
    forall r :: r in ranges <==> r in statics && !statics[r].awaiting
  }

  // An intercept that is held waits; one that was announced may wait still, if only modified.
  ghost predicate Agrees(a: Announced, h: History, l: string) {
    && (Has(a, l) <==> l in h.names) && !(l in a.ints && l in a.held) && (l in a.held ==> l in h.waits)
    && (Has(a, l) ==> TargetOf(a, l).username == h.names[l])
  }

  ghost predicate InterceptMatches(t: Tables, a: Announced, h: History, l: string) {
    && Recorded(t, h, l) && Agrees(a, h, l)
    && (Has(a, l) ==> RangesMatch(t.ints[l].statics, TargetOf(a, l).ranges))
  }

  // Tables and announcements are in step, and no name has been freed twice.
  ghost predicate Inv(t: Tables, a: Announced, h: History) {
    && (forall l :: InterceptMatches(t, a, h, l))
    && FlagsMatch(t.servers, a.servers) && FlagsMatch(t.radius, a.radius)
    && t.refreed == {}
  }

  // The list ends while an intercept that was announced still waits.
  predicate DropsAnnounced(a: Announced, h: History, e: Event) {
    e.NoMore? && exists l :: l in a.ints && l in h.waits
  }

  // An intercept whose target was changed is named by another target while it has ranges, and
  // freed memory compares as equal, so that the ranges stay.
  predicate KeepsStale(a: Announced, h: History, e: Event) {
    && (e.Start? || e.Modify?) && e.liid in h.changed && e.alike
    && Has(a, e.liid) && TargetOf(a, e.liid).ranges != {} && e.username != TargetOf(a, e.liid).username
  }

  // Exactly the events that keep tables and announcements in step and free no name twice.
  predicate InStep(a: Announced, h: History, e: Event) {
    !DropsAnnounced(a, h, e) && !FreesAgain(h, e) && !KeepsStale(a, h, e)
  }

  lemma InvNames(t: Tables, a: Announced, h: History)
    requires Inv(t, a, h)
    ensures NamesMatch(t, h)
    ensures forall e :: Understood(a.held.Keys + a.ints.Keys, e) <==> Understood(h.names.Keys, e)
  {
    forall l ensures Recorded(t, h, l) && (Has(a, l) <==> l in h.names) {
      assert InterceptMatches(t, a, h, l);
    }
  }

  lemma TouchedInv(t: Tables, a: Announced, h: History)
    requires Inv(t, a, h)
    ensures Inv(Touched(t), Dropped(a), h.(waits := h.names.Keys))
  {
    forall l ensures InterceptMatches(Touched(t), Dropped(a), h.(waits := h.names.Keys), l) {
      assert InterceptMatches(t, a, h, l);
    }
  }

  ghost predicate SameFor(a: Announced, a': Announced, h: History, h': History, k: string) {
    && (k in a'.ints <==> k in a.ints) && (k in a.ints ==> a'.ints[k] == a.ints[k])
    && (k in a'.held <==> k in a.held) && (k in a.held ==> a'.held[k] == a.held[k])
    && (k in h'.names <==> k in h.names) && (k in h.names ==> h'.names[k] == h.names[k])
    && (k in h'.changed <==> k in h.changed) && (k in h'.waits <==> k in h.waits)
  }

  // Events about one intercept leave the others alone.
  lemma OneIntercept(t: Tables, a: Announced, h: History, t': Tables, a': Announced, h': History, l: string)
    requires Inv(t, a, h)
    requires t'.servers == t.servers && t'.radius == t.radius && a'.servers == a.servers && a'.radius == a.radius
    requires forall k :: k != l ==> (k in t'.ints <==> k in t.ints) && (k in t.ints ==> t'.ints[k] == t.ints[k])
    requires forall k :: k != l ==> SameFor(a, a', h, h', k)
    ensures Inv(t', a', h') <==> InterceptMatches(t', a', h', l) && t'.refreed == {}
  {
    forall k | k != l ensures InterceptMatches(t', a', h', k) {
      assert InterceptMatches(t, a, h, k) && SameFor(a, a', h, h', k);
    }
  }

  lemma AddEvent(t: Tables, a: Announced, h: History, e: Event)
    requires Inv(t, a, h) && e.AddRange? && Has(a, e.liid)
    ensures Inv(Handle(t, e).0, Announce(a, e), h)
  {
    assert InterceptMatches(t, a, h, e.liid);
    OneIntercept(t, a, h, Handle(t, e).0, Announce(a, e), h, e.liid);
  }

  lemma ChangeEvent(t: Tables, a: Announced, h: History, e: Event)
    requires Inv(t, a, h) && e.ModifyRange? && Has(a, e.liid)
    ensures Inv(Handle(t, e).0, Announce(a, e), h)
  {
    assert InterceptMatches(t, a, h, e.liid);
    OneIntercept(t, a, h, Handle(t, e).0, Announce(a, e), h, e.liid);
  }

  lemma RemoveEvent(t: Tables, a: Announced, h: History, e: Event)
    requires Inv(t, a, h) && e.RemoveRange? && Has(a, e.liid)
    ensures Inv(Handle(t, e).0, Announce(a, e), h)
  {
    assert InterceptMatches(t, a, h, e.liid);
    OneIntercept(t, a, h, Handle(t, e).0, Announce(a, e), h, e.liid);
  }

  lemma HaltEvent(t: Tables, a: Announced, h: History, e: Event)
    requires Inv(t, a, h) && e.Halt? && Has(a, e.liid)
    ensures Inv(Handle(t, e).0, Announce(a, e), Recall(h, e)) <==> InStep(a, h, e)
  {
    assert InterceptMatches(t, a, h, e.liid);
    OneIntercept(t, a, h, Handle(t, e).0, Announce(a, e), Recall(h, e), e.liid);
  }

  // A range set that differs from the announced one.
  lemma RangesApart(statics: map<string, StaticRange>, ranges: set<string>, ranges': set<string>)
    requires RangesMatch(statics, ranges)
    ensures RangesMatch(statics, ranges') <==> ranges' == ranges
  {
    if RangesMatch(statics, ranges') {
      assert forall r :: r in ranges' <==> r in ranges;
    }
  }

  // One intercept's table entry and announcement after its target has been named.
  lemma NamedRanges(i: IpIntercept, target: Target, changed: bool, u: string, alike: bool)
    requires NameMatches(i, target.username, changed) && RangesMatch(i.statics, target.ranges)
    ensures RangesMatch(Retargeted(i, u, alike).statics, if u == target.username then target.ranges else {})
            && (SameName(i, u, alike) || !i.name.Lost?)
      <==> !changed || (alike && (target.ranges == {} || u == target.username))
    ensures NameMatches(Retargeted(i, u, alike), u, changed || u != target.username)
  {
    RangesApart(i.statics, target.ranges, {});
    RangesApart(map[], {}, target.ranges);
  }

  lemma TargetEvent(t: Tables, a: Announced, h: History, e: Event)
    requires Inv(t, a, h) && (e.Start? || e.Modify?)
    ensures Inv(Handle(t, e).0, Announce(a, e), Recall(h, e)) <==> InStep(a, h, e)
  {
    hide InterceptMatches;
    var l := e.liid;
    assert InterceptMatches(t, a, h, l);
    OneIntercept(t, a, h, Handle(t, e).0, Announce(a, e), Recall(h, e), l);
    if Has(a, l) { TargetKnown(t, a, h, e); } else { TargetNew(t, a, h, e); }
  }

  lemma TargetRecorded(t: Tables, h: History, e: Event)
    requires (e.Start? || e.Modify?) && e.liid in h.names && Recorded(t, h, e.liid)
    ensures var t' := Handle(t, e).0;
      && Recorded(t', Recall(h, e), e.liid)
      && t'.ints[e.liid].statics == Retargeted(t.ints[e.liid], e.username, e.alike).statics
      && t'.refreed == t.refreed + FreedByName(t, e.liid, e.username, e.alike)
  {
  }

  lemma TargetAgrees(a: Announced, h: History, e: Event)
    requires (e.Start? || e.Modify?) && Has(a, e.liid) && Agrees(a, h, e.liid)
    ensures var a' := Announce(a, e);
      && Agrees(a', Recall(h, e), e.liid) && Has(a', e.liid)
      && TargetOf(a', e.liid).ranges
         == if e.username == TargetOf(a, e.liid).username then TargetOf(a, e.liid).ranges else {}
  {
  }

  // The intercept itself, if there is one by that LIID, ...
  lemma TargetKnown(t: Tables, a: Announced, h: History, e: Event)
    requires (e.Start? || e.Modify?) && Has(a, e.liid) && InterceptMatches(t, a, h, e.liid) && t.refreed == {}
    ensures InterceptMatches(Handle(t, e).0, Announce(a, e), Recall(h, e), e.liid) && Handle(t, e).0.refreed == {}
      <==> InStep(a, h, e)
  {
    var l := e.liid;
    NamedRanges(t.ints[l], TargetOf(a, l), l in h.changed, e.username, e.alike);
    TargetRecorded(t, h, e);
    TargetAgrees(a, h, e);
    hide Recorded, Agrees, Handle, Announce, Recall;
  }

  // ... or if there is none.
  lemma TargetNew(t: Tables, a: Announced, h: History, e: Event)
    requires (e.Start? || e.Modify?) && !Has(a, e.liid) && InterceptMatches(t, a, h, e.liid) && t.refreed == {}
    ensures InterceptMatches(Handle(t, e).0, Announce(a, e), Recall(h, e), e.liid) && Handle(t, e).0.refreed == {}
    ensures InStep(a, h, e)
  {
  }

  lemma PurgedInv(t: Tables, a: Announced, h: History)
    requires Inv(t, a, h)
    ensures Inv(Purged(t), Announce(a, NoMore), Recall(h, NoMore)) <==> InStep(a, h, NoMore)
  {
    InvNames(t, a, h);
    PurgedNames(t, h);
    forall l
      ensures InterceptMatches(Purged(t), Announce(a, NoMore), Recall(h, NoMore), l) <==> !(l in a.ints && l in h.waits)
    {
      assert InterceptMatches(t, a, h, l);
    }
  }

  lemma SameIntercepts(t: Tables, a: Announced, h: History, t': Tables, a': Announced)
    requires Inv(t, a, h) && t'.ints == t.ints && a'.ints == a.ints && a'.held == a.held
    ensures forall l :: InterceptMatches(t', a', h, l)
  {
    forall l ensures InterceptMatches(t', a', h, l) {
      assert InterceptMatches(t, a, h, l);
    }
  }

  // Every event keeps tables and announcements in step if and only if it is one of those above.
  lemma StepInStep(t: Tables, a: Announced, h: History, e: Event)
    requires Inv(t, a, h)
    ensures Inv(Step(t, e), Announce(a, e), Recall(h, e)) <==> InStep(a, h, e)
  {
    hide InterceptMatches;
    InvNames(t, a, h);
    UnderstoodHandled(t, h, e);
    if !Understood(h.names.Keys, e) {
      NotStale(t, a, h, e);
      TouchedInv(t, a, h);
    } else {
      match e
      case Disconnect => TouchedInv(t, a, h);
      case NoMore => PurgedInv(t, a, h);
      case AnnounceServer(_) => SameIntercepts(t, a, h, Handle(t, e).0, Announce(a, e));
      case WithdrawServer(_) => SameIntercepts(t, a, h, Handle(t, e).0, Announce(a, e));
      case AnnounceRadius(_) => SameIntercepts(t, a, h, Handle(t, e).0, Announce(a, e));
      case WithdrawRadius(_) => SameIntercepts(t, a, h, Handle(t, e).0, Announce(a, e));
      case Start(_, _, _) => TargetEvent(t, a, h, e);
      case Modify(_, _, _) => TargetEvent(t, a, h, e);
      case Halt(_) => HaltEvent(t, a, h, e);
      case AddRange(_, _, _) => AddEvent(t, a, h, e);
      case ModifyRange(_, _, _) => ChangeEvent(t, a, h, e);
      case RemoveRange(_, _) => RemoveEvent(t, a, h, e);
    }
  }

  // A message that is not understood frees nothing.
  lemma NotStale(t: Tables, a: Announced, h: History, e: Event)
    requires Inv(t, a, h) && !Understood(h.names.Keys, e)
    ensures InStep(a, h, e)
  {
    assert InterceptMatches(t, a, h, e.liid);
  }

  // ---- Whole runs ----

  function TablesAfter(es: seq<Event>): Tables {
    if es == [] then EMPTY else Step(TablesAfter(es[..|es| - 1]), es[|es| - 1])
  }

  function AnnouncedAfter(es: seq<Event>): Announced {
    if es == [] then SILENCE else Announce(AnnouncedAfter(es[..|es| - 1]), es[|es| - 1])
  }

  function HistoryAfter(es: seq<Event>): History {
    if es == [] then History(map[], {}, {}) else Recall(HistoryAfter(es[..|es| - 1]), es[|es| - 1])
  }

  ghost predicate NeverFreesAgain(es: seq<Event>) {
    es != [] ==>
      var n := |es| - 1;
      NeverFreesAgain(es[..n]) && !FreesAgain(HistoryAfter(es[..n]), es[n])
  }

  // Over every run no name is freed twice if and only if no event frees one again.
  lemma {:induction false} RunFrees(es: seq<Event>)
    ensures NamesMatch(TablesAfter(es), HistoryAfter(es))
    ensures TablesAfter(es).refreed == {} <==> NeverFreesAgain(es)
  {
    if es != [] {
      var n := |es| - 1;
      RunFrees(es[..n]);
      StepFrees(TablesAfter(es[..n]), HistoryAfter(es[..n]), es[n]);
    }
  }

  predicate AllInStep(es: seq<Event>) {
    forall i :: 0 <= i < |es| ==> InStep(AnnouncedAfter(es[..i]), HistoryAfter(es[..i]), es[i])
  }

  ghost predicate InvAfter(es: seq<Event>) {
    Inv(TablesAfter(es), AnnouncedAfter(es), HistoryAfter(es))
  }

  // Tables and announcements have been in step all along.
  ghost predicate InStepThroughout(es: seq<Event>) {
    forall i :: 0 <= i <= |es| ==> InvAfter(es[..i])
  }

  lemma {:induction false} RunInv(es: seq<Event>)
    requires AllInStep(es)
    ensures InvAfter(es)
  {
    hide Inv, InStep;
    if es == [] {
      StartInv();
    } else {
      var n := |es| - 1;
      assert forall i :: 0 <= i < n ==> es[..n][..i] == es[..i];
      RunInv(es[..n]);
      StepInStep(TablesAfter(es[..n]), AnnouncedAfter(es[..n]), HistoryAfter(es[..n]), es[n]);
    }
  }

  lemma StartInv()
    ensures InvAfter([])
  {
  }

  // They are, over a whole run, if and only if each of its events is one that keeps them so.
  lemma RunInStep(es: seq<Event>)
    ensures InStepThroughout(es) <==> AllInStep(es)
  {
    hide Inv, InStep;
    if AllInStep(es) {
      forall i | 0 <= i <= |es| ensures InvAfter(es[..i]) {
        assert forall k :: 0 <= k < i ==> es[..i][..k] == es[..k];
        RunInv(es[..i]);
      }
    }
    if InStepThroughout(es) {
      forall i | 0 <= i < |es| ensures InStep(AnnouncedAfter(es[..i]), HistoryAfter(es[..i]), es[i]) {
        assert es[..i + 1][..i] == es[..i];
        StepInStep(TablesAfter(es[..i]), AnnouncedAfter(es[..i]), HistoryAfter(es[..i]), es[i]);
        assert InvAfter(es[..i]) && InvAfter(es[..i + 1]);
      }
    }
  }

  // ---- After the end of the list ----

  // The tables hold exactly what has been announced.
  ghost predicate ExactIntercepts(t: Tables, a: Announced, changed: set<string>) {
    && t.ints.Keys == a.ints.Keys
    && forall l :: l in t.ints ==>
         && t.ints[l].statics.Keys == a.ints[l].ranges
         && NameMatches(t.ints[l], a.ints[l].username, l in changed)
  }

  ghost predicate Exactly(t: Tables, a: Announced, changed: set<string>) {
    ExactIntercepts(t, a, changed) && t.servers.Keys == a.servers && t.radius.Keys == a.radius
  }

  lemma PurgedFlags(flags: map<string, bool>, names: set<string>)
    requires FlagsMatch(flags, names)
    ensures Unflagged(flags).Keys == names
  {
  }

  lemma PurgedRanges(statics: map<string, StaticRange>, ranges: set<string>)
    requires RangesMatch(statics, ranges)
    ensures ConfirmedRanges(statics).Keys == ranges
  {
  }

  lemma PurgedIntercept(t: Tables, a: Announced, h: History, l: string)
    requires InterceptMatches(t, a, h, l)
    ensures l in Purged(t).ints <==> l in a.ints && l !in h.waits
    ensures l in a.ints && l !in h.waits ==>
      && Purged(t).ints[l].statics.Keys == a.ints[l].ranges
      && NameMatches(Purged(t).ints[l], a.ints[l].username, l in h.changed)
  {
    if l in a.ints && l !in h.waits { PurgedRanges(t.ints[l].statics, a.ints[l].ranges); }
  }

  lemma PurgedExactly(t: Tables, a: Announced, h: History)
    requires Inv(t, a, h)
    ensures Exactly(Purged(t), a, h.changed) <==> !DropsAnnounced(a, h, NoMore)
  {
    PurgedFlags(t.servers, a.servers);
    PurgedFlags(t.radius, a.radius);
    forall l
      ensures l in Purged(t).ints <==> l in a.ints && l !in h.waits
      ensures l in Purged(t).ints ==> Purged(t).ints[l].statics.Keys == a.ints[l].ranges
      ensures l in Purged(t).ints ==> NameMatches(Purged(t).ints[l], a.ints[l].username, l in h.changed)
    {
      assert InterceptMatches(t, a, h, l);
      PurgedIntercept(t, a, h, l);
    }
  }

  // Right after the end of the list, the tables hold exactly what has been announced and not
  // withdrawn since the last disconnection, if and only if nothing of it still waits then.
  lemma ConfirmedExactly(es: seq<Event>)
    requires AllInStep(es)
    ensures Exactly(Step(TablesAfter(es), NoMore), AnnouncedAfter(es), HistoryAfter(es).changed)
      <==> !DropsAnnounced(AnnouncedAfter(es), HistoryAfter(es), NoMore)
    ensures Step(TablesAfter(es), NoMore).refreed == {} <==> !FreesAgain(HistoryAfter(es), NoMore)
  {
    RunInv(es);
    PurgedExactly(TablesAfter(es), AnnouncedAfter(es), HistoryAfter(es));
    RunFrees(es);
    StepFrees(TablesAfter(es), HistoryAfter(es), NoMore);
  }

  // A range announced before its intercept survives the end of the list if and only if the
  // intercept is announced again with the target it had, or, if its name was freed, freed memory
  // compares as equal; whatever has happened before.
  lemma EarlyRange(es: seq<Event>, l: string, r: string, cin: nat, u: string, alike: bool)
    requires l in HistoryAfter(es).waits
    ensures l in HistoryAfter(es).names
    ensures var t := Step(Step(Step(TablesAfter(es), AddRange(l, r, cin)), Start(l, u, alike)), NoMore);
      && l in t.ints
      && (r in t.ints[l].statics
          <==> if l in HistoryAfter(es).changed then alike else u == HistoryAfter(es).names[l])
  {
    RunFrees(es);
    assert Recorded(TablesAfter(es), HistoryAfter(es), l);
    EarlyRangeFrom(TablesAfter(es), l, r, cin, u, alike);
  }

  lemma EarlyRangeFrom(t: Tables, l: string, r: string, cin: nat, u: string, alike: bool)
    requires l in t.ints
    ensures var t' := Step(Step(Step(t, AddRange(l, r, cin)), Start(l, u, alike)), NoMore);
      l in t'.ints && (r in t'.ints[l].statics <==> SameName(t.ints[l], u, alike))
  {
    var t1 := Step(t, AddRange(l, r, cin));
    assert t1.ints[l].name == t.ints[l].name && r in t1.ints[l].statics && !t1.ints[l].statics[r].awaiting;
    var t2 := Step(t1, Start(l, u, alike));
    assert !t2.ints[l].awaiting;
    assert t2.ints[l].statics == if SameName(t.ints[l], u, alike) then t1.ints[l].statics else map[];
  }

  // ---- CINs ----

  predicate HasRange(t: Tables, l: string, r: string) {
    l in t.ints && r in t.ints[l].statics
  }

  function StoredCin(t: Tables, l: string, r: string): nat
    requires HasRange(t, l, r)
  {
    t.ints[l].statics[r].cin
  }

  lemma StepCin(t: Tables, e: Event, l: string, r: string)
    requires HasRange(Step(t, e), l, r)
    ensures HasRange(t, l, r) || (e.AddRange? && e.liid == l && e.range == r)
    ensures StoredCin(Step(t, e), l, r)
      == if e.ModifyRange? && e.liid == l && e.range == r then e.cin
         else if HasRange(t, l, r) then StoredCin(t, l, r)
         else e.cin
  {
  }

  // The CIN of the range's first announcement, or its latest modification, since it was last away.
  function CinSince(es: seq<Event>, l: string, r: string): nat {
    if es == [] then 0
    else
      var n, e := |es| - 1, es[|es| - 1];
      if e.ModifyRange? && e.liid == l && e.range == r then e.cin
      else if e.AddRange? && e.liid == l && e.range == r && !HasRange(TablesAfter(es[..n]), l, r) then e.cin
      else CinSince(es[..n], l, r)
  }

  // Over every run that is the one stored.
  lemma {:induction false} CinStored(es: seq<Event>, l: string, r: string)
    requires HasRange(TablesAfter(es), l, r)
    ensures StoredCin(TablesAfter(es), l, r) == CinSince(es, l, r)
  {
    var n := |es| - 1;
    StepCin(TablesAfter(es[..n]), es[n], l, r);
    if HasRange(TablesAfter(es[..n]), l, r) { CinStored(es[..n], l, r); }
  }

  // The event tells the CIN of a range.
  predicate Tells(e: Event, l: string, r: string) {
    (e.AddRange? || e.ModifyRange?) && e.liid == l && e.range == r
  }

  // What was told last is what is stored, if and only if it was a modification, or the range was
  // not there, or had that CIN already.
  lemma {:induction false} LatestCin(es: seq<Event>, i: nat, l: string, r: string)
    requires i < |es| && Tells(es[i], l, r) && forall k :: i < k < |es| ==> !Tells(es[k], l, r)
    requires HasRange(TablesAfter(es), l, r)
    ensures StoredCin(TablesAfter(es), l, r) == es[i].cin
      <==> es[i].ModifyRange? || !HasRange(TablesAfter(es[..i]), l, r) || CinSince(es[..i], l, r) == es[i].cin
  {
    var n := |es| - 1;
    StepCin(TablesAfter(es[..n]), es[n], l, r);
    if i == n {
      if HasRange(TablesAfter(es[..n]), l, r) { CinStored(es[..n], l, r); }
    } else {
      assert !Tells(es[n], l, r);
      assert es[..n][..i] == es[..i];
      LatestCin(es[..n], i, l, r);
    }
  }

  // ---- Runs that get out of step ----

  lemma AfterNext(es: seq<Event>, e: Event)
    ensures TablesAfter(es + [e]) == Step(TablesAfter(es), e)
    ensures AnnouncedAfter(es + [e]) == Announce(AnnouncedAfter(es), e)
  {
    assert (es + [e])[..|es|] == es;
  }

  lemma AfterTwo(e0: Event, e1: Event)
    ensures TablesAfter([e0, e1]) == Step(Step(EMPTY, e0), e1)
    ensures AnnouncedAfter([e0, e1]) == Announce(Announce(SILENCE, e0), e1)
  {
    AfterNext([], e0);
    AfterNext([e0], e1);
    assert [] + [e0] == [e0] && [e0] + [e1] == [e0, e1];
  }

  lemma AfterThree(e0: Event, e1: Event, e2: Event)
    ensures TablesAfter([e0, e1, e2]) == Step(Step(Step(EMPTY, e0), e1), e2)
    ensures AnnouncedAfter([e0, e1, e2])
      == Announce(Announce(Announce(SILENCE, e0), e1), e2)
  {
    AfterTwo(e0, e1);
    AfterNext([e0, e1], e2);
    assert [e0, e1] + [e2] == [e0, e1, e2];
  }

  lemma AfterFour(e0: Event, e1: Event, e2: Event, e3: Event)
    ensures TablesAfter([e0, e1, e2, e3]) == Step(TablesAfter([e0, e1, e2]), e3)
    ensures AnnouncedAfter([e0, e1, e2, e3]) == Announce(AnnouncedAfter([e0, e1, e2]), e3)
  {
    AfterNext([e0, e1, e2], e3);
    assert [e0, e1, e2] + [e3] == [e0, e1, e2, e3];
  }

  // Tables with one intercept, and what happens to it.
  function Only(l: string, i: IpIntercept): Tables {
    Tables(map[l := i], map[], map[], {})
  }

  lemma OnlySteps(l: string, i: IpIntercept, u: string, alike: bool, r: string, cin: nat)
    ensures Step(EMPTY, Start(l, u, alike)) == Only(l, IpIntercept(Known(u), false, map[]))
    ensures Step(Only(l, i), Start(l, u, alike))
      == Only(l, Retargeted(i, u, alike).(awaiting := false)).(refreed := FreedByName(Only(l, i), l, u, alike))
    ensures Step(Only(l, i), Modify(l, u, alike))
      == Only(l, Retargeted(i, u, alike)).(refreed := FreedByName(Only(l, i), l, u, alike))
    ensures Step(Only(l, i), Halt(l)) == Tables(map[], map[], map[], FreeName(i, l))
    ensures r !in i.statics ==>
      Step(Only(l, i), AddRange(l, r, cin)) == Only(l, i.(statics := i.statics[r := StaticRange(cin, false)]))
  {
  }

  lemma OnlyTouched(l: string, i: IpIntercept)
    ensures Step(Only(l, i), Disconnect) == Only(l, TouchedIntercept(i))
  {
    assert Touched(Only(l, i)).ints == map[l := TouchedIntercept(i)];
  }

  // A modification does not confirm what it names: sent first, it is lost with the intercept.
  lemma ModifyDoesNotConfirm()
    ensures var es := [Start("L", "u", true), Disconnect, Modify("L", "u", true)];
      "L" in AnnouncedAfter(es).ints && Step(TablesAfter(es), NoMore).ints == map[]
  {
    var e0, e1, e2 := Start("L", "u", true), Disconnect, Modify("L", "u", true);
    AfterThree(e0, e1, e2);
    AnnouncedByName(Announce(Announce(SILENCE, e0), e1), "L", "u", true);
    var i := IpIntercept(Known("u"), false, map[]);
    OnlySteps("L", i, "u", true, "", 0);
    OnlyTouched("L", i);
    OnlySteps("L", TouchedIntercept(i), "u", true, "", 0);
    OnlyGone("L", TouchedIntercept(i));
  }

  lemma AnnouncedByName(a: Announced, l: string, u: string, alike: bool)
    ensures l in Announce(a, Modify(l, u, alike)).ints
  {
  }

  lemma OnlyGone(l: string, i: IpIntercept)
    requires i.awaiting
    ensures Step(Only(l, i), NoMore).ints == map[] && Step(Only(l, i), NoMore).refreed == FreeName(i, l)
  {
  }

  // A range sent before its intercept does not survive a change of target.
  lemma EarlyRangeLost()
    ensures var es := [Start("L", "u", true), Disconnect, AddRange("L", "10.0.0.0/8", 1), Start("L", "v", true)];
      Step(TablesAfter(es), NoMore) == Only("L", IpIntercept(Lost, false, map[]))
  {
    var i := IpIntercept(Known("u"), false, map[]);
    AfterThree(Start("L", "u", true), Disconnect, AddRange("L", "10.0.0.0/8", 1));
    AfterFour(Start("L", "u", true), Disconnect, AddRange("L", "10.0.0.0/8", 1), Start("L", "v", true));
    OnlySteps("L", i, "u", true, "", 0);
    OnlyTouched("L", i);
    var j := TouchedIntercept(i);
    OnlySteps("L", j, "v", true, "10.0.0.0/8", 1);
    var k := j.(statics := j.statics["10.0.0.0/8" := StaticRange(1, false)]);
    OnlySteps("L", k, "v", true, "", 0);
    OnlyPurged("L", IpIntercept(Lost, false, map[]));
  }

  lemma OnlyPurged(l: string, i: IpIntercept)
    requires !i.awaiting && i.statics == map[]
    ensures Step(Only(l, i), NoMore) == Only(l, i)
  {
    assert Purged(Only(l, i)).ints == map[l := i];
  }

  // After a change of target the stored name is freed.  The intercept announced once more, just
  // as it is, loses the range announced since if the freed memory compares otherwise.
  lemma ChangedNameLost(alike: bool)
    ensures var es := [Start("L", "u", true), Start("L", "v", true), AddRange("L", "r", 1), Start("L", "v", alike)];
      && "L" in AnnouncedAfter(es).ints && AnnouncedAfter(es).ints["L"] == Target("v", {"r"})
      && TablesAfter(es) == Tables(
           map["L" := IpIntercept(Lost, false, if alike then map["r" := StaticRange(1, false)] else map[])],
           map[], map[], if alike then {} else {"L"})
  {
    var i := IpIntercept(Known("u"), false, map[]);
    AfterThree(Start("L", "u", true), Start("L", "v", true), AddRange("L", "r", 1));
    AfterFour(Start("L", "u", true), Start("L", "v", true), AddRange("L", "r", 1), Start("L", "v", alike));
    OnlySteps("L", i, "u", true, "", 0);
    OnlySteps("L", i, "v", true, "", 0);
    var j := IpIntercept(Lost, false, map[]);
    OnlySteps("L", j, "v", true, "r", 1);
    OnlySteps("L", j.(statics := j.statics["r" := StaticRange(1, false)]), "v", alike, "", 0);
    RangeAnnounced(alike);
  }

  lemma RangeAnnounced(alike: bool)
    ensures var first := Announce(SILENCE, Start("L", "u", true));
      var a := Announce(Announce(first, Start("L", "v", true)), AddRange("L", "r", 1));
      && "L" in Announce(a, Start("L", "v", alike)).ints
      && Announce(a, Start("L", "v", alike)).ints["L"] == Target("v", {"r"})
  {
  }

  // A target is changed by a modification that does not confirm it, and goes with the end of the
  // list.
  lemma ChangedWhileWaiting()
    ensures TablesAfter([Start("L", "u", true), Disconnect, Modify("L", "v", true), NoMore]).refreed == {"L"}
  {
    hide Step, TablesAfter, AnnouncedAfter, Announce;
    var i := IpIntercept(Known("u"), false, map[]);
    AfterThree(Start("L", "u", true), Disconnect, Modify("L", "v", true));
    AfterFour(Start("L", "u", true), Disconnect, Modify("L", "v", true), NoMore);
    OnlySteps("L", i, "u", true, "", 0);
    OnlyTouched("L", i);
    OnlySteps("L", TouchedIntercept(i), "v", true, "", 0);
    OnlyGone("L", IpIntercept(Lost, true, map[]));
  }

  // A changed target's intercept is withdrawn, has its target changed again, or goes with the end of
  // the list: its name is freed a second time.
  lemma NameFreedTwice()
    ensures TablesAfter([Start("L", "u", true), Start("L", "v", true), Halt("L")]).refreed == {"L"}
    ensures TablesAfter([Start("L", "u", true), Start("L", "v", true), Start("L", "w", false)]).refreed == {"L"}
    ensures TablesAfter([Start("L", "u", true), Disconnect, Modify("L", "v", true), NoMore]).refreed == {"L"}
  {
    ChangedWhileWaiting();
    AfterThree(Start("L", "u", true), Start("L", "v", true), Halt("L"));
    AfterThree(Start("L", "u", true), Start("L", "v", true), Start("L", "w", false));
    OnlySteps("L", IpIntercept(Known("u"), false, map[]), "u", true, "", 0);
    OnlySteps("L", IpIntercept(Known("u"), false, map[]), "v", true, "", 0);
    OnlySteps("L", IpIntercept(Lost, false, map[]), "w", false, "", 0);
  }

  // A range that is announced again after a disconnection with another CIN keeps the one it had.
  lemma OldCinKept()
    ensures var es := [Start("L", "u", true), AddRange("L", "r", 1), Disconnect, AddRange("L", "r", 2)];
      HasRange(TablesAfter(es), "L", "r") && StoredCin(TablesAfter(es), "L", "r") == 1
  {
    var e0, e1, e2, e3 := Start("L", "u", true), AddRange("L", "r", 1), Disconnect, AddRange("L", "r", 2);
    AfterThree(e0, e1, e2);
    AfterFour(e0, e1, e2, e3);
    hide Step, TablesAfter, AnnouncedAfter, Announce;
    var i := IpIntercept(Known("u"), false, map[]);
    OnlySteps("L", i, "u", true, "r", 1);
    var j := i.(statics := i.statics["r" := StaticRange(1, false)]);
    OnlyTouched("L", j);
    OnlyConfirmed("L", TouchedIntercept(j), "r", 2);
  }

  lemma OnlyConfirmed(l: string, i: IpIntercept, r: string, cin: nat)
    requires r in i.statics
    ensures var t := Step(Only(l, i), AddRange(l, r, cin)); HasRange(t, l, r) && StoredCin(t, l, r) == i.statics[r].cin
  {
  }

  // ---- The handlers ----

  class CollectorSync {
    var ipintercepts: map<string, IpIntercept>
    var coreservers: map<string, bool>
    var defaultradius: map<string, bool>
    // The intercepts whose name has been freed twice.
    ghost var refreed: set<string>

    ghost function View(): Tables
      reads this
    {
      Tables(ipintercepts, coreservers, defaultradius, refreed)
    }

    constructor ()
      ensures View() == EMPTY
    {
      ipintercepts, coreservers, defaultradius, refreed := map[], map[], map[], {};
    }

    // sync_disconnect_provisioner
    method DisconnectProvisioner()
      modifies this
      ensures View() == Touched(old(View()))
    {
      TouchAllIntercepts();
      coreservers := TouchAll(coreservers);
      defaultradius := TouchAll(defaultradius);
    }

    // touch_all_intercepts
    method TouchAllIntercepts()
      modifies this`ipintercepts
      ensures ipintercepts == Touched(old(View())).ints
    {
      var rest := ipintercepts.Keys;
      while rest != {}
        invariant rest <= ipintercepts.Keys == old(ipintercepts).Keys
        invariant forall l :: l in rest ==> ipintercepts[l] == old(ipintercepts)[l]
        invariant forall l :: l in ipintercepts && l !in rest ==>
          ipintercepts[l] == TouchedIntercept(old(ipintercepts)[l])
        decreases rest
      {
        var l :| l in rest;
        var i := ipintercepts[l];
        var statics := TouchRanges(i.statics);
        ipintercepts := ipintercepts[l := i.(awaiting := true, statics := statics)];
        rest := rest - {l};
      }
    }

    // new_ipintercept
    method NewIpIntercept(liid: string, username: string, alike: bool)
      modifies this`ipintercepts, this`refreed
      ensures View() == Handle(old(View()), Start(liid, username, alike)).0
    {
      if liid in ipintercepts {
        ipintercepts := ipintercepts[liid := ipintercepts[liid].(awaiting := false)];
        UpdateModified(liid, username, alike);
      } else {
        ipintercepts := ipintercepts[liid := IpIntercept(Known(username), false, map[])];
      }
    }

    // modify_ipintercept
    method ModifyIpIntercept(liid: string, username: string, alike: bool)
      modifies this`ipintercepts, this`refreed
      ensures View() == Handle(old(View()), Modify(liid, username, alike)).0
    {
      if liid !in ipintercepts {
        ipintercepts := ipintercepts[liid := IpIntercept(Known(username), false, map[])];
      } else {
        UpdateModified(liid, username, alike);
      }
    }

    // update_modified_intercept
    method UpdateModified(liid: string, username: string, alike: bool)
      requires liid in ipintercepts
      modifies this`ipintercepts, this`refreed
      ensures ipintercepts == old(ipintercepts)[liid := Retargeted(old(ipintercepts)[liid], username, alike)]
      ensures refreed == old(refreed) + FreedByName(old(View()), liid, username, alike)
    {
      if !SameName(ipintercepts[liid], username, alike) {
        EndRanges(liid);
        refreed := refreed + FreeName(ipintercepts[liid], liid);
        ipintercepts := ipintercepts[liid := ipintercepts[liid].(name := Known(username))];
        // The message is freed, and with it the name.
        ipintercepts := ipintercepts[liid := ipintercepts[liid].(name := Lost)];
      }
    }

    // push_ipintercept_halt_to_threads, for the static ranges
    method EndRanges(liid: string)
      requires liid in ipintercepts
      modifies this`ipintercepts
      ensures ipintercepts == old(ipintercepts)[liid := old(ipintercepts)[liid].(statics := map[])]
    {
      ghost var i := ipintercepts[liid];
      while ipintercepts[liid].statics != map[]
        invariant liid in ipintercepts
        invariant ipintercepts == old(ipintercepts)[liid := i.(statics := ipintercepts[liid].statics)]
        decreases ipintercepts[liid].statics.Keys
      {
        var r :| r in ipintercepts[liid].statics;
        var _ := RemoveStaticRange(liid, r);
      }
    }

    // remove_staticiprange
    method RemoveStaticRange(liid: string, range: string) returns (ok: bool)
      modifies this`ipintercepts
      ensures (View(), ok) == Handle(old(View()), RemoveRange(liid, range))
      ensures ok <==> liid in old(ipintercepts)
      ensures ok ==>
        var i := old(ipintercepts)[liid]; ipintercepts == old(ipintercepts)[liid := i.(statics := i.statics - {range})]
    {
      if liid !in ipintercepts {
        return false;
      }
      var i := ipintercepts[liid];
      if range in i.statics {
        ipintercepts := ipintercepts[liid := i.(statics := i.statics - {range})];
      } else {
        assert i.statics - {range} == i.statics && ipintercepts[liid := i] == ipintercepts;
      }
      ok := true;
    }

    // new_staticiprange
    method NewStaticRange(liid: string, range: string, cin: nat) returns (ok: bool)
      modifies this`ipintercepts
      ensures (View(), ok) == Handle(old(View()), AddRange(liid, range, cin))
    {
      if liid !in ipintercepts {
        return false;
      }
      var i := ipintercepts[liid];
      if range in i.statics {
        ipintercepts := ipintercepts[liid := i.(statics := i.statics[range := i.statics[range].(awaiting := false)])];
      } else {
        ipintercepts := ipintercepts[liid := i.(statics := i.statics[range := StaticRange(cin, false)])];
      }
      ok := true;
    }

    // modify_staticiprange
    method ModifyStaticRange(liid: string, range: string, cin: nat) returns (ok: bool)
      modifies this`ipintercepts
      ensures (View(), ok) == Handle(old(View()), ModifyRange(liid, range, cin))
    {
      if liid !in ipintercepts {
        return false;
      }
      var i := ipintercepts[liid];
      if range in i.statics {
        ipintercepts := ipintercepts[liid := i.(statics := i.statics[range := i.statics[range].(cin := cin)])];
      }
      ok := true;
    }

    // halt_ipintercept and remove_ip_intercept
    method HaltIpIntercept(liid: string) returns (ok: bool)
      modifies this`ipintercepts, this`refreed
      ensures (View(), ok) == Handle(old(View()), Halt(liid))
    {
      if liid !in ipintercepts {
        return false;
      }
      EndRanges(liid);
      refreed := refreed + FreeName(ipintercepts[liid], liid);
      ipintercepts := ipintercepts - {liid};
      assert ipintercepts == old(ipintercepts) - {liid};
      ok := true;
    }

    // disable_unconfirmed_intercepts
    method DisableUnconfirmed()
      modifies this
      ensures View() == Purged(old(View()))
    {
      PurgeIntercepts();
      coreservers := PurgeFlags(coreservers);
      defaultradius := PurgeFlags(defaultradius);
    }

    method PurgeIntercepts()
      modifies this`ipintercepts, this`refreed
      ensures ipintercepts == Purged(old(View())).ints && refreed == Purged(old(View())).refreed
    {
      var rest := ipintercepts.Keys;
      ghost var was := View();
      PurgeEnds(was);
      while rest != {}
        invariant rest <= was.ints.Keys
        invariant ipintercepts == PurgedBut(was, rest) && refreed == RefreedBut(was, rest)
        decreases rest
      {
        var l :| l in rest;
        PurgeNext(was, rest, l);
        PurgeOne(l);
        rest := rest - {l};
      }
    }

    method PurgeOne(l: string)
      requires l in ipintercepts
      modifies this`ipintercepts, this`refreed
      ensures ipintercepts == if old(ipintercepts)[l].awaiting then old(ipintercepts) - {l}
                              else old(ipintercepts)[l := ConfirmedIntercept(old(ipintercepts)[l])]
      ensures refreed == old(refreed) + if FreedAtEnd(old(View()), l) then {l} else {}
    {
      if ipintercepts[l].awaiting {
        var _ := HaltIpIntercept(l);
      } else {
        var i := ipintercepts[l];
        var statics := PurgeRanges(i.statics);
        ipintercepts := ipintercepts[l := i.(statics := statics)];
      }
    }

    // forward_new_coreserver
    method NewCoreServer(server: string)
      modifies this`coreservers
      ensures server in coreservers && !coreservers[server]
      ensures SameElsewhere(old(coreservers), coreservers, server)
    {
      if server in coreservers {
        coreservers := coreservers[server := false];
      } else {
        coreservers := coreservers + map[server := false];
      }
    }

    // forward_remove_coreserver
    method RemoveCoreServer(server: string)
      modifies this`coreservers
      ensures server !in coreservers && SameElsewhere(old(coreservers), coreservers, server)
    {
      if server in coreservers {
        coreservers := coreservers - {server};
      }
    }

    // new_default_radius
    method NewDefaultRadius(user: string)
      modifies this`defaultradius
      ensures user in defaultradius && !defaultradius[user]
      ensures SameElsewhere(old(defaultradius), defaultradius, user)
    {
      if user in defaultradius {
        defaultradius := defaultradius[user := false];
      } else {
        defaultradius := defaultradius + map[user := false];
      }
    }

    // withdraw_default_radius
    method WithdrawDefaultRadius(user: string)
      modifies this`defaultradius
      ensures user !in defaultradius && SameElsewhere(old(defaultradius), defaultradius, user)
    {
      if user in defaultradius {
        defaultradius := defaultradius - {user};
      }
    }

    // One turn of the sync thread: a message that is not handled costs the connection.
    method Receive(e: Event)
      modifies this
      ensures View() == Step(old(View()), e)
    {
      var ok := true;
      match e {
        case Disconnect => DisconnectProvisioner();
        case Start(l, u, alike) => NewIpIntercept(l, u, alike);
        case Modify(l, u, alike) => ModifyIpIntercept(l, u, alike);
        case Halt(l) => ok := HaltIpIntercept(l);
        case AddRange(l, r, cin) => ok := NewStaticRange(l, r, cin);
        case ModifyRange(l, r, cin) => ok := ModifyStaticRange(l, r, cin);
        case RemoveRange(l, r) => ok := RemoveStaticRange(l, r);
        case AnnounceServer(k) =>
          NewCoreServer(k);
          assert coreservers == old(coreservers)[k := false];
        case WithdrawServer(k) =>
          RemoveCoreServer(k);
          assert coreservers == old(coreservers) - {k};
        case AnnounceRadius(n) =>
          NewDefaultRadius(n);
          assert defaultradius == old(defaultradius)[n := false];
        case WithdrawRadius(n) =>
          WithdrawDefaultRadius(n);
          assert defaultradius == old(defaultradius) - {n};
        case NoMore => DisableUnconfirmed();
      }
      if !ok {
        DisconnectProvisioner();
      }
    }
  }

  // Part-way through disable_unconfirmed_intercepts, with the intercepts of `rest` to come.
  ghost function PurgedBut(t: Tables, rest: set<string>): map<string, IpIntercept> {
    map l | l in t.ints && (l in rest || !t.ints[l].awaiting) ::
      if l in rest then t.ints[l] else ConfirmedIntercept(t.ints[l])
  }

  ghost function RefreedBut(t: Tables, rest: set<string>): set<string> {
    t.refreed + set l | l in t.ints && l !in rest && FreedAtEnd(t, l)
  }

  lemma PurgeEnds(t: Tables)
    ensures PurgedBut(t, t.ints.Keys) == t.ints && RefreedBut(t, t.ints.Keys) == t.refreed
    ensures PurgedBut(t, {}) == Purged(t).ints && RefreedBut(t, {}) == Purged(t).refreed
  {
  }

  lemma PurgeNext(t: Tables, rest: set<string>, l: string)
    requires l in rest && l in t.ints
    ensures l in PurgedBut(t, rest) && PurgedBut(t, rest)[l] == t.ints[l]
    ensures PurgedBut(t, rest - {l})
      == if t.ints[l].awaiting then PurgedBut(t, rest) - {l} else PurgedBut(t, rest)[l := ConfirmedIntercept(t.ints[l])]
    ensures RefreedBut(t, rest - {l}) == RefreedBut(t, rest) + if FreedAtEnd(t, l) then {l} else {}
  {
  }

  // All entries but one are as they were.
  ghost predicate SameElsewhere(m: map<string, bool>, m': map<string, bool>, key: string) {
    forall k :: k != key ==> (k in m' <==> k in m) && (k in m ==> m'[k] == m[k])
  }

  // touch_all_coreservers, touch_all_defaultradius
  method TouchAll(flags: map<string, bool>) returns (r: map<string, bool>)
    ensures r == Flagged(flags)
  {
    r := flags;
    var rest := flags.Keys;
    while rest != {}
      invariant rest <= r.Keys == flags.Keys
      invariant forall k :: k in r && k !in rest ==> r[k]
      decreases rest
    {
      var k :| k in rest;
      r := r[k := true];
      rest := rest - {k};
    }
  }

  method TouchRanges(statics: map<string, StaticRange>) returns (r: map<string, StaticRange>)
    ensures r == FlaggedRanges(statics)
  {
    r := statics;
    var rest := statics.Keys;
    while rest != {}
      invariant rest <= r.Keys == statics.Keys
      invariant forall k :: k in r ==> r[k] == if k in rest then statics[k] else statics[k].(awaiting := true)
      decreases rest
    {
      var k :| k in rest;
      r := r[k := r[k].(awaiting := true)];
      rest := rest - {k};
    }
  }

  method PurgeFlags(flags: map<string, bool>) returns (r: map<string, bool>)
    ensures r == Unflagged(flags)
  {
    r := flags;
    var rest := flags.Keys;
    while rest != {}
      invariant rest <= r.Keys <= flags.Keys
      invariant forall k :: k in r ==> r[k] == flags[k]
      invariant forall k :: k in flags && k !in rest ==> (k in r <==> !flags[k])
      decreases rest
    {
      var k :| k in rest;
      if r[k] {
        r := r - {k};
      }
      rest := rest - {k};
    }
  }

  method PurgeRanges(statics: map<string, StaticRange>) returns (r: map<string, StaticRange>)
    ensures r == ConfirmedRanges(statics)
  {
    r := statics;
    var rest := statics.Keys;
    while rest != {}
      invariant rest <= r.Keys <= statics.Keys
      invariant forall k :: k in r ==> r[k] == statics[k]
      invariant forall k :: k in statics && k !in rest ==> (k in r <==> !statics[k].awaiting)
      decreases rest
    {
      var k :| k in rest;
      if r[k].awaiting {
        r := r - {k};
      }
      rest := rest - {k};
    }
  }
}

// The calls of one VoIP intercept: call identifiers and session descriptions that point to
// shared call objects, which live as long as something points to them.
module VoipSessions {
  import opened Common
  import opened RefCounts

  // A SIP identity: a user, at a realm or at any.
  datatype Identity = Identity(username: string, realm: Option<string>)

  // A call-id or SDP entry: the target it was made for and the call object it points to.
  datatype Entry = Entry(target: Identity, shared: nat)

  datatype SdpEntry = SdpEntry(key: string, entry: Entry)

  datatype Call = Call(cin: nat, refs: nat)

  // Entries by name: call identifiers are unique, SDP entries are told apart by their order of
  // arrival, since several may have the same key.
  datatype Ref = CallId(callid: string) | Sdp(number: nat)

  ghost function Names(callids: map<string, Entry>, sdps: map<nat, SdpEntry>): (s: set<Ref>)
    ensures forall c :: CallId(c) in s <==> c in callids
    ensures forall n :: Sdp(n) in s <==> n in sdps
  {
    (set c | c in callids :: CallId(c)) + (set n | n in sdps :: Sdp(n))
  }

  ghost function Target(callids: map<string, Entry>, sdps: map<nat, SdpEntry>, r: Ref): nat
    requires r in Names(callids, sdps)
  {
    match r
    case CallId(c) => callids[c].shared
    case Sdp(n) => sdps[n].entry.shared
  }

  // What each entry points to.
  ghost function PointsTo(callids: map<string, Entry>, sdps: map<nat, SdpEntry>): map<Ref, nat> {
    map r | r in Names(callids, sdps) :: Target(callids, sdps, r)
  }

  ghost function Counts(calls: map<nat, Call>): map<nat, nat> {
    map k | k in calls :: calls[k].refs
  }

  function Bump(calls: map<nat, Call>, k: nat): map<nat, Call> {
    if k in calls then calls[k := calls[k].(refs := calls[k].refs + 1)] else calls
  }

  // One reference fewer; the object is freed with the last.
  function Release(calls: map<nat, Call>, k: nat): map<nat, Call> {
    if k !in calls then calls
    else if calls[k].refs <= 1 then calls - {k}
    else calls[k := calls[k].(refs := calls[k].refs - 1)]
  }

  lemma ReleaseCounts(calls: map<nat, Call>, k: nat)
    ensures Counts(Release(calls, k)) == DropRef(Counts(calls), k)
  {
  }

  lemma BumpCounts(calls: map<nat, Call>, k: nat)
    requires k in calls && (calls[k].refs > 0)
    ensures Counts(Bump(calls, k)) == AddRef(Counts(calls), k)
  {
  }

  lemma PutCallId(callids: map<string, Entry>, sdps: map<nat, SdpEntry>, c: string, e: Entry)
    ensures PointsTo(callids[c := e], sdps) == PointsTo(callids, sdps)[CallId(c) := e.shared]
  {
  }

  lemma PutSdp(callids: map<string, Entry>, sdps: map<nat, SdpEntry>, n: nat, s: SdpEntry)
    ensures PointsTo(callids, sdps[n := s]) == PointsTo(callids, sdps)[Sdp(n) := s.entry.shared]
  {
  }

  lemma DropCallId(callids: map<string, Entry>, sdps: map<nat, SdpEntry>, c: string)
    ensures PointsTo(callids - {c}, sdps) == PointsTo(callids, sdps) - {CallId(c)}
  {
  }

  lemma DropSdp(callids: map<string, Entry>, sdps: map<nat, SdpEntry>, n: nat)
    ensures PointsTo(callids, sdps - {n}) == PointsTo(callids, sdps) - {Sdp(n)}
  {
  }

  // Each call's count is the number of entries that point to it, and calls nobody points to
  // are gone; so every entry points to a live call.
  ghost predicate Counted(callids: map<string, Entry>, sdps: map<nat, SdpEntry>, calls: map<nat, Call>) {
    Consistent(PointsTo(callids, sdps), Counts(calls))
  }

  lemma Live(callids: map<string, Entry>, sdps: map<nat, SdpEntry>, calls: map<nat, Call>, r: Ref)
    requires Counted(callids, sdps, calls) && r in Names(callids, sdps)
    ensures Target(callids, sdps, r) in calls && calls[Target(callids, sdps, r)].refs > 0
  {
    var k, ps := Target(callids, sdps, r), PointsTo(callids, sdps);
    assert CountOk(ps, Counts(calls), k);
    assert r in Refs(ps, k);
    assert |Refs(ps, k)| > 0;
  }

  lemma AddCallId(callids: map<string, Entry>, sdps: map<nat, SdpEntry>, calls: map<nat, Call>, c: string, e: Entry)
    requires Counted(callids, sdps, calls) && c !in callids && e.shared in calls
    ensures Counted(callids[c := e], sdps, Bump(calls, e.shared))
  {
    assert CountOk(PointsTo(callids, sdps), Counts(calls), e.shared);
    PutCallId(callids, sdps, c, e);
    BumpCounts(calls, e.shared);
    AddEntry(PointsTo(callids, sdps), Counts(calls), CallId(c), e.shared);
  }

  lemma AddSdp(callids: map<string, Entry>, sdps: map<nat, SdpEntry>, calls: map<nat, Call>, n: nat, s: SdpEntry)
    requires Counted(callids, sdps, calls) && n !in sdps && s.entry.shared in calls
    ensures Counted(callids, sdps[n := s], Bump(calls, s.entry.shared))
  {
    assert CountOk(PointsTo(callids, sdps), Counts(calls), s.entry.shared);
    PutSdp(callids, sdps, n, s);
    BumpCounts(calls, s.entry.shared);
    AddEntry(PointsTo(callids, sdps), Counts(calls), Sdp(n), s.entry.shared);
  }

  // The first entry of a call just made.
  lemma FirstCallId(callids: map<string, Entry>, sdps: map<nat, SdpEntry>, calls: map<nat, Call>, c: string, e: Entry,
                    cin: nat)
    requires Counted(callids, sdps, calls) && c !in callids && e.shared !in calls
    ensures Counted(callids[c := e], sdps, Bump(calls[e.shared := Call(cin, 0)], e.shared))
  {
    PutCallId(callids, sdps, c, e);
    AddEntry(PointsTo(callids, sdps), Counts(calls), CallId(c), e.shared);
    assert Counts(Bump(calls[e.shared := Call(cin, 0)], e.shared)) == AddRef(Counts(calls), e.shared);
  }

  lemma RemoveCallId(callids: map<string, Entry>, sdps: map<nat, SdpEntry>, calls: map<nat, Call>, c: string)
    requires Counted(callids, sdps, calls) && c in callids
    ensures Counted(callids - {c}, sdps, Release(calls, callids[c].shared))
  {
    DropCallId(callids, sdps, c);
    ReleaseCounts(calls, callids[c].shared);
    RemoveEntryCounts(PointsTo(callids, sdps), Counts(calls), CallId(c));
  }

  lemma RemoveSdp(callids: map<string, Entry>, sdps: map<nat, SdpEntry>, calls: map<nat, Call>, n: nat)
    requires Counted(callids, sdps, calls) && n in sdps
    ensures Counted(callids, sdps - {n}, Release(calls, sdps[n].entry.shared))
  {
    DropSdp(callids, sdps, n);
    ReleaseCounts(calls, sdps[n].entry.shared);
    RemoveEntryCounts(PointsTo(callids, sdps), Counts(calls), Sdp(n));
  }

  datatype Outcome =
    | Mismatch              // the call id and the session belong to different calls
    | Resumed(shared: nat)  // a call id seen before
    | Joined(shared: nat)   // a new call id for a session seen before
    | Created(shared: nat)  // a new call of a target
    | Unmatched

  // At most one call has this CIN.
  ghost predicate Sole(calls: map<nat, Call>, cin: nat) {
    forall j, k :: j in calls && k in calls && calls[j].cin == cin && calls[k].cin == cin ==> j == k
  }

  ghost function Gone(was: map<nat, Call>, calls: map<nat, Call>): set<nat> {
    was.Keys - calls.Keys
  }

  // No call has been freed, or one of this CIN.
  ghost predicate AtMostOne(was: map<nat, Call>, calls: map<nat, Call>, cin: nat) {
    calls.Keys <= was.Keys && |Gone(was, calls)| <= 1 && forall k :: k in Gone(was, calls) ==> was[k].cin == cin
  }

  ghost function One(k: nat): set<nat> {
    {k}
  }

  lemma FreedOne(was: map<nat, Call>, calls: map<nat, Call>, cin: nat, k: nat)
    requires k in was && was[k].cin == cin && calls.Keys == was.Keys - One(k)
    ensures AtMostOne(was, calls, cin) && k in Gone(was, calls)
  {
    assert Gone(was, calls) == One(k);
  }

  lemma TwoSteps(a: set<nat>, b: set<nat>, c: set<nat>)
    requires c <= b <= a && |a - b| <= 1 && |b - c| <= 1
    ensures |a - c| <= 2
  {
    assert a - c == (a - b) + (b - c);
  }

  lemma AtMostTwo(was: map<nat, Call>, mid: map<nat, Call>, calls: map<nat, Call>, cin: nat)
    requires AtMostOne(was, mid, cin) && AtMostOne(mid, calls, cin)
    requires forall k :: k in mid ==> mid[k].cin == was[k].cin
    ensures calls.Keys <= mid.Keys <= was.Keys && |Gone(was, calls)| <= 2
    ensures forall k :: k in Gone(was, calls) ==> was[k].cin == cin
  {
    TwoSteps(was.Keys, mid.Keys, calls.Keys);
    forall k | k in Gone(was, calls) ensures was[k].cin == cin {
      assert k in Gone(was, mid) || k in Gone(mid, calls);
    }
  }

  // A new call id has taken over target and call from an entry of the same session.
  ghost predicate JoinedBy(s: SdpEntry, key: string, shared: nat, callid: string,
                           was: map<string, Entry>, callids: map<string, Entry>)
  {
    s.key == key && s.entry.shared == shared && callids == was[callid := s.entry]
  }

  // Some entry points to the call.
  ghost predicate Entered(callids: map<string, Entry>, sdps: map<nat, SdpEntry>, k: nat) {
    exists r :: r in Names(callids, sdps) && Target(callids, sdps, r) == k
  }

  // Calls are exactly what entries point to.
  lemma Pointed(callids: map<string, Entry>, sdps: map<nat, SdpEntry>, calls: map<nat, Call>, k: nat)
    requires Counted(callids, sdps, calls)
    ensures k in calls <==> Entered(callids, sdps, k)
  {
    var ps := PointsTo(callids, sdps);
    assert CountOk(ps, Counts(calls), k);
    if k in calls {
      assert |Refs(ps, k)| > 0;
      var r :| r in Refs(ps, k);
      assert r in Names(callids, sdps) && Target(callids, sdps, r) == k;
    } else if r :| r in Names(callids, sdps) && Target(callids, sdps, r) == k {
      Live(callids, sdps, calls, r);
    }
  }

  ghost predicate HasCin(calls: map<nat, Call>, k: nat, cin: nat) {
    k in calls && calls[k].cin == cin
  }

  // Calls may be freed, but keep their CINs.
  ghost predicate SameCins(was: map<nat, Call>, calls: map<nat, Call>) {
    calls.Keys <= was.Keys && forall k :: k in calls ==> calls[k].cin == was[k].cin
  }

  ghost predicate AllEntered(callids: map<string, Entry>, sdps: map<nat, SdpEntry>, calls: map<nat, Call>) {
    forall k :: k in calls ==> Entered(callids, sdps, k)
  }

  lemma AllPointed(callids: map<string, Entry>, sdps: map<nat, SdpEntry>, calls: map<nat, Call>, was: map<nat, Call>)
    requires Counted(callids, sdps, calls) && calls.Keys <= was.Keys
    ensures AllEntered(callids, sdps, was) <==> calls.Keys == was.Keys
  {
    hide Counted, Entered;
    forall k | k in was ensures k in calls <==> Entered(callids, sdps, k) {
      Pointed(callids, sdps, calls, k);
    }
  }

  // The same calls are entered.
  ghost predicate SameEntered(callids: map<string, Entry>, sdps: map<nat, SdpEntry>, sdps': map<nat, SdpEntry>) {
    forall k :: Entered(callids, sdps, k) ==> Entered(callids, sdps', k)
  }

  lemma SamePointed(callids: map<string, Entry>, sdps: map<nat, SdpEntry>, calls: map<nat, Call>,
                    sdps': map<nat, SdpEntry>)
    requires Counted(callids, sdps, calls)
    ensures AllEntered(callids, sdps', calls) <==> SameEntered(callids, sdps, sdps')
  {
    hide Counted, Entered;
    forall k: nat ensures k in calls <==> Entered(callids, sdps, k) {
      Pointed(callids, sdps, calls, k);
    }
  }

  // The entries without those of the CIN among the ones walked.
  ghost function KeptCalls(callids: map<string, Entry>, calls: map<nat, Call>, walked: seq<string>, cin: nat)
    : map<string, Entry>
  {
    map c | c in callids && !(c in walked && HasCin(calls, callids[c].shared, cin)) :: callids[c]
  }

  ghost function KeptSdps(sdps: map<nat, SdpEntry>, calls: map<nat, Call>, walked: seq<nat>, cin: nat)
    : map<nat, SdpEntry>
  {
    map n | n in sdps && !(n in walked && HasCin(calls, sdps[n].entry.shared, cin)) :: sdps[n]
  }

  lemma KeptCallsNone(callids: map<string, Entry>, calls: map<nat, Call>, cin: nat)
    ensures KeptCalls(callids, calls, [], cin) == callids
  {
  }

  lemma KeptSdpsNone(sdps: map<nat, SdpEntry>, calls: map<nat, Call>, cin: nat)
    ensures KeptSdps(sdps, calls, [], cin) == sdps
  {
  }

  lemma KeptCallsNext(callids: map<string, Entry>, calls: map<nat, Call>, walk: seq<string>, n: nat, cin: nat)
    requires Lists(walk, callids.Keys) && n < |walk|
    ensures walk[n] in KeptCalls(callids, calls, walk[..n], cin)
    ensures KeptCalls(callids, calls, walk[..n], cin)[walk[n]] == callids[walk[n]]
    ensures KeptCalls(callids, calls, walk[..n + 1], cin)
      == if HasCin(calls, callids[walk[n]].shared, cin) then KeptCalls(callids, calls, walk[..n], cin) - {walk[n]}
         else KeptCalls(callids, calls, walk[..n], cin)
  {
    assert walk[..n + 1] == walk[..n] + [walk[n]];
    assert walk[n] !in walk[..n];
  }

  lemma KeptSdpsNext(sdps: map<nat, SdpEntry>, calls: map<nat, Call>, walk: seq<nat>, n: nat, cin: nat)
    requires Lists(walk, sdps.Keys) && n < |walk|
    ensures walk[n] in KeptSdps(sdps, calls, walk[..n], cin)
    ensures KeptSdps(sdps, calls, walk[..n], cin)[walk[n]] == sdps[walk[n]]
    ensures KeptSdps(sdps, calls, walk[..n + 1], cin)
      == if HasCin(calls, sdps[walk[n]].entry.shared, cin) then KeptSdps(sdps, calls, walk[..n], cin) - {walk[n]}
         else KeptSdps(sdps, calls, walk[..n], cin)
  {
    assert walk[..n + 1] == walk[..n] + [walk[n]];
    assert walk[n] !in walk[..n];
  }

  lemma KeptSame(sdps: map<nat, SdpEntry>, was: map<nat, Call>, calls: map<nat, Call>, walked: seq<nat>, cin: nat)
    requires SameCins(was, calls) && forall n :: n in sdps ==> sdps[n].entry.shared in calls
    ensures KeptSdps(sdps, calls, walked, cin) == KeptSdps(sdps, was, walked, cin)
  {
  }

  // A table's keys in the order in which it is walked.
  ghost predicate Lists<T(!new)>(walk: seq<T>, keys: set<T>) {
    (forall x :: x in walk <==> x in keys) && forall i, j :: 0 <= i < j < |walk| ==> walk[i] != walk[j]
  }

  class VoipIntercept {
    var callids: map<string, Entry>
    var sdps: map<nat, SdpEntry>
    var calls: map<nat, Call>
    var nextSdp: nat
    var nextCall: nat

    ghost predicate Valid()
      reads this
    {
      && Counted(callids, sdps, calls)
      && (forall k :: k in calls ==> k < nextCall)
      && (forall n :: n in sdps ==> n < nextSdp)
    }

    constructor ()
      ensures Valid() && callids == map[] && sdps == map[] && calls == map[]
    {
      callids, sdps, calls, nextSdp, nextCall := map[], map[], map[], 0, 0;
      new;
      assert forall k :: CountOk(PointsTo(callids, sdps), Counts(calls), k);
    }

    // update_cin_callid_map, for a call that others point to already
    method UpdateCallIdMap(callid: string, e: Entry)
      requires Valid() && e.shared in calls
      modifies this`callids, this`calls
      ensures Valid()
      ensures if callid in old(callids) then callids == old(callids) && calls == old(calls)
              else callids == old(callids)[callid := e] && calls == Bump(old(calls), e.shared)
    {
      if callid in callids {
        return;
      }
      AddCallId(callids, sdps, calls, callid, e);
      callids := callids[callid := e];
      calls := Bump(calls, e.shared);
    }

    // update_cin_sdp_map
    method UpdateSdpMap(key: string, e: Entry)
      requires Valid() && e.shared in calls
      modifies this`sdps, this`calls, this`nextSdp
      ensures Valid() && nextSdp == old(nextSdp) + 1
      ensures sdps == old(sdps)[old(nextSdp) := SdpEntry(key, e)] && calls == Bump(old(calls), e.shared)
    {
      AddSdp(callids, sdps, calls, nextSdp, SdpEntry(key, e));
      sdps := sdps[nextSdp := SdpEntry(key, e)];
      calls := Bump(calls, e.shared);
      nextSdp := nextSdp + 1;
    }

    // create_new_voip_session
    method CreateSession(callid: string, key: string, target: Identity, cin: nat) returns (shared: nat)
      requires Valid() && callid !in callids
      modifies this
      ensures Valid() && shared == old(nextCall) && shared !in old(calls)
      ensures callids == old(callids)[callid := Entry(target, shared)]
      ensures sdps == old(sdps)[old(nextSdp) := SdpEntry(key, Entry(target, shared))]
      ensures calls == old(calls)[shared := Call(cin, 2)]
    {
      shared := nextCall;
      nextCall := nextCall + 1;
      FirstCallId(callids, sdps, calls, callid, Entry(target, shared), cin);
      calls := calls[shared := Call(cin, 0)];
      callids := callids[callid := Entry(target, shared)];
      calls := Bump(calls, shared);
      UpdateSdpMap(key, Entry(target, shared));
    }

    method FindSdp(key: string) returns (r: Option<nat>)
      ensures r.None? ==> forall n :: n in sdps ==> sdps[n].key != key
      ensures r.Some? ==> r.value in sdps && sdps[r.value].key == key
    {
      r := None;
      var rest := sdps.Keys;
      while rest != {}
        invariant rest <= sdps.Keys
        invariant r.None? ==> forall n :: n in sdps && n !in rest ==> sdps[n].key != key
        invariant r.Some? ==> r.value in sdps && sdps[r.value].key == key
        decreases rest
      {
        var n :| n in rest;
        if sdps[n].key == key { r := Some(n); }
        rest := rest - {n};
      }
    }

    // The CIN of a call id's or session's call
    ghost function CallCin(callid: string): nat
      requires Valid() && callid in callids
      reads this
    {
      Live(callids, sdps, calls, CallId(callid));
      calls[callids[callid].shared].cin
    }

    ghost function SdpCin(n: nat): nat
      requires Valid() && n in sdps
      reads this
    {
      Live(callids, sdps, calls, Sdp(n));
      calls[sdps[n].entry.shared].cin
    }

    // What process_sip_invite does to the call and session maps.  `matched` is the target found
    // in the message, `cin` the hash of the call id.
    method ProcessInvite(callid: string, key: string, ignoreSdp: bool, matched: Option<Identity>, cin: nat)
      returns (r: Outcome)
      requires Valid()
      modifies this
      ensures Valid()
      ensures r.Mismatch? || r.Unmatched? ==> callids == old(callids) && sdps == old(sdps) && calls == old(calls)
      ensures r.Mismatch? || r.Resumed? <==> callid in old(callids)
      ensures r.Resumed? ==>
        && r.shared == old(callids)[callid].shared && callids == old(callids)
        && sdps == old(sdps)[old(nextSdp) := SdpEntry(key, old(callids)[callid])] && calls == Bump(old(calls), r.shared)
      ensures callid !in old(callids) ==>
        && (r.Joined? <==> !ignoreSdp && (exists n :: n in old(sdps) && old(sdps)[n].key == key))
        && (r.Created? <==> !r.Joined? && matched.Some?)
      ensures r.Mismatch? ==>
        !ignoreSdp && exists n :: n in old(sdps) && old(sdps)[n].key == key && old(SdpCin(n) != CallCin(callid))
      ensures r.Resumed? && !ignoreSdp && (exists n :: n in old(sdps) && old(sdps)[n].key == key) ==>
        exists n :: n in old(sdps) && old(sdps)[n].key == key && old(SdpCin(n) == CallCin(callid))
      ensures r.Joined? ==>
        && sdps == old(sdps) && calls == Bump(old(calls), r.shared)
        && (exists n :: n in old(sdps) && JoinedBy(old(sdps)[n], key, r.shared, callid, old(callids), callids))
      ensures r.Created? ==>
        && matched.Some? && r.shared !in old(calls) && callids == old(callids)[callid := Entry(matched.value, r.shared)]
        && sdps == old(sdps)[old(nextSdp) := SdpEntry(key, Entry(matched.value, r.shared))]
        && calls == old(calls)[r.shared := Call(cin, 2)]
    {
      var findSdp: Option<nat> := None;
      if !ignoreSdp {
        findSdp := FindSdp(key);
      }
      if findSdp.Some? { Live(callids, sdps, calls, Sdp(findSdp.value)); }
      if callid in callids {
        Live(callids, sdps, calls, CallId(callid));
        var e := callids[callid];
        if findSdp.Some? {
          if calls[sdps[findSdp.value].entry.shared].cin != calls[e.shared].cin {
            return Mismatch;
          }
        }
        UpdateSdpMap(key, e);
        r := Resumed(e.shared);
      } else if findSdp.Some? {
        var e := sdps[findSdp.value].entry;
        UpdateCallIdMap(callid, e);
        r := Joined(e.shared);
      } else if matched.Some? {
        var shared := CreateSession(callid, key, matched.value, cin);
        r := Created(shared);
      } else {
        r := Unmatched;
      }
    }

    // Removing one entry
    method DropCall(callid: string) returns (last: bool)
      requires Valid() && callid in callids
      modifies this`callids, this`calls
      ensures Valid() && callids == old(callids) - {callid}
      ensures calls == Release(old(calls), old(callids)[callid].shared)
      ensures last <==> old(callids)[callid].shared !in calls
    {
      RemoveCallId(callids, sdps, calls, callid);
      Live(callids, sdps, calls, CallId(callid));
      var k := callids[callid].shared;
      callids := callids - {callid};
      calls := Release(calls, k);
      last := k !in calls;
    }

    method DropSession(n: nat) returns (last: bool)
      requires Valid() && n in sdps
      modifies this`sdps, this`calls
      ensures Valid() && sdps == old(sdps) - {n}
      ensures calls == Release(old(calls), old(sdps)[n].entry.shared)
      ensures last <==> old(sdps)[n].entry.shared !in calls
    {
      RemoveSdp(callids, sdps, calls, n);
      Live(callids, sdps, calls, Sdp(n));
      var k := sdps[n].entry.shared;
      sdps := sdps - {n};
      calls := Release(calls, k);
      last := k !in calls;
    }

    // remove_cin_callids_for_target
    method RemoveCallIdsFor(target: Identity)
      requires Valid()
      modifies this`callids, this`calls
      ensures Valid()
      ensures callids == map c | c in old(callids) && old(callids)[c].target != target :: old(callids)[c]
    {
      var rest := callids.Keys;
      while rest != {}
        invariant Valid() && rest <= callids.Keys <= old(callids).Keys
        invariant forall c :: c in callids ==> callids[c] == old(callids)[c]
        invariant forall c :: c in old(callids) && c !in rest ==> (c in callids <==> old(callids)[c].target != target)
        decreases rest
      {
        var c :| c in rest;
        if callids[c].target == target {
          var _ := DropCall(c);
        }
        rest := rest - {c};
      }
    }

    // remove_cin_sdpkeys_for_target
    method RemoveSdpKeysFor(target: Identity)
      requires Valid()
      modifies this`sdps, this`calls
      ensures Valid()
      ensures sdps == map n | n in old(sdps) && old(sdps)[n].entry.target != target :: old(sdps)[n]
    {
      var rest := sdps.Keys;
      while rest != {}
        invariant Valid() && rest <= sdps.Keys <= old(sdps).Keys
        invariant forall n :: n in sdps ==> sdps[n] == old(sdps)[n]
        invariant forall n :: n in old(sdps) && n !in rest ==> (n in sdps <==> old(sdps)[n].entry.target != target)
        decreases rest
      {
        var n :| n in rest;
        if sdps[n].entry.target == target {
          var _ := DropSession(n);
        }
        rest := rest - {n};
      }
    }

    // A SIP target still unconfirmed at the end of the list loses its calls.
    method PurgeTarget(target: Identity)
      requires Valid()
      modifies this
      ensures Valid()
      ensures callids == map c | c in old(callids) && old(callids)[c].target != target :: old(callids)[c]
      ensures sdps == map n | n in old(sdps) && old(sdps)[n].entry.target != target :: old(sdps)[n]
    {
      RemoveCallIdsFor(target);
      RemoveSdpKeysFor(target);
    }

    // The first loop of halt_single_rtpstream, over the call ids in the order of the hash table.  It
    // removes those of the CIN, up to the one with which it frees a call.
    method HaltCallIds(cin: nat, walk: seq<string>) returns (ghost at: nat)
      requires Valid() && Lists(walk, callids.Keys)
      modifies this`callids, this`calls
      ensures Valid() && at <= |walk| && SameCins(old(calls), calls)
      ensures callids == KeptCalls(old(callids), old(calls), walk[..at], cin)
      ensures at > 0 ==> AllEntered(KeptCalls(old(callids), old(calls), walk[..at - 1], cin), sdps, old(calls))
      ensures at < |walk| ==> !AllEntered(callids, sdps, old(calls))
      ensures AtMostOne(old(calls), calls, cin) && (at < |walk| ==> calls.Keys < old(calls).Keys)
    {
      hide Counted, KeptCalls, KeptSdps, AllEntered;
      var n := 0;
      KeptCallsNone(callids, calls, cin);
      assert walk[..0] == [] && walk[..|walk|] == walk;
      while n < |walk|
        invariant n <= |walk| && Valid() && calls.Keys == old(calls).Keys && SameCins(old(calls), calls)
        invariant callids == KeptCalls(old(callids), old(calls), walk[..n], cin)
        invariant n > 0 ==> AllEntered(KeptCalls(old(callids), old(calls), walk[..n - 1], cin), sdps, old(calls))
      {
        AllPointed(callids, sdps, calls, old(calls));
        var c := walk[n];
        KeptCallsNext(old(callids), old(calls), walk, n, cin);
        Live(callids, sdps, calls, CallId(c));
        n := n + 1;
        if calls[callids[c].shared].cin == cin {
          var last := DropCall(c);
          if last {
            FreedOne(old(calls), calls, cin, old(callids)[c].shared);
            AllPointed(callids, sdps, calls, old(calls));
            at := n;
            return;
          }
        }
      }
      at := n;
    }

    // The second loop
    method HaltSdps(cin: nat, walk: seq<nat>) returns (ghost at: nat)
      requires Valid() && Lists(walk, sdps.Keys)
      modifies this`sdps, this`calls
      ensures Valid() && at <= |walk| && SameCins(old(calls), calls)
      ensures sdps == KeptSdps(old(sdps), old(calls), walk[..at], cin)
      ensures at > 0 ==> AllEntered(callids, KeptSdps(old(sdps), old(calls), walk[..at - 1], cin), old(calls))
      ensures at < |walk| ==> !AllEntered(callids, sdps, old(calls))
      ensures AtMostOne(old(calls), calls, cin) && (at < |walk| ==> calls.Keys < old(calls).Keys)
    {
      hide Counted, KeptCalls, KeptSdps, AllEntered;
      var n := 0;
      KeptSdpsNone(sdps, calls, cin);
      assert walk[..0] == [] && walk[..|walk|] == walk;
      while n < |walk|
        invariant n <= |walk| && Valid() && calls.Keys == old(calls).Keys && SameCins(old(calls), calls)
        invariant sdps == KeptSdps(old(sdps), old(calls), walk[..n], cin)
        invariant n > 0 ==> AllEntered(callids, KeptSdps(old(sdps), old(calls), walk[..n - 1], cin), old(calls))
      {
        AllPointed(callids, sdps, calls, old(calls));
        var e := walk[n];
        KeptSdpsNext(old(sdps), old(calls), walk, n, cin);
        Live(callids, sdps, calls, Sdp(e));
        n := n + 1;
        if calls[sdps[e].entry.shared].cin == cin {
          var last := DropSession(e);
          if last {
            FreedOne(old(calls), calls, cin, old(sdps)[e].entry.shared);
            AllPointed(callids, sdps, calls, old(calls));
            at := n;
            return;
          }
        }
      }
      at := n;
    }

    // halt_single_rtpstream, for the stream of the call with this CIN.  Of its entries exactly those
    // go that come first in the tables' orders, up to the first with which a loop leaves a call
    // without entries; so if there are calls of this CIN at least one of them goes and at most two,
    // and if there is one, it goes.
    method HaltStream(cin: nat, callWalk: seq<string>, sdpWalk: seq<nat>) returns (ghost i: nat, ghost j: nat)
      requires Valid() && Lists(callWalk, callids.Keys) && Lists(sdpWalk, sdps.Keys)
      modifies this`callids, this`sdps, this`calls
      ensures Valid() && i <= |callWalk| && j <= |sdpWalk| && SameCins(old(calls), calls)
      ensures callids == KeptCalls(old(callids), old(calls), callWalk[..i], cin)
      ensures sdps == KeptSdps(old(sdps), old(calls), sdpWalk[..j], cin)
      ensures i > 0 ==> AllEntered(KeptCalls(old(callids), old(calls), callWalk[..i - 1], cin), old(sdps), old(calls))
      ensures i < |callWalk| ==> !AllEntered(callids, old(sdps), old(calls))
      ensures j > 0 ==> SameEntered(callids, old(sdps), KeptSdps(old(sdps), old(calls), sdpWalk[..j - 1], cin))
      ensures j < |sdpWalk| ==> !SameEntered(callids, old(sdps), sdps)
      ensures |Gone(old(calls), calls)| <= 2 && forall k :: k in Gone(old(calls), calls) ==> old(calls)[k].cin == cin
      ensures i < |callWalk| || j < |sdpWalk| ==> Gone(old(calls), calls) != {}
      ensures Gone(old(calls), calls) == {} || Sole(old(calls), cin) ==> forall k :: k in calls ==> calls[k].cin != cin
    {
      hide Counted, KeptCalls, KeptSdps, AllEntered, SameEntered;
      CinsAlive();
      i := HaltCallIds(cin, callWalk);
      ghost var mid := calls;
      CinsAlive();
      j := HaltSdps(cin, sdpWalk);
      KeptSame(old(sdps), old(calls), mid, sdpWalk[..j], cin);
      SamePointed(callids, old(sdps), mid, sdps);
      if j > 0 {
        KeptSame(old(sdps), old(calls), mid, sdpWalk[..j - 1], cin);
        SamePointed(callids, old(sdps), mid, KeptSdps(old(sdps), old(calls), sdpWalk[..j - 1], cin));
      }
      AtMostTwo(old(calls), mid, calls, cin);
      if Gone(old(calls), calls) == {} {
        assert callWalk[..i] == callWalk && sdpWalk[..j] == sdpWalk;
        NoneLeft(old(callids), old(sdps), old(calls), callWalk, sdpWalk, cin);
      } else if Sole(old(calls), cin) {
        SoleGone(calls, old(calls), cin);
      }
    }

    // Nothing was freed, so all entries of the CIN are gone, and there was no call of it.
    lemma NoneLeft(was: map<string, Entry>, wasSdps: map<nat, SdpEntry>, wasCalls: map<nat, Call>,
                   callWalk: seq<string>, sdpWalk: seq<nat>, cin: nat)
      requires Valid() && Lists(callWalk, was.Keys) && Lists(sdpWalk, wasSdps.Keys)
      requires calls.Keys == wasCalls.Keys && SameCins(wasCalls, calls)
      requires callids == KeptCalls(was, wasCalls, callWalk, cin) && sdps == KeptSdps(wasSdps, wasCalls, sdpWalk, cin)
      ensures forall k :: k in calls ==> calls[k].cin != cin
    {
      hide Counted;
      forall k | k in calls ensures calls[k].cin != cin {
        Pointed(callids, sdps, calls, k);
        var r :| r in Names(callids, sdps) && Target(callids, sdps, r) == k;
        match r
        case CallId(c) => assert c in callWalk;
        case Sdp(n) => assert n in sdpWalk;
      }
    }

    lemma CinsAlive()
      requires Valid()
      ensures forall c :: c in callids ==> callids[c].shared in calls && CallCin(c) == calls[callids[c].shared].cin
      ensures forall n :: n in sdps ==> sdps[n].entry.shared in calls && SdpCin(n) == calls[sdps[n].entry.shared].cin
    {
      forall c | c in callids ensures callids[c].shared in calls {
        Live(callids, sdps, calls, CallId(c));
      }
      forall n | n in sdps ensures sdps[n].entry.shared in calls {
        Live(callids, sdps, calls, Sdp(n));
      }
    }
  }

  // Once the only call with a CIN is freed, none has that CIN.
  lemma SoleGone(calls: map<nat, Call>, was: map<nat, Call>, cin: nat)
    requires SameCins(was, calls) && Sole(was, cin) && Gone(was, calls) != {}
    requires forall k :: k in Gone(was, calls) ==> was[k].cin == cin
    ensures forall j :: j in calls ==> calls[j].cin != cin
  {
    var k :| k in Gone(was, calls);
  }

  // ---- Freeing a withdrawn intercept ----

  ghost function CallIdsOf(callids: map<string, Entry>, k: nat): set<string> {
    set c | c in callids && callids[c].shared == k
  }

  // Each call is freed as often as call ids point to it.
  ghost predicate FreedAs(callids: map<string, Entry>, freed: seq<nat>) {
    forall k: nat :: multiset(freed)[k] == |CallIdsOf(callids, k)|
  }

  lemma FreeNext(callids: map<string, Entry>, freed: seq<nat>, c: string, e: Entry)
    requires FreedAs(callids, freed) && c !in callids
    ensures FreedAs(callids[c := e], freed + [e.shared])
  {
    forall k: nat ensures multiset(freed + [e.shared])[k] == |CallIdsOf(callids[c := e], k)| {
      assert multiset(freed)[k] == |CallIdsOf(callids, k)|;
      assert c !in CallIdsOf(callids, k);
      if k == e.shared {
        assert CallIdsOf(callids[c := e], k) == CallIdsOf(callids, k) + {c};
      } else {
        assert CallIdsOf(callids[c := e], k) == CallIdsOf(callids, k);
      }
    }
  }

  // The calls that free_voip_cinmap frees, in order; free_voip_sdpmap frees none.
  method FreeCallIds(callids: map<string, Entry>) returns (freed: seq<nat>)
    ensures FreedAs(callids, freed)
  {
    freed := [];
    var rest := callids;
    ghost var done: map<string, Entry> := map[];
    while rest != map[]
      invariant done.Keys !! rest.Keys && FreedAs(done, freed) && callids == done + rest
      decreases rest.Keys
    {
      var c :| c in rest;
      FreeNext(done, freed, c, rest[c]);
      freed := freed + [rest[c].shared];
      done := done[c := rest[c]];
      rest := rest - {c};
    }
    assert callids == done;
  }

  // No call is freed twice if and only if no two call ids share one.
  lemma FreedOnce(callids: map<string, Entry>, freed: seq<nat>)
    requires FreedAs(callids, freed)
    ensures (forall k: nat :: multiset(freed)[k] <= 1)
      <==> forall c, d :: c in callids && d in callids && callids[c].shared == callids[d].shared ==> c == d
  {
    if forall k: nat :: multiset(freed)[k] <= 1 {
      forall c, d | c in callids && d in callids && callids[c].shared == callids[d].shared ensures c == d {
        AtMostOneOf(CallIdsOf(callids, callids[c].shared), c, d);
      }
    } else {
      var k: nat :| multiset(freed)[k] > 1;
      TwoOf(CallIdsOf(callids, k));
    }
  }

  lemma AtMostOneOf(s: set<string>, c: string, d: string)
    requires |s| <= 1 && c in s && d in s
    ensures c == d
  {
    assert |s - {c}| == 0;
  }

  lemma TwoOf(s: set<string>)
    requires |s| > 1
    ensures exists c, d :: c in s && d in s && c != d
  {
    var c :| c in s;
    assert |s - {c}| > 0;
    var d :| d in s - {c};
    assert c in s && d in s && c != d;
  }

  // A call is freed at all if and only if a call id points to it.
  lemma FreedAtAll(callids: map<string, Entry>, freed: seq<nat>, k: nat)
    requires FreedAs(callids, freed)
    ensures k in freed <==> exists c :: c in callids && callids[c].shared == k
  {
    assert k in freed <==> multiset(freed)[k] > 0;
    if c :| c in callids && callids[c].shared == k {
      assert c in CallIdsOf(callids, k);
    } else {
      assert CallIdsOf(callids, k) == {};
    }
  }

  // Two INVITEs with different call ids for one session, and the withdrawal frees its call twice.
  method FreedTwice(a: string, b: string, key: string, target: Identity, cin: nat) returns (freed: seq<nat>, call: nat)
    requires a != b
    ensures multiset(freed)[call] == 2
  {
    var v := new VoipIntercept();
    var n := v.nextSdp;
    var first := v.ProcessInvite(a, key, false, Some(target), cin);
    assert v.sdps[n].key == key;
    var second := v.ProcessInvite(b, key, false, None, cin);
    call := first.shared;
    freed := FreeCallIds(v.callids);
    assert CallIdsOf(v.callids, call) == {a, b};
  }
}

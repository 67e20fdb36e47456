// The IRI types requested for a call as its SIP messages are seen.
module VoipIris {
  import opened Common

  datatype Iri = Begin | Continue | End | Report

  // Messages other than INVITE and REGISTER: 200 OK and 183 Session Progress, which may complete
  // the media of the INVITE they answer, BYE or CANCEL, and the rest.
  datatype Sip = Ok(cseq: string, complete: bool) | Progress(cseq: string, complete: bool) | Bye(cseq: string) | Other

  // What is remembered of a call: the CSeq of its latest INVITE and of its BYE, and whether the
  // BYE has been answered.
  datatype Status = Status(invite: Option<string>, bye: Option<string>, matched: bool)

  // The 200 OK answers the BYE.
  predicate Answers(st: Status, m: Sip) {
    m.Ok? && st.invite != Some(m.cseq) && st.bye == Some(m.cseq) && !st.matched
  }

  // Once its media are announced, the INVITE has been dealt with.
  function Announced(st: Status, m: Sip): Status {
    if (m.Ok? || m.Progress?) && m.complete && st.invite == Some(m.cseq) then st.(invite := None) else st
  }

  // One turn of process_sip_other's loop; the IRI type is carried from turn to turn.
  function Turn(st: Status, m: Sip, carried: Iri): (Status, Iri) {
    if Answers(st, m) then (st.(matched := true), End)
    else
      var st' := if m.Bye? && !st.matched then st.(bye := Some(m.cseq)) else Announced(st, m);
      (st', if st.matched && carried != End then Report else carried)
  }

  // All turns: the states and the types requested.
  function Turns(sts: seq<Status>, m: Sip, carried: Iri): (seq<Status>, seq<Iri>) {
    if sts == [] then ([], [])
    else
      var (st, iri) := Turn(sts[0], m, carried);
      var (rest, iris) := Turns(sts[1..], m, iri);
      ([st] + rest, [iri] + iris)
  }

  class RtpStream {
    var invitecseq: Option<string>
    var byecseq: Option<string>
    var byematched: bool

    function View(): Status
      reads this
    {
      Status(invitecseq, byecseq, byematched)
    }

    constructor ()
      ensures View() == Status(None, None, false)
    {
      invitecseq, byecseq, byematched := None, None, false;
    }

    // process_sip_200ok, but for what the media descriptions say
    method Process200Ok(cseq: string, complete: bool, iritype: Iri) returns (r: Iri)
      modifies this
      ensures View() == if Answers(old(View()), Ok(cseq, complete)) then old(View()).(matched := true)
                        else Announced(old(View()), Ok(cseq, complete))
      ensures r == if Answers(old(View()), Ok(cseq, complete)) then End else iritype
    {
      r := iritype;
      if invitecseq == Some(cseq) {
        if complete { invitecseq := None; }
      } else if byecseq == Some(cseq) && !byematched {
        byematched := true;
        r := End;
      }
    }

    // process_sip_183sessprog, likewise
    method Process183(cseq: string, complete: bool)
      modifies this
      ensures View() == Announced(old(View()), Progress(cseq, complete))
    {
      if invitecseq == Some(cseq) {
        if complete { invitecseq := None; }
      }
    }

    // One turn of the loop in process_sip_other
    method ProcessMessage(m: Sip, iritype: Iri) returns (r: Iri)
      modifies this
      ensures (View(), r) == Turn(old(View()), m, iritype)
    {
      r := iritype;
      if m.Ok? {
        r := Process200Ok(m.cseq, m.complete, r);
      }
      if m.Progress? {
        Process183(m.cseq, m.complete);
      }
      if m.Bye? && !byematched {
        byecseq := Some(m.cseq);
      }
      if byematched && r != End {
        r := Report;
      }
    }
  }

  ghost function Views(streams: seq<RtpStream>): seq<Status>
    reads streams
  {
    seq(|streams|, i requires 0 <= i < |streams| reads streams => streams[i].View())
  }

  // process_sip_other, over the streams of the intercepts that know the call
  method ProcessOther(streams: seq<RtpStream>, m: Sip) returns (iris: seq<Iri>)
    requires forall i, j :: 0 <= i < j < |streams| ==> streams[i] != streams[j]
    modifies streams
    ensures (Views(streams), iris) == Turns(old(Views(streams)), m, Continue)
  {
    var iritype := Continue;
    iris := [];
    ghost var was, done := Views(streams), [];
    var n := 0;
    TurnsWhole(was, m);
    while n < |streams|
      invariant n <= |streams| && |was| == |streams| && |done| == n
      invariant forall i :: n <= i < |streams| ==> streams[i].View() == was[i]
      invariant forall i :: 0 <= i < n ==> streams[i].View() == done[i]
      invariant TurnsFrom(was, n, m, iritype, done, iris) == Turns(was, m, Continue)
    {
      TurnsNext(was, n, m, iritype, done, iris);
      iritype := streams[n].ProcessMessage(m, iritype);
      done := done + [streams[n].View()];
      iris := iris + [iritype];
      n := n + 1;
    }
    assert was[n..] == [] && done + [] == done && iris + [] == iris;
    assert Views(streams) == done;
  }

  lemma TurnsWhole(was: seq<Status>, m: Sip)
    ensures TurnsFrom(was, 0, m, Continue, [], []) == Turns(was, m, Continue)
  {
    assert was[0..] == was;
    var (rest, more) := Turns(was, m, Continue);
    assert [] + rest == rest && [] + more == more;
  }

  // The turns still to come, after those done.
  ghost function TurnsFrom(was: seq<Status>, n: nat, m: Sip, carried: Iri, done: seq<Status>, iris: seq<Iri>)
    : (seq<Status>, seq<Iri>)
    requires n <= |was|
  {
    var (rest, more) := Turns(was[n..], m, carried);
    (done + rest, iris + more)
  }

  lemma TurnsNext(was: seq<Status>, n: nat, m: Sip, carried: Iri, done: seq<Status>, iris: seq<Iri>)
    requires n < |was|
    ensures var (st, iri) := Turn(was[n], m, carried);
      TurnsFrom(was, n, m, carried, done, iris) == TurnsFrom(was, n + 1, m, iri, done + [st], iris + [iri])
  {
    var (st, iri) := Turn(was[n], m, carried);
    assert was[n..][1..] == was[n + 1..];
    var (rest, more) := Turns(was[n + 1..], m, iri);
    assert done + ([st] + rest) == done + [st] + rest;
    assert iris + ([iri] + more) == iris + [iri] + more;
  }

  // ---- A call tracked by a single intercept ----

  // A purge of the target the call was made for takes away its call id, so that the next INVITE for
  // another target makes a new stream, which is found in place of the old one.
  datatype Event = Invite(cseq: string) | Message(m: Sip) | Purge

  // The state of the call, if any, and the IRI types requested for an event: the first INVITE
  // begins the call, later ones continue it.
  function CallStep(call: Option<Status>, e: Event): (Option<Status>, seq<Iri>) {
    match e
    case Invite(cseq) =>
      if call.None? then (Some(Status(Some(cseq), None, false)), [Begin])
      else (Some(call.value.(invite := Some(cseq))), [Continue])
    case Message(m) =>
      if call.None? then (None, [])
      else
        var (sts, iris) := Turns([call.value], m, Continue);
        (Some(sts[0]), iris)
    case Purge => (None, [])
  }

  function Trace(es: seq<Event>): (Option<Status>, seq<Iri>) {
    if es == [] then (None, [])
    else
      var (call, iris) := Trace(es[..|es| - 1]);
      var (call', more) := CallStep(call, es[|es| - 1]);
      (call', iris + more)
  }

  // ---- When a call ends ----

  predicate Completes(e: Event, cseq: string) {
    e.Message? && (e.m.Ok? || e.m.Progress?) && e.m.complete && e.m.cseq == cseq
  }

  // The latest INVITE has this CSeq, and its media have not been announced since.
  ghost predicate Pending(es: seq<Event>, cseq: string) {
    exists i :: 0 <= i < |es| && es[i] == Invite(cseq) && AsksSince(es, i, cseq)
  }

  ghost predicate AsksSince(es: seq<Event>, i: nat, cseq: string) {
    forall k :: i < k < |es| ==> !es[k].Invite? && !es[k].Purge? && !Completes(es[k], cseq)
  }

  // The latest BYE of the call has this CSeq.
  ghost predicate ByeHeld(es: seq<Event>, cseq: string) {
    exists i :: 0 <= i < |es| && ByeAt(es, i, cseq) && ByeSince(es, i)
  }

  ghost predicate ByeAt(es: seq<Event>, i: nat, cseq: string)
    requires i < |es|
  {
    es[i] == Message(Bye(cseq)) && Trace(es[..i]).0.Some?
  }

  ghost predicate ByeSince(es: seq<Event>, i: nat) {
    forall k :: i < k < |es| ==> !es[k].Purge? && !(es[k].Message? && es[k].m.Bye?)
  }

  lemma PendingNext(es: seq<Event>, e: Event, cseq: string)
    ensures Pending(es + [e], cseq)
      <==> e == Invite(cseq) || (Pending(es, cseq) && !e.Invite? && !e.Purge? && !Completes(e, cseq))
  {
    var n := |es|;
    if e == Invite(cseq) { assert (es + [e])[n] == Invite(cseq) && AsksSince(es + [e], n, cseq); }
    if Pending(es, cseq) && !e.Invite? && !e.Purge? && !Completes(e, cseq) {
      var i :| 0 <= i < |es| && es[i] == Invite(cseq) && AsksSince(es, i, cseq);
      assert (es + [e])[i] == Invite(cseq) && AsksSince(es + [e], i, cseq);
    }
    if Pending(es + [e], cseq) && e != Invite(cseq) {
      var i :| 0 <= i <= n && (es + [e])[i] == Invite(cseq) && AsksSince(es + [e], i, cseq);
      assert i < n && es[i] == Invite(cseq);
      assert forall k :: i < k < n ==> (es + [e])[k] == es[k];
      assert AsksSince(es, i, cseq) && (es + [e])[n] == e;
    }
  }

  lemma HungNext(es: seq<Event>, e: Event, cseq: string)
    ensures ByeHeld(es + [e], cseq)
      <==> || (e == Message(Bye(cseq)) && Trace(es).0.Some?)
           || (ByeHeld(es, cseq) && !e.Purge? && !(e.Message? && e.m.Bye?))
  {
    var n := |es|;
    assert (es + [e])[..n] == es;
    assert forall i :: 0 <= i < n ==> (es + [e])[..i] == es[..i] && (es + [e])[i] == es[i];
    if e == Message(Bye(cseq)) && Trace(es).0.Some? {
      assert ByeAt(es + [e], n, cseq) && ByeSince(es + [e], n);
    }
    if ByeHeld(es, cseq) && !e.Purge? && !(e.Message? && e.m.Bye?) {
      var i :| 0 <= i < |es| && ByeAt(es, i, cseq) && ByeSince(es, i);
      assert ByeAt(es + [e], i, cseq) && ByeSince(es + [e], i);
    }
    if ByeHeld(es + [e], cseq) {
      var i :| 0 <= i <= n && ByeAt(es + [e], i, cseq) && ByeSince(es + [e], i);
      if i < n { assert ByeAt(es, i, cseq) && ByeSince(es, i) && (es + [e])[n] == e; }
    }
  }

  // What a call remembers after one more event.
  lemma StepRemembers(call: Option<Status>, e: Event, cseq: string)
    ensures CallStep(call, e).0.Some? <==> e.Invite? || (call.Some? && !e.Purge?)
    ensures call.Some? && !e.Purge? ==>
      var st, st' := call.value, CallStep(call, e).0.value;
      && (st'.invite == Some(cseq)
          <==> e == Invite(cseq) || (st.invite == Some(cseq) && !e.Invite? && !Completes(e, cseq)))
      && (!st'.matched ==>
            && !st.matched
            && (st'.bye == Some(cseq)
                <==> e == Message(Bye(cseq)) || (st.bye == Some(cseq) && !(e.Message? && e.m.Bye?))))
    ensures call.None? && e.Invite? ==>
      CallStep(call, e).0.value == Status(Some(e.cseq), None, false)
  {
    if e.Message? && call.Some? {
      assert Turns([call.value], e.m, Continue).0 == [Turn(call.value, e.m, Continue).0];
    }
  }

  // What is remembered of a call is what its messages say.
  lemma {:induction false} Remembered(es: seq<Event>, cseq: string)
    ensures var call := Trace(es).0;
      && (call.Some? ==>
            && (call.value.invite == Some(cseq) <==> Pending(es, cseq))
            && (!call.value.matched ==> (call.value.bye == Some(cseq) <==> ByeHeld(es, cseq))))
      && (call.None? ==> !Pending(es, cseq) && !ByeHeld(es, cseq))
  {
    if es != [] {
      var n := |es| - 1;
      assert es == es[..n] + [es[n]];
      Remembered(es[..n], cseq);
      PendingNext(es[..n], es[n], cseq);
      HungNext(es[..n], es[n], cseq);
      StepRemembers(Trace(es[..n]).0, es[n], cseq);
      hide Pending, ByeHeld, CallStep;
    }
  }

  // A message ends a call that goes on if and only if it is the 200 OK for its latest BYE, and not
  // one for an INVITE whose media are still awaited.
  lemma EndsExactly(es: seq<Event>, m: Sip)
    requires Trace(es).0.Some? && !Trace(es).0.value.matched
    ensures Trace(es + [Message(m)]).1
      == Trace(es).1 + [if m.Ok? && ByeHeld(es, m.cseq) && !Pending(es, m.cseq) then End else Continue]
  {
    if m.Ok? { Remembered(es, m.cseq); }
    assert (es + [Message(m)])[..|es|] == es;
    var st := Trace(es).0.value;
    assert Turns([st], m, Continue).1 == [Turn(st, m, Continue).1];
  }

  // BEGIN CONTINUE* (END REPORT*)?, where `end` is the place of the END or the length.
  predicate Formed(iris: seq<Iri>, end: nat) {
    && 1 <= end <= |iris| && iris[0] == Begin
    && (forall i :: 1 <= i < end ==> iris[i] == Continue)
    && (end < |iris| ==> iris[end] == End)
    && (forall i :: end < i < |iris| ==> iris[i] == Report)
  }

  predicate WellFormed(iris: seq<Iri>) {
    iris == [] || exists end :: 1 <= end <= |iris| && Formed(iris, end)
  }

  predicate Ended(call: Option<Status>) {
    call.Some? && call.value.matched
  }

  // The BYE has been answered, or the call was begun and has been purged.
  predicate TooLate(call: Option<Status>, iris: seq<Iri>) {
    Ended(call) || (call.None? && iris != [])
  }

  // No INVITE comes after that.
  predicate NoLateInvite(es: seq<Event>) {
    forall i :: 0 <= i < |es| && es[i].Invite? ==> !TooLate(Trace(es[..i]).0, Trace(es[..i]).1)
  }

  // The types so far, by the state of the call.
  ghost predicate Shape(call: Option<Status>, iris: seq<Iri>) {
    if call.None? then WellFormed(iris)
    else if !call.value.matched then Formed(iris, |iris|)
    else exists end :: 1 <= end < |iris| && Formed(iris, end)
  }

  lemma StepShape(call: Option<Status>, iris: seq<Iri>, e: Event)
    requires Shape(call, iris) && !(e.Invite? && TooLate(call, iris))
    ensures Shape(CallStep(call, e).0, iris + CallStep(call, e).1)
  {
    var (call', more) := CallStep(call, e);
    assert iris + [] == iris;
    if e.Purge? {
      ShapeFormed(call, iris);
    } else if call.Some? {
      if e.Message? {
        assert Turns([call.value], e.m, Continue).1 == [Turn(call.value, e.m, Continue).1];
      }
      if call.value.matched {
        var end :| 1 <= end < |iris| && Formed(iris, end);
        assert Formed(iris + more, end);
      } else if Ended(call') {
        assert Formed(iris + more, |iris|);
      }
    }
  }

  lemma {:induction false} TraceShape(es: seq<Event>)
    requires NoLateInvite(es)
    ensures Shape(Trace(es).0, Trace(es).1)
  {
    if es != [] {
      var n := |es| - 1;
      assert forall i :: 0 <= i < n ==> es[..n][..i] == es[..i];
      TraceShape(es[..n]);
      StepShape(Trace(es[..n]).0, Trace(es[..n]).1, es[n]);
    }
  }

  lemma PrefixFormed(a: seq<Iri>, b: seq<Iri>)
    requires WellFormed(a + b)
    ensures WellFormed(a)
  {
    if a != [] {
      var end :| 1 <= end <= |a + b| && Formed(a + b, end);
      assert forall i :: 0 <= i < |a| ==> a[i] == (a + b)[i];
      assert Formed(a, if end <= |a| then end else |a|);
    }
  }

  lemma {:induction false} TraceGrows(es: seq<Event>, i: nat)
    requires i <= |es|
    ensures Trace(es[..i]).1 <= Trace(es).1
  {
    if i < |es| {
      var n := |es| - 1;
      TraceGrows(es[..n], i);
      assert es[..n][..i] == es[..i];
    } else {
      assert es[..i] == es;
    }
  }

  // A CONTINUE after the END is not of the form.
  lemma LateContinue(iris: seq<Iri>, end: nat)
    requires 1 <= end < |iris| && Formed(iris, end)
    ensures !WellFormed(iris + [Continue])
  {
    var late := iris + [Continue];
    forall e | 1 <= e <= |late| ensures !Formed(late, e) {
      assert late[end] == End && late[|iris|] == Continue;
      assert e < end ==> late[e] == Continue;
    }
  }

  // The first late INVITE.
  lemma {:induction false} FirstLate(es: seq<Event>) returns (i: nat)
    requires !NoLateInvite(es)
    ensures i < |es| && es[i].Invite? && TooLate(Trace(es[..i]).0, Trace(es[..i]).1) && NoLateInvite(es[..i])
  {
    var n := |es| - 1;
    if NoLateInvite(es[..n]) {
      assert forall k :: 0 <= k < n ==> es[..n][..k] == es[..k];
      i := n;
    } else {
      i := FirstLate(es[..n]);
      assert es[..n][..i] == es[..i];
    }
  }

  lemma LateBreaks(es: seq<Event>, i: nat)
    requires i < |es| && es[i].Invite? && TooLate(Trace(es[..i]).0, Trace(es[..i]).1) && NoLateInvite(es[..i])
    ensures !WellFormed(Trace(es[..i + 1]).1)
  {
    TraceShape(es[..i]);
    var iris := Trace(es[..i]).1;
    if Ended(Trace(es[..i]).0) {
      var end :| 1 <= end < |iris| && Formed(iris, end);
      LateContinue(iris, end);
    } else {
      LateBegin(iris);
    }
    assert es[..i + 1][..i] == es[..i];
  }

  // Nor is another BEGIN.
  lemma LateBegin(iris: seq<Iri>)
    requires iris != []
    ensures !WellFormed(iris + [Begin])
  {
    var late := iris + [Begin];
    forall e | 1 <= e <= |late| ensures !Formed(late, e) {
      assert late[|iris|] == Begin;
    }
  }

  lemma LateNotFormed(es: seq<Event>)
    requires !NoLateInvite(es)
    ensures !WellFormed(Trace(es).1)
  {
    var i := FirstLate(es);
    LateBreaks(es, i);
    TraceGrows(es, i + 1);
    NotFormedBefore(Trace(es[..i + 1]).1, Trace(es).1);
  }

  lemma NotFormedBefore(early: seq<Iri>, all: seq<Iri>)
    requires early <= all && !WellFormed(early)
    ensures !WellFormed(all)
  {
    assert early + all[|early|..] == all;
    if WellFormed(all) {
      PrefixFormed(early, all[|early|..]);
    }
  }

  lemma ShapeFormed(call: Option<Status>, iris: seq<Iri>)
    requires Shape(call, iris)
    ensures WellFormed(iris)
  {
  }

  // The types requested for the call are BEGIN CONTINUE* (END REPORT*)? if and only if no INVITE
  // comes after the answered BYE, or after a purge of the call.
  lemma IrisWellFormed(es: seq<Event>)
    ensures WellFormed(Trace(es).1) <==> NoLateInvite(es)
  {
    if NoLateInvite(es) {
      TraceShape(es);
      ShapeFormed(Trace(es).0, Trace(es).1);
    } else {
      LateNotFormed(es);
    }
  }

  lemma TraceNext(es: seq<Event>, e: Event)
    ensures Trace(es + [e]) == (CallStep(Trace(es).0, e).0, Trace(es).1 + CallStep(Trace(es).0, e).1)
  {
    assert (es + [e])[..|es|] == es;
  }

  // One message of a call that only this intercept knows.
  lemma TraceMessage(es: seq<Event>, st: Status, iris: seq<Iri>, m: Sip)
    requires Trace(es) == (Some(st), iris)
    ensures Trace(es + [Message(m)]) == (Some(Turn(st, m, Continue).0), iris + [Turn(st, m, Continue).1])
  {
    TraceNext(es, Message(m));
    assert [st][1..] == [];
    var (st', iri) := Turn(st, m, Continue);
    assert Turns([], m, iri) == ([], []) && [st'] + [] == [st'] && [iri] + [] == [iri];
  }

  lemma TraceInvite(es: seq<Event>, st: Status, iris: seq<Iri>, cseq: string)
    requires Trace(es) == (Some(st), iris)
    ensures Trace(es + [Invite(cseq)]) == (Some(st.(invite := Some(cseq))), iris + [Continue])
  {
    TraceNext(es, Invite(cseq));
  }

  function Hangup(cseq: string, bye: string): seq<Event> {
    [Invite(cseq)] + [Message(Bye(bye))]
  }

  lemma HungUp(cseq: string, bye: string)
    ensures Trace([Invite(cseq)]) == (Some(Status(Some(cseq), None, false)), [Begin])
    ensures Trace(Hangup(cseq, bye)) == (Some(Status(Some(cseq), Some(bye), false)), [Begin, Continue])
  {
    TraceNext([], Invite(cseq));
    assert [] + [Invite(cseq)] == [Invite(cseq)] && [] + [Begin] == [Begin];
    TraceMessage([Invite(cseq)], Status(Some(cseq), None, false), [Begin], Bye(bye));
    assert [Begin] + [Continue] == [Begin, Continue];
  }

  lemma Answered(cseq: string, bye: string)
    requires cseq != bye
    ensures Trace(Hangup(cseq, bye) + [Message(Ok(bye, false))])
      == (Some(Status(Some(cseq), Some(bye), true)), [Begin, Continue, End])
  {
    HungUp(cseq, bye);
    TraceMessage(Hangup(cseq, bye), Status(Some(cseq), Some(bye), false), [Begin, Continue], Ok(bye, false));
    assert [Begin, Continue] + [End] == [Begin, Continue, End];
  }

  // For instance, a call taken up again after it was hung up.
  lemma TakenUpAgain(cseq: string, bye: string, again: string)
    requires cseq != bye
    ensures var es := Hangup(cseq, bye) + [Message(Ok(bye, false))] + [Invite(again)];
      && Trace(es) == (Some(Status(Some(again), Some(bye), true)), [Begin, Continue, End, Continue])
      && !WellFormed(Trace(es).1)
  {
    Answered(cseq, bye);
    var es, iris := Hangup(cseq, bye) + [Message(Ok(bye, false))], [Begin, Continue, End];
    TraceInvite(es, Status(Some(cseq), Some(bye), true), iris, again);
    assert Formed(iris, 2);
    LateContinue(iris, 2);
    assert iris + [Continue] == [Begin, Continue, End, Continue];
  }

  // Or a call that is purged with its target and taken up for another one.
  lemma BegunTwice(cseq: string, again: string)
    ensures var es := [Invite(cseq)] + [Purge] + [Invite(again)];
      Trace(es).1 == [Begin, Begin] && !WellFormed(Trace(es).1)
  {
    HungUp(cseq, cseq);
    TraceNext([Invite(cseq)], Purge);
    assert [Begin] + [] == [Begin] && [Begin] + [Begin] == [Begin, Begin];
    TraceNext([Invite(cseq)] + [Purge], Invite(again));
    LateBegin([Begin]);
  }

  lemma OneEnd(iris: seq<Iri>, i: nat, j: nat)
    requires WellFormed(iris) && i < |iris| && j < |iris| && iris[i] == End && iris[j] == End
    ensures i == j
  {
    var end :| 1 <= end <= |iris| && Formed(iris, end);
  }

  // ---- Several intercepts ----

  // A type carried over from another intercept's turn is the right one if and only if it is
  // still CONTINUE, or this call ends now, or has ended and the other one's had too.
  lemma CarriedOver(st: Status, m: Sip, carried: Iri)
    requires carried != Begin
    ensures Turn(st, m, carried).1 == Turn(st, m, Continue).1
      <==> carried == Continue || Answers(st, m) || (carried == Report && st.matched)
  {
  }

  // A type carried from one turn to the next does no harm: if the first call ends now, so does the
  // second; if the first has ended, the second has or does.
  predicate Passes(a: Status, b: Status, m: Sip) {
    (Answers(a, m) ==> Answers(b, m)) && (a.matched ==> b.matched || Answers(b, m))
  }

  predicate AllPass(sts: seq<Status>, m: Sip) {
    forall i :: 0 <= i < |sts| - 1 ==> Passes(sts[i], sts[i + 1], m)
  }

  predicate Unharmed(sts: seq<Status>, m: Sip, carried: Iri) {
    sts != [] ==> carried == Continue || Answers(sts[0], m) || (carried == Report && sts[0].matched)
  }

  // Each intercept is given the type it would get alone.
  predicate OwnTypes(sts: seq<Status>, m: Sip, iris: seq<Iri>) {
    |iris| == |sts| && forall i :: 0 <= i < |sts| ==> iris[i] == Turn(sts[i], m, Continue).1
  }

  lemma {:induction false} TurnsOwnFrom(sts: seq<Status>, m: Sip, carried: Iri)
    requires carried != Begin
    ensures OwnTypes(sts, m, Turns(sts, m, carried).1) <==> Unharmed(sts, m, carried) && AllPass(sts, m)
  {
    if sts != [] {
      var iri, rest := Turn(sts[0], m, carried).1, sts[1..];
      CarriedOver(sts[0], m, carried);
      TurnsOwnFrom(rest, m, iri);
      OwnFirst(sts, m, iri, Turns(rest, m, iri).1);
      PassFirst(sts, m);
    }
  }

  lemma OwnFirst(sts: seq<Status>, m: Sip, iri: Iri, iris: seq<Iri>)
    requires sts != []
    ensures OwnTypes(sts, m, [iri] + iris) <==> iri == Turn(sts[0], m, Continue).1 && OwnTypes(sts[1..], m, iris)
  {
    if OwnTypes(sts, m, [iri] + iris) {
      assert ([iri] + iris)[0] == iri;
      assert forall i :: 0 <= i < |iris| ==> iris[i] == ([iri] + iris)[i + 1] && sts[1..][i] == sts[i + 1];
    }
  }

  lemma PassFirst(sts: seq<Status>, m: Sip)
    requires sts != []
    ensures AllPass(sts, m) <==> (|sts| > 1 ==> Passes(sts[0], sts[1], m)) && AllPass(sts[1..], m)
  {
    if AllPass(sts[1..], m) && (|sts| > 1 ==> Passes(sts[0], sts[1], m)) {
      forall i | 0 <= i < |sts| - 1 ensures Passes(sts[i], sts[i + 1], m) {
        if i > 0 { assert Passes(sts[1..][i - 1], sts[1..][i], m); }
      }
    }
    if AllPass(sts, m) {
      forall i | 0 <= i < |sts[1..]| - 1 ensures Passes(sts[1..][i], sts[1..][i + 1], m) {
        assert Passes(sts[i + 1], sts[i + 2], m);
      }
    }
  }

  // Over the whole loop: every intercept is given its own type if and only if each type can be
  // carried from one call to the next.
  lemma TurnsOwn(sts: seq<Status>, m: Sip)
    ensures OwnTypes(sts, m, Turns(sts, m, Continue).1) <==> AllPass(sts, m)
  {
    TurnsOwnFrom(sts, m, Continue);
  }

  lemma TwoTurns(a: Status, b: Status, m: Sip)
    ensures var first := Turn(a, m, Continue).1; Turns([a, b], m, Continue).1 == [first, Turn(b, m, first).1]
    ensures Turns([b], m, Continue).1 == [Turn(b, m, Continue).1]
  {
    assert [a, b][1..] == [b] && [b][1..] == [];
    var first := Turn(a, m, Continue).1;
    assert Turns([b], m, first).1 == [Turn(b, m, first).1];
  }

  // So an intercept whose call goes on is given REPORT, or END, when another's is over: here the
  // first intercept has known the call from the start, and the second since it was taken up again.
  lemma TypeLeaks(cseq: string, bye: string, again: string)
    requires cseq != bye && again != bye
    ensures var over := Trace(Hangup(cseq, bye) + [Message(Ok(bye, false))] + [Invite(again)]).0;
      var on := Trace([Invite(again)]).0;
      && over.Some? && on.Some?
      && Turns([over.value, on.value], Other, Continue).1 == [Report, Report]
      && Turns([on.value], Other, Continue).1 == [Continue]
    ensures var ending, on := Trace(Hangup(cseq, bye) + [Invite(again)]).0, Trace([Invite(again)]).0;
      && ending.Some? && on.Some?
      && Turns([ending.value, on.value], Ok(bye, false), Continue).1 == [End, End]
      && Turns([on.value], Ok(bye, false), Continue).1 == [Continue]
  {
    TakenUpAgain(cseq, bye, again);
    HungUp(cseq, bye);
    HungUp(again, bye);
    TraceInvite(Hangup(cseq, bye), Status(Some(cseq), Some(bye), false), [Begin, Continue], again);
    var on := Status(Some(again), None, false);
    TwoTurns(Status(Some(again), Some(bye), true), on, Other);
    TwoTurns(Status(Some(again), Some(bye), false), on, Ok(bye, false));
  }
}

// The forwarding thread's reorderer tables and destination buffers
// (src/collector/collector_forwarder.c).  A destination's export buffer is represented by
// the records appended to it.
module Forwarder {
  import opened Common
  import opened Reorder

  type Table = map<string, Reorderer>

  datatype State = State(cc: Table, iri: Table, dests: map<nat, seq<Record>>)

  function TableFor(s: State, cc: bool): Table {
    if cc then s.cc else s.iri
  }

  function ReordererFor(t: Table, rec: Record): Reorderer {
    if rec.cinstr in t then t[rec.cinstr] else Fresh(rec.job.liid)
  }

  function Appended(dests: map<nat, seq<Record>>, d: nat): seq<Record> {
    if d in dests then dests[d] else []
  }

  // The records put in order by the CC reorderers.
  predicate QueuesCC(kind: JobType) {
    kind.IpCC? || kind.IpmmCC? || kind.UmtsCC? || kind.EmailCC?
  }

  // handle_encoded_result as a function of the state.
  function Handle(s: State, rec: Record): State {
    var cc := QueuesCC(rec.job.kind);
    var t := TableFor(s, cc);
    var (r, out) := Accept(ReordererFor(t, rec), rec);
    var t' := t[rec.cinstr := r];
    var dests' := s.dests[rec.job.destid := Appended(s.dests, rec.job.destid) + out];
    if cc then State(t', s.iri, dests') else State(s.cc, t', dests')
  }

  // Each kind of record by name: whose reorderer it goes to, and that the other table is left alone.
  lemma TableByKind(s: State, rec: Record)
    ensures rec.job.kind in {IpCC, IpmmCC, UmtsCC, EmailCC} ==>
      && Handle(s, rec).iri == s.iri
      && Handle(s, rec).cc == s.cc[rec.cinstr := Accept(ReordererFor(s.cc, rec), rec).0]
    ensures rec.job.kind in {IpIRI, IpmmIRI, UmtsIRI, EmailIRI, RawSync} ==>
      && Handle(s, rec).cc == s.cc
      && Handle(s, rec).iri == s.iri[rec.cinstr := Accept(ReordererFor(s.iri, rec), rec).0]
  {
  }

  // remove_reorderers: all of one LIID, or all when none is given.
  function Without(t: Table, liid: Option<string>): Table {
    map k | k in t && liid.Some? && t[k].liid != liid.value :: t[k]
  }

  class ForwardingThread {
    var reorderersCc: Table
    var reorderersIri: Table
    var destinations: map<nat, seq<Record>>

    function View(): State
      reads this
    {
      State(reorderersCc, reorderersIri, destinations)
    }

    constructor ()
      ensures View() == State(map[], map[], map[])
    {
      reorderersCc, reorderersIri, destinations := map[], map[], map[];
    }

    // append_message_to_buffer
    method Append(med: nat, rec: Record)
      requires med in destinations
      modifies `destinations
      ensures destinations == old(destinations)[med := old(destinations)[med] + [rec]]
    {
      destinations := destinations[med := destinations[med] + [rec]];
    }

    // The part of enqueue_result that changes one reorderer and appends to the destination.
    method Enqueue(reord: Reorderer, med: nat, rec: Record) returns (reord': Reorderer)
      requires med in destinations
      modifies `destinations
      ensures reord' == Accept(reord, rec).0
      ensures destinations == old(destinations)[med := old(destinations)[med] + Accept(reord, rec).1]
    {
      reord' := reord;
      if rec.seqno != reord'.expected {
        reord' := reord'.(pending := reord'.pending[rec.seqno := rec]);
        assert destinations[med] + [] == destinations[med];
        return;
      }
      Append(med, rec);
      reord' := reord'.(expected := Next(rec.seqno));
      ghost var goal := Drain(reord');
      while reord'.expected in reord'.pending
        invariant med in destinations && Drain(reord').0 == goal.0
        invariant destinations[med] + Drain(reord').1 == old(destinations)[med] + [rec] + goal.1
        invariant destinations == old(destinations)[med := destinations[med]]
        decreases |reord'.pending|
      {
        var stored := reord'.pending[reord'.expected];
        ghost var rest := Drain(reord').1;
        reord' := reord'.(pending := reord'.pending - {reord'.expected});
        Append(med, stored);
        reord' := reord'.(expected := Next(stored.seqno));
        assert rest == [stored] + Drain(reord').1;
      }
      assert destinations[med] + [] == destinations[med];
      assert old(destinations)[med] + [rec] + goal.1 == old(destinations)[med] + ([rec] + goal.1);
    }

    method HandleEncodedResult(rec: Record)
      modifies this
      ensures View() == Handle(old(View()), rec)
    {
      var med := rec.job.destid;
      if med !in destinations {
        destinations := destinations[med := []];
      }
      var kind := rec.job.kind;
      if kind.IpCC? || kind.IpmmCC? || kind.UmtsCC? || kind.EmailCC? {
        var reord := Enqueue(ReordererFor(reorderersCc, rec), med, rec);
        reorderersCc := reorderersCc[rec.cinstr := reord];
      } else {
        var reord := Enqueue(ReordererFor(reorderersIri, rec), med, rec);
        reorderersIri := reorderersIri[rec.cinstr := reord];
      }
    }

    // OPENLI_EXPORT_INTERCEPT_OVER
    method InterceptOver(liid: string)
      modifies this
      ensures View() == State(Without(old(reorderersCc), Some(liid)), Without(old(reorderersIri), Some(liid)),
                              old(destinations))
    {
      reorderersCc := RemoveReorderers(reorderersCc, Some(liid));
      reorderersIri := RemoveReorderers(reorderersIri, Some(liid));
    }
  }

  method RemoveReorderers(t: Table, liid: Option<string>) returns (t': Table)
    ensures t' == Without(t, liid) && (liid.None? ==> t' == map[])
  {
    t' := t;
    var todo := t.Keys;
    while todo != {}
      invariant todo <= t.Keys
      invariant forall k :: k in t' <==> k in t && (k in todo || (liid.Some? && t[k].liid != liid.value))
      invariant forall k :: k in t' ==> t'[k] == t[k]
      decreases |todo|
    {
      var index :| index in todo;
      todo := todo - {index};
      if liid.None? || t[index].liid == liid.value {
        t' := t' - {index};
      }
    }
  }
}

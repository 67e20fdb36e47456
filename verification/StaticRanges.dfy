// Static IP ranges in a collector thread (src/collector/collector_push_messaging.c): the
// LIID sets on the trie's nodes, and the session table whose reference counts must agree
// with them.
module StaticRanges {
  import opened Common
  import opened Keys
  import opened Patricia
  import opened Sessions
  import RefCounts

  // The liid_set_t hash on a trie node: for each LIID its CIN and "LIID-CIN" key.
  datatype LiidInfo = LiidInfo(cin: nat, key: string)
  type LiidSet = map<string, LiidInfo>
  type RangeNode = Node<LiidSet>
  type RangeTree = Tree<LiidSet>

  // A range string as ascii2prefix reads it: its family, and its prefix unless malformed.
  type Sized = p: Prefix | p.bitlen <= |p.addr| witness Prefix([], 0)
  datatype Range = Range(v6: bool, prefix: Option<Sized>)

  // An entry is the LIID in the set of a prefix.
  datatype Place = Place(v6: bool, bits: seq<bool>, liid: string)

  // ---- Messages ----

  // The three messages about static ranges; `intact` tells whether freed keys still compare as they
  // were.
  datatype Message =
    | Announce(range: Range, liid: string, cin: nat, intact: bool)
    | Modify(range: Range, liid: string, cin: nat, intact: bool)
    | Withdraw(range: Range, liid: string, cin: nat, intact: bool)

  // The entries with their keys, and the session table.
  datatype State = State(entries: map<Place, string>, table: Table<Place>)

  const NOTHING := State(map[], Table(map[], multiset{}))

  function PlaceOf(r: Range, liid: string): Place
    requires r.prefix.Some?
  {
    Place(r.v6, Masked(r.prefix.value), liid)
  }

  predicate Held(entries: map<Place, string>, m: Message) {
    m.range.prefix.Some? && PlaceOf(m.range, m.liid) in entries
  }

  // What a message does.  A range announced again, or changed without being held, changes nothing; a
  // withdrawn one gives up a reference whether or not it was held.
  function Handled(st: State, m: Message): State {
    var key := SessionKey(m.liid, m.cin);
    if Held(st.entries, m) then
      var e := PlaceOf(m.range, m.liid);
      match m
      case Announce(_, _, _, _) => st
      case Modify(_, _, _, intact) => State(st.entries[e := key], Moved(st.table, e, st.entries[e], key, intact))
      case Withdraw(_, _, _, intact) => State(st.entries - {e}, Removed(st.table, e, key, intact))
    else
      match m
      case Announce(r, liid, _, intact) =>
        if r.prefix.None? then st
        else State(st.entries[PlaceOf(r, liid) := key], Retain(st.table, key, Own, intact))
      case Modify(_, _, _, _) => st
      case Withdraw(_, _, _, intact) => State(st.entries, Release(st.table, key, intact))
  }

  // The entry lends its key to a session that other entries refer to as well.
  ghost predicate SharedKey(t: Table<Place>, e: Place, key: string) {
    Lends(t, e, key) && t.live[key].refs > 1
  }

  // Removing an entry with its key freed first leaves no session behind and none without its key.
  ghost predicate Removable(t: Table<Place>, e: Place, held: string, key: string, intact: bool) {
    key == held && (Lends(t, e, key) ==> t.live[key].refs == 1 && intact)
  }

  // The session table agrees with the entries.
  ghost predicate InStep(st: State) {
    Exact(st.entries, st.table)
  }

  // The messages that keep it so.
  ghost predicate Keeps(st: State, m: Message) {
    var key := SessionKey(m.liid, m.cin);
    if Held(st.entries, m) then
      var e := PlaceOf(m.range, m.liid);
      && (m.Modify? ==> !SharedKey(st.table, e, st.entries[e]))
      && (m.Withdraw? ==> Removable(st.table, e, st.entries[e], key, m.intact))
    else
      m.Withdraw? ==> key !in st.table.live
  }

  // A message keeps the table in step if and only if it is one of those.  A changed range's entry
  // must not lend its key to a session that others refer to.  A withdrawn one must come with its
  // current CIN, and its entry lend its key to nobody, or to its own session only while the freed
  // bytes last; or there must be neither an entry nor a session.
  lemma MessageExact(st: State, m: Message)
    requires InStep(st)
    ensures InStep(Handled(st, m)) <==> Keeps(st, m)
  {
    hide Exact;
    var key := SessionKey(m.liid, m.cin);
    if Held(st.entries, m) {
      var e := PlaceOf(m.range, m.liid);
      match m
      case Announce(_, _, _, _) =>
      case Modify(_, _, _, intact) => MoveExact(st.entries, st.table, e, key, intact);
      case Withdraw(_, _, _, intact) => RemoveExact(st.entries, st.table, e, key, intact);
    } else {
      match m
      case Announce(r, liid, _, intact) =>
        if r.prefix.Some? { AddExact(st.entries, st.table, PlaceOf(r, liid), key, intact); }
      case Modify(_, _, _, _) =>
      case Withdraw(_, _, _, intact) => ReleaseExact(st.entries, st.table, key, intact);
    }
  }

  ghost function HandledAll(st: State, ms: seq<Message>): State {
    if ms == [] then st else Handled(HandledAll(st, ms[..|ms| - 1]), ms[|ms| - 1])
  }

  lemma HandledNext(st: State, ms: seq<Message>, m: Message)
    ensures HandledAll(st, ms + [m]) == Handled(HandledAll(st, ms), m)
  {
    assert (ms + [m])[..|ms|] == ms;
  }

  ghost predicate InStepThroughout(st: State, ms: seq<Message>) {
    InStep(HandledAll(st, ms)) && (ms != [] ==> InStepThroughout(st, ms[..|ms| - 1]))
  }

  ghost predicate AllKeep(st: State, ms: seq<Message>) {
    ms != [] ==>
      var n := |ms| - 1;
      AllKeep(st, ms[..n]) && Keeps(HandledAll(st, ms[..n]), ms[n])
  }

  // The table is in step all through a run of messages if and only if each of them keeps it so.
  lemma {:induction false} RunExact(st: State, ms: seq<Message>)
    requires InStep(st)
    ensures InStepThroughout(st, ms) <==> AllKeep(st, ms)
  {
    hide InStep, Keeps, Handled;
    if ms != [] {
      var n := |ms| - 1;
      RunExact(st, ms[..n]);
      var t := HandledAll(st, ms[..n]);
      if InStep(t) { MessageExact(t, ms[n]); }
    }
  }

  // The CIN of a range by its messages: that of its announcement or latest change, from its
  // announcement until its withdrawal.
  function CinTold(ms: seq<Message>, e: Place): Option<nat> {
    if ms == [] then None
    else
      var before, m := CinTold(ms[..|ms| - 1], e), ms[|ms| - 1];
      if m.range.prefix.None? || PlaceOf(m.range, m.liid) != e then before
      else
        match m
        case Announce(_, _, cin, _) => if before.Some? then before else Some(cin)
        case Modify(_, _, cin, _) => if before.Some? then Some(cin) else None
        case Withdraw(_, _, _, _) => None
  }

  // Over every run of messages the entries are the ranges announced and not withdrawn, each under
  // the key of its LIID and CIN.
  lemma {:induction false} RunEntries(ms: seq<Message>, e: Place)
    ensures e in HandledAll(NOTHING, ms).entries <==> CinTold(ms, e).Some?
    ensures CinTold(ms, e).Some? ==> HandledAll(NOTHING, ms).entries[e] == SessionKey(e.liid, CinTold(ms, e).value)
  {
    hide SessionKey;
    if ms != [] { RunEntries(ms[..|ms| - 1], e); }
  }

  // ---- The LIID sets of a trie ----

  function LiidsOf(data: Option<LiidSet>): LiidSet {
    if data.Some? then data.value else map[]
  }

  ghost function At(t: RangeTree, bits: seq<bool>): (n: RangeNode)
    requires bits in t.Stored()
    reads t, t.nodes
    ensures n in t.nodes && n.prefix.Some? && n.path == bits
  {
    var n :| n in t.nodes && n.prefix.Some? && n.path == bits;
    n
  }

  ghost function Contents(t: RangeTree): map<seq<bool>, LiidSet>
    reads t, t.nodes
  {
    map bits | bits in t.Stored() :: LiidsOf(At(t, bits).data)
  }

  ghost function SetAt(c: map<seq<bool>, LiidSet>, bits: seq<bool>): LiidSet {
    if bits in c then c[bits] else map[]
  }

  lemma ContentsAt(t: RangeTree, n: RangeNode)
    requires t.Valid() && n in t.nodes && n.prefix.Some?
    ensures n.path in Contents(t) && Contents(t)[n.path] == LiidsOf(n.data)
  {
    assert n.path in t.Stored();
    t.PathsUnique(n, At(t, n.path));
  }

  // Every node's set is in the contents.
  ghost predicate Told(t: RangeTree)
    reads t, t.nodes
  {
    forall n :: n in t.nodes && n.prefix.Some? ==> n.path in Contents(t) && Contents(t)[n.path] == LiidsOf(n.data)
  }

  lemma AllTold(t: RangeTree)
    requires t.Valid()
    ensures Told(t)
  {
    forall n | n in t.nodes && n.prefix.Some?
      ensures n.path in Contents(t) && Contents(t)[n.path] == LiidsOf(n.data)
    {
      ContentsAt(t, n);
    }
  }

  // patricia_lookup makes no entries.
  twostate lemma ContentsAdded(t: RangeTree, new n: RangeNode)
    requires t.Valid() && old(t.nodes) <= t.nodes && n in t.nodes && t.Stored() == old(t.Stored()) + {n.path}
    requires n.path !in old(t.Stored()) ==> n.data == None
    requires forall m :: m in old(t.nodes) ==> m.path == old(m.path) && m.data == old(m.data)
    ensures Contents(t) == old(Contents(t))[n.path := SetAt(old(Contents(t)), n.path)]
  {
    var before, after := old(Contents(t)), Contents(t);
    forall bits | bits in after ensures after[bits] == SetAt(before, bits) {
      var m := At(t, bits);
      ContentsAt(t, m);
      if bits in before {
        var o := old(At(t, bits));
        assert o in t.nodes && o.path == bits;
        t.PathsUnique(m, o);
      } else {
        assert bits == n.path;
        t.PathsUnique(m, n);
      }
    }
  }

  // Only the set of one node may have changed.
  twostate predicate OnlySet(t: RangeTree, new n: RangeNode)
    reads t, t.nodes
  {
    && t.nodes == old(t.nodes)
    && (forall m :: m in t.nodes ==> m.path == old(m.path) && m.prefix == old(m.prefix))
    && (forall m :: m in t.nodes && m != n ==> m.data == old(m.data))
  }

  twostate lemma ContentsPut(t: RangeTree, new n: RangeNode)
    requires t.Valid() && n in t.nodes && n.prefix.Some? && OnlySet(t, n)
    ensures Contents(t) == old(Contents(t))[n.path := LiidsOf(n.data)]
  {
    var before, after := old(Contents(t)), Contents(t);
    assert t.Stored() == old(t.Stored());
    ContentsAt(t, n);
    forall bits | bits in after && bits != n.path ensures after[bits] == before[bits] {
      t.PathsUnique(At(t, bits), old(At(t, bits)));
    }
  }

  twostate lemma ContentsRemoved(t: RangeTree, new n: RangeNode)
    requires t.Valid() && t.nodes <= old(t.nodes) && n in old(t.nodes) && old(n.prefix).Some?
    requires t.Stored() == old(t.Stored()) - {old(n.path)} && t.SameContents(t.nodes - {n})
    requires old(Told(t)) && (n in t.nodes ==> n.prefix == None)
    ensures Contents(t) == old(Contents(t)) - {old(n.path)}
  {
    var before, after := old(Contents(t)), Contents(t);
    forall bits | bits in after ensures after[bits] == before[bits] {
      var m := At(t, bits);
      assert m in old(t.nodes) && old(m.prefix).Some? && old(m.path) == bits;
    }
  }

  // Each entry's key is that of its LIID and CIN.
  ghost predicate Keyed(c: map<seq<bool>, LiidSet>) {
    forall bits :: bits in c ==> AllKeyed(c[bits])
  }

  ghost predicate AllKeyed(all: LiidSet) {
    forall liid :: liid in all ==> all[liid].key == SessionKey(liid, all[liid].cin)
  }

  // The set with the LIID entered, unless it was.
  function WithLiid(all: LiidSet, liid: string, cin: nat): LiidSet {
    if liid in all then all else all[liid := LiidInfo(cin, SessionKey(liid, cin))]
  }

  method FindOrMake(t: RangeTree, prefix: Sized) returns (node: RangeNode)
    requires t.Valid() && t.Fits(prefix)
    modifies t, t.nodes
    ensures t.Valid() && fresh(t.nodes - old(t.nodes))
    ensures node in t.nodes && node.prefix.Some? && node.path == Masked(prefix)
    ensures LiidsOf(node.data) == SetAt(old(Contents(t)), Masked(prefix))
    ensures Contents(t) == old(Contents(t))[Masked(prefix) := SetAt(old(Contents(t)), Masked(prefix))]
  {
    node := t.Lookup(prefix);
    ContentsAdded(t, node);
    ContentsAt(t, node);
  }

  // add_iprange_to_patricia
  method AddToTree(t: RangeTree, prefix: Sized, liid: string, cin: nat) returns (added: bool)
    requires t.Valid() && t.Fits(prefix)
    modifies t, t.nodes
    ensures t.Valid() && fresh(t.nodes - old(t.nodes))
    ensures added <==> liid !in SetAt(old(Contents(t)), Masked(prefix))
    ensures Contents(t)
      == old(Contents(t))[Masked(prefix) := WithLiid(SetAt(old(Contents(t)), Masked(prefix)), liid, cin)]
  {
    hide Contents, SetAt;
    var node := FindOrMake(t, prefix);
    var all := LiidsOf(node.data);
    added := liid !in all;
    if added {
      StoreSet(t, node, WithLiid(all, liid, cin));
    }
  }

  method StoreSet(t: RangeTree, node: RangeNode, all: LiidSet)
    requires t.Valid() && node in t.nodes && node.prefix.Some?
    modifies node`data
    ensures t.Valid() && Contents(t) == old(Contents(t))[node.path := all]
  {
    t.SetData(node, Some(all));
    ContentsPut(t, node);
  }

  // The node holds the LIID on the prefix.
  ghost predicate Holds(t: RangeTree, bits: seq<bool>, liid: string, n: RangeNode)
    reads t, t.nodes, n
  {
    n in t.nodes && n.prefix.Some? && n.path == bits && liid in LiidsOf(n.data)
  }

  // Search for the entry of a LIID on a prefix.
  method FindEntry(t: RangeTree, prefix: Sized, liid: string) returns (node: Node?<LiidSet>)
    requires t.Valid() && t.Fits(prefix)
    ensures node != null <==> liid in SetAt(Contents(t), Masked(prefix))
    ensures node != null ==>
      && Holds(t, Masked(prefix), liid, node)
      && LiidsOf(node.data) == Contents(t)[Masked(prefix)]
  {
    node := t.SearchExact(prefix);
    if node == null {
      return;
    }
    ContentsAt(t, node);
    if liid !in LiidsOf(node.data) {
      node := null;
    }
  }

  // remove_iprange_from_patricia, once the entry is found: the node goes with its last LIID.
  method RemoveFromTree(t: RangeTree, node: RangeNode, liid: string)
    requires t.Valid() && node in t.nodes && node.prefix.Some? && liid in LiidsOf(node.data)
    modifies t, t.nodes
    ensures t.Valid() && t.nodes <= old(t.nodes)
    ensures var bits, all := old(node.path), SetAt(old(Contents(t)), old(node.path)) - {liid};
      Contents(t) == if all == map[] then old(Contents(t)) - {bits} else old(Contents(t))[bits := all]
  {
    AllTold(t);
    ContentsAt(t, node);
    var all := LiidsOf(node.data) - {liid};
    if all == map[] {
      t.Remove(node);
      ContentsRemoved(t, node);
    } else {
      StoreSet(t, node, all);
    }
  }

  // ---- Both tries ----

  ghost function SetOf(c4: map<seq<bool>, LiidSet>, c6: map<seq<bool>, LiidSet>, v6: bool, bits: seq<bool>): LiidSet {
    SetAt(if v6 then c6 else c4, bits)
  }

  ghost function Places(c4: map<seq<bool>, LiidSet>, c6: map<seq<bool>, LiidSet>): (s: set<Place>)
    ensures forall e :: e in s <==> e.liid in SetOf(c4, c6, e.v6, e.bits)
  {
    (set bits, liid | bits in c4 && liid in c4[bits] :: Place(false, bits, liid))
    + (set bits, liid | bits in c6 && liid in c6[bits] :: Place(true, bits, liid))
  }

  // The entries with their keys.
  ghost function Both(c4: map<seq<bool>, LiidSet>, c6: map<seq<bool>, LiidSet>): map<Place, string> {
    map e | e in Places(c4, c6) :: SetOf(c4, c6, e.v6, e.bits)[e.liid].key
  }

  // Only one set differs.
  ghost predicate OnlyAt(c4: map<seq<bool>, LiidSet>, c6: map<seq<bool>, LiidSet>, d4: map<seq<bool>, LiidSet>,
                         d6: map<seq<bool>, LiidSet>, v6: bool, bits: seq<bool>)
  {
    forall v, b :: v != v6 || b != bits ==> SetOf(d4, d6, v, b) == SetOf(c4, c6, v, b)
  }

  lemma BothPut(c4: map<seq<bool>, LiidSet>, c6: map<seq<bool>, LiidSet>, d4: map<seq<bool>, LiidSet>,
                d6: map<seq<bool>, LiidSet>, e: Place, info: LiidInfo)
    requires OnlyAt(c4, c6, d4, d6, e.v6, e.bits)
    requires SetOf(d4, d6, e.v6, e.bits) == SetOf(c4, c6, e.v6, e.bits)[e.liid := info]
    ensures Both(d4, d6) == Both(c4, c6)[e := info.key]
  {
    hide SetOf, Places;
  }

  lemma BothDelete(c4: map<seq<bool>, LiidSet>, c6: map<seq<bool>, LiidSet>, d4: map<seq<bool>, LiidSet>,
                   d6: map<seq<bool>, LiidSet>, e: Place)
    requires OnlyAt(c4, c6, d4, d6, e.v6, e.bits)
    requires SetOf(d4, d6, e.v6, e.bits) == SetOf(c4, c6, e.v6, e.bits) - {e.liid}
    ensures Both(d4, d6) == Both(c4, c6) - {e}
  {
    hide SetOf, Places;
  }

  lemma BothSame(c4: map<seq<bool>, LiidSet>, c6: map<seq<bool>, LiidSet>, d4: map<seq<bool>, LiidSet>,
                 d6: map<seq<bool>, LiidSet>, v6: bool, bits: seq<bool>)
    requires OnlyAt(c4, c6, d4, d6, v6, bits) && SetOf(d4, d6, v6, bits) == SetOf(c4, c6, v6, bits)
    ensures Both(d4, d6) == Both(c4, c6)
  {
    hide SetOf, Places;
  }

  // Two tries that share no node.
  ghost predicate Beside(t: RangeTree, other: RangeTree)
    reads t, other, t.nodes, other.nodes
  {
    t != other && t.nodes !! other.nodes && t.Valid() && other.Valid()
  }

  method AddBeside(t: RangeTree, ghost other: RangeTree, prefix: Sized, liid: string, cin: nat) returns (added: bool)
    requires Beside(t, other) && t.Fits(prefix)
    modifies t, t.nodes
    ensures Beside(t, other) && fresh(t.nodes - old(t.nodes)) && Contents(other) == old(Contents(other))
    ensures added <==> liid !in SetAt(old(Contents(t)), Masked(prefix))
    ensures Contents(t)
      == old(Contents(t))[Masked(prefix) := WithLiid(SetAt(old(Contents(t)), Masked(prefix)), liid, cin)]
  {
    hide Contents, SetAt, WithLiid;
    added := AddToTree(t, prefix, liid, cin);
  }

  method RemoveBeside(t: RangeTree, ghost other: RangeTree, node: RangeNode, liid: string)
    requires Beside(t, other) && node in t.nodes && node.prefix.Some? && liid in LiidsOf(node.data)
    modifies t, t.nodes
    ensures Beside(t, other) && t.nodes <= old(t.nodes) && Contents(other) == old(Contents(other))
    ensures var bits, all := old(node.path), SetAt(old(Contents(t)), old(node.path)) - {liid};
      Contents(t) == if all == map[] then old(Contents(t)) - {bits} else old(Contents(t))[bits := all]
  {
    hide Contents, SetAt;
    RemoveFromTree(t, node, liid);
  }

  method ChangeBeside(t: RangeTree, ghost other: RangeTree, node: RangeNode, liid: string, cin: nat)
    requires Beside(t, other) && node in t.nodes && node.prefix.Some?
    modifies node`data
    ensures Beside(t, other) && Contents(other) == old(Contents(other))
    ensures Contents(t)
      == old(Contents(t))[node.path := SetAt(old(Contents(t)), node.path)[liid := LiidInfo(cin, SessionKey(liid, cin))]]
  {
    hide Contents;
    ContentsAt(t, node);
    StoreSet(t, node, LiidsOf(node.data)[liid := LiidInfo(cin, SessionKey(liid, cin))]);
  }

  // ---- The thread ----

  // A session loses a reference, and goes with its last one.
  method ReleaseSession(t: Table<Place>, key: string, intact: bool) returns (t': Table<Place>)
    ensures t' == Release(t, key, intact)
  {
    t' := t;
    if Found(t, key, intact) {
      var s := t.live[key];
      if s.refs <= 1 {
        t' := t.(live := t.live - {key});
      } else {
        t' := t.(live := t.live[key := s.(refs := s.refs - 1)]);
      }
    }
  }

  // A session gains one, or is made.
  method RetainSession(t: Table<Place>, key: string, bytes: KeyBytes<Place>, intact: bool) returns (t': Table<Place>)
    ensures t' == Retain(t, key, bytes, intact)
  {
    t' := t;
    if !Found(t, key, intact) {
      if key in t.live {
        t' := t'.(strays := t.strays + multiset{key});
      }
      t' := t'.(live := t.live[key := Session(1, bytes)]);
    } else {
      var s := t.live[key];
      t' := t.(live := t.live[key := s.(refs := s.refs + 1)]);
    }
  }

  class ColThread {
    const v4: RangeTree
    const v6: RangeTree
    var sessions: Table<Place>

    ghost predicate Valid()
      reads v4, v6, v4.nodes, v6.nodes
    {
      Beside(v4, v6) && Keyed(Contents(v4)) && Keyed(Contents(v6))
    }

    ghost function Entries(): map<Place, string>
      reads v4, v6, v4.nodes, v6.nodes
    {
      Both(Contents(v4), Contents(v6))
    }

    ghost function View(): State
      reads this, v4, v6, v4.nodes, v6.nodes
    {
      State(Entries(), sessions)
    }

    constructor ()
      ensures Valid() && View() == NOTHING
      ensures fresh(v4) && fresh(v6) && v4.nodes == {} && v6.nodes == {}
      ensures v4.maxbits == 32 && v6.maxbits == 128
    {
      v4 := new Tree(32);
      v6 := new Tree(128);
      sessions := Table(map[], multiset{});
    }

    ghost function TreeFor(r: Range): RangeTree {
      if r.v6 then v6 else v4
    }

    ghost predicate FitsRange(r: Range) {
      r.prefix.Some? ==> TreeFor(r).Fits(r.prefix.value)
    }

    // handle_iprange up to the session table.
    method AddRange(r: Range, liid: string, cin: nat) returns (added: bool)
      requires Valid() && FitsRange(r) && r.prefix.Some?
      modifies v4, v6, v4.nodes, v6.nodes
      ensures Valid() && fresh(v4.nodes - old(v4.nodes)) && fresh(v6.nodes - old(v6.nodes))
      ensures added <==> PlaceOf(r, liid) !in old(Entries())
      ensures Entries()
        == if added then old(Entries())[PlaceOf(r, liid) := SessionKey(liid, cin)] else old(Entries())
    {
      hide Contents, SessionKey;
      ghost var c4, c6 := Contents(v4), Contents(v6);
      if r.v6 {
        added := AddBeside(v6, v4, r.prefix.value, liid, cin);
      } else {
        added := AddBeside(v4, v6, r.prefix.value, liid, cin);
      }
      if added {
        BothPut(c4, c6, Contents(v4), Contents(v6), PlaceOf(r, liid), LiidInfo(cin, SessionKey(liid, cin)));
      } else {
        BothSame(c4, c6, Contents(v4), Contents(v6), r.v6, Masked(r.prefix.value));
      }
    }

    // The node, if any, that holds the range for the LIID.
    method FindRange(r: Range, liid: string) returns (node: Node?<LiidSet>)
      requires Valid() && FitsRange(r)
      ensures node != null <==> r.prefix.Some? && PlaceOf(r, liid) in Entries()
      ensures node != null ==>
        && Holds(TreeFor(r), Masked(r.prefix.value), liid, node)
        && LiidsOf(node.data)[liid].key == Entries()[PlaceOf(r, liid)]
    {
      hide Contents;
      if r.prefix.None? {
        return null;
      }
      node := FindEntry(if r.v6 then v6 else v4, r.prefix.value, liid);
    }

    method RemoveRange(r: Range, node: RangeNode, liid: string)
      requires Valid() && r.prefix.Some? && Holds(TreeFor(r), Masked(r.prefix.value), liid, node)
      modifies v4, v6, v4.nodes, v6.nodes
      ensures Valid() && v4.nodes <= old(v4.nodes) && v6.nodes <= old(v6.nodes)
      ensures Entries() == old(Entries()) - {PlaceOf(r, liid)}
    {
      hide Contents;
      ghost var c4, c6 := Contents(v4), Contents(v6);
      if r.v6 {
        RemoveBeside(v6, v4, node, liid);
      } else {
        RemoveBeside(v4, v6, node, liid);
      }
      BothDelete(c4, c6, Contents(v4), Contents(v6), PlaceOf(r, liid));
    }

    method ChangeRange(r: Range, node: RangeNode, liid: string, cin: nat)
      requires Valid() && r.prefix.Some? && Holds(TreeFor(r), Masked(r.prefix.value), liid, node)
      modifies node`data
      ensures Valid() && Entries() == old(Entries())[PlaceOf(r, liid) := SessionKey(liid, cin)]
    {
      hide Contents, SessionKey;
      ghost var c4, c6 := Contents(v4), Contents(v6);
      if r.v6 {
        ChangeBeside(v6, v4, node, liid, cin);
      } else {
        ChangeBeside(v4, v6, node, liid, cin);
      }
      BothPut(c4, c6, Contents(v4), Contents(v6), PlaceOf(r, liid), LiidInfo(cin, SessionKey(liid, cin)));
    }

    method LetGo(key: string, intact: bool)
      requires Valid()
      modifies `sessions
      ensures Valid() && sessions == Release(old(sessions), key, intact) && Entries() == old(Entries())
    {
      hide Beside, Both, Contents, Release, Retain, FreeKey;
      sessions := ReleaseSession(sessions, key, intact);
    }

    method Keep(key: string, bytes: KeyBytes<Place>, intact: bool)
      requires Valid()
      modifies `sessions
      ensures Valid() && sessions == Retain(old(sessions), key, bytes, intact) && Entries() == old(Entries())
    {
      hide Beside, Both, Contents, Release, Retain, FreeKey;
      sessions := RetainSession(sessions, key, bytes, intact);
    }

    // The key string of an entry is freed.
    method FreeEntryKey(e: Place)
      requires Valid()
      modifies `sessions
      ensures Valid() && sessions == FreeKey(old(sessions), e) && Entries() == old(Entries())
    {
      hide Beside, Both, Contents, Release, Retain, FreeKey;
      sessions := FreeKey(sessions, e);
    }

    // handle_iprange
    method HandleRange(r: Range, liid: string, cin: nat, intact: bool)
      requires Valid() && FitsRange(r)
      modifies this, v4, v6, v4.nodes, v6.nodes
      ensures Valid() && fresh(v4.nodes - old(v4.nodes)) && fresh(v6.nodes - old(v6.nodes))
      ensures View() == Handled(old(View()), Announce(r, liid, cin, intact))
    {
      hide Beside, Both, Contents, SessionKey;
      if r.prefix.None? {
        return;
      }
      var added := AddRange(r, liid, cin);
      if added {
        Keep(SessionKey(liid, cin), Own, intact);
      }
    }

    // handle_modify_iprange: the entry moves from its old session to the one of the new CIN, to
    // which it lends its new key if the session is new.
    method HandleModify(r: Range, liid: string, cin: nat, intact: bool)
      requires Valid() && FitsRange(r)
      modifies `sessions, v4.nodes`data, v6.nodes`data
      ensures Valid() && View() == Handled(old(View()), Modify(r, liid, cin, intact))
    {
      hide Beside, Both, Contents, SessionKey;
      var node := FindRange(r, liid);
      if node == null {
        return;
      }
      LetGo(LiidsOf(node.data)[liid].key, intact);
      FreeEntryKey(PlaceOf(r, liid));
      ChangeRange(r, node, liid, cin);
      Keep(SessionKey(liid, cin), Lent(PlaceOf(r, liid)), intact);
    }

    // handle_remove_iprange: the session is released whether or not an entry was removed, and
    // after the entry's key has been freed.
    method HandleRemove(r: Range, liid: string, cin: nat, intact: bool)
      requires Valid() && FitsRange(r)
      modifies this, v4, v6, v4.nodes, v6.nodes
      ensures Valid() && v4.nodes <= old(v4.nodes) && v6.nodes <= old(v6.nodes)
      ensures View() == Handled(old(View()), Withdraw(r, liid, cin, intact))
    {
      hide Beside, Both, Contents, SessionKey;
      var node := FindRange(r, liid);
      if node != null {
        RemoveRange(r, node, liid);
        FreeEntryKey(PlaceOf(r, liid));
      }
      LetGo(SessionKey(liid, cin), intact);
    }

    method Receive(m: Message)
      requires Valid() && FitsRange(m.range)
      modifies this, v4, v6, v4.nodes, v6.nodes
      ensures Valid() && fresh(v4.nodes - old(v4.nodes)) && fresh(v6.nodes - old(v6.nodes))
      ensures View() == Handled(old(View()), m)
    {
      hide Handled, View, Beside;
      match m
      case Announce(r, liid, cin, intact) => HandleRange(r, liid, cin, intact);
      case Modify(r, liid, cin, intact) => HandleModify(r, liid, cin, intact);
      case Withdraw(r, liid, cin, intact) => HandleRemove(r, liid, cin, intact);
    }

    // Any run of messages.
    method Run(ms: seq<Message>)
      requires Valid() && forall i :: 0 <= i < |ms| ==> FitsRange(ms[i].range)
      modifies this, v4, v6, v4.nodes, v6.nodes
      ensures Valid() && View() == HandledAll(old(View()), ms)
    {
      hide Handled, View, Beside;
      assert ms[..0] == [] && ms[..|ms|] == ms;
      for n := 0 to |ms|
        invariant Valid() && fresh(v4.nodes - old(v4.nodes)) && fresh(v6.nodes - old(v6.nodes))
        invariant View() == HandledAll(old(View()), ms[..n])
      {
        Receive(ms[n]);
        HandledNext(old(View()), ms[..n], ms[n]);
        assert ms[..n + 1] == ms[..n] + [ms[n]];
      }
    }
  }

  // ---- Runs that leave the table out of step ----

  // One entry, and its session.
  function Sole(e: Place, key: string, bytes: KeyBytes<Place>): State {
    State(map[e := key], Table(map[key := Session(1, bytes)], multiset{}))
  }

  lemma SoleAnnounced(r: Range, liid: string, cin: nat, intact: bool)
    requires r.prefix.Some?
    ensures HandledAll(NOTHING, [Announce(r, liid, cin, intact)]) == Sole(PlaceOf(r, liid), SessionKey(liid, cin), Own)
  {
    hide SessionKey;
    HandledNext(NOTHING, [], Announce(r, liid, cin, intact));
    assert [] + [Announce(r, liid, cin, intact)] == [Announce(r, liid, cin, intact)];
  }

  lemma MovedSole(e: Place, key: string, key': string, intact: bool)
    ensures Moved(Table(map[key := Session(1, Own)], multiset{}), e, key, key', intact)
      == Table(map[key' := Session(1, Lent(e))], multiset{})
  {
    var t := Table(map[key := Session(1, Own)], multiset{});
    assert Release(t, key, intact).live == map[];
    assert FreeKey(Release(t, key, intact), e).live == map[];
  }

  // A range is announced with CIN 1 and changed to CIN 2.
  function Changed(r: Range, liid: string, intact: bool): seq<Message> {
    [Announce(r, liid, 1, intact)] + [Modify(r, liid, 2, intact)]
  }

  // Its session now borrows the entry's key.
  lemma Borrows(r: Range, liid: string, intact: bool)
    requires r.prefix.Some?
    ensures HandledAll(NOTHING, Changed(r, liid, intact))
      == Sole(PlaceOf(r, liid), SessionKey(liid, 2), Lent(PlaceOf(r, liid)))
  {
    hide SessionKey, PlaceOf, Moved;
    var a, m, e := Announce(r, liid, 1, intact), Modify(r, liid, 2, intact), PlaceOf(r, liid);
    SoleAnnounced(r, liid, 1, intact);
    HandledNext(NOTHING, [a], m);
    MovedSole(e, SessionKey(liid, 1), SessionKey(liid, 2), intact);
    assert Held(Sole(e, SessionKey(liid, 1), Own).entries, m);
  }

  // Removed with that CIN, it is looked up by a key that has just been freed, and stays behind
  // without an entry unless the freed bytes are still there.
  lemma BorrowedKeyFreed(r: Range, liid: string, intact: bool)
    requires r.prefix.Some?
    ensures var st := HandledAll(NOTHING, Changed(r, liid, intact) + [Withdraw(r, liid, 2, intact)]);
      && st.entries == map[] && (InStep(st) <==> intact)
      && st.table.live == if intact then map[] else map[SessionKey(liid, 2) := Session(1, Freed)]
  {
    hide SessionKey, PlaceOf;
    var e, key := PlaceOf(r, liid), SessionKey(liid, 2);
    var st := Sole(e, key, Lent(e));
    Borrows(r, liid, intact);
    HandledNext(NOTHING, Changed(r, liid, intact), Withdraw(r, liid, 2, intact));
    assert Held(st.entries, Withdraw(r, liid, 2, intact));
    assert FreeKey(st.table, e).live == map[key := Session(1, Freed)];
    if intact {
      assert Removed(st.table, e, key, intact).live == map[];
      NothingInStep();
    } else {
      FreedNotExact(map[], Removed(st.table, e, key, intact), key);
    }
  }

  lemma NothingInStep()
    ensures InStep(NOTHING)
  {
    assert forall k :: RefCounts.CountOk(NOTHING.entries, Counts(NOTHING.table), k);
  }

  // A session shared by two ranges loses its key when the one that lends it is changed, and is
  // out of step whatever the freed bytes are.
  lemma SharedKeyFreed(r: Range, q: Range, liid: string, intact: bool)
    requires r.prefix.Some? && q.prefix.Some? && PlaceOf(r, liid) != PlaceOf(q, liid)
    ensures var ms := Changed(r, liid, intact) + [Announce(q, liid, 2, intact)];
      && InStep(HandledAll(NOTHING, ms)) && !InStep(HandledAll(NOTHING, ms + [Modify(r, liid, 3, intact)]))
  {
    hide SessionKey, PlaceOf, Exact;
    var e, d, key := PlaceOf(r, liid), PlaceOf(q, liid), SessionKey(liid, 2);
    var a, ms := Announce(q, liid, 2, intact), Changed(r, liid, intact) + [Announce(q, liid, 2, intact)];
    var st := Sole(e, key, Lent(e));
    Borrows(r, liid, intact);
    SoleInStep(e, key, Lent(e));
    MessageExact(st, a);
    HandledNext(NOTHING, Changed(r, liid, intact), a);
    var st' := State(map[e := key, d := key], Table(map[key := Session(2, Lent(e))], multiset{}));
    assert Handled(st, a) == st';
    MessageExact(st', Modify(r, liid, 3, intact));
    HandledNext(NOTHING, ms, Modify(r, liid, 3, intact));
  }

  lemma SoleInStep(e: Place, key: string, bytes: KeyBytes<Place>)
    requires bytes == Own || bytes == Lent(e)
    ensures InStep(Sole(e, key, bytes))
  {
    var st := Sole(e, key, bytes);
    forall k ensures RefCounts.CountOk(st.entries, Counts(st.table), k) {
      assert RefCounts.Refs(st.entries, k) == if k == key then {e} else {};
    }
  }

  // A remove that carries another CIN leaves the entry's session behind.
  lemma WrongCinRemoved(r: Range, liid: string, intact: bool)
    requires r.prefix.Some?
    ensures var st := HandledAll(NOTHING, [Announce(r, liid, 1, intact)] + [Withdraw(r, liid, 2, intact)]);
      !InStep(st) && st == State(map[], Table(map[SessionKey(liid, 1) := Session(1, Own)], multiset{}))
  {
    hide SessionKey, PlaceOf, Exact;
    var e, key, w := PlaceOf(r, liid), SessionKey(liid, 1), Withdraw(r, liid, 2, intact);
    var st := Sole(e, key, Own);
    SoleAnnounced(r, liid, 1, intact);
    HandledNext(NOTHING, [Announce(r, liid, 1, intact)], w);
    KeysApart(liid, 1, 2);
    assert FreeKey(st.table, e).live == st.table.live;
    assert Held(st.entries, w);
    SoleInStep(e, key, Own);
    MessageExact(st, w);
  }

  lemma KeysApart(liid: string, a: nat, b: nat)
    requires a != b
    ensures SessionKey(liid, a) != SessionKey(liid, b)
  {
    if SessionKey(liid, a) == SessionKey(liid, b) { SessionKeyInjective(liid, a, liid, b); }
  }
}

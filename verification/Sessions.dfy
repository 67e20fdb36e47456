// The table of static IP sessions (src/collector/collector_push_messaging.c): counted references,
// and hash keys that a session may borrow from the entry it was made for.
module Sessions {
  import opened RefCounts

  // Where the bytes of a session's hash key are: in the session itself, in an entry that lends
  // its own key, or in memory that has been freed.
  datatype KeyBytes<E> = Own | Lent(lender: E) | Freed

  datatype Session<E> = Session(refs: nat, bytes: KeyBytes<E>)

  // The sessions by key.  A session is stray when a second one with its key hides it.
  datatype Table<E> = Table(live: map<string, Session<E>>, strays: multiset<string>)

  ghost function Counts<E>(t: Table<E>): map<string, nat> {
    map k | k in t.live :: t.live[k].refs
  }

  // A lookup compares the key's bytes; those of freed memory may still be `intact` or not.
  predicate Found<E(==)>(t: Table<E>, key: string, intact: bool) {
    key in t.live && (t.live[key].bytes == Freed ==> intact)
  }

  function Release<E(==)>(t: Table<E>, key: string, intact: bool): Table<E> {
    if !Found(t, key, intact) then t
    else if t.live[key].refs <= 1 then t.(live := t.live - {key})
    else t.(live := t.live[key := t.live[key].(refs := t.live[key].refs - 1)])
  }

  function Retain<E(==)>(t: Table<E>, key: string, bytes: KeyBytes<E>, intact: bool): Table<E> {
    if Found(t, key, intact) then t.(live := t.live[key := t.live[key].(refs := t.live[key].refs + 1)])
    else Table(t.live[key := Session(1, bytes)], if key in t.live then t.strays + multiset{key} else t.strays)
  }

  function Unlent<E(==)>(bytes: KeyBytes<E>, e: E): KeyBytes<E> {
    if bytes == Lent(e) then Freed else bytes
  }

  // The entry's key string is freed.
  function FreeKey<E(==)>(t: Table<E>, e: E): Table<E> {
    t.(live := map k | k in t.live :: t.live[k].(bytes := Unlent(t.live[k].bytes, e)))
  }

  // handle_modify_iprange: release, free the entry's old key, and retain under its new one.
  function Moved<E(==)>(t: Table<E>, e: E, key: string, key': string, intact: bool): Table<E> {
    Retain(FreeKey(Release(t, key, intact), e), key', Lent(e), intact)
  }

  // handle_remove_iprange: the entry goes with its key, and then the session is released.
  function Removed<E(==)>(t: Table<E>, e: E, key: string, intact: bool): Table<E> {
    Release(FreeKey(t, e), key, intact)
  }

  ghost predicate BytesOk<E>(entries: map<E, string>, key: string, s: Session<E>) {
    match s.bytes
    case Own => true
    case Lent(e) => e in entries && entries[e] == key
    case Freed => false
  }

  // References are exact, every session can be found, and no key lies in freed memory.
  ghost predicate Exact<E>(entries: map<E, string>, t: Table<E>) {
    && Consistent(entries, Counts(t))
    && t.strays == multiset{}
    && forall k :: k in t.live ==> BytesOk(entries, k, t.live[k])
  }

  // The entry lends its key to its session.
  ghost predicate Lends<E>(t: Table<E>, e: E, key: string) {
    key in t.live && t.live[key].bytes == Lent(e)
  }

  lemma ReleaseCounts<E>(t: Table<E>, key: string, intact: bool)
    ensures Counts(Release(t, key, intact)) == if Found(t, key, intact) then DropRef(Counts(t), key) else Counts(t)
  {
  }

  lemma RetainCounts<E>(t: Table<E>, key: string, bytes: KeyBytes<E>, intact: bool)
    requires key in t.live ==> Found(t, key, intact)
    ensures Counts(Retain(t, key, bytes, intact)) == AddRef(Counts(t), key)
  {
  }

  lemma FreeCounts<E>(t: Table<E>, e: E)
    ensures Counts(FreeKey(t, e)) == Counts(t)
  {
  }

  // A new entry and one more reference.
  lemma AddExact<E>(entries: map<E, string>, t: Table<E>, e: E, key: string, intact: bool)
    requires Exact(entries, t) && e !in entries
    ensures Exact(entries[e := key], Retain(t, key, Own, intact))
  {
    assert key in t.live ==> BytesOk(entries, key, t.live[key]);
    RetainCounts(t, key, Own, intact);
    AddEntry(entries, Counts(t), e, key);
    var t', entries' := Retain(t, key, Own, intact), entries[e := key];
    forall k | k in t'.live ensures BytesOk(entries', k, t'.live[k]) {
      assert k in t.live ==> BytesOk(entries, k, t.live[k]);
    }
  }

  // A session that stays in the table with a freed key, or is hidden, is a fault.
  lemma FreedNotExact<E>(entries: map<E, string>, t: Table<E>, key: string)
    requires key in t.live && t.live[key].bytes == Freed
    ensures !Exact(entries, t)
  {
    assert !BytesOk(entries, key, t.live[key]);
  }

  lemma MoveSurvivor<E>(entries: map<E, string>, t: Table<E>, e: E, key': string, intact: bool)
    requires Exact(entries, t) && e in entries && Lends(t, e, entries[e]) && t.live[entries[e]].refs > 1
    ensures !Exact(entries[e := key'], Moved(t, e, entries[e], key', intact))
  {
    var key := entries[e];
    var t1 := FreeKey(Release(t, key, intact), e);
    assert key in t1.live && t1.live[key].bytes == Freed;
    var t2 := Retain(t1, key', Lent(e), intact);
    if key' == key && !intact {
      assert t2.strays[key] > 0;
    } else {
      assert t2.live[key].bytes == Freed;
      FreedNotExact(entries[e := key'], t2, key);
    }
  }

  lemma MoveBytes<E>(entries: map<E, string>, t: Table<E>, e: E, key': string, intact: bool)
    requires Exact(entries, t) && e in entries && entries[e] in t.live
    requires !(Lends(t, e, entries[e]) && t.live[entries[e]].refs > 1)
    ensures var t' := Moved(t, e, entries[e], key', intact);
      t'.strays == multiset{} && forall k :: k in t'.live ==> BytesOk(entries[e := key'], k, t'.live[k])
  {
    var key := entries[e];
    var t1, entries' := Release(t, key, intact), entries[e := key'];
    var t' := Moved(t, e, key, key', intact);
    forall k | k in t1.live ensures BytesOk(entries, k, t1.live[k]) && t1.live[k].bytes != Lent(e) {
      assert BytesOk(entries, k, t.live[k]);
    }
    forall k | k in t'.live ensures BytesOk(entries', k, t'.live[k]) {
      assert k in t1.live ==> BytesOk(entries, k, t1.live[k]);
    }
  }

  lemma MoveCounts<E>(entries: map<E, string>, t: Table<E>, e: E, key': string, intact: bool)
    requires Exact(entries, t) && e in entries && entries[e] in t.live
    requires !(Lends(t, e, entries[e]) && t.live[entries[e]].refs > 1)
    ensures Consistent(entries[e := key'], Counts(Moved(t, e, entries[e], key', intact)))
  {
    var key := entries[e];
    assert BytesOk(entries, key, t.live[key]);
    ReleaseCounts(t, key, intact);
    var t1 := Release(t, key, intact);
    FreeCounts(t1, e);
    forall k | k in t1.live ensures t1.live[k].bytes != Lent(e) && t1.live[k].bytes != Freed {
      assert BytesOk(entries, k, t.live[k]);
    }
    RetainCounts(FreeKey(t1, e), key', Lent(e), intact);
    ChangeEntry(entries, Counts(t), e, key');
  }

  // Every entry's session is in the table.
  lemma SessionLive<E>(entries: map<E, string>, t: Table<E>, e: E)
    requires Consistent(entries, Counts(t)) && e in entries
    ensures entries[e] in t.live && t.live[entries[e]].refs > 0
  {
    assert CountOk(entries, Counts(t), entries[e]);
    assert e in Refs(entries, entries[e]);
    assert |Refs(entries, entries[e])| > 0;
  }

  // Moving an entry keeps the table exact, whatever freed memory holds, if and only if the entry
  // does not lend its key to a session that others still refer to.
  lemma MoveExact<E>(entries: map<E, string>, t: Table<E>, e: E, key': string, intact: bool)
    requires Exact(entries, t) && e in entries
    ensures entries[e] in t.live
    ensures Exact(entries[e := key'], Moved(t, e, entries[e], key', intact))
      <==> !(Lends(t, e, entries[e]) && t.live[entries[e]].refs > 1)
  {
    SessionLive(entries, t, e);
    if Lends(t, e, entries[e]) && t.live[entries[e]].refs > 1 {
      MoveSurvivor(entries, t, e, key', intact);
    } else {
      MoveBytes(entries, t, e, key', intact);
      MoveCounts(entries, t, e, key', intact);
    }
  }

  // Removing an entry that lends nothing.
  lemma RemoveUnlent<E>(entries: map<E, string>, t: Table<E>, e: E, key: string, intact: bool)
    requires Exact(entries, t) && e in entries && !Lends(t, e, entries[e])
    ensures Exact(entries - {e}, Removed(t, e, key, intact)) <==> key == entries[e]
  {
    forall k | k in t.live ensures BytesOk(entries, k, t.live[k]) && t.live[k].bytes != Lent(e) {
      assert BytesOk(entries, k, t.live[k]);
    }
    assert FreeKey(t, e).live == t.live;
    ReleaseCounts(t, key, intact);
    RemoveEntry(entries, Counts(t), e, key);
    if key !in t.live { assert DropRef(Counts(t), key) == Counts(t); }
    var t' := Removed(t, e, key, intact);
    forall k | k in t'.live ensures BytesOk(entries - {e}, k, t'.live[k]) {
      assert BytesOk(entries, k, t.live[k]);
    }
  }

  // Removing one that does.
  lemma RemoveLent<E>(entries: map<E, string>, t: Table<E>, e: E, key: string, intact: bool)
    requires Exact(entries, t) && e in entries && Lends(t, e, entries[e])
    ensures Exact(entries - {e}, Removed(t, e, key, intact))
      <==> key == entries[e] && t.live[key].refs == 1 && intact
  {
    var k0, t1, t' := entries[e], FreeKey(t, e), Removed(t, e, key, intact);
    if key == k0 && t.live[key].refs == 1 && intact {
      FreeCounts(t, e);
      ReleaseCounts(t1, key, intact);
      RemoveEntry(entries, Counts(t), e, key);
      forall k | k in t'.live ensures BytesOk(entries - {e}, k, t'.live[k]) {
        assert BytesOk(entries, k, t.live[k]);
      }
    } else {
      SessionLive(entries, t, e);
      assert t1.live[k0].bytes == Freed && t1.live[k0].refs == t.live[k0].refs;
      assert k0 in t'.live && t'.live[k0].bytes == Freed;
      FreedNotExact(entries - {e}, t', k0);
    }
  }

  // Removing an entry and releasing a session keeps the table exact if and only if the message
  // names the entry's session, and the entry does not lend that session its key, or lends it to
  // nobody else and the freed bytes are still there.
  lemma RemoveExact<E>(entries: map<E, string>, t: Table<E>, e: E, key: string, intact: bool)
    requires Exact(entries, t) && e in entries
    ensures entries[e] in t.live
    ensures Exact(entries - {e}, Removed(t, e, key, intact))
      <==> key == entries[e] && (Lends(t, e, key) ==> t.live[key].refs == 1 && intact)
  {
    SessionLive(entries, t, e);
    if Lends(t, e, entries[e]) {
      RemoveLent(entries, t, e, key, intact);
    } else {
      RemoveUnlent(entries, t, e, key, intact);
    }
  }

  // Releasing a session without removing an entry.
  lemma ReleaseExact<E>(entries: map<E, string>, t: Table<E>, key: string, intact: bool)
    requires Exact(entries, t)
    ensures Exact(entries, Release(t, key, intact)) <==> key !in t.live
  {
    assert key in t.live ==> BytesOk(entries, key, t.live[key]);
    ReleaseCounts(t, key, intact);
    DropOnly(entries, Counts(t), key);
  }
}

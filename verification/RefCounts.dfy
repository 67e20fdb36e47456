// Reference counts: a table of entries, each naming a shared object by its key, beside a
// table that counts how many entries name each object.
module RefCounts {

  // The entries that name k.
  ghost function Refs<E, K>(entries: map<E, K>, k: K): set<E> {
    set e | e in entries && entries[e] == k
  }

  ghost predicate CountOk<E, K>(entries: map<E, K>, counts: map<K, nat>, k: K) {
    |Refs(entries, k)| == (if k in counts then counts[k] else 0) && (k in counts ==> counts[k] > 0)
  }

  // Each count is the number of entries naming its key, and keys without entries are absent.
  ghost predicate Consistent<E, K(!new)>(entries: map<E, K>, counts: map<K, nat>) {
    forall k :: CountOk(entries, counts, k)
  }

  function AddRef<K(==)>(counts: map<K, nat>, k: K): map<K, nat> {
    counts[k := if k in counts then counts[k] + 1 else 1]
  }

  function DropRef<K(==)>(counts: map<K, nat>, k: K): map<K, nat> {
    if k !in counts then counts
    else if counts[k] <= 1 then counts - {k}
    else counts[k := counts[k] - 1]
  }

  lemma AddEntry<E, K(!new)>(entries: map<E, K>, counts: map<K, nat>, e: E, k0: K)
    requires Consistent(entries, counts) && e !in entries
    ensures Consistent(entries[e := k0], AddRef(counts, k0))
  {
    var entries', counts' := entries[e := k0], AddRef(counts, k0);
    forall k ensures CountOk(entries', counts', k) {
      assert CountOk(entries, counts, k);
      assert Refs(entries', k) == if k == k0 then Refs(entries, k) + {e} else Refs(entries, k);
    }
  }

  lemma RemoveEntryCounts<E, K(!new)>(entries: map<E, K>, counts: map<K, nat>, e: E)
    requires Consistent(entries, counts) && e in entries
    ensures Consistent(entries - {e}, DropRef(counts, entries[e]))
    ensures |Refs(entries - {e}, entries[e])| == |Refs(entries, entries[e])| - 1
  {
    var k1 := entries[e];
    var entries', counts' := entries - {e}, DropRef(counts, k1);
    assert e in Refs(entries, k1);
    assert Refs(entries', k1) == Refs(entries, k1) - {e};
    forall k ensures CountOk(entries', counts', k) {
      assert CountOk(entries, counts, k);
      if k != k1 {
        assert Refs(entries', k) == Refs(entries, k);
      }
    }
  }

  // Dropping an entry and one reference agree exactly when they name the same key.
  lemma RemoveEntry<E, K(!new)>(entries: map<E, K>, counts: map<K, nat>, e: E, k0: K)
    requires Consistent(entries, counts) && e in entries
    ensures Consistent(entries - {e}, DropRef(counts, k0)) <==> k0 == entries[e]
  {
    var k1 := entries[e];
    RemoveEntryCounts(entries, counts, e);
    if k0 != k1 {
      assert CountOk(entries, counts, k1);
      assert !CountOk(entries - {e}, DropRef(counts, k0), k1);
    }
  }

  // Dropping a reference without an entry is harmless exactly when nothing is counted there.
  lemma DropOnly<E, K(!new)>(entries: map<E, K>, counts: map<K, nat>, k0: K)
    requires Consistent(entries, counts)
    ensures Consistent(entries, DropRef(counts, k0)) <==> k0 !in counts
  {
    assert CountOk(entries, counts, k0);
    if k0 in counts {
      assert !CountOk(entries, DropRef(counts, k0), k0);
    }
  }

  lemma ChangeEntry<E, K(!new)>(entries: map<E, K>, counts: map<K, nat>, e: E, k0: K)
    requires Consistent(entries, counts) && e in entries
    ensures Consistent(entries[e := k0], AddRef(DropRef(counts, entries[e]), k0))
  {
    RemoveEntryCounts(entries, counts, e);
    AddEntry(entries - {e}, DropRef(counts, entries[e]), e, k0);
    assert (entries - {e})[e := k0] == entries[e := k0];
  }
}

/**
 The part of DPDK's `rte_hash` that the pipes manager relies on: a bounded map whose keys lie in numbered key
 slots. A slot is handed out on insertion, freed on deletion and may be handed out again; the bytes of a freed
 slot stay behind until the slot is reused, so a pointer to a slot can be dereferenced after its key is gone.
 */
module HashTable {

  type Slot = int
  type Key = int

  /** DEFAULT_ENTRIES_NUM */
  const CAPACITY: nat := 128

  datatype Table<V> = Table(keyStore: map<Slot, Key>, pos: map<Key, Slot>, data: map<Key, V>, free: set<Slot>) {

    ghost predicate Valid() {
      && pos.Keys == data.Keys
      && forall k :: k in pos ==> pos[k] in keyStore && keyStore[pos[k]] == k && pos[k] !in free
    }

    /** rte_hash_add_key_data: overwrites the data of a present key, otherwise takes the free slot given. */
    function Insert(k: Key, v: V, slot: Slot): (t: Table<V>)
      requires Valid()
      requires k !in pos ==> slot in free
      ensures t.Valid()
      ensures t.data == data[k := v]
    {
      if k in pos then
        this.(data := data[k := v])
      else
        Table(keyStore[slot := k], pos[k := slot], data[k := v], free - {slot})
    }

    /** rte_hash_del_key, once per key of `ks`; absent keys are ignored. */
    function RemoveAll(ks: set<Key>): (t: Table<V>)
      requires Valid()
      ensures t.Valid()
      ensures t.data == data - ks
    {
      Table(keyStore, pos - ks, data - ks, free + set k | k in ks && k in pos :: pos[k])
    }

    function Remove(k: Key): (t: Table<V>)
      requires Valid()
      ensures t.Valid()
      ensures t.data == data - {k}
    {
      RemoveAll({k})
    }
  }

  function Slots(count: nat): set<Slot> {
    if count == 0 then {} else Slots(count - 1) + {count - 1}
  }

  function Empty<V>(): (t: Table<V>)
    ensures t.Valid()
    ensures t.data == map[]
  {
    Table(map[], map[], map[], Slots(CAPACITY))
  }

  /** An insertion that may fail at any time, and otherwise takes any free slot. */
  method TryInsert<V>(t: Table<V>, k: Key, v: V) returns (ok: bool, t': Table<V>, ghost slot: Slot)
    requires t.Valid()
    ensures !ok ==> t' == t
    ensures ok ==> (k !in t.data ==> slot in t.free) && t' == t.Insert(k, v, slot)
  {
    ok, t', slot := false, t, 0;
    if k in t.pos {
      if * {
        ok, t' := true, t.Insert(k, v, 0);
      }
    } else if t.free != {} {
      if * {
        var chosen := NextKey(t.free);
        ok, t', slot := true, t.Insert(k, v, chosen), chosen;
      }
    }
  }

  lemma RemoveAllStep<V>(t: Table<V>, ks: set<Key>, k: Key)
    requires t.Valid() && k !in ks
    ensures t.RemoveAll(ks).Remove(k) == t.RemoveAll(ks + {k})
  {
    var a, b := t.RemoveAll(ks).Remove(k), t.RemoveAll(ks + {k});
    assert a.pos == b.pos && a.data == b.data;
    assert a.free == b.free;
  }

  lemma RemoveNothing<V>(t: Table<V>)
    requires t.Valid()
    ensures t.RemoveAll({}) == t
  {
    assert t.RemoveAll({}).free == t.free;
  }

  lemma NoKey(keys: set<Key>)
    requires forall k :: k !in keys
    ensures keys == {}
  {
    assert forall k :: k in keys <==> k in {};
  }

  lemma SomeKey(keys: set<Key>)
    requires keys != {}
    ensures exists k :: k in keys
  {
    if forall k :: k !in keys {
      NoKey(keys);
    }
  }

  /** rte_hash_iterate: some key that has not been visited yet. */
  method NextKey(todo: set<Key>) returns (k: Key)
    requires todo != {}
    ensures k in todo
  {
    SomeKey(todo);
    k :| k in todo;
  }
}

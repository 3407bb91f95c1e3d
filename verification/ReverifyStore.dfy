/**
 The store of rows that still have to be verified, and the comparison of fingerprints.
 */
module Reverifying {
  import opened Rows

  datatype ReverifyBatch = ReverifyBatch(table: TableName, pks: seq<nat>)

  ghost predicate Distinct(pks: seq<nat>) {
    forall i, j :: 0 <= i < j < |pks| ==> pks[i] != pks[j]
  }

  predicate Holds(b: ReverifyBatch, k: Key) {
    b.table == k.table && k.pk in b.pks
  }

  ghost predicate InSome(bs: seq<ReverifyBatch>, k: Key) {
    exists i :: 0 <= i < |bs| && Holds(bs[i], k)
  }

  /** Each of `keys`, and nothing else, is in exactly one batch, and there exactly once. */
  ghost predicate Partition(bs: seq<ReverifyBatch>, keys: set<Key>) {
    && (forall i :: 0 <= i < |bs| ==> Distinct(bs[i].pks))
    && (forall i, j, k :: 0 <= i < j < |bs| && Holds(bs[i], k) ==> !Holds(bs[j], k))
    && (forall k :: k in keys <==> InSome(bs, k))
  }

  /** No batch is empty or too large, and only the last one of each table may be short. */
  ghost predicate Full(bs: seq<ReverifyBatch>, size: nat) {
    && (forall i :: 0 <= i < |bs| ==> 1 <= |bs[i].pks| <= size)
    && (forall i, j :: 0 <= i < j < |bs| && bs[i].table == bs[j].table ==> |bs[i].pks| == size)
  }

  function BatchKeys(t: TableName, pks: set<nat>): set<Key> {
    set pk | pk in pks :: Key(t, pk)
  }

  function StoreKeys(store: map<TableName, set<nat>>): set<Key> {
    set t, pk | t in store && pk in store[t] :: Key(t, pk)
  }

  function Elements(pks: seq<nat>): set<nat> {
    set pk | pk in pks
  }

  lemma PartitionAppend(bs: seq<ReverifyBatch>, keys: set<Key>, t: TableName, pks: seq<nat>)
    requires Partition(bs, keys) && Distinct(pks)
    requires BatchKeys(t, Elements(pks)) !! keys
    ensures Partition(bs + [ReverifyBatch(t, pks)], keys + BatchKeys(t, Elements(pks)))
  {
    var b := ReverifyBatch(t, pks);
    var bs' := bs + [b];
    forall k ensures Holds(b, k) <==> k in BatchKeys(t, Elements(pks)) {
    }
    forall k ensures InSome(bs', k) <==> InSome(bs, k) || Holds(b, k) {
      if InSome(bs, k) {
        var i :| 0 <= i < |bs| && Holds(bs[i], k);
        assert Holds(bs'[i], k);
      }
      if Holds(b, k) {
        assert Holds(bs'[|bs|], k);
      }
    }
    forall i, j, k | 0 <= i < j < |bs'| && Holds(bs'[i], k) ensures !Holds(bs'[j], k) {
      if j == |bs| {
        assert Holds(bs[i], k);
        assert InSome(bs, k);
      }
    }
  }

  /** All batches of table `t` are as large as they may be. */
  ghost predicate TableFull(bs: seq<ReverifyBatch>, t: TableName, size: nat) {
    forall i :: 0 <= i < |bs| && bs[i].table == t ==> |bs[i].pks| == size
  }

  ghost predicate NoneOf(bs: seq<ReverifyBatch>, tables: set<TableName>) {
    forall i :: 0 <= i < |bs| ==> bs[i].table !in tables
  }

  lemma FullAppend(bs: seq<ReverifyBatch>, b: ReverifyBatch, size: nat)
    requires Full(bs, size) && TableFull(bs, b.table, size) && 1 <= |b.pks| <= size
    ensures Full(bs + [b], size)
  {
  }

  /** Of the rows of one table, `rest` is still to be taken, `pkBatch` is taken, and all others are in `batched`. */
  ghost predicate Accounted(batched: set<Key>, done: set<Key>, t: TableName, pkSet: set<nat>, rest: set<nat>,
                            pkBatch: seq<nat>) {
    && rest <= pkSet && Elements(pkBatch) <= pkSet - rest && Distinct(pkBatch)
    && batched == done + BatchKeys(t, pkSet - rest - Elements(pkBatch))
  }

  lemma AccountTake(batched: set<Key>, done: set<Key>, t: TableName, pkSet: set<nat>, rest: set<nat>,
                    pkBatch: seq<nat>, pk: nat)
    requires Accounted(batched, done, t, pkSet, rest, pkBatch) && pk in rest
    ensures Accounted(batched, done, t, pkSet, rest - {pk}, pkBatch + [pk])
  {
    ElementsAppend(pkBatch, pk);
    assert pkSet - (rest - {pk}) - Elements(pkBatch + [pk]) == pkSet - rest - Elements(pkBatch);
  }

  lemma AccountEmit(batched: set<Key>, done: set<Key>, t: TableName, pkSet: set<nat>, rest: set<nat>, pkBatch: seq<nat>)
    requires Accounted(batched, done, t, pkSet, rest, pkBatch)
    requires forall k :: k in done ==> k.table != t
    ensures BatchKeys(t, Elements(pkBatch)) !! batched
    ensures Accounted(batched + BatchKeys(t, Elements(pkBatch)), done, t, pkSet, rest, [])
  {
    var a := pkSet - rest - Elements(pkBatch);
    assert a + Elements(pkBatch) == pkSet - rest - Elements([]);
    assert BatchKeys(t, a) + BatchKeys(t, Elements(pkBatch)) == BatchKeys(t, a + Elements(pkBatch));
  }

  lemma AccountAll(batched: set<Key>, done: set<Key>, t: TableName, pkSet: set<nat>, pkBatch: seq<nat>)
    requires Accounted(batched, done, t, pkSet, {}, pkBatch)
    requires forall k :: k in done ==> k.table != t
    ensures BatchKeys(t, Elements(pkBatch)) !! batched
    ensures batched + BatchKeys(t, Elements(pkBatch)) == done + BatchKeys(t, pkSet)
    ensures pkBatch == [] ==> batched == done + BatchKeys(t, pkSet)
  {
    AccountEmit(batched, done, t, pkSet, {}, pkBatch);
    assert pkSet - {} - Elements([]) == pkSet;
    assert pkBatch == [] ==> Elements(pkBatch) == {};
  }

  lemma ElementsAppend(pks: seq<nat>, pk: nat)
    ensures Elements(pks + [pk]) == Elements(pks) + {pk}
  {
  }

  /** One key more in the store: the set of keys grows by it, unless it was there. */
  lemma StoreKeysAdd(store: map<TableName, set<nat>>, k: Key)
    requires k.table in store
    ensures StoreKeys(store[k.table := store[k.table] + {k.pk}]) == StoreKeys(store) + {k}
  {
  }

  /** The rows of `all` are those in `done`, of whole tables, and those still in `store`. */
  ghost predicate Flushed(done: set<Key>, store: map<TableName, set<nat>>, all: set<Key>) {
    done + StoreKeys(store) == all && forall k :: k in done ==> k.table !in store
  }

  lemma FlushTable(done: set<Key>, store: map<TableName, set<nat>>, all: set<Key>, t: TableName)
    requires Flushed(done, store, all) && t in store
    ensures Flushed(done + BatchKeys(t, store[t]), store - {t}, all)
  {
    assert StoreKeys(store) == StoreKeys(store - {t}) + BatchKeys(t, store[t]);
  }

  lemma NothingLeft(done: set<Key>, all: set<Key>)
    requires Flushed(done, map[], all)
    ensures done == all
  {
    assert StoreKeys(map[]) == {};
  }

  class ReverifyStore {
    var mapStore: map<TableName, set<nat>>
    var batchStore: seq<ReverifyBatch>
    var rowCount: nat

    /** The rows waiting to be verified again. */
    ghost function Contents(): set<Key>
      reads this
    {
      StoreKeys(mapStore)
    }

    /** The counter, an unsigned 64-bit one, counts the distinct rows. */
    ghost predicate Valid()
      reads this
    {
      rowCount == |Contents()| % TWO_64
    }

    constructor ()
      ensures Valid() && Contents() == {} && batchStore == []
    {
      mapStore, batchStore, rowCount := map[], [], 0;
    }

    method Add(k: Key)
      requires Valid()
      modifies this`mapStore, this`rowCount
      ensures Valid() && Contents() == old(Contents()) + {k}
    {
      if k.table !in mapStore {
        mapStore := mapStore[k.table := {}];
      }
      assert Contents() == old(Contents());
      if k.pk !in mapStore[k.table] {
        StoreKeysAdd(mapStore, k);
        mapStore := mapStore[k.table := mapStore[k.table] + {k.pk}];
        rowCount := (rowCount + 1) % TWO_64;
      }
    }

    /** A complete batch. */
    method Emit(t: TableName, pks: seq<nat>, size: nat, ghost done: set<Key>)
      requires Partition(batchStore, done) && Full(batchStore, size) && TableFull(batchStore, t, size)
      requires Distinct(pks) && 1 <= |pks| <= size && BatchKeys(t, Elements(pks)) !! done
      modifies this`batchStore
      ensures batchStore == old(batchStore) + [ReverifyBatch(t, pks)]
      ensures Partition(batchStore, done + BatchKeys(t, Elements(pks))) && Full(batchStore, size)
      ensures |pks| == size ==> TableFull(batchStore, t, size)
    {
      PartitionAppend(batchStore, done, t, pks);
      FullAppend(batchStore, ReverifyBatch(t, pks), size);
      batchStore := batchStore + [ReverifyBatch(t, pks)];
    }

    /** The rows of one table, in batches of `size`. */
    method BatchTable(t: TableName, pkSet: set<nat>, size: nat, ghost done: set<Key>, ghost others: set<TableName>)
      requires size >= 1 && Partition(batchStore, done) && Full(batchStore, size)
      requires NoneOf(batchStore, {t}) && NoneOf(batchStore, others) && t !in others
      requires forall k :: k in done ==> k.table != t
      modifies this`batchStore
      ensures Partition(batchStore, done + BatchKeys(t, pkSet)) && Full(batchStore, size)
      ensures NoneOf(batchStore, others)
    {
      var pkBatch, rest := [], pkSet;
      ghost var batched := done;
      while rest != {}
        invariant Accounted(batched, done, t, pkSet, rest, pkBatch) && |pkBatch| < size
        invariant Partition(batchStore, batched) && Full(batchStore, size) && TableFull(batchStore, t, size)
        invariant NoneOf(batchStore, others)
        decreases |rest|
      {
        var pk :| pk in rest;
        AccountTake(batched, done, t, pkSet, rest, pkBatch, pk);
        pkBatch := pkBatch + [pk];
        rest := rest - {pk};
        if |pkBatch| >= size {
          AccountEmit(batched, done, t, pkSet, rest, pkBatch);
          Emit(t, pkBatch, size, batched);
          batched := batched + BatchKeys(t, Elements(pkBatch));
          pkBatch := [];
        }
      }
      AccountAll(batched, done, t, pkSet, pkBatch);
      if |pkBatch| > 0 {
        Emit(t, pkBatch, size, batched);
      }
    }

    /** The rows of all tables, one table after the other, in whatever order. */
    method BatchTables(size: nat)
      requires size >= 1 && batchStore == []
      modifies this`mapStore, this`batchStore
      ensures Partition(batchStore, old(Contents())) && Full(batchStore, size) && mapStore == map[]
    {
      ghost var all, done := Contents(), {};
      while mapStore != map[]
        invariant Partition(batchStore, done) && Full(batchStore, size) && NoneOf(batchStore, mapStore.Keys)
        invariant Flushed(done, mapStore, all)
        decreases |mapStore.Keys|
      {
        assert mapStore.Keys != {};
        var t :| t in mapStore.Keys;
        FlushTable(done, mapStore, all, t);
        BatchTable(t, mapStore[t], size, done, mapStore.Keys - {t});
        done := done + BatchKeys(t, mapStore[t]);
        mapStore := mapStore - {t};
      }
      NothingLeft(done, all);
    }

    /**
     A flush hands out every waiting row exactly once, in batches of one table each that
     are full except for the last one of a table, and empties the store.
     */
    method FlushAndBatchByTable(batchSize: nat) returns (batches: seq<ReverifyBatch>)
      requires Valid()
      modifies this
      ensures Valid() && Contents() == {} && rowCount == 0
      ensures Partition(batches, old(Contents()))
      ensures Full(batches, if batchSize == 0 then 1 else batchSize)
    {
      batchStore := [];
      BatchTables(if batchSize == 0 then 1 else batchSize);
      mapStore, rowCount := map[], 0;
      assert Contents() == {};
      batches := batchStore;
    }
  }
}

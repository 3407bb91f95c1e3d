/**
 Rows, databases and row changes.

 A database holds every table of one server; a row is found by its table and its
 numeric primary key. A change is one row of a row-based binlog event with full
 images: an insert has no `before`, a delete no `after`.
 */
module Rows {

  datatype Option<+T> = None | Some(value: T)

  const TWO_63: int := 0x8000_0000_0000_0000
  const TWO_64: int := 0x1_0000_0000_0000_0000

  /** The values of all signed and unsigned integer columns together. */
  type Integer = n: int | -TWO_63 <= n < TWO_64

  type Int64 = n: int | -TWO_63 <= n < TWO_63

  /** A column value as the server stores it; a string stands for its bytes. */
  datatype Value = Null | Number(n: Integer) | Bytes(content: string)

  type Row = seq<Value>

  datatype TableName = TableName(schema: string, name: string)

  datatype Key = Key(table: TableName, pk: nat)

  type Database = map<Key, Row>

  datatype Change = Change(key: Key, before: Option<Row>, after: Option<Row>)

  function Lookup(db: Database, k: Key): Option<Row> {
    if k in db then Some(db[k]) else None
  }

  /** A database is what its keys lead to. */
  lemma SameLookups(a: Database, b: Database)
    requires forall k :: Lookup(a, k) == Lookup(b, k)
    ensures a == b
  {
    assert forall k :: k in a <==> Lookup(a, k).Some?;
    assert forall k :: k in b <==> Lookup(b, k).Some?;
    assert a.Keys == b.Keys;
    assert forall k | k in a :: Lookup(a, k) == Some(a[k]) && Lookup(b, k) == Some(b[k]);
  }

  function Store(db: Database, k: Key, v: Option<Row>): Database {
    match v
    case None => db - {k}
    case Some(row) => db[k := row]
  }

  /** What replaying one change on the target means: compare with the old image, then swap. */
  function Cas(db: Database, e: Change): Database {
    if Lookup(db, e.key) == e.before then Store(db, e.key, e.after) else db
  }

  /** What copying one selected row to the target means: insert unless the key is taken. */
  function InsertIgnore(db: Database, k: Key, row: Row): Database {
    if k in db then db else db[k := row]
  }

  /** The database after the changes in `es`, applied in order. */
  function Replay(db: Database, es: seq<Change>): Database {
    if es == [] then db
    else
      var e := es[|es| - 1];
      Store(Replay(db, es[..|es| - 1]), e.key, e.after)
  }

  /** Compare-and-swap of every change in `es`, in order. */
  function CasAll(db: Database, es: seq<Change>): Database {
    if es == [] then db else Cas(CasAll(db, es[..|es| - 1]), es[|es| - 1])
  }

  /** Every change carries the image its row really had just before it. */
  ghost predicate Consistent(db: Database, es: seq<Change>) {
    forall i :: 0 <= i < |es| ==> es[i].before == Lookup(Replay(db, es[..i]), es[i].key)
  }

  /** Taking the first of one list to the end of the list before it changes nothing of the whole. */
  lemma MoveFirst(a: seq<Change>, b: seq<Change>, c: seq<Change>)
    requires c != []
    ensures a + (b + [c[0]]) + c[1..] == a + b + c
  {
  }

  lemma {:induction false} ReplayConcat(db: Database, a: seq<Change>, b: seq<Change>)
    ensures Replay(db, a + b) == Replay(Replay(db, a), b)
    decreases |b|
  {
    if b == [] {
      assert a + b == a;
    } else {
      assert (a + b)[..|a + b| - 1] == a + b[..|b| - 1];
      ReplayConcat(db, a, b[..|b| - 1]);
    }
  }

  lemma ConsistentConcat(db: Database, a: seq<Change>, b: seq<Change>)
    requires Consistent(db, a) && Consistent(Replay(db, a), b)
    ensures Consistent(db, a + b)
  {
    var ab := a + b;
    forall i | 0 <= i < |ab|
      ensures ab[i].before == Lookup(Replay(db, ab[..i]), ab[i].key)
    {
      PrefixReplay(db, a, b, i);
      assert ab[i] == if i < |a| then a[i] else b[i - |a|];
    }
  }

  lemma PrefixReplay(db: Database, a: seq<Change>, b: seq<Change>, i: nat)
    requires i < |a + b|
    ensures Replay(db, (a + b)[..i]) == if i < |a| then Replay(db, a[..i]) else Replay(Replay(db, a), b[..i - |a|])
  {
    if i < |a| {
      assert (a + b)[..i] == a[..i];
    } else {
      assert (a + b)[..i] == a + b[..i - |a|];
      ReplayConcat(db, a, b[..i - |a|]);
    }
  }

  /** A key no change touches keeps its value. */
  lemma {:induction false} ReplayUntouched(db: Database, es: seq<Change>, k: Key)
    requires forall i :: 0 <= i < |es| ==> es[i].key != k
    ensures Lookup(Replay(db, es), k) == Lookup(db, k)
  {
    if es != [] {
      ReplayUntouched(db, es[..|es| - 1], k);
    }
  }

  /** Replaying one more change moves exactly its own key, from `before` to `after`. */
  lemma ReplayStep(db: Database, es: seq<Change>, i: nat, k: Key)
    requires i < |es| && Consistent(db, es)
    ensures Lookup(Replay(db, es[..i + 1]), k)
         == if k == es[i].key then es[i].after else Lookup(Replay(db, es[..i]), k)
    ensures k == es[i].key ==> Lookup(Replay(db, es[..i]), k) == es[i].before
  {
    assert es[..i + 1][..i] == es[..i];
  }
}

/**
 Which rows a run copies and which row changes it replays.

 `Selects` is the WHERE clause of the copying SELECT; `Judge` is the decision the
 streamer takes on a row change. They are written independently of each other, as in
 the program, and compared in module Sharding.
 */
module CopyFilter {
  import opened Rows

  /** The sharding column of a table: its index, and the least and the most its integer type admits. */
  datatype ShardingColumn = ShardingColumn(index: nat, least: Integer, most: Integer)

  predicate Admits(column: ShardingColumn, n: int) {
    column.least <= n <= column.most
  }

  /**
   `Everything` is a run without a copy filter. `Shard` keeps the rows whose sharding
   column holds `value`; `columns` gives that column for each table that has one.
   */
  datatype Filter = Everything | Shard(columns: map<TableName, ShardingColumn>, value: Int64)

  /** SQL equality of a stored value and the sharding value: exact, and never TRUE on NULL. */
  predicate Selects(f: Filter, k: Key, row: Row) {
    match f
    case Everything => true
    case Shard(columns, value) => k.table in columns && HoldsNumber(columns[k.table], row, value)
  }

  predicate HoldsNumber(column: ShardingColumn, row: Row, n: Integer) {
    column.index < |row| && row[column.index] == Number(n)
  }

  /** The change is about a row to be copied, before it or after it. */
  predicate Concerns(f: Filter, tables: set<TableName>, e: Change) {
    && e.key.table in tables
    && ((e.before.Some? && Selects(f, e.key, e.before.value)) || (e.after.Some? && Selects(f, e.key, e.after.value)))
  }

  /** None of the changes is about a row to be copied. */
  ghost predicate Quiet(f: Filter, tables: set<TableName>, es: seq<Change>) {
    forall i :: 0 <= i < |es| ==> !Concerns(f, tables, es[i])
  }

  datatype Parsed = Absent | Invalid | Parsed(value: Int64)

  /** The conversion int64(v) of a column value: unsigned values from 2^63 on wrap around. */
  function ToInt64(n: Integer): (r: Int64)
    ensures (r - n) % TWO_64 == 0
  {
    if n >= TWO_63 then n - TWO_64 else n
  }

  function ParseShardingValue(image: Option<Row>, index: nat): Parsed {
    match image
    case None => Absent
    case Some(row) =>
      if index < |row| && row[index].Number? then Parsed(ToInt64(row[index].n)) else Invalid
  }

  datatype Verdict = Replayed | Skipped | Aborted

  /** A change of the sharding key across the boundary, or an unreadable key, aborts the run. */
  function JudgeShard(value: Int64, index: nat, e: Change): Verdict {
    var was := ParseShardingValue(e.before, index);
    var now := ParseShardingValue(e.after, index);
    var oldEqual := was == Parsed(value);
    var newEqual := now == Parsed(value);
    if was.Invalid? || now.Invalid? then Aborted
    else if oldEqual != newEqual && was.Parsed? && now.Parsed? then Aborted
    else if oldEqual || newEqual then Replayed
    else Skipped
  }

  /** `tables` is the schema cache: changes to tables outside it are dropped unseen. */
  function Judge(f: Filter, tables: set<TableName>, e: Change): Verdict {
    if e.key.table !in tables then Skipped
    else match f
      case Everything => Replayed
      case Shard(columns, value) =>
        if e.key.table in columns then JudgeShard(value, columns[e.key.table].index, e) else Skipped
  }

  ghost predicate Aborts(f: Filter, tables: set<TableName>, es: seq<Change>) {
    exists e :: e in es && Judge(f, tables, e) == Aborted
  }

  /** The changes of one binlog event that are handed to the listeners, in order. */
  function Applicable(f: Filter, tables: set<TableName>, es: seq<Change>): seq<Change> {
    if es == [] then []
    else
      var e := es[|es| - 1];
      Applicable(f, tables, es[..|es| - 1]) + if Judge(f, tables, e) == Replayed then [e] else []
  }

  // ---- numbers that are taken for the sharding value ----------------------

  /**
   The row's sharding column holds an unsigned number that is not the sharding value, and
   becomes it in the conversion to a signed one.
   */
  predicate Twin(f: Filter, k: Key, row: Row) {
    && f.Shard? && k.table in f.columns && f.value < 0
    && HoldsNumber(f.columns[k.table], row, f.value + TWO_64)
  }

  /** Neither image of the change is such a row. */
  predicate Untwinned(f: Filter, tables: set<TableName>, e: Change) {
    e.key.table in tables ==>
      && (e.before.Some? ==> !Twin(f, e.key, e.before.value))
      && (e.after.Some? ==> !Twin(f, e.key, e.after.value))
  }

  /** The sharding column of the row holds what its type admits. */
  predicate Typed(f: Filter, k: Key, row: Row) {
    f.Shard? && k.table in f.columns ==>
      var column := f.columns[k.table];
      column.index < |row| && row[column.index].Number? ==> Admits(column, row[column.index].n)
  }

  predicate TypedChange(f: Filter, e: Change) {
    && (e.before.Some? ==> Typed(f, e.key, e.before.value))
    && (e.after.Some? ==> Typed(f, e.key, e.after.value))
  }

  /** The sharding value has no twin in any sharding column. */
  predicate TwinFree(f: Filter) {
    f.Shard? ==> f.value >= 0 || forall t :: t in f.columns ==> !Admits(f.columns[t], f.value + TWO_64)
  }

  /** The streamer's test and SQL equality agree on all that a column admits exactly if the value has no twin there. */
  lemma TestAgreesIff(column: ShardingColumn, value: Int64)
    ensures (forall n: Integer :: Admits(column, n) ==> (ToInt64(n) == value <==> n == value)) <==>
              value >= 0 || !Admits(column, value + TWO_64)
  {
    if value < 0 {
      assert ToInt64(value + TWO_64) == value;
    }
  }

  /** In tables without a twin of the sharding value no row is one. */
  lemma TwinFreeMeansUntwinned(f: Filter, tables: set<TableName>, e: Change)
    requires TwinFree(f) && TypedChange(f, e)
    ensures Untwinned(f, tables, e)
  {
  }

  // ---- what becomes of a change --------------------------------------------

  /** The row has a number in its sharding column. */
  predicate Readable(column: ShardingColumn, row: Row) {
    column.index < |row| && row[column.index].Number?
  }

  /** That number is the sharding value once it is taken as a signed one. */
  predicate ReadsAs(column: ShardingColumn, row: Row, value: Int64) {
    Readable(column, row) && ToInt64(row[column.index].n) == value
  }

  /** One of the images has no number in the sharding column. */
  predicate Unreadable(column: ShardingColumn, e: Change) {
    || (e.before.Some? && !Readable(column, e.before.value))
    || (e.after.Some? && !Readable(column, e.after.value))
  }

  /** It is an update, and just one of its images reads as the sharding value. */
  predicate Moves(column: ShardingColumn, value: Int64, e: Change) {
    && e.before.Some? && e.after.Some?
    && ReadsAs(column, e.before.value, value) != ReadsAs(column, e.after.value, value)
  }

  /** One of the images reads as the sharding value. */
  predicate Belongs(column: ShardingColumn, value: Int64, e: Change) {
    || (e.before.Some? && ReadsAs(column, e.before.value, value))
    || (e.after.Some? && ReadsAs(column, e.after.value, value))
  }

  /**
   What aborts the run: in a copied table with a sharding column, an image that cannot be
   read there, or an update that moves its row from one shard to another. Nothing else does.
   */
  lemma AbortsIff(f: Filter, tables: set<TableName>, e: Change)
    ensures Judge(f, tables, e) == Aborted <==>
              && f.Shard? && e.key.table in tables && e.key.table in f.columns
              && (Unreadable(f.columns[e.key.table], e) || Moves(f.columns[e.key.table], f.value, e))
  {
  }

  /** What is replayed: of the copied tables all, or all that does not abort and has an image in the shard. */
  lemma ReplayedIff(f: Filter, tables: set<TableName>, e: Change)
    ensures Judge(f, tables, e) == Replayed <==>
              && e.key.table in tables
              && (f.Everything? ||
                  (&& e.key.table in f.columns && !Unreadable(f.columns[e.key.table], e)
                   && !Moves(f.columns[e.key.table], f.value, e) && Belongs(f.columns[e.key.table], f.value, e)))
  {
  }

  /** With numbers that can be read and are not taken for others, just the updates across the boundary abort. */
  lemma AbortsIffCrossing(f: Filter, tables: set<TableName>, e: Change)
    requires Untwinned(f, tables, e)
    requires f.Shard? && e.key.table in tables && e.key.table in f.columns && !Unreadable(f.columns[e.key.table], e)
    ensures Judge(f, tables, e) == Aborted <==>
              && e.before.Some? && e.after.Some?
              && Selects(f, e.key, e.before.value) != Selects(f, e.key, e.after.value)
  {
    AbortsIff(f, tables, e);
    if e.before.Some? {
      ReadsAsIffSelected(f, e.key, e.before.value);
    }
    if e.after.Some? {
      ReadsAsIffSelected(f, e.key, e.after.value);
    }
  }

  lemma ReadsAsIffSelected(f: Filter, k: Key, row: Row)
    requires f.Shard? && k.table in f.columns && !Twin(f, k, row)
    ensures ReadsAs(f.columns[k.table], row, f.value) <==> Selects(f, k, row)
  {
  }

  // ---- the changes of an event, in order ----------------------------------

  lemma {:induction false} ApplicableConcat(f: Filter, tables: set<TableName>, a: seq<Change>, b: seq<Change>)
    ensures Applicable(f, tables, a + b) == Applicable(f, tables, a) + Applicable(f, tables, b)
    decreases |b|
  {
    if b == [] {
      assert a + b == a;
    } else {
      var n := |b| - 1;
      assert (a + b)[..|a + b| - 1] == a + b[..n] && (a + b)[|a + b| - 1] == b[n];
      ApplicableConcat(f, tables, a, b[..n]);
    }
  }
}

/**
 The sharded copy filter's decision on one event, as the program finds it: by scanning the
 table's columns for the sharding key.
 */
module ShardedCopyFiltering {
  import opened Rows
  import opened CopyFilter

  /** A column's name, and the range of its type if that is an integer type. */
  datatype ColumnSchema = ColumnSchema(name: string, least: Integer, most: Integer)

  /** The part of a table's schema that the filter looks at. */
  datatype Schema = Schema(name: string, columns: seq<ColumnSchema>, pkIndex: nat)

  /** The index of the first column of that name; |columns| if there is none. */
  function FirstIndex(columns: seq<ColumnSchema>, name: string): (i: nat)
    ensures i <= |columns| && (i < |columns| ==> columns[i].name == name)
    ensures forall j :: 0 <= j < i ==> columns[j].name != name
  {
    if columns == [] || columns[0].name == name then 0 else 1 + FirstIndex(columns[1..], name)
  }

  lemma FirstIsFound(columns: seq<ColumnSchema>, name: string)
    ensures FirstIndex(columns, name) < |columns| <==> exists i :: 0 <= i < |columns| && columns[i].name == name
  {
    if i :| 0 <= i < |columns| && columns[i].name == name {
      assert FirstIndex(columns, name) <= i;
    }
  }

  class ShardedCopyFilter {
    const shardingKey: string
    const shardingValue: Int64
    const primaryKeyTables: set<string>

    constructor (shardingKey: string, shardingValue: Int64, primaryKeyTables: set<string>)
      ensures this.shardingKey == shardingKey && this.shardingValue == shardingValue
      ensures this.primaryKeyTables == primaryKeyTables
    {
      this.shardingKey, this.shardingValue := shardingKey, shardingValue;
      this.primaryKeyTables := primaryKeyTables;
    }

    /** The column that decides: tables keyed by the sharding value go by their primary key. */
    function KeyColumn(table: Schema): string
      requires table.pkIndex < |table.columns|
    {
      if table.name in primaryKeyTables then table.columns[table.pkIndex].name else shardingKey
    }

    function KeyIndex(table: Schema): nat
      requires table.pkIndex < |table.columns|
    {
      FirstIndex(table.columns, KeyColumn(table))
    }

    /** These are the schemas of all tables of the run. */
    ghost predicate Schemas(schemas: map<TableName, Schema>) {
      forall t :: t in schemas ==> schemas[t].name == t.name && schemas[t].pkIndex < |schemas[t].columns|
    }

    /** The table's sharding column is its first column of that name, or there is none. */
    ghost predicate Decides(f: Filter, t: TableName, table: Schema, name: string)
      requires f.Shard?
    {
      && (t in f.columns <==> exists i :: 0 <= i < |table.columns| && table.columns[i].name == name)
      && (t in f.columns ==>
            && f.columns[t].index < |table.columns| && table.columns[f.columns[t].index].name == name
            && forall j :: 0 <= j < f.columns[t].index ==> table.columns[j].name != name)
    }

    /** The protocol's filter: the tables that have the deciding column, with its place and range. */
    ghost function FilterFor(schemas: map<TableName, Schema>): Filter
      requires Schemas(schemas)
    {
      Shard(map t | t in schemas && KeyIndex(schemas[t]) < |schemas[t].columns| ::
              var column := schemas[t].columns[KeyIndex(schemas[t])];
              ShardingColumn(KeyIndex(schemas[t]), column.least, column.most),
            shardingValue)
    }

    /** It goes by the sharding key, and in primary-key tables by the primary key. */
    lemma ColumnThatDecides(schemas: map<TableName, Schema>, t: TableName)
      requires Schemas(schemas) && t in schemas
      ensures FilterFor(schemas).value == shardingValue
      ensures t.name !in primaryKeyTables ==> Decides(FilterFor(schemas), t, schemas[t], shardingKey)
      ensures t.name in primaryKeyTables ==>
                Decides(FilterFor(schemas), t, schemas[t], schemas[t].columns[schemas[t].pkIndex].name)
    {
      FirstIsFound(schemas[t].columns, KeyColumn(schemas[t]));
    }

    lemma JudgedByIndex(schemas: map<TableName, Schema>, e: Change)
      requires Schemas(schemas) && e.key.table in schemas
      ensures var table := schemas[e.key.table];
              Judge(FilterFor(schemas), schemas.Keys, e)
              == if KeyIndex(table) < |table.columns| then JudgeShard(shardingValue, KeyIndex(table), e) else Skipped
    {
    }

    /** The scan decides as the protocol's filter does. */
    method ApplicableEvent(table: Schema, e: Change, ghost schemas: map<TableName, Schema>) returns (v: Verdict)
      requires Schemas(schemas) && e.key.table in schemas && schemas[e.key.table] == table
      ensures v == Judge(FilterFor(schemas), schemas.Keys, e)
    {
      JudgedByIndex(schemas, e);
      var key := shardingKey;
      if table.name in primaryKeyTables {
        key := table.columns[table.pkIndex].name;
      }
      var idx: nat := 0;
      while idx < |table.columns|
        invariant idx <= |table.columns| && key == KeyColumn(table)
        invariant forall j :: 0 <= j < idx ==> table.columns[j].name != key
      {
        if table.columns[idx].name == key {
          assert idx == KeyIndex(table);
          var was := ParseShardingValue(e.before, idx);
          if was.Invalid? {
            return Aborted;
          }
          var now := ParseShardingValue(e.after, idx);
          if now.Invalid? {
            return Aborted;
          }
          var oldEqual := was.Parsed? && was.value == shardingValue;
          var newEqual := now.Parsed? && now.value == shardingValue;
          if oldEqual != newEqual && was.Parsed? && now.Parsed? {
            return Aborted;
          }
          return if oldEqual || newEqual then Replayed else Skipped;
        }
        idx := idx + 1;
      }
      assert KeyIndex(table) == |table.columns|;
      v := Skipped;
    }
  }
}

/**
 A source that keeps its rows in order makes for a target that does: in every run all rows
 of the target have all their columns and sit under their own primary keys, in tables that
 are copied.
 */
module GoodRuns {
  import opened Rows
  import opened Binlog
  import opened CopyFilter
  import opened DmlEvents
  import opened SqlMeaning
  import opened Rewriting
  import opened Protocol
  import opened InvariantKept

  ghost predicate GoodRows(cat: Catalogue, db: Database) {
    forall k :: k in db && k.table in cat ==> GoodRow(cat[k.table], k, db[k])
  }

  predicate GoodChange(cat: Catalogue, e: Change) {
    e.after.Some? && e.key.table in cat ==> GoodRow(cat[e.key.table], e.key, e.after.value)
  }

  ghost predicate GoodChanges(cat: Catalogue, es: seq<Change>) {
    forall i :: 0 <= i < |es| ==> GoodChange(cat, es[i])
  }

  /** Good changes, to tables that are copied. */
  ghost predicate GoodQueue(cat: Catalogue, tables: set<TableName>, es: seq<Change>) {
    GoodChanges(cat, es) && AllWithin(es, tables)
  }

  ghost predicate GoodIteration(cat: Catalogue, t: TableName, it: Iteration) {
    it.Holding? ==> GoodRows(cat, it.page) && Within(it.page, {t})
  }

  ghost predicate GoodTables(cat: Catalogue, s: State) {
    && GoodRows(cat, s.target) && Within(s.target, s.tables.Keys)
    && forall t :: t in s.tables ==> GoodIteration(cat, t, s.tables[t])
  }

  ghost predicate GoodSource(cat: Catalogue, s: State) {
    GoodRows(cat, s.source) && forall i :: 0 <= i < |s.log| ==> GoodChanges(cat, EntryChanges(s.log[i]))
  }

  ghost predicate GoodQueues(cat: Catalogue, s: State) {
    && (s.streamer.pending.Some? ==> GoodQueue(cat, s.tables.Keys, s.streamer.pending.value))
    && GoodQueue(cat, s.tables.Keys, s.writer.channel) && GoodQueue(cat, s.tables.Keys, s.writer.batch)
  }

  ghost predicate GoodState(cat: Catalogue, s: State) {
    GoodTables(cat, s) && GoodSource(cat, s) && GoodQueues(cat, s)
  }

  predicate WritesGood(cat: Catalogue, step: Step) {
    step.Source? && step.source.Write? ==>
      forall i :: 0 <= i < |step.source.changes| ==> GoodChange(cat, step.source.changes[i])
  }

  lemma {:induction false} ReplayGood(cat: Catalogue, db: Database, es: seq<Change>)
    requires GoodRows(cat, db) && GoodChanges(cat, es)
    ensures GoodRows(cat, Replay(db, es))
  {
    if es != [] {
      ReplayGood(cat, db, es[..|es| - 1]);
    }
  }

  lemma SourceGood(c: Config, cat: Catalogue, s: State, a: SourceStep)
    requires SourceEnabled(c, s, a) && GoodSource(cat, s) && WritesGood(cat, Source(a))
    ensures GoodSource(cat, SourceApply(s, a))
  {
    if a.Write? {
      ReplayGood(cat, s.source, a.changes);
    }
  }

  lemma CopyGood(c: Config, cat: Catalogue, s: State, a: CopyStep)
    requires CopyEnabled(c, s, a) && GoodTables(cat, s) && GoodRows(cat, s.source)
    ensures GoodTables(cat, CopyApply(c, s, a))
  {
    CopyTouches(c, s, a);
    var s' := CopyApply(c, s, a);
    assert GoodIteration(cat, a.table, s.tables[a.table]);
    forall t | t in s'.tables ensures GoodIteration(cat, t, s'.tables[t]) {
      assert GoodIteration(cat, t, s.tables[t]);
    }
  }

  /** What the streamer hands on is part of what it reads. */
  lemma {:induction false} ApplicableGood(f: Filter, cat: Catalogue, tables: set<TableName>, es: seq<Change>)
    requires GoodChanges(cat, es)
    ensures GoodQueue(cat, tables, Applicable(f, tables, es))
  {
    if es != [] {
      ApplicableGood(f, cat, tables, es[..|es| - 1]);
    }
  }

  lemma StreamGood(c: Config, cat: Catalogue, s: State, a: StreamStep)
    requires StreamEnabled(c, s, a) && GoodSource(cat, s) && GoodQueues(cat, s)
    ensures GoodQueues(cat, StreamApply(c, s, a))
  {
    if a.Read? {
      ApplicableGood(c.filter, cat, s.tables.Keys, EntryChanges(s.log[s.streamer.index]));
    }
  }

  lemma WriteGood(c: Config, cat: Catalogue, s: State, a: WriteStep)
    requires WriteEnabled(c, s.writer, a) && GoodTables(cat, s) && GoodQueues(cat, s)
    ensures GoodTables(cat, WriteApply(c, s, a)) && GoodQueues(cat, WriteApply(c, s, a))
  {
    if a.Statement? {
      var e := s.writer.batch[s.writer.next];
      assert GoodChange(cat, e) && e.key.table in s.tables.Keys;
    }
  }

  lemma TablesFrame(cat: Catalogue, s: State, s': State)
    requires GoodTables(cat, s) && s'.target == s.target && s'.tables == s.tables
    ensures GoodTables(cat, s')
  {
  }

  lemma SourceFrame(cat: Catalogue, s: State, s': State)
    requires GoodSource(cat, s) && s'.source == s.source && s'.log == s.log
    ensures GoodSource(cat, s')
  {
  }

  lemma QueuesFrame(cat: Catalogue, s: State, s': State)
    requires GoodQueues(cat, s) && s'.streamer.pending == s.streamer.pending && s'.tables.Keys == s.tables.Keys
    requires s'.writer.channel == s.writer.channel && s'.writer.batch == s.writer.batch
    ensures GoodQueues(cat, s')
  {
  }

  lemma SourceGoodState(c: Config, cat: Catalogue, s: State, a: SourceStep)
    requires SourceEnabled(c, s, a) && GoodState(cat, s) && WritesGood(cat, Source(a))
    ensures GoodState(cat, SourceApply(s, a))
  {
    SourceGood(c, cat, s, a);
    TablesFrame(cat, s, SourceApply(s, a));
    QueuesFrame(cat, s, SourceApply(s, a));
  }

  lemma FerryGoodState(c: Config, cat: Catalogue, s: State, a: FerryStep)
    requires FerryEnabled(c, s, a) && GoodState(cat, s)
    ensures GoodState(cat, FerryApply(s, a))
  {
    TablesFrame(cat, s, FerryApply(s, a));
    SourceFrame(cat, s, FerryApply(s, a));
    QueuesFrame(cat, s, FerryApply(s, a));
  }

  lemma CopyGoodState(c: Config, cat: Catalogue, s: State, a: CopyStep)
    requires CopyEnabled(c, s, a) && GoodState(cat, s)
    ensures GoodState(cat, CopyApply(c, s, a))
  {
    CopyTouches(c, s, a);
    CopyGood(c, cat, s, a);
    SourceFrame(cat, s, CopyApply(c, s, a));
    QueuesFrame(cat, s, CopyApply(c, s, a));
  }

  lemma StreamGoodState(c: Config, cat: Catalogue, s: State, a: StreamStep)
    requires StreamEnabled(c, s, a) && GoodState(cat, s)
    ensures GoodState(cat, StreamApply(c, s, a))
  {
    StreamTouches(c, s, a);
    StreamGood(c, cat, s, a);
    TablesFrame(cat, s, StreamApply(c, s, a));
    SourceFrame(cat, s, StreamApply(c, s, a));
  }

  lemma WriteGoodState(c: Config, cat: Catalogue, s: State, a: WriteStep)
    requires WriteEnabled(c, s.writer, a) && GoodState(cat, s)
    ensures GoodState(cat, WriteApply(c, s, a))
  {
    WriteTouches(c, s, a);
    WriteGood(c, cat, s, a);
    SourceFrame(cat, s, WriteApply(c, s, a));
  }

  lemma StepGood(c: Config, cat: Catalogue, s: State, step: Step)
    requires Enabled(c, s, step) && GoodState(cat, s) && WritesGood(cat, step)
    ensures GoodState(cat, Apply(c, s, step))
  {
    match step
    case Source(a) => SourceGoodState(c, cat, s, a);
    case Ferry(a) => FerryGoodState(c, cat, s, a);
    case Copy(a) => CopyGoodState(c, cat, s, a);
    case Stream(a) => StreamGoodState(c, cat, s, a);
    case Replaying(a) => WriteGoodState(c, cat, s, a);
  }

  lemma {:induction false} RunGood(c: Config, cat: Catalogue, s: State, steps: seq<Step>, t: State)
    requires Runs(c, s, steps, t) && GoodState(cat, s)
    requires forall i :: 0 <= i < |steps| ==> WritesGood(cat, steps[i])
    ensures GoodState(cat, t) && t.tables.Keys == s.tables.Keys
    decreases |steps|
  {
    if steps != [] {
      StepGood(c, cat, s, steps[0]);
      TablesStay(c, s, steps[0]);
      RunGood(c, cat, Apply(c, s, steps[0]), steps[1..], t);
    }
  }

  /** A run from good rows on the source, in which the application writes good rows only. */
  ghost predicate OrderlyRun(c: Config, cat: Catalogue, s: State, steps: seq<Step>, t: State) {
    && Init(s) && Runs(c, s, steps, t) && GoodRows(cat, s.source)
    && forall i :: 0 <= i < |steps| ==> WritesGood(cat, steps[i])
  }

  /** In every state of such a run, whatever the filter, the target has good rows only. */
  lemma TargetIsGood(c: Config, cat: Catalogue, s: State, steps: seq<Step>, t: State)
    requires OrderlyRun(c, cat, s, steps, t)
    ensures GoodRows(cat, t.target) && Within(t.target, t.tables.Keys) && t.tables.Keys == s.tables.Keys
    ensures AllWithin(t.writer.batch, t.tables.Keys)
  {
    RunGood(c, cat, s, steps, t);
  }

  // ---- under the target's names --------------------------------------------

  /** The target's server has the same tables, under their other names. */
  ghost predicate SameTables(rw: Rewrites, tables: set<TableName>, cat: Catalogue, there: Catalogue) {
    && (forall t :: t in tables ==> t in cat && TargetName(rw, t) in there)
    && (forall t :: t in tables ==> there[TargetName(rw, t)] == TargetSchema(rw, cat[t]))
    && (forall t :: t in cat ==> cat[t].table == t)
    && (forall t :: t in there ==> there[t].table == t && GoodSchema(there[t]))
  }

  lemma RenamedGood(rw: Rewrites, tables: set<TableName>, cat: Catalogue, there: Catalogue, db: Database)
    requires Injective(rw, tables) && Within(db, tables) && SameTables(rw, tables, cat, there) && GoodRows(cat, db)
    ensures GoodDatabase(there, Renamed(rw, tables, db))
  {
    var renamed := Renamed(rw, tables, db);
    forall k | k in renamed && k.table in there ensures GoodRow(there[k.table], k, renamed[k]) {
      var j :| j in db && TargetKey(rw, j) == k;
      RenamedLookup(rw, tables, db, j);
      assert GoodRow(cat[j.table], j, db[j]);
    }
  }

  lemma RewrittenGood(rw: Rewrites, tables: set<TableName>, cat: Catalogue, there: Catalogue, es: seq<DmlEvent>)
    requires SameTables(rw, tables, cat, there) && GoodEvents(cat, es)
    requires forall i :: 0 <= i < |es| ==> es[i].schema.table in tables
    ensures GoodEvents(there, AllRewritten(rw, es))
  {
    forall i | 0 <= i < |es| ensures GoodEvent(there, AllRewritten(rw, es)[i]) {
      assert GoodEvent(cat, es[i]) && AllRewritten(rw, es)[i] == Rewritten(rw, es[i]);
    }
  }
}

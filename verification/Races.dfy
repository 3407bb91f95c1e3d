/**
 What goes wrong without the program's precautions, and where the program itself has a
 limit: complete runs that end with the target different from the source.
 */
module Races {
  import opened Rows
  import opened Binlog
  import opened CopyFilter
  import opened Protocol
  import opened Sharding
  import opened Convergence

  // ---- building runs -------------------------------------------------------

  lemma {:induction false} RunsConcat(c: Config, s: State, a: seq<Step>, m: State, b: seq<Step>, t: State)
    requires Runs(c, s, a, m) && Runs(c, m, b, t)
    ensures Runs(c, s, a + b, t)
    decreases |a|
  {
    if a == [] {
      assert a + b == b;
    } else {
      assert (a + b)[1..] == a[1..] + b;
      RunsConcat(c, Apply(c, s, a[0]), a[1..], m, b, t);
    }
  }

  lemma Then(c: Config, s: State, steps: seq<Step>, m: State, step: Step) returns (steps': seq<Step>, t: State)
    requires Runs(c, s, steps, m) && Enabled(c, m, step)
    ensures t == Apply(c, m, step) && Runs(c, s, steps', t)
  {
    t := Apply(c, m, step);
    steps' := steps + [step];
    assert [step][1..] == [];
    assert Runs(c, m, [step], t);
    RunsConcat(c, s, steps, m, [step], t);
  }

  /** Nothing is on its way to the target. */
  predicate Idle(s: State) {
    && s.connected && s.streamer.running && s.streamer.pending.None?
    && s.writer.running && !s.writer.writing && !s.writer.closed
    && s.writer.channel == [] && s.writer.batch == []
  }

  /** From an idle state at the end of the log, an orderly cutover leads to the end. */
  lemma CutOver(c: Config, s: State) returns (steps: seq<Step>, t: State)
    requires Idle(s) && RowCopyComplete(s) && s.streamer.position == Here(s)
    requires s.cutover == Cutover(false, false, Position(0, 0), 0, false)
    ensures Runs(c, s, steps, t) && Done(t)
    ensures t.source == s.source && t.target == s.target && t.tables == s.tables && t.log == s.log
  {
    t, steps := s, [];
    steps, t := Then(c, s, steps, t, Ferry(SetReadonly));
    var more, u := StopAll(c, t);
    RunsConcat(c, s, steps, t, more, u);
    steps, t := steps + more, u;
  }

  function StopSteps(): seq<Step> {
    [Ferry(RecordStop), Ferry(RequestStop), Stream(StopStreaming), Replaying(StopWriting)]
  }

  /** The same once the source is read-only. */
  lemma StopAll(c: Config, s: State) returns (steps: seq<Step>, t: State)
    requires Idle(s) && RowCopyComplete(s) && s.streamer.position == Here(s)
    requires s.cutover == Cutover(true, false, Position(0, 0), 0, false)
    ensures steps == StopSteps() && Runs(c, s, steps, t) && Done(t)
    ensures t.source == s.source && t.target == s.target && t.tables == s.tables && t.log == s.log
  {
    var s1 := s.(cutover := Cutover(true, true, Here(s), |s.log|, false));
    var s2 := s1.(cutover := s1.cutover.(requested := true));
    var s3 := s2.(streamer := s.streamer.(running := false), writer := s.writer.(closed := true));
    t := s3.(writer := s3.writer.(running := false));
    steps := StopSteps();
    assert steps[1..][0] == Ferry(RequestStop) && steps[1..][1..][0] == Stream(StopStreaming);
    assert steps[1..][1..][1..] == [Replaying(StopWriting)] && steps[1..][1..][1..][1..] == [];
    assert Runs(c, s3, steps[1..][1..][1..], t);
    assert Runs(c, s2, steps[1..][1..], t);
    assert Runs(c, s1, steps[1..], t);
  }

  /** The next log entry holds one change; it is streamed and replayed. */
  lemma StreamOne(c: Config, s: State, e: Change) returns (steps: seq<Step>, t: State)
    requires Idle(s) && !s.cutover.requested && c.batchSize >= 1
    requires s.streamer.index < |s.log| && EntryChanges(s.log[s.streamer.index]) == [e]
    requires Judge(c.filter, s.tables.Keys, e) == Replayed
    ensures Runs(c, s, steps, t) && Idle(t)
    ensures t == s.(target := Cas(s.target, e),
                    streamer := s.streamer.(index := s.streamer.index + 1,
                                            position := Remember(s.streamer.position, s.log[s.streamer.index])),
                    writer := s.writer.(applied := s.writer.applied + [e], next := 0))
  {
    var es := [e];
    assert es[..0] == [] && es[1..] == [];
    assert Applicable(c.filter, s.tables.Keys, es) == [e];
    t, steps := s, [];
    steps, t := Then(c, s, steps, t, Stream(Read));
    steps, t := Then(c, s, steps, t, Stream(Push));
    steps, t := Then(c, s, steps, t, Stream(Acknowledge));
    var more, u := ReplayOne(c, t, e);
    RunsConcat(c, s, steps, t, more, u);
    steps, t := steps + more, u;
  }

  /** The one change in the channel is replayed. */
  lemma ReplayOne(c: Config, s: State, e: Change) returns (steps: seq<Step>, t: State)
    requires s.writer.running && !s.writer.writing && s.writer.channel == [e] && s.writer.batch == []
    requires c.batchSize >= 1
    ensures Runs(c, s, steps, t)
    ensures t == s.(target := Cas(s.target, e),
                    writer := s.writer.(channel := [], applied := s.writer.applied + [e], next := 0))
  {
    t, steps := s, [];
    steps, t := Then(c, s, steps, t, Replaying(Receive));
    steps, t := Then(c, s, steps, t, Replaying(BeginWrite));
    steps, t := Then(c, s, steps, t, Replaying(Statement));
    steps, t := Then(c, s, steps, t, Replaying(Commit));
  }

  /** The application can make one change, the first since the ferry has connected. */
  lemma WriteOne(c: Config, s: State, e: Change)
    requires !s.cutover.readonly && e.before == Lookup(s.source, e.key) && Visible(e)
    requires c.rowLock ==> !Locked(s, e.key)
    requires s.connected && s.log == [] && s.origin == Position(1, 4)
    ensures SourceEnabled(c, s, Write([e], 100))
    ensures SourceApply(s, Write([e], 100))
         == s.(source := Store(s.source, e.key, e.after), log := [RowsEvent([e], 100)])
  {
    OneChange(s.source, e);
    assert s.log + [RowsEvent([e], 100)] == [RowsEvent([e], 100)];
  }

  lemma OneEntry(origin: Position, e: Entry)
    ensures ServerPosition(origin, [e]) == EndOf(origin, e)
  {
    assert [e][..0] == [];
  }

  lemma OneChange(db: Database, e: Change)
    requires e.before == Lookup(db, e.key)
    ensures Consistent(db, [e]) && Replay(db, [e]) == Store(db, e.key, e.after)
  {
    assert [e][..0] == [];
  }

  // ---- the runs ------------------------------------------------------------

  function StartState(source: Database, t: TableName): State {
    State(source, map[], false, source, Position(1, 4), [], map[t := Waiting],
          Streamer(Position(0, 0), 0, None, true),
          Writer([], false, [], [], 0, false, true),
          Cutover(false, false, Position(0, 0), 0, false))
  }

  /** A table of one row: the page with it is held, and nothing has been written. */
  function HeldOne(t: TableName, a: Row): State {
    StartState(map[Key(t, 1) := a], t).(
      connected := true, streamer := Streamer(Position(1, 4), 0, None, true),
      tables := map[t := Holding(1, 0, map[Key(t, 1) := a], 1, {})])
  }

  lemma HoldPage(c: Config, t: TableName, a: Row) returns (steps: seq<Step>)
    requires c.filter == Everything && c.pageSize == 1
    ensures Init(StartState(map[Key(t, 1) := a], t))
    ensures Runs(c, StartState(map[Key(t, 1) := a], t), steps, HeldOne(t, a))
  {
    var s := StartState(map[Key(t, 1) := a], t);
    var u := s;
    steps := [];
    steps, u := Then(c, s, steps, u, Ferry(Connect));
    MaxOfOne(c, u, t, a);
    steps, u := Then(c, s, steps, u, Copy(ReadMax(t, Some(1))));
    SelectOne(c, u, t, a);
    steps, u := Then(c, s, steps, u, Copy(Select(t, map[Key(t, 1) := a], 1)));
  }

  lemma MaxOfOne(c: Config, s: State, t: TableName, a: Row)
    requires s.connected && s.source == map[Key(t, 1) := a] && s.tables == map[t := Waiting]
    ensures CopyEnabled(c, s, ReadMax(t, Some(1)))
    ensures CopyApply(c, s, ReadMax(t, Some(1))) == s.(tables := map[t := Scanning(1, 0)])
  {
  }

  /** A page is selected, and the application updates its row before the page is written. */
  lemma SelectThenUpdate(c: Config, t: TableName, a: Row, b: Row) returns (s: State, steps: seq<Step>, u: State)
    requires c.filter == Everything && c.pageSize == 1 && !c.rowLock
    ensures s == StartState(map[Key(t, 1) := a], t) && Init(s) && Runs(c, s, steps, u)
    ensures u == HeldOne(t, a).(source := map[Key(t, 1) := b],
                                log := [RowsEvent([Change(Key(t, 1), Some(a), Some(b))], 100)])
    ensures Here(u) == Remember(u.streamer.position, u.log[0])
  {
    s := StartState(map[Key(t, 1) := a], t);
    var e := Change(Key(t, 1), Some(a), Some(b));
    steps := HoldPage(c, t, a);
    WriteOne(c, HeldOne(t, a), e);
    steps, u := Then(c, s, steps, HeldOne(t, a), Source(Write([e], 100)));
    OneEntry(u.origin, u.log[0]);
  }

  lemma SelectOne(c: Config, s: State, t: TableName, a: Row)
    requires c.filter == Everything && c.pageSize == 1
    requires s.source == map[Key(t, 1) := a] && s.tables == map[t := Scanning(1, 0)]
    ensures CopyEnabled(c, s, Select(t, s.source, 1))
    ensures CopyApply(c, s, Select(t, s.source, 1)) == s.(tables := map[t := Holding(1, 0, s.source, 1, {})])
  {
    OneRowPage(s.source, t, a);
  }

  lemma OneRowPage(db: Database, t: TableName, a: Row)
    requires db == map[Key(t, 1) := a]
    ensures IsPage(Everything, db, t, 0, 1, db)
  {
    assert db.Keys == {Key(t, 1)};
    assert |db| == |db.Keys|;
  }

  /** The held page is written, and the run goes on to its end. */
  lemma WritePageAndEnd(c: Config, s: State, t: TableName, k: Key, a: Row) returns (steps: seq<Step>, u: State)
    requires k == Key(t, 1) && s.tables == map[t := Holding(1, 0, map[k := a], 1, {})] && k !in s.target
    requires Idle(s) && s.streamer.position == Here(s) && s.cutover == Cutover(false, false, Position(0, 0), 0, false)
    ensures Runs(c, s, steps, u) && Done(u)
    ensures u.source == s.source && u.target == s.target[k := a]
  {
    u, steps := s, [];
    steps, u := Then(c, s, steps, u, Copy(Insert(t, 1)));
    steps, u := Then(c, s, steps, u, Copy(Release(t)));
    steps, u := Then(c, s, steps, u, Copy(Finish(t)));
    var more, v := CutOver(c, u);
    RunsConcat(c, s, steps, u, more, v);
    steps, u := steps + more, v;
  }

  /** A run that has connected and found its one table empty. */
  function EmptyCopied(t: TableName): State {
    StartState(map[], t).(connected := true, tables := map[t := Finished],
                          streamer := Streamer(Position(1, 4), 0, None, true))
  }

  lemma CopyEmpty(c: Config, t: TableName) returns (steps: seq<Step>, u: State)
    ensures Init(StartState(map[], t)) && Runs(c, StartState(map[], t), steps, u) && u == EmptyCopied(t)
    ensures steps == [Ferry(Connect), Copy(ReadMax(t, None))]
  {
    var s := StartState(map[], t);
    var s1 := s.(connected := true, streamer := Streamer(Position(1, 4), 0, None, true));
    steps, u := [Ferry(Connect), Copy(ReadMax(t, None))], EmptyCopied(t);
    assert CopyEnabled(c, s1, ReadMax(t, None)) && CopyApply(c, s1, ReadMax(t, None)) == u;
    assert steps[1..] == [Copy(ReadMax(t, None))] && steps[1..][1..] == [];
    assert Runs(c, s1, steps[1..], u);
  }

  /** The run connects and finds the table empty; then a row is inserted. */
  lemma InsertIntoEmpty(c: Config, t: TableName, row: Row) returns (s: State, steps: seq<Step>, u: State)
    ensures Init(s) && Runs(c, s, steps, u) && Idle(u) && RowCopyComplete(u)
    ensures u.cutover == s.cutover && u.streamer == Streamer(Position(1, 4), 0, None, true)
    ensures u.tables == map[t := Finished]
    ensures u.log == [RowsEvent([Change(Key(t, 1), None, Some(row))], 100)]
    ensures Here(u) == Remember(u.streamer.position, u.log[0])
    ensures u.source == map[Key(t, 1) := row] && u.target == map[]
  {
    s := StartState(map[], t);
    var e := Change(Key(t, 1), None, Some(row));
    steps, u := CopyEmpty(c, t);
    WriteOne(c, u, e);
    steps, u := Then(c, s, steps, u, Source(Write([e], 100)));
    OneEntry(u.origin, u.log[0]);
  }

  /**
   Without row locks a page can be stale when it is written. For any two different rows
   there is a complete run in which the source ends with the one and the target with the other.
   */
  lemma UnlockedCopyLosesUpdate(t: TableName, a: Row, b: Row)
      returns (c: Config, s: State, steps: seq<Step>, u: State)
    requires a != b
    ensures c == Config(Everything, 1, 1, false, true, true)
    ensures Init(s) && Runs(c, s, steps, u) && Done(u)
    ensures var k := Key(t, 1); Lookup(u.source, k) == Some(b) && Lookup(u.target, k) == Some(a)
  {
    var k := Key(t, 1);
    c := Config(Everything, 1, 1, false, true, true);
    s, steps, u := SelectThenUpdate(c, t, a, b);
    var more, v := StreamOne(c, u, Change(k, Some(a), Some(b)));
    RunsConcat(c, s, steps, u, more, v);
    steps, u := steps + more, v;
    more, v := WritePageAndEnd(c, u, t, k, a);
    RunsConcat(c, s, steps, u, more, v);
    steps, u := steps + more, v;
  }

  /**
   If the stop were requested before the stop position is recorded, the streamer could
   leave at once: for any row there is a complete run that loses its insert.
   */
  lemma EarlyStopLosesInsert(t: TableName, a: Row) returns (c: Config, s: State, steps: seq<Step>, u: State)
    ensures c == Config(Everything, 1, 1, true, false, true)
    ensures Init(s) && Runs(c, s, steps, u) && Done(u)
    ensures u.source == map[Key(t, 1) := a] && u.target == map[]
  {
    c := Config(Everything, 1, 1, true, false, true);
    s, steps, u := InsertIntoEmpty(c, t, a);
    steps, u := Then(c, s, steps, u, Ferry(SetReadonly));
    steps, u := Then(c, s, steps, u, Ferry(RequestStop));
    steps, u := Then(c, s, steps, u, Stream(StopStreaming));
    steps, u := Then(c, s, steps, u, Replaying(StopWriting));
  }

  /** A write before the ferry has connected leaves nothing in its log. */
  lemma EarlyWrite(c: Config, s: State, e: Change)
    requires !s.connected && !s.cutover.readonly && s.log == [] && s.origin == Position(1, 4) && !Locked(s, e.key)
    requires e.before == Lookup(s.source, e.key) && Visible(e)
    ensures SourceEnabled(c, s, Write([e], 100))
    ensures var written := Store(s.source, e.key, e.after);
            SourceApply(s, Write([e], 100)) == s.(source := written, base := written, origin := Position(1, 100))
  {
    OneChange(s.source, e);
  }

  /**
   If the largest key were read before the start position is fixed, a row inserted in
   between would be neither copied nor replayed.
   */
  lemma LateConnectLosesInsert(t: TableName, a: Row) returns (c: Config, s: State, steps: seq<Step>, u: State)
    ensures c == Config(Everything, 1, 1, true, true, false)
    ensures Init(s) && Runs(c, s, steps, u) && Done(u)
    ensures u.source == map[Key(t, 1) := a] && u.target == map[]
  {
    c := Config(Everything, 1, 1, true, true, false);
    s := StartState(map[], t);
    u, steps := s, [];
    steps, u := Then(c, s, steps, u, Copy(ReadMax(t, None)));
    EarlyWrite(c, u, Change(Key(t, 1), None, Some(a)));
    steps, u := Then(c, s, steps, u, Source(Write([Change(Key(t, 1), None, Some(a))], 100)));
    steps, u := Then(c, s, steps, u, Ferry(Connect));
    var more, v := CutOver(c, u);
    RunsConcat(c, s, steps, u, more, v);
    steps, u := steps + more, v;
  }

  lemma NothingAboveZero(c: Config, s: State, t: TableName, a: Row)
    requires s.connected && s.source == map[Key(t, 0) := a] && s.tables == map[t := Waiting]
    ensures CopyEnabled(c, s, ReadMax(t, Some(0)))
    ensures CopyApply(c, s, ReadMax(t, Some(0))) == s.(tables := map[t := Scanning(0, 0)])
  {
  }

  /** The program as written leaves a row with key 0 behind. */
  lemma ZeroKeyIsNotCopied(t: TableName, a: Row) returns (c: Config, s: State, steps: seq<Step>, u: State)
    ensures AsWritten(c) && c.filter == Everything
    ensures Init(s) && Runs(c, s, steps, u) && Done(u)
    ensures u.source == map[Key(t, 0) := a] && u.target == map[]
  {
    c := Config(Everything, 1, 1, true, true, true);
    s := StartState(map[Key(t, 0) := a], t);
    u, steps := s, [];
    steps, u := Then(c, s, steps, u, Ferry(Connect));
    NothingAboveZero(c, u, t, a);
    steps, u := Then(c, s, steps, u, Copy(ReadMax(t, Some(0))));
    steps, u := Then(c, s, steps, u, Copy(Finish(t)));
    var more, v := CutOver(c, u);
    RunsConcat(c, s, steps, u, more, v);
    steps, u := steps + more, v;
  }

  /** A row of another shard, whose unsigned number reads as `value` when taken as signed. */
  function ForeignRow(index: nat, value: Int64): Row
    requires value < 0
  {
    seq(index, _ => Null) + [Number(value + TWO_64)]
  }

  lemma ForeignRowIsTaken(f: Filter, t: TableName, k: Key)
    requires f.Shard? && f.value < 0 && t in f.columns && k.table == t && Admits(f.columns[t], f.value + TWO_64)
    ensures var row := ForeignRow(f.columns[t].index, f.value);
            && Typed(f, k, row) && !Selects(f, k, row)
            && Judge(f, {t}, Change(k, None, Some(row))) == Replayed
  {
    assert ToInt64(f.value + TWO_64) == f.value;
  }

  /** Every row in the log fits the type of its sharding column. */
  ghost predicate LogTyped(f: Filter, log: seq<Entry>) {
    forall i :: 0 <= i < |log| ==>
      forall j :: 0 <= j < |EntryChanges(log[i])| ==> TypedChange(f, EntryChanges(log[i])[j])
  }

  /**
   The program as written, given a negative sharding value and a sharding column that admits
   the unsigned number which reads as that value when taken as signed, replays an insert
   into the shard of that number.
   */
  lemma NegativeShardTakesForeignRow(f: Filter, t: TableName)
      returns (c: Config, s: State, steps: seq<Step>, u: State)
    requires f.Shard? && f.value < 0 && t in f.columns && Admits(f.columns[t], f.value + TWO_64)
    ensures AsWritten(c) && c.filter == f
    ensures Init(s) && Runs(c, s, steps, u) && Done(u) && LogTyped(f, u.log)
    ensures Wanted(c, u) == map[] && Key(t, 1) in u.target
  {
    var row := ForeignRow(f.columns[t].index, f.value);
    c := Config(f, 1, 1, true, true, true);
    ForeignRowIsTaken(f, t, Key(t, 1));
    s, steps, u := InsertIntoEmpty(c, t, row);
    assert u.tables.Keys == {t} && LogTyped(f, u.log);
    var more, v := StreamOne(c, u, Change(Key(t, 1), None, Some(row)));
    RunsConcat(c, s, steps, u, more, v);
    steps, u := steps + more, v;
    assert Key(t, 1) in u.target;
    more, v := CutOver(c, u);
    RunsConcat(c, s, steps, u, more, v);
    steps, u := steps + more, v;
  }

  /** A completed run has brought every row with a positive key to the target as it should be. */
  ghost predicate Converged(c: Config, u: State) {
    forall k: Key :: k.pk >= 1 ==> Lookup(u.target, k) == Lookup(Wanted(c, u), k)
  }

  /** A completed run of the program as written, on a source that keeps to its column types. */
  ghost predicate Completes(c: Config, s: State, steps: seq<Step>, u: State) {
    AsWritten(c) && Init(s) && Runs(c, s, steps, u) && Done(u) && LogTyped(c.filter, u.log)
  }

  ghost predicate AlwaysConverges(f: Filter) {
    forall c: Config, s, steps, u :: Completes(c, s, steps, u) && c.filter == f ==> Converged(c, u)
  }

  lemma TwinFreeLog(f: Filter, tables: set<TableName>, log: seq<Entry>)
    requires TwinFree(f) && LogTyped(f, log)
    ensures LogUntwinned(f, tables, log)
  {
    forall i, j | 0 <= i < |log| && 0 <= j < |EntryChanges(log[i])|
      ensures Untwinned(f, tables, EntryChanges(log[i])[j])
    {
      TwinFreeMeansUntwinned(f, tables, EntryChanges(log[i])[j]);
    }
  }

  /**
   All completed runs of a sharded ferry converge exactly if the sharding value is not
   negative or no sharding column admits the unsigned number that reads as it. So they do
   with signed columns, and with unsigned ones too narrow for that number.
   */
  lemma ShardConvergesIff(f: Filter)
    ensures AlwaysConverges(f) <==> TwinFree(f)
  {
    if TwinFree(f) {
      forall c: Config, s, steps, u | Completes(c, s, steps, u) && c.filter == f ensures Converged(c, u) {
        TwinFreeLog(f, s.tables.Keys, u.log);
        Converges(c, s, steps, u);
      }
    } else {
      var t :| t in f.columns && Admits(f.columns[t], f.value + TWO_64);
      var c, s, steps, u := NegativeShardTakesForeignRow(f, t);
      assert Completes(c, s, steps, u);
      assert Lookup(u.target, Key(t, 1)) != Lookup(Wanted(c, u), Key(t, 1));
    }
  }

  function BigIntUnsigned(index: nat): ShardingColumn {
    ShardingColumn(index, 0, TWO_64 - 1)
  }

  /** With signed or narrow columns every sharding value will do, with a BIGINT UNSIGNED one those from 0 on. */
  lemma ConvergesByType(f: Filter, t: TableName)
    requires f.Shard? && t in f.columns
    ensures (forall u :: u in f.columns ==> f.columns[u].most < TWO_63) ==> AlwaysConverges(f)
    ensures f.columns[t] == BigIntUnsigned(f.columns[t].index) ==> (AlwaysConverges(f) <==> f.value >= 0)
  {
    ShardConvergesIff(f);
    if f.value < 0 {
      assert f.value + TWO_64 >= TWO_63;
    }
  }
}

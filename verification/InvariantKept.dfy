/**
 Every step keeps the invariant, and so does every run.
 */
module InvariantKept {
  import opened Rows
  import opened Binlog
  import opened CopyFilter
  import opened Protocol
  import opened History
  import opened Invariant

  // ---- the source ----------------------------------------------------------

  lemma SourceKeepsLog(c: Config, s: State, step: SourceStep)
    requires LogOk(s) && SourceEnabled(c, s, step)
    requires step.Write? ==> Known(s.tables.Keys, step.changes)
    ensures LogOk(SourceApply(s, step))
    ensures Events(SourceApply(s, step))
         == Events(s) + (if step.Write? && s.connected then step.changes else [])
  {
    var s' := SourceApply(s, step);
    if s.connected {
      var e := if step.Write? then RowsEvent(step.changes, step.logPos) else step.entry;
      AdvancesAppend(s.origin, s.log, e);
      ChangesAppend(s.log, e);
      ReplayConcat(s.base, Events(s), EntryChanges(e));
      ConsistentConcat(s.base, Events(s), EntryChanges(e));
    }
  }

  /** With whole tables, there is nothing left that the application could still write to. */
  lemma QuietIsEmpty(tables: set<TableName>, es: seq<Change>)
    requires Quiet(Everything, tables, es) && Known(tables, es)
    requires forall i :: 0 <= i < |es| ==> es[i].before.Some? || es[i].after.Some?
    ensures es == []
  {
    if es != [] {
      EverythingConcerns(tables, es[0]);
    }
  }

  lemma EverythingConcerns(tables: set<TableName>, e: Change)
    requires e.key.table in tables && (e.before.Some? || e.after.Some?)
    ensures Concerns(Everything, tables, e)
  {
  }

  lemma SourceKeepsStream(c: Config, s: State, step: SourceStep)
    requires StreamOk(s) && PositionOk(s) && SourceEnabled(c, s, step)
    ensures var s' := SourceApply(s, step); StreamOk(s') && PositionOk(s')
  {
    var s' := SourceApply(s, step);
    assert s'.log[..Taken(s)] == s.log[..Taken(s)];
    assert s'.log[..s.streamer.index] == s.log[..s.streamer.index];
  }

  lemma SourceKeepsCutover(c: Config, s: State, step: SourceStep)
    requires CutoverOk(s) && SourceEnabled(c, s, step)
    requires c.filter == Everything && (step.Write? ==> Known(s.tables.Keys, step.changes))
    ensures CutoverOk(SourceApply(s, step))
  {
    var s' := SourceApply(s, step);
    if s.cutover.recorded {
      assert s'.log[..s.cutover.stopIndex] == s.log[..s.cutover.stopIndex];
      if step.Write? {
        QuietIsEmpty(s.tables.Keys, step.changes);
      }
      ChangesAppend(s.log, if step.Write? then RowsEvent(step.changes, step.logPos) else step.entry);
    }
  }

  /** The row locks at work: no write reaches a row of a held page. */
  lemma SourceKeepsPages(c: Config, s: State, step: SourceStep)
    requires PagesOk(s) && SourceEnabled(c, s, step) && c.rowLock
    ensures PagesOk(SourceApply(s, step))
  {
    var s' := SourceApply(s, step);
    forall t ensures PageOk(s', t) {
      assert PageOk(s, t);
      if step.Write? && t in s.tables && s.tables[t].Holding? {
        forall k | k in s.tables[t].page
          ensures Lookup(s'.source, k) == Lookup(s.source, k)
        {
          assert Locked(s, k);
          ReplayUntouched(s.source, step.changes, k);
        }
      }
    }
  }

  lemma SourceKeepsRows(c: Config, s: State, step: SourceStep)
    requires LogOk(s) && StreamOk(s) && PagesOk(s) && RowsOk(s) && ZeroOk(s) && SourceEnabled(c, s, step)
    requires step.Write? ==> Known(s.tables.Keys, step.changes)
    ensures var s' := SourceApply(s, step); StreamOk(s') ==> RowsOk(s') && ZeroOk(s')
  {
    var s' := SourceApply(s, step);
    var more := if step.Write? && s.connected then step.changes else [];
    SourceKeepsLog(c, s, step);
    if StreamOk(s') {
      forall k ensures RowOk(s', k) {
        assert RowOk(s, k) && PageOk(s, k.table);
        if s.connected {
          GrownRowOk(s, s', more, k);
        } else {
          UnconnectedRowOk(s', k);
        }
      }
      forall k: Key | k.pk == 0 && k in s'.target ensures EverAbsent(s'.base, Events(s'), k) {
        HistoryGrows(s.base, Events(s), more, 0, k, None);
      }
    }
  }

  /** A longer log keeps what a row is. */
  lemma GrownRowOk(s: State, s': State, more: seq<Change>, k: Key)
    requires s.writer.next <= |s.writer.batch| && RowOk(s, k)
    requires s'.writer == s.writer && s'.base == s.base && s'.target == s.target && s'.tables == s.tables
    requires Events(s') == Events(s) + more
    ensures RowOk(s', k)
  {
    HistoryGrows(s.base, Events(s), more, |Executed(s)|, k, Lookup(s.target, k));
  }

  lemma UnconnectedRowOk(s: State, k: Key)
    requires LogOk(s) && StreamOk(s) && !s.connected
    requires k.table in s.tables ==> s.tables[k.table].Waiting?
    ensures RowOk(s, k)
  {
    assert Events(s) == [] && Executed(s) == [];
    assert Moment(s.base, [], 0, k) == Lookup(s.base, k);
    if k !in s.base {
      assert Fresh(s.base, Events(s), 0, k, None);
    }
  }

  // ---- the coordinator -----------------------------------------------------

  /** Steps that leave the tables, the target and the replay position alone keep the rows. */
  lemma RowsFrame(s: State, s': State)
    requires StreamOk(s) && RowsOk(s) && ZeroOk(s) && StreamOk(s')
    requires s'.base == s.base && Events(s') == Events(s) && |Executed(s')| == |Executed(s)|
    requires s'.target == s.target && s'.tables == s.tables
    ensures RowsOk(s') && ZeroOk(s')
  {
    forall k ensures RowOk(s', k) { assert RowOk(s, k); }
  }

  lemma PagesFrame(s: State, s': State)
    requires PagesOk(s) && s'.source == s.source && s'.tables == s.tables && (s.connected ==> s'.connected)
    ensures PagesOk(s')
  {
    forall t ensures PageOk(s', t) { assert PageOk(s, t); }
  }

  lemma FerryKeepsLog(c: Config, s: State, step: FerryStep)
    requires LogOk(s) && FerryEnabled(c, s, step)
    ensures LogOk(FerryApply(s, step))
  {
  }

  lemma FerryKeepsStream(c: Config, s: State, step: FerryStep)
    requires StreamOk(s) && PositionOk(s) && FerryEnabled(c, s, step) && (!s.connected ==> s.log == [])
    ensures var s' := FerryApply(s, step); StreamOk(s') && PositionOk(s')
  {
    if step.Connect? {
      assert s.log[..s.streamer.index] == [];
    }
  }

  lemma FerryKeepsCutover(c: Config, s: State, step: FerryStep)
    requires StreamOk(s) && CutoverOk(s) && FerryEnabled(c, s, step) && c.recordFirst
    ensures CutoverOk(FerryApply(s, step))
  {
    assert s.log[..|s.log|] == s.log;
  }

  lemma FerryKeeps(c: Config, s: State, step: FerryStep)
    requires Inv(s) && FerryEnabled(c, s, step) && c.recordFirst
    ensures Inv(FerryApply(s, step))
  {
    var s' := FerryApply(s, step);
    FerryKeepsLog(c, s, step);
    FerryKeepsStream(c, s, step);
    FerryKeepsCutover(c, s, step);
    PagesFrame(s, s');
    RowsFrame(s, s');
  }

  /** What the iterators and the streamer can change. */
  lemma CopyTouches(c: Config, s: State, step: CopyStep)
    requires CopyEnabled(c, s, step)
    ensures var s' := CopyApply(c, s, step);
            s' == s.(tables := s'.tables, target := s'.target) && s'.tables.Keys == s.tables.Keys
  {
  }

  lemma StreamTouches(c: Config, s: State, step: StreamStep)
    requires StreamEnabled(c, s, step)
    ensures var s' := StreamApply(c, s, step);
            s' == s.(streamer := s'.streamer,
                     writer := s.writer.(channel := s'.writer.channel, closed := s'.writer.closed))
  {
  }

  lemma WriteTouches(c: Config, s: State, step: WriteStep)
    requires WriteEnabled(c, s.writer, step)
    ensures var s' := WriteApply(c, s, step); s' == s.(writer := s'.writer, target := s'.target)
  {
  }

  // ---- the table iterators -------------------------------------------------

  /** A key the source does not hold at the moment is fresh on the target. */
  lemma AbsentIsFresh(s: State, k: Key)
    requires LogOk(s) && StreamOk(s) && RowsOk(s) && k !in s.source
    ensures Fresh(s.base, Events(s), |Executed(s)|, k, Lookup(s.target, k))
  {
    assert RowOk(s, k);
    FreshNow(s.base, Events(s), |Executed(s)|, k);
  }

  lemma CopyKeepsPages(c: Config, s: State, step: CopyStep)
    requires PagesOk(s) && CopyEnabled(c, s, step) && c.connectFirst
    ensures PagesOk(CopyApply(c, s, step))
  {
    var s' := CopyApply(c, s, step);
    assert PageOk(s, step.table);
    forall t ensures PageOk(s', t) {
      assert PageOk(s, t);
    }
  }

  /** Whoever a step newly settles was absent from the source at that step, or has just been copied. */
  lemma NewlySettled(c: Config, s: State, step: CopyStep, k: Key)
    requires PagesOk(s) && CopyEnabled(c, s, step) && c.filter == Everything && c.pageSize >= 1
    requires !Settled(s, k) && Settled(CopyApply(c, s, step), k)
    ensures (step.Insert? && k == Key(step.table, step.pk)) || k !in s.source
  {
    assert k.table == step.table;
    assert PageOk(s, step.table);
    if k in s.source && (step.Select? || step.SelectNothing?) {
      assert Matching(c.filter, s.source, k.table, s.tables[k.table].last, k);
    }
  }

  lemma CopyKeepsRow(c: Config, s: State, step: CopyStep, k: Key)
    requires LogOk(s) && StreamOk(s) && PagesOk(s) && RowsOk(s) && CopyEnabled(c, s, step)
    requires c.filter == Everything && c.connectFirst && c.pageSize >= 1
    ensures RowOk(CopyApply(c, s, step), k)
  {
    var s' := CopyApply(c, s, step);
    assert RowOk(s, k);
    if step.Insert? && k == Key(step.table, step.pk) {
      assert PageOk(s, step.table);
      FreshNow(s.base, Events(s), |Executed(s)|, k);
    } else if !Settled(s, k) && Settled(s', k) {
      NewlySettled(c, s, step, k);
      AbsentIsFresh(s, k);
    }
  }

  lemma CopyKeepsRows(c: Config, s: State, step: CopyStep)
    requires LogOk(s) && StreamOk(s) && PagesOk(s) && RowsOk(s) && ZeroOk(s) && CopyEnabled(c, s, step)
    requires c.filter == Everything && c.connectFirst && c.pageSize >= 1
    ensures var s' := CopyApply(c, s, step); RowsOk(s') && ZeroOk(s')
  {
    forall k ensures RowOk(CopyApply(c, s, step), k) { CopyKeepsRow(c, s, step, k); }
    assert PageOk(s, step.table);
  }

  lemma CopyKeepsLog(c: Config, s: State, step: CopyStep)
    requires LogOk(s) && PagesOk(s) && CopyEnabled(c, s, step)
    ensures LogOk(CopyApply(c, s, step))
  {
    CopyTouches(c, s, step);
    assert PageOk(s, step.table);
    assert !s.connected ==> CopyApply(c, s, step).target == s.target;
  }

  lemma CopyKeepsStream(c: Config, s: State, step: CopyStep)
    requires StreamOk(s) && PositionOk(s) && CutoverOk(s) && CopyEnabled(c, s, step)
    ensures var s' := CopyApply(c, s, step); StreamOk(s') && PositionOk(s') && CutoverOk(s')
  {
  }

  lemma CopyKeeps(c: Config, s: State, step: CopyStep)
    requires Inv(s) && CopyEnabled(c, s, step)
    requires c.filter == Everything && c.connectFirst && c.pageSize >= 1
    ensures Inv(CopyApply(c, s, step))
  {
    CopyKeepsLog(c, s, step);
    CopyKeepsStream(c, s, step);
    CopyKeepsPages(c, s, step);
    CopyKeepsRows(c, s, step);
  }

  // ---- the streamer --------------------------------------------------------

  lemma ReadKeepsStream(c: Config, s: State)
    requires c.filter == Everything && StreamOk(s) && StreamEnabled(c, s, Read)
    requires Known(s.tables.Keys, EntryChanges(s.log[s.streamer.index]))
    ensures StreamOk(StreamApply(c, s, Read))
  {
    var s' := StreamApply(c, s, Read);
    var i := s.streamer.index;
    var e := s.log[i];
    ChangesNext(s.log, i);
    if e.RowsEvent? {
      ApplicableWhole(s.tables.Keys, e.changes);
      Associative(s.writer.applied, s.writer.batch, s.writer.channel, e.changes);
    }
  }

  lemma Associative(a: seq<Change>, b: seq<Change>, c: seq<Change>, d: seq<Change>)
    ensures a + (b + c + []) + d == a + (b + c + d)
  {
  }

  lemma PushKeepsStream(c: Config, s: State)
    requires StreamOk(s) && StreamEnabled(c, s, Push)
    ensures StreamOk(StreamApply(c, s, Push))
  {
    MoveFirst(s.writer.batch, s.writer.channel, s.streamer.pending.value);
    assert InFlight(StreamApply(c, s, Push)) == InFlight(s);
  }

  lemma StreamKeepsStream(c: Config, s: State, step: StreamStep)
    requires c.filter == Everything && LogOk(s) && StreamOk(s) && StreamEnabled(c, s, step)
    ensures StreamOk(StreamApply(c, s, step))
  {
    match step
    case ReadStart => StartKeepsStream(c, s);
    case Read => ReadKeepsStream(c, s);
    case Push => PushKeepsStream(c, s);
    case Acknowledge => AcknowledgeKeepsStream(c, s);
    case StopStreaming => StopKeepsStream(c, s);
  }

  lemma StartKeepsStream(c: Config, s: State)
    requires StreamOk(s) && StreamEnabled(c, s, ReadStart)
    ensures StreamOk(StreamApply(c, s, ReadStart))
  {
    assert InFlight(StreamApply(c, s, ReadStart)) == InFlight(s);
  }

  lemma AcknowledgeKeepsStream(c: Config, s: State)
    requires StreamOk(s) && StreamEnabled(c, s, Acknowledge)
    ensures StreamOk(StreamApply(c, s, Acknowledge))
  {
    assert InFlight(StreamApply(c, s, Acknowledge)) == InFlight(s);
  }

  lemma StopKeepsStream(c: Config, s: State)
    requires StreamOk(s) && StreamEnabled(c, s, StopStreaming)
    ensures StreamOk(StreamApply(c, s, StopStreaming))
  {
    assert InFlight(StreamApply(c, s, StopStreaming)) == InFlight(s);
  }

  lemma StreamKeepsPosition(c: Config, s: State, step: StreamStep)
    requires PositionOk(s) && StreamEnabled(c, s, step)
    ensures PositionOk(StreamApply(c, s, step))
  {
    var i := s.streamer.index;
    if i < |s.log| {
      assert s.log[..i + 1][..i] == s.log[..i];
    }
  }

  /** Leaving the streaming loop means having handled everything up to the stop position. */
  lemma LeavingIsLate(s: State)
    requires LogOk(s) && PositionOk(s) && CutoverOk(s) && s.connected && !KeepsStreaming(s)
    ensures s.cutover.stopIndex <= s.streamer.index
  {
    RememberedBehind(s.origin, s.log, s.streamer.index);
    if s.streamer.index < s.cutover.stopIndex {
      PositionsIncrease(s.origin, s.log, s.streamer.index, s.cutover.stopIndex);
    }
  }

  lemma StreamKeepsCutover(c: Config, s: State, step: StreamStep)
    requires LogOk(s) && PositionOk(s) && CutoverOk(s) && StreamEnabled(c, s, step)
    ensures CutoverOk(StreamApply(c, s, step))
  {
    if step.StopStreaming? {
      LeavingIsLate(s);
    }
  }

  lemma StreamKeeps(c: Config, s: State, step: StreamStep)
    requires Inv(s) && StreamEnabled(c, s, step) && c.filter == Everything
    ensures Inv(StreamApply(c, s, step))
  {
    var s' := StreamApply(c, s, step);
    StreamKeepsStream(c, s, step);
    StreamKeepsPosition(c, s, step);
    StreamKeepsCutover(c, s, step);
    StreamTouches(c, s, step);
    PagesFrame(s, s');
    RowsFrame(s, s');
  }

  // ---- the writer ----------------------------------------------------------

  lemma TakeFirst(a: seq<Change>, b: seq<Change>, c: seq<Change>)
    requires b != []
    ensures (a + [b[0]]) + b[1..] + c == a + b + c
  {
  }

  lemma ReceiveKeepsStream(c: Config, s: State)
    requires StreamOk(s) && WriteEnabled(c, s.writer, Receive)
    ensures StreamOk(WriteApply(c, s, Receive))
  {
    TakeFirst(s.writer.batch, s.writer.channel, if s.streamer.pending.Some? then s.streamer.pending.value else []);
    assert InFlight(WriteApply(c, s, Receive)) == InFlight(s);
  }

  lemma Shift(a: seq<Change>, b: seq<Change>, c: seq<Change>, d: seq<Change>)
    ensures (a + b) + ([] + c + d) == a + (b + c + d)
  {
  }

  lemma CommitKeepsStream(c: Config, s: State)
    requires StreamOk(s) && WriteEnabled(c, s.writer, Commit)
    ensures StreamOk(WriteApply(c, s, Commit))
  {
    Shift(s.writer.applied, s.writer.batch, s.writer.channel,
          if s.streamer.pending.Some? then s.streamer.pending.value else []);
  }

  lemma WriteKeepsStream(c: Config, s: State, step: WriteStep)
    requires StreamOk(s) && WriteEnabled(c, s.writer, step)
    ensures StreamOk(WriteApply(c, s, step))
  {
    match step
    case Receive => ReceiveKeepsStream(c, s);
    case Commit => CommitKeepsStream(c, s);
    case _ => assert InFlight(WriteApply(c, s, step)) == InFlight(s);
  }

  lemma StatementKeepsRow(c: Config, s: State, k: Key)
    requires LogOk(s) && StreamOk(s) && RowsOk(s) && WriteEnabled(c, s.writer, Statement)
    ensures RowOk(WriteApply(c, s, Statement), k)
  {
    var s' := WriteApply(c, s, Statement);
    var a := |Executed(s)|;
    assert RowOk(s, k);
    ExecutedIsPrefix(s);
    assert |Executed(s')| == a + 1;
    if Fresh(s.base, Events(s), a, k, Lookup(s.target, k)) {
      FreshCas(s.base, Events(s), a, s.target, k);
    } else {
      OverdueCas(s.base, Events(s), a, s.target, k);
    }
  }

  /**
   Replay tolerance: a retry rewinds the replay position to the start of the batch,
   whatever part of the batch had reached the target.
   */
  lemma RetryKeepsRow(c: Config, s: State, k: Key)
    requires StreamOk(s) && RowsOk(s) && WriteEnabled(c, s.writer, Retry)
    ensures RowOk(WriteApply(c, s, Retry), k)
  {
    assert RowOk(s, k);
    ExecutedIsPrefix(s);
    HistoryRewinds(s.base, Events(s), |Executed(s)|, |s.writer.applied|, k, Lookup(s.target, k));
  }

  lemma WriteKeepsRows(c: Config, s: State, step: WriteStep)
    requires LogOk(s) && StreamOk(s) && RowsOk(s) && ZeroOk(s) && WriteEnabled(c, s.writer, step)
    ensures StreamOk(WriteApply(c, s, step)) && RowsOk(WriteApply(c, s, step))
  {
    var s' := WriteApply(c, s, step);
    WriteKeepsStream(c, s, step);
    if step.Statement? {
      forall k ensures RowOk(s', k) { StatementKeepsRow(c, s, k); }
    } else if step.Retry? {
      forall k ensures RowOk(s', k) { RetryKeepsRow(c, s, k); }
    } else {
      RowsFrame(s, s');
    }
  }

  lemma WriteKeepsZero(c: Config, s: State, step: WriteStep)
    requires LogOk(s) && StreamOk(s) && ZeroOk(s) && WriteEnabled(c, s.writer, step)
    ensures ZeroOk(WriteApply(c, s, step))
  {
    var s' := WriteApply(c, s, step);
    ExecutedIsPrefix(s);
    forall k: Key | k.pk == 0 && k in s'.target ensures EverAbsent(s'.base, Events(s'), k) {
      if k !in s.target {
        CasCreates(s.base, Events(s), |Executed(s)|, s.target, k);
      }
    }
  }

  lemma WriteKeepsLog(c: Config, s: State, step: WriteStep)
    requires LogOk(s) && StreamOk(s) && WriteEnabled(c, s.writer, step)
    ensures LogOk(WriteApply(c, s, step))
  {
    if !s.connected {
      assert Changes(s.log[..Taken(s)]) == [];
    }
  }

  lemma WriteKeepsCutover(c: Config, s: State, step: WriteStep)
    requires PositionOk(s) && CutoverOk(s) && WriteEnabled(c, s.writer, step)
    ensures var s' := WriteApply(c, s, step); PositionOk(s') && CutoverOk(s')
  {
  }

  lemma WriteKeeps(c: Config, s: State, step: WriteStep)
    requires Inv(s) && WriteEnabled(c, s.writer, step)
    ensures Inv(WriteApply(c, s, step))
  {
    var s' := WriteApply(c, s, step);
    WriteKeepsLog(c, s, step);
    WriteKeepsCutover(c, s, step);
    WriteKeepsZero(c, s, step);
    WriteKeepsRows(c, s, step);
    PagesFrame(s, s');
  }

  // ---- steps and runs ------------------------------------------------------

  lemma SourceKeeps(c: Config, s: State, step: SourceStep)
    requires Inv(s) && SourceEnabled(c, s, step) && c.rowLock && c.filter == Everything
    requires step.Write? ==> Known(s.tables.Keys, step.changes)
    ensures Inv(SourceApply(s, step))
  {
    SourceKeepsLog(c, s, step);
    SourceKeepsStream(c, s, step);
    SourceKeepsCutover(c, s, step);
    SourceKeepsPages(c, s, step);
    SourceKeepsRows(c, s, step);
  }

  /** The invariant is inductive. */
  lemma StepKeeps(c: Config, s: State, step: Step)
    requires Whole(c, s, step) && Inv(s) && Enabled(c, s, step)
    ensures Inv(Apply(c, s, step))
  {
    match step
    case Source(a) => SourceKeeps(c, s, a);
    case Ferry(a) => FerryKeeps(c, s, a);
    case Copy(a) => CopyKeeps(c, s, a);
    case Stream(a) => StreamKeeps(c, s, a);
    case Replaying(a) => WriteKeeps(c, s, a);
  }

  /** All steps of a run are of the kind the invariant is for. */
  ghost predicate WholeRun(c: Config, s: State, steps: seq<Step>) {
    forall i :: 0 <= i < |steps| ==> Whole(c, s, steps[i])
  }

  lemma TablesStay(c: Config, s: State, step: Step)
    requires Enabled(c, s, step)
    ensures Apply(c, s, step).tables.Keys == s.tables.Keys
  {
    match step
    case Source(a) =>
    case Ferry(a) =>
    case Copy(a) => CopyTouches(c, s, a);
    case Stream(a) => StreamTouches(c, s, a);
    case Replaying(a) =>
  }

  /** Every run from a good state ends in a good state. */
  lemma {:induction false} RunKeeps(c: Config, s: State, steps: seq<Step>, t: State)
    requires Inv(s) && WholeRun(c, s, steps) && Runs(c, s, steps, t)
    ensures Inv(t)
    decreases |steps|
  {
    if steps != [] {
      var s' := Apply(c, s, steps[0]);
      StepKeeps(c, s, steps[0]);
      TablesStay(c, s, steps[0]);
      RunKeeps(c, s', steps[1..], t);
    }
  }
}

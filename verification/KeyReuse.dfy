/**
 A primary key that is used by one shard and then by another.
 */
module KeyReuse {
  import opened Rows
  import opened Binlog
  import opened CopyFilter
  import opened Protocol
  import opened Sharding
  import opened Convergence
  import opened Races

  /** The application can change any row that is not locked, and after the lock any that is not moved. */
  lemma WriteAt(c: Config, s: State, e: Change, logPos: nat)
    requires s.connected && (s.cutover.readonly ==> !Concerns(c.filter, s.tables.Keys, e)) && !Locked(s, e.key)
    requires e.before == Lookup(s.source, e.key) && Visible(e) && Here(s).offset < logPos
    ensures SourceEnabled(c, s, Write([e], logPos))
    ensures var t := SourceApply(s, Write([e], logPos));
            && t == s.(source := Store(s.source, e.key, e.after), log := s.log + [RowsEvent([e], logPos)])
            && Here(t) == Here(s).(offset := logPos)
  {
    OneChange(s.source, e);
    assert (s.log + [RowsEvent([e], logPos)])[..|s.log|] == s.log;
  }

  /** The next log entry holds one change, which the streamer skips. */
  lemma SkipOne(c: Config, s: State, e: Change) returns (steps: seq<Step>, t: State)
    requires Idle(s) && !s.cutover.requested
    requires s.streamer.index < |s.log| && s.log[s.streamer.index].RowsEvent?
    requires s.log[s.streamer.index].changes == [e] && Judge(c.filter, s.tables.Keys, e) == Skipped
    ensures Runs(c, s, steps, t) && Idle(t)
    ensures t == s.(streamer := s.streamer.(index := s.streamer.index + 1,
                                            position := Remember(s.streamer.position, s.log[s.streamer.index])))
  {
    var es := [e];
    assert es[..0] == [] && Applicable(c.filter, s.tables.Keys, es) == [];
    t, steps := s, [];
    steps, t := Then(c, s, steps, t, Stream(Read));
    steps, t := Then(c, s, steps, t, Stream(Acknowledge));
  }

  /** Nothing is on its way, the streamer is at the end of the log, and the one table is copied. */
  predicate Resting(s: State, t: TableName) {
    && Idle(s) && s.tables == map[t := Finished] && s.cutover == Cutover(false, false, Position(0, 0), 0, false)
    && s.streamer.index == |s.log| && s.streamer.position == Here(s)
  }

  /** One change is made, streamed and, unless it is skipped, replayed. */
  lemma ChangeAndStream(c: Config, s: State, t: TableName, e: Change) returns (steps: seq<Step>, u: State)
    requires Resting(s, t) && c.batchSize >= 1 && e.before == Lookup(s.source, e.key) && Visible(e)
    requires Judge(c.filter, {t}, e) != Aborted
    ensures Runs(c, s, steps, u) && Resting(u, t)
    ensures u.source == Store(s.source, e.key, e.after)
    ensures u.target == if Judge(c.filter, {t}, e) == Replayed then Cas(s.target, e) else s.target
    ensures exists pos :: u.log == s.log + [RowsEvent([e], pos)]
  {
    var pos := Here(s).offset + 1;
    WriteAt(c, s, e, pos);
    steps, u := Then(c, s, [], s, Source(Write([e], pos)));
    var m := u;
    assert m.tables.Keys == {t} && m.log[m.streamer.index] == RowsEvent([e], pos);
    var more: seq<Step>;
    if Judge(c.filter, {t}, e) == Replayed {
      more, u := StreamOne(c, m, e);
    } else {
      more, u := SkipOne(c, m, e);
    }
    RunsConcat(c, s, steps, m, more, u);
    steps := steps + more;
  }

  /** An insert into the shard, a delete of the same row, and an insert of another shard under its key. */
  function HandedOver(k: Key, own: Row, other: Row): seq<Change> {
    [Change(k, None, Some(own)), Change(k, Some(own), None), Change(k, None, Some(other))]
  }

  lemma HandOverJudged(f: Filter, k: Key, own: Row, other: Row)
    requires f.Shard? && k.table in f.columns && Selects(f, k, own)
    requires var i := f.columns[k.table].index; i < |other| && other[i].Number? && ToInt64(other[i].n) != f.value
    ensures var es := HandedOver(k, own, other);
            && Judge(f, {k.table}, es[0]) == Judge(f, {k.table}, es[1]) == Replayed
            && Judge(f, {k.table}, es[2]) == Skipped
            && (forall i :: 0 <= i < 3 ==> Untwinned(f, {k.table}, es[i]))
            && !Selects(f, k, other)
  {
  }

  lemma ThenChange(c: Config, s: State, before: seq<Step>, m: State, t: TableName, e: Change)
      returns (steps: seq<Step>, u: State)
    requires Runs(c, s, before, m) && Resting(m, t) && c.batchSize >= 1
    requires e.before == Lookup(m.source, e.key) && Visible(e) && Judge(c.filter, {t}, e) != Aborted
    ensures Runs(c, s, steps, u) && Resting(u, t)
    ensures u.source == Store(m.source, e.key, e.after)
    ensures u.target == if Judge(c.filter, {t}, e) == Replayed then Cas(m.target, e) else m.target
    ensures |u.log| == |m.log| + 1 && u.log[..|m.log|] == m.log && u.log[|m.log|].RowsEvent?
    ensures u.log[|m.log|].changes == [e]
  {
    steps, u := ChangeAndStream(c, m, t, e);
    RunsConcat(c, s, before, m, steps, u);
    steps := before + steps;
  }

  /** The three changes, each of them streamed before the next is made. */
  lemma HandOver(c: Config, t: TableName, own: Row, other: Row) returns (steps: seq<Step>, u: State)
    requires c.batchSize >= 1
    requires var f, es := c.filter, HandedOver(Key(t, 1), own, other);
             && Judge(f, {t}, es[0]) == Judge(f, {t}, es[1]) == Replayed && Judge(f, {t}, es[2]) == Skipped
    ensures Init(StartState(map[], t)) && Runs(c, StartState(map[], t), steps, u) && Resting(u, t)
    ensures u.source == map[Key(t, 1) := other] && u.target == map[]
    ensures |u.log| == 3
    ensures forall i :: 0 <= i < 3 ==> EntryChanges(u.log[i]) == [HandedOver(Key(t, 1), own, other)[i]]
  {
    var s, es := StartState(map[], t), HandedOver(Key(t, 1), own, other);
    var u0, u1, u2: State;
    steps, u0 := CopyEmpty(c, t);
    assert Resting(u0, t);
    steps, u1 := ThenChange(c, s, steps, u0, t, es[0]);
    assert u1.source == u1.target == map[Key(t, 1) := own];
    steps, u2 := ThenChange(c, s, steps, u1, t, es[1]);
    assert u2.source == u2.target == map[];
    steps, u := ThenChange(c, s, steps, u2, t, es[2]);
    assert u.log[0] == u2.log[0] == u1.log[0] && u.log[1] == u2.log[1];
  }

  /**
   A key may pass from one shard to another. The run converges, with the listeners told of the
   key, which the source now has and the target rightly has not.
   */
  lemma KeyChangesHands(f: Filter, t: TableName, own: Row, other: Row)
      returns (c: Config, s: State, steps: seq<Step>, u: State)
    requires f.Shard? && t in f.columns && Selects(f, Key(t, 1), own)
    requires var i := f.columns[t].index; i < |other| && other[i].Number? && ToInt64(other[i].n) != f.value
    ensures AsWritten(c) && c.filter == f && Init(s) && Runs(c, s, steps, u) && Done(u)
    ensures s.tables.Keys == {t} && LogUntwinned(f, {t}, u.log)
    ensures u.source == map[Key(t, 1) := other] && u.target == map[] == Wanted(c, u)
    ensures |u.log| == 3 && EntryChanges(u.log[0]) == [Change(Key(t, 1), None, Some(own))]
    ensures Judge(f, {t}, Change(Key(t, 1), None, Some(own))) == Replayed
  {
    c := Config(f, 1, 1, true, true, true);
    s := StartState(map[], t);
    HandOverJudged(f, Key(t, 1), own, other);
    var m: State;
    steps, m := HandOver(c, t, own, other);
    HandOverLogged(f, t, own, other, m.log);
    var more: seq<Step>;
    more, u := CutOver(c, m);
    RunsConcat(c, s, steps, m, more, u);
    steps := steps + more;
    assert Wanted(c, u) == map[];
  }

  lemma HandOverLogged(f: Filter, t: TableName, own: Row, other: Row, log: seq<Entry>)
    requires |log| == 3
    requires forall i :: 0 <= i < 3 ==> EntryChanges(log[i]) == [HandedOver(Key(t, 1), own, other)[i]]
    requires forall i :: 0 <= i < 3 ==> Untwinned(f, {t}, HandedOver(Key(t, 1), own, other)[i])
    ensures LogUntwinned(f, {t}, log)
  {
  }
}

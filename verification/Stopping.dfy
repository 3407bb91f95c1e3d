/**
 When the streamer stops: not before the recorded position, and exactly when it can. These
 results hold for every filter; all they take is that the position is recorded before the
 stop is requested.
 */
module Stopping {
  import opened Rows
  import opened Binlog
  import opened Protocol
  import opened Invariant
  import opened InvariantKept
  import opened Races

  /** The positions of server, streamer and cutover belong to the log. */
  ghost predicate StopOk(s: State) {
    && Advances(s.origin, s.log) && (!s.connected ==> s.log == []) && PositionOk(s)
    && (s.cutover.readonly ==> s.connected)
    && (s.cutover.recorded ==>
          && s.cutover.readonly
          && s.cutover.stopIndex <= |s.log|
          && s.cutover.stopPosition == ServerPosition(s.origin, s.log[..s.cutover.stopIndex]))
    && (s.cutover.requested ==> s.cutover.recorded)
    && (!s.streamer.running ==> s.cutover.recorded && s.cutover.stopIndex <= s.streamer.index)
  }

  lemma SourceKeepsStop(c: Config, s: State, step: SourceStep)
    requires StopOk(s) && SourceEnabled(c, s, step)
    ensures StopOk(SourceApply(s, step))
  {
    var s' := SourceApply(s, step);
    if s.connected {
      var e := if step.Write? then RowsEvent(step.changes, step.logPos) else step.entry;
      AdvancesAppend(s.origin, s.log, e);
      assert s'.log[..s.streamer.index] == s.log[..s.streamer.index];
      if s.cutover.recorded {
        assert s'.log[..s.cutover.stopIndex] == s.log[..s.cutover.stopIndex];
      }
    }
  }

  lemma FerryKeepsStop(c: Config, s: State, step: FerryStep)
    requires c.recordFirst && StopOk(s) && FerryEnabled(c, s, step)
    ensures StopOk(FerryApply(s, step))
  {
    assert s.log[..|s.log|] == s.log;
    if step.Connect? {
      assert s.log[..s.streamer.index] == [];
    }
  }

  lemma StreamKeepsStop(c: Config, s: State, step: StreamStep)
    requires StopOk(s) && StreamEnabled(c, s, step)
    ensures StopOk(StreamApply(c, s, step))
  {
    StreamTouches(c, s, step);
    StreamKeepsPosition(c, s, step);
    if step.StopStreaming? {
      RememberedBehind(s.origin, s.log, s.streamer.index);
      if s.streamer.index < s.cutover.stopIndex {
        PositionsIncrease(s.origin, s.log, s.streamer.index, s.cutover.stopIndex);
      }
    }
  }

  lemma StepKeepsStop(c: Config, s: State, step: Step)
    requires c.recordFirst && StopOk(s) && Enabled(c, s, step)
    ensures StopOk(Apply(c, s, step))
  {
    match step
    case Source(a) => SourceKeepsStop(c, s, a);
    case Ferry(a) => FerryKeepsStop(c, s, a);
    case Copy(a) => CopyTouches(c, s, a);
    case Stream(a) => StreamKeepsStop(c, s, a);
    case Replaying(a) =>
  }

  lemma {:induction false} RunKeepsStop(c: Config, s: State, steps: seq<Step>, t: State)
    requires c.recordFirst && StopOk(s) && Runs(c, s, steps, t)
    ensures StopOk(t)
    decreases |steps|
  {
    if steps != [] {
      StepKeepsStop(c, s, steps[0]);
      RunKeepsStop(c, Apply(c, s, steps[0]), steps[1..], t);
    }
  }

  /**
   Stop safety for every filter: a streamer that has left its loop has handled every entry
   up to the recorded position.
   */
  lemma NeverStopsEarly(c: Config, s: State, steps: seq<Step>, t: State)
    requires c.recordFirst && Init(s) && Runs(c, s, steps, t) && !t.streamer.running
    ensures t.cutover.recorded && t.cutover.stopIndex <= t.streamer.index <= |t.log|
  {
    RunKeepsStop(c, s, steps, t);
  }

  /**
   When the loop can be left. The position of a format description is not remembered, so a
   stop position right behind one is reached only with a later entry that is something else.
   */
  lemma CanStopIff(c: Config, s: State, steps: seq<Step>, t: State)
    requires c.recordFirst && Init(s) && Runs(c, s, steps, t) && t.connected && t.cutover.requested
    ensures t.streamer.index <= |t.log|
    ensures !KeepsStreaming(t) <==>
              t.cutover.stopIndex == 0 || Positioned(t.log, t.cutover.stopIndex - 1, t.streamer.index)
  {
    RunKeepsStop(c, s, steps, t);
    ReachedIff(t.origin, t.log, t.cutover.stopIndex, t.streamer.index);
  }

  /**
   In particular, a streamer that has handled the whole log waits on if the stop was
   recorded right after a rotation.
   */
  lemma StopAfterRotationWaits(c: Config, t: TableName) returns (s: State, steps: seq<Step>, u: State)
    requires AsWritten(c)
    ensures Init(s) && Runs(c, s, steps, u) && u.cutover.requested && RowCopyComplete(u)
    ensures u.streamer.index == |u.log| == u.cutover.stopIndex && u.writer.channel == [] && KeepsStreaming(u)
  {
    s, steps, u := Rotated(c, t);
    steps, u := Then(c, s, steps, u, Ferry(SetReadonly));
    steps, u := Then(c, s, steps, u, Ferry(RecordStop));
    steps, u := Then(c, s, steps, u, Ferry(RequestStop));
  }

  /** The log has been rotated, and the streamer has handled it all. */
  lemma Rotated(c: Config, t: TableName) returns (s: State, steps: seq<Step>, u: State)
    requires AsWritten(c)
    ensures Init(s) && Runs(c, s, steps, u) && RowCopyComplete(u) && u.connected && u.cutover == s.cutover
    ensures u.streamer == Streamer(Position(2, 4), 2, None, true) && |u.log| == 2 && Here(u) == Position(2, 120)
    ensures u.writer == s.writer
  {
    s := StartState(map[], t);
    steps, u := CopyEmpty(c, t);
    steps, u := LogTwo(c, s, steps, u, RotateEvent(Position(2, 4)), FormatDescriptionEvent(120));
    steps, u := Then(c, s, steps, u, Stream(Read));
    steps, u := Then(c, s, steps, u, Stream(Read));
  }

  lemma TwoEntries(origin: Position, a: Entry, b: Entry)
    ensures ServerPosition(origin, [a]) == EndOf(origin, a)
    ensures ServerPosition(origin, [a, b]) == EndOf(EndOf(origin, a), b)
  {
    assert [a][..0] == [] && [a, b][..1] == [a];
  }

  lemma LogOne(c: Config, s: State, before: seq<Step>, m: State, e: Entry) returns (steps: seq<Step>)
    requires Runs(c, s, before, m) && m.connected && !e.RowsEvent? && Less(Here(m), EndOf(Here(m), e))
    ensures Runs(c, s, steps, m.(log := m.log + [e]))
  {
    var t: State;
    steps, t := Then(c, s, before, m, Source(LogOther(e)));
  }

  lemma LogTwo(c: Config, s: State, before: seq<Step>, m: State, a: Entry, b: Entry)
      returns (steps: seq<Step>, u: State)
    requires Runs(c, s, before, m) && m.connected && m.log == [] && !a.RowsEvent? && !b.RowsEvent?
    requires Less(m.origin, EndOf(m.origin, a)) && Less(EndOf(m.origin, a), EndOf(EndOf(m.origin, a), b))
    ensures Runs(c, s, steps, u) && u == m.(log := [a, b])
    ensures Here(u) == EndOf(EndOf(m.origin, a), b)
  {
    TwoEntries(m.origin, a, b);
    var m1 := m.(log := [a]);
    u := m.(log := [a, b]);
    steps := LogOne(c, s, before, m, a);
    assert m.log + [a] == [a];
    steps := LogOne(c, s, steps, m1, b);
    assert m1.log + [b] == [a, b];
  }
}

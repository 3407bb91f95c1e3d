/**
 A filtered run is an unfiltered run on a projected source.

 The projection keeps the rows the filter selects, of the tables the run copies. It
 turns an update that crosses the filter's boundary into a delete or an insert, which is
 what it is for the projected source; the streamer aborts on such an update.
 */
module Sharding {
  import opened Rows
  import opened Binlog
  import opened CopyFilter
  import opened Protocol
  import opened Invariant
  import opened InvariantKept

  // ---- the decision on one change -----------------------------------------

  function ProjectImage(f: Filter, tables: set<TableName>, k: Key, image: Option<Row>): Option<Row> {
    if image.Some? && k.table in tables && Selects(f, k, image.value) then image else None
  }

  function ProjectChange(f: Filter, tables: set<TableName>, e: Change): Change {
    Change(e.key, ProjectImage(f, tables, e.key, e.before), ProjectImage(f, tables, e.key, e.after))
  }

  predicate Visible(e: Change) {
    e.before.Some? || e.after.Some?
  }

  /** The changes the projection sees are those that concern the run. */
  lemma VisibleMeansConcerns(f: Filter, tables: set<TableName>, e: Change)
    ensures Visible(ProjectChange(f, tables, e)) <==> Concerns(f, tables, e)
  {
  }

  /** The change is replayed as it is if the projection sees it, and skipped if not. */
  predicate JudgedAsProjected(f: Filter, tables: set<TableName>, e: Change) {
    && (Judge(f, tables, e) == Replayed ==> ProjectChange(f, tables, e) == e)
    && (Judge(f, tables, e) == Skipped ==> !Visible(ProjectChange(f, tables, e)))
  }

  /** So it is with a change that does not abort, exactly if no number in it is taken for the sharding value. */
  lemma JudgeIsProjection(f: Filter, tables: set<TableName>, e: Change)
    requires Visible(e) && Judge(f, tables, e) != Aborted
    ensures JudgedAsProjected(f, tables, e) <==> Untwinned(f, tables, e)
  {
    if f.Shard? && f.value < 0 {
      assert ToInt64(f.value + TWO_64) == f.value;
    }
  }

  /** An update that moves a row into or out of the shard always aborts. */
  lemma CrossingAborts(f: Filter, tables: set<TableName>, e: Change)
    requires Untwinned(f, tables, e) && f.Shard? && e.key.table in tables && e.key.table in f.columns
    requires e.before.Some? && e.after.Some?
    requires Selects(f, e.key, e.before.value) != Selects(f, e.key, e.after.value)
    ensures Judge(f, tables, e) == Aborted
  {
  }

  // ---- the projection ------------------------------------------------------

  function Project(f: Filter, tables: set<TableName>, db: Database): Database {
    map k | k in db && k.table in tables && Selects(f, k, db[k]) :: db[k]
  }

  function ProjectChanges(f: Filter, tables: set<TableName>, es: seq<Change>): seq<Change> {
    if es == [] then []
    else
      var e := ProjectChange(f, tables, es[|es| - 1]);
      ProjectChanges(f, tables, es[..|es| - 1]) + if Visible(e) then [e] else []
  }

  function ProjectEntry(f: Filter, tables: set<TableName>, e: Entry): Entry {
    if e.RowsEvent? then e.(changes := ProjectChanges(f, tables, e.changes)) else e
  }

  function ProjectLog(f: Filter, tables: set<TableName>, log: seq<Entry>): seq<Entry> {
    seq(|log|, i requires 0 <= i < |log| => ProjectEntry(f, tables, log[i]))
  }

  function ProjectState(f: Filter, s: State): State {
    var tables := s.tables.Keys;
    s.(source := Project(f, tables, s.source),
       base := Project(f, tables, s.base),
       log := ProjectLog(f, tables, s.log))
  }

  function ProjectStep(f: Filter, tables: set<TableName>, step: Step): Step {
    if step.Source? && step.source.Write?
    then Source(Write(ProjectChanges(f, tables, step.source.changes), step.source.logPos))
    else step
  }

  // ---- what the streamer hands on is the projected log --------------------

  lemma {:induction false} ApplicableIsProjection(f: Filter, tables: set<TableName>, es: seq<Change>)
    requires !Aborts(f, tables, es)
    requires forall i :: 0 <= i < |es| ==> Visible(es[i]) && Untwinned(f, tables, es[i])
    ensures Applicable(f, tables, es) == ProjectChanges(f, tables, es)
  {
    if es != [] {
      var init, e := es[..|es| - 1], es[|es| - 1];
      assert !Aborts(f, tables, init) by {
        assert forall x :: x in init ==> x in es;
      }
      ApplicableIsProjection(f, tables, init);
      assert e in es;
      JudgeIsProjection(f, tables, e);
    }
  }

  lemma {:induction false} QuietProjects(f: Filter, tables: set<TableName>, es: seq<Change>)
    requires Quiet(f, tables, es)
    ensures ProjectChanges(f, tables, es) == []
  {
    if es != [] {
      QuietProjects(f, tables, es[..|es| - 1]);
      VisibleMeansConcerns(f, tables, es[|es| - 1]);
    }
  }

  lemma {:induction false} ProjectedChangesKnown(f: Filter, tables: set<TableName>, es: seq<Change>)
    ensures Known(tables, ProjectChanges(f, tables, es))
    ensures forall i :: 0 <= i < |ProjectChanges(f, tables, es)| ==> Visible(ProjectChanges(f, tables, es)[i])
    ensures forall i :: 0 <= i < |ProjectChanges(f, tables, es)| ==>
              exists j :: 0 <= j < |es| && es[j].key == ProjectChanges(f, tables, es)[i].key
  {
    if es != [] {
      var init := es[..|es| - 1];
      ProjectedChangesKnown(f, tables, init);
      var ps, all := ProjectChanges(f, tables, init), ProjectChanges(f, tables, es);
      forall i | 0 <= i < |all| ensures exists j :: 0 <= j < |es| && es[j].key == all[i].key {
        if i < |ps| {
          var j :| 0 <= j < |init| && init[j].key == ps[i].key;
          assert es[j].key == all[i].key;
        } else {
          assert es[|es| - 1].key == all[i].key;
        }
      }
    }
  }

  // ---- the projected source goes through the projected changes ------------

  lemma ProjectLookup(f: Filter, tables: set<TableName>, db: Database, k: Key)
    ensures Lookup(Project(f, tables, db), k) == ProjectImage(f, tables, k, Lookup(db, k))
  {
  }

  lemma ProjectStore(f: Filter, tables: set<TableName>, db: Database, k: Key, v: Option<Row>)
    ensures Project(f, tables, Store(db, k, v)) == Store(Project(f, tables, db), k, ProjectImage(f, tables, k, v))
  {
  }

  lemma {:induction false} ProjectReplay(f: Filter, tables: set<TableName>, db: Database, es: seq<Change>)
    requires Consistent(db, es)
    ensures Project(f, tables, Replay(db, es)) == Replay(Project(f, tables, db), ProjectChanges(f, tables, es))
    ensures Consistent(Project(f, tables, db), ProjectChanges(f, tables, es))
  {
    if es != [] {
      var n := |es| - 1;
      var init, e := es[..n], es[n];
      assert Consistent(db, init) by {
        forall i | 0 <= i < n ensures init[i].before == Lookup(Replay(db, init[..i]), init[i].key) {
          assert init[..i] == es[..i];
        }
      }
      ProjectReplay(f, tables, db, init);
      var pdb, ps, pe := Project(f, tables, db), ProjectChanges(f, tables, init), ProjectChange(f, tables, e);
      var now := Replay(db, init);
      ProjectStore(f, tables, now, e.key, e.after);
      ProjectLookup(f, tables, now, e.key);
      assert Lookup(Replay(pdb, ps), e.key) == pe.before;
      if Visible(pe) {
        assert Consistent(Replay(pdb, ps), [pe]) by {
          assert [pe][..0] == [];
        }
        ConsistentConcat(pdb, ps, [pe]);
        ReplayConcat(pdb, ps, [pe]);
        assert [pe][..0] == [];
      } else {
        assert ps + [] == ps;
        assert Store(Replay(pdb, ps), e.key, None) == Replay(pdb, ps);
      }
    }
  }

  lemma {:induction false} ProjectPosition(f: Filter, tables: set<TableName>, origin: Position, log: seq<Entry>)
    ensures ServerPosition(origin, ProjectLog(f, tables, log)) == ServerPosition(origin, log)
  {
    if log != [] {
      var n := |log| - 1;
      ProjectPosition(f, tables, origin, log[..n]);
      assert ProjectLog(f, tables, log)[..n] == ProjectLog(f, tables, log[..n]);
    }
  }

  // ---- step by step --------------------------------------------------------

  function Unfiltered(c: Config): Config {
    c.(filter := Everything)
  }

  lemma ProjectHere(f: Filter, s: State)
    ensures Here(ProjectState(f, s)) == Here(s)
  {
    ProjectPosition(f, s.tables.Keys, s.origin, s.log);
  }

  lemma ProjectLogAppend(f: Filter, tables: set<TableName>, log: seq<Entry>, e: Entry)
    ensures ProjectLog(f, tables, log + [e]) == ProjectLog(f, tables, log) + [ProjectEntry(f, tables, e)]
  {
  }

  lemma AppendProjects(f: Filter, s: State, e: Entry)
    ensures Append(ProjectState(f, s), ProjectEntry(f, s.tables.Keys, e)) == ProjectState(f, Append(s, e))
  {
    ProjectLogAppend(f, s.tables.Keys, s.log, e);
  }

  lemma WriteProjects(c: Config, s: State, changes: seq<Change>, logPos: nat)
    requires SourceEnabled(c, s, Write(changes, logPos))
    ensures var p, es := ProjectState(c.filter, s), ProjectChanges(c.filter, s.tables.Keys, changes);
            && SourceEnabled(Unfiltered(c), p, Write(es, logPos))
            && SourceApply(p, Write(es, logPos)) == ProjectState(c.filter, SourceApply(s, Write(changes, logPos)))
            && Known(s.tables.Keys, es)
  {
    ProjectHere(c.filter, s);
    if s.cutover.readonly {
      QuietProjects(c.filter, s.tables.Keys, changes);
    }
    ProjectReplay(c.filter, s.tables.Keys, s.source, changes);
    ProjectedChangesKnown(c.filter, s.tables.Keys, changes);
    AppendProjects(c.filter, s, RowsEvent(changes, logPos));
  }

  lemma LogOtherProjects(c: Config, s: State, entry: Entry)
    requires SourceEnabled(c, s, LogOther(entry))
    ensures var p := ProjectState(c.filter, s);
            && SourceEnabled(Unfiltered(c), p, LogOther(entry))
            && SourceApply(p, LogOther(entry)) == ProjectState(c.filter, SourceApply(s, LogOther(entry)))
  {
    ProjectHere(c.filter, s);
    AppendProjects(c.filter, s, entry);
  }

  lemma SourceStepProjects(c: Config, s: State, step: SourceStep)
    requires SourceEnabled(c, s, step)
    ensures var step' := ProjectStep(c.filter, s.tables.Keys, Source(step)).source;
            && SourceEnabled(Unfiltered(c), ProjectState(c.filter, s), step')
            && SourceApply(ProjectState(c.filter, s), step') == ProjectState(c.filter, SourceApply(s, step))
            && (step'.Write? ==> Known(s.tables.Keys, step'.changes))
  {
    match step
    case Write(changes, logPos) => WriteProjects(c, s, changes, logPos);
    case LogOther(entry) => LogOtherProjects(c, s, entry);
  }

  lemma FerryStepProjects(c: Config, s: State, step: FerryStep)
    requires FerryEnabled(c, s, step)
    ensures var p := ProjectState(c.filter, s);
            && FerryEnabled(Unfiltered(c), p, step)
            && FerryApply(p, step) == ProjectState(c.filter, FerryApply(s, step))
  {
    ProjectHere(c.filter, s);
  }

  lemma PageProjects(f: Filter, tables: set<TableName>, db: Database, t: TableName, last: nat, size: nat,
                     page: Database)
    requires t in tables && IsPage(f, db, t, last, size, page)
    ensures IsPage(Everything, Project(f, tables, db), t, last, size, page)
  {
    var db' := Project(f, tables, db);
    forall k ensures Matching(Everything, db', t, last, k) <==> Matching(f, db, t, last, k) {
    }
  }

  lemma CopyStepProjects(c: Config, s: State, step: CopyStep)
    requires CopyEnabled(c, s, step)
    ensures var p := ProjectState(c.filter, s);
            && CopyEnabled(Unfiltered(c), p, step)
            && CopyApply(Unfiltered(c), p, step) == ProjectState(c.filter, CopyApply(c, s, step))
  {
    var f, tables, t := c.filter, s.tables.Keys, step.table;
    assert CopyApply(c, s, step).tables.Keys == tables;
    if step.Select? {
      PageProjects(f, tables, s.source, t, s.tables[t].last, c.pageSize, step.page);
    } else if step.SelectNothing? {
      PageProjects(f, tables, s.source, t, s.tables[t].last, c.pageSize, map[]);
    }
  }

  ghost predicate LogVisible(log: seq<Entry>) {
    forall i :: 0 <= i < |log| ==> forall j :: 0 <= j < |EntryChanges(log[i])| ==> Visible(EntryChanges(log[i])[j])
  }

  /** No number in the log is taken for the sharding value. */
  ghost predicate LogUntwinned(f: Filter, tables: set<TableName>, log: seq<Entry>) {
    forall i :: 0 <= i < |log| ==>
      forall j :: 0 <= j < |EntryChanges(log[i])| ==> Untwinned(f, tables, EntryChanges(log[i])[j])
  }

  /** The streamer hands on the same changes, whether it filters or reads the projected log. */
  lemma SameHandedOn(f: Filter, tables: set<TableName>, es: seq<Change>)
    requires !Aborts(f, tables, es)
    requires forall i :: 0 <= i < |es| ==> Visible(es[i]) && Untwinned(f, tables, es[i])
    ensures Applicable(Everything, tables, ProjectChanges(f, tables, es)) == Applicable(f, tables, es)
  {
    ApplicableIsProjection(f, tables, es);
    ProjectedChangesKnown(f, tables, es);
    ApplicableWhole(tables, ProjectChanges(f, tables, es));
  }

  lemma NeverAborts(tables: set<TableName>, es: seq<Change>)
    ensures !Aborts(Everything, tables, es)
  {
  }

  lemma ReadEnabledProjects(c: Config, s: State)
    requires StreamEnabled(c, s, Read)
    ensures StreamEnabled(Unfiltered(c), ProjectState(c.filter, s), Read)
  {
    NeverAborts(s.tables.Keys, EntryChanges(ProjectEntry(c.filter, s.tables.Keys, s.log[s.streamer.index])));
  }

  lemma ReadProjects(c: Config, s: State)
    requires StreamEnabled(c, s, Read) && StreamEnabled(Unfiltered(c), ProjectState(c.filter, s), Read)
    requires var e := s.log[s.streamer.index];
             e.RowsEvent? ==>
               Applicable(Everything, s.tables.Keys, ProjectChanges(c.filter, s.tables.Keys, e.changes))
               == Applicable(c.filter, s.tables.Keys, e.changes)
    ensures StreamApply(Unfiltered(c), ProjectState(c.filter, s), Read)
         == ProjectState(c.filter, StreamApply(c, s, Read))
  {
  }

  lemma StreamStepProjects(c: Config, s: State, step: StreamStep)
    requires StreamEnabled(c, s, step) && LogVisible(s.log) && LogUntwinned(c.filter, s.tables.Keys, s.log)
    ensures var p := ProjectState(c.filter, s);
            && StreamEnabled(Unfiltered(c), p, step)
            && StreamApply(Unfiltered(c), p, step) == ProjectState(c.filter, StreamApply(c, s, step))
  {
    match step
    case ReadStart =>
    case Read =>
      ReadEnabledProjects(c, s);
      SameHandedOn(c.filter, s.tables.Keys, EntryChanges(s.log[s.streamer.index]));
      ReadProjects(c, s);
    case Push =>
    case Acknowledge =>
    case StopStreaming =>
  }

  lemma WriteStepProjects(c: Config, s: State, step: WriteStep)
    requires WriteEnabled(c, s.writer, step)
    ensures WriteApply(Unfiltered(c), ProjectState(c.filter, s), step)
         == ProjectState(c.filter, WriteApply(c, s, step))
  {
  }

  lemma SourceVisible(c: Config, s: State, a: SourceStep)
    requires SourceEnabled(c, s, a) && LogVisible(s.log)
    ensures LogVisible(SourceApply(s, a).log)
  {
    var s' := SourceApply(s, a);
    if |s'.log| > |s.log| {
      var e := s'.log[|s.log|];
      assert s'.log == s.log + [e];
      assert forall j :: 0 <= j < |EntryChanges(e)| ==> Visible(EntryChanges(e)[j]);
    }
  }

  lemma VisibleKept(c: Config, s: State, step: Step)
    requires Enabled(c, s, step) && LogVisible(s.log)
    ensures LogVisible(Apply(c, s, step).log)
  {
    match step
    case Source(a) => SourceVisible(c, s, a);
    case Copy(a) => CopyTouches(c, s, a);
    case Stream(a) => StreamTouches(c, s, a);
    case _ =>
  }

  /** Every step of a filtered run is a step of the unfiltered run on the projected source. */
  lemma StepProjects(c: Config, s: State, step: Step)
    requires Enabled(c, s, step) && AsWritten(c) && LogVisible(s.log) && LogUntwinned(c.filter, s.tables.Keys, s.log)
    ensures var p, step' := ProjectState(c.filter, s), ProjectStep(c.filter, s.tables.Keys, step);
            && Enabled(Unfiltered(c), p, step')
            && Apply(Unfiltered(c), p, step') == ProjectState(c.filter, Apply(c, s, step))
            && Whole(Unfiltered(c), p, step')
  {
    match step
    case Source(a) => SourceStepProjects(c, s, a);
    case Ferry(a) => FerryStepProjects(c, s, a);
    case Copy(a) => CopyStepProjects(c, s, a);
    case Stream(a) => StreamStepProjects(c, s, a);
    case Replaying(a) => WriteStepProjects(c, s, a);
  }

  function ProjectSteps(f: Filter, tables: set<TableName>, steps: seq<Step>): seq<Step> {
    seq(|steps|, i requires 0 <= i < |steps| => ProjectStep(f, tables, steps[i]))
  }

  lemma StepLogs(c: Config, s: State, step: Step)
    requires Enabled(c, s, step)
    ensures s.log <= Apply(c, s, step).log
  {
    match step
    case Copy(a) => CopyTouches(c, s, a);
    case Stream(a) => StreamTouches(c, s, a);
    case _ =>
  }

  /** The log only grows. */
  lemma {:induction false} RunLogs(c: Config, s: State, steps: seq<Step>, t: State)
    requires Runs(c, s, steps, t)
    ensures s.log <= t.log
    decreases |steps|
  {
    if steps != [] {
      StepLogs(c, s, steps[0]);
      RunLogs(c, Apply(c, s, steps[0]), steps[1..], t);
    }
  }

  /** Every filtered run in whose log no number is taken for the sharding value is, projected, an unfiltered run. */
  lemma {:induction false} RunProjects(c: Config, s: State, steps: seq<Step>, t: State)
    requires Runs(c, s, steps, t) && AsWritten(c) && LogVisible(s.log) && LogUntwinned(c.filter, s.tables.Keys, t.log)
    ensures var steps' := ProjectSteps(c.filter, s.tables.Keys, steps);
            && Runs(Unfiltered(c), ProjectState(c.filter, s), steps', ProjectState(c.filter, t))
            && WholeRun(Unfiltered(c), ProjectState(c.filter, s), steps')
            && t.tables.Keys == s.tables.Keys
    decreases |steps|
  {
    var steps' := ProjectSteps(c.filter, s.tables.Keys, steps);
    if steps != [] {
      var s1 := Apply(c, s, steps[0]);
      RunLogs(c, s, steps, t);
      StepProjects(c, s, steps[0]);
      VisibleKept(c, s, steps[0]);
      TablesStay(c, s, steps[0]);
      RunProjects(c, s1, steps[1..], t);
      assert steps'[1..] == ProjectSteps(c.filter, s1.tables.Keys, steps[1..]);
      forall i | 0 <= i < |steps'| ensures Whole(Unfiltered(c), ProjectState(c.filter, s), steps'[i]) {
        if i > 0 {
          assert Whole(Unfiltered(c), ProjectState(c.filter, s1), steps'[1..][i - 1]);
        }
      }
    }
  }
}

/**
 Runs of the verifier, built step by step: what it takes for a row to escape it, and what
 does not.
 */
module VerifierRuns {
  import opened Rows
  import opened CopyFilter
  import opened Fingerprints
  import opened Verification
  import opened VerifierSoundness
  import Protocol

  lemma {:induction false} RunsConcat(c: Config, s: State, a: seq<Step>, m: State, b: seq<Step>, t: State)
    requires Runs(c, s, a, m) && Runs(c, m, b, t)
    ensures Runs(c, s, a + b, t)
    decreases |a|
  {
    if a == [] {
      assert a + b == b;
    } else {
      assert (a + b)[1..] == a[1..] + b;
      RunsConcat(c, Apply(c, s, a[0]), a[1..], m, b, t);
    }
  }

  lemma Then(c: Config, s: State, steps: seq<Step>, m: State, step: Step) returns (steps': seq<Step>, t: State)
    requires Runs(c, s, steps, m) && Enabled(c, m, step)
    ensures t == Apply(c, m, step) && Runs(c, s, steps', t)
  {
    t := Apply(c, m, step);
    steps' := steps + [step];
    assert [step][1..] == [];
    assert Runs(c, m, [step], t);
    RunsConcat(c, s, steps, m, [step], t);
  }

  lemma First(c: Config, s: State, step: Step, m: State, rest: seq<Step>, t: State)
    requires Enabled(c, s, step) && m == Apply(c, s, step) && Runs(c, m, rest, t)
    ensures Runs(c, s, [step] + rest, t)
  {
    assert ([step] + rest)[1..] == rest;
  }

  /** The state while one row is compared. */
  function Comparing(s: State, k: Key, source: Option<Option<string>>, target: Option<Option<string>>): State {
    s.(pending := s.pending - {k}, checks := map[k := Check(source, target)],
       staleSource := if source.Some? then s.staleSource - {k} else s.staleSource,
       staleTarget := if target.Some? then s.staleTarget - {k} else s.staleTarget)
  }

  lemma BeginStep(c: Config, s: State, k: Key)
    requires k in s.pending && s.checks == map[] && !s.phase.Reported?
    ensures CheckEnabled(s, Begin(k)) && CheckApply(c, s, Begin(k)) == Comparing(s, k, None, None)
  {
  }

  lemma ReadSteps(c: Config, s: State, k: Key)
    ensures var source, target := Some(PrintOf(c, s.source, k)), Some(PrintOf(c, s.target, k));
            && CheckApply(c, Comparing(s, k, None, None), ReadSource(k)) == Comparing(s, k, source, None)
            && CheckApply(c, Comparing(s, k, source, None), ReadTarget(k)) == Comparing(s, k, source, target)
  {
  }

  lemma ReadBoth(c: Config, s: State, k: Key) returns (steps: seq<Step>, t: State)
    requires k in s.pending && s.checks == map[] && !s.phase.Reported?
    ensures Runs(c, s, steps, t)
    ensures t == Comparing(s, k, Some(PrintOf(c, s.source, k)), Some(PrintOf(c, s.target, k)))
  {
    BeginStep(c, s, k);
    ReadSteps(c, s, k);
    t, steps := s, [];
    steps, t := Then(c, s, steps, t, Compare(Begin(k)));
    steps, t := Then(c, s, steps, t, Compare(ReadSource(k)));
    steps, t := Then(c, s, steps, t, Compare(ReadTarget(k)));
  }

  /** One row is compared while nothing changes. */
  lemma CompareOne(c: Config, s: State, k: Key) returns (steps: seq<Step>, t: State)
    requires k in s.pending && s.checks == map[] && !s.phase.Reported?
    ensures Runs(c, s, steps, t)
    ensures var s' := s.(pending := s.pending - {k},
                         staleSource := s.staleSource - {k}, staleTarget := s.staleTarget - {k});
            t == if Agrees(c, s, k) then s'
                 else if BeforeCutover(s) then s'.(store := s.store + {k})
                 else s'.(failed := true)
  {
    steps, t := ReadBoth(c, s, k);
    var u := t;
    steps, t := Then(c, s, steps, u, Compare(Conclude(k)));
    assert t.checks == map[];
  }

  // ---- scanning ------------------------------------------------------------

  /** These scans with some of them finished. */
  function Finishing(scans: map<TableName, Scan>, tables: set<TableName>): map<TableName, Scan> {
    map t | t in scans :: if t in tables then scans[t].(finished := true) else scans[t]
  }

  /** Tables without rows are scanned to their ends. */
  lemma {:induction false} FinishEmpty(c: Config, s: State, tables: set<TableName>) returns (steps: seq<Step>)
    requires s.phase.Scanning? && Settled(s)
    requires forall t :: t in tables ==> t in s.scans && s.scans[t] == Scan(0, false) && t.name !in c.ignored
    requires forall k :: k in s.source ==> k.table !in tables
    ensures Runs(c, s, steps, s.(scans := Finishing(s.scans, tables)))
    decreases |tables|
  {
    if tables == {} {
      steps := [];
      assert Finishing(s.scans, {}) == s.scans;
    } else {
      var t :| t in tables;
      var s1 := s.(scans := s.scans[t := Scan(0, true)]);
      EmptyIsFinished(c, s, t);
      var rest := FinishEmpty(c, s1, tables - {t});
      FinishingNext(s.scans, tables, t);
      First(c, s, ScanTable(SelectNothing(t)), s1, rest, s.(scans := Finishing(s.scans, tables)));
      steps := [ScanTable(SelectNothing(t))] + rest;
    }
  }

  lemma EmptyIsFinished(c: Config, s: State, t: TableName)
    requires s.phase.Scanning? && Settled(s) && t in s.scans && s.scans[t] == Scan(0, false) && t.name !in c.ignored
    requires forall k :: k in s.source ==> k.table != t
    ensures ScanEnabled(c, s, SelectNothing(t))
    ensures ScanApply(c, s, SelectNothing(t)) == s.(scans := s.scans[t := Scan(0, true)])
  {
  }

  lemma FinishingNext(scans: map<TableName, Scan>, tables: set<TableName>, t: TableName)
    requires t in tables && t in scans && scans[t] == Scan(0, false)
    ensures Finishing(scans[t := Scan(0, true)], tables - {t}) == Finishing(scans, tables)
  {
  }

  /** The tables other than that of `k` that are scanned. */
  function Others(c: Config, k: Key): set<TableName> {
    set t | t in c.tables && t != k.table && t.name !in c.ignored
  }

  /** All tables have been scanned, and `k` was the only row in them. */
  function Scanned(c: Config, k: Key): map<TableName, Scan> {
    map t | t in c.tables ::
      if t == k.table then Scan(k.pk, true) else Scan(0, t in Others(c, k))
  }

  /** One row, the same on both sides, is all there is. */
  function StartWith(c: Config, k: Key, a: Row): State {
    State(map[k := a], map[k := a], map t | t in c.tables :: Scan(0, false),
          {}, {}, map[], {}, {}, {}, Verification.Phase.Scanning, false)
  }

  predicate InRange(c: Config, k: Key) {
    k.table in c.tables && !Ignored(c, k) && 1 <= k.pk < TWO_64
  }

  /** All tables are scanned, and the one row in them is compared. */
  lemma ScanOne(c: Config, k: Key, a: Row) returns (steps: seq<Step>, t: State)
    requires c.pageSize >= 1 && InRange(c, k) && Selects(c.filter, k, a)
    ensures Init(c, StartWith(c, k, a)) && Runs(c, StartWith(c, k, a), steps, t)
    ensures t == StartWith(c, k, a).(scans := Scanned(c, k), phase := Reverifying)
  {
    var s := StartWith(c, k, a);
    steps, t := ScanRow(c, k, a);
    var more := FinishEmpty(c, t, Others(c, k));
    AllScanned(c, k);
    var u := s.(scans := Scanned(c, k));
    RunsConcat(c, s, steps, t, more, u);
    ScansEnd(c, u, k);
    steps, t := Then(c, s, steps + more, u, Advance(EndScan));
  }

  lemma ScansEnd(c: Config, s: State, k: Key)
    requires s.phase.Scanning? && Settled(s) && s.scans == Scanned(c, k)
    ensures PhaseEnabled(c, s, EndScan)
  {
  }

  /** The row as the scan finds it, before and after it is compared. */
  function ScannedUpTo(c: Config, k: Key, a: Row, pending: set<Key>): State {
    var s := StartWith(c, k, a);
    s.(scans := s.scans[k.table := Scan(k.pk, false)], pending := pending)
  }

  lemma CompareScanned(c: Config, k: Key, a: Row) returns (steps: seq<Step>)
    requires k.table in c.tables
    ensures Runs(c, ScannedUpTo(c, k, a, {k}), steps, ScannedUpTo(c, k, a, {}))
  {
    var t: State;
    steps, t := CompareOne(c, ScannedUpTo(c, k, a, {k}), k);
    assert t == ScannedUpTo(c, k, a, {});
  }

  function SelectStep(k: Key, a: Row): Step {
    ScanTable(SelectPage(k.table, map[k := a], k.pk))
  }

  lemma SelectScanned(c: Config, k: Key, a: Row)
    requires c.pageSize >= 1 && InRange(c, k) && Selects(c.filter, k, a)
    ensures Init(c, StartWith(c, k, a)) && Enabled(c, StartWith(c, k, a), SelectStep(k, a))
    ensures Apply(c, StartWith(c, k, a), SelectStep(k, a)) == ScannedUpTo(c, k, a, {k})
  {
    SelectOne(c, StartWith(c, k, a), k);
  }

  lemma EndScanned(c: Config, k: Key, a: Row)
    requires c.pageSize >= 1 && InRange(c, k) && Selects(c.filter, k, a)
    ensures var s, t := StartWith(c, k, a), ScannedUpTo(c, k, a, {});
            && Enabled(c, t, EndScanOf(k))
            && Apply(c, t, EndScanOf(k)) == s.(scans := s.scans[k.table := Scan(k.pk, true)])
  {
    var s, t := StartWith(c, k, a), ScannedUpTo(c, k, a, {});
    EndOne(c, t, k);
    assert t.scans[k.table := Scan(k.pk, true)] == s.scans[k.table := Scan(k.pk, true)];
  }

  /** The table of the row is scanned. */
  lemma ScanRow(c: Config, k: Key, a: Row) returns (steps: seq<Step>, t: State)
    requires c.pageSize >= 1 && InRange(c, k) && Selects(c.filter, k, a)
    ensures var s := StartWith(c, k, a);
            Init(c, s) && Runs(c, s, steps, t) && t == s.(scans := s.scans[k.table := Scan(k.pk, true)])
  {
    var s, s1, s2 := StartWith(c, k, a), ScannedUpTo(c, k, a, {k}), ScannedUpTo(c, k, a, {});
    SelectScanned(c, k, a);
    EndScanned(c, k, a);
    steps := CompareScanned(c, k, a);
    First(c, s, SelectStep(k, a), s1, steps, s2);
    steps, t := Then(c, s, [SelectStep(k, a)] + steps, s2, EndScanOf(k));
  }

  lemma AllScanned(c: Config, k: Key)
    requires k.table in c.tables
    ensures var start: map<TableName, Scan> := map t | t in c.tables :: Scan(0, false);
            Finishing(start[k.table := Scan(k.pk, true)], Others(c, k)) == Scanned(c, k)
  {
  }

  function EndScanOf(k: Key): Step {
    ScanTable(if k.pk < TWO_64 - 1 then SelectNothing(k.table) else ReachEnd(k.table))
  }

  lemma SelectOne(c: Config, s: State, k: Key)
    requires Init(c, s) && c.pageSize >= 1 && InRange(c, k)
    requires s.source.Keys == {k} && Selects(c.filter, k, s.source[k])
    ensures var step := SelectPage(k.table, s.source, k.pk);
            && ScanEnabled(c, s, step)
            && ScanApply(c, s, step) == s.(scans := s.scans[k.table := Scan(k.pk, false)], pending := {k})
  {
    PageOfOne(c, s.source, k);
  }

  lemma EndOne(c: Config, s: State, k: Key)
    requires s.phase.Scanning? && Settled(s) && k.table in s.scans && s.scans[k.table] == Scan(k.pk, false)
    requires c.pageSize >= 1 && InRange(c, k)
    requires s.source.Keys == {k} && Selects(c.filter, k, s.source[k])
    ensures Enabled(c, s, EndScanOf(k))
    ensures Apply(c, s, EndScanOf(k)) == s.(scans := s.scans[k.table := Scan(k.pk, true)])
  {
    PageOfOne(c, s.source, k);
  }

  lemma PageOfOne(c: Config, db: Database, k: Key)
    requires db.Keys == {k} && c.pageSize >= 1 && k.pk >= 1 && Selects(c.filter, k, db[k])
    ensures Protocol.IsPage(c.filter, db, k.table, 0, c.pageSize, db)
    ensures Protocol.IsPage(c.filter, db, k.table, k.pk, c.pageSize, map[])
  {
    assert |db| == |db.Keys|;
  }

  // ---- what escapes --------------------------------------------------------

  /**
   A missed row does escape: it is changed or deleted on the target after a comparison that
   matched, with no delivery after it.
   */
  lemma MissedRowEscapes(c: Config, k: Key, a: Row, b: Option<Row>) returns (s: State, steps: seq<Step>, t: State)
    requires c.pageSize >= 1 && InRange(c, k) && Selects(c.filter, k, a)
    requires b.Some? ==> Fingerprint(c.md5, a) != Fingerprint(c.md5, b.value)
    ensures Init(c, s) && Runs(c, s, steps, t) && t.phase == Reported(true)
    ensures Relevant(c, t, k) && t.missed == {k} && !Agrees(c, t, k)
  {
    s := StartWith(c, k, a);
    steps, t := ScanOne(c, k, a);
    steps, t := Then(c, s, steps, t, World(ChangeTarget(k, b)));
    steps, t := Then(c, s, steps, t, Advance(StartCutover));
    steps, t := Then(c, s, steps, t, Advance(Report(true)));
  }

  /** Some row under this key would be one the verifier answers for. */
  predicate Answers(c: Config, k: Key) {
    InRange(c, k) && (c.filter.Everything? || k.table in c.filter.columns)
  }

  /** A row under this key that the filter selects. */
  function SelectedRow(f: Filter, k: Key): (row: Row)
    requires f.Shard? ==> k.table in f.columns
    ensures Selects(f, k, row)
  {
    match f
    case Everything => []
    case Shard(columns, value) => seq(columns[k.table].index, _ => Null) + [Number(value)]
  }

  ghost predicate Correct(c: Config, s: State, steps: seq<Step>, t: State) {
    Init(c, s) && Runs(c, s, steps, t) && t.phase == Reported(true)
  }

  ghost predicate AllAgree(c: Config, t: State) {
    forall k :: Relevant(c, t, k) ==> Agrees(c, t, k)
  }

  ghost predicate MissedWithin(c: Config, t: State, may: set<Key>) {
    forall k :: Relevant(c, t, k) && k in t.missed ==> k in may
  }

  /** A verdict of correct means that all is well in every run that misses none but these of the rows that matter. */
  ghost predicate AlwaysTrusted(c: Config, may: set<Key>) {
    forall s, steps, t :: Correct(c, s, steps, t) && MissedWithin(c, t, may) ==> AllAgree(c, t)
  }

  /**
   When a verdict of correct can be trusted in full: exactly if the rows that may be missed
   are none of those the verifier answers for.
   */
  lemma TrustedIffNoneMissed(c: Config, may: set<Key>)
    requires c.pageSize >= 1
    ensures AlwaysTrusted(c, may) <==> forall k :: k in may ==> !Answers(c, k)
  {
    if forall k :: k in may ==> !Answers(c, k) {
      forall s, steps, t | Correct(c, s, steps, t) && MissedWithin(c, t, may) ensures AllAgree(c, t) {
        forall k | Relevant(c, t, k) ensures Agrees(c, t, k) {
          assert Answers(c, k);
          VerdictIsSound(c, s, steps, t, k);
        }
      }
    } else {
      var k :| k in may && Answers(c, k);
      var s, steps, t := MissedRowEscapes(c, k, SelectedRow(c.filter, k), None);
      assert Correct(c, s, steps, t) && MissedWithin(c, t, may) && !AllAgree(c, t);
    }
  }

  /**
   The usual order is no exception: a row changed on the source, delivered, and only then
   changed on the target waits in the store, and the cutover compares it.
   */
  lemma UsualOrderIsCompared(c: Config, k: Key, a: Row, b: Row) returns (s: State, steps: seq<Step>, t: State)
    requires c.pageSize >= 1 && InRange(c, k) && Selects(c.filter, k, a)
    ensures Init(c, s) && Runs(c, s, steps, t) && t.phase.Cutover?
    ensures Lookup(t.source, k) == Lookup(t.target, k) == Some(b) && t.missed == {} && t.pending == {k}
  {
    s := StartWith(c, k, a);
    steps, t := ScanOne(c, k, a);
    steps, t := Then(c, s, steps, t, World(ChangeSource(k, Some(b))));
    steps, t := Then(c, s, steps, t, World(Deliver(k)));
    steps, t := Then(c, s, steps, t, World(ChangeTarget(k, Some(b))));
    steps, t := Then(c, s, steps, t, Advance(StartCutover));
  }
}

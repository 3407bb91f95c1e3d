/**
 What the verifier's verdict is worth: it is sound, its alarms are real, and what it does
 not look at.
 */
module VerifierSoundness {
  import opened Rows
  import opened CopyFilter
  import opened Fingerprints
  import opened Verification
  import Protocol

  lemma ChangeKeeps(c: Config, s: State, step: WorldStep)
    requires RowsOk(c, s) && ChecksOk(c, s) && !step.Deliver?
    ensures RowsOk(c, WorldApply(c, s, step)) && ChecksOk(c, WorldApply(c, s, step))
  {
    var s' := WorldApply(c, s, step);
    forall k | k != step.key
      ensures Relevant(c, s', k) == Relevant(c, s, k)
      ensures PrintOf(c, s'.source, k) == PrintOf(c, s.source, k) && PrintOf(c, s'.target, k) == PrintOf(c, s.target, k)
    {
    }
    forall k | Relevant(c, s', k) ensures RowOk(c, s', k) {
      if k != step.key {
        assert RowOk(c, s, k);
      }
    }
    forall k | k in s'.checks ensures CheckOk(c, s', k) {
      assert CheckOk(c, s, k);
    }
  }

  lemma DeliverKeeps(c: Config, s: State, key: Key)
    requires RowsOk(c, s) && ChecksOk(c, s) && KeysOk(c, s)
    ensures RowsOk(c, WorldApply(c, s, Deliver(key))) && ChecksOk(c, WorldApply(c, s, Deliver(key)))
  {
    var s' := WorldApply(c, s, Deliver(key));
    forall k | Relevant(c, s', k) ensures RowOk(c, s', k) {
      assert Relevant(c, s, k);
      assert RowOk(c, s, k);
    }
    forall k | k in s'.checks ensures CheckOk(c, s', k) {
      assert CheckOk(c, s, k);
    }
  }

  lemma WorldKeeps(c: Config, s: State, step: WorldStep)
    requires Inv(c, s) && WorldEnabled(s, step)
    ensures Inv(c, WorldApply(c, s, step))
  {
    if step.Deliver? {
      DeliverKeeps(c, s, step.key);
    } else {
      ChangeKeeps(c, s, step);
    }
  }

  /** A page leaves out no matching row up to its position. */
  lemma PageTakes(f: Filter, db: Database, t: TableName, last: nat, size: nat, page: Database, position: nat, k: Key)
    requires Protocol.IsPage(f, db, t, last, size, page) && Key(t, position) in page
    requires Protocol.Matching(f, db, t, last, k) && k.pk <= position
    ensures k in page
  {
  }

  lemma PageKeepsRow(c: Config, s: State, step: ScanStep, k: Key)
    requires step.SelectPage? && ScanEnabled(c, s, step) && Relevant(c, s, k) && RowOk(c, s, k)
    ensures RowOk(c, ScanApply(c, s, step), k)
  {
    var t := step.table;
    var last := s.scans[t].last;
    if k.table == t && last < k.pk && k.pk <= step.position {
      assert Protocol.Matching(c.filter, s.source, t, last, k);
      PageTakes(c.filter, s.source, t, last, c.pageSize, step.page, step.position, k);
    }
  }

  lemma EndKeepsRow(c: Config, s: State, step: ScanStep, k: Key)
    requires !step.SelectPage? && ScanEnabled(c, s, step) && Relevant(c, s, k) && RowOk(c, s, k) && c.pageSize >= 1
    ensures RowOk(c, ScanApply(c, s, step), k)
  {
    if step.SelectNothing? {
      NothingMatches(c.filter, s.source, step.table, s.scans[step.table].last, c.pageSize, k);
    }
  }

  /** An empty page leaves nothing to be found. */
  lemma NothingMatches(f: Filter, db: Database, t: TableName, last: nat, size: nat, k: Key)
    requires Protocol.IsPage(f, db, t, last, size, map[]) && size >= 1
    ensures !Protocol.Matching(f, db, t, last, k)
  {
  }

  lemma ScanKeeps(c: Config, s: State, step: ScanStep)
    requires Inv(c, s) && ScanEnabled(c, s, step) && c.pageSize >= 1
    ensures Inv(c, ScanApply(c, s, step))
  {
    var s' := ScanApply(c, s, step);
    forall k | Relevant(c, s', k) ensures RowOk(c, s', k) {
      assert Relevant(c, s, k);
      if step.SelectPage? {
        PageKeepsRow(c, s, step, k);
      } else {
        EndKeepsRow(c, s, step, k);
      }
    }
    forall k | k in s'.checks ensures CheckOk(c, s', k) {
      assert CheckOk(c, s, k);
    }
    forall k | k in s'.pending ensures !Ignored(c, k) {
      if k !in s.pending {
        assert Protocol.Matching(c.filter, s.source, step.table, s.scans[step.table].last, k);
      }
    }
  }

  lemma CheckKeepsStale(c: Config, s: State, step: CheckStep)
    requires CheckEnabled(s, step) && StaleOk(s)
    ensures StaleOk(CheckApply(c, s, step))
  {
    var s' := CheckApply(c, s, step);
    if !BeforeCutover(s) {
      forall k ensures OnlyMissedStale(s', k) {
        assert OnlyMissedStale(s, k);
      }
    }
  }

  lemma CheckKeepsOthers(c: Config, s: State, step: CheckStep)
    requires CheckEnabled(s, step) && RowsOk(c, s) && ChecksOk(c, s) && KeysOk(c, s) && PhaseOk(c, s) && ReadsTrue(c, s)
    requires !step.Conclude?
    ensures Inv(c, CheckApply(c, s, step))
  {
    var s' := CheckApply(c, s, step);
    forall k | Relevant(c, s', k) ensures RowOk(c, s', k) {
      assert Relevant(c, s, k);
      assert RowOk(c, s, k);
    }
    forall k | k in s'.checks ensures CheckOk(c, s', k) {
      assert k in s.checks ==> CheckOk(c, s, k);
    }
    CheckKeepsStale(c, s, step);
    if s.failed {
      var k :| !Ignored(c, k) && !Agrees(c, s, k);
      assert !Agrees(c, s', k);
    }
  }

  /** A comparison that finds no difference leaves a row that is the same now, or will be looked at again. */
  lemma ConcludeKeepsRow(c: Config, s: State, key: Key, k: Key)
    requires CheckEnabled(s, Conclude(key)) && ChecksOk(c, s) && RowOk(c, s, k)
    ensures RowOk(c, CheckApply(c, s, Conclude(key)), k)
  {
    assert CheckOk(c, s, key);
  }

  lemma ConcludeKeeps(c: Config, s: State, key: Key)
    requires CheckEnabled(s, Conclude(key)) && Inv(c, s)
    ensures Inv(c, CheckApply(c, s, Conclude(key)))
  {
    var s' := CheckApply(c, s, Conclude(key));
    forall k | Relevant(c, s', k) ensures RowOk(c, s', k) {
      assert Relevant(c, s, k);
      ConcludeKeepsRow(c, s, key, k);
    }
    forall k | k in s'.checks ensures CheckOk(c, s', k) {
      assert CheckOk(c, s, k);
    }
    ConcludeKeepsPhase(c, s, key);
  }

  lemma ConcludeKeepsPhase(c: Config, s: State, key: Key)
    requires CheckEnabled(s, Conclude(key)) && KeysOk(c, s) && PhaseOk(c, s) && ReadsTrue(c, s)
    ensures PhaseOk(c, CheckApply(c, s, Conclude(key)))
  {
    var s' := CheckApply(c, s, Conclude(key));
    CheckKeepsStale(c, s, Conclude(key));
    assert forall k :: Relevant(c, s', k) == Relevant(c, s, k) && Agrees(c, s', k) == Agrees(c, s, k);
    if s'.failed && !s.failed {
      assert !Ignored(c, key) && !Agrees(c, s', key);
    }
  }

  lemma FlushKeeps(c: Config, s: State, step: PhaseStep)
    requires Inv(c, s) && PhaseEnabled(c, s, step)
    ensures RowsOk(c, PhaseApply(s, step)) && ChecksOk(c, PhaseApply(s, step)) && KeysOk(c, PhaseApply(s, step))
  {
    var s' := PhaseApply(s, step);
    forall k | Relevant(c, s', k) ensures RowOk(c, s', k) {
      assert Relevant(c, s, k);
      assert RowOk(c, s, k);
    }
    forall k | k in s'.checks ensures CheckOk(c, s', k) {
      assert CheckOk(c, s, k);
    }
  }

  lemma PhaseKeepsStale(c: Config, s: State, step: PhaseStep)
    requires PhaseEnabled(c, s, step) && StaleOk(s)
    ensures StaleOk(PhaseApply(s, step))
  {
    var s' := PhaseApply(s, step);
    forall k ensures !BeforeCutover(s') ==> OnlyMissedStale(s', k) {
      assert !BeforeCutover(s) ==> OnlyMissedStale(s, k);
    }
  }

  lemma PhaseKeeps(c: Config, s: State, step: PhaseStep)
    requires Inv(c, s) && PhaseEnabled(c, s, step)
    ensures Inv(c, PhaseApply(s, step))
  {
    var s' := PhaseApply(s, step);
    FlushKeeps(c, s, step);
    PhaseKeepsStale(c, s, step);
    assert forall k :: Relevant(c, s', k) == Relevant(c, s, k);
    if s.failed {
      var k :| !Ignored(c, k) && !Agrees(c, s, k);
      assert !Agrees(c, s', k);
    }
  }

  lemma StepKeeps(c: Config, s: State, step: Step)
    requires Inv(c, s) && Enabled(c, s, step) && c.pageSize >= 1
    ensures Inv(c, Apply(c, s, step))
  {
    match step
    case World(a) => WorldKeeps(c, s, a);
    case ScanTable(a) => ScanKeeps(c, s, a);
    case Compare(a) =>
      if a.Conclude? {
        ConcludeKeeps(c, s, a.key);
      } else {
        CheckKeepsOthers(c, s, a);
      }
    case Advance(a) => PhaseKeeps(c, s, a);
  }

  lemma {:induction false} RunKeeps(c: Config, s: State, steps: seq<Step>, t: State)
    requires Inv(c, s) && Runs(c, s, steps, t) && c.pageSize >= 1
    ensures Inv(c, t)
    decreases |steps|
  {
    if steps != [] {
      StepKeeps(c, s, steps[0]);
      RunKeeps(c, Apply(c, s, steps[0]), steps[1..], t);
    }
  }

  lemma InitInv(c: Config, s: State)
    requires Init(c, s)
    ensures Inv(c, s)
  {
    forall k | Relevant(c, s, k) ensures RowOk(c, s, k) {
      assert Unscanned(s, k);
    }
  }

  /**
   Soundness: after a verdict of correct, every row that matters has the same fingerprint
   on both sides, unless it was missed: changed on one side after that side was last read for
   a comparison, with no delivery since, and not in the store for another reason either.
   */
  lemma VerdictIsSound(c: Config, s: State, steps: seq<Step>, t: State, k: Key)
    requires Init(c, s) && c.pageSize >= 1 && Runs(c, s, steps, t) && t.phase == Reported(true)
    requires Relevant(c, t, k) && k !in t.missed
    ensures Agrees(c, t, k) && k in t.target
  {
    InitInv(c, s);
    RunKeeps(c, s, steps, t);
    assert RowOk(c, t, k) && OnlyMissedStale(t, k);
  }

  /** An alarm in the cutover is real: some row of a table that is not ignored does differ. */
  lemma AlarmIsReal(c: Config, s: State, steps: seq<Step>, t: State)
    requires Init(c, s) && c.pageSize >= 1 && Runs(c, s, steps, t) && t.phase == Reported(false)
    ensures SomeDiffers(c, t)
  {
    InitInv(c, s);
    RunKeeps(c, s, steps, t);
  }

  /** Soundness in terms of values: unless the hash collides, only NULL and 'NULL' can be mistaken for each other. */
  lemma VerifiedRowsMatch(c: Config, s: State, steps: seq<Step>, t: State, k: Key, i: nat)
    requires Init(c, s) && c.pageSize >= 1 && Runs(c, s, steps, t) && t.phase == Reported(true)
    requires Relevant(c, t, k) && k !in t.missed && k in t.target && |t.target[k]| == |t.source[k]| && i < |t.source[k]|
    requires IsHash(c.md5) && CollisionFree(c.md5, Hashed(c.md5, t.source[k]) + Hashed(c.md5, t.target[k]))
    requires SameColumn(t.source[k][i], t.target[k][i])
    ensures t.source[k][i] == t.target[k][i] || NullTwins(t.source[k][i], t.target[k][i])
  {
    VerdictIsSound(c, s, steps, t, k);
    FingerprintIsExact(c.md5, t.source[k], t.target[k]);
    ShownIsExact(t.source[k][i], t.target[k][i]);
  }

  /** The steps of a run that finds no key to scan in its one table. */
  function IdleSteps(t: TableName): seq<Step> {
    [ScanTable(SelectNothing(t)), Advance(EndScan), Advance(StartCutover), Advance(Report(true))]
  }

  /**
   Only the keys of the source above 0 are scanned: if there are none, the verdict is
   correct whatever the target holds.
   */
  lemma NothingToScan(c: Config, s: State, t: TableName)
    requires Init(c, s) && c.pageSize >= 1 && c.tables == {t} && t.name !in c.ignored
    requires forall k :: k in s.source && k.table == t ==> k.pk == 0
    ensures Runs(c, s, IdleSteps(t), s.(scans := map[t := Scan(0, true)], phase := Reported(true)))
  {
    assert ScanEnabled(c, s, SelectNothing(t));
    var s1 := ScanApply(c, s, SelectNothing(t));
    var s2 := s1.(phase := Reverifying);
    var s3 := s2.(phase := Cutover);
    var s4 := s3.(phase := Reported(true));
    assert s1.scans == map[t := Scan(0, true)];
    var steps := IdleSteps(t);
    assert steps[1..][0] == Advance(EndScan) && steps[1..][1..][0] == Advance(StartCutover);
    assert steps[1..][1..][1..] == [Advance(Report(true))];
    assert Runs(c, s3, [Advance(Report(true))], s4);
    assert Runs(c, s2, steps[1..][1..], s4);
    assert Runs(c, s1, steps[1..], s4);
  }

  /** Every extra row on the target goes unnoticed, and so does every missing row with key 0. */
  lemma Unnoticed(c: Config, t: TableName, pk: nat, row: Row)
    requires c.pageSize >= 1 && c.tables == {t} && t.name !in c.ignored
    ensures exists s, steps, q :: Init(c, s) && s.source == map[] && s.target == map[Key(t, pk) := row]
                                  && Runs(c, s, steps, q) && q.phase == Reported(true) && !Agrees(c, q, Key(t, pk))
    ensures exists s, steps, q :: Init(c, s) && s.source == map[Key(t, 0) := row] && s.target == map[]
                                  && Runs(c, s, steps, q) && q.phase == Reported(true) && !Agrees(c, q, Key(t, 0))
  {
    var s := State(map[], map[Key(t, pk) := row], map[t := Scan(0, false)], {}, {}, map[], {}, {}, {}, Scanning, false);
    NothingToScan(c, s, t);
    var q := s.(scans := map[t := Scan(0, true)], phase := Reported(true));
    assert Runs(c, s, IdleSteps(t), q) && !Agrees(c, q, Key(t, pk));
    var s' := s.(source := map[Key(t, 0) := row], target := map[]);
    NothingToScan(c, s', t);
    var q' := s'.(scans := map[t := Scan(0, true)], phase := Reported(true));
    assert Runs(c, s', IdleSteps(t), q') && !Agrees(c, q', Key(t, 0));
  }
}

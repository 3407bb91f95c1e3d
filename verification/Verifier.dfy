/**
 The iterative verifier as a state machine. While source and target keep changing it
 scans the source's keys, compares fingerprints, and keeps a store of rows to compare
 again, to which the binlog listener adds every row it hears of; in the cutover it
 compares what is in the store and gives its verdict.

 One comparison takes several steps: it begins, reads the source's fingerprint, reads the
 target's, and concludes. The program reads the fingerprints of a whole batch at once,
 which is one of the interleavings of reading them row by row.
 */
module Verification {
  import opened Rows
  import opened CopyFilter
  import opened Fingerprints
  import Protocol

  datatype Config = Config(
    filter: Filter, tables: set<TableName>, ignored: set<string>, pageSize: nat, md5: string -> string)

  datatype Scan = Scan(last: nat, finished: bool)

  /** A comparison under way, with the fingerprints read so far. */
  datatype Check = Check(source: Option<Option<string>>, target: Option<Option<string>>)

  datatype Phase = Scanning | Reverifying | Cutover | Reported(correct: bool)

  /**
   `pending` are the rows handed out but not yet begun. `staleSource` are the rows changed on
   the source that have neither been delivered to the listener nor read from the source for
   a comparison since, `staleTarget` likewise for the target; `missed` are those of them that
   were not in the store when the cutover began, and so are not looked at again. `failed`
   says that a row mismatched in the cutover.
   */
  datatype State = State(
    source: Database, target: Database, scans: map<TableName, Scan>,
    store: set<Key>, pending: set<Key>, checks: map<Key, Check>,
    staleSource: set<Key>, staleTarget: set<Key>, missed: set<Key>, phase: Phase, failed: bool)

  datatype WorldStep =
    | ChangeSource(key: Key, row: Option<Row>)
    | ChangeTarget(key: Key, row: Option<Row>)
    | Deliver(key: Key)

  datatype ScanStep =
    | SelectPage(table: TableName, page: Database, position: nat)
    | SelectNothing(table: TableName)
    | ReachEnd(table: TableName)

  datatype CheckStep = Begin(key: Key) | ReadSource(key: Key) | ReadTarget(key: Key) | Conclude(key: Key)

  datatype PhaseStep = EndScan | Flush | StartCutover | Report(correct: bool)

  datatype Step =
    | World(world: WorldStep)
    | ScanTable(scan: ScanStep)
    | Compare(check: CheckStep)
    | Advance(phase: PhaseStep)

  predicate Ignored(c: Config, k: Key) {
    k.table.name in c.ignored
  }

  function PrintOf(c: Config, db: Database, k: Key): Option<string> {
    if k in db then Some(Fingerprint(c.md5, db[k])) else None
  }

  /** Rows the verifier answers for: keys are unsigned 64-bit numbers, and the scan starts above 0. */
  predicate Relevant(c: Config, s: State, k: Key) {
    && k in s.source && Selects(c.filter, k, s.source[k])
    && k.table in c.tables && !Ignored(c, k) && 1 <= k.pk < TWO_64
  }

  predicate BeforeCutover(s: State) {
    s.phase.Scanning? || s.phase.Reverifying?
  }

  predicate Settled(s: State) {
    s.pending == {} && s.checks == map[]
  }

  predicate WorldEnabled(s: State, step: WorldStep) {
    BeforeCutover(s)
  }

  function WorldApply(c: Config, s: State, step: WorldStep): State {
    match step
    case ChangeSource(k, row) => s.(source := Store(s.source, k, row), staleSource := s.staleSource + {k})
    case ChangeTarget(k, row) => s.(target := Store(s.target, k, row), staleTarget := s.staleTarget + {k})
    case Deliver(k) =>
      s.(staleSource := s.staleSource - {k}, staleTarget := s.staleTarget - {k},
         store := if Ignored(c, k) then s.store else s.store + {k})
  }

  /** The next page is selected when the last one has been compared. */
  ghost predicate ScanEnabled(c: Config, s: State, step: ScanStep) {
    var t := step.table;
    && s.phase.Scanning? && t in s.scans && !s.scans[t].finished && t.name !in c.ignored
    && (forall k :: k in s.pending || k in s.checks ==> k.table != t)
    && var last := s.scans[t].last;
       match step
       case SelectPage(_, page, position) =>
         && last < TWO_64 - 1
         && Protocol.IsPage(c.filter, s.source, t, last, c.pageSize, page) && Key(t, position) in page
       case SelectNothing(_) =>
         last < TWO_64 - 1 && Protocol.IsPage(c.filter, s.source, t, last, c.pageSize, map[])
       case ReachEnd(_) => last >= TWO_64 - 1
  }

  ghost function ScanApply(c: Config, s: State, step: ScanStep): State
    requires ScanEnabled(c, s, step)
  {
    var t := step.table;
    match step
    case SelectPage(_, page, position) =>
      s.(scans := s.scans[t := Scan(position, false)], pending := s.pending + page.Keys)
    case SelectNothing(_) => s.(scans := s.scans[t := s.scans[t].(finished := true)])
    case ReachEnd(_) => s.(scans := s.scans[t := s.scans[t].(finished := true)])
  }

  predicate CheckEnabled(s: State, step: CheckStep) {
    match step
    case Begin(k) => k in s.pending && !s.phase.Reported?
    case ReadSource(k) => k in s.checks
    case ReadTarget(k) => k in s.checks
    case Conclude(k) => k in s.checks && s.checks[k].source.Some? && s.checks[k].target.Some?
  }

  function CheckApply(c: Config, s: State, step: CheckStep): State
    requires CheckEnabled(s, step)
  {
    match step
    case Begin(k) => s.(pending := s.pending - {k}, checks := s.checks[k := Check(None, None)])
    case ReadSource(k) =>
      s.(checks := s.checks[k := s.checks[k].(source := Some(PrintOf(c, s.source, k)))],
         staleSource := s.staleSource - {k})
    case ReadTarget(k) =>
      s.(checks := s.checks[k := s.checks[k].(target := Some(PrintOf(c, s.target, k)))],
         staleTarget := s.staleTarget - {k})
    case Conclude(k) =>
      var s' := s.(checks := s.checks - {k});
      if s.checks[k].source.value == s.checks[k].target.value then s'
      else if BeforeCutover(s) then s'.(store := s.store + {k})
      else s'.(failed := true)
  }

  ghost predicate PhaseEnabled(c: Config, s: State, step: PhaseStep) {
    match step
    case EndScan =>
      && s.phase.Scanning? && Settled(s)
      && forall t :: t in c.tables && t.name !in c.ignored ==> t in s.scans && s.scans[t].finished
    case Flush => s.phase.Reverifying? && Settled(s)
    case StartCutover => s.phase.Reverifying? && Settled(s)
    case Report(correct) => s.phase.Cutover? && if correct then Settled(s) && !s.failed else s.failed
  }

  function PhaseApply(s: State, step: PhaseStep): State {
    match step
    case EndScan => s.(phase := Reverifying)
    case Flush => s.(pending := s.store, store := {})
    case StartCutover =>
      s.(phase := Cutover, pending := s.store, store := {}, missed := s.staleSource + s.staleTarget - s.store)
    case Report(correct) => s.(phase := Reported(correct))
  }

  ghost predicate Enabled(c: Config, s: State, step: Step) {
    match step
    case World(a) => WorldEnabled(s, a)
    case ScanTable(a) => ScanEnabled(c, s, a)
    case Compare(a) => CheckEnabled(s, a)
    case Advance(a) => PhaseEnabled(c, s, a)
  }

  ghost function Apply(c: Config, s: State, step: Step): State
    requires Enabled(c, s, step)
  {
    match step
    case World(a) => WorldApply(c, s, a)
    case ScanTable(a) => ScanApply(c, s, a)
    case Compare(a) => CheckApply(c, s, a)
    case Advance(a) => PhaseApply(s, a)
  }

  /** The listener has just been attached. Source and target may hold anything. */
  ghost predicate Init(c: Config, s: State) {
    && s.store == {} && Settled(s) && s.staleSource == s.staleTarget == s.missed == {} && s.phase.Scanning? && !s.failed
    && s.scans.Keys == c.tables
    && forall t :: t in s.scans ==> s.scans[t] == Scan(0, false)
  }

  ghost predicate Runs(c: Config, s: State, steps: seq<Step>, t: State)
    decreases |steps|
  {
    if steps == [] then s == t
    else Enabled(c, s, steps[0]) && Runs(c, Apply(c, s, steps[0]), steps[1..], t)
  }

  // The invariant.

  predicate Unscanned(s: State, k: Key) {
    k.table in s.scans && !s.scans[k.table].finished && s.scans[k.table].last < k.pk
  }

  predicate Agrees(c: Config, s: State, k: Key) {
    PrintOf(c, s.source, k) == PrintOf(c, s.target, k)
  }

  /** A row that matters is still to be looked at, or is the same on both sides. */
  predicate RowOk(c: Config, s: State, k: Key) {
    || Unscanned(s, k) || k in s.store || k in s.pending || k in s.checks
    || k in s.staleSource || k in s.staleTarget || Agrees(c, s, k) || s.failed
  }

  ghost predicate RowsOk(c: Config, s: State) {
    forall k :: Relevant(c, s, k) ==> RowOk(c, s, k)
  }

  /** What has been read is still true, or the row will be looked at again. */
  predicate CheckOk(c: Config, s: State, k: Key)
    requires k in s.checks
  {
    || k in s.store
    || (&& (s.checks[k].source.Some? ==> s.checks[k].source.value == PrintOf(c, s.source, k) || k in s.staleSource)
        && (s.checks[k].target.Some? ==> s.checks[k].target.value == PrintOf(c, s.target, k) || k in s.staleTarget))
  }

  ghost predicate ChecksOk(c: Config, s: State) {
    forall k :: k in s.checks ==> CheckOk(c, s, k)
  }

  ghost predicate KeysOk(c: Config, s: State) {
    && s.scans.Keys == c.tables
    && (forall k :: k in s.store || k in s.checks ==> !Ignored(c, k))
    && (forall k :: k in s.pending ==> !Ignored(c, k))
  }

  ghost predicate ScannedAll(c: Config, s: State) {
    forall t :: t in c.tables && t.name !in c.ignored ==> t in s.scans && s.scans[t].finished
  }

  ghost predicate SomeDiffers(c: Config, s: State) {
    exists k :: !Ignored(c, k) && !Agrees(c, s, k)
  }

  /** In the cutover a row that is stale was missed, or its turn to be read is still to come. */
  predicate OnlyMissedStale(s: State, k: Key) {
    || k in s.missed || k in s.pending
    || (&& (k in s.staleSource ==> k in s.checks && s.checks[k].source.None?)
        && (k in s.staleTarget ==> k in s.checks && s.checks[k].target.None?))
  }

  ghost predicate StaleOk(s: State) {
    !BeforeCutover(s) ==> forall k :: OnlyMissedStale(s, k)
  }

  ghost predicate PhaseOk(c: Config, s: State) {
    && (!s.phase.Scanning? ==> ScannedAll(c, s))
    && (BeforeCutover(s) ==> !s.failed)
    && (!BeforeCutover(s) ==> s.store == {}) && StaleOk(s)
    && (s.failed ==> SomeDiffers(c, s))
    && (s.phase.Reported? ==> if s.phase.correct then Settled(s) && !s.failed else s.failed)
  }

  /** In the cutover nothing changes any more, so what has been read is true. */
  ghost predicate ReadsTrue(c: Config, s: State) {
    !BeforeCutover(s) ==> forall k :: k in s.checks ==>
      && (s.checks[k].source.Some? ==> s.checks[k].source.value == PrintOf(c, s.source, k))
      && (s.checks[k].target.Some? ==> s.checks[k].target.value == PrintOf(c, s.target, k))
  }

  ghost predicate Inv(c: Config, s: State) {
    RowsOk(c, s) && ChecksOk(c, s) && KeysOk(c, s) && PhaseOk(c, s) && ReadsTrue(c, s)
  }

}

/**
 One run of the ferry as a state machine: the application writing to the source, the
 table iterators copying locked pages, the streamer reading the binlog, the writer
 replaying batches of changes on the target, and the coordinator cutting over.

 Every `Step` is one action of one activity, so a sequence of steps is an interleaving.
 A step that fails and is retried without a trace is not a step; a run that ends in a
 fatal error simply stops.
 */
module Protocol {
  import opened Rows
  import opened Binlog
  import opened CopyFilter

  /**
   The three flags are orderings the program is careful about. All three hold in the
   program; module Races shows what each of them prevents.
   */
  datatype Config = Config(
    filter: Filter,
    pageSize: nat,          // rows per SELECT
    batchSize: nat,         // changes per replayed transaction, and capacity of the channel
    rowLock: bool,          // pages are selected FOR UPDATE
    recordFirst: bool,      // the stop position is recorded before the stop is requested
    connectFirst: bool)     // the start position is fixed before the largest key is read

  predicate AsWritten(c: Config) {
    c.pageSize >= 1 && c.batchSize >= 1 && c.rowLock && c.recordFirst && c.connectFirst
  }

  /**
   Copying one table. `page` is the page being held, `position` the key of the row that
   came last in it, `copied` the rows of it the target has accepted.
   */
  datatype Iteration =
    | Waiting
    | Scanning(max: nat, last: nat)
    | Holding(max: nat, last: nat, page: Database, position: nat, copied: set<Key>)
    | Finished

  /** `pending` is what is left to push of the rows event being handled. */
  datatype Streamer = Streamer(position: Position, index: nat, pending: Option<seq<Change>>, running: bool)

  /** `applied` is what earlier batches wrote; `next` the statement of `batch` to execute. */
  datatype Writer = Writer(
    channel: seq<Change>, closed: bool,
    applied: seq<Change>, batch: seq<Change>, next: nat, writing: bool, running: bool)

  /** `stopIndex` remembers how long the log was when `stopPosition` was read. */
  datatype Cutover = Cutover(readonly: bool, recorded: bool, stopPosition: Position, stopIndex: nat, requested: bool)

  /**
   `log` is the binlog from the start position on, which is `origin`; `base` is the
   source as it was there.
   */
  datatype State = State(
    source: Database, target: Database,
    connected: bool, base: Database, origin: Position, log: seq<Entry>,
    tables: map<TableName, Iteration>,
    streamer: Streamer, writer: Writer, cutover: Cutover)

  /** The source server and its clients. */
  datatype SourceStep =
    | Write(changes: seq<Change>, logPos: nat)
    | LogOther(entry: Entry)

  /** The coordinator. */
  datatype FerryStep = Connect | SetReadonly | RecordStop | RequestStop

  /** The table iterators. */
  datatype CopyStep =
    | ReadMax(table: TableName, max: Option<nat>)
    | Select(table: TableName, page: Database, position: nat)
    | SelectNothing(table: TableName)
    | Insert(table: TableName, pk: nat)
    | Release(table: TableName)
    | Finish(table: TableName)

  /**
   The server opens with an event that is in no log: a rotation to the position it starts
   from. `ReadStart` handles it, and it may come more than once.
   */
  datatype StreamStep = ReadStart | Read | Push | Acknowledge | StopStreaming

  datatype WriteStep = Receive | BeginWrite | Statement | Retry | Commit | StopWriting

  datatype Step =
    | Source(source: SourceStep)
    | Ferry(ferry: FerryStep)
    | Copy(copy: CopyStep)
    | Stream(stream: StreamStep)
    | Replaying(write: WriteStep)

  function Here(s: State): Position {
    ServerPosition(s.origin, s.log)
  }

  /** Rows the copying transactions hold locked. */
  predicate Locked(s: State, k: Key) {
    k.table in s.tables && s.tables[k.table].Holding? && k in s.tables[k.table].page
  }

  ghost predicate Unlocked(s: State, es: seq<Change>) {
    forall i :: 0 <= i < |es| ==> !Locked(s, es[i].key)
  }

  function Append(s: State, e: Entry): State {
    if s.connected then s.(log := s.log + [e]) else s.(origin := EndOf(s.origin, e))
  }

  predicate RowCopyComplete(s: State) {
    forall t :: t in s.tables ==> s.tables[t].Finished?
  }

  /** No row of the table lies above `max`; `None` says that the table is empty. */
  ghost predicate IsMax(db: Database, t: TableName, max: Option<nat>) {
    forall k :: k in db && k.table == t ==> max.Some? && k.pk <= max.value
  }

  ghost predicate Matching(f: Filter, db: Database, t: TableName, last: nat, k: Key) {
    k in db && k.table == t && last < k.pk && Selects(f, k, db[k])
  }

  /** The `size` smallest matching rows above `last`, in whatever order. */
  ghost predicate IsPage(f: Filter, db: Database, t: TableName, last: nat, size: nat, page: Database) {
    && |page| <= size
    && (forall k :: k in page ==> Matching(f, db, t, last, k) && page[k] == db[k])
    && (forall k :: Matching(f, db, t, last, k) && k !in page ==>
          |page| == size && forall p :: p in page ==> p.pk < k.pk)
  }

  /** The condition of the streamer's loop. */
  predicate KeepsStreaming(s: State) {
    !s.cutover.requested || Less(s.streamer.position, s.cutover.stopPosition)
  }

  /** The lock stops the writes to the rows that are moved. Others, such as heartbeats, go on. */
  ghost predicate SourceEnabled(c: Config, s: State, step: SourceStep) {
    match step
    case Write(changes, logPos) =>
      && (s.cutover.readonly ==> Quiet(c.filter, s.tables.Keys, changes))
      && Consistent(s.source, changes)
      && (forall i :: 0 <= i < |changes| ==> changes[i].before.Some? || changes[i].after.Some?)
      && (c.rowLock ==> Unlocked(s, changes))
      && Less(Here(s), EndOf(Here(s), RowsEvent(changes, logPos)))
    case LogOther(entry) =>
      && !entry.RowsEvent?
      && Less(Here(s), EndOf(Here(s), entry))
  }

  function SourceApply(s: State, step: SourceStep): State {
    match step
    case Write(changes, logPos) =>
      var written := Replay(s.source, changes);
      var s' := Append(s, RowsEvent(changes, logPos)).(source := written);
      if s.connected then s' else s'.(base := written)
    case LogOther(entry) => Append(s, entry)
  }

  predicate FerryEnabled(c: Config, s: State, step: FerryStep) {
    match step
    case Connect => !s.connected
    case SetReadonly => s.connected && RowCopyComplete(s)
    case RecordStop => s.cutover.readonly && !s.cutover.recorded
    case RequestStop => s.cutover.readonly && (c.recordFirst ==> s.cutover.recorded)
  }

  function FerryApply(s: State, step: FerryStep): State {
    match step
    case Connect => s.(connected := true, streamer := s.streamer.(position := s.origin))
    case SetReadonly => s.(cutover := s.cutover.(readonly := true))
    case RecordStop =>
      s.(cutover := s.cutover.(recorded := true, stopPosition := Here(s), stopIndex := |s.log|))
    case RequestStop => s.(cutover := s.cutover.(requested := true))
  }

  ghost predicate CopyEnabled(c: Config, s: State, step: CopyStep) {
    var t := step.table;
    && t in s.tables
    && var it := s.tables[t];
       match step
       case ReadMax(_, max) => it.Waiting? && (c.connectFirst ==> s.connected) && IsMax(s.source, t, max)
       case Select(_, page, position) =>
         && it.Scanning? && it.last < it.max
         && IsPage(c.filter, s.source, t, it.last, c.pageSize, page)
         && Key(t, position) in page
       case SelectNothing(_) =>
         && it.Scanning? && it.last < it.max
         && IsPage(c.filter, s.source, t, it.last, c.pageSize, map[])
       case Insert(_, pk) => it.Holding? && Key(t, pk) in it.page
       case Release(_) => it.Holding? && it.copied == it.page.Keys
       case Finish(_) => it.Scanning? && it.max <= it.last
  }

  ghost function CopyApply(c: Config, s: State, step: CopyStep): State
    requires CopyEnabled(c, s, step)
  {
    var t := step.table;
    var it := s.tables[t];
    match step
    case ReadMax(_, max) => s.(tables := s.tables[t := if max.Some? then Scanning(max.value, 0) else Finished])
    case Select(_, page, position) => s.(tables := s.tables[t := Holding(it.max, it.last, page, position, {})])
    case SelectNothing(_) => s.(tables := s.tables[t := Finished])
    case Insert(_, pk) =>
      var k := Key(t, pk);
      s.(tables := s.tables[t := it.(copied := it.copied + {k})], target := InsertIgnore(s.target, k, it.page[k]))
    case Release(_) => s.(tables := s.tables[t := Scanning(it.max, it.position)])
    case Finish(_) => s.(tables := s.tables[t := Finished])
  }

  ghost predicate StreamEnabled(c: Config, s: State, step: StreamStep) {
    match step
    case ReadStart =>
      && s.connected && s.streamer.running && s.streamer.pending.None?
      && KeepsStreaming(s) && s.streamer.index == 0
    case Read =>
      && s.connected && s.streamer.running && s.streamer.pending.None?
      && KeepsStreaming(s) && s.streamer.index < |s.log|
      && !Aborts(c.filter, s.tables.Keys, EntryChanges(s.log[s.streamer.index]))
    case Push =>
      && s.streamer.pending.Some? && s.streamer.pending.value != []
      && |s.writer.channel| < c.batchSize
    case Acknowledge => s.streamer.pending == Some([]) && s.streamer.index < |s.log|
    case StopStreaming =>
      s.connected && s.streamer.running && s.streamer.pending.None? && !KeepsStreaming(s)
  }

  ghost function StreamApply(c: Config, s: State, step: StreamStep): State
    requires StreamEnabled(c, s, step)
  {
    var r := s.streamer;
    match step
    case ReadStart => s.(streamer := r.(position := s.origin))
    case Read =>
      var e := s.log[r.index];
      if e.RowsEvent? then
        s.(streamer := r.(pending := Some(Applicable(c.filter, s.tables.Keys, e.changes))))
      else
        s.(streamer := r.(position := Remember(r.position, e), index := r.index + 1))
    case Push =>
      s.(streamer := r.(pending := Some(r.pending.value[1..])),
         writer := s.writer.(channel := s.writer.channel + [r.pending.value[0]]))
    case Acknowledge =>
      s.(streamer := r.(position := Remember(r.position, s.log[r.index]), index := r.index + 1, pending := None))
    case StopStreaming =>
      s.(streamer := r.(running := false), writer := s.writer.(closed := true))
  }

  predicate WriteEnabled(c: Config, w: Writer, step: WriteStep) {
    match step
    case Receive => w.running && !w.writing && w.channel != [] && |w.batch| < c.batchSize
    case BeginWrite =>
      w.running && !w.writing && w.batch != [] && (|w.batch| == c.batchSize || w.channel == [])
    case Statement => w.writing && w.next < |w.batch|
    case Retry => w.writing
    case Commit => w.writing && w.next == |w.batch|
    case StopWriting => w.running && !w.writing && w.closed && w.channel == [] && w.batch == []
  }

  function WriterApply(c: Config, w: Writer, step: WriteStep): Writer
    requires WriteEnabled(c, w, step)
  {
    match step
    case Receive => w.(batch := w.batch + [w.channel[0]], channel := w.channel[1..])
    case BeginWrite => w.(writing := true, next := 0)
    case Statement => w.(next := w.next + 1)
    case Retry => w.(next := 0)
    case Commit => w.(applied := w.applied + w.batch, batch := [], next := 0, writing := false)
    case StopWriting => w.(running := false)
  }

  function WriteApply(c: Config, s: State, step: WriteStep): State
    requires WriteEnabled(c, s.writer, step)
  {
    var s' := s.(writer := WriterApply(c, s.writer, step));
    if step.Statement? then s'.(target := Cas(s.target, s.writer.batch[s.writer.next])) else s'
  }

  ghost predicate Enabled(c: Config, s: State, step: Step) {
    match step
    case Source(a) => SourceEnabled(c, s, a)
    case Ferry(a) => FerryEnabled(c, s, a)
    case Copy(a) => CopyEnabled(c, s, a)
    case Stream(a) => StreamEnabled(c, s, a)
    case Replaying(a) => WriteEnabled(c, s.writer, a)
  }

  ghost function Apply(c: Config, s: State, step: Step): State
    requires Enabled(c, s, step)
  {
    match step
    case Source(a) => SourceApply(s, a)
    case Ferry(a) => FerryApply(s, a)
    case Copy(a) => CopyApply(c, s, a)
    case Stream(a) => StreamApply(c, s, a)
    case Replaying(a) => WriteApply(c, s, a)
  }

  /** Nothing has happened yet, and the target tables are empty. */
  ghost predicate Init(s: State) {
    && s.target == map[] && s.log == [] && s.base == s.source && !s.connected
    && (forall t :: t in s.tables ==> s.tables[t].Waiting?)
    && s.streamer == Streamer(Position(0, 0), 0, None, true)
    && s.writer == Writer([], false, [], [], 0, false, true)
    && s.cutover == Cutover(false, false, Position(0, 0), 0, false)
  }

  /** Streamer, writer and all iterators have returned. */
  predicate Done(s: State) {
    !s.streamer.running && !s.writer.running && RowCopyComplete(s)
  }

  /** `steps` can be taken one after the other from `s`, and lead to `t`. */
  ghost predicate Runs(c: Config, s: State, steps: seq<Step>, t: State)
    decreases |steps|
  {
    if steps == [] then s == t
    else Enabled(c, s, steps[0]) && Runs(c, Apply(c, s, steps[0]), steps[1..], t)
  }
}

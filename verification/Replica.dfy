/**
 A ferry that reads from a replica: the application writes to the master, whose log the
 replica applies in order, and the ferry's source is the replica. At the cutover the
 master is locked and the ferry waits for the replica to catch up before it records the
 replica's own stop position.
 */
module Replica {
  import opened Rows
  import opened Binlog
  import opened CopyFilter
  import opened Protocol
  import opened InvariantKept
  import opened Sharding
  import opened Convergence
  import opened Races

  /** `base` is the master when its log starts. */
  datatype Master = Master(base: Database, db: Database, origin: Position, log: seq<Entry>, locked: bool)

  /**
   `applied` entries of the master's log have reached the replica. `goal` is the master's
   position as read by the wait, when its log was `goalIndex` entries long.
   */
  datatype TwoHop = TwoHop(master: Master, applied: nat, goal: Option<Position>, goalIndex: nat, ferry: State)

  datatype Hop =
    | MasterWrite(changes: seq<Change>, logPos: nat)
    | MasterOther(entry: Entry)
    | LockMaster
    | Replicate(logPos: nat)
    | ReadGoal
    | CaughtUp(reported: Position)
    | SkipWait
    | FerryStep(step: Step)

  function MasterHere(m: Master): Position {
    ServerPosition(m.origin, m.log)
  }

  /** The steps the ferry takes by itself: it neither writes to its source nor declares it read-only. */
  predicate Own(step: Step) {
    !(step.Source? && step.source.Write?) && !(step.Ferry? && step.ferry.SetReadonly?)
  }

  /**
   After the lock the master still takes writes to other rows, heartbeats among them. The
   reported position, read from a heartbeat row, is one the replica has reached.
   `SkipWait` is the cutover without the wait; the program takes it only if `waits` is false.
   */
  ghost predicate HopEnabled(c: Config, waits: bool, h: TwoHop, hop: Hop) {
    match hop
    case MasterWrite(changes, logPos) =>
      && (h.master.locked ==> Quiet(c.filter, h.ferry.tables.Keys, changes))
      && Consistent(h.master.db, changes)
      && (forall i :: 0 <= i < |changes| ==> changes[i].before.Some? || changes[i].after.Some?)
      && Less(MasterHere(h.master), EndOf(MasterHere(h.master), RowsEvent(changes, logPos)))
    case MasterOther(entry) => !entry.RowsEvent? && Less(MasterHere(h.master), EndOf(MasterHere(h.master), entry))
    case LockMaster => RowCopyComplete(h.ferry)
    case Replicate(logPos) =>
      && h.applied < |h.master.log|
      && (h.master.log[h.applied].RowsEvent? ==>
            Enabled(c, h.ferry, Source(Write(h.master.log[h.applied].changes, logPos))))
    case ReadGoal => h.master.locked && h.goal.None?
    case CaughtUp(reported) =>
      && h.goal.Some? && !Less(reported, h.goal.value)
      && h.applied <= |h.master.log|
      && !Less(ServerPosition(h.master.origin, h.master.log[..h.applied]), reported)
      && Enabled(c, h.ferry, Ferry(SetReadonly))
    case SkipWait => !waits && h.master.locked && Enabled(c, h.ferry, Ferry(SetReadonly))
    case FerryStep(step) => Own(step) && Enabled(c, h.ferry, step)
  }

  /** What a hop means for the ferry. */
  function FerrySteps(h: TwoHop, hop: Hop): seq<Step> {
    match hop
    case Replicate(logPos) =>
      if h.applied < |h.master.log| && h.master.log[h.applied].RowsEvent?
      then [Source(Write(h.master.log[h.applied].changes, logPos))] else []
    case CaughtUp(_) => [Ferry(SetReadonly)]
    case SkipWait => [Ferry(SetReadonly)]
    case FerryStep(step) => [step]
    case _ => []
  }

  function MasterApply(m: Master, e: Entry): Master {
    m.(db := Replay(m.db, EntryChanges(e)), log := m.log + [e])
  }

  ghost function HopApply(c: Config, waits: bool, h: TwoHop, hop: Hop): TwoHop
    requires HopEnabled(c, waits, h, hop)
  {
    var h' := if FerrySteps(h, hop) == [] then h else h.(ferry := Apply(c, h.ferry, FerrySteps(h, hop)[0]));
    match hop
    case MasterWrite(changes, logPos) => h'.(master := MasterApply(h.master, RowsEvent(changes, logPos)))
    case MasterOther(entry) => h'.(master := MasterApply(h.master, entry))
    case LockMaster => h'.(master := h.master.(locked := true))
    case Replicate(_) => h'.(applied := h.applied + 1)
    case ReadGoal => h'.(goal := Some(MasterHere(h.master)), goalIndex := |h.master.log|)
    case _ => h'
  }

  /** The replica starts as a copy of the master. */
  ghost predicate HopInit(h: TwoHop) {
    && Init(h.ferry) && h.ferry.source == h.master.base == h.master.db && h.master.log == []
    && !h.master.locked && h.applied == 0 && h.goal.None? && h.goalIndex == 0
  }

  ghost predicate HopTo(c: Config, waits: bool, h: TwoHop, hop: Hop, g: TwoHop) {
    HopEnabled(c, waits, h, hop) && g == HopApply(c, waits, h, hop)
  }

  /** `hops` can be taken one after the other from `h`, and lead to `g`. */
  ghost predicate HopRuns(c: Config, waits: bool, h: TwoHop, hops: seq<Hop>, g: TwoHop)
    decreases |hops|
  {
    if hops == [] then h == g
    else
      var n := |hops| - 1;
      exists m :: HopRuns(c, waits, h, hops[..n], m) && HopTo(c, waits, m, hops[n], g)
  }

  // What every run of the two hops keeps.

  ghost predicate MasterOk(m: Master) {
    && Advances(m.origin, m.log)
    && Consistent(m.base, Changes(m.log)) && m.db == Replay(m.base, Changes(m.log))
  }

  /** The replica is the master as it was some entries ago. */
  ghost predicate ReplicaOk(h: TwoHop) {
    h.applied <= |h.master.log| && h.ferry.source == Replay(h.master.base, Changes(h.master.log[..h.applied]))
  }

  /** From entry `n` on, the log of the master has nothing to say about the rows that are moved. */
  ghost predicate QuietFrom(c: Config, h: TwoHop, n: nat)
    requires n <= |h.master.log|
  {
    Quiet(c.filter, h.ferry.tables.Keys, Changes(h.master.log[n..]))
  }

  ghost predicate GoalOk(c: Config, h: TwoHop) {
    h.goal.Some? ==>
      && h.master.locked && h.goalIndex <= |h.master.log|
      && h.goal.value == ServerPosition(h.master.origin, h.master.log[..h.goalIndex])
      && QuietFrom(c, h, h.goalIndex)
  }

  /** Once the replica counts as read-only, it has every change of the master that matters. */
  ghost predicate ReadonlyOk(c: Config, h: TwoHop) {
    h.ferry.cutover.readonly ==> h.master.locked && h.applied <= |h.master.log| && QuietFrom(c, h, h.applied)
  }

  ghost predicate HopInv(c: Config, h: TwoHop) {
    MasterOk(h.master) && ReplicaOk(h) && GoalOk(c, h) && ReadonlyOk(c, h)
  }

  lemma MasterLogs(m: Master, e: Entry)
    requires MasterOk(m) && Less(MasterHere(m), EndOf(MasterHere(m), e)) && Consistent(m.db, EntryChanges(e))
    ensures MasterOk(MasterApply(m, e))
  {
    AdvancesAppend(m.origin, m.log, e);
    ChangesAppend(m.log, e);
    ReplayConcat(m.base, Changes(m.log), EntryChanges(e));
    ConsistentConcat(m.base, Changes(m.log), EntryChanges(e));
  }

  /** A longer log has the same beginnings, and stays quiet if the new entry is. */
  lemma LogGrows(f: Filter, tables: set<TableName>, log: seq<Entry>, e: Entry, i: nat)
    requires i <= |log|
    ensures (log + [e])[..i] == log[..i]
    ensures Quiet(f, tables, Changes(log[i..])) && Quiet(f, tables, EntryChanges(e)) ==>
              Quiet(f, tables, Changes((log + [e])[i..]))
  {
    assert (log + [e])[i..] == log[i..] + [e];
    ChangesAppend(log[i..], e);
  }

  lemma MasterKeeps(c: Config, h: TwoHop, e: Entry)
    requires HopInv(c, h) && Consistent(h.master.db, EntryChanges(e))
    requires h.master.locked ==> Quiet(c.filter, h.ferry.tables.Keys, EntryChanges(e))
    requires Less(MasterHere(h.master), EndOf(MasterHere(h.master), e))
    ensures HopInv(c, h.(master := MasterApply(h.master, e)))
  {
    MasterLogs(h.master, e);
    LogGrows(c.filter, h.ferry.tables.Keys, h.master.log, e, h.applied);
    if h.goal.Some? {
      LogGrows(c.filter, h.ferry.tables.Keys, h.master.log, e, h.goalIndex);
    }
  }

  /** What is quiet from some entry on is quiet from every later one on. */
  lemma QuietLater(f: Filter, tables: set<TableName>, log: seq<Entry>, n: nat, i: nat)
    requires n <= i <= |log| && Quiet(f, tables, Changes(log[n..]))
    ensures Quiet(f, tables, Changes(log[i..]))
  {
    ChangesFrom(log, n, i);
    QuietSuffix(f, tables, Changes(log[n..i]), Changes(log[i..]));
  }

  lemma QuietSuffix(f: Filter, tables: set<TableName>, a: seq<Change>, b: seq<Change>)
    ensures Quiet(f, tables, a + b) ==> Quiet(f, tables, b)
  {
    if Quiet(f, tables, a + b) {
      forall j | 0 <= j < |b| ensures !Concerns(f, tables, b[j]) {
        assert (a + b)[|a| + j] == b[j];
      }
    }
  }

  /** What replicating the next entry does to the replica. */
  lemma ReplicateMoves(c: Config, waits: bool, h: TwoHop, logPos: nat)
    requires HopEnabled(c, waits, h, Replicate(logPos))
    ensures var h' := HopApply(c, waits, h, Replicate(logPos));
            && h' == h.(applied := h.applied + 1, ferry := h'.ferry)
            && h'.ferry.source == Replay(h.ferry.source, EntryChanges(h.master.log[h.applied]))
            && h'.ferry.cutover == h.ferry.cutover && h'.ferry.tables == h.ferry.tables
  {
  }

  lemma ReplicateKeeps(c: Config, waits: bool, h: TwoHop, logPos: nat)
    requires HopInv(c, h) && HopEnabled(c, waits, h, Replicate(logPos))
    ensures HopInv(c, HopApply(c, waits, h, Replicate(logPos)))
  {
    ReplicateMoves(c, waits, h, logPos);
    NextApplied(h.master, h.applied);
    if h.ferry.cutover.readonly {
      QuietLater(c.filter, h.ferry.tables.Keys, h.master.log, h.applied, h.applied + 1);
    }
  }

  lemma NextApplied(m: Master, i: nat)
    requires i < |m.log|
    ensures Replay(m.base, Changes(m.log[..i + 1]))
         == Replay(Replay(m.base, Changes(m.log[..i])), EntryChanges(m.log[i]))
  {
    ChangesNext(m.log, i);
    ReplayConcat(m.base, Changes(m.log[..i]), EntryChanges(m.log[i]));
  }

  /** The heart of the wait: a reported position that has reached the goal has everything that matters behind it. */
  lemma GoalReached(c: Config, h: TwoHop, reported: Position)
    requires MasterOk(h.master) && GoalOk(c, h) && h.goal.Some? && h.applied <= |h.master.log|
    requires !Less(reported, h.goal.value)
    requires !Less(ServerPosition(h.master.origin, h.master.log[..h.applied]), reported)
    ensures QuietFrom(c, h, h.applied)
  {
    if h.applied < h.goalIndex {
      PositionsIncrease(h.master.origin, h.master.log, h.applied, h.goalIndex);
    }
    QuietLater(c.filter, h.ferry.tables.Keys, h.master.log, h.goalIndex, h.applied);
  }

  lemma OwnKeeps(c: Config, s: State, step: Step)
    requires Own(step) && Enabled(c, s, step)
    ensures Apply(c, s, step).source == s.source && Apply(c, s, step).cutover.readonly == s.cutover.readonly
    ensures Apply(c, s, step).tables.Keys == s.tables.Keys
  {
    match step
    case Source(a) =>
    case Ferry(a) =>
    case Copy(a) => CopyTouches(c, s, a);
    case Stream(a) => StreamTouches(c, s, a);
    case Replaying(a) => WriteTouches(c, s, a);
  }

  lemma HopKeeps(c: Config, h: TwoHop, hop: Hop)
    requires HopInv(c, h) && HopEnabled(c, true, h, hop)
    ensures HopInv(c, HopApply(c, true, h, hop))
  {
    match hop
    case MasterWrite(changes, logPos) => MasterKeeps(c, h, RowsEvent(changes, logPos));
    case MasterOther(entry) => MasterKeeps(c, h, entry);
    case LockMaster =>
    case Replicate(logPos) => ReplicateKeeps(c, true, h, logPos);
    case ReadGoal => GoalKeeps(c, h);
    case CaughtUp(reported) => CaughtUpKeeps(c, h, reported);
    case SkipWait =>
    case FerryStep(step) => FerryKeeps(c, h, step);
  }

  lemma GoalKeeps(c: Config, h: TwoHop)
    requires HopInv(c, h) && HopEnabled(c, true, h, ReadGoal)
    ensures HopInv(c, HopApply(c, true, h, ReadGoal))
  {
    var n := |h.master.log|;
    assert h.master.log[..n] == h.master.log && h.master.log[n..] == [];
  }

  lemma CaughtUpKeeps(c: Config, h: TwoHop, reported: Position)
    requires HopInv(c, h) && HopEnabled(c, true, h, CaughtUp(reported))
    ensures HopInv(c, HopApply(c, true, h, CaughtUp(reported)))
  {
    GoalReached(c, h, reported);
  }

  lemma FerryKeeps(c: Config, h: TwoHop, step: Step)
    requires HopInv(c, h) && HopEnabled(c, true, h, FerryStep(step))
    ensures HopInv(c, HopApply(c, true, h, FerryStep(step)))
  {
    OwnKeeps(c, h.ferry, step);
  }

  /** Seen from the ferry, a run of the two hops is a run. */
  lemma {:induction false} HopsAreSteps(c: Config, waits: bool, h: TwoHop, hops: seq<Hop>, g: TwoHop)
      returns (steps: seq<Step>)
    requires HopRuns(c, waits, h, hops, g)
    ensures Runs(c, h.ferry, steps, g.ferry)
    decreases |hops|
  {
    if hops == [] {
      steps := [];
    } else {
      var n := |hops| - 1;
      var m :| HopRuns(c, waits, h, hops[..n], m) && HopTo(c, waits, m, hops[n], g);
      steps := HopsAreSteps(c, waits, h, hops[..n], m);
      steps := HopIsStep(c, waits, h, steps, m, hops[n], g);
    }
  }

  lemma HopIsStep(c: Config, waits: bool, h: TwoHop, before: seq<Step>, m: TwoHop, hop: Hop, g: TwoHop)
      returns (steps: seq<Step>)
    requires Runs(c, h.ferry, before, m.ferry) && HopTo(c, waits, m, hop, g)
    ensures Runs(c, h.ferry, steps, g.ferry)
  {
    steps := before;
    if FerrySteps(m, hop) != [] {
      var t: State;
      steps, t := Then(c, h.ferry, before, m.ferry, FerrySteps(m, hop)[0]);
    }
  }

  lemma {:induction false} HopRunKeeps(c: Config, h: TwoHop, hops: seq<Hop>, g: TwoHop)
    requires HopInv(c, h) && HopRuns(c, true, h, hops, g)
    ensures HopInv(c, g)
    decreases |hops|
  {
    if hops != [] {
      var n := |hops| - 1;
      var m :| HopRuns(c, true, h, hops[..n], m) && HopTo(c, true, m, hops[n], g);
      HopRunKeeps(c, h, hops[..n], m);
      HopKeeps(c, m, hops[n]);
    }
  }

  lemma ConsistentSuffix(db: Database, a: seq<Change>, b: seq<Change>)
    requires Consistent(db, a + b)
    ensures Consistent(Replay(db, a), b)
  {
    forall i | 0 <= i < |b| ensures b[i].before == Lookup(Replay(Replay(db, a), b[..i]), b[i].key) {
      assert (a + b)[|a| + i] == b[i] && (a + b)[..|a| + i] == a + b[..i];
      ReplayConcat(db, a, b[..i]);
    }
  }

  /** A replica that lacks only quiet changes shows the same rows to be moved. */
  lemma SameWanted(c: Config, h: TwoHop)
    requires MasterOk(h.master) && ReplicaOk(h) && QuietFrom(c, h, h.applied)
    ensures var tables := h.ferry.tables.Keys;
            Project(c.filter, tables, h.ferry.source) == Project(c.filter, tables, h.master.db)
  {
    var log, i, tables := h.master.log, h.applied, h.ferry.tables.Keys;
    var a, b := Changes(log[..i]), Changes(log[i..]);
    ChangesSplit(log, i);
    ReplayConcat(h.master.base, a, b);
    ConsistentSuffix(h.master.base, a, b);
    ProjectReplay(c.filter, tables, h.ferry.source, b);
    QuietProjects(c.filter, tables, b);
  }

  /**
   Two hops: when the ferry is done, the target has exactly the wanted part of the master,
   with every write made before the lock.
   */
  lemma MasterReachesTarget(c: Config, h: TwoHop, hops: seq<Hop>, g: TwoHop)
    requires AsWritten(c) && HopInit(h) && HopRuns(c, true, h, hops, g) && Done(g.ferry)
    requires LogUntwinned(c.filter, h.ferry.tables.Keys, g.ferry.log)
    ensures forall k: Key :: k.pk >= 1 ==>
              Lookup(g.ferry.target, k) == Lookup(Project(c.filter, g.ferry.tables.Keys, g.master.db), k)
  {
    HopRunKeeps(c, h, hops, g);
    var steps := HopsAreSteps(c, true, h, hops, g);
    InvariantHolds(c, h.ferry, steps, g.ferry);
    assert ProjectState(c.filter, g.ferry).cutover == g.ferry.cutover;
    assert g.ferry.cutover.readonly;
    SameWanted(c, g);
    Converges(c, h.ferry, steps, g.ferry);
  }

  lemma ThenHop(c: Config, waits: bool, h: TwoHop, hops: seq<Hop>, m: TwoHop, hop: Hop)
      returns (hops': seq<Hop>, g: TwoHop)
    requires HopRuns(c, waits, h, hops, m) && HopEnabled(c, waits, m, hop)
    ensures g == HopApply(c, waits, m, hop) && HopRuns(c, waits, h, hops', g)
  {
    g := HopApply(c, waits, m, hop);
    hops' := hops + [hop];
    assert hops'[..|hops|] == hops && HopTo(c, waits, m, hop, g);
  }

  lemma MasterInserts(c: Config, waits: bool, h: TwoHop, e: Change)
    requires !h.master.locked && h.master.log == [] && h.master.origin == Position(1, 4)
    requires e.before == Lookup(h.master.db, e.key) && Visible(e)
    ensures HopEnabled(c, waits, h, MasterWrite([e], 100))
    ensures HopApply(c, waits, h, MasterWrite([e], 100))
         == h.(master := h.master.(db := Store(h.master.db, e.key, e.after), log := [RowsEvent([e], 100)]))
  {
    OneChange(h.master.db, e);
  }

  /** The copy of an empty table is complete; a row is inserted on the master, and the master is locked. */
  lemma InsertThenLock(c: Config, waits: bool, t: TableName, row: Row) returns (h: TwoHop, hops: seq<Hop>, g: TwoHop)
    ensures HopInit(h) && HopRuns(c, waits, h, hops, g)
    ensures g.master.db == map[Key(t, 1) := row] && g.master.locked
    ensures g.ferry == EmptyCopied(t)
  {
    var e := Change(Key(t, 1), None, Some(row));
    h := TwoHop(Master(map[], map[], Position(1, 4), [], false), 0, None, 0, StartState(map[], t));
    var steps, s := CopyEmpty(c, t);
    g := h.(ferry := s);
    hops := OwnRun(c, waits, h, [], h, steps, s);
    MasterInserts(c, waits, g, e);
    hops, g := ThenHop(c, waits, h, hops, g, MasterWrite([e], 100));
    hops, g := ThenHop(c, waits, h, hops, g, LockMaster);
  }

  /** What the ferry does by itself can follow any run of the two hops. */
  lemma {:induction false} OwnRun(c: Config, waits: bool, h: TwoHop, before: seq<Hop>, m: TwoHop,
                                  steps: seq<Step>, s: State)
      returns (hops: seq<Hop>)
    requires HopRuns(c, waits, h, before, m)
    requires Runs(c, m.ferry, steps, s) && forall i :: 0 <= i < |steps| ==> Own(steps[i])
    ensures HopRuns(c, waits, h, hops, m.(ferry := s))
    decreases |steps|
  {
    if steps == [] {
      hops := before;
    } else {
      var more, n := ThenHop(c, waits, h, before, m, FerryStep(steps[0]));
      assert n == m.(ferry := Apply(c, m.ferry, steps[0]));
      hops := OwnRun(c, waits, h, more, n, steps[1..], s);
    }
  }

  /** Without the wait, any row inserted on the master before the lock can be lost. */
  lemma SkippingTheWaitLosesInsert(t: TableName, row: Row)
      returns (c: Config, h: TwoHop, hops: seq<Hop>, g: TwoHop)
    ensures AsWritten(c) && c.filter == Everything
    ensures HopInit(h) && HopRuns(c, false, h, hops, g) && Done(g.ferry)
    ensures g.master.db == map[Key(t, 1) := row] && g.ferry.target == map[]
  {
    c := Protocol.Config(Everything, 1, 1, true, true, true);
    h, hops, g := InsertThenLock(c, false, t, row);
    hops, g := ThenHop(c, false, h, hops, g, SkipWait);
    var steps, s := StopAll(c, g.ferry);
    hops := OwnRun(c, false, h, hops, g, steps, s);
    g := g.(ferry := s);
  }

  // The wait itself.

  /** One look at the replica: the position read, if it could be, and the time passed so far. */
  datatype Poll = Poll(position: Option<Position>, elapsed: nat)

  datatype WaitOutcome = ReadFailed | TimedOut | StillWaiting | Reached(polls: nat)

  /** The time is up. A timeout of 0 stands for the longest duration there is. */
  predicate TimeIsUp(timeout: nat, elapsed: nat) {
    if timeout == 0 then elapsed >= TWO_63 - 1 else elapsed >= timeout
  }

  predicate NotYet(goal: Position, timeout: nat, p: Poll) {
    p.position.Some? && Less(p.position.value, goal) && !TimeIsUp(timeout, p.elapsed)
  }

  predicate GaveUp(goal: Position, timeout: nat, p: Poll) {
    p.position.Some? && Less(p.position.value, goal) && TimeIsUp(timeout, p.elapsed)
  }

  /** The first `n` polls all leave it waiting. */
  ghost predicate Waits(goal: Position, timeout: nat, polls: seq<Poll>, n: nat) {
    n <= |polls| && forall j :: 0 <= j < n ==> NotYet(goal, timeout, polls[j])
  }

  ghost predicate FailsAfter(goal: Position, timeout: nat, polls: seq<Poll>, n: nat) {
    n < |polls| && Waits(goal, timeout, polls, n) && polls[n].position.None?
  }

  ghost predicate GivesUpAfter(goal: Position, timeout: nat, polls: seq<Poll>, n: nat) {
    n < |polls| && Waits(goal, timeout, polls, n) && GaveUp(goal, timeout, polls[n])
  }

  ghost predicate ReachesAfter(goal: Position, timeout: nat, polls: seq<Poll>, n: nat) {
    && n < |polls| && Waits(goal, timeout, polls, n)
    && polls[n].position.Some? && !Less(polls[n].position.value, goal)
  }

  /**
   The polling loop. The first poll that does not leave it waiting decides: a position at or
   beyond the goal, a read that failed, or a position short of it after the timeout.
   */
  method Wait(goal: Option<Position>, polls: seq<Poll>, timeout: nat) returns (r: WaitOutcome)
    ensures r == ReadFailed <==> goal.None? || exists n: nat :: FailsAfter(goal.value, timeout, polls, n)
    ensures r == TimedOut <==> goal.Some? && exists n: nat :: GivesUpAfter(goal.value, timeout, polls, n)
    ensures r == StillWaiting <==> goal.Some? && Waits(goal.value, timeout, polls, |polls|)
    ensures r.Reached? <==> goal.Some? && exists n: nat :: ReachesAfter(goal.value, timeout, polls, n)
    ensures r.Reached? ==> r.polls >= 1 && ReachesAfter(goal.value, timeout, polls, r.polls - 1)
  {
    var limit := timeout;
    if limit == 0 {
      limit := TWO_63 - 1;
    }
    if goal.None? {
      return ReadFailed;
    }
    var i: nat := 0;
    while i < |polls|
      invariant Waits(goal.value, timeout, polls, i)
    {
      if polls[i].position.None? {
        assert FailsAfter(goal.value, timeout, polls, i);
        return ReadFailed;
      }
      if !Less(polls[i].position.value, goal.value) {
        assert ReachesAfter(goal.value, timeout, polls, i);
        return Reached(i + 1);
      }
      if polls[i].elapsed >= limit {
        assert GivesUpAfter(goal.value, timeout, polls, i);
        return TimedOut;
      }
      i := i + 1;
    }
    r := StillWaiting;
  }
}

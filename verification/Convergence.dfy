/**
 The main results about a run of the ferry: what holds at every moment, and that the
 target equals the source when the run is done.
 */
module Convergence {
  import opened Rows
  import opened Binlog
  import opened Protocol
  import opened History
  import opened Invariant
  import opened InvariantKept
  import opened Sharding

  /** The part of the source that a run is to bring to the target. */
  function Wanted(c: Config, s: State): Database {
    Project(c.filter, s.tables.Keys, s.source)
  }

  /** In every state of every run the invariant holds of the projected state. */
  lemma InvariantHolds(c: Config, s: State, steps: seq<Step>, t: State)
    requires AsWritten(c) && Init(s) && Runs(c, s, steps, t)
    requires LogUntwinned(c.filter, s.tables.Keys, t.log)
    ensures Inv(ProjectState(c.filter, t)) && t.tables.Keys == s.tables.Keys
  {
    var p := ProjectState(c.filter, s);
    assert Init(p);
    InitInv(p);
    RunProjects(c, s, steps, t);
    RunKeeps(Unfiltered(c), p, ProjectSteps(c.filter, s.tables.Keys, steps), ProjectState(c.filter, t));
  }

  /** When everything has returned, every logged change has been replayed. */
  lemma DoneMeansReplayed(s: State)
    requires Inv(s) && Done(s)
    ensures Executed(s) == Events(s)
  {
    AllHandedOver(s);
  }

  lemma DoneRow(s: State, k: Key)
    requires Inv(s) && Done(s)
    requires Settled(s, k) || EverAbsent(s.base, Events(s), k)
    ensures Lookup(s.target, k) == Lookup(s.source, k)
  {
    var es, v := Events(s), Lookup(s.target, k);
    DoneMeansReplayed(s);
    assert RowOk(s, k);
    FreshAtEnd(s.base, es, k, v);
  }

  lemma DoneZeroRow(s: State, k: Key)
    requires Inv(s) && Done(s) && k.pk == 0 && !EverAbsent(s.base, Events(s), k)
    ensures k !in s.target && k in s.source
  {
    var es := Events(s);
    assert es[..|es|] == es;
    assert Moment(s.base, es, |es|, k) == Lookup(s.source, k);
  }

  /**
   Convergence. Whatever the interleaving of writes, copying, streaming, replaying and
   retrying, a run that is done leaves every row with a positive key on the target
   exactly as the wanted part of the source has it, and no others, unless its log holds a
   number that is taken for the sharding value.
   */
  lemma Converges(c: Config, s: State, steps: seq<Step>, t: State)
    requires AsWritten(c) && Init(s) && Runs(c, s, steps, t) && Done(t)
    requires LogUntwinned(c.filter, s.tables.Keys, t.log)
    ensures forall k: Key :: k.pk >= 1 ==> Lookup(t.target, k) == Lookup(Wanted(c, t), k)
  {
    var p := ProjectState(c.filter, t);
    InvariantHolds(c, s, steps, t);
    forall k: Key | k.pk >= 1 ensures Lookup(t.target, k) == Lookup(Wanted(c, t), k) {
      if k.table !in p.tables {
        assert Moment(p.base, Events(p), 0, k).None?;
      }
      DoneRow(p, k);
    }
  }

  /** The source was without this row at some moment after the run had connected to its binlog. */
  ghost predicate WasAbsent(c: Config, t: State, k: Key) {
    EverAbsent(Project(c.filter, t.tables.Keys, t.base), Changes(ProjectLog(c.filter, t.tables.Keys, t.log)), k)
  }

  /**
   Rows with key 0 are not copied, because the cursor starts at 0 and asks for larger
   keys. Target and source are equal in full exactly if no such row was there all along.
   */
  lemma ConvergesInFull(c: Config, s: State, steps: seq<Step>, t: State)
    requires AsWritten(c) && Init(s) && Runs(c, s, steps, t) && Done(t)
    requires LogUntwinned(c.filter, s.tables.Keys, t.log)
    ensures t.target == Wanted(c, t) <==> forall k: Key :: k.pk == 0 ==> WasAbsent(c, t, k)
  {
    Converges(c, s, steps, t);
    ZeroRows(c, s, steps, t);
    if forall k: Key :: k.pk == 0 ==> WasAbsent(c, t, k) {
      SameLookups(t.target, Wanted(c, t));
    }
  }

  lemma ZeroRows(c: Config, s: State, steps: seq<Step>, t: State)
    requires AsWritten(c) && Init(s) && Runs(c, s, steps, t) && Done(t)
    requires LogUntwinned(c.filter, s.tables.Keys, t.log)
    ensures forall k: Key :: k.pk == 0 ==>
              (WasAbsent(c, t, k) <==> Lookup(t.target, k) == Lookup(Wanted(c, t), k))
  {
    InvariantHolds(c, s, steps, t);
    forall k: Key | k.pk == 0
      ensures WasAbsent(c, t, k) <==> Lookup(t.target, k) == Lookup(Wanted(c, t), k)
    {
      ZeroRowExact(ProjectState(c.filter, t), k);
    }
  }

  lemma ZeroRowExact(s: State, k: Key)
    requires Inv(s) && Done(s) && k.pk == 0
    ensures EverAbsent(s.base, Events(s), k) <==> Lookup(s.target, k) == Lookup(s.source, k)
  {
    if EverAbsent(s.base, Events(s), k) {
      DoneRow(s, k);
    } else {
      DoneZeroRow(s, k);
    }
  }

  /** The rows of all held pages are what the source has now. */
  ghost predicate HeldCurrent(s: State) {
    forall k :: Locked(s, k) ==> Lookup(s.source, k) == Some(s.tables[k.table].page[k])
  }

  /** The locks are all it takes: whatever the filter, and whatever else the program does or leaves undone. */
  lemma StepKeepsHeld(c: Config, s: State, step: Step)
    requires c.rowLock && HeldCurrent(s) && Enabled(c, s, step)
    ensures HeldCurrent(Apply(c, s, step))
  {
    match step
    case Source(a) => SourceKeepsHeld(c, s, a);
    case Ferry(a) => HeldFrame(s, FerryApply(s, a));
    case Copy(a) => CopyKeepsHeld(c, s, a);
    case Stream(a) =>
      StreamTouches(c, s, a);
      HeldFrame(s, StreamApply(c, s, a));
    case Replaying(a) =>
      WriteTouches(c, s, a);
      HeldFrame(s, WriteApply(c, s, a));
  }

  lemma HeldFrame(s: State, s': State)
    requires HeldCurrent(s) && s'.source == s.source && s'.tables == s.tables
    ensures HeldCurrent(s')
  {
    assert forall k :: Locked(s', k) ==> Locked(s, k);
  }

  lemma SourceKeepsHeld(c: Config, s: State, a: SourceStep)
    requires c.rowLock && HeldCurrent(s) && SourceEnabled(c, s, a)
    ensures HeldCurrent(SourceApply(s, a))
  {
    if a.Write? {
      forall k | Locked(s, k) ensures Lookup(Replay(s.source, a.changes), k) == Lookup(s.source, k) {
        ReplayUntouched(s.source, a.changes, k);
      }
    }
  }

  lemma CopyKeepsHeld(c: Config, s: State, a: CopyStep)
    requires HeldCurrent(s) && CopyEnabled(c, s, a)
    ensures HeldCurrent(CopyApply(c, s, a))
  {
    var s' := CopyApply(c, s, a);
    forall k | Locked(s', k) ensures Lookup(s'.source, k) == Some(s'.tables[k.table].page[k]) {
      if !a.Select? || k.table != a.table {
        assert Locked(s, k);
      }
    }
  }

  lemma {:induction false} RunKeepsHeld(c: Config, s: State, steps: seq<Step>, t: State)
    requires c.rowLock && HeldCurrent(s) && Runs(c, s, steps, t)
    ensures HeldCurrent(t)
    decreases |steps|
  {
    if steps != [] {
      StepKeepsHeld(c, s, steps[0]);
      RunKeepsHeld(c, Apply(c, s, steps[0]), steps[1..], t);
    }
  }

  /** Lock window: in every state of every run, the rows of a held page are what the source has now. */
  lemma HeldRowsAreCurrent(c: Config, s: State, steps: seq<Step>, t: State, k: Key)
    requires c.rowLock && Init(s) && Runs(c, s, steps, t) && Locked(t, k)
    ensures Lookup(t.source, k) == Some(t.tables[k.table].page[k])
  {
    RunKeepsHeld(c, s, steps, t);
  }

  /**
   Stop safety and conservation: once the streamer has left its loop, every wanted change
   in the whole log has been handed to the writer, exactly once and in order.
   */
  lemma NothingLeftBehind(c: Config, s: State, steps: seq<Step>, t: State)
    requires AsWritten(c) && Init(s) && Runs(c, s, steps, t) && !t.streamer.running
    requires LogUntwinned(c.filter, s.tables.Keys, t.log)
    ensures t.cutover.stopIndex <= t.streamer.index <= |t.log|
    ensures Changes(ProjectLog(c.filter, t.tables.Keys, t.log))
         == t.writer.applied + t.writer.batch + t.writer.channel
  {
    InvariantHolds(c, s, steps, t);
    AllHandedOver(ProjectState(c.filter, t));
  }

  lemma AllHandedOver(s: State)
    requires StreamOk(s) && CutoverOk(s) && !s.streamer.running
    ensures Events(s) == s.writer.applied + s.writer.batch + s.writer.channel
  {
    ChangesSandwich(s.log, s.cutover.stopIndex, s.streamer.index);
    assert s.writer.batch + s.writer.channel + [] == s.writer.batch + s.writer.channel;
  }

  lemma ChangesSandwich(log: seq<Entry>, n: nat, i: nat)
    requires n <= i <= |log| && Changes(log[..n]) == Changes(log)
    ensures Changes(log[..i]) == Changes(log)
  {
    ChangesSplit(log, i);
    ChangesFrom(log, n, i);
    Between(Changes(log[..n]), Changes(log[n..i]), Changes(log[i..]));
  }

  lemma Between(a: seq<Change>, b: seq<Change>, c: seq<Change>)
    requires a == a + b + c
    ensures a + b == a
  {
    assert |b| == 0;
  }

  /**
   Replay tolerance: once the copy is complete, replaying the log again from any position
   already passed, on whatever the target holds by now, still brings every row home.
   */
  lemma ReplayAgain(s: State, b: nat)
    requires Inv(s) && b <= |Executed(s)| <= |Events(s)|
    ensures forall k :: Settled(s, k) ==> Lookup(CasAll(s.target, Events(s)[b..]), k) == Lookup(s.source, k)
  {
    forall k | Settled(s, k) ensures Lookup(CasAll(s.target, Events(s)[b..]), k) == Lookup(s.source, k) {
      assert RowOk(s, k);
      ReplayAgainAt(s.base, Events(s), |Executed(s)|, b, s.target, k);
    }
  }

  lemma ReplayAgainAt(base: Database, es: seq<Change>, a: nat, b: nat, db: Database, k: Key)
    requires Consistent(base, es) && b <= a <= |es| && Fresh(base, es, a, k, Lookup(db, k))
    ensures Lookup(CasAll(db, es[b..]), k) == Lookup(Replay(base, es), k)
  {
    HistoryRewinds(base, es, a, b, k, Lookup(db, k));
    ReplayAgainRow(base, es, b, |es|, db, k);
    assert es[b..|es|] == es[b..];
    FreshAtEnd(base, es, k, Lookup(CasAll(db, es[b..]), k));
  }

  lemma CasAllNext(db: Database, es: seq<Change>, b: nat, n: nat)
    requires b < n <= |es|
    ensures CasAll(db, es[b..n]) == Cas(CasAll(db, es[b..n - 1]), es[n - 1])
  {
    var part := es[b..n];
    assert part[..|part| - 1] == es[b..n - 1] && part[|part| - 1] == es[n - 1];
  }

  lemma {:induction false} ReplayAgainRow(base: Database, es: seq<Change>, b: nat, n: nat, db: Database, k: Key)
    requires Consistent(base, es) && b <= n <= |es| && Fresh(base, es, b, k, Lookup(db, k))
    ensures Fresh(base, es, n, k, Lookup(CasAll(db, es[b..n]), k))
    decreases n
  {
    if b < n {
      var before := CasAll(db, es[b..n - 1]);
      ReplayAgainRow(base, es, b, n - 1, db, k);
      FreshCas(base, es, n - 1, before, k);
      CasAllNext(db, es, b, n);
      assert CasAll(db, es[b..n]) == Cas(before, es[n - 1]);
    } else {
      assert es[b..n] == [];
    }
  }
}

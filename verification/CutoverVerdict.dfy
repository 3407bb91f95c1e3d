/**
 The verification in the cutover as the program carries it out: the store is flushed into
 batches, the worker pool compares them, and the results are summed up. What comes out is
 the verdict of the verifier's state machine.
 */
module CutoverVerdict {
  import opened Rows
  import opened Fingerprints
  import opened Reverifying
  import WorkerPools
  import opened Verdicts
  import opened Verification
  import opened VerifierSoundness
  import opened VerifierRuns

  /** The fingerprints a server returns for the keys of a batch. */
  function HashesOf(c: Config, db: Database, b: ReverifyBatch): map<nat, string> {
    map pk | pk in b.pks && Key(b.table, pk) in db :: Fingerprint(c.md5, db[Key(b.table, pk)])
  }

  /** Comparing the fingerprints of the batch finds a mismatch. */
  ghost predicate Mismatched(c: Config, s: State, b: ReverifyBatch) {
    exists pk: nat :: At(HashesOf(c, s.source, b), pk) != At(HashesOf(c, s.target, b), pk)
  }

  lemma HashAt(c: Config, db: Database, b: ReverifyBatch, pk: nat)
    ensures At(HashesOf(c, db, b), pk) == if pk in b.pks then PrintOf(c, db, Key(b.table, pk)) else None
  {
  }

  lemma MismatchMeansDiffers(c: Config, s: State, b: ReverifyBatch)
    ensures Mismatched(c, s, b) <==> exists k :: Holds(b, k) && !Agrees(c, s, k)
  {
    if pk: nat :| At(HashesOf(c, s.source, b), pk) != At(HashesOf(c, s.target, b), pk) {
      HashAt(c, s.source, b, pk);
      HashAt(c, s.target, b, pk);
      assert Holds(b, Key(b.table, pk)) && !Agrees(c, s, Key(b.table, pk));
    }
    if k :| Holds(b, k) && !Agrees(c, s, k) {
      HashAt(c, s.source, b, k.pk);
      HashAt(c, s.target, b, k.pk);
      assert At(HashesOf(c, s.source, b), k.pk) != At(HashesOf(c, s.target, b), k.pk);
    }
  }

  /** How the comparison of each batch comes out; reading the fingerprints of some may fail. */
  ghost function Comparisons(c: Config, s: State, bs: seq<ReverifyBatch>, errored: seq<bool>): seq<Comparison>
    requires |errored| == |bs|
  {
    seq(|bs|, i requires 0 <= i < |bs| => Comparison(Mismatched(c, s, bs[i]), errored[i]))
  }

  /** A pool has compared the batches of the flushed store, in some schedule. */
  ghost predicate Compared(c: Config, s: State, bs: seq<ReverifyBatch>, errored: seq<bool>,
                           p: WorkerPools.Pool<Checked>, steps: seq<WorkerPools.Step<Checked>>,
                           q: WorkerPools.Pool<Checked>)
  {
    && |errored| == |bs| == p.n
    && WorkerPools.Init(p) && WorkerPools.Runs(p, steps, q) && WorkerPools.Returned(q)
    && Processes(q.done, Comparisons(c, s, bs, errored), false)
  }

  /** Nothing is compared if the store was empty, and the verdict is then correct. */
  function Outcome(bs: seq<ReverifyBatch>, q: WorkerPools.Pool<Checked>): Checked {
    if bs == [] then Checked(true, false) else SummedUp(q.results, NOTHING)
  }

  lemma DiffersInSomeBatch(c: Config, s: State, bs: seq<ReverifyBatch>, keys: set<Key>)
    requires Partition(bs, keys)
    ensures (exists k :: k in keys && !Agrees(c, s, k)) <==> exists i :: 0 <= i < |bs| && Mismatched(c, s, bs[i])
  {
    if k :| k in keys && !Agrees(c, s, k) {
      assert InSome(bs, k);
      var i :| 0 <= i < |bs| && Holds(bs[i], k);
      MismatchMeansDiffers(c, s, bs[i]);
    }
    if i :| 0 <= i < |bs| && Mismatched(c, s, bs[i]) {
      MismatchMeansDiffers(c, s, bs[i]);
      var k :| Holds(bs[i], k) && !Agrees(c, s, k);
      assert InSome(bs, k);
    }
  }

  /** What is summed up is one of the results, if there are any. */
  lemma {:induction false} SummedUpIsResult(results: seq<Option<Checked>>, latest: Checked)
    ensures SummedUp(results, latest) == latest || Some(SummedUp(results, latest)) in results
    ensures SomeResult(results) ==> Some(SummedUp(results, latest)) in results
  {
    if results != [] {
      var rest := results[1..];
      assert results == [results[0]] + rest;
      SummedUpIsResult(rest, if results[0].Some? then results[0].value else latest);
      assert results[0] in results;
    }
  }

  /**
   The verdict of the pool is correct exactly if every row of the store is the same on both
   sides and no read failed.
   */
  lemma OutcomeIsExact(c: Config, s: State, keys: set<Key>, bs: seq<ReverifyBatch>, errored: seq<bool>,
                       p: WorkerPools.Pool<Checked>, steps: seq<WorkerPools.Step<Checked>>,
                       q: WorkerPools.Pool<Checked>)
    requires Partition(bs, keys) && Compared(c, s, bs, errored, p, steps, q)
    ensures !ErroredOrFailed(Outcome(bs, q)) <==>
              (forall k :: k in keys ==> Agrees(c, s, k)) && forall i :: 0 <= i < |bs| ==> !errored[i]
  {
    AgreesInAllBatches(c, s, bs, keys);
    if bs != [] {
      VerdictIsExact(p, steps, q, Comparisons(c, s, bs, errored), false);
      GoodComparisons(c, s, bs, errored);
    }
  }

  lemma AgreesInAllBatches(c: Config, s: State, bs: seq<ReverifyBatch>, keys: set<Key>)
    requires Partition(bs, keys)
    ensures (forall k :: k in keys ==> Agrees(c, s, k)) <==> forall i :: 0 <= i < |bs| ==> !Mismatched(c, s, bs[i])
  {
    DiffersInSomeBatch(c, s, bs, keys);
  }

  lemma GoodComparisons(c: Config, s: State, bs: seq<ReverifyBatch>, errored: seq<bool>)
    requires |errored| == |bs|
    ensures var cs := Comparisons(c, s, bs, errored);
            (forall i :: 0 <= i < |cs| ==> !cs[i].errored && (false || !cs[i].mismatched)) <==>
            (forall i :: 0 <= i < |bs| ==> !Mismatched(c, s, bs[i])) && forall i :: 0 <= i < |bs| ==> !errored[i]
  {
    var cs := Comparisons(c, s, bs, errored);
    assert forall i :: 0 <= i < |bs| ==> cs[i] == Comparison(Mismatched(c, s, bs[i]), errored[i]);
  }

  lemma SomethingDone(p: WorkerPools.Pool<Checked>, steps: seq<WorkerPools.Step<Checked>>, q: WorkerPools.Pool<Checked>)
    requires WorkerPools.Init(p) && p.n >= 1 && WorkerPools.Runs(p, steps, q) && WorkerPools.Returned(q)
    ensures q.done != []
  {
    WorkerPools.EverySchedule(p, steps, q);
    WorkerPools.NoErrorIffAllSucceeded(p, steps, q);
    if WorkerPools.Returns(q).None? {
      assert WorkerPools.IsDone(q.done, 0);
    } else {
      assert WorkerPools.Failed(q.done, WorkerPools.Returns(q).value);
    }
  }

  /** A verdict of incorrect, without an error, comes from a batch that mismatched. */
  lemma AlarmComesFromBatch(c: Config, s: State, bs: seq<ReverifyBatch>, errored: seq<bool>,
                            p: WorkerPools.Pool<Checked>, steps: seq<WorkerPools.Step<Checked>>,
                            q: WorkerPools.Pool<Checked>)
    requires Compared(c, s, bs, errored, p, steps, q) && Outcome(bs, q) == Checked(false, false)
    ensures exists i :: 0 <= i < |bs| && Mismatched(c, s, bs[i])
  {
    SomethingDone(p, steps, q);
    WorkerPools.EverySchedule(p, steps, q);
    WorkLeavesResult(q);
    SummedUpIsResult(q.results, NOTHING);
    var j :| 0 <= j < |q.results| && q.results[j] == Some(Checked(false, false));
    WorkerPools.ResultWasProduced(q.done, j);
    var d :| 0 <= d < |q.done| && Some(q.done[d].result) == q.results[j];
    assert Mismatched(c, s, bs[q.done[d].index]);
  }

  /** The state after everything pending has been compared. */
  ghost function AfterAll(c: Config, s: State): State {
    s.(pending := {}, staleSource := s.staleSource - s.pending, staleTarget := s.staleTarget - s.pending,
       failed := s.failed || exists k :: k in s.pending && !Agrees(c, s, k))
  }

  lemma {:induction false} CompareAll(c: Config, s: State) returns (steps: seq<Step>)
    requires s.phase.Cutover? && s.checks == map[]
    ensures Runs(c, s, steps, AfterAll(c, s))
    decreases |s.pending|
  {
    if s.pending == {} {
      steps := [];
      assert s.staleSource - {} == s.staleSource && s.staleTarget - {} == s.staleTarget;
    } else {
      var k :| k in s.pending;
      var first, t := CompareOne(c, s, k);
      var rest := CompareAll(c, t);
      AfterOneThenAll(c, s, k, t);
      RunsConcat(c, s, first, t, rest, AfterAll(c, t));
      steps := first + rest;
    }
  }

  lemma AfterOneThenAll(c: Config, s: State, k: Key, t: State)
    requires k in s.pending
    requires t == s.(pending := s.pending - {k},
                     staleSource := s.staleSource - {k}, staleTarget := s.staleTarget - {k},
                     failed := s.failed || !Agrees(c, s, k))
    ensures AfterAll(c, t) == AfterAll(c, s)
  {
    assert forall x :: Agrees(c, t, x) == Agrees(c, s, x);
    assert (s.staleSource - {k}) - (s.pending - {k}) == s.staleSource - s.pending;
    assert (s.staleTarget - {k}) - (s.pending - {k}) == s.staleTarget - s.pending;
  }

  /**
   Whatever verdict the flushed store, the pool and the summing up arrive at without an
   error, the state machine reports it after comparing the same rows.
   */
  lemma PoolReports(c: Config, s: State, bs: seq<ReverifyBatch>, errored: seq<bool>,
                    p: WorkerPools.Pool<Checked>, poolSteps: seq<WorkerPools.Step<Checked>>,
                    q: WorkerPools.Pool<Checked>)
      returns (steps: seq<Step>, t: State)
    requires s.phase.Cutover? && s.checks == map[] && !s.failed
    requires Partition(bs, s.pending) && Compared(c, s, bs, errored, p, poolSteps, q) && !Outcome(bs, q).errored
    ensures Runs(c, s, steps, t) && t == AfterAll(c, s).(phase := Reported(Outcome(bs, q).correct))
  {
    var done := AfterAll(c, s);
    steps := CompareAll(c, s);
    OutcomeIsExact(c, s, s.pending, bs, errored, p, poolSteps, q);
    if !Outcome(bs, q).correct {
      AlarmComesFromBatch(c, s, bs, errored, p, poolSteps, q);
      DiffersInSomeBatch(c, s, bs, s.pending);
    }
    steps, t := Then(c, s, steps, done, Advance(Report(Outcome(bs, q).correct)));
  }

  /**
   The verification in the cutover is sound: if the pool's verdict on the flushed store is
   correct and without an error, every row that matters is the same on both sides, unless
   it was changed on one side after that side was last read, not delivered since, and not
   stored.
   */
  lemma CutoverIsSound(c: Config, s0: State, steps0: seq<Step>, s: State, bs: seq<ReverifyBatch>, errored: seq<bool>,
                       p: WorkerPools.Pool<Checked>, poolSteps: seq<WorkerPools.Step<Checked>>,
                       q: WorkerPools.Pool<Checked>, k: Key)
    requires Init(c, s0) && c.pageSize >= 1 && Runs(c, s0, steps0, s) && s.phase.Reverifying? && Settled(s)
    requires Partition(bs, s.store) && Compared(c, s, bs, errored, p, poolSteps, q)
    requires !ErroredOrFailed(Outcome(bs, q))
    requires Relevant(c, s, k) && (k in s.staleSource || k in s.staleTarget ==> k in s.store)
    ensures Agrees(c, s, k)
  {
    var steps1, s1 := Then(c, s0, steps0, s, Advance(StartCutover));
    SameComparisons(c, s, s1, bs, errored);
    InitInv(c, s0);
    RunKeeps(c, s0, steps0, s);
    var steps2, t := PoolReports(c, s1, bs, errored, p, poolSteps, q);
    RunsConcat(c, s0, steps1, s1, steps2, t);
    assert Relevant(c, t, k) && k !in t.missed;
    VerdictIsSound(c, s0, steps1 + steps2, t, k);
  }

  lemma SameComparisons(c: Config, s: State, s': State, bs: seq<ReverifyBatch>, errored: seq<bool>)
    requires |errored| == |bs| && s'.source == s.source && s'.target == s.target
    ensures Comparisons(c, s', bs, errored) == Comparisons(c, s, bs, errored)
  {
    assert forall b :: Mismatched(c, s', b) == Mismatched(c, s, b);
  }
}

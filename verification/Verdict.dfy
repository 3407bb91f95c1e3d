/**
 The verdict on the rows of the reverify store: what the worker pool leaves behind after
 comparing every batch, and how it is summed up.
 */
module Verdicts {
  import opened Rows
  import opened WorkerPools

  /** A verification result with its error, without the message. */
  datatype Checked = Checked(correct: bool, errored: bool)

  predicate ErroredOrFailed(r: Checked) {
    r.errored || !r.correct
  }

  /** What comparing the fingerprints of one batch came to. */
  datatype Comparison = Comparison(mismatched: bool, errored: bool)

  /** The result for one batch. Before the cutover a mismatch is put back into the store and forgiven. */
  function BatchResult(c: Comparison, beforeCutover: bool): (r: Checked)
    ensures r.errored <==> c.errored
    ensures r.correct <==> !c.errored && (beforeCutover || !c.mismatched)
  {
    if c.errored then Checked(false, true)
    else if beforeCutover then Checked(true, false)
    else Checked(!c.mismatched, false)
  }

  /** The first result that errored or failed, or else the last result there is. */
  function SummedUp(results: seq<Option<Checked>>, latest: Checked): Checked {
    if results == [] then latest
    else match results[0]
      case None => SummedUp(results[1..], latest)
      case Some(r) => if ErroredOrFailed(r) then r else SummedUp(results[1..], r)
  }

  const NOTHING := Checked(false, false)

  predicate Bad(r: Option<Checked>) {
    r.Some? && ErroredOrFailed(r.value)
  }

  /** The first result that errored or failed. */
  ghost predicate FirstBad(results: seq<Option<Checked>>, i: nat) {
    i < |results| && Bad(results[i]) && forall j :: 0 <= j < i ==> !Bad(results[j])
  }

  /** The last result, of those that are all good. */
  ghost predicate LastGood(results: seq<Option<Checked>>, i: nat) {
    && i < |results| && results[i].Some?
    && (forall j :: 0 <= j < |results| ==> !Bad(results[j])) && forall j :: i < j < |results| ==> results[j].None?
  }

  lemma {:induction false} SummedUpPicks(results: seq<Option<Checked>>, latest: Checked, i: nat)
    requires FirstBad(results, i) || LastGood(results, i)
    ensures Some(SummedUp(results, latest)) == results[i]
    decreases i
  {
    var rest := results[1..];
    if i > 0 {
      assert rest[i - 1] == results[i];
      assert FirstBad(results, i) ==> FirstBad(rest, i - 1);
      assert LastGood(results, i) ==> LastGood(rest, i - 1);
      SummedUpPicks(rest, if results[0].Some? then results[0].value else latest, i - 1);
    } else if LastGood(results, 0) {
      SummedUpNone(rest, results[0].value);
    }
  }

  lemma {:induction false} SummedUpNone(results: seq<Option<Checked>>, latest: Checked)
    requires forall j :: 0 <= j < |results| ==> results[j].None?
    ensures SummedUp(results, latest) == latest
  {
    if results != [] {
      SummedUpNone(results[1..], latest);
    }
  }

  /** The loop over the slots of the pool: the first bad result decides, or else the last one. */
  method SumUp(results: seq<Option<Checked>>) returns (verdict: Checked)
    ensures verdict == SummedUp(results, NOTHING)
    ensures forall i: nat :: FirstBad(results, i) || LastGood(results, i) ==> Some(verdict) == results[i]
    ensures (forall j :: 0 <= j < |results| ==> results[j].None?) ==> verdict == NOTHING
  {
    forall i: nat | FirstBad(results, i) || LastGood(results, i)
      ensures Some(SummedUp(results, NOTHING)) == results[i]
    {
      SummedUpPicks(results, NOTHING, i);
    }
    verdict := NOTHING;
    var i := 0;
    while i < |results|
      invariant 0 <= i <= |results|
      invariant SummedUp(results, NOTHING) == SummedUp(results[i..], verdict)
    {
      assert results[i..][1..] == results[i + 1..];
      if results[i].Some? {
        verdict := results[i].value;
        if ErroredOrFailed(verdict) {
          break;
        }
      }
      i := i + 1;
    }
    if forall j :: 0 <= j < |results| ==> results[j].None? {
      SummedUpNone(results, NOTHING);
    }
  }

  ghost predicate SomeBad(results: seq<Option<Checked>>) {
    exists r :: Some(r) in results && ErroredOrFailed(r)
  }

  ghost predicate SomeResult(results: seq<Option<Checked>>) {
    exists r :: Some(r) in results
  }

  lemma {:induction false} SummedUpIs(results: seq<Option<Checked>>, latest: Checked)
    ensures ErroredOrFailed(SummedUp(results, latest)) <==>
              SomeBad(results) || (!SomeResult(results) && ErroredOrFailed(latest))
  {
    if results != [] {
      var rest := results[1..];
      assert results == [results[0]] + rest;
      SummedUpIs(rest, if results[0].Some? then results[0].value else latest);
      if r :| Some(r) in rest {
        assert Some(r) in results;
      }
      if r :| Some(r) in rest && ErroredOrFailed(r) {
        assert Some(r) in results;
      }
      if results[0].Some? {
        assert Some(results[0].value) in results;
      }
    }
  }

  /** The pool's processing function, given how the comparison of each batch comes out. */
  ghost predicate Processes(done: seq<Item<Checked>>, batches: seq<Comparison>, beforeCutover: bool) {
    forall i :: 0 <= i < |done| ==>
      && done[i].index < |batches|
      && done[i].result == BatchResult(batches[done[i].index], beforeCutover)
      && (done[i].failed <==> ErroredOrFailed(done[i].result))
  }

  lemma BadMeansFailed(q: Pool<Checked>)
    requires WorkerPools.Inv(q)
    requires forall i :: 0 <= i < |q.done| ==> (q.done[i].failed <==> ErroredOrFailed(q.done[i].result))
    ensures SomeBad(q.results) <==> exists i :: 0 <= i < |q.done| && q.done[i].failed
  {
    if i :| 0 <= i < |q.done| && q.done[i].failed {
      assert q.results[q.done[i].worker] == Some(q.done[i].result);
      assert Some(q.done[i].result) in q.results;
    }
    if r :| Some(r) in q.results && ErroredOrFailed(r) {
      var j :| 0 <= j < |q.results| && q.results[j] == Some(r);
      ResultWasProduced(q.done, j);
    }
  }

  lemma WorkLeavesResult(q: Pool<Checked>)
    requires WorkerPools.Inv(q) && q.done != []
    ensures SomeResult(q.results)
  {
    var j := q.done[0].worker;
    ResultWasProduced(q.done, j);
    assert q.results[j] == LastResult(q.done, j);
    assert Some(q.results[j].value) in q.results;
  }

  /**
   In every schedule, the verdict on a store that is not empty is correct and without an
   error exactly if no batch errors or, in the cutover, mismatches; and then all batches
   were compared.
   */
  lemma VerdictIsExact(p: Pool<Checked>, steps: seq<Step<Checked>>, q: Pool<Checked>,
                       batches: seq<Comparison>, beforeCutover: bool)
    requires Init(p) && p.n == |batches| >= 1 && Runs(p, steps, q) && Returned(q)
    requires Processes(q.done, batches, beforeCutover)
    ensures !ErroredOrFailed(SummedUp(q.results, NOTHING)) <==>
              forall k :: 0 <= k < |batches| ==> !batches[k].errored && (beforeCutover || !batches[k].mismatched)
    ensures !ErroredOrFailed(SummedUp(q.results, NOTHING)) ==> AllSucceeded(q)
  {
    EverySchedule(p, steps, q);
    NoErrorIffAllSucceeded(p, steps, q);
    SummedUpIs(q.results, NOTHING);
    BadMeansFailed(q);
    if Returns(q).Some? {
      assert Failed(q.done, Returns(q).value);
    } else {
      assert IsDone(q.done, 0);
      WorkLeavesResult(q);
      forall k | 0 <= k < |batches| ensures !ErroredOrFailed(BatchResult(batches[k], beforeCutover)) {
        assert IsDone(q.done, k);
      }
    }
  }
}

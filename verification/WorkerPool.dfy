/**
 The worker pool: a dispatcher hands out the indices 0, 1, ... over an unbuffered channel
 to workers that run until the channel is closed or their processing fails. A step is one
 action of the dispatcher or of one worker, so a run is a schedule.
 */
module WorkerPools {
  import opened Rows

  datatype Worker = Idle | Working(index: nat) | Exited

  /** One finished call of the processing function. An error is known by its index. */
  datatype Item<R> = Item(index: nat, worker: nat, result: R, failed: bool)

  /** `errors` is the buffered error channel; `done` remembers everything that was processed. */
  datatype Pool<R> = Pool(
    n: nat, next: nat, closed: bool, err: Option<nat>,
    workers: seq<Worker>, results: seq<Option<R>>, errors: seq<Option<nat>>,
    done: seq<Item<R>>)

  datatype Step<R> =
    | Dispatch(worker: nat)
    | Discover
    | Close
    | Process(worker: nat, result: R, failed: bool)
    | Leave(worker: nat)

  predicate Init<R(==)>(p: Pool<R>) {
    && p.next == 0 && !p.closed && p.err == None && p.errors == [] && p.done == []
    && |p.results| == |p.workers|
    && forall j :: 0 <= j < |p.workers| ==> p.workers[j].Idle? && p.results[j].None?
  }

  /** Sending on the error channel needs room in it. */
  predicate Enabled<R>(p: Pool<R>, step: Step<R>) {
    match step
    case Dispatch(j) => !p.closed && p.next < p.n && p.err.None? && j < |p.workers| && p.workers[j].Idle?
    case Discover => !p.closed && p.next < p.n && p.err.None? && p.errors != []
    case Close => !p.closed && (p.next >= p.n || p.err.Some?)
    case Process(j, _, failed) =>
      && j < |p.workers| <= |p.results| && p.workers[j].Working?
      && (failed ==> |p.errors| < |p.workers|)
    case Leave(j) => p.closed && j < |p.workers| && p.workers[j].Idle? && |p.errors| < |p.workers|
  }

  function Apply<R>(p: Pool<R>, step: Step<R>): Pool<R>
    requires Enabled(p, step)
  {
    match step
    case Dispatch(j) => p.(workers := p.workers[j := Working(p.next)], next := p.next + 1)
    case Discover => p.(err := p.errors[0], errors := p.errors[1..])
    case Close => p.(closed := true)
    case Process(j, result, failed) =>
      var k := p.workers[j].index;
      var p' := p.(results := p.results[j := Some(result)], done := p.done + [Item(k, j, result, failed)]);
      if failed then p'.(errors := p.errors + [Some(k)], workers := p.workers[j := Exited])
      else p'.(workers := p.workers[j := Idle])
    case Leave(j) => p.(errors := p.errors + [None], workers := p.workers[j := Exited])
  }

  /** All workers have returned, so the pool does. */
  predicate Returned<R>(p: Pool<R>) {
    p.closed && forall j :: 0 <= j < |p.workers| ==> p.workers[j].Exited?
  }

  function LastError(errors: seq<Option<nat>>): Option<nat> {
    if errors == [] then None
    else
      var e := errors[|errors| - 1];
      if e.Some? then e else LastError(errors[..|errors| - 1])
  }

  /** The error the pool returns: the one discovered while dispatching, or the last one left in the channel. */
  function Returns<R>(p: Pool<R>): Option<nat> {
    if p.err.Some? then p.err else LastError(p.errors)
  }

  ghost predicate Runs<R>(p: Pool<R>, steps: seq<Step<R>>, q: Pool<R>)
    decreases |steps|
  {
    if steps == [] then p == q
    else Enabled(p, steps[0]) && Runs(Apply(p, steps[0]), steps[1..], q)
  }

  // What holds in every schedule.

  ghost predicate IsDone<R>(done: seq<Item<R>>, k: nat) {
    exists i :: 0 <= i < |done| && done[i].index == k
  }

  ghost predicate InProgress(workers: seq<Worker>, k: nat) {
    exists j :: 0 <= j < |workers| && workers[j] == Working(k)
  }

  /** Every index handed out is being processed or was, by one worker and once. */
  ghost predicate OnceEach<R>(p: Pool<R>) {
    && p.next <= p.n
    && (forall i :: 0 <= i < |p.done| ==> p.done[i].index < p.next)
    && (forall i, j :: 0 <= i < j < |p.done| ==> p.done[i].index != p.done[j].index)
    && (forall j :: 0 <= j < |p.workers| && p.workers[j].Working? ==>
          p.workers[j].index < p.next && !IsDone(p.done, p.workers[j].index))
    && (forall i, j :: 0 <= i < j < |p.workers| && p.workers[i].Working? ==> p.workers[i] != p.workers[j])
    && (forall k :: 0 <= k < p.next ==> IsDone(p.done, k) || InProgress(p.workers, k))
  }

  function LastResult<R>(done: seq<Item<R>>, worker: nat): Option<R> {
    if done == [] then None
    else
      var item := done[|done| - 1];
      if item.worker == worker then Some(item.result) else LastResult(done[..|done| - 1], worker)
  }

  /** Each slot holds its worker's latest result, and a failure is its worker's last act. */
  ghost predicate ResultsOk<R>(p: Pool<R>) {
    && |p.results| == |p.workers|
    && (forall j :: 0 <= j < |p.workers| ==> p.results[j] == LastResult(p.done, j))
    && (forall i :: 0 <= i < |p.done| ==> p.done[i].worker < |p.workers|)
    && (forall i :: 0 <= i < |p.done| && p.done[i].failed ==>
          p.workers[p.done[i].worker].Exited? && p.results[p.done[i].worker] == Some(p.done[i].result))
  }

  ghost predicate Failed<R>(done: seq<Item<R>>, k: nat) {
    exists i :: 0 <= i < |done| && done[i].index == k && done[i].failed
  }

  ghost predicate Reported<R>(p: Pool<R>, k: nat) {
    p.err == Some(k) || Some(k) in p.errors
  }

  /** Errors reported are failures that happened, and all of them. */
  ghost predicate ErrorsOk<R>(p: Pool<R>) {
    && (forall k: nat :: Reported(p, k) <==> Failed(p.done, k))
    && (!p.closed ==> None !in p.errors)
    && (p.closed ==> p.next >= p.n || p.err.Some?)
  }

  ghost predicate FailedOn<R>(done: seq<Item<R>>, j: nat) {
    exists i :: 0 <= i < |done| && done[i].worker == j && done[i].failed
  }

  /** Before the queue is closed a worker leaves only by failing. */
  ghost predicate ExitsOk<R>(p: Pool<R>) {
    !p.closed ==> forall j :: 0 <= j < |p.workers| && p.workers[j].Exited? ==> FailedOn(p.done, j)
  }

  function Exits(workers: seq<Worker>): nat {
    if workers == [] then 0
    else Exits(workers[..|workers| - 1]) + if workers[|workers| - 1].Exited? then 1 else 0
  }

  ghost predicate Inv<R>(p: Pool<R>) {
    OnceEach(p) && ResultsOk(p) && ErrorsOk(p) && ExitsOk(p) && |p.errors| <= Exits(p.workers)
  }

  lemma {:induction false} ExitCounts(workers: seq<Worker>, j: nat, w: Worker)
    requires j < |workers| && !workers[j].Exited?
    ensures Exits(workers) < |workers|
    ensures Exits(workers[j := w]) == Exits(workers) + if w.Exited? then 1 else 0
  {
    var n := |workers| - 1;
    ExitsBounded(workers[..n]);
    if j < n {
      ExitCounts(workers[..n], j, w);
      assert workers[j := w][..n] == workers[..n][j := w];
    } else {
      assert workers[j := w][..n] == workers[..n];
    }
  }

  lemma {:induction false} ExitsBounded(workers: seq<Worker>)
    ensures Exits(workers) <= |workers|
  {
    if workers != [] {
      ExitsBounded(workers[..|workers| - 1]);
    }
  }

  lemma IsDoneMore<R>(done: seq<Item<R>>, item: Item<R>, k: nat)
    ensures IsDone(done + [item], k) <==> IsDone(done, k) || item.index == k
  {
    var more := done + [item];
    if IsDone(done, k) {
      var i :| 0 <= i < |done| && done[i].index == k;
      assert more[i].index == k;
    }
    if item.index == k {
      assert more[|done|].index == k;
    }
  }

  lemma FailedMore<R>(done: seq<Item<R>>, item: Item<R>, k: nat)
    ensures Failed(done + [item], k) <==> Failed(done, k) || (item.index == k && item.failed)
  {
    var more := done + [item];
    if Failed(done, k) {
      var i :| 0 <= i < |done| && done[i].index == k && done[i].failed;
      assert more[i] == done[i];
    }
    if item.index == k && item.failed {
      assert more[|done|] == item;
    }
  }

  lemma FailedOnMore<R>(done: seq<Item<R>>, item: Item<R>, j: nat)
    ensures FailedOn(done + [item], j) <==> FailedOn(done, j) || (item.worker == j && item.failed)
  {
    var more := done + [item];
    if FailedOn(done, j) {
      var i :| 0 <= i < |done| && done[i].worker == j && done[i].failed;
      assert more[i] == done[i];
    }
    if item.worker == j && item.failed {
      assert more[|done|] == item;
    }
  }

  lemma InProgressUpdate(workers: seq<Worker>, j: nat, w: Worker, k: nat)
    requires j < |workers|
    requires InProgress(workers, k) && workers[j] != Working(k)
    ensures InProgress(workers[j := w], k)
  {
    var i :| 0 <= i < |workers| && workers[i] == Working(k);
    assert workers[j := w][i] == Working(k);
  }

  lemma DispatchOnceEach<R>(p: Pool<R>, j: nat)
    requires OnceEach(p) && Enabled(p, Dispatch(j))
    ensures OnceEach(Apply(p, Dispatch(j)))
  {
    var q := Apply(p, Dispatch(j));
    forall k | 0 <= k < q.next ensures IsDone(q.done, k) || InProgress(q.workers, k) {
      if k == p.next {
        assert q.workers[j] == Working(k);
      } else if !IsDone(p.done, k) {
        InProgressUpdate(p.workers, j, Working(p.next), k);
      }
    }
  }

  lemma ProcessOnceEach<R>(p: Pool<R>, j: nat, result: R, failed: bool)
    requires OnceEach(p) && Enabled(p, Process(j, result, failed))
    ensures OnceEach(Apply(p, Process(j, result, failed)))
  {
    var q := Apply(p, Process(j, result, failed));
    var item := Item(p.workers[j].index, j, result, failed);
    forall k ensures IsDone(q.done, k) <==> IsDone(p.done, k) || item.index == k {
      IsDoneMore(p.done, item, k);
    }
    forall i | 0 <= i < |p.done| ensures p.done[i].index != item.index {
      assert IsDone(p.done, p.done[i].index);
    }
    forall k | 0 <= k < q.next ensures IsDone(q.done, k) || InProgress(q.workers, k) {
      if !IsDone(p.done, k) && k != item.index {
        InProgressUpdate(p.workers, j, q.workers[j], k);
      }
    }
  }

  lemma LeaveOnceEach<R>(p: Pool<R>, j: nat)
    requires OnceEach(p) && Enabled(p, Leave(j))
    ensures OnceEach(Apply(p, Leave(j)))
  {
    var q := Apply(p, Leave(j));
    forall k | 0 <= k < q.next ensures IsDone(q.done, k) || InProgress(q.workers, k) {
      if !IsDone(p.done, k) {
        InProgressUpdate(p.workers, j, Exited, k);
      }
    }
  }

  lemma ProcessResultsOk<R>(p: Pool<R>, j: nat, result: R, failed: bool)
    requires ResultsOk(p) && Enabled(p, Process(j, result, failed))
    ensures ResultsOk(Apply(p, Process(j, result, failed)))
  {
    var q := Apply(p, Process(j, result, failed));
    assert q.done[..|p.done|] == p.done;
  }

  lemma ProcessErrorsOk<R>(p: Pool<R>, j: nat, result: R, failed: bool)
    requires ErrorsOk(p) && Enabled(p, Process(j, result, failed))
    ensures ErrorsOk(Apply(p, Process(j, result, failed)))
  {
    var q := Apply(p, Process(j, result, failed));
    forall k: nat ensures Reported(q, k) <==> Failed(q.done, k) {
      FailedMore(p.done, Item(p.workers[j].index, j, result, failed), k);
      assert Reported(p, k) <==> Failed(p.done, k);
    }
  }

  lemma ProcessExitsOk<R>(p: Pool<R>, j: nat, result: R, failed: bool)
    requires ExitsOk(p) && Enabled(p, Process(j, result, failed))
    ensures ExitsOk(Apply(p, Process(j, result, failed)))
  {
    var q := Apply(p, Process(j, result, failed));
    forall i: nat | i < |q.workers| && q.workers[i].Exited? && !q.closed ensures FailedOn(q.done, i) {
      FailedOnMore(p.done, Item(p.workers[j].index, j, result, failed), i);
    }
  }

  lemma DiscoverErrorsOk<R>(p: Pool<R>)
    requires ErrorsOk(p) && Enabled(p, Discover)
    ensures ErrorsOk(Apply(p, Discover))
  {
    var q := Apply(p, Discover);
    assert p.errors == [p.errors[0]] + p.errors[1..];
    assert p.errors[0] in p.errors;
    forall k: nat ensures Reported(q, k) <==> Failed(q.done, k) {
      assert Reported(p, k) <==> Failed(p.done, k);
    }
  }

  lemma LeaveErrorsOk<R>(p: Pool<R>, j: nat)
    requires ErrorsOk(p) && Enabled(p, Leave(j))
    ensures ErrorsOk(Apply(p, Leave(j)))
  {
    var q := Apply(p, Leave(j));
    forall k: nat ensures Reported(q, k) <==> Failed(q.done, k) {
      assert Reported(p, k) <==> Failed(p.done, k);
    }
  }

  lemma StepKeeps<R>(p: Pool<R>, step: Step<R>)
    requires Inv(p) && Enabled(p, step)
    ensures Inv(Apply(p, step))
  {
    match step {
      case Dispatch(j) =>
        DispatchOnceEach(p, j);
        ExitCounts(p.workers, j, Working(p.next));
        DispatchRest(p, j);
      case Discover =>
        DiscoverErrorsOk(p);
      case Close =>
        CloseRest(p);
      case Process(j, result, failed) =>
        ProcessOnceEach(p, j, result, failed);
        ProcessResultsOk(p, j, result, failed);
        ProcessErrorsOk(p, j, result, failed);
        ProcessExitsOk(p, j, result, failed);
        ExitCounts(p.workers, j, if failed then Exited else Idle);
      case Leave(j) =>
        LeaveOnceEach(p, j);
        LeaveErrorsOk(p, j);
        ExitCounts(p.workers, j, Exited);
    }
  }

  lemma DispatchRest<R>(p: Pool<R>, j: nat)
    requires ResultsOk(p) && ErrorsOk(p) && ExitsOk(p) && Enabled(p, Dispatch(j))
    ensures ResultsOk(Apply(p, Dispatch(j))) && ErrorsOk(Apply(p, Dispatch(j))) && ExitsOk(Apply(p, Dispatch(j)))
  {
    var q := Apply(p, Dispatch(j));
    assert forall k: nat :: Reported(q, k) <==> Reported(p, k);
  }

  lemma CloseRest<R>(p: Pool<R>)
    requires ErrorsOk(p) && Enabled(p, Close)
    ensures ErrorsOk(Apply(p, Close))
  {
    var q := Apply(p, Close);
    assert forall k: nat :: Reported(q, k) <==> Reported(p, k);
  }

  lemma {:induction false} NoExits(workers: seq<Worker>)
    requires forall j :: 0 <= j < |workers| ==> workers[j].Idle?
    ensures Exits(workers) == 0
  {
    if workers != [] {
      NoExits(workers[..|workers| - 1]);
    }
  }

  lemma {:induction false} RunKeeps<R>(p: Pool<R>, steps: seq<Step<R>>, q: Pool<R>)
    requires Inv(p) && Runs(p, steps, q)
    ensures Inv(q) && q.n == p.n && |q.workers| == |p.workers|
    decreases |steps|
  {
    if steps != [] {
      StepKeeps(p, steps[0]);
      RunKeeps(Apply(p, steps[0]), steps[1..], q);
    }
  }

  /** The invariant of every schedule. */
  lemma EverySchedule<R>(p: Pool<R>, steps: seq<Step<R>>, q: Pool<R>)
    requires Init(p) && Runs(p, steps, q)
    ensures Inv(q) && q.n == p.n && |q.workers| == |p.workers|
  {
    NoExits(p.workers);
    RunKeeps(p, steps, q);
  }

  lemma {:induction false} LastErrorIs(errors: seq<Option<nat>>)
    ensures LastError(errors).None? <==> forall k: nat :: Some(k) !in errors
    ensures LastError(errors).Some? ==> LastError(errors) in errors
  {
    if errors != [] {
      var n := |errors| - 1;
      LastErrorIs(errors[..n]);
      assert errors == errors[..n] + [errors[n]];
    }
  }

  /** Every index was processed, by one worker and once, and none failed. */
  ghost predicate AllSucceeded<R>(p: Pool<R>) {
    && (forall k :: 0 <= k < p.n ==> IsDone(p.done, k))
    && (forall i, j :: 0 <= i < j < |p.done| ==> p.done[i].index != p.done[j].index)
    && (forall i :: 0 <= i < |p.done| ==> !p.done[i].failed)
  }

  /**
   The pool returns no error exactly if everything was processed, without a failure; an
   error it returns did occur.
   */
  lemma NoErrorIffAllSucceeded<R>(p: Pool<R>, steps: seq<Step<R>>, q: Pool<R>)
    requires Init(p) && Runs(p, steps, q) && Returned(q)
    ensures Returns(q).None? <==> AllSucceeded(q)
    ensures Returns(q).Some? ==> Failed(q.done, Returns(q).value)
  {
    EverySchedule(p, steps, q);
    LastErrorIs(q.errors);
    if Returns(q).Some? {
      assert Reported(q, Returns(q).value);
    } else {
      forall k | 0 <= k < q.n ensures IsDone(q.done, k) {
        assert !InProgress(q.workers, k);
      }
      forall i | 0 <= i < |q.done| ensures !q.done[i].failed {
        assert !Reported(q, q.done[i].index);
      }
    }
  }

  /** A worker that failed leaves its result behind: nothing overwrites it. */
  lemma FailureStays<R>(p: Pool<R>, steps: seq<Step<R>>, q: Pool<R>, i: nat)
    requires Init(p) && Runs(p, steps, q) && i < |q.done| && q.done[i].failed
    ensures q.done[i].worker < |q.results| && q.results[q.done[i].worker] == Some(q.done[i].result)
  {
    EverySchedule(p, steps, q);
  }

  /** Every result left behind is one that some processing produced. */
  lemma {:induction false} ResultWasProduced<R>(done: seq<Item<R>>, j: nat)
    ensures LastResult(done, j).Some? ==>
              exists i :: 0 <= i < |done| && done[i].worker == j && Some(done[i].result) == LastResult(done, j)
    ensures LastResult(done, j).None? ==> forall i :: 0 <= i < |done| ==> done[i].worker != j
  {
    if done != [] {
      var n := |done| - 1;
      ResultWasProduced(done[..n], j);
      if done[n].worker != j && LastResult(done, j).Some? {
        var i :| 0 <= i < n && done[..n][i].worker == j && Some(done[..n][i].result) == LastResult(done, j);
        assert done[i] == done[..n][i];
      }
    }
  }

  /** No schedule gets stuck: until the pool returns, somebody can go on, whatever processing yields. */
  lemma NoDeadlock<R(!new)>(p: Pool<R>, steps: seq<Step<R>>, q: Pool<R>, result: R, failed: bool)
    requires Init(p) && |p.workers| >= 1 && Runs(p, steps, q) && !Returned(q)
    ensures exists step ::
              Enabled(q, step) && (step.Process? ==> step.result == result && step.failed == failed)
  {
    EverySchedule(p, steps, q);
    if j: nat :| j < |q.workers| && q.workers[j].Working? {
      ExitCounts(q.workers, j, Exited);
      assert Enabled(q, Process(j, result, failed));
    } else if q.closed {
      var j: nat :| j < |q.workers| && !q.workers[j].Exited?;
      ExitCounts(q.workers, j, Exited);
      assert Enabled(q, Step<R>.Leave(j));
    } else if q.next >= q.n || q.err.Some? {
      assert Enabled(q, Step<R>.Close);
    } else if j: nat :| j < |q.workers| && q.workers[j].Idle? {
      assert Enabled(q, Step<R>.Dispatch(j));
    } else {
      assert FailedOn(q.done, 0);
      var i :| 0 <= i < |q.done| && q.done[i].worker == 0 && q.done[i].failed;
      assert Failed(q.done, q.done[i].index);
      assert Reported(q, q.done[i].index);
      assert Enabled(q, Step<R>.Discover);
    }
  }

  // ---- which error is returned ---------------------------------------------

  /** The indices that failed, in the order in which they did. */
  function Failures<R>(done: seq<Item<R>>): seq<nat> {
    if done == [] then []
    else
      var n := |done| - 1;
      Failures(done[..n]) + if done[n].failed then [done[n].index] else []
  }

  /** The errors in the channel, in order. */
  function Errors(errors: seq<Option<nat>>): seq<nat> {
    if errors == [] then []
    else
      var n := |errors| - 1;
      Errors(errors[..n]) + if errors[n].Some? then [errors[n].value] else []
  }

  lemma ErrorsMore(errors: seq<Option<nat>>, e: Option<nat>)
    ensures Errors(errors + [e]) == Errors(errors) + if e.Some? then [e.value] else []
  {
    assert (errors + [e])[..|errors|] == errors;
  }

  lemma FailuresMore<R>(done: seq<Item<R>>, item: Item<R>)
    ensures Failures(done + [item]) == Failures(done) + if item.failed then [item.index] else []
  {
    assert (done + [item])[..|done|] == done;
  }

  lemma {:induction false} ErrorsFirst(errors: seq<Option<nat>>)
    requires errors != [] && errors[0].Some?
    ensures Errors(errors) == [errors[0].value] + Errors(errors[1..])
  {
    var n := |errors| - 1;
    if n == 0 {
      assert errors[..0] == [] && errors[1..] == [];
    } else {
      ErrorsFirst(errors[..n]);
      assert errors[1..][..n - 1] == errors[..n][1..];
    }
  }

  /** The error taken from the channel, if any, and those still in it are the failures so far, in order. */
  ghost predicate InOrder<R>(p: Pool<R>) {
    (if p.err.Some? then [p.err.value] else []) + Errors(p.errors) == Failures(p.done)
  }

  lemma StepKeepsOrder<R>(p: Pool<R>, step: Step<R>)
    requires InOrder(p) && ErrorsOk(p) && Enabled(p, step)
    ensures InOrder(Apply(p, step))
  {
    match step
    case Discover => DiscoverKeepsOrder(p);
    case Process(j, result, failed) => ProcessKeepsOrder(p, j, result, failed);
    case Leave(j) => ErrorsMore(p.errors, None);
    case _ =>
  }

  lemma DiscoverKeepsOrder<R>(p: Pool<R>)
    requires InOrder(p) && ErrorsOk(p) && Enabled(p, Discover)
    ensures InOrder(Apply(p, Discover))
  {
    assert p.errors[0] in p.errors;
    ErrorsFirst(p.errors);
  }

  lemma ProcessKeepsOrder<R>(p: Pool<R>, j: nat, result: R, failed: bool)
    requires InOrder(p) && Enabled(p, Process(j, result, failed))
    ensures InOrder(Apply(p, Process(j, result, failed)))
  {
    var k := p.workers[j].index;
    ErrorsMore(p.errors, Some(k));
    FailuresMore(p.done, Item(k, j, result, failed));
    if failed {
      Associate(if p.err.Some? then [p.err.value] else [], Errors(p.errors), [k]);
    }
  }

  lemma Associate(a: seq<nat>, b: seq<nat>, c: seq<nat>)
    ensures a + (b + c) == a + b + c
  {
  }

  lemma {:induction false} RunKeepsOrder<R>(p: Pool<R>, steps: seq<Step<R>>, q: Pool<R>)
    requires Inv(p) && InOrder(p) && Runs(p, steps, q)
    ensures InOrder(q)
    decreases |steps|
  {
    if steps != [] {
      StepKeepsOrder(p, steps[0]);
      StepKeeps(p, steps[0]);
      RunKeepsOrder(Apply(p, steps[0]), steps[1..], q);
    }
  }

  lemma {:induction false} LastErrorIsLast(errors: seq<Option<nat>>)
    ensures var es := Errors(errors); LastError(errors) == if es == [] then None else Some(es[|es| - 1])
  {
    if errors != [] {
      LastErrorIsLast(errors[..|errors| - 1]);
    }
  }

  /** The pool returns the first failure if it was discovered while indices were handed out, or else the last one. */
  lemma ReturnedError<R>(p: Pool<R>, steps: seq<Step<R>>, q: Pool<R>)
    requires Init(p) && Runs(p, steps, q)
    ensures var fs := Failures(q.done);
            Returns(q) == if fs == [] then None else if q.err.Some? then Some(fs[0]) else Some(fs[|fs| - 1])
  {
    NoExits(p.workers);
    RunKeepsOrder(p, steps, q);
    LastErrorIsLast(q.errors);
  }

  lemma {:induction false} FailureIsDone<R>(done: seq<Item<R>>, i: nat)
    requires i < |Failures(done)|
    ensures exists j :: 0 <= j < |done| && done[j].index == Failures(done)[i]
  {
    var n := |done| - 1;
    if i < |Failures(done[..n])| {
      FailureIsDone(done[..n], i);
      var j :| 0 <= j < n && done[..n][j].index == Failures(done[..n])[i];
      assert done[j] == done[..n][j];
    } else {
      assert done[n].index == Failures(done)[i];
    }
  }

  lemma {:induction false} FailuresDistinct<R>(done: seq<Item<R>>)
    requires forall i, j :: 0 <= i < j < |done| ==> done[i].index != done[j].index
    ensures forall i, j :: 0 <= i < j < |Failures(done)| ==> Failures(done)[i] != Failures(done)[j]
  {
    if done != [] {
      var n := |done| - 1;
      FailuresDistinct(done[..n]);
      forall i: nat | i < |Failures(done[..n])| ensures Failures(done[..n])[i] != done[n].index {
        FailureIsDone(done[..n], i);
      }
    }
  }

  /** So it is the first failure exactly if that was discovered, or is the only one. */
  lemma FirstErrorIff<R>(p: Pool<R>, steps: seq<Step<R>>, q: Pool<R>)
    requires Init(p) && Runs(p, steps, q) && Failures(q.done) != []
    ensures Returns(q) == Some(Failures(q.done)[0]) <==> q.err.Some? || |Failures(q.done)| == 1
  {
    ReturnedError(p, steps, q);
    EverySchedule(p, steps, q);
    FailuresDistinct(q.done);
  }

  lemma First<R>(p: Pool<R>, step: Step<R>, m: Pool<R>, rest: seq<Step<R>>, q: Pool<R>)
    requires Enabled(p, step) && m == Apply(p, step) && Runs(m, rest, q)
    ensures Runs(p, [step] + rest, q)
  {
    assert ([step] + rest)[1..] == rest;
  }

  /** Two workers that process two indices. */
  function Two<R>(next: nat, workers: seq<Worker>, results: seq<Option<R>>, done: seq<Item<R>>): Pool<R> {
    Pool(2, next, false, None, workers, results, seq(|done|, i requires 0 <= i < |done| => Some(done[i].index)), done)
  }

  lemma BothFail<R>(a: R, b: R) returns (steps: seq<Step<R>>, q: Pool<R>)
    ensures var p := Two(2, [Working(0), Working(1)], [None, None], []); Runs(p, steps, q)
    ensures q == Two(2, [Exited, Exited], [Some(a), Some(b)],
                     [Item(0, 0, a, true), Item(1, 1, b, true)]).(closed := true)
  {
    var x, y := Item(0, 0, a, true), Item(1, 1, b, true);
    var p := Two(2, [Working(0), Working(1)], [None, None], []);
    var p1 := Two(2, [Exited, Working(1)], [Some(a), None], [x]);
    var p2 := Two(2, [Exited, Exited], [Some(a), Some(b)], [x, y]);
    q := p2.(closed := true);
    First(p2, Close, q, [], q);
    assert Apply(p1, Process(1, b, true)) == p2;
    First(p1, Process(1, b, true), p2, [Close] + [], q);
    assert Apply(p, Process(0, a, true)) == p1;
    First(p, Process(0, a, true), p1, [Process(1, b, true)] + ([Close] + []), q);
    steps := [Process(0, a, true)] + ([Process(1, b, true)] + ([Close] + []));
  }

  lemma BothStart<R>(rest: seq<Step<R>>, q: Pool<R>)
    requires Runs(Two(2, [Working(0), Working(1)], [None, None], []), rest, q)
    ensures Runs(Two(0, [Idle, Idle], [None, None], []), [Dispatch(0)] + ([Dispatch(1)] + rest), q)
  {
    var p: Pool<R> := Two(0, [Idle, Idle], [None, None], []);
    var p1: Pool<R> := Two(1, [Working(0), Idle], [None, None], []);
    var p2: Pool<R> := Two(2, [Working(0), Working(1)], [None, None], []);
    assert Apply(p1, Dispatch(1)) == p2;
    First(p1, Dispatch(1), p2, rest, q);
    assert Apply(p, Dispatch(0)) == p1;
    First(p, Dispatch(0), p1, [Dispatch(1)] + rest, q);
  }

  lemma TwoFailures<R>(x: Item<R>, y: Item<R>)
    requires x.failed && y.failed
    ensures Failures([x, y]) == [x.index, y.index]
  {
    FailuresMore([], x);
    FailuresMore([x], y);
    assert [] + [x] == [x] && [x] + [y] == [x, y];
  }

  /** And it need not be: two workers fail one after the other, and the second error is returned. */
  lemma LaterErrorReturned<R>(a: R, b: R) returns (p: Pool<R>, steps: seq<Step<R>>, q: Pool<R>)
    ensures Init(p) && Runs(p, steps, q) && Returned(q)
    ensures Failures(q.done) == [0, 1] && Returns(q) == Some(1)
  {
    p := Two(0, [Idle, Idle], [None, None], []);
    steps, q := BothFail(a, b);
    BothStart(steps, q);
    steps := [Dispatch(0)] + ([Dispatch(1)] + steps);
    TwoFailures(Item(0, 0, a, true), Item(1, 1, b, true));
    ReturnedError(p, steps, q);
  }
}

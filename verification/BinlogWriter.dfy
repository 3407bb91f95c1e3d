/**
 The writer's loop: draining the channel into batches and writing them, while the streamer
 fills the channel and in the end closes it.
 */
module BinlogWriting {
  import opened Rows

  function Flatten(batches: seq<seq<Change>>): seq<Change> {
    if batches == [] then [] else Flatten(batches[..|batches| - 1]) + batches[|batches| - 1]
  }

  lemma FlattenNext(batches: seq<seq<Change>>, batch: seq<Change>)
    ensures Flatten(batches + [batch]) == Flatten(batches) + batch
  {
    assert (batches + [batch])[..|batches|] == batches;
  }

  ghost predicate GoodBatches(batches: seq<seq<Change>>, size: nat) {
    forall i :: 0 <= i < |batches| ==> 1 <= |batches[i]| <= size
  }

  /**
   One try to write a batch. An error may be reported although the transaction reached the
   target; a try may also report that it was cancelled.
   */
  datatype Attempt = Succeeds | FailsBefore | FailsAfter | Cancels

  predicate Fails(a: Attempt) {
    a.FailsBefore? || a.FailsAfter?
  }

  datatype Outcome = Exited | Fatal | Cancelled | Unfinished

  /**
   The loop comes to try `i`: all before it failed, and in the wait after each of them the
   context was not done. `retries` is how many tries are allowed, or 0.
   */
  ghost predicate Tried(attempts: seq<Attempt>, done: nat -> bool, retries: nat, i: nat) {
    && i < |attempts| && (retries != 0 ==> i < retries)
    && forall j: nat :: j < i ==> Fails(attempts[j]) && !done(j)
  }

  ghost predicate FirstSuccess(attempts: seq<Attempt>, done: nat -> bool, retries: nat, i: nat) {
    Tried(attempts, done, retries, i) && attempts[i].Succeeds?
  }

  /** The last allowed try fails. */
  ghost predicate LastFailure(attempts: seq<Attempt>, done: nat -> bool, retries: nat, i: nat) {
    Tried(attempts, done, retries, i) && Fails(attempts[i]) && i + 1 == retries
  }

  /** The try is cancelled, or fails and the context is done in the wait for another. */
  ghost predicate Interrupted(attempts: seq<Attempt>, done: nat -> bool, retries: nat, i: nat) {
    && Tried(attempts, done, retries, i)
    && (attempts[i].Cancels? || (Fails(attempts[i]) && i + 1 != retries && done(i)))
  }

  /** How often the transaction reached the target in the first `n` tries. */
  function Reached(attempts: seq<Attempt>, n: nat): nat
    requires n <= |attempts|
  {
    if n == 0 then 0
    else Reached(attempts, n - 1) + if attempts[n - 1].Succeeds? || attempts[n - 1].FailsAfter? then 1 else 0
  }

  /** The retry loop ends with the first success, with the last allowed try, or when it is cancelled. */
  method WithRetriesContext(attempts: seq<Attempt>, done: nat -> bool, maxRetries: nat)
      returns (r: Outcome, reached: nat)
    ensures r == Exited <==> exists i: nat :: FirstSuccess(attempts, done, maxRetries, i)
    ensures r == Exited ==>
              exists i: nat :: FirstSuccess(attempts, done, maxRetries, i) && reached == Reached(attempts, i + 1) >= 1
    ensures r == Fatal <==> exists i: nat :: LastFailure(attempts, done, maxRetries, i)
    ensures r == Cancelled <==> exists i: nat :: Interrupted(attempts, done, maxRetries, i)
  {
    var tries := 0;
    reached := 0;
    while tries < |attempts|
      invariant 0 <= tries <= |attempts| && (maxRetries != 0 ==> tries < maxRetries)
      invariant forall i: nat :: i < tries ==> Fails(attempts[i]) && !done(i)
      invariant reached == Reached(attempts, tries)
    {
      ghost var tried := tries;
      if attempts[tries].Succeeds? || attempts[tries].FailsAfter? {
        reached := reached + 1;
      }
      if attempts[tries].Succeeds? {
        assert FirstSuccess(attempts, done, maxRetries, tried);
        return Exited, reached;
      }
      if attempts[tries].Cancels? {
        assert Interrupted(attempts, done, maxRetries, tried);
        return Cancelled, reached;
      }
      tries := tries + 1;
      if maxRetries != 0 && tries >= maxRetries {
        assert LastFailure(attempts, done, maxRetries, tried);
        return Fatal, reached;
      }
      if done(tries - 1) {
        assert Interrupted(attempts, done, maxRetries, tried);
        return Cancelled, reached;
      }
    }
    r := Unfinished;
  }

  /** Without a context nothing is ever done early. */
  function Never(i: nat): bool {
    false
  }

  method WithRetries(attempts: seq<Attempt>, maxRetries: nat) returns (r: Outcome, reached: nat)
    ensures r == Exited <==> exists i: nat :: FirstSuccess(attempts, Never, maxRetries, i)
    ensures r == Exited ==>
              exists i: nat :: FirstSuccess(attempts, Never, maxRetries, i) && reached == Reached(attempts, i + 1) >= 1
    ensures r == Fatal <==> exists i: nat :: LastFailure(attempts, Never, maxRetries, i)
    ensures r == Cancelled <==> exists i: nat :: Interrupted(attempts, Never, maxRetries, i)
  {
    r, reached := WithRetriesContext(attempts, Never, maxRetries);
  }

  lemma Regroup(a: seq<Change>, b: seq<Change>, c: seq<Change>, d: seq<Change>)
    ensures a + b + [] + c + d == a + b + c + d
  {
  }

  lemma Drained(a: seq<Change>)
    ensures a + [] + [] + [] == a
  {
  }

  class BinlogWriter {
    const batchSize: nat
    const writeRetries: nat             // 0 means without limit

    var buffer: seq<Change>             // the channel, of capacity batchSize
    var closed: bool
    var incoming: seq<Change>           // what the streamer has still to send, before it closes the channel
    var written: seq<seq<Change>>       // the batches written to the target
    var times: seq<nat>                 // how often each of them reached it

    /** `batch` is what the loop has taken out of the channel and not yet written. */
    ghost predicate Conserves(all: seq<Change>, batch: seq<Change>)
      reads this
    {
      && batchSize >= 1 && |buffer| <= batchSize
      && Flatten(written) + batch + buffer + incoming == all
      && GoodBatches(written, batchSize)
      && |times| == |written| && (forall i :: 0 <= i < |times| ==> times[i] >= 1)
      && (closed ==> incoming == [])
    }

    constructor (batchSize: nat, writeRetries: nat, incoming: seq<Change>)
      requires batchSize >= 1
      ensures Conserves(incoming, []) && buffer == [] && written == [] && !closed && this.incoming == incoming
      ensures this.batchSize == batchSize && this.writeRetries == writeRetries
    {
      this.batchSize, this.writeRetries, this.incoming := batchSize, writeRetries, incoming;
      buffer, closed, written, times := [], false, [], [];
    }

    /**
     The streamer's loop over its events: each goes to the end of the channel, in order. It
     gets as far as it wants to or as there is room; then it blocks.
     */
    method BufferBinlogEvents(n: nat, ghost all: seq<Change>, ghost batch: seq<Change>) returns (sent: nat)
      requires Conserves(all, batch)
      modifies this`buffer, this`incoming
      ensures Conserves(all, batch) && sent <= n && sent <= |old(incoming)|
      ensures buffer == old(buffer) + old(incoming)[..sent] && incoming == old(incoming)[sent..]
      ensures sent == n || incoming == [] || |buffer| == batchSize
    {
      sent := 0;
      while sent < n && incoming != [] && |buffer| < batchSize
        invariant Conserves(all, batch) && sent <= n && sent <= |old(incoming)|
        invariant buffer == old(buffer) + old(incoming)[..sent] && incoming == old(incoming)[sent..]
      {
        MoveFirst(Flatten(written) + batch, buffer, incoming);
        buffer, incoming := buffer + [incoming[0]], incoming[1..];
        sent := sent + 1;
      }
    }

    method Stop(ghost all: seq<Change>, ghost batch: seq<Change>)
      requires Conserves(all, batch) && incoming == [] && !closed
      modifies this`closed
      ensures Conserves(all, batch) && closed
    {
      closed := true;
    }

    /** The streamer runs: it sends up to `n` events, and once it has none left it may close the channel. */
    method Streaming(n: nat, ghost all: seq<Change>, ghost batch: seq<Change>)
      requires Conserves(all, batch)
      modifies this`buffer, this`incoming, this`closed
      ensures Conserves(all, batch) && |buffer| + |incoming| == |old(buffer)| + |old(incoming)|
      ensures n >= 1 ==> buffer != [] || closed
    {
      var sent := BufferBinlogEvents(n, all, batch);
      if incoming == [] && sent < n && !closed {
        Stop(all, batch);
      }
    }

    /** Takes the first event, if there is one. */
    method Take(ghost all: seq<Change>, ghost batch: seq<Change>) returns (event: Change)
      requires Conserves(all, batch) && buffer != []
      modifies this`buffer
      ensures Conserves(all, batch + [event]) && buffer == old(buffer)[1..]
    {
      event := buffer[0];
      assert Flatten(written) + batch + buffer + incoming
          == Flatten(written) + (batch + [buffer[0]]) + buffer[1..] + incoming;
      buffer := buffer[1..];
    }

    /**
     The blocking receive: it yields nil only if the channel is closed and drained, and until
     then the streamer goes on.
     */
    method Receive(ghost all: seq<Change>) returns (event: Option<Change>)
      requires Conserves(all, [])
      modifies this`buffer, this`incoming, this`closed
      ensures event.None? ==> closed && buffer == [] && Conserves(all, [])
      ensures event.Some? ==> Conserves(all, [event.value])
      ensures event.Some? ==> |buffer| + |incoming| == |old(buffer)| + |old(incoming)| - 1
    {
      while buffer == [] && !closed
        invariant Conserves(all, []) && |buffer| + |incoming| == |old(buffer)| + |old(incoming)|
        decreases buffer == [] && !closed
      {
        Streaming(1, all, []);
      }
      if buffer == [] {
        return None;
      }
      var first := Take(all, []);
      assert [] + [first] == [first];
      event := Some(first);
    }

    /**
     The inner loop: it takes what is there, without waiting. `sends` is how far the streamer
     gets before each look.
     */
    method FillBatch(first: Change, sends: seq<nat>, ghost all: seq<Change>) returns (batch: seq<Change>)
      requires Conserves(all, [first])
      modifies this`buffer, this`incoming, this`closed
      ensures Conserves(all, batch) && 1 <= |batch| <= batchSize
      ensures |buffer| + |incoming| <= |old(buffer)| + |old(incoming)|
      ensures |batch| == batchSize || buffer == []
    {
      batch := [first];
      var wantMoreEvents := true;
      while wantMoreEvents && |batch| < batchSize
        invariant Conserves(all, batch) && 1 <= |batch| <= batchSize
        invariant |buffer| + |incoming| <= |old(buffer)| + |old(incoming)|
        invariant !wantMoreEvents ==> buffer == []
        decreases batchSize - |batch|, wantMoreEvents
      {
        Streaming(if |batch| < |sends| then sends[|batch|] else 0, all, batch);
        if buffer != [] {
          var event := Take(all, batch);
          batch := batch + [event];
        } else {
          wantMoreEvents := false;
        }
      }
    }

    /** These tries write a batch, which reaches the target so often. */
    ghost predicate WrittenBy(attempts: seq<Attempt>, times: nat) {
      exists i: nat :: FirstSuccess(attempts, Never, writeRetries, i) && times == Reached(attempts, i + 1)
    }

    /** How the tries for a batch end. */
    ghost predicate TriesEnd(attempts: seq<Attempt>, r: Outcome) {
      && (r == Exited <==> exists i: nat :: FirstSuccess(attempts, Never, writeRetries, i))
      && (r == Fatal <==> exists i: nat :: LastFailure(attempts, Never, writeRetries, i))
      && (r == Cancelled <==> exists i: nat :: Interrupted(attempts, Never, writeRetries, i))
    }

    /** Writing a batch. When it is done, it has reached the target at least once, and maybe more often. */
    method WriteEvents(batch: seq<Change>, attempts: seq<Attempt>, ghost all: seq<Change>) returns (r: Outcome)
      requires Conserves(all, batch) && 1 <= |batch| <= batchSize
      modifies this`written, this`times
      ensures r == Exited ==> Conserves(all, []) && written == old(written) + [batch]
      ensures r == Exited ==> |times| == |written| && times[..|times| - 1] == old(times)
      ensures r == Exited ==> WrittenBy(attempts, times[|times| - 1])
      ensures r != Exited ==> Conserves(all, batch) && written == old(written) && times == old(times)
      ensures TriesEnd(attempts, r)
    {
      var reached;
      r, reached := WithRetries(attempts, writeRetries);
      if r == Exited {
        FlattenNext(written, batch);
        Regroup(Flatten(written), batch, buffer, incoming);
        written, times := written + [batch], times + [reached];
      }
    }

    /** Every batch from number `from` on was written by its tries. */
    ghost predicate AllWritten(attempts: nat -> seq<Attempt>, from: nat)
      reads this
    {
      from <= |times| == |written| && forall n :: from <= n < |written| ==> WrittenBy(attempts(n), times[n])
    }

    /** One turn of the loop: a batch is filled and written. What is not written stays in hand. */
    method NextBatch(first: Change, sends: nat -> seq<nat>, attempts: nat -> seq<Attempt>, ghost all: seq<Change>)
        returns (r: Outcome, batch: seq<Change>)
      requires Conserves(all, [first])
      modifies this
      ensures Conserves(all, batch) && |buffer| + |incoming| <= |old(buffer)| + |old(incoming)|
      ensures old(written) <= written && |written| == old(|written|) + if r == Exited then 1 else 0
      ensures old(times) <= times && |times| == |written|
      ensures TriesEnd(attempts(old(|written|)), r)
      ensures if r == Exited then batch == [] && WrittenBy(attempts(|written| - 1), times[|written| - 1])
              else 1 <= |batch| <= batchSize
    {
      batch := FillBatch(first, sends(|written|), all);
      r := WriteEvents(batch, attempts(|written|), all);
      if r == Exited {
        batch := [];
      }
    }

    /**
     FIFO conservation. `sends` and `attempts` say how the streamer and the target behave
     for each batch. The loop is left only because the channel is closed and drained, and
     then everything has been written, in order, in non-empty batches of at most the batch
     size, each of which reached the target at least once. It ends otherwise exactly as the
     tries for the next batch do, and then what is written, in hand, in the channel and still
     to come is everything, in order.
     */
    method Run(sends: nat -> seq<nat>, attempts: nat -> seq<Attempt>, ghost all: seq<Change>)
        returns (r: Outcome, batch: seq<Change>)
      requires Conserves(all, [])
      modifies this
      ensures Conserves(all, batch) && AllWritten(attempts, old(|written|))
      ensures r == Exited ==> closed && buffer == [] && incoming == [] && batch == [] && Flatten(written) == all
      ensures r != Exited ==> 1 <= |batch| <= batchSize && TriesEnd(attempts(|written|), r)
      ensures (forall n: nat :: exists i: nat :: FirstSuccess(attempts(n), Never, writeRetries, i)) ==> r == Exited
    {
      batch := [];
      while true
        invariant Conserves(all, []) && batch == [] && AllWritten(attempts, old(|written|))
        decreases |buffer| + |incoming|
      {
        var firstEvent := Receive(all);
        if firstEvent.None? {
          break;
        }
        r, batch := NextBatch(firstEvent.value, sends, attempts, all);
        if r != Exited {
          return;
        }
      }
      Drained(Flatten(written));
      r := Exited;
    }
  }
}

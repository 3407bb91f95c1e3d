/**
 The cursor: iterating over a table that keeps changing, page by page.
 */
module Cursors {

  /**
   The outcome of one SELECT: the matching primary keys at that moment, and those
   returned, in the order returned. A read that fails on every try is `Failed`.
   */
  datatype Fetch = Failed | Page(matching: set<nat>, pks: seq<nat>)

  /** The `size` smallest matching keys above `last`, in any order. */
  ghost predicate IsPage(f: Fetch, last: nat, size: nat)
    requires f.Page?
  {
    && |f.pks| <= size
    && (forall pk :: pk in f.pks ==> pk in f.matching && last < pk)
    && (forall pk :: pk in f.matching && last < pk && pk !in f.pks ==> |f.pks| == size && Above(pk, f.pks))
  }

  ghost predicate Above(pk: nat, pks: seq<nat>) {
    forall p :: p in pks ==> p < pk
  }

  /** The database answers SELECT number `n` correctly, whatever bound it is given. */
  ghost predicate Answers(answer: (nat, nat) -> Fetch, size: nat) {
    forall n, last :: answer(n, last).Page? ==> IsPage(answer(n, last), last, size)
  }

  /** The key of the last row of a page. */
  function Last(pks: seq<nat>): nat {
    if pks == [] then 0 else pks[|pks| - 1]
  }

  /** The page comes in the order of its keys. */
  ghost predicate Ascending(pks: seq<nat>) {
    forall i, j :: 0 <= i < j < |pks| ==> pks[i] < pks[j]
  }

  /** The SELECT returned the key, or did not find it. */
  predicate Seen(f: Fetch, pk: nat) {
    f.Page? && (pk in f.pks || pk !in f.matching)
  }

  ghost predicate Covered(fetches: seq<Fetch>, pk: nat) {
    exists f :: f in fetches && Seen(f, pk)
  }

  ghost predicate CoveredUpTo(fetches: seq<Fetch>, max: nat) {
    forall pk :: 1 <= pk <= max ==> Covered(fetches, pk)
  }

  /** What one page settles: every key up to that of its last row, or all keys if it is empty. */
  lemma PageCovers(f: Fetch, last: nat, size: nat, pk: nat)
    requires f.Page? && IsPage(f, last, size) && size >= 1
    requires last < pk && (f.pks == [] || pk <= Last(f.pks))
    ensures Seen(f, pk)
  {
    if f.pks != [] {
      assert Last(f.pks) in f.pks;
    }
  }

  /** One more page: what was covered stays so, and the new page covers the next stretch. */
  lemma AllCovered(fetches: seq<Fetch>, f: Fetch, last: nat, size: nat, upTo: nat)
    requires f.Page? && IsPage(f, last, size) && size >= 1
    requires CoveredUpTo(fetches, last)
    requires f.pks == [] || upTo <= Last(f.pks)
    ensures CoveredUpTo(fetches + [f], upTo)
  {
    var more := fetches + [f];
    forall pk | 1 <= pk <= upTo ensures Covered(more, pk) {
      if pk <= last {
        assert Covered(fetches, pk);
      } else {
        PageCovers(f, last, size, pk);
        assert f in more;
      }
    }
  }

  /** A page that is not empty moves the position forward. */
  lemma PageAdvances(f: Fetch, last: nat, size: nat)
    requires f.Page? && IsPage(f, last, size) && f.pks != []
    ensures last < Last(f.pks)
  {
    assert Last(f.pks) in f.pks;
  }

  /** The bound SELECT number `i` is asked with: 0, and then the key of the last row of the page before. */
  function Bound(delivered: seq<seq<nat>>, i: nat): nat
    requires i <= |delivered|
  {
    if i == 0 || delivered[i - 1] == [] then 0 else delivered[i - 1][|delivered[i - 1]| - 1]
  }

  /** Every SELECT was asked with its bound, which was below the maximum. */
  ghost predicate Asked(answer: (nat, nat) -> Fetch, fetches: seq<Fetch>, delivered: seq<seq<nat>>, max: nat) {
    && |fetches| <= |delivered| + 1
    && forall i: nat {:trigger Bound(delivered, i)} :: i < |fetches| ==>
         fetches[i] == answer(i, Bound(delivered, i)) && Bound(delivered, i) < max
  }

  lemma AskedNext(answer: (nat, nat) -> Fetch, fetches: seq<Fetch>, delivered: seq<seq<nat>>, max: nat, last: nat)
    requires Asked(answer, fetches, delivered, max) && |fetches| == |delivered|
    requires last == Bound(delivered, |delivered|) < max
    ensures Asked(answer, fetches + [answer(|fetches|, last)], delivered, max)
  {
  }

  lemma AskedStays(answer: (nat, nat) -> Fetch, fetches: seq<Fetch>, delivered: seq<seq<nat>>, max: nat, page: seq<nat>)
    requires Asked(answer, fetches, delivered, max) && |fetches| == |delivered| + 1
    ensures Asked(answer, fetches, delivered + [page], max)
  {
    var more := delivered + [page];
    forall i: nat | i < |fetches| ensures fetches[i] == answer(i, Bound(more, i)) && Bound(more, i) < max {
      assert Bound(more, i) == Bound(delivered, i);
    }
  }

  lemma LastIsLargest(pks: seq<nat>, pk: nat)
    requires Ascending(pks) && pk in pks
    ensures pk <= Last(pks)
  {
    var i :| 0 <= i < |pks| && pks[i] == pk;
    if i < |pks| - 1 {
      assert pks[i] < pks[|pks| - 1];
    }
  }

  lemma PageIsAbove(answer: (nat, nat) -> Fetch, n: nat, last: nat, size: nat, pk: nat)
    requires Answers(answer, size) && answer(n, last).Page? && pk in answer(n, last).pks
    ensures last < pk
  {
    assert IsPage(answer(n, last), last, size);
  }

  /** How one turn of the loop ends. */
  datatype Turn = Advanced | Empty | Failure

  class Cursor {
    const maxPrimaryKey: nat
    const batchSize: nat
    var lastSuccessfulPrimaryKey: nat
    var fetches: seq<Fetch>             // the SELECTs so far
    var delivered: seq<seq<nat>>        // the pages the callback accepted

    constructor (maxPrimaryKey: nat, batchSize: nat)
      ensures this.maxPrimaryKey == maxPrimaryKey && this.batchSize == batchSize
      ensures lastSuccessfulPrimaryKey == 0 && fetches == [] && delivered == []
    {
      this.maxPrimaryKey, this.batchSize := maxPrimaryKey, batchSize;
      lastSuccessfulPrimaryKey, fetches, delivered := 0, [], [];
    }

    /** Each page ends above where the ones before it ended, and the position is where the last one did. */
    ghost predicate Increasing()
      reads this
    {
      && lastSuccessfulPrimaryKey == (if delivered == [] then 0 else Last(delivered[|delivered| - 1]))
      && (forall i :: 0 <= i < |delivered| ==> delivered[i] != [] && Last(delivered[i]) <= lastSuccessfulPrimaryKey)
      && forall i, j :: 0 <= i < j < |delivered| ==> Last(delivered[i]) < Last(delivered[j])
    }

    /** Every page up to `n` was delivered as it was fetched. */
    ghost predicate Delivered(n: nat)
      reads this
    {
      n == |delivered| <= |fetches| && forall i :: 0 <= i < n ==> fetches[i].Page? && fetches[i].pks == delivered[i]
    }

    /** Every page that was delivered had been accepted. */
    ghost predicate Accepted(accepts: nat -> bool)
      reads this
    {
      forall i: nat :: i < |delivered| ==> accepts(i)
    }

    /** The callback has accepted the page `f`. */
    method Advance(f: Fetch)
      requires f.Page? && f.pks != [] && lastSuccessfulPrimaryKey < Last(f.pks)
      requires Increasing() && fetches != [] && fetches[|fetches| - 1] == f && Delivered(|fetches| - 1)
      modifies this`delivered, this`lastSuccessfulPrimaryKey
      ensures delivered == old(delivered) + [f.pks] && lastSuccessfulPrimaryKey == Last(f.pks)
      ensures Increasing() && Delivered(|fetches|)
    {
      delivered := delivered + [f.pks];
      lastSuccessfulPrimaryKey := Last(f.pks);
    }

    /** If pages come in the order of their keys, so do all keys delivered, and none is delivered twice. */
    lemma KeysInOrder(answer: (nat, nat) -> Fetch, i: nat, j: nat, p: nat, q: nat)
      requires Answers(answer, batchSize) && Asked(answer, fetches, delivered, maxPrimaryKey) && Increasing()
      requires Delivered(|delivered|) && i < j < |delivered| && Ascending(delivered[i])
      requires p in delivered[i] && q in delivered[j]
      ensures p < q
    {
      LastIsLargest(delivered[i], p);
      assert Last(delivered[i]) <= Last(delivered[j - 1]) == Bound(delivered, j);
      PageIsAbove(answer, j, Bound(delivered, j), batchSize, q);
    }

    /** What holds whenever the loop condition is looked at. */
    ghost predicate Looping(answer: (nat, nat) -> Fetch, accepts: nat -> bool)
      reads this
    {
      && Increasing() && Delivered(|fetches|) && Accepted(accepts)
      && Asked(answer, fetches, delivered, maxPrimaryKey)
      && |fetches| <= lastSuccessfulPrimaryKey && |fetches| <= maxPrimaryKey
      && CoveredUpTo(fetches, lastSuccessfulPrimaryKey)
    }

    /** How the iteration ends: with an empty page, at the maximum, or with a failure. */
    ghost predicate EndsBy(ok: bool, accepts: nat -> bool)
      reads this
    {
      if ok then
        || (Delivered(|fetches|) && maxPrimaryKey <= Bound(delivered, |delivered|))
        || (&& fetches != [] && Delivered(|fetches| - 1)
            && fetches[|fetches| - 1].Page? && fetches[|fetches| - 1].pks == [])
      else
        && fetches != [] && Delivered(|fetches| - 1)
        && (fetches[|fetches| - 1].Failed? || (fetches[|fetches| - 1].pks != [] && !accepts(|fetches| - 1)))
    }

    /** One SELECT, for keys above the position. */
    method Fetch(answer: (nat, nat) -> Fetch) returns (batch: Fetch)
      requires Increasing() && Delivered(|fetches|) && lastSuccessfulPrimaryKey < maxPrimaryKey
      requires Asked(answer, fetches, delivered, maxPrimaryKey)
      modifies this`fetches
      ensures batch == answer(|delivered|, lastSuccessfulPrimaryKey) && fetches == old(fetches) + [batch]
      ensures Increasing() && Delivered(|fetches| - 1) && Asked(answer, fetches, delivered, maxPrimaryKey)
    {
      batch := answer(|fetches|, lastSuccessfulPrimaryKey);
      AskedNext(answer, fetches, delivered, maxPrimaryKey, lastSuccessfulPrimaryKey);
      fetches := fetches + [batch];
    }

    /** The page is handed to the callback, unless it is empty. */
    method Consume(batch: Fetch, accepts: nat -> bool) returns (turn: Turn)
      requires Increasing() && Accepted(accepts)
      requires fetches != [] && Delivered(|fetches| - 1) && batch == fetches[|fetches| - 1]
      requires batch.Page? && batch.pks != [] ==> lastSuccessfulPrimaryKey < Last(batch.pks)
      modifies this`delivered, this`lastSuccessfulPrimaryKey
      ensures Increasing() && Accepted(accepts)
      ensures turn == Advanced ==> batch.Page? && batch.pks != [] && delivered == old(delivered) + [batch.pks]
      ensures turn == Advanced ==> Delivered(|fetches|) && lastSuccessfulPrimaryKey == Last(batch.pks)
      ensures turn != Advanced ==> EndsBy(turn == Empty, accepts)
      ensures turn != Advanced ==>
                delivered == old(delivered) && lastSuccessfulPrimaryKey == old(lastSuccessfulPrimaryKey)
      ensures turn == Empty ==> batch.Page? && batch.pks == []
    {
      if batch.Failed? {
        return Failure;
      }
      if batch.pks == [] {
        return Empty;
      }
      var pkpos := Last(batch.pks);
      if pkpos <= lastSuccessfulPrimaryKey || !accepts(|delivered|) {
        return Failure;
      }
      Advance(batch);
      turn := Advanced;
    }

    /** One turn of the loop. */
    method Next(answer: (nat, nat) -> Fetch, accepts: nat -> bool) returns (turn: Turn)
      requires batchSize >= 1 && Answers(answer, batchSize)
      requires Looping(answer, accepts) && lastSuccessfulPrimaryKey < maxPrimaryKey
      modifies this
      ensures |fetches| == old(|fetches|) + 1
      ensures turn == Advanced ==> Looping(answer, accepts) && old(lastSuccessfulPrimaryKey) < lastSuccessfulPrimaryKey
      ensures turn != Advanced ==> Increasing() && Accepted(accepts) && EndsBy(turn == Empty, accepts)
      ensures turn != Advanced ==> Asked(answer, fetches, delivered, maxPrimaryKey)
      ensures turn == Empty ==> CoveredUpTo(fetches, maxPrimaryKey)
    {
      ghost var before, page, last := fetches, delivered, lastSuccessfulPrimaryKey;
      var batch := Fetch(answer);
      if batch.Page? && batch.pks != [] {
        PageAdvances(batch, last, batchSize);
        AllCovered(before, batch, last, batchSize, Last(batch.pks));
        AskedStays(answer, fetches, delivered, maxPrimaryKey, batch.pks);
      } else if batch.Page? {
        AllCovered(before, batch, last, batchSize, maxPrimaryKey);
      }
      turn := Consume(batch, accepts);
    }

    /**
     Coverage: if the iteration succeeds, every key from 1 to the maximum was, at some
     SELECT, either delivered or not matching. Each SELECT asks for keys above that of the last
     row delivered. It fails only because a SELECT or the callback did, never because the
     position did not advance; and it terminates.
     */
    method Each(answer: (nat, nat) -> Fetch, accepts: nat -> bool) returns (ok: bool)
      requires batchSize >= 1 && Answers(answer, batchSize)
      modifies this
      ensures Increasing() && |fetches| <= maxPrimaryKey + 1
      ensures Asked(answer, fetches, delivered, maxPrimaryKey) && Accepted(accepts) && EndsBy(ok, accepts)
      ensures ok ==> CoveredUpTo(fetches, maxPrimaryKey)
    {
      lastSuccessfulPrimaryKey, fetches, delivered := 0, [], [];
      while lastSuccessfulPrimaryKey < maxPrimaryKey
        invariant Looping(answer, accepts)
        decreases maxPrimaryKey - lastSuccessfulPrimaryKey
      {
        var turn := Next(answer, accepts);
        if turn != Advanced {
          return turn == Empty;
        }
      }
      ok := true;
    }
  }
}

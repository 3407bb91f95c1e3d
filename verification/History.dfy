/**
 One row on the target against its history on the source.

 The source starts as `base` and goes through the changes `es`; the writer has replayed
 the first `a` of them. A target value is `Fresh` if the source held it at some moment
 no earlier than that. A row is `Overdue` if the target has no copy of it although the
 source held one at every moment so far replayed.
 */
module History {
  import opened Rows

  function Moment(base: Database, es: seq<Change>, j: nat, k: Key): Option<Row>
    requires j <= |es|
  {
    Lookup(Replay(base, es[..j]), k)
  }

  ghost predicate Fresh(base: Database, es: seq<Change>, a: nat, k: Key, v: Option<Row>) {
    exists j :: a <= j <= |es| && v == Moment(base, es, j, k)
  }

  ghost predicate Overdue(base: Database, es: seq<Change>, a: nat, k: Key, v: Option<Row>) {
    && a <= |es|
    && v.None?
    && forall j :: 0 <= j <= a ==> Moment(base, es, j, k).Some?
  }

  /** The source no longer has, or has not yet had, the row at some moment. */
  ghost predicate EverAbsent(base: Database, es: seq<Change>, k: Key) {
    exists j :: 0 <= j <= |es| && Moment(base, es, j, k).None?
  }

  lemma FreshNow(base: Database, es: seq<Change>, a: nat, k: Key)
    requires a <= |es|
    ensures Fresh(base, es, a, k, Lookup(Replay(base, es), k))
  {
    assert es[..|es|] == es;
    assert Moment(base, es, |es|, k) == Lookup(Replay(base, es), k);
  }

  lemma FreshAtEnd(base: Database, es: seq<Change>, k: Key, v: Option<Row>)
    requires Fresh(base, es, |es|, k, v)
    ensures v == Lookup(Replay(base, es), k)
  {
    assert es[..|es|] == es;
  }

  /** Replaying change `a` on a fresh row leaves it fresh with respect to the longer prefix. */
  lemma FreshCas(base: Database, es: seq<Change>, a: nat, db: Database, k: Key)
    requires Consistent(base, es) && a < |es|
    requires Fresh(base, es, a, k, Lookup(db, k))
    ensures Fresh(base, es, a + 1, k, Lookup(Cas(db, es[a]), k))
  {
    var j :| a <= j <= |es| && Lookup(db, k) == Moment(base, es, j, k);
    ReplayStep(base, es, a, k);
    var v := Lookup(Cas(db, es[a]), k);
    if k == es[a].key && Lookup(db, k) == es[a].before {
      assert v == Moment(base, es, a + 1, k);
    } else if j == a {
      assert v == Moment(base, es, a + 1, k);
    } else {
      assert v == Moment(base, es, j, k);
    }
  }

  /** Replaying change `a` on an overdue row delivers it, or it stays overdue. */
  lemma OverdueCas(base: Database, es: seq<Change>, a: nat, db: Database, k: Key)
    requires Consistent(base, es) && a < |es|
    requires Overdue(base, es, a, k, Lookup(db, k))
    ensures var v := Lookup(Cas(db, es[a]), k);
            Fresh(base, es, a + 1, k, v) || Overdue(base, es, a + 1, k, v)
  {
    ReplayStep(base, es, a, k);
    var v := Lookup(Cas(db, es[a]), k);
    assert Moment(base, es, a, k).Some?;
    assert v.None?;
    if Moment(base, es, a + 1, k).None? {
      assert Fresh(base, es, a + 1, k, v);
    }
  }

  /** More changes on the source do not invalidate what is fresh or overdue. */
  lemma HistoryGrows(base: Database, es: seq<Change>, more: seq<Change>, a: nat, k: Key, v: Option<Row>)
    requires a <= |es|
    ensures Fresh(base, es, a, k, v) ==> Fresh(base, es + more, a, k, v)
    ensures Overdue(base, es, a, k, v) ==> Overdue(base, es + more, a, k, v)
    ensures EverAbsent(base, es, k) ==> EverAbsent(base, es + more, k)
  {
    forall j | 0 <= j <= |es|
      ensures Moment(base, es + more, j, k) == Moment(base, es, j, k)
    {
      assert (es + more)[..j] == es[..j];
    }
  }

  /** Going back to an earlier replay position keeps every row fresh or overdue. */
  lemma HistoryRewinds(base: Database, es: seq<Change>, a: nat, b: nat, k: Key, v: Option<Row>)
    requires b <= a <= |es|
    ensures Fresh(base, es, a, k, v) ==> Fresh(base, es, b, k, v)
    ensures Overdue(base, es, a, k, v) ==> Overdue(base, es, b, k, v)
  {
  }

  /** A row that compare-and-swap created was absent on the source when its insert was logged. */
  lemma CasCreates(base: Database, es: seq<Change>, a: nat, db: Database, k: Key)
    requires Consistent(base, es) && a < |es|
    requires k in Cas(db, es[a]) && k !in db
    ensures EverAbsent(base, es, k)
  {
    ReplayStep(base, es, a, k);
    assert Moment(base, es, a, k).None?;
  }
}

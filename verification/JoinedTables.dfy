/**
 Joined tables: tables without a sharding column, whose rows are wanted if a join table
 of the shard refers to them. Their changes are not streamed. They are copied once more
 after the lock, when neither the join tables nor the joined table change any more.
 */
module JoinedTables {
  import opened Rows

  type Table = map<nat, Row>

  /**
   The subquery: of all the values `refs` in the shard's join columns, the `size` smallest
   above `last`, whether or not there is such a row.
   */
  ghost predicate IsWindow(refs: set<nat>, last: nat, size: nat, w: set<nat>) {
    && |w| <= size
    && (forall d :: d in w ==> d in refs && last < d)
    && (forall d, e :: d in refs && last < d && d !in w && e in w ==> e < d)
    && (forall d :: d in refs && last < d && d !in w ==> |w| == size)
  }

  ghost predicate Answers(answer: nat -> set<nat>, refs: set<nat>, size: nat) {
    forall last: nat :: IsWindow(refs, last, size, answer(last))
  }

  /** The rows to be copied. */
  predicate Live(refs: set<nat>, joined: Table, p: nat) {
    p in refs && p in joined && p >= 1
  }

  /** References between `q` and `p` that lead to no row. */
  function Dangling(refs: set<nat>, joined: Table, q: nat, p: nat): set<nat> {
    set d | d in refs && q < d < p && d !in joined
  }

  /** `p` is the next row to be copied after `q`, which is one too or the starting point. */
  ghost predicate Adjacent(refs: set<nat>, joined: Table, q: nat, p: nat) {
    && (q == 0 || Live(refs, joined, q)) && Live(refs, joined, p) && q < p
    && forall r :: q < r < p ==> !Live(refs, joined, r)
  }

  ghost predicate ShortGaps(refs: set<nat>, joined: Table, size: nat, upTo: nat) {
    forall q: nat, p: nat :: Adjacent(refs, joined, q, p) && p <= upTo ==> |Dangling(refs, joined, q, p)| < size
  }

  /** Nowhere do so many dangling references come in a row that they fill a page. */
  ghost predicate NoFullGap(refs: set<nat>, joined: Table, size: nat) {
    forall q: nat, p: nat :: Adjacent(refs, joined, q, p) ==> |Dangling(refs, joined, q, p)| < size
  }

  /** Whatever lies between two elements of a window is in it. */
  lemma WindowIsWhole(refs: set<nat>, last: nat, size: nat, w: set<nat>, d: nat, e: nat)
    requires IsWindow(refs, last, size, w) && e in w && d in refs && last < d <= e
    ensures d in w
  {
  }

  /** A gap that ends inside a page is short of a page. */
  lemma GapInWindow(refs: set<nat>, joined: Table, last: nat, size: nat, w: set<nat>, q: nat, p: nat)
    requires IsWindow(refs, last, size, w) && last <= q && p in w && q < p
    ensures |Dangling(refs, joined, q, p)| < size
  {
    var gap := Dangling(refs, joined, q, p);
    forall d | d in gap ensures d in w {
      WindowIsWhole(refs, last, size, w, d, p);
    }
    Cardinality(gap + {p}, w);
  }

  lemma {:induction false} Cardinality(a: set<nat>, b: set<nat>)
    requires a <= b
    ensures |a| <= |b|
  {
    if a != {} {
      var x :| x in a;
      Cardinality(a - {x}, b - {x});
    }
  }

  /** If the next row is not on the page, dangling references have filled it. */
  lemma GapFillsWindow(refs: set<nat>, joined: Table, last: nat, size: nat, w: set<nat>, p: nat)
    requires IsWindow(refs, last, size, w) && Adjacent(refs, joined, last, p) && p !in w
    ensures |Dangling(refs, joined, last, p)| >= size
  {
    var gap := Dangling(refs, joined, last, p);
    forall d | d in w ensures d in gap {
      assert d < p;
      assert !Live(refs, joined, d);
    }
    Cardinality(w, gap);
  }

  lemma {:induction false} NextLive(refs: set<nat>, joined: Table, q: nat, p: nat) returns (n: nat)
    requires (q == 0 || Live(refs, joined, q)) && q < p && Live(refs, joined, p)
    ensures Adjacent(refs, joined, q, n) && n <= p
    decreases p - q
  {
    if r: nat :| q < r < p && Live(refs, joined, r) {
      n := NextLive(refs, joined, q, r);
    } else {
      n := p;
    }
  }

  /** One page more: the gaps that end on it are short as well. */
  lemma PageShortens(refs: set<nat>, joined: Table, last: nat, size: nat, w: set<nat>, position: nat)
    requires IsWindow(refs, last, size, w) && position in w && ShortGaps(refs, joined, size, last)
    requires last == 0 || Live(refs, joined, last)
    ensures ShortGaps(refs, joined, size, position)
  {
    forall q: nat, p: nat | Adjacent(refs, joined, q, p) && p <= position
      ensures |Dangling(refs, joined, q, p)| < size
    {
      if last < p {
        assert last <= q;
        WindowIsWhole(refs, last, size, w, p, position);
        GapInWindow(refs, joined, last, size, w, q, p);
      }
    }
  }

  ghost predicate IsLargest(rows: set<nat>, m: nat) {
    m in rows && forall r :: r in rows ==> r <= m
  }

  /** The rows of the page above `last`. */
  function PageRows(answer: nat -> set<nat>, joined: Table, last: nat): set<nat> {
    answer(last) * joined.Keys
  }

  /** The SELECTs ask for keys above 0, and then above the largest key of the page before, which is not empty. */
  ghost predicate Chained(answer: nat -> set<nat>, joined: Table, asked: seq<nat>) {
    && (asked != [] ==> asked[0] == 0)
    && forall i :: 0 < i < |asked| ==> IsLargest(PageRows(answer, joined, asked[i - 1]), asked[i])
  }

  /** `copied` are the rows of the pages asked for. */
  ghost predicate CopiedPages(answer: nat -> set<nat>, joined: Table, asked: seq<nat>, copied: set<nat>) {
    forall p :: p in copied <==> exists i :: 0 <= i < |asked| && p in PageRows(answer, joined, asked[i])
  }

  lemma OnePageMore(answer: nat -> set<nat>, joined: Table, asked: seq<nat>, copied: set<nat>, last: nat)
    requires CopiedPages(answer, joined, asked, copied)
    ensures CopiedPages(answer, joined, asked + [last], copied + PageRows(answer, joined, last))
  {
    var more, all := asked + [last], copied + PageRows(answer, joined, last);
    forall p ensures p in all <==> exists i :: 0 <= i < |more| && p in PageRows(answer, joined, more[i]) {
      if p in copied {
        var i :| 0 <= i < |asked| && p in PageRows(answer, joined, asked[i]);
        assert p in PageRows(answer, joined, more[i]);
      }
      if p in PageRows(answer, joined, last) {
        assert p in PageRows(answer, joined, more[|asked|]);
      }
      if i :| 0 <= i < |more| && p in PageRows(answer, joined, more[i]) {
        assert i < |asked| ==> p in PageRows(answer, joined, asked[i]);
      }
    }
  }

  /** The largest key of a page, which ORDER BY puts last. */
  method Largest(rows: set<nat>) returns (m: nat)
    requires rows != {}
    ensures IsLargest(rows, m)
  {
    m :| m in rows;
    var rest := rows - {m};
    while rest != {}
      invariant m in rows && rest <= rows
      invariant forall r :: r in rows && r !in rest ==> r <= m
      decreases |rest|
    {
      var r :| r in rest;
      rest := rest - {r};
      if r > m {
        m := r;
      }
    }
  }

  /** INSERT IGNORE of a page: rows already on the target win. */
  function InsertPage(target: Table, joined: Table, rows: set<nat>): Table {
    (map p | p in rows && p in joined :: joined[p]) + target
  }

  /** Every row of `copied` is on the target with its content. */
  ghost predicate Holds(target: Table, joined: Table, copied: set<nat>) {
    forall p :: p in copied ==> p in joined && p in target && target[p] == joined[p]
  }

  /** Rows are never updated, so the target has no row of the table with another content. */
  ghost predicate Unaltered(target: Table, joined: Table) {
    forall p :: p in target && p in joined ==> target[p] == joined[p]
  }

  /** `copied` are the rows to be copied up to `last`. */
  ghost predicate CopiedUpTo(refs: set<nat>, joined: Table, copied: set<nat>, last: nat) {
    forall p: nat :: p in copied <==> Live(refs, joined, p) && p <= last
  }

  lemma PageCopies(refs: set<nat>, joined: Table, copied: set<nat>, last: nat, size: nat, w: set<nat>, position: nat)
    requires IsWindow(refs, last, size, w) && CopiedUpTo(refs, joined, copied, last)
    requires position in w && forall r :: r in w && r in joined ==> r <= position
    ensures CopiedUpTo(refs, joined, copied + w * joined.Keys, position)
  {
    forall p: nat | Live(refs, joined, p) && last < p <= position ensures p in w {
      WindowIsWhole(refs, last, size, w, p, position);
    }
  }

  /** Exactly the rows to be copied. */
  ghost predicate Complete(refs: set<nat>, joined: Table, copied: set<nat>) {
    forall p: nat :: p in copied <==> Live(refs, joined, p)
  }

  /**
   The cursor stops at an empty page: all is copied just if there was nothing left, and
   just if no gap fills a page.
   */
  lemma StopIsExact(refs: set<nat>, joined: Table, copied: set<nat>, last: nat, size: nat, w: set<nat>)
    requires IsWindow(refs, last, size, w) && CopiedUpTo(refs, joined, copied, last)
    requires ShortGaps(refs, joined, size, last) && (last == 0 || Live(refs, joined, last))
    requires forall r :: r in w ==> r !in joined
    ensures Complete(refs, joined, copied) <==> NoFullGap(refs, joined, size)
  {
    if p: nat :| Live(refs, joined, p) && last < p {
      var n := NextLive(refs, joined, last, p);
      GapFillsWindow(refs, joined, last, size, w, n);
      assert p !in copied;
    }
  }

  /** The target has what it had and the rows copied, with their content. */
  ghost predicate TargetOk(before: Table, target: Table, joined: Table, copied: set<nat>) {
    && Holds(target, joined, copied) && Unaltered(target, joined)
    && (forall p :: p in before ==> p in target && target[p] == before[p])
    && (forall p :: p in target ==> p in before || p in copied)
  }

  lemma TargetNext(before: Table, target: Table, joined: Table, copied: set<nat>, rows: set<nat>)
    requires TargetOk(before, target, joined, copied) && rows <= joined.Keys
    ensures TargetOk(before, InsertPage(target, joined, rows), joined, copied + rows)
  {
  }

  /** The pages asked for so far, what they copied, and where the cursor is now. */
  ghost predicate Chain(answer: nat -> set<nat>, joined: Table, asked: seq<nat>, copied: set<nat>, last: nat) {
    && Chained(answer, joined, asked) && CopiedPages(answer, joined, asked, copied)
    && (if asked == [] then last == 0 else IsLargest(PageRows(answer, joined, asked[|asked| - 1]), last))
    && (last == 0 || last in copied)
  }

  lemma ChainNext(answer: nat -> set<nat>, joined: Table, asked: seq<nat>, copied: set<nat>, last: nat, position: nat)
    requires Chain(answer, joined, asked, copied, last) && IsLargest(PageRows(answer, joined, last), position)
    ensures Chain(answer, joined, asked + [last], copied + PageRows(answer, joined, last), position)
  {
    OnePageMore(answer, joined, asked, copied, last);
  }

  lemma ChainEnds(answer: nat -> set<nat>, joined: Table, asked: seq<nat>, copied: set<nat>, last: nat)
    requires Chain(answer, joined, asked, copied, last) && PageRows(answer, joined, last) == {}
    ensures Chained(answer, joined, asked + [last]) && CopiedPages(answer, joined, asked + [last], copied)
  {
    OnePageMore(answer, joined, asked, copied, last);
    assert copied + {} == copied;
  }

  lemma OnlyPage(answer: nat -> set<nat>, joined: Table, asked: seq<nat>)
    requires Chained(answer, joined, asked) && PageRows(answer, joined, 0) == {}
    ensures asked == [] || asked == [0]
  {
    if asked != [] {
      assert |asked| > 1 ==> IsLargest(PageRows(answer, joined, asked[0]), asked[1]);
    }
  }

  lemma FirstPageEmpty(answer: nat -> set<nat>, joined: Table, asked: seq<nat>, copied: set<nat>)
    requires Chained(answer, joined, asked) && CopiedPages(answer, joined, asked, copied)
    ensures PageRows(answer, joined, 0) == {} ==> copied == {}
  {
    if PageRows(answer, joined, 0) == {} {
      OnlyPage(answer, joined, asked);
      assert forall p :: p !in copied;
    }
  }

  /**
   The copy of one joined table after the lock. Every row it copies is on the target with
   identical content; and it copies every referenced row exactly if no gap of dangling
   references fills a page. In particular it does if there are none. Each SELECT goes on from
   the largest key of the page before, until a page is empty or the maximum is copied.
   */
  method DeltaCopy(answer: nat -> set<nat>, ghost refs: set<nat>, joined: Table, before: Table, size: nat, max: nat)
      returns (target: Table, copied: set<nat>, asked: seq<nat>)
    requires size >= 1 && Answers(answer, refs, size)
    requires forall p :: p in joined ==> p <= max
    requires Unaltered(before, joined)
    ensures Complete(refs, joined, copied) <==> NoFullGap(refs, joined, size)
    ensures TargetOk(before, target, joined, copied)
    ensures Chained(answer, joined, asked) && CopiedPages(answer, joined, asked, copied)
    ensures max == 0 || max in copied || (asked != [] && PageRows(answer, joined, asked[|asked| - 1]) == {})
    ensures answer(0) * joined.Keys == {} ==> copied == {}
  {
    target, copied, asked := before, {}, [];
    var last: nat := 0;
    while last < max
      invariant CopiedUpTo(refs, joined, copied, last) && ShortGaps(refs, joined, size, last)
      invariant last == 0 || Live(refs, joined, last)
      invariant TargetOk(before, target, joined, copied) && Chain(answer, joined, asked, copied, last)
      decreases max - last
    {
      var w := answer(last);
      assert IsWindow(refs, last, size, w);
      var rows := w * joined.Keys;
      assert forall r :: r in w && r in joined ==> r in rows;
      if rows == {} {
        StopIsExact(refs, joined, copied, last, size, w);
        ChainEnds(answer, joined, asked, copied, last);
        asked := asked + [last];
        FirstPageEmpty(answer, joined, asked, copied);
        return;
      }
      var position := Largest(rows);
      PageCopies(refs, joined, copied, last, size, w, position);
      PageShortens(refs, joined, last, size, w, position);
      ChainNext(answer, joined, asked, copied, last, position);
      TargetNext(before, target, joined, copied, rows);
      target := InsertPage(target, joined, rows);
      asked, copied := asked + [last], copied + rows;
      last := position;
    }
    FirstPageEmpty(answer, joined, asked, copied);
    assert Complete(refs, joined, copied);
  }

  /** Without dangling references every referenced row arrives. */
  lemma NoDangling(refs: set<nat>, joined: Table, size: nat)
    requires size >= 1 && forall d :: d in refs ==> d in joined
    ensures NoFullGap(refs, joined, size)
  {
    forall q: nat, p: nat | Adjacent(refs, joined, q, p) ensures |Dangling(refs, joined, q, p)| < size {
      assert Dangling(refs, joined, q, p) == {};
    }
  }

  function UpTo(n: nat): (r: set<nat>)
    ensures |r| == n && forall d :: d in r <==> 1 <= d <= n
  {
    if n == 0 then {} else UpTo(n - 1) + {n}
  }

  /** Behind a gap that fills a page, the page is empty, and the cursor stops. */
  lemma FullGapStops(refs: set<nat>, joined: Table, q: nat, p: nat, size: nat, w: set<nat>)
    requires Adjacent(refs, joined, q, p) && |Dangling(refs, joined, q, p)| >= size && IsWindow(refs, q, size, w)
    ensures w * joined.Keys == {}
  {
    forall d | d in w ensures d !in joined {
      if p <= d {
        WindowIsWhole(refs, q, size, w, p, d);
      }
      if p in w {
        GapInWindow(refs, joined, q, size, w, q, p);
      }
      assert !Live(refs, joined, d);
    }
  }

  /**
   For every page size there are join tables with which a referenced row is left behind:
   the first page, which holds `size` references, holds no row.
   */
  lemma FullGapExists(size: nat, row: Row) returns (refs: set<nat>, joined: Table)
    requires size >= 1
    ensures Live(refs, joined, size + 1) && !NoFullGap(refs, joined, size)
    ensures forall w :: IsWindow(refs, 0, size, w) ==> w * joined.Keys == {}
  {
    refs, joined := UpTo(size + 1), map[size + 1 := row];
    assert Adjacent(refs, joined, 0, size + 1);
    assert Dangling(refs, joined, 0, size + 1) == UpTo(size);
    forall w | IsWindow(refs, 0, size, w) ensures w * joined.Keys == {} {
      FullGapStops(refs, joined, 0, size + 1, size, w);
    }
  }
}

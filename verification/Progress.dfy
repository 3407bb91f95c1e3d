/**
 Progress: from which states of a run the ferry, with no help from anybody, can still come to
 its end. In all others it waits for an entry of the log that may never come, or is stopped by
 one that aborts the run.
 */
module Progress {
  import opened Rows
  import opened Binlog
  import opened CopyFilter
  import opened Protocol
  import opened Invariant
  import opened InvariantKept
  import opened Races
  import opened Stopping

  // ---- runs of the ferry alone ---------------------------------------------

  /** A run in which the application and the source's server do nothing. */
  ghost predicate Alone(c: Config, s: State, steps: seq<Step>, t: State) {
    Runs(c, s, steps, t) && forall i :: 0 <= i < |steps| ==> !steps[i].Source?
  }

  lemma AloneFirst(c: Config, s: State, step: Step, m: State, rest: seq<Step>, t: State)
    requires Enabled(c, s, step) && !step.Source? && m == Apply(c, s, step) && Alone(c, m, rest, t)
    ensures Alone(c, s, [step] + rest, t)
  {
    assert ([step] + rest)[1..] == rest;
  }

  lemma AloneOne(c: Config, s: State, step: Step, t: State)
    requires Enabled(c, s, step) && !step.Source? && t == Apply(c, s, step)
    ensures Alone(c, s, [step], t)
  {
    AloneFirst(c, s, step, t, [], t);
  }

  lemma AloneConcat(c: Config, s: State, a: seq<Step>, m: State, b: seq<Step>, t: State)
    requires Alone(c, s, a, m) && Alone(c, m, b, t)
    ensures Alone(c, s, a + b, t)
  {
    RunsConcat(c, s, a, m, b, t);
  }

  // ---- what every run keeps, for every filter ------------------------------

  predicate WriterOk(c: Config, w: Writer) {
    && w.next <= |w.batch| <= c.batchSize
    && (w.writing ==> w.running && w.batch != [])
    && (!w.running ==> w.closed && w.channel == [] && w.batch == [])
  }

  predicate StreamerOk(s: State) {
    && (s.writer.closed <==> !s.streamer.running)
    && (s.streamer.pending.Some? ==> s.streamer.running && s.streamer.index < |s.log|)
  }

  predicate HeldOk(t: TableName, it: Iteration) {
    it.Holding? ==>
      && Key(t, it.position) in it.page && it.copied <= it.page.Keys
      && forall k :: k in it.page ==> k.table == t && it.last < k.pk
  }

  /** What has been copied of a held page is part of it, and the copy is complete at the cutover. */
  ghost predicate PagesHeld(s: State) {
    && (forall t :: t in s.tables ==> HeldOk(t, s.tables[t]))
    && (s.cutover.readonly ==> RowCopyComplete(s))
  }

  ghost predicate LiveOk(c: Config, s: State) {
    WriterOk(c, s.writer) && StreamerOk(s) && PagesHeld(s)
  }

  lemma CopyHolds(c: Config, s: State, a: CopyStep)
    requires CopyEnabled(c, s, a) && PagesHeld(s)
    ensures PagesHeld(CopyApply(c, s, a))
  {
    CopyTouches(c, s, a);
    assert HeldOk(a.table, s.tables[a.table]);
  }

  lemma StepHolds(c: Config, s: State, step: Step)
    requires Enabled(c, s, step) && PagesHeld(s)
    ensures PagesHeld(Apply(c, s, step))
  {
    match step
    case Source(a) => HeldStays(s, SourceApply(s, a));
    case Ferry(a) => FerryHolds(c, s, a);
    case Copy(a) => CopyHolds(c, s, a);
    case Stream(a) =>
      StreamTouches(c, s, a);
      HeldStays(s, StreamApply(c, s, a));
    case Replaying(a) =>
      WriteTouches(c, s, a);
      HeldStays(s, WriteApply(c, s, a));
  }

  lemma HeldStays(s: State, s': State)
    requires PagesHeld(s) && s'.tables == s.tables && s'.cutover == s.cutover
    ensures PagesHeld(s')
  {
  }

  lemma FerryHolds(c: Config, s: State, a: FerryStep)
    requires FerryEnabled(c, s, a) && PagesHeld(s)
    ensures PagesHeld(FerryApply(s, a))
  {
  }

  lemma WriteKeepsWriter(c: Config, w: Writer, a: WriteStep)
    requires WriteEnabled(c, w, a) && WriterOk(c, w)
    ensures WriterOk(c, WriterApply(c, w, a)) && WriterApply(c, w, a).closed == w.closed
  {
  }

  lemma StreamKeepsWriter(c: Config, s: State, a: StreamStep)
    requires StreamEnabled(c, s, a) && WriterOk(c, s.writer) && StreamerOk(s)
    ensures WriterOk(c, StreamApply(c, s, a).writer) && StreamerOk(StreamApply(c, s, a))
  {
  }

  lemma SourceKeepsWriter(c: Config, s: State, a: SourceStep)
    requires SourceEnabled(c, s, a) && StreamerOk(s)
    ensures SourceApply(s, a).writer == s.writer && StreamerOk(SourceApply(s, a))
  {
    StreamerStays(s, SourceApply(s, a));
  }

  lemma FerryKeepsWriter(c: Config, s: State, a: FerryStep)
    requires FerryEnabled(c, s, a) && StreamerOk(s)
    ensures FerryApply(s, a).writer == s.writer && StreamerOk(FerryApply(s, a))
  {
    StreamerStays(s, FerryApply(s, a));
  }

  lemma CopyKeepsWriter(c: Config, s: State, a: CopyStep)
    requires CopyEnabled(c, s, a) && StreamerOk(s)
    ensures CopyApply(c, s, a).writer == s.writer && StreamerOk(CopyApply(c, s, a))
  {
    CopyTouches(c, s, a);
    StreamerStays(s, CopyApply(c, s, a));
  }

  lemma ReplayKeepsWriter(c: Config, s: State, a: WriteStep)
    requires WriteEnabled(c, s.writer, a) && WriterOk(c, s.writer) && StreamerOk(s)
    ensures WriterOk(c, WriteApply(c, s, a).writer) && StreamerOk(WriteApply(c, s, a))
  {
    WriteTouches(c, s, a);
    WriteKeepsWriter(c, s.writer, a);
    StreamerStays(s, WriteApply(c, s, a));
  }

  lemma StepKeepsWriter(c: Config, s: State, step: Step)
    requires Enabled(c, s, step) && WriterOk(c, s.writer) && StreamerOk(s)
    ensures WriterOk(c, Apply(c, s, step).writer) && StreamerOk(Apply(c, s, step))
  {
    match step
    case Source(a) => SourceKeepsWriter(c, s, a);
    case Ferry(a) => FerryKeepsWriter(c, s, a);
    case Copy(a) => CopyKeepsWriter(c, s, a);
    case Stream(a) => StreamKeepsWriter(c, s, a);
    case Replaying(a) => ReplayKeepsWriter(c, s, a);
  }

  lemma StreamerStays(s: State, s': State)
    requires StreamerOk(s) && s'.writer.closed == s.writer.closed && s.log <= s'.log
    requires s'.streamer == s.streamer.(position := s'.streamer.position)
    ensures StreamerOk(s')
  {
  }

  lemma {:induction false} RunKeepsLive(c: Config, s: State, steps: seq<Step>, t: State)
    requires Runs(c, s, steps, t) && LiveOk(c, s)
    ensures LiveOk(c, t)
    decreases |steps|
  {
    if steps != [] {
      StepHolds(c, s, steps[0]);
      StepKeepsWriter(c, s, steps[0]);
      RunKeepsLive(c, Apply(c, s, steps[0]), steps[1..], t);
    }
  }

  // ---- the writer empties its channel --------------------------------------

  predicate WriterIdle(w: Writer) {
    w.channel == [] && w.batch == [] && !w.writing
  }

  function NextWrite(c: Config, w: Writer): WriteStep {
    if w.writing then if w.next < |w.batch| then Statement else Commit
    else if w.channel != [] && |w.batch| < c.batchSize then Receive
    else BeginWrite
  }

  /** How far the writer is from being idle. */
  ghost predicate Closer(w: Writer, w': Writer) {
    var a, b := |w'.channel| + |w'.batch|, |w.channel| + |w.batch|;
    || a < b
    || (a == b && w'.writing && !w.writing)
    || (a == b && w'.writing == w.writing && |w'.channel| < |w.channel|)
    || (w'.channel == w.channel && w'.batch == w.batch && w'.writing == w.writing && w.next < w'.next <= |w.batch|)
  }

  lemma WritesOn(c: Config, w: Writer)
    requires c.batchSize >= 1 && WriterOk(c, w) && w.running && !WriterIdle(w)
    ensures var step := NextWrite(c, w);
            && WriteEnabled(c, w, step) && Closer(w, WriterApply(c, w, step))
            && WriterApply(c, w, step).running
  {
  }

  lemma {:induction false} Drain(c: Config, s: State) returns (steps: seq<Step>, t: State)
    requires c.batchSize >= 1 && WriterOk(c, s.writer) && s.writer.running
    ensures Alone(c, s, steps, t) && t == s.(writer := t.writer, target := t.target)
    ensures WriterOk(c, t.writer) && t.writer.running && WriterIdle(t.writer) && t.writer.closed == s.writer.closed
    decreases |s.writer.channel| + |s.writer.batch|, !s.writer.writing, |s.writer.channel|,
              |s.writer.batch| - s.writer.next
  {
    t, steps := s, [];
    if !WriterIdle(s.writer) {
      var m := DrainOne(c, s);
      steps, t := Drain(c, m);
      AloneConcat(c, s, [Replaying(NextWrite(c, s.writer))], m, steps, t);
      steps := [Replaying(NextWrite(c, s.writer))] + steps;
    }
  }

  lemma DrainOne(c: Config, s: State) returns (m: State)
    requires c.batchSize >= 1 && WriterOk(c, s.writer) && s.writer.running && !WriterIdle(s.writer)
    ensures Alone(c, s, [Replaying(NextWrite(c, s.writer))], m) && m == s.(writer := m.writer, target := m.target)
    ensures Closer(s.writer, m.writer) && WriterOk(c, m.writer)
    ensures m.writer.running && m.writer.closed == s.writer.closed
  {
    var step := NextWrite(c, s.writer);
    WritesOn(c, s.writer);
    WriteKeepsWriter(c, s.writer, step);
    WriteTouches(c, s, step);
    m := WriteApply(c, s, step);
    AloneOne(c, s, Replaying(step), m);
  }

  // ---- the iterators copy their tables -------------------------------------

  lemma {:induction false} Smallest(keys: set<Key>) returns (k: Key)
    requires keys != {}
    ensures k in keys && forall x :: x in keys ==> k.pk <= x.pk
    decreases |keys|
  {
    k :| k in keys;
    if keys != {k} {
      var m := Smallest(keys - {k});
      assert forall x :: x in keys ==> x == k || x in keys - {k};
      if m.pk < k.pk {
        k := m;
      }
    }
  }

  lemma {:induction false} UpperBound(keys: set<Key>) returns (n: nat)
    ensures forall x :: x in keys ==> x.pk <= n
    decreases |keys|
  {
    n := 0;
    if keys != {} {
      var k :| k in keys;
      n := UpperBound(keys - {k});
      assert forall x :: x in keys ==> x == k || x in keys - {k};
      if n < k.pk {
        n := k.pk;
      }
    }
  }

  /** There is always a next page. */
  lemma {:induction false} PageExists(f: Filter, db: Database, t: TableName, last: nat, size: nat)
      returns (page: Database)
    ensures IsPage(f, db, t, last, size, page)
  {
    page := map[];
    if size > 0 {
      page := PageExists(f, db, t, last, size - 1);
      var left := set k | k in db && Matching(f, db, t, last, k) && k !in page;
      if left != {} {
        var k := Smallest(left);
        page := LargerPage(f, db, t, last, size, page, k);
      } else {
        assert forall k :: Matching(f, db, t, last, k) ==> k in page || k in left;
      }
    }
  }

  lemma LargerPage(f: Filter, db: Database, t: TableName, last: nat, size: nat, page: Database, k: Key)
      returns (larger: Database)
    requires size > 0 && IsPage(f, db, t, last, size - 1, page)
    requires Matching(f, db, t, last, k) && k !in page
    requires forall x :: Matching(f, db, t, last, x) && x !in page ==> k.pk <= x.pk
    ensures IsPage(f, db, t, last, size, larger)
  {
    larger := page[k := db[k]];
    OneMore(page, k, db[k]);
    assert |page| == size - 1;
    forall x | Matching(f, db, t, last, x) && x !in larger
      ensures |larger| == size && forall p :: p in larger ==> p.pk < x.pk
    {
      assert x == Key(t, x.pk) && k == Key(t, k.pk);
    }
  }

  lemma OneMore(page: Database, k: Key, row: Row)
    requires k !in page
    ensures |page[k := row]| == |page| + 1
  {
    assert page[k := row].Keys == page.Keys + {k};
    assert |page[k := row]| == |page[k := row].Keys| && |page| == |page.Keys|;
  }

  lemma NothingLeft(a: set<Key>, b: set<Key>)
    requires a - b == {} && b <= a
    ensures a == b
  {
    assert forall k :: k in a ==> k in b || k in a - b;
  }

  /** Only this table's iteration has changed, to `it`, and the target with it. */
  predicate Copied(s: State, t: TableName, it: Iteration, u: State) {
    u == s.(tables := s.tables[t := it], target := u.target)
  }

  lemma CopiedTwice(s: State, t: TableName, a: Iteration, m: State, b: Iteration, u: State)
    requires Copied(s, t, a, m) && Copied(m, t, b, u)
    ensures Copied(s, t, b, u)
  {
    assert s.tables[t := a][t := b] == s.tables[t := b];
  }

  /** The rest of a held page is written. */
  lemma {:induction false} InsertRest(c: Config, s: State, t: TableName) returns (steps: seq<Step>, u: State)
    requires t in s.tables && s.tables[t].Holding? && s.tables[t].copied <= s.tables[t].page.Keys
    requires forall k :: k in s.tables[t].page ==> k.table == t
    ensures Alone(c, s, steps, u) && Copied(s, t, s.tables[t].(copied := s.tables[t].page.Keys), u)
    decreases |s.tables[t].page.Keys - s.tables[t].copied|
  {
    var it := s.tables[t];
    var left := it.page.Keys - it.copied;
    if left == {} {
      u, steps := s, [];
      NothingLeft(it.page.Keys, it.copied);
      assert s.tables[t := it] == s.tables;
    } else {
      var k :| k in left;
      var m := InsertNext(c, s, t, k);
      OneLess(it.page.Keys, it.copied, k);
      steps, u := InsertRest(c, m, t);
      CopiedTwice(s, t, it.(copied := it.copied + {k}), m, it.(copied := it.page.Keys), u);
      AloneConcat(c, s, [Copy(Insert(t, k.pk))], m, steps, u);
      steps := [Copy(Insert(t, k.pk))] + steps;
    }
  }

  lemma InsertNext(c: Config, s: State, t: TableName, k: Key) returns (m: State)
    requires t in s.tables && s.tables[t].Holding? && k in s.tables[t].page && k.table == t
    ensures Alone(c, s, [Copy(Insert(t, k.pk))], m)
    ensures Copied(s, t, s.tables[t].(copied := s.tables[t].copied + {k}), m)
  {
    assert k == Key(t, k.pk);
    m := CopyApply(c, s, Insert(t, k.pk));
    AloneOne(c, s, Copy(Insert(t, k.pk)), m);
  }

  lemma OneLess(a: set<Key>, b: set<Key>, k: Key)
    requires k in a - b
    ensures |a - (b + {k})| < |a - b|
  {
    assert a - (b + {k}) == (a - b) - {k};
  }

  /** A held page is written and released. */
  lemma FinishPage(c: Config, s: State, t: TableName) returns (steps: seq<Step>, u: State)
    requires t in s.tables && s.tables[t].Holding? && HeldOk(t, s.tables[t])
    ensures var it := s.tables[t];
            Alone(c, s, steps, u) && Copied(s, t, Scanning(it.max, it.position), u) && it.position > it.last
  {
    var it := s.tables[t];
    var m: State;
    steps, m := InsertRest(c, s, t);
    u := CopyApply(c, m, Release(t));
    AloneOne(c, m, Copy(Release(t)), u);
    AloneConcat(c, s, steps, m, [Copy(Release(t))], u);
    CopiedTwice(s, t, it.(copied := it.page.Keys), m, Scanning(it.max, it.position), u);
    steps := steps + [Copy(Release(t))];
  }

  /** The next page of a table is selected and written, unless there is none. */
  lemma NextPage(c: Config, s: State, t: TableName) returns (steps: seq<Step>, u: State)
    requires t in s.tables && s.tables[t].Scanning? && s.tables[t].last < s.tables[t].max
    ensures Alone(c, s, steps, u) && t in u.tables && Copied(s, t, u.tables[t], u)
    ensures u.tables[t].Finished? ||
              (u.tables[t].Scanning? && u.tables[t].max == s.tables[t].max && u.tables[t].last > s.tables[t].last)
  {
    var it := s.tables[t];
    var page := PageExists(c.filter, s.source, t, it.last, c.pageSize);
    if page == map[] {
      u := CopyApply(c, s, SelectNothing(t));
      steps := [Copy(SelectNothing(t))];
      AloneOne(c, s, Copy(SelectNothing(t)), u);
    } else {
      var k :| k in page;
      assert Matching(c.filter, s.source, t, it.last, k) && k == Key(t, k.pk);
      var step := Copy(Select(t, page, k.pk));
      var m := CopyApply(c, s, step.copy);
      AloneOne(c, s, step, m);
      steps, u := FinishPage(c, m, t);
      AloneConcat(c, s, [step], m, steps, u);
      CopiedTwice(s, t, m.tables[t], m, u.tables[t], u);
      steps := [step] + steps;
    }
  }

  lemma {:induction false} ScanToEnd(c: Config, s: State, t: TableName) returns (steps: seq<Step>, u: State)
    requires t in s.tables && s.tables[t].Scanning?
    ensures Alone(c, s, steps, u) && Copied(s, t, Finished, u)
    decreases s.tables[t].max - s.tables[t].last
  {
    var it := s.tables[t];
    if it.max <= it.last {
      u := CopyApply(c, s, Finish(t));
      steps := [Copy(Finish(t))];
      AloneOne(c, s, Copy(Finish(t)), u);
    } else {
      steps, u := NextPage(c, s, t);
      if u.tables[t].Scanning? {
        var m, rest := u, steps;
        rest, u := ScanToEnd(c, m, t);
        AloneConcat(c, s, steps, m, rest, u);
        CopiedTwice(s, t, m.tables[t], m, Finished, u);
        steps := steps + rest;
      }
    }
  }

  lemma ReadMaximum(c: Config, s: State, t: TableName) returns (step: Step, u: State)
    requires t in s.tables && s.tables[t].Waiting? && s.connected
    ensures !step.Source? && Enabled(c, s, step) && u == Apply(c, s, step)
    ensures t in u.tables && u.tables[t].Scanning? && Copied(s, t, u.tables[t], u)
  {
    var n := UpperBound(s.source.Keys);
    step := Copy(ReadMax(t, Some(n)));
    assert CopyEnabled(c, s, step.copy);
    u := CopyApply(c, s, step.copy);
  }

  /** One table is copied to its end. */
  lemma FinishTable(c: Config, s: State, t: TableName) returns (steps: seq<Step>, u: State)
    requires t in s.tables && s.connected && HeldOk(t, s.tables[t])
    ensures Alone(c, s, steps, u) && Copied(s, t, Finished, u)
  {
    var m := s;
    steps := [];
    if s.tables[t].Waiting? {
      var step;
      step, m := ReadMaximum(c, s, t);
      AloneOne(c, s, step, m);
      steps := [step];
    } else if s.tables[t].Holding? {
      steps, m := FinishPage(c, s, t);
    }
    assert s.tables[t := s.tables[t]] == s.tables;
    if m.tables[t].Finished? {
      u := m;
    } else {
      var rest: seq<Step>;
      rest, u := ScanToEnd(c, m, t);
      AloneConcat(c, s, steps, m, rest, u);
      CopiedTwice(s, t, m.tables[t], m, Finished, u);
      steps := steps + rest;
    }
  }

  /** All tables are copied to their ends. */
  lemma {:induction false} FinishCopy(c: Config, s: State, tables: set<TableName>) returns (steps: seq<Step>, u: State)
    requires s.connected && PagesHeld(s) && tables <= s.tables.Keys
    requires forall t :: t in s.tables && t !in tables ==> s.tables[t].Finished?
    ensures Alone(c, s, steps, u) && u == s.(tables := u.tables, target := u.target)
    ensures RowCopyComplete(u) && u.tables.Keys == s.tables.Keys
    decreases |tables|
  {
    if tables == {} {
      u, steps := s, [];
    } else {
      var t :| t in tables;
      var m: State;
      steps, m := FinishTable(c, s, t);
      assert m.tables.Keys == s.tables.Keys;
      var rest: seq<Step>;
      rest, u := FinishCopy(c, m, tables - {t});
      AloneConcat(c, s, steps, m, rest, u);
      steps := steps + rest;
    }
  }

  // ---- the streamer reads on -----------------------------------------------

  /** Streamer, writer and target are all that has changed, and the writer goes on. */
  ghost predicate Streamed(c: Config, s: State, r: Streamer, t: State) {
    && t == s.(streamer := r, writer := t.writer, target := t.target)
    && WriterOk(c, t.writer) && t.writer.running && t.writer.closed == s.writer.closed
  }

  /** What is pending is handed to the writer, who makes room for it. */
  lemma {:induction false} PushRest(c: Config, s: State) returns (steps: seq<Step>, t: State)
    requires c.batchSize >= 1 && WriterOk(c, s.writer) && s.writer.running && s.streamer.pending.Some?
    ensures Alone(c, s, steps, t) && Streamed(c, s, s.streamer.(pending := Some([])), t)
    decreases |s.streamer.pending.value|
  {
    t, steps := s, [];
    if s.streamer.pending.value != [] {
      var m: State;
      steps, m := Drain(c, s);
      var n := StreamApply(c, m, Push);
      AloneOne(c, m, Stream(Push), n);
      AloneConcat(c, s, steps, m, [Stream(Push)], n);
      var rest: seq<Step>;
      rest, t := PushRest(c, n);
      AloneConcat(c, s, steps + [Stream(Push)], n, rest, t);
      steps := steps + [Stream(Push)] + rest;
    }
  }

  /** The streamer once the next entry is handled. */
  function Handled(s: State): Streamer
    requires s.streamer.index < |s.log|
  {
    var i := s.streamer.index;
    s.streamer.(position := Remember(s.streamer.position, s.log[i]), index := i + 1, pending := None)
  }

  lemma FinishEvent(c: Config, s: State) returns (steps: seq<Step>, t: State)
    requires c.batchSize >= 1 && WriterOk(c, s.writer) && s.writer.running
    requires s.streamer.pending.Some? && s.streamer.index < |s.log|
    ensures Alone(c, s, steps, t) && Streamed(c, s, Handled(s), t)
  {
    var m: State;
    steps, m := PushRest(c, s);
    t := StreamApply(c, m, Acknowledge);
    AloneOne(c, m, Stream(Acknowledge), t);
    AloneConcat(c, s, steps, m, [Stream(Acknowledge)], t);
    steps := steps + [Stream(Acknowledge)];
  }

  lemma HandleNext(c: Config, s: State) returns (steps: seq<Step>, t: State)
    requires c.batchSize >= 1 && WriterOk(c, s.writer) && s.writer.running && StreamEnabled(c, s, Read)
    ensures Alone(c, s, steps, t) && Streamed(c, s, Handled(s), t)
  {
    var m := ReadNext(c, s);
    t, steps := m, [Stream(Read)];
    if m.streamer.pending.Some? {
      steps, t := FinishEvent(c, m);
      AloneConcat(c, s, [Stream(Read)], m, steps, t);
      steps := [Stream(Read)] + steps;
    }
  }

  lemma ReadNext(c: Config, s: State) returns (m: State)
    requires StreamEnabled(c, s, Read)
    ensures Alone(c, s, [Stream(Read)], m) && m == s.(streamer := m.streamer)
    ensures m.streamer == if m.streamer.pending.Some? then s.streamer.(pending := m.streamer.pending) else Handled(s)
  {
    m := StreamApply(c, s, Read);
    AloneOne(c, s, Stream(Read), m);
  }

  /** Nothing among these entries of the log aborts the run. */
  ghost predicate Passable(c: Config, s: State, i: nat, n: nat) {
    n <= |s.log| && forall j :: i <= j < n ==> !Aborts(c.filter, s.tables.Keys, EntryChanges(s.log[j]))
  }

  /** The stop position has been reached once `n` entries are handled. */
  predicate ReachedAfter(s: State, n: nat)
    requires n <= |s.log|
  {
    !Less(Remembered(s.origin, s.log[..n]), s.cutover.stopPosition)
  }

  /** The position is remembered entry by entry. */
  lemma NextPosition(s: State)
    requires PositionOk(s) && s.connected && s.streamer.index < |s.log|
    ensures Handled(s).position == Remembered(s.origin, s.log[..s.streamer.index + 1])
  {
    var i := s.streamer.index;
    assert s.log[..i + 1][..i] == s.log[..i];
  }

  /** The streamer reads on until it can leave its loop. */
  lemma {:induction false} StreamOn(c: Config, s: State, n: nat) returns (steps: seq<Step>, t: State)
    requires c.batchSize >= 1 && WriterOk(c, s.writer) && s.writer.running
    requires s.connected && s.streamer.running && s.streamer.pending.None? && s.cutover.requested && PositionOk(s)
    requires s.streamer.index <= n && Passable(c, s, s.streamer.index, n) && ReachedAfter(s, n)
    ensures Alone(c, s, steps, t) && Streamed(c, s, t.streamer, t)
    ensures t.streamer.running && t.streamer.pending.None? && !KeepsStreaming(t)
    decreases n - s.streamer.index
  {
    t, steps := s, [];
    if KeepsStreaming(s) {
      NextPosition(s);
      var m: State;
      steps, m := HandleNext(c, s);
      var rest: seq<Step>;
      rest, t := StreamOn(c, m, n);
      AloneConcat(c, s, steps, m, rest, t);
      steps := steps + rest;
    }
  }

  // ---- the coordinator -----------------------------------------------------

  lemma AskToStop(c: Config, s: State) returns (steps: seq<Step>, t: State)
    requires s.connected && RowCopyComplete(s) && (s.cutover.recorded ==> s.cutover.readonly)
    ensures Alone(c, s, steps, t)
    ensures var stop := if s.cutover.recorded then s.cutover.stopPosition else Here(s);
            var n := if s.cutover.recorded then s.cutover.stopIndex else |s.log|;
            t == s.(cutover := Cutover(true, true, stop, n, true))
  {
    t := FerryApply(s, SetReadonly);
    steps := [Ferry(SetReadonly)];
    AloneOne(c, s, Ferry(SetReadonly), t);
    if !s.cutover.recorded {
      var m := t;
      t := FerryApply(m, RecordStop);
      AloneOne(c, m, Ferry(RecordStop), t);
      AloneConcat(c, s, steps, m, [Ferry(RecordStop)], t);
      steps := steps + [Ferry(RecordStop)];
    }
    var m := t;
    t := FerryApply(m, RequestStop);
    AloneOne(c, m, Ferry(RequestStop), t);
    AloneConcat(c, s, steps, m, [Ferry(RequestStop)], t);
    steps := steps + [Ferry(RequestStop)];
  }

  /** The channel is closed; the writer empties it and returns. */
  lemma FinishWriting(c: Config, s: State) returns (steps: seq<Step>, t: State)
    requires c.batchSize >= 1 && WriterOk(c, s.writer) && s.writer.closed && !s.streamer.running && RowCopyComplete(s)
    ensures Alone(c, s, steps, t) && Done(t)
  {
    t, steps := s, [];
    if s.writer.running {
      var m: State;
      steps, m := Drain(c, s);
      t := WriteApply(c, m, StopWriting);
      AloneOne(c, m, Replaying(StopWriting), t);
      AloneConcat(c, s, steps, m, [Replaying(StopWriting)], t);
      steps := steps + [Replaying(StopWriting)];
    }
  }

  // ---- from where the end can be reached -----------------------------------

  /** How many entries precede the stop position, if nothing is logged before it is recorded. */
  function StopAfter(s: State): nat {
    if s.cutover.recorded then s.cutover.stopIndex else |s.log|
  }

  /**
   The streamer can leave its loop having handled `n` entries: none that it has still to take
   up aborts the run, and the one before the stop position, or a later one, is not a format
   description.
   */
  ghost predicate LeavesAt(c: Config, s: State, n: nat) {
    && Taken(s) <= n <= |s.log| && Passable(c, s, Taken(s), n)
    && (StopAfter(s) == 0 || Positioned(s.log, StopAfter(s) - 1, n))
  }

  ghost predicate Open(c: Config, s: State) {
    !s.streamer.running || exists n: nat :: LeavesAt(c, s, n)
  }

  lemma ConnectIfNeeded(c: Config, s: State) returns (steps: seq<Step>, t: State)
    requires c.recordFirst && StopOk(s)
    ensures Alone(c, s, steps, t) && t.connected && StopOk(t)
    ensures t == s.(connected := true, streamer := s.streamer.(position := t.streamer.position))
  {
    t, steps := s, [];
    if !s.connected {
      t := FerryApply(s, Connect);
      steps := [Ferry(Connect)];
      AloneOne(c, s, Ferry(Connect), t);
      FerryKeepsStop(c, s, Connect);
    }
  }

  /** The stop position is recorded, and the streamer leaves its loop. */
  lemma FinishStreaming(c: Config, s: State, n: nat) returns (steps: seq<Step>, t: State)
    requires c.batchSize >= 1 && WriterOk(c, s.writer) && s.writer.running && s.streamer.running
    requires s.connected && s.cutover.requested && PositionOk(s) && Taken(s) <= n
    requires s.streamer.pending.Some? ==> s.streamer.index < |s.log|
    requires Passable(c, s, Taken(s), n) && ReachedAfter(s, n)
    ensures Alone(c, s, steps, t) && WriterOk(c, t.writer) && t.writer.closed && !t.streamer.running
    ensures t.tables == s.tables
  {
    var m := s;
    steps := [];
    if s.streamer.pending.Some? {
      NextPosition(s);
      steps, m := FinishEvent(c, s);
    }
    var rest, u := StreamOn(c, m, n);
    AloneConcat(c, s, steps, m, rest, u);
    t := StreamApply(c, u, StopStreaming);
    AloneOne(c, u, Stream(StopStreaming), t);
    AloneConcat(c, s, steps + rest, u, [Stream(StopStreaming)], t);
    steps := steps + rest + [Stream(StopStreaming)];
  }

  lemma ReachedThere(c: Config, s: State, n: nat, stop: Position)
    requires StopOk(s) && LeavesAt(c, s, n)
    requires stop == if s.cutover.recorded then s.cutover.stopPosition else Here(s)
    ensures !Less(Remembered(s.origin, s.log[..n]), stop)
  {
    assert s.log[..|s.log|] == s.log;
    ReachedIff(s.origin, s.log, StopAfter(s), n);
  }

  /** The way from the end of the copy to the end of the run. */
  lemma FinishCopied(c: Config, s: State, n: nat) returns (steps: seq<Step>, t: State)
    requires c.batchSize >= 1 && WriterOk(c, s.writer) && StreamerOk(s) && s.streamer.running
    requires s.connected && StopOk(s) && RowCopyComplete(s) && LeavesAt(c, s, n)
    ensures Alone(c, s, steps, t) && Done(t)
  {
    var m, u: State;
    steps, m := AskToStop(c, s);
    ReachedThere(c, s, n, m.cutover.stopPosition);
    var rest: seq<Step>;
    rest, u := FinishStreaming(c, m, n);
    AloneConcat(c, s, steps, m, rest, u);
    steps := steps + rest;
    rest, t := FinishWriting(c, u);
    AloneConcat(c, s, steps, u, rest, t);
    steps := steps + rest;
  }

  /** From an open state the ferry comes to its end by itself. */
  lemma OpenFinishes(c: Config, s: State) returns (steps: seq<Step>, t: State)
    requires AsWritten(c) && StopOk(s) && LiveOk(c, s) && Open(c, s)
    ensures Alone(c, s, steps, t) && Done(t)
  {
    if !s.streamer.running {
      steps, t := FinishWriting(c, s);
    } else {
      var n: nat :| LeavesAt(c, s, n);
      var m, u: State;
      var rest: seq<Step>;
      steps, m := ConnectIfNeeded(c, s);
      rest, u := FinishCopy(c, m, m.tables.Keys);
      AloneConcat(c, s, steps, m, rest, u);
      steps := steps + rest;
      assert LeavesAt(c, u, n);
      rest, t := FinishCopied(c, u, n);
      AloneConcat(c, s, steps, u, rest, t);
      steps := steps + rest;
    }
  }

  /** A step that leads to an open state leads from one. */
  lemma OpenBefore(c: Config, s: State, step: Step)
    requires c.recordFirst && StopOk(s) && !step.Source? && Enabled(c, s, step) && Open(c, Apply(c, s, step))
    ensures Open(c, s)
  {
    match step
    case Ferry(a) => OpenBeforeFerry(c, s, a);
    case Copy(a) =>
      CopyTouches(c, s, a);
      SameOpen(c, s, CopyApply(c, s, a));
    case Stream(a) => OpenBeforeStream(c, s, a);
    case Replaying(a) =>
      WriteTouches(c, s, a);
      SameOpen(c, s, WriteApply(c, s, a));
  }

  lemma SameOpen(c: Config, s: State, s': State)
    requires s'.log == s.log && StopAfter(s') == StopAfter(s) && Taken(s') == Taken(s)
    requires s'.tables.Keys == s.tables.Keys && s'.streamer.running == s.streamer.running
    ensures Open(c, s') ==> Open(c, s)
  {
    if s.streamer.running && Open(c, s') {
      var n: nat :| LeavesAt(c, s', n);
      assert LeavesAt(c, s, n);
    }
  }

  lemma OpenBeforeFerry(c: Config, s: State, a: FerryStep)
    requires FerryEnabled(c, s, a) && Open(c, FerryApply(s, a))
    ensures Open(c, s)
  {
    SameOpen(c, s, FerryApply(s, a));
  }

  lemma OpenBeforeStream(c: Config, s: State, a: StreamStep)
    requires StopOk(s) && StreamEnabled(c, s, a) && Open(c, StreamApply(c, s, a))
    ensures Open(c, s)
  {
    match a
    case ReadStart => SameOpen(c, s, StreamApply(c, s, a));
    case Read => OpenBeforeRead(c, s);
    case Push => SameOpen(c, s, StreamApply(c, s, a));
    case Acknowledge => SameOpen(c, s, StreamApply(c, s, a));
    case StopStreaming =>
      ReachedIff(s.origin, s.log, s.cutover.stopIndex, s.streamer.index);
      assert LeavesAt(c, s, s.streamer.index);
  }

  lemma OpenBeforeRead(c: Config, s: State)
    requires StreamEnabled(c, s, Read) && Open(c, StreamApply(c, s, Read))
    ensures Open(c, s)
  {
    var n: nat :| LeavesAt(c, StreamApply(c, s, Read), n);
    assert LeavesAt(c, s, n);
  }

  lemma {:induction false} FinishedWasOpen(c: Config, s: State, steps: seq<Step>, t: State)
    requires c.recordFirst && StopOk(s) && Alone(c, s, steps, t) && Done(t)
    ensures Open(c, s)
    decreases |steps|
  {
    if steps != [] {
      var m := Apply(c, s, steps[0]);
      StepKeepsStop(c, s, steps[0]);
      FinishedWasOpen(c, m, steps[1..], t);
      OpenBefore(c, s, steps[0]);
    }
  }

  /** The ferry can come to its end with no help from anybody. */
  ghost predicate CanFinish(c: Config, s: State) {
    exists steps, t :: Alone(c, s, steps, t) && Done(t)
  }

  /**
   Progress: in every state of every run, the ferry can come to its end by itself exactly if
   the streamer has left its loop, or can do so with the log at hand. There is no deadlock
   between iterators, streamer, writer and coordinator.
   */
  lemma FinishesIff(c: Config, s: State, steps: seq<Step>, t: State)
    requires AsWritten(c) && Init(s) && Runs(c, s, steps, t)
    ensures CanFinish(c, t) <==> Open(c, t)
  {
    RunKeepsStop(c, s, steps, t);
    RunKeepsLive(c, s, steps, t);
    if Open(c, t) {
      var more, u := OpenFinishes(c, t);
    }
    if more, u :| Alone(c, t, more, u) && Done(u) {
      FinishedWasOpen(c, t, more, u);
    }
  }
}

/**
 What every step of a run keeps, for a run that copies whole tables.
 */
module Invariant {
  import opened Rows
  import opened Binlog
  import opened CopyFilter
  import opened Protocol
  import opened History

  function Events(s: State): seq<Change> {
    Changes(s.log)
  }

  /** The changes replayed so far, counting the executed part of the current batch. */
  function Executed(s: State): seq<Change>
    requires s.writer.next <= |s.writer.batch|
  {
    s.writer.applied + s.writer.batch[..s.writer.next]
  }

  /** All changes are to tables the run copies. */
  ghost predicate Known(tables: set<TableName>, es: seq<Change>) {
    forall i :: 0 <= i < |es| ==> es[i].key.table in tables
  }

  /** The log explains how the source got from `base` to what it is. */
  ghost predicate LogOk(s: State) {
    && Advances(s.origin, s.log)
    && (!s.connected ==> s.log == [] && s.target == map[])
    && Consistent(s.base, Events(s))
    && s.source == Replay(s.base, Events(s))
    && (forall i :: 0 <= i < |s.log| ==> Known(s.tables.Keys, EntryChanges(s.log[i])))
  }

  /** How many log entries the streamer has taken up. */
  function Taken(s: State): nat {
    s.streamer.index + if s.streamer.pending.Some? then 1 else 0
  }

  function InFlight(s: State): seq<Change> {
    s.writer.batch + s.writer.channel + if s.streamer.pending.Some? then s.streamer.pending.value else []
  }

  /** Nothing is lost, duplicated or reordered between the log and the target. */
  ghost predicate StreamOk(s: State) {
    && Taken(s) <= |s.log|
    && (s.streamer.pending.Some? ==> s.log[s.streamer.index].RowsEvent?)
    && s.writer.next <= |s.writer.batch|
    && (!s.writer.writing ==> s.writer.next == 0)
    && Changes(s.log[..Taken(s)]) == s.writer.applied + InFlight(s)
  }

  /** The remembered position is that of the entries handled. */
  ghost predicate PositionOk(s: State) {
    && s.streamer.index <= |s.log|
    && (s.connected ==> s.streamer.position == Remembered(s.origin, s.log[..s.streamer.index]))
  }

  /** The recorded stop position covers the whole log of row changes; leaving early is impossible. */
  ghost predicate CutoverOk(s: State) {
    && (s.cutover.readonly ==> s.connected)
    && (s.cutover.recorded ==>
          && s.cutover.readonly
          && s.cutover.stopIndex <= |s.log|
          && s.cutover.stopPosition == ServerPosition(s.origin, s.log[..s.cutover.stopIndex])
          && Events(s) == Changes(s.log[..s.cutover.stopIndex]))
    && (s.cutover.requested ==> s.cutover.recorded)
    && (!s.streamer.running ==>
          s.cutover.requested && s.cutover.stopIndex <= s.streamer.index && s.streamer.pending.None?)
    && (s.writer.closed ==> !s.streamer.running)
    && (!s.writer.running ==> s.writer.closed && s.writer.channel == [] && s.writer.batch == [])
  }

  ghost predicate PageOk(s: State, t: TableName) {
    t in s.tables ==>
      var it := s.tables[t];
      && (!it.Waiting? ==> s.connected)
      && (it.Holding? ==>
            && it.copied <= it.page.Keys
            && Key(t, it.position) in it.page
            && forall k :: k in it.page ==>
                 k.table == t && it.last < k.pk && Lookup(s.source, k) == Some(it.page[k]))
  }

  /** While a page is held, each of its rows still has the value that was selected. */
  ghost predicate PagesOk(s: State) {
    forall t :: PageOk(s, t)
  }

  /**
   The copy is over for this key: it was copied, a SELECT passed over it as absent, or
   it lay above the largest key when that was read.
   */
  predicate Settled(s: State, k: Key) {
    k.pk >= 1 && k.table in s.tables &&
    match s.tables[k.table]
    case Waiting => false
    case Scanning(max, last) => k.pk <= last || max < k.pk
    case Holding(max, last, page, position, copied) =>
      k.pk <= last || max < k.pk || (if k in page then k in copied else k.pk <= position)
    case Finished => true
  }

  ghost predicate RowOk(s: State, k: Key)
    requires s.writer.next <= |s.writer.batch|
  {
    var a, v := |Executed(s)|, Lookup(s.target, k);
    && a <= |Events(s)|
    && (Fresh(s.base, Events(s), a, k, v) || (!Settled(s, k) && Overdue(s.base, Events(s), a, k, v)))
  }

  /** Settled rows are fresh; other rows are fresh or overdue. */
  ghost predicate RowsOk(s: State)
    requires s.writer.next <= |s.writer.batch|
  {
    forall k :: RowOk(s, k)
  }

  /** Key 0 is never copied: it can only get to the target through a logged insert. */
  ghost predicate ZeroOk(s: State) {
    forall k: Key :: k.pk == 0 && k in s.target ==> EverAbsent(s.base, Events(s), k)
  }

  ghost predicate Inv(s: State) {
    && LogOk(s) && StreamOk(s) && PositionOk(s) && CutoverOk(s)
    && PagesOk(s) && RowsOk(s) && ZeroOk(s)
  }

  /** The run copies whole tables, and all changes are to tables it copies. */
  ghost predicate Whole(c: Config, s: State, step: Step) {
    && AsWritten(c) && c.filter == Everything
    && (step.Source? && step.source.Write? ==> Known(s.tables.Keys, step.source.changes))
  }

  lemma {:induction false} ApplicableWhole(tables: set<TableName>, es: seq<Change>)
    requires Known(tables, es)
    ensures Applicable(Everything, tables, es) == es
  {
    if es != [] {
      ApplicableWhole(tables, es[..|es| - 1]);
    }
  }

  /** The replayed changes are a prefix of the logged ones. */
  lemma ExecutedIsPrefix(s: State)
    requires StreamOk(s)
    ensures |Executed(s)| <= |Events(s)|
    ensures Events(s)[..|Executed(s)|] == Executed(s)
    ensures s.writer.next < |s.writer.batch| ==>
              |Executed(s)| < |Events(s)| && Events(s)[|Executed(s)|] == s.writer.batch[s.writer.next]
  {
    var n := Taken(s);
    var rest := s.streamer.pending;
    ChangesSplit(s.log, n);
    PrefixOf(s.writer.applied, InFlight(s), Changes(s.log[n..]), s.writer.next);
    BatchFirst(s.writer.batch, s.writer.channel, if rest.Some? then rest.value else [], s.writer.next);
  }

  lemma BatchFirst(a: seq<Change>, b: seq<Change>, c: seq<Change>, n: nat)
    requires n <= |a|
    ensures |a| <= |a + b + c| && (a + b + c)[..n] == a[..n] && (n < |a| ==> (a + b + c)[n] == a[n])
  {
  }

  lemma PrefixOf(a: seq<Change>, b: seq<Change>, c: seq<Change>, n: nat)
    requires n <= |b|
    ensures (a + b + c)[..|a| + n] == a + b[..n]
    ensures n < |b| ==> (a + b + c)[|a| + n] == b[n]
  {
  }

  lemma InitInv(s: State)
    requires Init(s)
    ensures Inv(s)
  {
    forall k ensures RowOk(s, k) {
      assert Events(s) == [] && Executed(s) == [];
      assert Moment(s.base, [], 0, k) == Lookup(s.base, k);
      if k in s.base {
        assert Overdue(s.base, Events(s), 0, k, None);
      } else {
        assert Fresh(s.base, Events(s), 0, k, None);
      }
    }
  }
}

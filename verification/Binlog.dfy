/**
 The source's binary log: positions, entries, and the position arithmetic of the
 server and of the streamer.

 A position is a file and an offset, compared lexicographically; files are numbered
 in the order in which they were rotated.
 */
module Binlog {
  import opened Rows

  datatype Position = Position(file: nat, offset: nat)

  predicate Less(a: Position, b: Position) {
    a.file < b.file || (a.file == b.file && a.offset < b.offset)
  }

  /** Positions are totally ordered, first by file and then by offset. */
  lemma PositionOrder(a: Position, b: Position, c: Position)
    ensures a.file < b.file ==> Less(a, b)
    ensures a.file == b.file ==> (Less(a, b) <==> a.offset < b.offset)
    ensures Less(a, b) && Less(b, c) ==> Less(a, c)
    ensures a == b || Less(a, b) || Less(b, a)
    ensures !(Less(a, b) && Less(b, a))
  {
  }

  datatype Entry =
    | RowsEvent(changes: seq<Change>, logPos: nat)
    | RotateEvent(next: Position)
    | FormatDescriptionEvent(logPos: nat)
    | OtherEvent(logPos: nat)

  /** The server's position once `e` is written. */
  function EndOf(p: Position, e: Entry): Position {
    match e
    case RotateEvent(next) => next
    case _ => p.(offset := e.logPos)
  }

  /**
   The position the streamer remembers once `e` is handled. Only a rotation moves the
   file; a format description event is skipped without remembering its position.
   */
  function Remember(p: Position, e: Entry): Position {
    match e
    case RotateEvent(next) => next
    case FormatDescriptionEvent(_) => p
    case _ => p.(offset := e.logPos)
  }

  function ServerPosition(origin: Position, log: seq<Entry>): Position {
    if log == [] then origin
    else EndOf(ServerPosition(origin, log[..|log| - 1]), log[|log| - 1])
  }

  /** What the streamer remembers once a stretch of log is handled. */
  function Remembered(origin: Position, log: seq<Entry>): Position {
    if log == [] then origin
    else Remember(Remembered(origin, log[..|log| - 1]), log[|log| - 1])
  }

  /** Each entry was written beyond the position before it. */
  ghost predicate Advances(origin: Position, log: seq<Entry>) {
    forall i :: 0 <= i < |log| ==>
      Less(ServerPosition(origin, log[..i]), EndOf(ServerPosition(origin, log[..i]), log[i]))
  }

  lemma AdvancesAppend(origin: Position, log: seq<Entry>, e: Entry)
    requires Advances(origin, log)
    requires Less(ServerPosition(origin, log), EndOf(ServerPosition(origin, log), e))
    ensures Advances(origin, log + [e])
  {
    var log' := log + [e];
    forall i | 0 <= i < |log'|
      ensures Less(ServerPosition(origin, log'[..i]), EndOf(ServerPosition(origin, log'[..i]), log'[i]))
    {
      assert log'[..i] == log[..i];
      assert i == |log| ==> log[..i] == log;
    }
  }

  /** Later in the log means later in position, across any number of rotations. */
  lemma {:induction false} PositionsIncrease(origin: Position, log: seq<Entry>, i: nat, j: nat)
    requires Advances(origin, log)
    requires i < j <= |log|
    ensures Less(ServerPosition(origin, log[..i]), ServerPosition(origin, log[..j]))
    decreases j
  {
    assert log[..j][..j - 1] == log[..j - 1];
    if i < j - 1 {
      PositionsIncrease(origin, log, i, j - 1);
    }
  }

  /** The remembered position is in the server's file and never ahead of the server. */
  lemma {:induction false} RememberedBehind(origin: Position, log: seq<Entry>, i: nat)
    requires Advances(origin, log) && i <= |log|
    ensures var p, q := Remembered(origin, log[..i]), ServerPosition(origin, log[..i]);
            p.file == q.file && p.offset <= q.offset
    ensures i > 0 && !log[i - 1].FormatDescriptionEvent? ==>
              Remembered(origin, log[..i]) == ServerPosition(origin, log[..i])
  {
    if i > 0 {
      RememberedBehind(origin, log, i - 1);
      assert log[..i][..i - 1] == log[..i - 1];
    }
  }

  /** Entry `j` or one after it, among the first `i`, has a position that is remembered. */
  ghost predicate Positioned(log: seq<Entry>, j: int, i: nat)
    requires i <= |log|
  {
    exists n :: 0 <= n && j <= n < i && !log[n].FormatDescriptionEvent?
  }

  /**
   What is remembered is the server's position behind the last entry, of those handled,
   that is not a format description.
   */
  lemma {:induction false} RememberedIs(origin: Position, log: seq<Entry>, i: nat) returns (j: nat)
    requires Advances(origin, log) && i <= |log|
    ensures j <= i && Remembered(origin, log[..i]) == ServerPosition(origin, log[..j])
    ensures j > 0 ==> !log[j - 1].FormatDescriptionEvent?
    ensures forall n :: j <= n < i ==> log[n].FormatDescriptionEvent?
  {
    j := i;
    if i > 0 {
      RememberedBehind(origin, log, i);
      if log[i - 1].FormatDescriptionEvent? {
        assert log[..i][..i - 1] == log[..i - 1];
        j := RememberedIs(origin, log, i - 1);
      }
    }
  }

  /** Positions compare as indices do. */
  lemma PositionsCompare(origin: Position, log: seq<Entry>, j: nat, n: nat)
    requires Advances(origin, log) && j <= |log| && n <= |log|
    ensures Less(ServerPosition(origin, log[..j]), ServerPosition(origin, log[..n])) <==> j < n
  {
    if j < n {
      PositionsIncrease(origin, log, j, n);
    } else if n < j {
      PositionsIncrease(origin, log, n, j);
    }
  }

  /**
   Having handled `i` entries, the streamer has reached the position after the first `n`
   exactly if the last of these, or one after it, is not a format description.
   */
  lemma ReachedIff(origin: Position, log: seq<Entry>, n: nat, i: nat)
    requires Advances(origin, log) && n <= |log| && i <= |log|
    ensures !Less(Remembered(origin, log[..i]), ServerPosition(origin, log[..n])) <==>
              n == 0 || Positioned(log, n - 1, i)
  {
    var j := RememberedIs(origin, log, i);
    PositionsCompare(origin, log, j, n);
    if n <= j && n > 0 {
      assert n - 1 <= j - 1 < i && !log[j - 1].FormatDescriptionEvent?;
    }
  }

  function EntryChanges(e: Entry): seq<Change> {
    if e.RowsEvent? then e.changes else []
  }

  /** All row changes of a stretch of log, in order. */
  function Changes(log: seq<Entry>): seq<Change> {
    if log == [] then [] else Changes(log[..|log| - 1]) + EntryChanges(log[|log| - 1])
  }

  lemma ChangesAppend(log: seq<Entry>, e: Entry)
    ensures Changes(log + [e]) == Changes(log) + EntryChanges(e)
  {
    assert (log + [e])[..|log|] == log;
  }

  lemma ChangesNext(log: seq<Entry>, i: nat)
    requires i < |log|
    ensures Changes(log[..i + 1]) == Changes(log[..i]) + EntryChanges(log[i])
  {
    assert log[..i + 1][..i] == log[..i];
  }

  lemma {:induction false} ChangesConcat(a: seq<Entry>, b: seq<Entry>)
    ensures Changes(a + b) == Changes(a) + Changes(b)
    decreases |b|
  {
    if b == [] {
      assert a + b == a;
    } else {
      assert (a + b)[..|a + b| - 1] == a + b[..|b| - 1];
      ChangesConcat(a, b[..|b| - 1]);
    }
  }

  lemma LogSplit(log: seq<Entry>, n: nat, i: nat)
    requires n <= i <= |log|
    ensures log == log[..i] + log[i..] && log[..i] == log[..n] + log[n..i] && log[n..] == log[n..i] + log[i..]
  {
  }

  /** The changes of a log are those of its beginning and then those of the rest. */
  lemma ChangesSplit(log: seq<Entry>, i: nat)
    requires i <= |log|
    ensures Changes(log) == Changes(log[..i]) + Changes(log[i..])
  {
    LogSplit(log, i, i);
    ChangesConcat(log[..i], log[i..]);
  }

  lemma ChangesFrom(log: seq<Entry>, n: nat, i: nat)
    requires n <= i <= |log|
    ensures Changes(log[..i]) == Changes(log[..n]) + Changes(log[n..i])
    ensures Changes(log[n..]) == Changes(log[n..i]) + Changes(log[i..])
  {
    LogSplit(log, n, i);
    ChangesConcat(log[..n], log[n..i]);
    ChangesConcat(log[n..i], log[i..]);
  }
}

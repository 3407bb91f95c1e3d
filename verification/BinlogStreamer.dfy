/**
 The streamer's loop as the program runs it, with the coordinator's FlushAndStop going on
 beside it.
 */
module BinlogStreaming {
  import opened Rows
  import opened Binlog
  import opened CopyFilter

  lemma RememberedNext(origin: Position, log: seq<Entry>, i: nat)
    requires i < |log|
    ensures Remembered(origin, log[..i + 1]) == Remember(Remembered(origin, log[..i]), log[i])
  {
    assert log[..i + 1][..i] == log[..i];
  }

  /** What a listener is to be given of the entries from `from` to `to`. */
  function Deliverable(f: Filter, tables: set<TableName>, log: seq<Entry>, from: nat, to: nat): seq<Change>
    requires from <= to <= |log|
  {
    Applicable(f, tables, Changes(log[from..to]))
  }

  lemma DeliverableJoin(f: Filter, tables: set<TableName>, log: seq<Entry>, a: nat, b: nat, c: nat)
    requires a <= b <= c <= |log|
    ensures Deliverable(f, tables, log, a, c) == Deliverable(f, tables, log, a, b) + Deliverable(f, tables, log, b, c)
  {
    assert log[a..c] == log[a..b] + log[b..c];
    ChangesConcat(log[a..b], log[b..c]);
    ApplicableConcat(f, tables, Changes(log[a..b]), Changes(log[b..c]));
  }

  lemma DeliverableShort(f: Filter, tables: set<TableName>, log: seq<Entry>, n: nat)
    requires n <= |log|
    ensures Deliverable(f, tables, log, n, n) == []
    ensures n < |log| ==> Deliverable(f, tables, log, n, n + 1) == Applicable(f, tables, EntryChanges(log[n]))
  {
    assert log[n..n] == [];
    if n < |log| {
      assert log[n..n + 1] == [] + [log[n]];
      ChangesAppend([], log[n]);
      assert Changes(log[n..n + 1]) == EntryChanges(log[n]);
    }
  }

  /** Each listener has been given, beyond what it had before, these changes. */
  ghost predicate Given(before: seq<seq<Change>>, more: seq<Change>, after: seq<seq<Change>>) {
    |after| == |before| && forall l :: 0 <= l < |after| ==> after[l] == before[l] + more
  }

  /** Each listener has been given at least these. */
  ghost predicate GivenAtLeast(before: seq<seq<Change>>, more: seq<Change>, after: seq<seq<Change>>) {
    |after| == |before| && forall l :: 0 <= l < |after| ==> before[l] + more <= after[l]
  }

  lemma GivenThen(a: seq<seq<Change>>, x: seq<Change>, b: seq<seq<Change>>, y: seq<Change>, c: seq<seq<Change>>)
    requires Given(a, x, b)
    ensures Given(b, y, c) ==> Given(a, x + y, c)
    ensures GivenAtLeast(b, [], c) ==> GivenAtLeast(a, x, c)
  {
    forall l | 0 <= l < |c| && Given(b, y, c) ensures c[l] == a[l] + (x + y) {
      assert c[l] == b[l] + y;
    }
    forall l | 0 <= l < |c| && GivenAtLeast(b, [], c) ensures a[l] + x <= c[l] {
      assert b[l] + [] <= c[l];
    }
  }

  /**
   What else happens before one turn of the loop: FlushAndStop may read the server's
   position (the log is `record` entries long at that moment) and, once it has, may set
   its flag; the wait for the next event may time out; a listener may fail. `opening`
   says that the event is the one the server opens with, a rotation to the start position
   that is in no log.
   */
  datatype Turn = Turn(record: Option<nat>, request: bool, timeout: bool, opening: bool, fails: Option<nat>)

  /** The turn finds an entry of the log, if there is one. */
  predicate Finds(turn: Turn) {
    !turn.timeout && !turn.opening
  }

  /** How many turns do. */
  function Awake(turns: seq<Turn>): nat {
    if turns == [] then 0
    else Awake(turns[..|turns| - 1]) + if Finds(turns[|turns| - 1]) then 1 else 0
  }

  lemma AwakeNext(turns: seq<Turn>, i: nat)
    requires i < |turns|
    ensures Awake(turns[..i + 1]) == Awake(turns[..i]) + if Finds(turns[i]) then 1 else 0
  {
    assert turns[..i + 1][..i] == turns[..i];
  }

  function Min(a: nat, b: nat): nat {
    if a < b then a else b
  }

  /** What FlushAndStop has done so far: the recorded length of the log, and whether the flag is set. */
  datatype Stop = Stop(recorded: Option<nat>, requested: bool)

  /** One turn of it: the flag fixes what was recorded, and is set only with something recorded. */
  function Coordinate(stop: Stop, turn: Turn): Stop {
    var recorded := if turn.record.Some? && !stop.requested then turn.record else stop.recorded;
    Stop(recorded, stop.requested || (turn.request && recorded.Some?))
  }

  function Coordinated(stop: Stop, turns: seq<Turn>): Stop {
    if turns == [] then stop else Coordinate(Coordinated(stop, turns[..|turns| - 1]), turns[|turns| - 1])
  }

  lemma CoordinatedNext(stop: Stop, turns: seq<Turn>, i: nat)
    requires i < |turns|
    ensures Coordinated(stop, turns[..i + 1]) == Coordinate(Coordinated(stop, turns[..i]), turns[i])
  {
    assert turns[..i + 1][..i] == turns[..i];
  }

  datatype Outcome = StillRunning | Exited | Fatal

  class BinlogStreamer {
    // the server: its log from the start position on
    const origin: Position
    const log: seq<Entry>
    const filter: Filter
    const tables: set<TableName>

    var lastStreamedBinlogPosition: Position
    var targetBinlogPosition: Position
    var stopRequested: bool

    var handled: nat                  // log entries handled so far
    var received: seq<seq<Change>>    // what each listener has been given
    var recorded: Option<nat>         // length of the log when the target position was read

    ghost predicate Valid()
      reads this
    {
      && Advances(origin, log) && handled <= |log|
      && lastStreamedBinlogPosition == Remembered(origin, log[..handled])
      && (recorded.Some? ==>
            recorded.value <= |log| && targetBinlogPosition == ServerPosition(origin, log[..recorded.value]))
      && (stopRequested ==> recorded.Some?)
    }

    function Stopping(): Stop
      reads this
    {
      Stop(recorded, stopRequested)
    }

    constructor (origin: Position, log: seq<Entry>, filter: Filter, tables: set<TableName>, listeners: nat)
      requires Advances(origin, log)
      ensures Valid() && !stopRequested && recorded.None? && handled == 0
      ensures this.log == log && this.origin == origin && received == seq(listeners, _ => [])
      ensures this.filter == filter && this.tables == tables
    {
      this.origin, this.log, this.filter, this.tables := origin, log, filter, tables;
      lastStreamedBinlogPosition, targetBinlogPosition, stopRequested := origin, Position(0, 0), false;
      handled, recorded := 0, None;
      received := seq(listeners, _ => []);
    }

    /** The first half of FlushAndStop: the position is read before anything is requested. */
    method RecordTarget(n: nat)
      requires Valid() && n <= |log| && !stopRequested
      modifies this`targetBinlogPosition, this`recorded
      ensures Valid() && recorded == Some(n) && targetBinlogPosition == ServerPosition(origin, log[..n])
    {
      targetBinlogPosition := ServerPosition(origin, log[..n]);
      recorded := Some(n);
    }

    /** The second half. */
    method RequestStop()
      requires Valid() && recorded.Some?
      modifies this`stopRequested
      ensures Valid() && stopRequested
    {
      stopRequested := true;
    }

    method FlushAndStop(n: nat)
      requires Valid() && n <= |log| && !stopRequested
      modifies this`targetBinlogPosition, this`recorded, this`stopRequested
      ensures Valid() && stopRequested && recorded == Some(n)
    {
      RecordTarget(n);
      RequestStop();
    }

    predicate KeepsStreaming()
      reads this
    {
      !stopRequested || (stopRequested && Less(lastStreamedBinlogPosition, targetBinlogPosition))
    }

    /** Leaving the loop is only possible once everything up to the recorded position is handled. */
    lemma ExitIsSafe()
      requires Valid() && !KeepsStreaming()
      ensures recorded.Some? && recorded.value <= handled
    {
      RememberedBehind(origin, log, handled);
      if handled < recorded.value {
        PositionsIncrease(origin, log, handled, recorded.value);
      }
    }

    /**
     When it can be left, exactly: the entry before the recorded position, or a later one
     already handled, is not a format description, whose position is not remembered.
     */
    lemma ExitIff()
      requires Valid() && stopRequested
      ensures !KeepsStreaming() <==> recorded.value == 0 || Positioned(log, recorded.value - 1, handled)
    {
      ReachedIff(origin, log, recorded.value, handled);
    }

    /** The filter's decisions on one rows event; an error stops before any listener sees it. */
    method FilterEvents(changes: seq<Change>) returns (events: seq<Change>, ok: bool)
      ensures ok <==> !Aborts(filter, tables, changes)
      ensures ok ==> events == Applicable(filter, tables, changes)
    {
      events := [];
      for i := 0 to |changes|
        invariant forall j :: 0 <= j < i ==> Judge(filter, tables, changes[j]) != Aborted
        invariant events == Applicable(filter, tables, changes[..i])
      {
        var verdict := Judge(filter, tables, changes[i]);
        if verdict == Aborted {
          return events, false;
        }
        assert changes[..i + 1][..i] == changes[..i];
        if verdict == Replayed {
          events := events + [changes[i]];
        }
      }
      assert changes[..|changes|] == changes;
      ok := true;
    }

    /** This one of the listeners fails. */
    predicate ListenerFails(fails: Option<nat>)
      reads this
    {
      fails.Some? && fails.value < |received|
    }

    /** Every listener is called in turn with the events, up to one that fails. */
    method CallListeners(events: seq<Change>, fails: Option<nat>) returns (ok: bool)
      modifies this`received
      ensures |received| == old(|received|) && (ok <==> !ListenerFails(fails))
      ensures forall l :: 0 <= l < |received| ==>
                received[l] == old(received)[l] + if ok || l < fails.value then events else []
    {
      for l := 0 to |received|
        invariant |received| == old(|received|) && (fails.Some? ==> l <= fails.value || |received| <= fails.value)
        invariant forall m :: 0 <= m < l ==> received[m] == old(received)[m] + events
        invariant forall m :: l <= m < |received| ==> received[m] == old(received)[m]
      {
        if fails == Some(l) {
          return false;
        }
        received := received[l := received[l] + events];
      }
      ok := true;
    }

    /** A rows event: its changes are filtered, and the listeners are called with what remains. */
    method HandleRowsEvent(changes: seq<Change>, fails: Option<nat>) returns (ok: bool)
      modifies this`received
      ensures ok <==> !old(ListenerFails(fails)) && !Aborts(filter, tables, changes)
      ensures ok ==> Given(old(received), Applicable(filter, tables, changes), received)
      ensures !ok ==> GivenAtLeast(old(received), [], received)
    {
      var events;
      events, ok := FilterEvents(changes);
      if ok {
        ok := CallListeners(events, fails);
      }
    }

    /** The event the server opens with. */
    method HandleOpening()
      requires Valid() && handled == 0
      modifies this`lastStreamedBinlogPosition
      ensures Valid() && lastStreamedBinlogPosition == origin
    {
      lastStreamedBinlogPosition := origin;
    }

    /** The entry is a rows event that aborts, or one that one of the listeners fails on. */
    ghost predicate Stumbles(n: nat, fails: Option<nat>, listeners: nat)
      requires n < |log|
    {
      && log[n].RowsEvent?
      && ((fails.Some? && fails.value < listeners) || Aborts(filter, tables, log[n].changes))
    }

    /** The turn finds such an entry, with `n` handled before. */
    ghost predicate FindsStumble(turn: Turn, n: nat, listeners: nat) {
      Finds(turn) && n < |log| && Stumbles(n, turn.fails, listeners)
    }

    /** One event from the server's log. Every listener is given what is wanted of it. */
    method HandleEvent(fails: Option<nat>) returns (ok: bool)
      requires Valid() && handled < |log|
      modifies this`lastStreamedBinlogPosition, this`handled, this`received
      ensures ok <==> !old(Stumbles(handled, fails, |received|))
      ensures Valid() && handled == old(handled) + if ok then 1 else 0
      ensures ok ==> Given(old(received), Applicable(filter, tables, EntryChanges(log[old(handled)])), received)
      ensures !ok ==> GivenAtLeast(old(received), [], received)
    {
      var e := log[handled];
      RememberedNext(origin, log, handled);
      match e {
        case RotateEvent(p) =>
          lastStreamedBinlogPosition := p;
        case RowsEvent(changes, logPos) =>
          ok := HandleRowsEvent(changes, fails);
          if !ok {
            return false;
          }
          lastStreamedBinlogPosition := lastStreamedBinlogPosition.(offset := logPos);
        case FormatDescriptionEvent(_) =>
        case OtherEvent(logPos) =>
          lastStreamedBinlogPosition := lastStreamedBinlogPosition.(offset := logPos);
      }
      handled := handled + 1;
      ok := true;
    }

    /** The event of a turn: none, the opening one, or the next entry of the log if there is one. */
    method HandleNext(turn: Turn) returns (ok: bool)
      requires Valid() && (turn.opening ==> handled == 0)
      modifies this`lastStreamedBinlogPosition, this`handled, this`received
      ensures ok <==> !old(FindsStumble(turn, handled, |received|))
      ensures Valid() && handled == if ok && Finds(turn) then Min(|log|, old(handled) + 1) else old(handled)
      ensures ok ==> Given(old(received), Deliverable(filter, tables, log, old(handled), handled), received)
      ensures !ok ==> GivenAtLeast(old(received), [], received)
    {
      ok := true;
      DeliverableShort(filter, tables, log, handled);
      if !turn.timeout {
        if turn.opening {
          HandleOpening();
        } else if handled < |log| {
          ok := HandleEvent(turn.fails);
        }
      }
    }

    /** What the coordinator does before this turn. */
    method Meanwhile(turn: Turn)
      requires Valid() && (turn.record.Some? ==> turn.record.value <= |log|)
      modifies this`targetBinlogPosition, this`recorded, this`stopRequested
      ensures Valid() && Stopping() == Coordinate(old(Stopping()), turn)
    {
      if turn.record.Some? && !stopRequested {
        RecordTarget(turn.record.value);
      }
      if turn.request && recorded.Some? {
        RequestStop();
      }
    }

    /** The flag is set, and the recorded position has been reached with `n` entries handled. */
    ghost predicate Leaves(stop: Stop, n: nat)
      requires n <= |log|
    {
      stop.requested && stop.recorded.Some? && (stop.recorded.value == 0 || Positioned(log, stop.recorded.value - 1, n))
    }

    /** One turn of the loop. */
    method TakeTurn(turn: Turn) returns (outcome: Outcome)
      requires Valid() && (turn.record.Some? ==> turn.record.value <= |log|) && (turn.opening ==> handled == 0)
      modifies this
      ensures Valid() && Stopping() == Coordinate(old(Stopping()), turn)
      ensures outcome == Exited <==> Leaves(Stopping(), old(handled))
      ensures outcome == Fatal <==> outcome != Exited && old(FindsStumble(turn, handled, |received|))
      ensures outcome != StillRunning ==> handled == old(handled)
      ensures outcome == Exited ==> received == old(received) && recorded.value <= handled
      ensures outcome == Fatal ==> GivenAtLeast(old(received), [], received)
      ensures outcome == StillRunning ==>
                && handled == (if Finds(turn) then Min(|log|, old(handled) + 1) else old(handled))
                && Given(old(received), Deliverable(filter, tables, log, old(handled), handled), received)
    {
      Meanwhile(turn);
      if stopRequested {
        ExitIff();
      }
      if !KeepsStreaming() {
        ExitIsSafe();
        return Exited;
      }
      var ok := HandleNext(turn);
      outcome := if ok then StillRunning else Fatal;
    }

    // ---- how a run of turns ends, in terms of the turns ----------------------

    /** How many entries are handled before turn `i`, if nothing has ended the loop. */
    function HandledBefore(start: nat, turns: seq<Turn>, i: nat): nat
      requires i <= |turns|
    {
      Min(|log|, start + Awake(turns[..i]))
    }

    /** In turn `i` the loop condition is found false. */
    ghost predicate LeavesAt(stop: Stop, start: nat, turns: seq<Turn>, i: nat)
      requires i < |turns|
    {
      Leaves(Coordinated(stop, turns[..i + 1]), HandledBefore(start, turns, i))
    }

    /** Turn `i` finds an entry that aborts, or that one of the listeners fails on. */
    ghost predicate FailsAt(start: nat, listeners: nat, turns: seq<Turn>, i: nat)
      requires i < |turns|
    {
      FindsStumble(turns[i], HandledBefore(start, turns, i), listeners)
    }

    /** Neither happens in the first `n` turns. */
    ghost predicate GoesOn(stop: Stop, start: nat, listeners: nat, turns: seq<Turn>, n: nat)
      requires n <= |turns|
    {
      forall i: nat :: i < n ==> !LeavesAt(stop, start, turns, i) && !FailsAt(start, listeners, turns, i)
    }

    /** The loop is left in turn `i`. */
    ghost predicate ExitsIn(stop: Stop, start: nat, listeners: nat, turns: seq<Turn>, i: nat) {
      i < |turns| && GoesOn(stop, start, listeners, turns, i) && LeavesAt(stop, start, turns, i)
    }

    /** The loop ends with an error in turn `i`. */
    ghost predicate DiesIn(stop: Stop, start: nat, listeners: nat, turns: seq<Turn>, i: nat) {
      && i < |turns| && GoesOn(stop, start, listeners, turns, i)
      && !LeavesAt(stop, start, turns, i) && FailsAt(start, listeners, turns, i)
    }

    /** The turns decide how the loop ends. */
    ghost predicate EndsWith(outcome: Outcome, stop: Stop, start: nat, listeners: nat, turns: seq<Turn>) {
      match outcome
      case Exited => exists i: nat :: ExitsIn(stop, start, listeners, turns, i)
      case Fatal => exists i: nat :: DiesIn(stop, start, listeners, turns, i)
      case StillRunning => GoesOn(stop, start, listeners, turns, |turns|)
    }

    /** In one way only. */
    lemma OneEnd(a: Outcome, b: Outcome, stop: Stop, start: nat, listeners: nat, turns: seq<Turn>)
      requires EndsWith(a, stop, start, listeners, turns) && EndsWith(b, stop, start, listeners, turns)
      ensures a == b
    {
    }

    /** How things stand before turn `i`: nothing has ended the loop, and all listeners are up to date. */
    ghost predicate Underway(stop: Stop, start: nat, before: seq<seq<Change>>, turns: seq<Turn>, i: nat,
                             now: Stop, n: nat, held: seq<seq<Change>>) {
      && i <= |turns| && start <= n <= |log| && n == HandledBefore(start, turns, i)
      && now == Coordinated(stop, turns[..i]) && GoesOn(stop, start, |before|, turns, i)
      && Given(before, Deliverable(filter, tables, log, start, n), held)
    }

    lemma UnderwayFirst(stop: Stop, start: nat, before: seq<seq<Change>>, turns: seq<Turn>)
      requires start <= |log|
      ensures Underway(stop, start, before, turns, 0, stop, start, before)
    {
      DeliverableShort(filter, tables, log, start);
    }

    /** What the next turn makes of it. */
    lemma UnderwayTurn(stop: Stop, start: nat, before: seq<seq<Change>>, turns: seq<Turn>, i: nat,
                       now: Stop, n: nat, held: seq<seq<Change>>)
      requires Underway(stop, start, before, turns, i, now, n, held) && i < |turns|
      ensures LeavesAt(stop, start, turns, i) <==> Leaves(Coordinate(now, turns[i]), n)
      ensures FailsAt(start, |before|, turns, i) <==> FindsStumble(turns[i], n, |held|)
    {
      CoordinatedNext(stop, turns, i);
    }

    lemma UnderwayNext(stop: Stop, start: nat, before: seq<seq<Change>>, turns: seq<Turn>, i: nat,
                       now: Stop, n: nat, held: seq<seq<Change>>, m: nat, got: seq<seq<Change>>)
      requires Underway(stop, start, before, turns, i, now, n, held) && i < |turns|
      requires !LeavesAt(stop, start, turns, i) && !FailsAt(start, |before|, turns, i)
      requires m == if Finds(turns[i]) then Min(|log|, n + 1) else n
      requires Given(held, Deliverable(filter, tables, log, n, m), got)
      ensures Underway(stop, start, before, turns, i + 1, Coordinate(now, turns[i]), m, got)
    {
      CoordinatedNext(stop, turns, i);
      AwakeNext(turns, i);
      DeliverableJoin(filter, tables, log, start, n, m);
      GivenThen(before, Deliverable(filter, tables, log, start, n), held, Deliverable(filter, tables, log, n, m), got);
    }

    /**
     How the loop ends, and what it has done by then. It is left in the first turn that finds
     the flag set and the recorded position reached, it dies in the first that finds an
     aborting event or a failing listener, and if neither comes every turn that finds an
     entry of the log handles the next one. Every listener has been given every wanted
     change of every entry handled, in order; when the loop is left, that is every entry up
     to the recorded position, across all file rotations. The server opens before it sends
     any entry.
     */
    method Run(turns: seq<Turn>) returns (outcome: Outcome)
      requires Valid()
      requires forall i :: 0 <= i < |turns| && turns[i].record.Some? ==> turns[i].record.value <= |log|
      requires forall i :: 0 <= i < |turns| && turns[i].opening ==> handled == 0 == Awake(turns[..i])
      modifies this
      ensures EndsWith(outcome, old(Stopping()), old(handled), old(|received|), turns)
      ensures Valid() && old(handled) <= handled
      ensures outcome != Fatal ==>
                Given(old(received), Applicable(filter, tables, Changes(log[old(handled)..handled])), received)
      ensures outcome == Fatal ==>
                GivenAtLeast(old(received), Applicable(filter, tables, Changes(log[old(handled)..handled])), received)
      ensures outcome == StillRunning ==> handled == Min(|log|, old(handled) + Awake(turns))
      ensures outcome == Exited ==> stopRequested && recorded.Some? && recorded.value <= handled
    {
      ghost var stop, start, before := Stopping(), handled, received;
      UnderwayFirst(stop, start, before, turns);
      for i := 0 to |turns|
        invariant Valid() && Underway(stop, start, before, turns, i, Stopping(), handled, received)
      {
        ghost var now, n, held := Stopping(), handled, received;
        UnderwayTurn(stop, start, before, turns, i, now, n, held);
        outcome := TakeTurn(turns[i]);
        if outcome == Exited {
          assert ExitsIn(stop, start, |before|, turns, i);
          return;
        }
        if outcome == Fatal {
          assert DiesIn(stop, start, |before|, turns, i);
          GivenThen(before, Deliverable(filter, tables, log, start, n), held, [], received);
          return;
        }
        UnderwayNext(stop, start, before, turns, i, now, n, held, handled, received);
      }
      assert turns[..|turns|] == turns;
      outcome := StillRunning;
    }
  }
}

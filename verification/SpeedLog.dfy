/**
 The copy-speed log: a ring of the latest totals of copied primary keys, from which the
 speed is estimated. Totals are unsigned 64-bit numbers and wrap around.
 */
module SpeedLogs {
  import opened Rows

  type UInt64 = n: int | 0 <= n < TWO_64

  datatype PkPositionLog = PkPositionLog(position: UInt64, at: real)

  /** A floating-point quotient, but for rounding. */
  datatype Rate = PerSecond(value: real) | Infinite | NotANumber

  function Quotient(keys: UInt64, seconds: real): (r: Rate)
    ensures seconds != 0.0 <==> r.PerSecond?
    ensures seconds != 0.0 ==> r.value * seconds == keys as real
    ensures seconds == 0.0 ==> (r.NotANumber? <==> keys == 0)
  {
    if seconds != 0.0 then PerSecond(keys as real / seconds)
    else if keys == 0 then NotANumber
    else Infinite
  }

  ghost function SumOver(pks: map<string, UInt64>, tables: set<string>): int
    requires tables <= pks.Keys
  {
    if tables == {} then 0
    else
      var t :| t in tables;
      pks[t] + SumOver(pks, tables - {t})
  }

  /** The sum of the last successful keys of all tables. */
  ghost function Total(pks: map<string, UInt64>): int {
    SumOver(pks, pks.Keys)
  }

  lemma {:induction false} SumPick(pks: map<string, UInt64>, tables: set<string>, t: string)
    requires t in tables && tables <= pks.Keys
    ensures SumOver(pks, tables) == pks[t] + SumOver(pks, tables - {t})
  {
    var u :| u in tables && SumOver(pks, tables) == pks[u] + SumOver(pks, tables - {u});
    if u != t {
      SumPick(pks, tables - {u}, t);
      SumPick(pks, tables - {t}, u);
      assert tables - {u} - {t} == tables - {t} - {u};
    }
  }

  lemma {:induction false} SumAgrees(a: map<string, UInt64>, b: map<string, UInt64>, tables: set<string>)
    requires tables <= a.Keys && tables <= b.Keys && forall t :: t in tables ==> a[t] == b[t]
    ensures SumOver(a, tables) == SumOver(b, tables)
  {
    if tables != {} {
      var t :| t in tables;
      SumPick(a, tables, t);
      SumPick(b, tables, t);
      SumAgrees(a, b, tables - {t});
    }
  }

  /** A missing entry reads as 0. */
  function LastPk(pks: map<string, UInt64>, table: string): UInt64 {
    if table in pks then pks[table] else 0
  }

  /** Setting one table's key changes the total by the difference. */
  lemma TotalUpdate(pks: map<string, UInt64>, table: string, pk: UInt64)
    ensures Total(pks[table := pk]) == Total(pks) + pk - LastPk(pks, table)
  {
    var pks' := pks[table := pk];
    var others := pks.Keys - {table};
    SumPick(pks', pks'.Keys, table);
    assert pks'.Keys - {table} == others;
    SumAgrees(pks, pks', others);
    if table in pks {
      SumPick(pks, pks.Keys, table);
    } else {
      assert pks.Keys == others;
    }
  }

  lemma WrapsAround(total: int, delta: int)
    ensures (total % TWO_64 + delta % TWO_64) % TWO_64 == (total + delta) % TWO_64
  {
  }

  lemma SameDifference(total: int, earlier: int)
    ensures (total % TWO_64 - earlier) % TWO_64 == (total - earlier) % TWO_64
  {
  }

  /** The slot before slot `i`. */
  function Prev(i: nat, length: nat): nat
    requires i < length
  {
    if i == 0 then length - 1 else i - 1
  }

  /** The slot `m` steps back from `current`. */
  function Back(current: nat, m: nat, length: nat): nat
    requires current < length && m < length
  {
    if m <= current then current - m else current + length - m
  }

  class DataIteratorState {
    var lastSuccessfulPrimaryKeys: map<string, UInt64>
    const copySpeedLog: array<Option<PkPositionLog>>
    var current: nat
    ghost var wrapped: bool     // the ring has been filled once

    /** Until the ring is full, the slots up to the current one are set, and the first holds 0. */
    ghost predicate Valid()
      reads this, copySpeedLog
    {
      && current < copySpeedLog.Length
      && (forall i :: 0 <= i < copySpeedLog.Length && (wrapped || i <= current) ==> copySpeedLog[i].Some?)
      && (!wrapped ==> copySpeedLog[0].value.position == 0)
      && copySpeedLog[current].value.position == Total(lastSuccessfulPrimaryKeys) % TWO_64
    }

    constructor (tableIteratorCount: nat, now: real)
      requires tableIteratorCount >= 1
      ensures Valid() && fresh(copySpeedLog) && copySpeedLog.Length == 5 * tableIteratorCount
      ensures lastSuccessfulPrimaryKeys == map[] && current == 0 && copySpeedLog[0] == Some(PkPositionLog(0, now))
    {
      copySpeedLog := new Option<PkPositionLog>[tableIteratorCount * 5](_ => None);
      lastSuccessfulPrimaryKeys, current, wrapped := map[], 0, false;
      new;
      copySpeedLog[0] := Some(PkPositionLog(0, now));
    }

    /** The new total, the sum over all tables modulo 2^64, goes into the next slot and nowhere else. */
    method UpdateLastSuccessfulPK(table: string, pk: UInt64, now: real)
      requires Valid()
      modifies this, copySpeedLog
      ensures Valid() && lastSuccessfulPrimaryKeys == old(lastSuccessfulPrimaryKeys)[table := pk]
      ensures old(current) == Prev(current, copySpeedLog.Length)
      ensures copySpeedLog[current] == Some(PkPositionLog(Total(lastSuccessfulPrimaryKeys) % TWO_64, now))
      ensures forall i :: 0 <= i < copySpeedLog.Length && i != current ==> copySpeedLog[i] == old(copySpeedLog[i])
    {
      TotalUpdate(lastSuccessfulPrimaryKeys, table, pk);
      WrapsAround(Total(lastSuccessfulPrimaryKeys), pk - LastPk(lastSuccessfulPrimaryKeys, table));
      var deltaPK := (pk - LastPk(lastSuccessfulPrimaryKeys, table)) % TWO_64;
      lastSuccessfulPrimaryKeys := lastSuccessfulPrimaryKeys[table := pk];
      var currentTotalPK := copySpeedLog[current].value.position;
      if current + 1 == copySpeedLog.Length {
        current, wrapped := 0, true;
      } else {
        current := current + 1;
      }
      copySpeedLog[current] := Some(PkPositionLog((currentTotalPK + deltaPK) % TWO_64, now));
    }

    /** The slots from `current` back over `m` steps are set and not 0. */
    ghost predicate Counts(m: nat)
      requires current < copySpeedLog.Length && m < copySpeedLog.Length
      reads this, copySpeedLog
    {
      forall j: nat :: j <= m ==>
        var slot := copySpeedLog[Back(current, j, copySpeedLog.Length)];
        slot.Some? && slot.value.position != 0
    }

    /** The walk ends `m` steps back: everything up to there counts, and what lies beyond does not. */
    ghost predicate EndsAt(m: nat)
      requires current < copySpeedLog.Length
      reads this, copySpeedLog
    {
      && m < copySpeedLog.Length && Counts(m)
      && (m + 1 < copySpeedLog.Length ==>
            var slot := copySpeedLog[Back(current, m + 1, copySpeedLog.Length)];
            slot.Some? && slot.value.position == 0)
    }

    /**
     The backward walk to the oldest total that counts: it passes only slots that are set,
     goes round at most once, and stops only before a total of 0 or back at the start.
     */
    method Earliest() returns (earliest: nat, ghost m: nat)
      requires Valid() && copySpeedLog[current].value.position != 0
      ensures EndsAt(m) && earliest == Back(current, m, copySpeedLog.Length)
    {
      earliest, m := current, 0;
      while Prev(earliest, copySpeedLog.Length) != current
            && copySpeedLog[Prev(earliest, copySpeedLog.Length)].value.position != 0
        invariant m < copySpeedLog.Length && earliest == Back(current, m, copySpeedLog.Length)
        invariant Counts(m) && (!wrapped ==> 0 < earliest <= current)
        decreases copySpeedLog.Length - m
      {
        earliest, m := Prev(earliest, copySpeedLog.Length), m + 1;
      }
    }

    /**
     The keys processed since the oldest total that counts, over the time since then. The
     difference is the one that takes that total to the current one, modulo 2^64.
     */
    method EstimatedPKProcessedPerSecond() returns (r: Rate, ghost m: nat)
      requires Valid()
      ensures copySpeedLog[current].value.position == 0 ==> r == PerSecond(0.0)
      ensures copySpeedLog[current].value.position != 0 ==> EndsAt(m)
      ensures copySpeedLog[current].value.position != 0 ==>
                var now := copySpeedLog[current].value;
                var oldest := copySpeedLog[Back(current, m, copySpeedLog.Length)].value;
                r == Quotient((Total(lastSuccessfulPrimaryKeys) - oldest.position) % TWO_64, now.at - oldest.at)
    {
      var now := copySpeedLog[current].value;
      if now.position == 0 {
        return PerSecond(0.0), 0;
      }
      var earliest;
      earliest, m := Earliest();
      var oldest := copySpeedLog[earliest].value;
      var deltaPK := (now.position - oldest.position) % TWO_64;
      SameDifference(Total(lastSuccessfulPrimaryKeys), oldest.position);
      r := Quotient(deltaPK, now.at - oldest.at);
    }
  }
}

/**
 Row fingerprints as the generated query computes them, and their comparison. The hash
 is a parameter: all that is known of it is the length of its values.
 */
module Fingerprints {
  import opened Rows
  import opened SqlText

  /** What COALESCE(column, 'NULL') shows of a value. */
  function Shown(v: Value): string {
    match v
    case Null => "NULL"
    case Number(n) => if n < 0 then "-" + Decimal(-n) else Decimal(n)
    case Bytes(content) => content
  }

  function Concatenated(md5: string -> string, row: Row): string {
    if row == [] then "" else Concatenated(md5, row[..|row| - 1]) + md5(Shown(row[|row| - 1]))
  }

  function Fingerprint(md5: string -> string, row: Row): string {
    md5(Concatenated(md5, row))
  }

  ghost predicate IsHash(md5: string -> string) {
    forall s :: |md5(s)| == 32
  }

  /** Everything that is hashed for the fingerprint of a row. */
  function Hashed(md5: string -> string, row: Row): set<string> {
    (set v | v in row :: Shown(v)) + {Concatenated(md5, row)}
  }

  predicate CollisionFree(md5: string -> string, texts: set<string>) {
    forall s, t :: s in texts && t in texts && md5(s) == md5(t) ==> s == t
  }

  ghost predicate SameShown(a: Row, b: Row) {
    |a| == |b| && forall i :: 0 <= i < |a| ==> Shown(a[i]) == Shown(b[i])
  }

  lemma {:induction false} ConcatenatedSplits(md5: string -> string, a: Row, b: Row)
    requires IsHash(md5) && |a| == |b| && Concatenated(md5, a) == Concatenated(md5, b)
    ensures forall i :: 0 <= i < |a| ==> md5(Shown(a[i])) == md5(Shown(b[i]))
  {
    if a != [] {
      var n := |a| - 1;
      var x, y := Concatenated(md5, a[..n]), Concatenated(md5, b[..n]);
      assert x + md5(Shown(a[n])) == y + md5(Shown(b[n]));
      assert |x| == |y|;
      assert (x + md5(Shown(a[n])))[..|x|] == x && (y + md5(Shown(b[n])))[..|y|] == y;
      assert (x + md5(Shown(a[n])))[|x|..] == md5(Shown(a[n])) && (y + md5(Shown(b[n])))[|y|..] == md5(Shown(b[n]));
      ConcatenatedSplits(md5, a[..n], b[..n]);
      forall i | 0 <= i < |a| ensures md5(Shown(a[i])) == md5(Shown(b[i])) {
        if i < n {
          assert a[..n][i] == a[i] && b[..n][i] == b[i];
        }
      }
    }
  }

  lemma {:induction false} SameConcatenated(md5: string -> string, a: Row, b: Row)
    requires SameShown(a, b)
    ensures Concatenated(md5, a) == Concatenated(md5, b)
  {
    if a != [] {
      SameConcatenated(md5, a[..|a| - 1], b[..|b| - 1]);
    }
  }

  /** Fingerprints tell rows of a table apart exactly as far as their shown values do, unless the hash collides. */
  lemma FingerprintIsExact(md5: string -> string, a: Row, b: Row)
    requires IsHash(md5) && |a| == |b|
    requires CollisionFree(md5, Hashed(md5, a) + Hashed(md5, b))
    ensures Fingerprint(md5, a) == Fingerprint(md5, b) <==> SameShown(a, b)
  {
    if Fingerprint(md5, a) == Fingerprint(md5, b) {
      assert Concatenated(md5, a) in Hashed(md5, a) && Concatenated(md5, b) in Hashed(md5, b);
      ConcatenatedSplits(md5, a, b);
      forall i | 0 <= i < |a| ensures Shown(a[i]) == Shown(b[i]) {
        assert a[i] in a && b[i] in b;
        assert Shown(a[i]) in Hashed(md5, a) && Shown(b[i]) in Hashed(md5, b);
      }
    }
    if SameShown(a, b) {
      SameConcatenated(md5, a, b);
    }
  }

  /** Two values that one column can hold. */
  predicate SameColumn(v: Value, w: Value) {
    v.Null? || w.Null? || (v.Number? <==> w.Number?)
  }

  /** The one pair of values of a column that no fingerprint tells apart. */
  predicate NullTwins(v: Value, w: Value) {
    (v.Null? && w == Bytes("NULL")) || (w.Null? && v == Bytes("NULL"))
  }

  lemma NumberShown(n: Integer, m: Integer)
    ensures Shown(Number(n)) == Shown(Number(m)) <==> n == m
    ensures Shown(Number(n)) != "NULL"
  {
    ReadBack(if n < 0 then -n else n);
    ReadBack(if m < 0 then -m else m);
    assert IsDigit(Decimal(if n < 0 then -n else n)[0]) && IsDigit(Decimal(if m < 0 then -m else m)[0]);
    if n < 0 {
      assert Shown(Number(n))[0] == '-' && Shown(Number(n))[1..] == Decimal(-n);
    }
    if m < 0 {
      assert Shown(Number(m))[0] == '-' && Shown(Number(m))[1..] == Decimal(-m);
    }
  }

  /** Shown values differ whenever the values do, except for NULL and the string 'NULL'. */
  lemma ShownIsExact(v: Value, w: Value)
    requires SameColumn(v, w)
    ensures Shown(v) == Shown(w) <==> v == w || NullTwins(v, w)
  {
    if v.Number? && w.Number? {
      NumberShown(v.n, w.n);
    } else if v.Number? {
      NumberShown(v.n, 0);
    } else if w.Number? {
      NumberShown(w.n, 0);
    }
  }

  /** The fingerprint of a row, if there is one. */
  function At(hashes: map<nat, string>, pk: nat): Option<string> {
    if pk in hashes then Some(hashes[pk]) else None
  }

  /** One of the two passes: the keys on this side that differ. */
  method Pass(hashes: map<nat, string>, others: map<nat, string>, found: set<nat>) returns (mismatchSet: set<nat>)
    ensures forall pk :: pk in mismatchSet <==> pk in found || (pk in hashes && At(hashes, pk) != At(others, pk))
  {
    mismatchSet := found;
    var rest := hashes.Keys;
    while rest != {}
      invariant rest <= hashes.Keys
      invariant forall pk :: pk in mismatchSet <==>
                  pk in found || (pk in hashes && pk !in rest && At(hashes, pk) != At(others, pk))
      decreases |rest|
    {
      var pk :| pk in rest;
      if pk !in others || hashes[pk] != others[pk] {
        mismatchSet := mismatchSet + {pk};
      }
      rest := rest - {pk};
    }
  }

  /** The keys that are on one side only or have different fingerprints, each once. */
  method CompareHashes(source: map<nat, string>, target: map<nat, string>) returns (mismatches: seq<nat>)
    ensures forall pk :: pk in mismatches <==> At(source, pk) != At(target, pk)
    ensures forall i, j :: 0 <= i < j < |mismatches| ==> mismatches[i] != mismatches[j]
  {
    var mismatchSet := Pass(target, source, {});
    mismatchSet := Pass(source, target, mismatchSet);
    mismatches := [];
    var rest := mismatchSet;
    while rest != {}
      invariant rest <= mismatchSet
      invariant forall pk :: pk in mismatches <==> pk in mismatchSet && pk !in rest
      invariant forall i, j :: 0 <= i < j < |mismatches| ==> mismatches[i] != mismatches[j]
      decreases |rest|
    {
      var pk :| pk in rest;
      mismatches := mismatches + [pk];
      rest := rest - {pk};
    }
  }
}

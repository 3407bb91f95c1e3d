/**
 The ferry and the verifier together: what the verification in the cutover says about the
 rows that a completed run of the ferry leaves behind.
 */
module VerifiedFerry {
  import opened Rows
  import opened CopyFilter
  import opened Reverifying
  import opened Verdicts
  import opened Verification
  import opened CutoverVerdict
  import WorkerPools
  import Binlog
  import KeyReuse
  import Protocol
  import Sharding
  import Convergence

  /** A completed run of the ferry, in whose log no number is taken for the sharding value. */
  ghost predicate Ferried(c: Protocol.Config, s: Protocol.State, steps: seq<Protocol.Step>, t: Protocol.State) {
    && Protocol.AsWritten(c) && Protocol.Init(s) && Protocol.Runs(c, s, steps, t) && Protocol.Done(t)
    && Sharding.LogUntwinned(c.filter, s.tables.Keys, t.log)
  }

  /** The verifier looks at the two databases the ferry has left. */
  predicate LooksAt(v: State, t: Protocol.State) {
    v.source == t.source && v.target == t.target
  }

  /**
   The row under this key, if the source has one, was to be copied; and it is not one with
   key 0 that was there all along.
   */
  ghost predicate Ferriable(c: Protocol.Config, t: Protocol.State, k: Key) {
    && (k in t.source ==> k in Convergence.Wanted(c, t))
    && (k.pk == 0 ==> Convergence.WasAbsent(c, t, k))
  }

  lemma ZeroLeftBehind(c: Protocol.Config, s: Protocol.State, steps: seq<Protocol.Step>, t: Protocol.State, k: Key)
    requires Ferried(c, s, steps, t) && k.pk == 0 && !Convergence.WasAbsent(c, t, k)
    ensures k in t.source && k !in t.target
  {
    Convergence.InvariantHolds(c, s, steps, t);
    Convergence.DoneZeroRow(Sharding.ProjectState(c.filter, t), k);
  }

  lemma Delivered(c: Protocol.Config, s: Protocol.State, steps: seq<Protocol.Step>, t: Protocol.State, k: Key)
    requires Ferried(c, s, steps, t) && (k.pk == 0 ==> Convergence.WasAbsent(c, t, k))
    ensures Lookup(t.target, k) == Lookup(Convergence.Wanted(c, t), k)
  {
    Convergence.Converges(c, s, steps, t);
    Convergence.ZeroRows(c, s, steps, t);
  }

  /** After a completed run a row is the same on both sides exactly if it was one for the ferry, or is on neither. */
  lemma AgreesIff(c: Protocol.Config, s: Protocol.State, steps: seq<Protocol.Step>, t: Protocol.State,
                  vc: Config, v: State, k: Key)
    requires Ferried(c, s, steps, t) && LooksAt(v, t)
    ensures Agrees(vc, v, k) <==> Ferriable(c, t, k)
  {
    if k.pk == 0 && !Convergence.WasAbsent(c, t, k) {
      ZeroLeftBehind(c, s, steps, t, k);
    } else {
      Delivered(c, s, steps, t, k);
    }
  }

  /** Every row the verifier answers for is the same on both sides, even if the verifier has missed it. */
  lemma RelevantRowsAgree(c: Protocol.Config, s: Protocol.State, steps: seq<Protocol.Step>, t: Protocol.State,
                          vc: Config, v: State, k: Key)
    requires Ferried(c, s, steps, t) && LooksAt(v, t)
    requires vc.filter == c.filter && vc.tables <= t.tables.Keys && Relevant(vc, v, k)
    ensures Agrees(vc, v, k) && Lookup(v.target, k) == Lookup(v.source, k)
  {
    Delivered(c, s, steps, t, k);
  }

  /**
   The verdict of the cutover on what a completed run leaves: correct exactly if no read
   failed and every row of the store was one for the ferry. An alarm without an error is
   raised for no other reason.
   */
  lemma VerdictOnFerry(c: Protocol.Config, s: Protocol.State, steps: seq<Protocol.Step>, t: Protocol.State,
                       vc: Config, v: State, bs: seq<ReverifyBatch>, errored: seq<bool>,
                       p: WorkerPools.Pool<Checked>, poolSteps: seq<WorkerPools.Step<Checked>>,
                       q: WorkerPools.Pool<Checked>)
    requires Ferried(c, s, steps, t) && LooksAt(v, t)
    requires Partition(bs, v.store) && Compared(vc, v, bs, errored, p, poolSteps, q)
    ensures !ErroredOrFailed(Outcome(bs, q)) <==>
              (forall k :: k in v.store ==> Ferriable(c, t, k)) && forall i :: 0 <= i < |bs| ==> !errored[i]
  {
    OutcomeIsExact(vc, v, v.store, bs, errored, p, poolSteps, q);
    forall k ensures Agrees(vc, v, k) <==> Ferriable(c, t, k) {
      AgreesIff(c, s, steps, t, vc, v, k);
    }
  }

  /** So a run that copies whole tables raises no alarm: the keys in the store are positive and of its tables. */
  lemma NoAlarm(c: Protocol.Config, s: Protocol.State, steps: seq<Protocol.Step>, t: Protocol.State,
                vc: Config, v: State, bs: seq<ReverifyBatch>, errored: seq<bool>,
                p: WorkerPools.Pool<Checked>, poolSteps: seq<WorkerPools.Step<Checked>>,
                q: WorkerPools.Pool<Checked>)
    requires Ferried(c, s, steps, t) && LooksAt(v, t) && c.filter == Everything
    requires forall k :: k in v.store ==> k.pk >= 1 && k.table in t.tables
    requires Partition(bs, v.store) && Compared(vc, v, bs, errored, p, poolSteps, q)
    requires forall i :: 0 <= i < |bs| ==> !errored[i]
    ensures !ErroredOrFailed(Outcome(bs, q))
  {
    VerdictOnFerry(c, s, steps, t, vc, v, bs, errored, p, poolSteps, q);
  }

  /**
   A sharded run may raise a false alarm: a key that passed to another shard is in the store,
   because its insert into this one was delivered, and the verifier finds it on the source
   only.
   */
  lemma ReusedKeyAlarms(f: Filter, t: TableName, own: Row, other: Row)
      returns (c: Protocol.Config, s: Protocol.State, steps: seq<Protocol.Step>, u: Protocol.State)
    requires f.Shard? && t in f.columns && Selects(f, Key(t, 1), own)
    requires var i := f.columns[t].index; i < |other| && other[i].Number? && ToInt64(other[i].n) != f.value
    ensures Ferried(c, s, steps, u) && c.filter == f && u.target == Convergence.Wanted(c, u)
    ensures exists e :: e in Binlog.Changes(u.log) && e.key == Key(t, 1) && Judge(f, {t}, e) == Replayed
    ensures forall vc: Config, v: State :: LooksAt(v, u) ==> !Agrees(vc, v, Key(t, 1))
  {
    c, s, steps, u := KeyReuse.KeyChangesHands(f, t, own, other);
    var e := Change(Key(t, 1), None, Some(own));
    Binlog.ChangesSplit(u.log, 1);
    assert u.log[..1] == [u.log[0]] && [u.log[0]][..0] == [];
    assert Binlog.Changes(u.log[..1]) == [e];
    assert Binlog.Changes(u.log)[0] == e;
    forall vc: Config, v: State | LooksAt(v, u) ensures !Agrees(vc, v, Key(t, 1)) {
      AgreesIff(c, s, steps, u, vc, v, Key(t, 1));
    }
  }
}

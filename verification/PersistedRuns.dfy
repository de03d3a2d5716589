/** What the persisted snapshots are after any run of saves, deletes and prunes, said of the operations alone. */
module PersistedRuns {
  import opened Options
  import opened Bytes
  import opened Keys
  import opened Rows
  import opened Persistence

  /** The operation neither overwrites the cell, nor deletes it, nor finds its snapshot too old. */
  predicate LeavesAlone(op: Op, c: Cell, snap: Snapshot) {
    match op
    case SaveOp(d, _) => d != c
    case DeleteOp(d) => d != c
    case PruneOp(cluster, maxAge, now) =>
      || maxAge <= 0 || (cluster != [] && cluster != c.cluster)
      || snap.observedAt.None? || now - snap.observedAt.value <= maxAge
  }

  /** The run saved this snapshot of the cell and has left it alone since. */
  ghost predicate LastSaved(ops: seq<Op>, c: Cell, snap: Snapshot) {
    exists i :: 0 <= i < |ops| && ops[i] == SaveOp(c, snap) && forall k :: i < k < |ops| ==> LeavesAlone(ops[k], c, snap)
  }

  lemma LastSavedStep(ops: seq<Op>, op: Op, c: Cell, snap: Snapshot)
    ensures LastSaved(ops + [op], c, snap) <==> op == SaveOp(c, snap) || (LastSaved(ops, c, snap) && LeavesAlone(op, c, snap))
  {
    var all := ops + [op];
    if op == SaveOp(c, snap) {
      assert all[|ops|] == SaveOp(c, snap);
    }
    if LastSaved(ops, c, snap) && LeavesAlone(op, c, snap) {
      var i :| 0 <= i < |ops| && ops[i] == SaveOp(c, snap) && forall k :: i < k < |ops| ==> LeavesAlone(ops[k], c, snap);
      assert all[i] == SaveOp(c, snap);
    }
    if LastSaved(all, c, snap) && op != SaveOp(c, snap) {
      var i :| 0 <= i < |all| && all[i] == SaveOp(c, snap) && forall k :: i < k < |all| ==> LeavesAlone(all[k], c, snap);
      assert LeavesAlone(all[|ops|], c, snap) && ops[i] == SaveOp(c, snap);
      assert forall k :: i < k < |ops| ==> ops[k] == all[k];
    }
  }

  /** The reference holds for each cell the snapshot saved last, unless it was deleted or pruned since. */
  lemma {:induction false} ReferenceIsLastSaved(ops: seq<Op>, c: Cell, snap: Snapshot)
    ensures (c in RefRun(ops) && RefRun(ops)[c] == snap) <==> LastSaved(ops, c, snap)
  {
    hide LastSaved;
    if ops == [] {
      NothingSaved(c, snap);
    } else {
      var n := |ops| - 1;
      ReferenceIsLastSaved(ops[..n], c, snap);
      LastSavedStep(ops[..n], ops[n], c, snap);
      assert ops == ops[..n] + [ops[n]];
    }
  }

  lemma NothingSaved(c: Cell, snap: Snapshot)
    ensures !LastSaved([], c, snap)
  {
  }

  lemma SaveKeyed(st: Store, m: map<Cell, Snapshot>, c: Cell, snap: Snapshot, text: Text)
    requires Keyed(st, m, text)
    ensures Keyed(Save(st, c, snap, text), m[c := snap], text)
  {
    hide Forget, Save, Delete, PutCell, CellStored, AreKeysOf;
    DeleteKeyed(st, m, c, text);
    SaveForgetsFirst(st, c, snap, text);
    PutKeyed(Delete(st, c), m - {c}, c, snap, text);
    assert (m - {c})[c := snap] == m[c := snap];
  }

  lemma DeleteKeyed(st: Store, m: map<Cell, Snapshot>, c: Cell, text: Text)
    requires Keyed(st, m, text)
    ensures Keyed(Delete(st, c), m - {c}, text)
  {
    hide Forget, Delete, CellStored, AreKeysOf;
    DeleteIsForget(st, c);
    OneKey(c, m);
    ForgetKeyed(st, {SnapshotKey(c)}, m, {c}, text);
  }

  lemma PruneKeyed(st: Store, m: map<Cell, Snapshot>, cluster: Bytes, maxAge: int, now: int, text: Text)
    requires Keyed(st, m, text)
    ensures Keyed(Prune(st, cluster, maxAge, now), RefApply(m, PruneOp(cluster, maxAge, now)), text)
  {
    hide Forget, StaleKeys, Keyed, AreKeysOf;
    var m' := RefApply(m, PruneOp(cluster, maxAge, now));
    if maxAge > 0 {
      var gone := set c <- m | Expired(c, m[c], cluster, maxAge, now);
      StaleKeysAreExpired(st, m, cluster, maxAge, now, text);
      ForgetKeyed(st, StaleKeys(st.snapshots, cluster, now - maxAge), m, gone, text);
      assert m' == m - gone;
    } else {
      assert m' == m;
    }
  }

  /** The snapshots and the key lists follow the reference in every run, whatever namespaces the items claim. */
  lemma {:induction false} SnapshotsAgreeAlways(ops: seq<Op>, text: Text)
    ensures Keyed(Run(ops, text), RefRun(ops), text)
  {
    hide Keyed, Save, Delete, Prune;
    if ops == [] {
      EmptyAgrees(text);
    } else {
      var n := |ops| - 1;
      SnapshotsAgreeAlways(ops[..n], text);
      var st, m := Run(ops[..n], text), RefRun(ops[..n]);
      match ops[n]
      case SaveOp(c, snap) => SaveKeyed(st, m, c, snap, text);
      case DeleteOp(c) => DeleteKeyed(st, m, c, text);
      case PruneOp(cluster, maxAge, now) => PruneKeyed(st, m, cluster, maxAge, now, text);
    }
  }

  /**
   After any run a snapshot lies under a cell's key exactly if it was saved there and not
   overwritten, deleted or found too old by a prune of its cluster since.
  */
  lemma StoredExactly(ops: seq<Op>, text: Text, c: Cell, snap: Snapshot)
    ensures var snapshots := Run(ops, text).snapshots;
            (SnapshotKey(c) in snapshots && snapshots[SnapshotKey(c)] == snap) <==> LastSaved(ops, c, snap)
  {
    hide Run, RefRun, LastSaved, SnapshotKey, IndexKeys, RowsOf;
    SnapshotsAgreeAlways(ops, text);
    ReferenceIsLastSaved(ops, c, snap);
    var st, m := Run(ops, text), RefRun(ops);
    if SnapshotKey(c) in st.snapshots {
      assert IsKeyOf(SnapshotKey(c), m);
      var d :| d in m && SnapshotKey(c) == SnapshotKey(d);
      SnapshotKeyInjective(c, d);
    }
    assert c in m ==> CellStored(st, c, m[c], text);
  }
}

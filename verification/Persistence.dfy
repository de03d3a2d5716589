/**
 The persisted store as three buckets: the snapshots, the name index, and for every cell
 the list of its own index keys. Each operation is one transaction. The reference is a
 plain map from cells to snapshots; the buckets must say about it what it says itself,
 after any sequence of operations.
*/
module Persistence {
  import opened Options
  import opened Orders
  import opened Bytes
  import opened Keys
  import opened Rows

  datatype Store = Store(snapshots: map<Bytes, Snapshot>, search: map<Bytes, Row>, cells: map<Bytes, seq<Bytes>>)

  const EMPTY := Store(map[], map[], map[])

  // ----------------------------------------------------------------- operations

  /** deleteCellIndex. */
  function DeleteCellIndex(st: Store, key: Bytes): Store {
    if key !in st.cells then st
    else st.(search := st.search - (set ik <- st.cells[key]), cells := st.cells - {key})
  }

  function PutRows(search: map<Bytes, Row>, rows: seq<Row>, text: Text): map<Bytes, Row> {
    if rows == [] then search
    else
      var n := |rows| - 1;
      PutRows(search, rows[..n], text)[IndexKey(rows[n], text) := rows[n]]
  }

  function Save(st: Store, c: Cell, snap: Snapshot, text: Text): Store {
    var key := SnapshotKey(c);
    var rows := RowsOf(c, snap);
    var cleared := DeleteCellIndex(st.(snapshots := st.snapshots[key := snap]), key);
    cleared.(search := PutRows(cleared.search, rows, text), cells := cleared.cells[key := IndexKeys(rows, text)])
  }

  function Delete(st: Store, c: Cell): Store {
    DeleteCellIndex(st.(snapshots := st.snapshots - {SnapshotKey(c)}), SnapshotKey(c))
  }

  /** An empty `cluster` stands for all clusters. */
  predicate Stale(key: Bytes, snap: Snapshot, cluster: Bytes, cutoff: int) {
    && DecodeSnapshotKey(key).Some?
    && (cluster == [] || DecodeSnapshotKey(key).value.cluster == cluster)
    && snap.observedAt.Some? && snap.observedAt.value < cutoff
  }

  function StaleKeys(snapshots: map<Bytes, Snapshot>, cluster: Bytes, cutoff: int): set<Bytes> {
    set key <- snapshots | Stale(key, snapshots[key], cluster, cutoff)
  }

  function IndexKeysOfCells(cells: map<Bytes, seq<Bytes>>, keys: set<Bytes>): set<Bytes> {
    set key, ik | key in keys && key in cells && ik in cells[key] :: ik
  }

  /** The store without the cells of some keys. */
  function Forget(st: Store, keys: set<Bytes>): Store {
    Store(st.snapshots - keys, st.search - IndexKeysOfCells(st.cells, keys), st.cells - keys)
  }

  function Prune(st: Store, cluster: Bytes, maxAge: int, now: int): Store {
    if maxAge <= 0 then st else Forget(st, StaleKeys(st.snapshots, cluster, now - maxAge))
  }

  // ------------------------------------------------------------------ reference

  datatype Op =
    | SaveOp(cell: Cell, snap: Snapshot)
    | DeleteOp(cell: Cell)
    | PruneOp(cluster: Bytes, maxAge: int, now: int)

  function Apply(st: Store, op: Op, text: Text): Store {
    match op
    case SaveOp(c, snap) => Save(st, c, snap, text)
    case DeleteOp(c) => Delete(st, c)
    case PruneOp(cluster, maxAge, now) => Prune(st, cluster, maxAge, now)
  }

  function Run(ops: seq<Op>, text: Text): Store {
    if ops == [] then EMPTY else Apply(Run(ops[..|ops| - 1], text), ops[|ops| - 1], text)
  }

  predicate Expired(c: Cell, snap: Snapshot, cluster: Bytes, maxAge: int, now: int) {
    && maxAge > 0 && (cluster == [] || c.cluster == cluster)
    && snap.observedAt.Some? && snap.observedAt.value < now - maxAge
  }

  function RefApply(m: map<Cell, Snapshot>, op: Op): map<Cell, Snapshot> {
    match op
    case SaveOp(c, snap) => m[c := snap]
    case DeleteOp(c) => m - {c}
    case PruneOp(cluster, maxAge, now) => map c <- m | !Expired(c, m[c], cluster, maxAge, now) :: m[c]
  }

  function RefRun(ops: seq<Op>): map<Cell, Snapshot> {
    if ops == [] then map[] else RefApply(RefRun(ops[..|ops| - 1]), ops[|ops| - 1])
  }

  // ------------------------------------------------------------------ agreement

  /** The snapshots are those of the reference, and each cell entry lists its own index keys. */
  ghost predicate Keyed(st: Store, m: map<Cell, Snapshot>, text: Text) {
    && st.cells.Keys == st.snapshots.Keys
    && (forall key <- st.snapshots :: IsKeyOf(key, m))
    && (forall c <- m :: CellStored(st, c, m[c], text))
  }

  ghost predicate IsKeyOf(key: Bytes, m: map<Cell, Snapshot>) {
    exists c <- m :: key == SnapshotKey(c)
  }

  ghost predicate CellStored(st: Store, c: Cell, snap: Snapshot, text: Text) {
    && SnapshotKey(c) in st.snapshots && st.snapshots[SnapshotKey(c)] == snap
    && SnapshotKey(c) in st.cells && st.cells[SnapshotKey(c)] == IndexKeys(RowsOf(c, snap), text)
  }

  ghost predicate StoredRow(m: map<Cell, Snapshot>, r: Row) {
    exists c <- m :: r in RowsOf(c, m[c])
  }

  /** The name index holds exactly the rows of the snapshots, each under its key. */
  ghost predicate Searched(search: map<Bytes, Row>, m: map<Cell, Snapshot>, text: Text) {
    && (forall ik <- search :: StoredRow(m, search[ik]) && IndexKey(search[ik], text) == ik)
    && (forall r :: StoredRow(m, r) ==> Holds(search, r, text))
  }

  ghost predicate Holds(search: map<Bytes, Row>, r: Row, text: Text) {
    IndexKey(r, text) in search && search[IndexKey(r, text)] == r
  }

  ghost predicate Agrees(st: Store, m: map<Cell, Snapshot>, text: Text) {
    Keyed(st, m, text) && Searched(st.search, m, text)
  }

  ghost predicate Owns(c: Cell, snap: Snapshot, ik: Bytes, text: Text) {
    exists r <- RowsOf(c, snap) :: IndexKey(r, text) == ik
  }

  ghost predicate SharesKey(c: Cell, snap: Snapshot, d: Cell, snap': Snapshot, text: Text) {
    exists ik :: Owns(c, snap, ik, text) && Owns(d, snap', ik, text)
  }

  /** No two cells have a row under the same index key. */
  ghost predicate Apart(m: map<Cell, Snapshot>, text: Text) {
    forall c <- m, d <- m :: c == d || !SharesKey(c, m[c], d, m[d], text)
  }

  /** The rows to be saved do not use the key of a row of another cell. */
  ghost predicate Fits(m: map<Cell, Snapshot>, c: Cell, snap: Snapshot, text: Text) {
    forall d <- m :: c == d || !SharesKey(c, snap, d, m[d], text)
  }

  // ------------------------------------------------------------- keys and rows

  lemma {:induction false} IndexKeysExactly(rows: seq<Row>, text: Text, ik: Bytes)
    ensures ik in IndexKeys(rows, text) <==> exists r <- rows :: IndexKey(r, text) == ik
  {
    if rows != [] {
      var n := |rows| - 1;
      IndexKeysExactly(rows[..n], text, ik);
      assert rows == rows[..n] + [rows[n]];
    }
  }

  lemma {:induction false} PutRowsAt(search: map<Bytes, Row>, rows: seq<Row>, text: Text, ik: Bytes)
    ensures var p := PutRows(search, rows, text);
            if ik in IndexKeys(rows, text) then ik in p && p[ik] in rows && IndexKey(p[ik], text) == ik
            else (ik in p <==> ik in search) && (ik in p ==> p[ik] == search[ik])
  {
    if rows != [] {
      hide IndexKey;
      var n := |rows| - 1;
      assert rows == rows[..n] + [rows[n]];
      PutRowsAt(search, rows[..n], text, ik);
    }
  }

  lemma PutRowsExactly(search: map<Bytes, Row>, rows: seq<Row>, text: Text)
    requires forall r <- rows, q <- rows :: IndexKey(r, text) == IndexKey(q, text) ==> r == q
    ensures var p := PutRows(search, rows, text);
            && (forall r <- rows :: Holds(p, r, text))
            && (forall ik <- search :: ik in p && (ik in IndexKeys(rows, text) || p[ik] == search[ik]))
            && (forall ik <- p :: (ik in search && p[ik] == search[ik]) || (p[ik] in rows && IndexKey(p[ik], text) == ik))
  {
    hide IndexKey, IndexKeys, PutRows;
    var p := PutRows(search, rows, text);
    forall r <- rows ensures Holds(p, r, text) {
      IndexKeysExactly(rows, text, IndexKey(r, text));
      PutRowsAt(search, rows, text, IndexKey(r, text));
    }
    forall ik <- search ensures ik in p && (ik in IndexKeys(rows, text) || p[ik] == search[ik]) {
      PutRowsAt(search, rows, text, ik);
    }
    forall ik <- p ensures (ik in search && p[ik] == search[ik]) || (p[ik] in rows && IndexKey(p[ik], text) == ik) {
      PutRowsAt(search, rows, text, ik);
    }
  }

  lemma OneRowPerKey(c: Cell, snap: Snapshot, text: Text)
    ensures forall r <- RowsOf(c, snap), q <- RowsOf(c, snap) :: IndexKey(r, text) == IndexKey(q, text) ==> r == q
  {
    forall r <- RowsOf(c, snap), q <- RowsOf(c, snap) | IndexKey(r, text) == IndexKey(q, text)
      ensures r == q
    {
      RowsKnowTheirCell(c, snap, r);
      RowsKnowTheirCell(c, snap, q);
      IndexKeyInjective(r, q, text);
    }
  }

  // ---------------------------------------------------------- forgetting cells

  ghost predicate AreKeysOf(keys: set<Bytes>, gone: set<Cell>, m: map<Cell, Snapshot>) {
    && (forall c <- m :: SnapshotKey(c) in keys <==> c in gone)
  }

  lemma ForgetKeyed(st: Store, keys: set<Bytes>, m: map<Cell, Snapshot>, gone: set<Cell>, text: Text)
    requires Keyed(st, m, text) && AreKeysOf(keys, gone, m)
    ensures Keyed(Forget(st, keys), m - gone, text)
  {
    hide SnapshotKey, RowsOf, IndexKeys, IndexKeysOfCells;
    var st' := Forget(st, keys);
    forall key <- st'.snapshots ensures IsKeyOf(key, m - gone) {
      assert IsKeyOf(key, m);
    }
    forall c <- m - gone ensures CellStored(st', c, m[c], text) {
      assert CellStored(st, c, m[c], text);
    }
  }

  /** Which index keys go: those of the cells that go. */
  lemma GoneKeys(st: Store, keys: set<Bytes>, m: map<Cell, Snapshot>, gone: set<Cell>, text: Text, ik: Bytes)
    requires Keyed(st, m, text) && AreKeysOf(keys, gone, m)
    ensures ik in IndexKeysOfCells(st.cells, keys) <==> exists c <- m :: c in gone && Owns(c, m[c], ik, text)
  {
    hide SnapshotKey, RowsOf, IndexKeys, IndexKey;
    if ik in IndexKeysOfCells(st.cells, keys) {
      var key :| key in keys && key in st.cells && ik in st.cells[key];
      assert IsKeyOf(key, m);
      var c :| c in m && key == SnapshotKey(c);
      assert CellStored(st, c, m[c], text);
      IndexKeysExactly(RowsOf(c, m[c]), text, ik);
      assert Owns(c, m[c], ik, text);
    }
    if c :| c in m && c in gone && Owns(c, m[c], ik, text) {
      assert CellStored(st, c, m[c], text);
      IndexKeysExactly(RowsOf(c, m[c]), text, ik);
    }
  }

  lemma ForgetSearched(st: Store, keys: set<Bytes>, m: map<Cell, Snapshot>, gone: set<Cell>, text: Text)
    requires Agrees(st, m, text) && AreKeysOf(keys, gone, m) && Apart(m, text)
    ensures Searched(Forget(st, keys).search, m - gone, text)
  {
    hide SnapshotKey, RowsOf, IndexKeys, IndexKey, IndexKeysOfCells, Keyed;
    var search' := Forget(st, keys).search;
    forall ik <- search' ensures StoredRow(m - gone, search'[ik]) && IndexKey(search'[ik], text) == ik {
      var c :| c in m && search'[ik] in RowsOf(c, m[c]);
      assert Owns(c, m[c], ik, text);
      GoneKeys(st, keys, m, gone, text, ik);
      assert c in m - gone;
    }
    forall r | StoredRow(m - gone, r) ensures Holds(search', r, text) {
      var c :| c in m - gone && r in RowsOf(c, m[c]);
      var ik := IndexKey(r, text);
      assert StoredRow(m, r) && Holds(st.search, r, text);
      assert Owns(c, m[c], ik, text);
      GoneKeys(st, keys, m, gone, text, ik);
      forall d <- m | d in gone ensures !Owns(d, m[d], ik, text) {
        assert !SharesKey(c, m[c], d, m[d], text);
      }
    }
  }

  lemma ForgetAgrees(st: Store, keys: set<Bytes>, m: map<Cell, Snapshot>, gone: set<Cell>, text: Text)
    requires Agrees(st, m, text) && AreKeysOf(keys, gone, m) && Apart(m, text)
    ensures Agrees(Forget(st, keys), m - gone, text) && Apart(m - gone, text)
  {
    hide Forget, SharesKey, Keyed, Searched;
    ForgetKeyed(st, keys, m, gone, text);
    ForgetSearched(st, keys, m, gone, text);
  }

  lemma OneKey(c: Cell, m: map<Cell, Snapshot>)
    ensures AreKeysOf({SnapshotKey(c)}, {c}, m)
  {
    hide SnapshotKey;
    forall d <- m | SnapshotKey(d) == SnapshotKey(c) ensures d == c {
      SnapshotKeyInjective(c, d);
    }
  }

  lemma DeleteIsForget(st: Store, c: Cell)
    requires st.cells.Keys == st.snapshots.Keys
    ensures Delete(st, c) == Forget(st, {SnapshotKey(c)})
  {
    hide SnapshotKey;
    var key := SnapshotKey(c);
    if key in st.cells {
      assert IndexKeysOfCells(st.cells, {key}) == set ik <- st.cells[key];
    } else {
      assert IndexKeysOfCells(st.cells, {key}) == {};
    }
  }

  lemma DeleteAgrees(st: Store, m: map<Cell, Snapshot>, c: Cell, text: Text)
    requires Agrees(st, m, text) && Apart(m, text)
    ensures Agrees(Delete(st, c), m - {c}, text) && Apart(m - {c}, text)
  {
    hide Forget, Delete, SharesKey, AreKeysOf, SnapshotKey;
    DeleteIsForget(st, c);
    OneKey(c, m);
    ForgetAgrees(st, {SnapshotKey(c)}, m, {c}, text);
  }

  // --------------------------------------------------------------------- saving

  function PutCell(st: Store, c: Cell, snap: Snapshot, text: Text): Store {
    Store(st.snapshots[SnapshotKey(c) := snap], PutRows(st.search, RowsOf(c, snap), text),
          st.cells[SnapshotKey(c) := IndexKeys(RowsOf(c, snap), text)])
  }

  lemma SaveForgetsFirst(st: Store, c: Cell, snap: Snapshot, text: Text)
    requires st.cells.Keys == st.snapshots.Keys
    ensures Save(st, c, snap, text) == PutCell(Delete(st, c), c, snap, text)
  {
    hide SnapshotKey, PutRows, RowsOf, IndexKeys;
    var key := SnapshotKey(c);
    assert (st.snapshots - {key})[key := snap] == st.snapshots[key := snap];
  }

  lemma PutKeyed(st: Store, m: map<Cell, Snapshot>, c: Cell, snap: Snapshot, text: Text)
    requires Keyed(st, m, text) && c !in m
    ensures Keyed(PutCell(st, c, snap, text), m[c := snap], text)
  {
    hide SnapshotKey, PutRows, RowsOf, IndexKeys;
    var st', m' := PutCell(st, c, snap, text), m[c := snap];
    forall key <- st'.snapshots ensures IsKeyOf(key, m') {
      if key != SnapshotKey(c) {
        assert IsKeyOf(key, m);
        var d :| d in m && key == SnapshotKey(d);
        assert d in m';
      }
    }
    forall d <- m' ensures CellStored(st', d, m'[d], text) {
      if d != c {
        assert CellStored(st, d, m[d], text);
        if SnapshotKey(d) == SnapshotKey(c) { SnapshotKeyInjective(c, d); }
      }
    }
  }

  lemma PutSearched(search: map<Bytes, Row>, m: map<Cell, Snapshot>, c: Cell, snap: Snapshot, text: Text)
    requires Searched(search, m, text) && c !in m && Fits(m, c, snap, text)
    ensures Searched(PutRows(search, RowsOf(c, snap), text), m[c := snap], text)
  {
    hide RowsOf, IndexKeys, IndexKey, PutRows;
    var rows, m' := RowsOf(c, snap), m[c := snap];
    var search' := PutRows(search, rows, text);
    OneRowPerKey(c, snap, text);
    PutRowsExactly(search, rows, text);
    forall ik <- search' ensures StoredRow(m', search'[ik]) && IndexKey(search'[ik], text) == ik {
      if ik in search && search'[ik] == search[ik] {
        var d :| d in m && search[ik] in RowsOf(d, m[d]);
        assert d in m' && m'[d] == m[d];
      } else {
        assert c in m' && m'[c] == snap;
      }
    }
    forall r | StoredRow(m', r) ensures Holds(search', r, text) {
      var d :| d in m' && r in RowsOf(d, m'[d]);
      if d != c {
        var ik := IndexKey(r, text);
        assert StoredRow(m, r) && Holds(search, r, text);
        assert Owns(d, m[d], ik, text) && !SharesKey(c, snap, d, m[d], text);
        IndexKeysExactly(rows, text, ik);
        assert ik in IndexKeys(rows, text) ==> Owns(c, snap, ik, text);
      }
    }
  }

  lemma SharesKeySymmetric(c: Cell, snap: Snapshot, d: Cell, snap': Snapshot, text: Text)
    ensures SharesKey(c, snap, d, snap', text) <==> SharesKey(d, snap', c, snap, text)
  {
    hide Owns;
  }

  /** After a save no two cells share a key exactly when the saved rows fit. */
  lemma ApartAfterSave(m: map<Cell, Snapshot>, c: Cell, snap: Snapshot, text: Text)
    requires Apart(m, text)
    ensures Apart(m[c := snap], text) <==> Fits(m, c, snap, text)
  {
    hide SharesKey;
    var m' := m[c := snap];
    assert forall d <- m :: d in m' && (d != c ==> m'[d] == m[d]);
    assert c in m' && m'[c] == snap;
    if Fits(m, c, snap, text) {
      forall d <- m', e <- m' | d != e ensures !SharesKey(d, m'[d], e, m'[e], text) {
        SharesKeySymmetric(d, m'[d], e, m'[e], text);
      }
    }
  }

  lemma SaveAgrees(st: Store, m: map<Cell, Snapshot>, c: Cell, snap: Snapshot, text: Text)
    requires Agrees(st, m, text) && Apart(m, text) && Fits(m, c, snap, text)
    ensures Agrees(Save(st, c, snap, text), m[c := snap], text) && Apart(m[c := snap], text)
  {
    hide Delete, Save, SharesKey, SnapshotKey, RowsOf, Searched, CellStored;
    DeleteAgrees(st, m, c, text);
    SaveForgetsFirst(st, c, snap, text);
    PutKeyed(Delete(st, c), m - {c}, c, snap, text);
    PutSearched(Delete(st, c).search, m - {c}, c, snap, text);
    ApartAfterSave(m, c, snap, text);
    assert (m - {c})[c := snap] == m[c := snap];
  }

  // -------------------------------------------------------------------- pruning

  lemma StaleKeysAreExpired(st: Store, m: map<Cell, Snapshot>, cluster: Bytes, maxAge: int, now: int, text: Text)
    requires Keyed(st, m, text) && maxAge > 0
    ensures AreKeysOf(StaleKeys(st.snapshots, cluster, now - maxAge),
                      (set c <- m | Expired(c, m[c], cluster, maxAge, now)), m)
  {
    hide SnapshotKey, DecodeSnapshotKey, RowsOf, IndexKeys;
    forall c <- m
      ensures SnapshotKey(c) in StaleKeys(st.snapshots, cluster, now - maxAge) <==> Expired(c, m[c], cluster, maxAge, now)
    {
      assert CellStored(st, c, m[c], text);
      SnapshotKeyRoundTrip(c);
    }
  }

  /** Prune removes exactly the cells in scope whose time is known and before the cutoff. */
  lemma PruneAgrees(st: Store, m: map<Cell, Snapshot>, cluster: Bytes, maxAge: int, now: int, text: Text)
    requires Agrees(st, m, text) && Apart(m, text)
    ensures var m' := RefApply(m, PruneOp(cluster, maxAge, now));
            Agrees(Prune(st, cluster, maxAge, now), m', text) && Apart(m', text)
  {
    hide Forget, SharesKey, AreKeysOf, StaleKeys, Searched, CellStored;
    var m' := RefApply(m, PruneOp(cluster, maxAge, now));
    if maxAge > 0 {
      var gone := set c <- m | Expired(c, m[c], cluster, maxAge, now);
      StaleKeysAreExpired(st, m, cluster, maxAge, now, text);
      ForgetAgrees(st, StaleKeys(st.snapshots, cluster, now - maxAge), m, gone, text);
      assert m' == m - gone;
    } else {
      assert m' == m;
    }
  }

  // ------------------------------------------------------------------ whole runs

  /** The rows to be saved in each save of the run do not take another cell's key. */
  ghost predicate AllFit(ops: seq<Op>, text: Text) {
    forall i :: 0 <= i < |ops| && ops[i].SaveOp? ==> Fits(RefRun(ops[..i]), ops[i].cell, ops[i].snap, text)
  }

  predicate AllProper(ops: seq<Op>) {
    forall op <- ops :: op.SaveOp? ==> Proper(op.cell, op.snap)
  }

  lemma {:induction false} RunAgrees(ops: seq<Op>, text: Text)
    requires AllFit(ops, text)
    ensures Agrees(Run(ops, text), RefRun(ops), text) && Apart(RefRun(ops), text)
  {
    hide Agrees, Apart, Fits, Save, Delete, Prune;
    if ops == [] {
      EmptyAgrees(text);
    } else {
      var n := |ops| - 1;
      assert forall i :: 0 <= i < n ==> ops[..n][i] == ops[i] && ops[..n][..i] == ops[..i];
      RunAgrees(ops[..n], text);
      var st, m := Run(ops[..n], text), RefRun(ops[..n]);
      match ops[n]
      case SaveOp(c, snap) => SaveAgrees(st, m, c, snap, text);
      case DeleteOp(c) => DeleteAgrees(st, m, c, text);
      case PruneOp(cluster, maxAge, now) => PruneAgrees(st, m, cluster, maxAge, now, text);
    }
  }

  lemma EmptyAgrees(text: Text)
    ensures Agrees(EMPTY, map[], text) && Apart(map[], text)
  {
  }

  ghost predicate MapProper(m: map<Cell, Snapshot>) {
    forall c <- m :: Proper(c, m[c])
  }

  lemma {:induction false} RefRunProper(ops: seq<Op>)
    requires AllProper(ops)
    ensures MapProper(RefRun(ops))
  {
    hide Proper;
    if ops != [] {
      var n := |ops| - 1;
      assert forall op <- ops[..n] :: op in ops;
      RefRunProper(ops[..n]);
      assert ops[n] in ops;
    }
  }

  /** Rows that know their cell cannot collide with those of another cell. */
  lemma ProperFits(m: map<Cell, Snapshot>, c: Cell, snap: Snapshot, text: Text)
    requires MapProper(m) && Proper(c, snap)
    ensures Fits(m, c, snap, text)
  {
    hide Proper, RowsOf, IndexKey;
    forall d <- m | c != d ensures !SharesKey(c, snap, d, m[d], text) {
      if ik :| Owns(c, snap, ik, text) && Owns(d, m[d], ik, text) {
        var r :| r in RowsOf(c, snap) && IndexKey(r, text) == ik;
        var q :| q in RowsOf(d, m[d]) && IndexKey(q, text) == ik;
        IndexKeyInjective(r, q, text);
        RowsKnowTheirCell(c, snap, r);
        RowsKnowTheirCell(d, m[d], q);
        assert false;
      }
    }
  }

  /** After any run of saves, deletes and prunes the buckets say what the reference says. */
  lemma IndexAgreesAlways(ops: seq<Op>, text: Text)
    requires AllProper(ops)
    ensures Agrees(Run(ops, text), RefRun(ops), text)
  {
    hide Fits, Agrees, Proper, MapProper;
    forall i | 0 <= i < |ops| && ops[i].SaveOp? ensures Fits(RefRun(ops[..i]), ops[i].cell, ops[i].snap, text) {
      assert ops[i] in ops && forall op <- ops[..i] :: op in ops;
      RefRunProper(ops[..i]);
      ProperFits(RefRun(ops[..i]), ops[i].cell, ops[i].snap, text);
    }
    RunAgrees(ops, text);
  }

  /** Every possible delete keeps the agreement exactly when no two cells share an index key. */
  lemma DeletesAreSafeExactlyWhenApart(st: Store, m: map<Cell, Snapshot>, text: Text)
    requires Agrees(st, m, text)
    ensures (forall c <- m :: Agrees(Delete(st, c), m - {c}, text)) <==> Apart(m, text)
  {
    hide SnapshotKey, RowsOf, IndexKey, Delete, Agrees, SharesKey;
    if Apart(m, text) {
      forall c <- m ensures Agrees(Delete(st, c), m - {c}, text) {
        DeleteAgrees(st, m, c, text);
      }
    } else {
      var c, d :| c in m && d in m && c != d && SharesKey(c, m[c], d, m[d], text);
      DeleteLosesARow(st, m, c, d, text);
    }
  }

  lemma DeleteLosesARow(st: Store, m: map<Cell, Snapshot>, c: Cell, d: Cell, text: Text)
    requires Agrees(st, m, text) && c in m && d in m && c != d && SharesKey(c, m[c], d, m[d], text)
    ensures !Agrees(Delete(st, c), m - {c}, text)
  {
    hide SnapshotKey, RowsOf, IndexKey, Forget, IndexKeys;
    var ik :| Owns(c, m[c], ik, text) && Owns(d, m[d], ik, text);
    DeleteIsForget(st, c);
    OneKey(c, m);
    GoneKeys(st, {SnapshotKey(c)}, m, {c}, text, ik);
    ForgottenIndexKey(st, {SnapshotKey(c)}, ik);
    var r :| r in RowsOf(d, m[d]) && IndexKey(r, text) == ik;
    assert d in m - {c};
    assert StoredRow(m - {c}, r) && !Holds(Delete(st, c).search, r, text);
  }

  lemma ForgottenIndexKey(st: Store, keys: set<Bytes>, ik: Bytes)
    requires ik in IndexKeysOfCells(st.cells, keys)
    ensures ik !in Forget(st, keys).search
  {
  }
}

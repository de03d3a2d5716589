/**
 The two searches over the name index as functions of the index, and what they mean for the
 stored snapshots: a search is the page of a listing that a scan of every snapshot fixes.
*/
module IndexSearch {
  import opened Options
  import opened Orders
  import opened Bytes
  import opened Keys
  import opened Rows
  import opened Persistence

  /** The rows under some keys, in the order of the keys. */
  ghost function RowsAt(search: map<Bytes, Row>, ks: seq<Bytes>): seq<Row>
    requires forall k <- ks :: k in search
  {
    if ks == [] then []
    else
      assert forall k <- ks[..|ks| - 1] :: k in ks;
      assert ks[|ks| - 1] in ks;
      RowsAt(search, ks[..|ks| - 1]) + [search[ks[|ks| - 1]]]
  }

  lemma {:induction false} RowsAtIndex(search: map<Bytes, Row>, ks: seq<Bytes>)
    requires forall k <- ks :: k in search
    ensures |RowsAt(search, ks)| == |ks|
    ensures forall i :: 0 <= i < |ks| ==> RowsAt(search, ks)[i] == search[ks[i]]
  {
    if ks != [] {
      assert forall k <- ks[..|ks| - 1] :: k in ks;
      RowsAtIndex(search, ks[..|ks| - 1]);
    }
  }

  lemma RowsAtAppend(search: map<Bytes, Row>, ks: seq<Bytes>, k: Bytes)
    requires k in search && forall j <- ks :: j in search
    ensures (forall j <- ks + [k] :: j in search) && RowsAt(search, ks + [k]) == RowsAt(search, ks) + [search[k]]
  {
    assert (ks + [k])[..|ks + [k]| - 1] == ks;
  }

  /** The keys of `keys` in cursor order. */
  ghost function Listing(search: map<Bytes, Row>, keys: set<Bytes>): seq<Row>
    requires keys <= search.Keys
  {
    InOrderLists(keys);
    RowsAt(search, InOrder(keys))
  }

  ghost function WithPrefix(search: map<Bytes, Row>, p: Bytes): set<Bytes> {
    set k <- search | HasPrefix(k, p)
  }

  ghost function PrefixSearch(search: map<Bytes, Row>, prefix: Bytes, limit: int, text: Text): seq<Row> {
    if limit <= 0 then [] else Page(Listing(search, WithPrefix(search, text.lower(prefix))), 0, limit)
  }

  /** All matching rows as SearchName sorts them. */
  ghost function Matches(search: map<Bytes, Row>, cluster: Bytes, needle: Bytes, text: Text): seq<Row> {
    StableSort(Matching(Listing(search, search.Keys), cluster, needle, text), SearchOrder(text))
  }

  ghost function NameSearch(search: map<Bytes, Row>, cluster: Bytes, query: Bytes, limit: int, offset: int, text: Text): seq<Row> {
    if limit <= 0 || Needle(query, text) == [] then []
    else Page(Matches(search, cluster, Needle(query, text), text), if offset < 0 then 0 else offset, limit)
  }

  // ------------------------------------------------------------------- meaning

  lemma ListingExactly(search: map<Bytes, Row>, keys: set<Bytes>, m: map<Cell, Snapshot>, text: Text)
    requires keys <= search.Keys && Searched(search, m, text)
    ensures Ascending(Listing(search, keys), IndexOrder(text))
    ensures forall r :: r in Listing(search, keys) <==> StoredRow(m, r) && IndexKey(r, text) in keys
  {
    hide IndexKey, Before, InOrder, StoredRow;
    var ks, rows := InOrder(keys), Listing(search, keys);
    InOrderLists(keys);
    RowsAtIndex(search, ks);
    forall i, j | 0 <= i < j < |rows| ensures IndexOrder(text)(rows[i], rows[j]) {
      assert KeyOrder()(ks[i], ks[j]) && ks[i] in ks && ks[j] in ks;
    }
    forall r ensures r in rows <==> StoredRow(m, r) && IndexKey(r, text) in keys {
      if r in rows {
        var i :| 0 <= i < |rows| && rows[i] == r;
        assert ks[i] in ks;
      }
      if StoredRow(m, r) && IndexKey(r, text) in keys {
        assert Holds(search, r, text) && IndexKey(r, text) in ks;
        var i :| 0 <= i < |ks| && ks[i] == IndexKey(r, text);
        assert rows[i] == r;
      }
    }
  }

  lemma IndexOrderAsymmetric(text: Text)
    ensures Asymmetric(IndexOrder(text))
  {
    hide IndexKey, Before;
    BeforeIsStrictTotal();
  }

  /** What a scan of all snapshots would list for a name prefix. */
  ghost predicate ListsPrefixed(u: seq<Row>, m: map<Cell, Snapshot>, prefix: Bytes, text: Text) {
    && Ascending(u, IndexOrder(text))
    && (forall r :: r in u <==> StoredRow(m, r) && HasPrefix(text.lower(r.name), text.lower(prefix)))
  }

  /** The prefix walk is a filter: the first rows, in key order, whose lower-cased name has the prefix. */
  lemma PrefixSearchIsFilter(search: map<Bytes, Row>, m: map<Cell, Snapshot>, prefix: Bytes, limit: int, text: Text, u: seq<Row>)
    requires Searched(search, m, text) && NUL !in text.lower(prefix)
    ensures ListsPrefixed(Listing(search, WithPrefix(search, text.lower(prefix))), m, prefix, text)
    ensures ListsPrefixed(u, m, prefix, text) ==>
              PrefixSearch(search, prefix, limit, text) == if limit <= 0 then [] else Page(u, 0, limit)
  {
    hide SearchIndexKey, Before, StoredRow, InOrder, Listing, HasPrefix, Page;
    var p := text.lower(prefix);
    var all := Listing(search, WithPrefix(search, p));
    ListingExactly(search, WithPrefix(search, p), m, text);
    forall r ensures r in all <==> StoredRow(m, r) && HasPrefix(text.lower(r.name), p) {
      PrefixOfKeyIsPrefixOfName(CellOf(r), r.name, p, text.lower);
      assert StoredRow(m, r) ==> Holds(search, r, text);
    }
    if ListsPrefixed(u, m, prefix, text) {
      IndexOrderAsymmetric(text);
      AscendingUnique(u, all, IndexOrder(text));
    }
  }

  /** What a scan of all snapshots would list for a name query. */
  ghost predicate ListsMatches(u: seq<Row>, m: map<Cell, Snapshot>, cluster: Bytes, needle: Bytes, text: Text) {
    && Ascending(u, ShownOrder(text))
    && (forall r :: r in u <==> StoredRow(m, r) && Rows.Matches(r, cluster, needle, text))
  }

  lemma {:induction false} MatchingKeepsAscending(rows: seq<Row>, cluster: Bytes, needle: Bytes, text: Text, less: (Row, Row) -> bool)
    requires Ascending(rows, less)
    ensures Ascending(Matching(rows, cluster, needle, text), less)
  {
    hide Rows.Matches;
    if rows != [] {
      var n := |rows| - 1;
      MatchingKeepsAscending(rows[..n], cluster, needle, text, less);
      var kept := Matching(rows[..n], cluster, needle, text);
      forall i | 0 <= i < |kept| ensures less(kept[i], rows[n]) {
        MatchingExactly(rows[..n], cluster, needle, text, kept[i]);
        assert kept[i] in rows[..n];
      }
    }
  }

  lemma MatchesAreListed(search: map<Bytes, Row>, m: map<Cell, Snapshot>, cluster: Bytes, needle: Bytes, text: Text)
    requires Searched(search, m, text)
    ensures ListsMatches(Matches(search, cluster, needle, text), m, cluster, needle, text)
  {
    hide Before, IndexKey, SearchLess, Listing, Rows.Matches, StoredRow, StableSort, Matching;
    var all := Listing(search, search.Keys);
    var kept := Matching(all, cluster, needle, text);
    ListingExactly(search, search.Keys, m, text);
    MatchingKeepsAscending(all, cluster, needle, text, IndexOrder(text));
    SearchOrderIsWeak(text);
    StableSortKeepsTies(kept, SearchOrder(text), IndexOrder(text));
    SortedElements(kept, SearchOrder(text));
    var u := Matches(search, cluster, needle, text);
    forall i, j | 0 <= i < j < |u| ensures ShownOrder(text)(u[i], u[j]) {
      assert Refined(u[i], u[j], SearchOrder(text), IndexOrder(text));
    }
    forall r ensures r in u <==> StoredRow(m, r) && Rows.Matches(r, cluster, needle, text) {
      MatchingExactly(all, cluster, needle, text, r);
      assert StoredRow(m, r) ==> Holds(search, r, text);
    }
  }

  /** SearchName is filter, sort and page over a scan of all stored snapshots. */
  lemma NameSearchIsScan(search: map<Bytes, Row>, m: map<Cell, Snapshot>, cluster: Bytes, query: Bytes, limit: int, offset: int, text: Text, u: seq<Row>)
    requires Searched(search, m, text)
    ensures ListsMatches(u, m, cluster, Needle(query, text), text) ==>
              NameSearch(search, cluster, query, limit, offset, text)
              == if limit <= 0 || Needle(query, text) == [] then [] else Page(u, if offset < 0 then 0 else offset, limit)
  {
    hide Matches, Page, StoredRow, Rows.Matches, SearchLess, Before, IndexKey;
    if ListsMatches(u, m, cluster, Needle(query, text), text) {
      MatchesAreListed(search, m, cluster, Needle(query, text), text);
      ShownOrderAsymmetric(text);
      AscendingUnique(u, Matches(search, cluster, Needle(query, text), text), ShownOrder(text));
    }
  }

  // ------------------------------------------ items outside the cell's namespace

  const AWAY := Cell([], [], [1])
  const HOME := Cell([], [], [2])
  const ROW := Row([], [], [2], [65], None)

  /** Two cells save the same row, one of them is deleted: the other's row is gone from the index. */
  const COLLISION := [
    SaveOp(AWAY, Snapshot([Item([65], [2])], None)),
    SaveOp(HOME, Snapshot([Item([65], [])], None)),
    DeleteOp(AWAY)]

  lemma AForeignItemCanLoseARow(text: Text)
    ensures StoredRow(RefRun(COLLISION), ROW)
    ensures IndexKey(ROW, text) !in Run(COLLISION, text).search
  {
    hide SnapshotKey, IndexKey;
    var away, home := Snapshot([Item([65], [2])], None), Snapshot([Item([65], [])], None);
    OneItem(AWAY, away);
    OneItem(HOME, home);
    OneIndexKey(ROW, text);
    var st1 := Save(EMPTY, AWAY, away, text);
    assert st1.cells[SnapshotKey(AWAY)] == [IndexKey(ROW, text)];
    if SnapshotKey(AWAY) == SnapshotKey(HOME) { SnapshotKeyInjective(AWAY, HOME); }
    var st2 := Save(st1, HOME, home, text);
    assert st2.cells[SnapshotKey(AWAY)] == [IndexKey(ROW, text)];
    var st3 := Delete(st2, AWAY);
    assert COLLISION[..1] == [COLLISION[0]] && COLLISION[..2][..1] == COLLISION[..1];
    assert COLLISION[..1][..0] == [];
    assert Run(COLLISION[..1], text) == st1;
    assert Run(COLLISION[..2], text) == st2;
    assert RefRun(COLLISION[..1]) == map[AWAY := away];
    assert RefRun(COLLISION[..2]) == map[AWAY := away, HOME := home];
    assert RefRun(COLLISION)[HOME] == home;
  }

  lemma OneIndexKey(r: Row, text: Text)
    ensures IndexKeys([r], text) == [IndexKey(r, text)]
  {
    assert IndexKeys([r][..0], text) == [];
  }

  lemma OneItem(c: Cell, snap: Snapshot)
    requires |snap.items| == 1 && snap.items[0].name != []
    ensures RowsOf(c, snap) == [RowOf(c, snap.items[0], snap.observedAt)]
  {
    assert RowsOfItems(c, snap.items[..0], snap.observedAt) == [];
  }
}

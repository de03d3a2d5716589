/**
 The store as a class whose methods edit the buckets, and the cursor over a bucket. Each
 method is shown to do what the specification function of the same operation says.
*/
module PersistenceCode {
  import opened Options
  import opened Orders
  import opened Bytes
  import opened Keys
  import opened Rows
  import opened Persistence
  import opened IndexSearch
  import opened Answers

  // --------------------------------------------------------------------- cursor

  ghost predicate FirstFrom(key: Option<Bytes>, keys: set<Bytes>, from: Bytes) {
    match key
    case None => forall k <- keys :: Before(k, from)
    case Some(c) => c in keys && !Before(c, from) && forall k <- keys :: Before(k, from) || k == c || Before(c, k)
  }

  ghost predicate FirstBehind(key: Option<Bytes>, keys: set<Bytes>, last: Bytes) {
    match key
    case None => forall k <- keys :: !Before(last, k)
    case Some(c) => c in keys && Before(last, c) && forall k <- keys :: !Before(last, k) || k == c || Before(c, k)
  }

  /** The smallest key that is not before `from`. */
  method Seek(keys: set<Bytes>, from: Bytes) returns (key: Option<Bytes>)
    ensures FirstFrom(key, keys, from)
  {
    hide Before;
    BeforeIsStrictTotal();
    key := None;
    var rest := keys;
    while rest != {}
      invariant rest <= keys && FirstFrom(key, keys - rest, from)
    {
      var k :| k in rest;
      if !Before(k, from) && (key == None || Before(k, key.value)) {
        key := Some(k);
      }
      rest := rest - {k};
    }
  }

  method Next(keys: set<Bytes>, last: Bytes) returns (key: Option<Bytes>)
    ensures FirstBehind(key, keys, last)
  {
    hide Before;
    BeforeIsStrictTotal();
    key := None;
    var rest := keys;
    while rest != {}
      invariant rest <= keys && FirstBehind(key, keys - rest, last)
    {
      var k :| k in rest;
      if Before(last, k) && (key == None || Before(k, key.value)) {
        key := Some(k);
      }
      rest := rest - {k};
    }
  }

  /** A cursor at `key` that started at `from` has passed `ks`, in order. */
  ghost predicate Walked(ks: seq<Bytes>, keys: set<Bytes>, from: Bytes, key: Option<Bytes>) {
    && Ascending(ks, KeyOrder())
    && (key.Some? ==> key.value in keys && !Before(key.value, from))
    && (forall k :: k in ks <==> k in keys && !Before(k, from) && (key == None || Before(k, key.value)))
  }

  lemma WalkStarts(keys: set<Bytes>, from: Bytes, key: Option<Bytes>)
    requires FirstFrom(key, keys, from)
    ensures Walked([], keys, from, key)
  {
    hide Before;
    BeforeIsStrictTotal();
  }

  lemma WalkAscends(ks: seq<Bytes>, keys: set<Bytes>, from: Bytes, at: Bytes)
    requires Walked(ks, keys, from, Some(at))
    ensures Ascending(ks + [at], KeyOrder())
  {
    hide Before;
    var ks' := ks + [at];
    forall i, j | 0 <= i < j < |ks'| ensures KeyOrder()(ks'[i], ks'[j]) {
      assert ks[i] in ks;
    }
  }

  lemma WalkGoesOn(ks: seq<Bytes>, keys: set<Bytes>, from: Bytes, at: Bytes, key: Option<Bytes>)
    requires Walked(ks, keys, from, Some(at)) && FirstBehind(key, keys, at)
    ensures Walked(ks + [at], keys, from, key)
    ensures |keys - Elements(ks + [at])| < |keys - Elements(ks)|
  {
    hide Before;
    WalkAscends(ks, keys, from, at);
    BeforeIsStrictTotal();
    var ks' := ks + [at];
    forall k ensures k in ks' <==> k in keys && !Before(k, from) && (key == None || Before(k, key.value)) {
      assert k in ks' <==> k in ks || k == at;
    }
    ElementsAppend(ks, at);
    assert keys - Elements(ks) == (keys - Elements(ks')) + {at};
  }

  lemma WholeWalk(ks: seq<Bytes>, keys: set<Bytes>)
    requires Walked(ks, keys, [], None)
    ensures ks == InOrder(keys)
  {
    hide InOrder;
    InOrderLists(keys);
    KeyOrderAsymmetric();
    AscendingUnique(ks, InOrder(keys), KeyOrder());
  }

  /** A walk inside a prefix has passed the first of the keys with that prefix. */
  lemma PrefixWalk(ks: seq<Bytes>, keys: set<Bytes>, p: Bytes, key: Option<Bytes>)
    requires Walked(ks, keys, p, key) && forall k <- ks :: HasPrefix(k, p)
    ensures var all := InOrder(set k <- keys | HasPrefix(k, p));
            && |ks| <= |all| && ks == all[..|ks|]
            && (key == None || !HasPrefix(key.value, p) ==> ks == all)
  {
    hide Before, HasPrefix, InOrder;
    BeforeIsStrictTotal();
    var inside := set k <- keys | HasPrefix(k, p);
    var later := inside - Elements(ks);
    InOrderLists(inside);
    InOrderLists(later);
    var all := ks + InOrder(later);
    forall k <- inside ensures !Before(k, p) { PrefixIsContiguous(p, k, k); }
    forall i, j | 0 <= i < j < |all| ensures KeyOrder()(all[i], all[j]) {
      if i < |ks| <= j {
        assert all[i] in ks && InOrder(later)[j - |ks|] in InOrder(later);
      } else if i >= |ks| {
        assert KeyOrder()(InOrder(later)[i - |ks|], InOrder(later)[j - |ks|]);
      }
    }
    KeyOrderAsymmetric();
    AscendingUnique(all, InOrder(inside), KeyOrder());
    if key == None || !HasPrefix(key.value, p) {
      forall k <- inside ensures k in ks {
        if key.Some? { PrefixIsContiguous(p, key.value, k); }
      }
      assert later == {};
      EmptyListing();
    }
  }

  lemma EmptyListing()
    ensures InOrder({}) == []
  {
  }

  lemma RowsAtTake(search: map<Bytes, Row>, ks: seq<Bytes>, n: nat)
    requires n <= |ks| && forall k <- ks :: k in search
    ensures (forall k <- ks[..n] :: k in search) && |RowsAt(search, ks)| == |ks|
    ensures RowsAt(search, ks[..n]) == RowsAt(search, ks)[..n]
  {
    RowsAtIndex(search, ks);
    RowsAtIndex(search, ks[..n]);
  }

  // ---------------------------------------------------------------------- store

  method SearchRowsFromSnapshot(c: Cell, snap: Snapshot) returns (rows: seq<Row>)
    ensures rows == RowsOf(c, snap)
  {
    rows := [];
    for i := 0 to |snap.items|
      invariant rows == RowsOfItems(c, snap.items[..i], snap.observedAt)
    {
      var item := snap.items[i];
      assert snap.items[..i + 1][..i] == snap.items[..i];
      if item.name == [] {
        continue;
      }
      var ns := item.namespace;
      if ns == [] {
        ns := c.namespace;
      }
      rows := rows + [Row(c.cluster, c.kind, ns, item.name, snap.observedAt)];
    }
    assert snap.items[..|snap.items|] == snap.items;
  }

  class SnapshotPersistence {
    const text: Text
    var snapshots: map<Bytes, Snapshot>
    var search: map<Bytes, Row>
    var cells: map<Bytes, seq<Bytes>>

    ghost function View(): Store
      reads this
    {
      Store(snapshots, search, cells)
    }

    constructor (text: Text)
      ensures View() == EMPTY && this.text == text
    {
      this.text := text;
      snapshots, search, cells := map[], map[], map[];
    }

    method DeleteIndexOfCell(key: Bytes)
      modifies this`search, this`cells
      ensures View() == DeleteCellIndex(old(View()), key)
    {
      if key !in cells {
        return;
      }
      var keys := cells[key];
      for i := 0 to |keys|
        invariant search == old(search) - Elements(keys[..i]) && cells == old(cells)
      {
        search := search - {keys[i]};
        ElementsAppend(keys[..i], keys[i]);
        assert keys[..i + 1] == keys[..i] + [keys[i]];
      }
      assert keys[..|keys|] == keys;
      cells := cells - {key};
    }

    method SaveSnapshot(c: Cell, snap: Snapshot)
      modifies this
      ensures View() == Save(old(View()), c, snap, text)
    {
      hide SnapshotKey, RowsOf, IndexKey, DeleteCellIndex;
      var cellKey := SnapshotKey(c);
      var rows := SearchRowsFromSnapshot(c, snap);
      snapshots := snapshots[cellKey := snap];
      DeleteIndexOfCell(cellKey);
      ghost var cleared := View();
      var indexKeys := [];
      for i := 0 to |rows|
        invariant snapshots == cleared.snapshots && cells == cleared.cells
        invariant search == PutRows(cleared.search, rows[..i], text)
        invariant indexKeys == IndexKeys(rows[..i], text)
      {
        assert rows[..i + 1][..i] == rows[..i];
        var key := IndexKey(rows[i], text);
        search := search[key := rows[i]];
        indexKeys := indexKeys + [key];
      }
      assert rows[..|rows|] == rows;
      cells := cells[cellKey := indexKeys];
    }

    method DeleteSnapshot(c: Cell)
      modifies this
      ensures View() == Delete(old(View()), c)
    {
      hide SnapshotKey, DeleteCellIndex;
      snapshots := snapshots - {SnapshotKey(c)};
      DeleteIndexOfCell(SnapshotKey(c));
    }

    method PruneOlderThan(cluster: Bytes, maxAge: int, now: int)
      modifies this
      ensures View() == Prune(old(View()), cluster, maxAge, now)
    {
      hide Stale, DecodeSnapshotKey;
      if maxAge <= 0 {
        return;
      }
      var cutoff := now - maxAge;
      var deleteKeys := CollectStale(cluster, cutoff);
      ghost var st := View();
      ForgetNothing(st);
      for i := 0 to |deleteKeys|
        invariant View() == Forget(st, Elements(deleteKeys[..i]))
      {
        var key := deleteKeys[i];
        ForgetOneMore(st, Elements(deleteKeys[..i]), key);
        ElementsAppend(deleteKeys[..i], key);
        assert deleteKeys[..i + 1] == deleteKeys[..i] + [key];
        snapshots := snapshots - {key};
        DeleteIndexOfCell(key);
      }
      assert deleteKeys[..|deleteKeys|] == deleteKeys;
    }

    /** The walk of PruneOlderThan over the snapshots. */
    method CollectStale(cluster: Bytes, cutoff: int) returns (deleteKeys: seq<Bytes>)
      ensures Elements(deleteKeys) == StaleKeys(snapshots, cluster, cutoff)
    {
      hide Stale, Before, InOrder;
      deleteKeys := [];
      ghost var ks: seq<Bytes> := [];
      var key := Seek(snapshots.Keys, []);
      WalkStarts(snapshots.Keys, [], key);
      while key.Some?
        invariant Walked(ks, snapshots.Keys, [], key)
        invariant forall k :: k in deleteKeys <==> k in ks && k in snapshots && Stale(k, snapshots[k], cluster, cutoff)
        decreases |snapshots.Keys - Elements(ks)|
      {
        if Stale(key.value, snapshots[key.value], cluster, cutoff) {
          deleteKeys := deleteKeys + [key.value];
        }
        var next := Next(snapshots.Keys, key.value);
        WalkGoesOn(ks, snapshots.Keys, [], key.value, next);
        ks := ks + [key.value];
        key := next;
      }
      NothingBeforeEmpty();
    }

    method SearchNamePrefix(prefix: Bytes, limit: int) returns (rows: seq<Row>)
      ensures rows == PrefixSearch(search, prefix, limit, text)
      ensures NUL !in text.lower(prefix) ==> forall m :: Searched(search, m, text) ==>
                if limit <= 0 then rows == [] else exists u :: IsPrefixAnswer(u, m, prefix, text) && IsPage(rows, u, 0, limit)
    {
      hide Before, InOrder, HasPrefix, Searched, IsPrefixAnswer, IsPage;
      forall m | NUL !in text.lower(prefix) && Searched(search, m, text)
        ensures var found := PrefixSearch(search, prefix, limit, text);
                if limit <= 0 then found == [] else exists u :: IsPrefixAnswer(u, m, prefix, text) && IsPage(found, u, 0, limit)
      {
        PrefixSearchAnswers(search, m, prefix, limit, text);
      }
      if limit <= 0 {
        return [];
      }
      var seek := text.lower(prefix);
      rows := [];
      ghost var ks: seq<Bytes> := [];
      var key := Seek(search.Keys, seek);
      WalkStarts(search.Keys, seek, key);
      while key.Some? && HasPrefix(key.value, seek) && |rows| < limit
        invariant Walked(ks, search.Keys, seek, key)
        invariant |ks| == |rows| <= limit
        invariant (forall k <- ks :: HasPrefix(k, seek)) && rows == RowsAt(search, ks)
        decreases limit - |rows|
      {
        rows := rows + [search[key.value]];
        RowsAtAppend(search, ks, key.value);
        var next := Next(search.Keys, key.value);
        WalkGoesOn(ks, search.Keys, seek, key.value, next);
        ks := ks + [key.value];
        key := next;
      }
      PrefixWalk(ks, search.Keys, seek, key);
      ghost var all := InOrder(WithPrefix(search, seek));
      assert WithPrefix(search, seek) == set k <- search.Keys | HasPrefix(k, seek);
      InOrderLists(WithPrefix(search, seek));
      RowsAtTake(search, all, |ks|);
    }

    method SearchName(cluster: Bytes, query: Bytes, limit: int, offset: int) returns (rows: seq<Row>)
      ensures rows == NameSearch(search, cluster, query, limit, offset, text)
      ensures forall m :: Searched(search, m, text) ==>
                if limit <= 0 || Blank(query, text) then rows == []
                else exists u :: IsAnswer(u, m, cluster, query, text) && IsPage(rows, u, if offset < 0 then 0 else offset, limit)
    {
      hide Before, InOrder, Rows.Matches, StableSort, Searched, IsAnswer, IsPage;
      forall m | Searched(search, m, text)
        ensures var found := NameSearch(search, cluster, query, limit, offset, text);
                if limit <= 0 || Blank(query, text) then found == []
                else exists u :: IsAnswer(u, m, cluster, query, text) && IsPage(found, u, if offset < 0 then 0 else offset, limit)
      {
        NameSearchAnswers(search, m, cluster, query, limit, offset, text);
      }
      if limit <= 0 {
        return [];
      }
      var start := if offset < 0 then 0 else offset;
      var needle := Needle(query, text);
      if needle == [] {
        return [];
      }
      rows := CollectMatches(cluster, needle);
      rows := StableSort(rows, SearchOrder(text));
      if start >= |rows| {
        return [];
      }
      var end := start + limit;
      if end > |rows| {
        end := |rows|;
      }
      rows := rows[start..end];
    }

    /** The walk of SearchName over the name index. */
    method CollectMatches(cluster: Bytes, needle: Bytes) returns (rows: seq<Row>)
      ensures rows == Matching(Listing(search, search.Keys), cluster, needle, text)
    {
      hide Before, InOrder, Rows.Matches, Matching;
      rows := [];
      ghost var ks: seq<Bytes> := [];
      var key := Seek(search.Keys, []);
      WalkStarts(search.Keys, [], key);
      MatchesNothing(cluster, needle, text);
      while key.Some?
        invariant Walked(ks, search.Keys, [], key)
        invariant rows == Matching(RowsAt(search, ks), cluster, needle, text)
        decreases |search.Keys - Elements(ks)|
      {
        var row := search[key.value];
        RowsAtAppend(search, ks, key.value);
        MatchingAppend(RowsAt(search, ks), row, cluster, needle, text);
        if Rows.Matches(row, cluster, needle, text) {
          rows := rows + [row];
        }
        var next := Next(search.Keys, key.value);
        WalkGoesOn(ks, search.Keys, [], key.value, next);
        ks := ks + [key.value];
        key := next;
      }
      WholeWalk(ks, search.Keys);
    }
  }

  lemma NothingBeforeEmpty()
    ensures forall k: Bytes :: !Before(k, [])
  {
  }

  lemma MatchesNothing(cluster: Bytes, needle: Bytes, text: Text)
    ensures Matching([], cluster, needle, text) == []
  {
  }

  lemma ForgetNothing(st: Store)
    ensures Forget(st, {}) == st
  {
    assert IndexKeysOfCells(st.cells, {}) == {};
  }

  /** Forgetting cells one after the other forgets them all. */
  lemma ForgetOneMore(st: Store, keys: set<Bytes>, key: Bytes)
    ensures var some := Forget(st, keys);
            DeleteCellIndex(some.(snapshots := some.snapshots - {key}), key) == Forget(st, keys + {key})
  {
    if key in st.cells {
      assert IndexKeysOfCells(st.cells, keys + {key}) == IndexKeysOfCells(st.cells, keys) + set ik <- st.cells[key];
    } else {
      assert IndexKeysOfCells(st.cells, keys + {key}) == IndexKeysOfCells(st.cells, keys);
    }
  }
}

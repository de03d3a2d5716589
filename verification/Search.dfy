/**
 The search over cached resources: rows in memory come first, the best persisted matches
 that are not among them are added, and the whole is sorted and paged. Only as many
 persisted rows are fetched as the page could need; the theorems say that nothing is lost.
*/
module Search {
  import opened Options
  import opened Orders
  import opened Bytes
  import opened Keys
  import opened Splitting
  import opened Rows
  import opened Persistence
  import opened IndexSearch
  import opened Answers
  import opened PersistenceCode

  /** searchRowDedupeKey. */
  function DedupeKey(r: Row): Bytes {
    Join([r.cluster, r.kind, r.namespace, r.name], NUL)
  }

  predicate NulFree(r: Row) {
    NUL !in r.cluster && NUL !in r.kind && NUL !in r.namespace && NUL !in r.name
  }

  /** What the dedupe key stands for. */
  predicate SameObject(r: Row, q: Row) {
    CellOf(r) == CellOf(q) && r.name == q.name
  }

  lemma DedupeKeySpelled(r: Row)
    ensures DedupeKey(r) == r.cluster + [NUL] + r.kind + [NUL] + r.namespace + [NUL] + r.name
  {
    JoinMore(r.namespace, [r.name], NUL);
    JoinMore(r.kind, [r.namespace, r.name], NUL);
    JoinMore(r.cluster, [r.kind, r.namespace, r.name], NUL);
    assert Join([r.name], NUL) == r.name;
  }

  /** How many NUL a row holds shows in its key. */
  lemma NulsInKey(r: Row)
    ensures multiset(DedupeKey(r))[NUL]
         == 3 + multiset(r.cluster)[NUL] + multiset(r.kind)[NUL] + multiset(r.namespace)[NUL] + multiset(r.name)[NUL]
  {
    DedupeKeySpelled(r);
  }

  lemma SameKeySameNuls(r: Row, q: Row)
    requires DedupeKey(r) == DedupeKey(q) && NulFree(r)
    ensures NulFree(q)
  {
    hide DedupeKey;
    NulsInKey(r);
    NulsInKey(q);
    assert forall s: Bytes :: NUL in s <==> NUL in multiset(s);
  }

  lemma DedupeKeyIsFaithful(r: Row, q: Row)
    requires NulFree(r)
    ensures DedupeKey(r) == DedupeKey(q) <==> SameObject(r, q)
  {
    if DedupeKey(r) == DedupeKey(q) {
      SameKeySameNuls(r, q);
      SplitJoin([r.cluster, r.kind, r.namespace, r.name], NUL);
      SplitJoin([q.cluster, q.kind, q.namespace, q.name], NUL);
    }
  }

  lemma AtNul(x: Bytes) returns (a: Bytes, b: Bytes)
    requires NUL in x
    ensures x == a + [NUL] + b && |a| < |x|
  {
    var i :| 0 <= i < |x| && x[i] == NUL;
    a, b := x[..i], x[i + 1..];
  }

  lemma Regroup(a: Bytes, b: Bytes, c: Bytes)
    ensures (a + [NUL] + b) + [NUL] + c == a + [NUL] + (b + [NUL] + c)
  {
  }

  /** Another object with the same key: a NUL inside a field can be read as the end of the field. */
  lemma NulSplitsElsewhere(r: Row) returns (q: Row)
    requires !NulFree(r)
    ensures DedupeKey(q) == DedupeKey(r) && !SameObject(q, r)
  {
    hide DedupeKey;
    var c, k, n, m := r.cluster, r.kind, r.namespace, r.name;
    DedupeKeySpelled(r);
    var a, b;
    if NUL in c {
      a, b := AtNul(c);
      q := Row(a, b + [NUL] + k, n, m, None);
      Regroup(a, b, k);
    } else if NUL in k {
      a, b := AtNul(k);
      q := Row(c + [NUL] + a, b, n, m, None);
      Regroup(c, a, b);
    } else if NUL in n {
      a, b := AtNul(n);
      q := Row(c, k + [NUL] + a, b, m, None);
      Regroup(c, k, a);
      Regroup(c + [NUL] + k, a, b);
    } else {
      a, b := AtNul(m);
      q := Row(c, k, n + [NUL] + a, b, None);
      Regroup(c + [NUL] + k, n, a);
      Regroup(c + [NUL] + k + [NUL] + n, a, b);
    }
    DedupeKeySpelled(q);
  }

  /** A row's key stands for its object alone exactly when no field of the row holds a NUL. */
  lemma DedupeKeyExactly(r: Row)
    ensures (forall q :: DedupeKey(q) == DedupeKey(r) ==> SameObject(q, r)) <==> NulFree(r)
  {
    hide DedupeKey, NulFree;
    if NulFree(r) {
      forall q | DedupeKey(q) == DedupeKey(r) ensures SameObject(q, r) {
        DedupeKeyIsFaithful(r, q);
      }
    } else {
      var q := NulSplitsElsewhere(r);
    }
  }

  ghost function DedupeKeys(rows: seq<Row>): set<Bytes> {
    set r <- rows :: DedupeKey(r)
  }

  /** appendUniqueSearchRows: each extra row is kept unless its key has been seen. */
  ghost function Unique(rows: seq<Row>, extra: seq<Row>): seq<Row> {
    if extra == [] then rows
    else
      var u := Unique(rows, extra[..|extra| - 1]);
      if DedupeKey(extra[|extra| - 1]) in DedupeKeys(u) then u else u + [extra[|extra| - 1]]
  }

  lemma DedupeKeysAppend(rows: seq<Row>, r: Row)
    ensures DedupeKeys(rows + [r]) == DedupeKeys(rows) + {DedupeKey(r)}
  {
    hide DedupeKey;
  }

  method AppendUniqueSearchRows(rows: seq<Row>, extra: seq<Row>) returns (all: seq<Row>)
    ensures all == Unique(rows, extra)
  {
    hide DedupeKey;
    all := rows;
    var seen: set<Bytes> := {};
    for i := 0 to |rows|
      invariant seen == DedupeKeys(rows[..i])
    {
      DedupeKeysAppend(rows[..i], rows[i]);
      assert rows[..i + 1] == rows[..i] + [rows[i]];
      seen := seen + {DedupeKey(rows[i])};
    }
    assert rows[..|rows|] == rows;
    for i := 0 to |extra|
      invariant all == Unique(rows, extra[..i]) && seen == DedupeKeys(all)
    {
      var key := DedupeKey(extra[i]);
      assert extra[..i + 1][..i] == extra[..i];
      if key in seen {
        continue;
      }
      DedupeKeysAppend(all, extra[i]);
      seen := seen + {key};
      all := all + [extra[i]];
    }
    assert extra[..|extra|] == extra;
  }

  method SearchRowsMatching(rows: seq<Row>, cluster: Bytes, query: Bytes, text: Text) returns (out: seq<Row>)
    ensures out == if Needle(query, text) == [] then [] else Matching(rows, cluster, Needle(query, text), text)
  {
    hide Rows.Matches;
    var needle := Needle(query, text);
    out := [];
    if needle == [] {
      return;
    }
    for i := 0 to |rows|
      invariant out == Matching(rows[..i], cluster, needle, text)
    {
      assert rows[..i + 1] == rows[..i] + [rows[i]];
      MatchingAppend(rows[..i], rows[i], cluster, needle, text);
      if Rows.Matches(rows[i], cluster, needle, text) {
        out := out + [rows[i]];
      }
    }
    assert rows[..|rows|] == rows;
  }

  // ------------------------------------------------------------------ the merge

  /** Persisted matches as SearchName orders them: each object once, in the order shown. */
  ghost predicate Fetched(persisted: seq<Row>, text: Text) {
    Ascending(persisted, ShownOrder(text)) && forall r <- persisted :: NulFree(r)
  }

  ghost function Merge(mem: seq<Row>, persisted: seq<Row>, text: Text): seq<Row> {
    StableSort(Unique(mem, persisted), SearchOrder(text))
  }

  lemma FetchedObjectsDiffer(persisted: seq<Row>, text: Text, i: nat, j: nat)
    requires Fetched(persisted, text) && i < j < |persisted|
    ensures DedupeKey(persisted[i]) != DedupeKey(persisted[j])
    ensures !SearchLess(persisted[j], persisted[i], text)
  {
    hide SearchLess, DedupeKey, Before, SearchIndexKey;
    var r, q := persisted[i], persisted[j];
    assert ShownOrder(text)(r, q) && NulFree(r) && NulFree(q);
    DedupeKeyIsFaithful(r, q);
    SearchLessCases(r, q, text);
    BeforeIsStrictTotal();
  }

  lemma {:induction false} UniqueCovers(mem: seq<Row>, extra: seq<Row>)
    ensures DedupeKeys(Unique(mem, extra)) == DedupeKeys(mem) + DedupeKeys(extra)
    ensures forall r :: r in Unique(mem, extra) ==> r in mem || r in extra
  {
    hide DedupeKey;
    if extra != [] {
      var n := |extra| - 1;
      UniqueCovers(mem, extra[..n]);
      assert extra == extra[..n] + [extra[n]];
      DedupeKeysAppend(extra[..n], extra[n]);
      DedupeKeysAppend(Unique(mem, extra[..n]), extra[n]);
    }
  }

  /** The merge holds every row in memory, and every persisted row of an object not in memory. */
  lemma MergedExactly(mem: seq<Row>, persisted: seq<Row>, text: Text, r: Row)
    requires Fetched(persisted, text)
    ensures r in Merge(mem, persisted, text) <==> r in mem || (r in persisted && DedupeKey(r) !in DedupeKeys(mem))
  {
    hide DedupeKey, StableSort, SearchOrder, ShownOrder, NulFree, DedupeKeys;
    UniqueExactly(mem, persisted, text, r);
    SearchOrderIsWeak(text);
    SortedElements(Unique(mem, persisted), SearchOrder(text));
  }

  lemma {:induction false} UniqueExactly(mem: seq<Row>, persisted: seq<Row>, text: Text, r: Row)
    requires Fetched(persisted, text)
    ensures r in Unique(mem, persisted) <==> r in mem || (r in persisted && DedupeKey(r) !in DedupeKeys(mem))
  {
    hide DedupeKey, NulFree, ShownOrder;
    if persisted != [] {
      var n := |persisted| - 1;
      var q := persisted[n];
      assert persisted == persisted[..n] + [q];
      assert Fetched(persisted[..n], text) by {
        assert forall p <- persisted[..n] :: p in persisted;
      }
      UniqueExactly(mem, persisted[..n], text, r);
      UniqueCovers(mem, persisted[..n]);
      if DedupeKey(q) in DedupeKeys(persisted[..n]) {
        var p :| p in persisted[..n] && DedupeKey(p) == DedupeKey(q);
        var i :| 0 <= i < n && persisted[..n][i] == p;
        FetchedObjectsDiffer(persisted, text, i, n);
        assert false;
      }
    }
  }

  ghost function KeysNotAfter(s: seq<Row>, x: Row, less: (Row, Row) -> bool): set<Bytes> {
    set r <- s | !less(x, r) :: DedupeKey(r)
  }

  lemma {:induction false} AtMostOneKeyEach(s: seq<Row>, x: Row, less: (Row, Row) -> bool)
    ensures |KeysNotAfter(s, x, less)| <= CountNotAfter(s, x, less)
  {
    hide DedupeKey;
    if s != [] {
      var n := |s| - 1;
      AtMostOneKeyEach(s[..n], x, less);
      assert s == s[..n] + [s[n]];
      var before := KeysNotAfter(s[..n], x, less);
      assert KeysNotAfter(s, x, less) == before + if less(x, s[n]) then {} else {DedupeKey(s[n])};
    } else {
      assert KeysNotAfter(s, x, less) == {};
    }
  }

  lemma {:induction false} KeysOfDistinct(persisted: seq<Row>, text: Text)
    requires Fetched(persisted, text)
    ensures |DedupeKeys(persisted)| == |persisted|
  {
    hide DedupeKey, NulFree, ShownOrder;
    if persisted != [] {
      var n := |persisted| - 1;
      assert persisted == persisted[..n] + [persisted[n]];
      assert Fetched(persisted[..n], text) by {
        assert forall p <- persisted[..n] :: p in persisted;
      }
      KeysOfDistinct(persisted[..n], text);
      DedupeKeysAppend(persisted[..n], persisted[n]);
      forall p <- persisted[..n] ensures DedupeKey(p) != DedupeKey(persisted[n]) {
        var i :| 0 <= i < n && persisted[..n][i] == p;
        FetchedObjectsDiffer(persisted, text, i, n);
      }
    }
  }

  lemma SameObjectSamePlace(r: Row, q: Row, x: Row, text: Text)
    requires NulFree(r) && NulFree(q) && DedupeKey(r) == DedupeKey(q)
    ensures SearchLess(x, r, text) <==> SearchLess(x, q, text)
  {
    hide SearchLess, DedupeKey;
    DedupeKeyIsFaithful(r, q);
    AlikeComparesAlike(r, q, x, text);
  }

  /** Every object among the first k persisted rows is in the merge, and not after row k. */
  lemma EnoughInFront(mem: seq<Row>, persisted: seq<Row>, k: nat, text: Text)
    requires Fetched(persisted, text) && k < |persisted|
    requires forall r <- mem :: NulFree(r)
    ensures CountNotAfter(Unique(mem, persisted[..k]), persisted[k], SearchOrder(text)) >= k
  {
    hide DedupeKey, NulFree, ShownOrder, Unique, CountNotAfter, SearchLess;
    var front, x, less := persisted[..k], persisted[k], SearchOrder(text);
    var u := Unique(mem, front);
    assert forall p <- front :: p in persisted;
    assert Fetched(front, text);
    KeysOfDistinct(front, text);
    UniqueCovers(mem, front);
    AtMostOneKeyEach(u, x, less);
    forall d <- DedupeKeys(front) ensures d in KeysNotAfter(u, x, less) {
      var p :| p in front && DedupeKey(p) == d;
      var i :| 0 <= i < k && front[i] == p;
      FetchedObjectsDiffer(persisted, text, i, k);
      assert d in DedupeKeys(u);
      var q :| q in u && DedupeKey(q) == d;
      SameObjectSamePlace(q, p, x, text);
    }
    SubsetCard(DedupeKeys(front), KeysNotAfter(u, x, less));
  }

  lemma SubsetCard(a: set<Bytes>, b: set<Bytes>)
    requires a <= b
    ensures |a| <= |b|
  {
    assert b == a + (b - a);
  }

  /** Beyond the first n persisted rows nothing changes the first n places of the merge. */
  lemma {:induction false} FrontIsStable(mem: seq<Row>, persisted: seq<Row>, n: nat, k: nat, text: Text)
    requires Fetched(persisted, text) && n <= k <= |persisted|
    requires forall r <- mem :: NulFree(r)
    requires n < |persisted|
    ensures n <= |Merge(mem, persisted[..n], text)| <= |Merge(mem, persisted[..k], text)|
    ensures Merge(mem, persisted[..k], text)[..n] == Merge(mem, persisted[..n], text)[..n]
  {
    hide Fetched, DedupeKey, NulFree, StableSort, CountNotAfter, SearchOrder;
    var less := SearchOrder(text);
    SearchOrderIsWeak(text);
    if k == n {
      EnoughInFront(mem, persisted, n, text);
      LateElementKeepsFront(Unique(mem, persisted[..n]), persisted[n], n, less);
    } else {
      FrontIsStable(mem, persisted, n, k - 1, text);
      EnoughInFront(mem, persisted, k - 1, text);
      assert persisted[..k][..k - 1] == persisted[..k - 1];
      LateElementKeepsFront(Unique(mem, persisted[..k - 1]), persisted[k - 1], n, less);
    }
  }

  lemma SameFrontSamePage<T>(s: seq<T>, t: seq<T>, limit: nat, offset: nat)
    requires limit + offset < |s| && limit + offset < |t| && s[..limit + offset + 1] == t[..limit + offset + 1]
    ensures Page(s, offset, limit) == Page(t, offset, limit)
  {
    var n := limit + offset;
    assert s[offset..n] == s[..n + 1][offset..n] && t[offset..n] == t[..n + 1][offset..n];
  }

  /** Truncating the persisted rows to limit + offset + 1 changes neither the page nor whether more follows. */
  lemma TruncatedMergeLosesNothing(mem: seq<Row>, persisted: seq<Row>, limit: nat, offset: nat, text: Text)
    requires Fetched(persisted, text) && forall r <- mem :: NulFree(r)
    ensures var some, all := Merge(mem, Page(persisted, 0, limit + offset + 1), text), Merge(mem, persisted, text);
            && Page(some, offset, limit) == Page(all, offset, limit)
            && (|some| > limit + offset <==> |all| > limit + offset)
  {
    hide Fetched, NulFree, Merge;
    var n := limit + offset + 1;
    if n < |persisted| {
      FrontIsStable(mem, persisted, n, |persisted|, text);
      assert persisted[..|persisted|] == persisted && Page(persisted, 0, n) == persisted[..n];
      SameFrontSamePage(Merge(mem, persisted[..n], text), Merge(mem, persisted, text), limit, offset);
    } else {
      assert Page(persisted, 0, n) == persisted;
    }
  }

  // ----------------------------------------------------------------- the search

  /** All persisted matches; a query that trims to nothing has none. */
  ghost function Persisted(search: map<Bytes, Row>, cluster: Bytes, query: Bytes, text: Text): seq<Row> {
    if Needle(query, text) == [] then [] else IndexSearch.Matches(search, cluster, Needle(query, text), text)
  }

  ghost function InMemory(mem: seq<Row>, cluster: Bytes, query: Bytes, text: Text): seq<Row> {
    if Needle(query, text) == [] then [] else Matching(mem, cluster, Needle(query, text), text)
  }

  /** The whole answer, without truncation: what a page is a page of. */
  ghost function Answer(mem: seq<Row>, search: map<Bytes, Row>, cluster: Bytes, query: Bytes, text: Text): seq<Row> {
    Merge(InMemory(mem, cluster, query, text), Persisted(search, cluster, query, text), text)
  }

  ghost predicate Clean(mem: seq<Row>, search: map<Bytes, Row>, text: Text) {
    && (forall r <- mem :: NulFree(r))
    && (forall ik <- search :: NulFree(search[ik]) && IndexKey(search[ik], text) == ik)
  }

  /** The rows a scan of the index finds are a well-keyed index of themselves. */
  lemma PersistedIsFetched(mem: seq<Row>, search: map<Bytes, Row>, cluster: Bytes, query: Bytes, text: Text)
    requires Clean(mem, search, text)
    ensures Fetched(Persisted(search, cluster, query, text), text)
  {
    hide NulFree, IndexKey, Rows.Matches, Before, SearchLess, StableSort, InOrder, Matching;
    var ks := InOrder(search.Keys);
    InOrderLists(search.Keys);
    RowsAtIndex(search, ks);
    var all := Listing(search, search.Keys);
    forall i, j | 0 <= i < j < |all| ensures IndexOrder(text)(all[i], all[j]) {
      assert KeyOrder()(ks[i], ks[j]) && ks[i] in ks && ks[j] in ks;
    }
    if Needle(query, text) != [] {
      var needle := Needle(query, text);
      var kept := Matching(all, cluster, needle, text);
      MatchingKeepsAscending(all, cluster, needle, text, IndexOrder(text));
      SearchOrderIsWeak(text);
      StableSortKeepsTies(kept, SearchOrder(text), IndexOrder(text));
      SortedElements(kept, SearchOrder(text));
      var u := IndexSearch.Matches(search, cluster, needle, text);
      forall i, j | 0 <= i < j < |u| ensures ShownOrder(text)(u[i], u[j]) {
        assert Refined(u[i], u[j], SearchOrder(text), IndexOrder(text));
      }
      forall r <- u ensures NulFree(r) {
        MatchingExactly(all, cluster, needle, text, r);
        var i :| 0 <= i < |all| && all[i] == r;
        assert ks[i] in ks;
      }
    }
  }

  lemma InMemoryIsNulFree(mem: seq<Row>, cluster: Bytes, query: Bytes, text: Text)
    requires forall r <- mem :: NulFree(r)
    ensures forall r <- InMemory(mem, cluster, query, text) :: NulFree(r)
  {
    hide NulFree, Rows.Matches, Matching;
    forall r <- InMemory(mem, cluster, query, text) ensures NulFree(r) {
      MatchingExactly(mem, cluster, Needle(query, text), text, r);
    }
  }

  // ------------------------------------------------------- the whole answer, said outright

  /** No row in memory that the query wants is of the same object. */
  ghost predicate OnlyStored(r: Row, mem: seq<Row>, cluster: Bytes, query: Bytes, text: Text) {
    forall q <- mem :: Wanted(q, cluster, query, text) ==>
      q.name != r.name || q.namespace != r.namespace || q.kind != r.kind || q.cluster != r.cluster
  }

  /** How often the whole answer shows a row: as often as it lies in memory, and once if only the store has its object. */
  ghost function Times(r: Row, mem: seq<Row>, m: map<Cell, Snapshot>, cluster: Bytes, query: Bytes, text: Text): nat {
    if Blank(query, text) || !Wanted(r, cluster, query, text) then 0
    else if r in mem then multiset(mem)[r]
    else if ShownBySome(r, m) && OnlyStored(r, mem, cluster, query, text) then 1
    else 0
  }

  /** The whole answer to a query over the rows in memory and the stored snapshots. */
  ghost predicate IsWholeAnswer(u: seq<Row>, mem: seq<Row>, m: map<Cell, Snapshot>, cluster: Bytes, query: Bytes, text: Text) {
    && (forall r :: multiset(u)[r] == Times(r, mem, m, cluster, query, text))
    && (forall i, j :: 0 <= i < j < |u| ==> !Precedes(u[j], u[i], 5, text))
  }

  /** The name index agrees with the stored snapshots, and no text that is searched holds a NUL. */
  ghost predicate Searchable(mem: seq<Row>, search: map<Bytes, Row>, m: map<Cell, Snapshot>, text: Text) {
    && Searched(search, m, text)
    && (forall r <- mem :: NulFree(r)) && (forall r :: ShownBySome(r, m) ==> NulFree(r))
  }

  lemma {:induction false} MatchingTimes(rows: seq<Row>, cluster: Bytes, needle: Bytes, text: Text, r: Row)
    ensures multiset(Matching(rows, cluster, needle, text))[r]
         == if Rows.Matches(r, cluster, needle, text) then multiset(rows)[r] else 0
  {
    hide Rows.Matches;
    if rows != [] {
      var n := |rows| - 1;
      MatchingTimes(rows[..n], cluster, needle, text, r);
      assert rows == rows[..n] + [rows[n]];
    }
  }

  lemma LastKeyIsNew(persisted: seq<Row>, text: Text)
    requires Fetched(persisted, text) && persisted != []
    ensures var n := |persisted| - 1;
            Fetched(persisted[..n], text) && DedupeKey(persisted[n]) !in DedupeKeys(persisted[..n])
  {
    hide DedupeKey, NulFree, ShownOrder;
    var n := |persisted| - 1;
    assert forall p <- persisted[..n] :: p in persisted;
    forall p <- persisted[..n] ensures DedupeKey(p) != DedupeKey(persisted[n]) {
      var i :| 0 <= i < n && persisted[..n][i] == p;
      FetchedObjectsDiffer(persisted, text, i, n);
    }
  }

  lemma {:induction false} UniqueTimes(mem: seq<Row>, persisted: seq<Row>, text: Text, r: Row)
    requires Fetched(persisted, text)
    ensures multiset(Unique(mem, persisted))[r]
         == multiset(mem)[r] + if r in persisted && DedupeKey(r) !in DedupeKeys(mem) then 1 else 0
  {
    if persisted != [] {
      var n := |persisted| - 1;
      var q := persisted[n];
      assert persisted == persisted[..n] + [q];
      LastKeyIsNew(persisted, text);
      UniqueTimes(mem, persisted[..n], text, r);
      UniqueCovers(mem, persisted[..n]);
      KeyOfMember(persisted[..n], r);
      hide DedupeKey, DedupeKeys, Fetched;
    }
  }

  lemma KeyOfMember(rows: seq<Row>, r: Row)
    ensures r in rows ==> DedupeKey(r) in DedupeKeys(rows)
  {
    hide DedupeKey;
  }

  lemma SearchableIsClean(mem: seq<Row>, search: map<Bytes, Row>, m: map<Cell, Snapshot>, text: Text)
    requires Searchable(mem, search, m, text)
    ensures Clean(mem, search, text)
  {
    hide NulFree, IndexKey, StoredRow, ShownBySome;
    forall ik <- search ensures NulFree(search[ik]) {
      ShownIsStored(search[ik], m);
    }
  }

  lemma OnlyStoredByKey(r: Row, mem: seq<Row>, cluster: Bytes, query: Bytes, text: Text)
    requires NulFree(r) && !Blank(query, text)
    ensures OnlyStored(r, mem, cluster, query, text) <==> DedupeKey(r) !in DedupeKeys(InMemory(mem, cluster, query, text))
  {
    hide DedupeKey, Wanted, Rows.Matches, NulFree, Matching;
    forall q ensures q in InMemory(mem, cluster, query, text) <==> q in mem && Wanted(q, cluster, query, text) {
      MatchingExactly(mem, cluster, Needle(query, text), text, q);
      WantedMatches(q, cluster, query, text);
    }
    forall q ensures DedupeKey(r) == DedupeKey(q) <==> SameObject(r, q) {
      DedupeKeyIsFaithful(r, q);
    }
  }

  lemma AnswerTimes(mem: seq<Row>, search: map<Bytes, Row>, m: map<Cell, Snapshot>, cluster: Bytes, query: Bytes, text: Text, r: Row)
    requires Searchable(mem, search, m, text)
    ensures multiset(Answer(mem, search, cluster, query, text))[r] == Times(r, mem, m, cluster, query, text)
  {
    hide DedupeKey, DedupeKeys, Wanted, OnlyStored, Rows.Matches, NulFree, Matching, StableSort, Unique, SearchOrder, Fetched, IndexKey;
    hide IndexSearch.Matches, ShownBySome, StoredRow, Clean, Searched;
    var mine, theirs := InMemory(mem, cluster, query, text), Persisted(search, cluster, query, text);
    SearchableIsClean(mem, search, m, text);
    PersistedIsFetched(mem, search, cluster, query, text);
    SearchOrderIsWeak(text);
    StableSortSorts(Unique(mine, theirs), SearchOrder(text));
    UniqueTimes(mine, theirs, text, r);
    if !Blank(query, text) {
      MatchingTimes(mem, cluster, Needle(query, text), text, r);
      WantedMatches(r, cluster, query, text);
      MatchesAreListed(search, m, cluster, Needle(query, text), text);
      ShownIsStored(r, m);
      KeyOfMember(mine, r);
      if ShownBySome(r, m) {
        OnlyStoredByKey(r, mem, cluster, query, text);
      }
      assert r in mem <==> multiset(mem)[r] > 0;
      assert r in mine <==> multiset(mine)[r] > 0;
    }
  }

  /** The merge that the search pages is the whole answer. */
  lemma AnswerIsWhole(mem: seq<Row>, search: map<Bytes, Row>, m: map<Cell, Snapshot>, cluster: Bytes, query: Bytes, text: Text)
    requires Searchable(mem, search, m, text)
    ensures IsWholeAnswer(Answer(mem, search, cluster, query, text), mem, m, cluster, query, text)
  {
    hide Searchable, Times, Precedes, SearchLess, Unique, InMemory, Persisted, StableSort;
    var u := Answer(mem, search, cluster, query, text);
    forall r ensures multiset(u)[r] == Times(r, mem, m, cluster, query, text) {
      AnswerTimes(mem, search, m, cluster, query, text, r);
    }
    SearchOrderIsWeak(text);
    StableSortSorts(Unique(InMemory(mem, cluster, query, text), Persisted(search, cluster, query, text)), SearchOrder(text));
    forall i, j | 0 <= i < j < |u| ensures !Precedes(u[j], u[i], 5, text) {
      assert !SearchOrder(text)(u[j], u[i]);
      PrecedesIsLess(u[j], u[i], text);
    }
  }

  /** The rows of a truncated fetch, as cachedResourceSearchRows pages them. */
  ghost function TruncatedAnswer(mem: seq<Row>, search: map<Bytes, Row>, cluster: Bytes, query: Bytes, limit: nat, offset: nat, text: Text): seq<Row> {
    Merge(InMemory(mem, cluster, query, text), NameSearch(search, cluster, query, limit + offset + 1, 0, text), text)
  }

  lemma TruncatedAnswerIsEnough(mem: seq<Row>, search: map<Bytes, Row>, cluster: Bytes, query: Bytes, limit: nat, offset: nat, text: Text)
    requires Clean(mem, search, text)
    ensures var some, all := TruncatedAnswer(mem, search, cluster, query, limit, offset, text), Answer(mem, search, cluster, query, text);
            && Page(some, offset, limit) == Page(all, offset, limit)
            && (|some| > limit + offset <==> |all| > limit + offset)
  {
    hide Fetched, IndexSearch.Matches, InMemory, NulFree, Merge, Needle;
    PersistedIsFetched(mem, search, cluster, query, text);
    InMemoryIsNulFree(mem, cluster, query, text);
    TruncatedMergeLosesNothing(InMemory(mem, cluster, query, text), Persisted(search, cluster, query, text), limit, offset, text);
  }

  /** Without persistence the rows in memory are the whole answer. */
  lemma MemoryIsWhole(mem: seq<Row>, cluster: Bytes, query: Bytes, text: Text)
    ensures IsWholeAnswer(StableSort(InMemory(mem, cluster, query, text), SearchOrder(text)), mem, map[], cluster, query, text)
  {
    hide Precedes, SearchLess, StableSort, Matching, Rows.Matches, Wanted, OnlyStored;
    var mine := InMemory(mem, cluster, query, text);
    var u := StableSort(mine, SearchOrder(text));
    SearchOrderIsWeak(text);
    StableSortSorts(mine, SearchOrder(text));
    forall r ensures multiset(u)[r] == Times(r, mem, map[], cluster, query, text) {
      if !Blank(query, text) {
        MatchingTimes(mem, cluster, Needle(query, text), text, r);
        WantedMatches(r, cluster, query, text);
      }
      assert r in mem <==> multiset(mem)[r] > 0;
    }
    forall i, j | 0 <= i < j < |u| ensures !Precedes(u[j], u[i], 5, text) {
      assert !SearchOrder(text)(u[j], u[i]);
      PrecedesIsLess(u[j], u[i], text);
    }
  }

  /** cachedResourceSearchRows; `sp` is null when there is no persistence. */
  method CachedResourceSearchRows(mem: seq<Row>, sp: SnapshotPersistence?, cluster: Bytes, query: Bytes, limit: nat, offset: nat, text: Text)
    returns (rows: seq<Row>)
    requires sp != null ==> sp.text == text
    ensures sp != null && Clean(mem, sp.search, text) ==>
              rows == Page(Answer(mem, sp.search, cluster, query, text), offset, limit)
    ensures sp != null ==> forall m :: Searchable(mem, sp.search, m, text) ==>
              exists u :: IsWholeAnswer(u, mem, m, cluster, query, text) && IsPage(rows, u, offset, limit)
    ensures sp == null ==> exists u :: IsWholeAnswer(u, mem, map[], cluster, query, text) && IsPage(rows, u, offset, limit)
  {
    hide StableSort, Unique, Clean, Needle, IndexSearch.Matches, NameSearch, Matching, Answer, Searchable, IsWholeAnswer, IsPage, Searched, IsAnswer;
    if sp == null {
      MemoryIsWhole(mem, cluster, query, text);
      PageIsPage(StableSort(InMemory(mem, cluster, query, text), SearchOrder(text)), offset, limit);
    } else {
      ghost var all := Answer(mem, sp.search, cluster, query, text);
      PageIsPage(all, offset, limit);
      forall m | Searchable(mem, sp.search, m, text)
        ensures Clean(mem, sp.search, text)
        ensures exists u :: IsWholeAnswer(u, mem, m, cluster, query, text) && IsPage(Page(all, offset, limit), u, offset, limit)
      {
        SearchableIsClean(mem, sp.search, m, text);
        AnswerIsWhole(mem, sp.search, m, cluster, query, text);
      }
    }
    rows := SearchRowsMatching(mem, cluster, query, text);
    if sp != null {
      var persistedRows := sp.SearchName(cluster, query, limit + offset + 1, 0);
      rows := AppendUniqueSearchRows(rows, persistedRows);
      if Clean(mem, sp.search, text) {
        TruncatedAnswerIsEnough(mem, sp.search, cluster, query, limit, offset, text);
      }
    }
    rows := StableSort(rows, SearchOrder(text));
    if offset >= |rows| {
      return [];
    }
    var end := offset + limit;
    if end > |rows| {
      end := |rows|;
    }
    rows := rows[offset..end];
  }

  /** One row more than the page needs tells whether there is more, and the rest is the page. */
  lemma PageAndOne<T>(s: seq<T>, offset: nat, limit: nat)
    ensures var p := Page(s, offset, limit + 1);
            && (|p| > limit <==> |s| > offset + limit)
            && (if |p| > limit then p[..limit] else p) == Page(s, offset, limit)
  {
  }

  /** SearchCachedResources: the page of at most `limit` rows and whether another follows. */
  method SearchCachedResources(mem: seq<Row>, sp: SnapshotPersistence, cluster: Bytes, query: Bytes, limit: int, offset: int, text: Text)
    returns (rows: seq<Row>, hasMore: bool, limitUsed: int, offsetUsed: int)
    requires sp.text == text
    ensures text.trim(query) == [] ==> rows == [] && !hasMore && limitUsed == limit && offsetUsed == offset
    ensures text.trim(query) != [] ==>
              && limitUsed == (if limit <= 0 || limit > 50 then 20 else limit)
              && offsetUsed == (if offset < 0 then 0 else offset)
    ensures text.trim(query) != [] && Clean(mem, sp.search, text) ==>
              var all := Answer(mem, sp.search, cluster, text.trim(query), text);
              && rows == Page(all, offsetUsed, limitUsed)
              && (hasMore <==> |all| > offsetUsed + limitUsed)
    ensures text.trim(query) != [] ==> forall m :: Searchable(mem, sp.search, m, text) ==>
              exists u :: IsWholeAnswer(u, mem, m, cluster, text.trim(query), text)
                && IsPage(rows, u, offsetUsed, limitUsed) && (hasMore <==> |u| > offsetUsed + limitUsed)
  {
    hide Answer, Clean, Page, Searchable, IsWholeAnswer, IsPage;
    var q := text.trim(query);
    limitUsed, offsetUsed := limit, offset;
    if q == [] {
      return [], false, limitUsed, offsetUsed;
    }
    limitUsed := if limit <= 0 || limit > 50 then 20 else limit;
    offsetUsed := if offset < 0 then 0 else offset;
    rows := CachedResourceSearchRows(mem, sp, cluster, q, limitUsed + 1, offsetUsed, text);
    hasMore := |rows| > limitUsed;
    PageAndOne(Answer(mem, sp.search, cluster, q, text), offsetUsed, limitUsed);
    if hasMore {
      rows := rows[..limitUsed];
    }
    ghost var all := Answer(mem, sp.search, cluster, q, text);
    PageIsPage(all, offsetUsed, limitUsed);
    forall m | Searchable(mem, sp.search, m, text)
      ensures exists u :: IsWholeAnswer(u, mem, m, cluster, q, text)
                && IsPage(rows, u, offsetUsed, limitUsed) && (hasMore <==> |u| > offsetUsed + limitUsed)
    {
      SearchableIsClean(mem, sp.search, m, text);
      AnswerIsWhole(mem, sp.search, m, cluster, q, text);
    }
  }

  /** A store reached by any run of proper operations with NUL-free text meets the search's needs. */
  lemma RunsAreSearchable(ops: seq<Op>, mem: seq<Row>, text: Text)
    requires AllProper(ops)
    requires forall r <- mem :: NulFree(r)
    requires forall r :: ShownBySome(r, RefRun(ops)) ==> NulFree(r)
    ensures Searchable(mem, Run(ops, text).search, RefRun(ops), text)
    ensures Clean(mem, Run(ops, text).search, text)
  {
    hide NulFree, StoredRow, Run, RefRun, IndexKey, Keyed, AllProper, Searched, ShownBySome, Clean;
    IndexAgreesAlways(ops, text);
    SearchableIsClean(mem, Run(ops, text).search, RefRun(ops), text);
  }
}

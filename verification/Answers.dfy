/**
 What the searches answer, said of the stored snapshots and the query alone: which rows are
 in the whole answer, in which order, and which piece of it a page is.
*/
module Answers {
  import opened Options
  import opened Orders
  import opened Bytes
  import opened Keys
  import opened Rows
  import opened Persistence
  import opened IndexSearch

  // ---------------------------------------------------------------------- pages

  /** At most `limit` rows of the answer, from the given offset on. */
  ghost predicate IsPage<T>(page: seq<T>, all: seq<T>, offset: nat, limit: nat) {
    && |page| == (if |all| <= offset then 0 else if |all| - offset < limit then |all| - offset else limit)
    && forall k :: 0 <= k < |page| ==> page[k] == all[offset + k]
  }

  lemma PageIsPage<T>(all: seq<T>, offset: nat, limit: nat)
    ensures IsPage(Page(all, offset, limit), all, offset, limit)
  {
  }

  lemma PageIsUnique<T>(p: seq<T>, q: seq<T>, all: seq<T>, offset: nat, limit: nat)
    requires IsPage(p, all, offset, limit) && IsPage(q, all, offset, limit)
    ensures p == q
  {
  }

  /** A page and the next one together are the longer page: no row is lost or shown twice. */
  lemma PagesJoin<T>(p: seq<T>, q: seq<T>, all: seq<T>, offset: nat, m: nat, n: nat)
    requires IsPage(p, all, offset, m) && IsPage(q, all, offset + m, n)
    ensures IsPage(p + q, all, offset, m + n)
  {
  }

  // ------------------------------------------------------------- rows of a query

  /** The row shows a named item of the cell. */
  ghost predicate Shows(r: Row, c: Cell, snap: Snapshot) {
    exists i :: 0 <= i < |snap.items| && ShowsItem(r, c, snap.items[i], snap.observedAt)
  }

  predicate ShowsItem(r: Row, c: Cell, item: Item, observedAt: Option<int>) {
    && item.name != [] && r.name == item.name && r.cluster == c.cluster && r.kind == c.kind
    && r.namespace == (if item.namespace == [] then c.namespace else item.namespace)
    && r.observedAt == observedAt
  }

  ghost predicate ShownBySome(r: Row, m: map<Cell, Snapshot>) {
    exists c <- m :: Shows(r, c, m[c])
  }

  predicate Blank(query: Bytes, text: Text) {
    text.lower(text.trim(query)) == []
  }

  /** The trimmed query occurs in the name, in any case, and the cluster is the one asked for, if any. */
  ghost predicate Wanted(r: Row, cluster: Bytes, query: Bytes, text: Text) {
    && (cluster == [] || cluster == r.cluster)
    && exists a, b :: text.lower(r.name) == a + text.lower(text.trim(query)) + b
  }

  /** The groups of kinds, in the order in which they are shown. */
  predicate InGroup(kind: Bytes, n: Byte) {
    if kind == Ascii("helmreleases") then n == 0
    else if kind == Ascii("deployments") then n == 1
    else n == if kind in [Ascii("statefulsets"), Ascii("replicasets"), Ascii("daemonsets")] then 2 else 3
  }

  /** What rows are compared by, the most important first. */
  ghost predicate ComparedBy(r: Row, text: Text, parts: seq<Bytes>) {
    |parts| == 6 && (exists n: Byte :: InGroup(r.kind, n) && parts[0] == [n])
    && parts[1] == text.lower(r.name) && parts[2] == r.namespace && parts[3] == r.kind && parts[4] == r.cluster
    && parts[5] == IndexKey(r, text)
  }

  /** The first of the first n comparisons that differs decides. */
  ghost predicate Precedes(a: Row, b: Row, n: nat, text: Text) {
    exists v, w :: ComparedBy(a, text, v) && ComparedBy(b, text, w) && Decides(v, w, n)
  }

  ghost predicate Decides(v: seq<Bytes>, w: seq<Bytes>, n: nat) {
    exists k :: 0 <= k < n && k < |v| && k < |w| && (forall j :: 0 <= j < k ==> v[j] == w[j]) && Before(v[k], w[k])
  }

  /** The whole answer to a name query over the stored snapshots. */
  ghost predicate IsAnswer(u: seq<Row>, m: map<Cell, Snapshot>, cluster: Bytes, query: Bytes, text: Text) {
    && (forall i, j :: 0 <= i < j < |u| ==> Precedes(u[i], u[j], 6, text))
    && (forall r :: r in u <==> ShownBySome(r, m) && Wanted(r, cluster, query, text))
  }

  /** The whole answer to a prefix query: in the order of the index keys. */
  ghost predicate IsPrefixAnswer(u: seq<Row>, m: map<Cell, Snapshot>, prefix: Bytes, text: Text) {
    && (forall i, j :: 0 <= i < j < |u| ==> Before(IndexKey(u[i], text), IndexKey(u[j], text)))
    && (forall r :: r in u <==> ShownBySome(r, m) && text.lower(prefix) <= text.lower(r.name))
  }

  // --------------------------------------------- the same, as the index computes it

  /** The rows made of a snapshot show its named items, and nothing else. */
  lemma RowsAreShown(r: Row, c: Cell, snap: Snapshot)
    ensures r in RowsOf(c, snap) <==> Shows(r, c, snap)
  {
    RowsOfItemsExactly(c, snap.items, snap.observedAt, r);
    assert forall i :: 0 <= i < |snap.items| && snap.items[i].name != [] ==>
      (ShowsItem(r, c, snap.items[i], snap.observedAt) <==> r == RowOf(c, snap.items[i], snap.observedAt));
  }

  lemma ShownIsStored(r: Row, m: map<Cell, Snapshot>)
    ensures ShownBySome(r, m) <==> StoredRow(m, r)
  {
    hide Shows, RowsOf;
    forall c | c in m ensures Shows(r, c, m[c]) <==> r in RowsOf(c, m[c]) {
      RowsAreShown(r, c, m[c]);
    }
  }

  lemma WantedMatches(r: Row, cluster: Bytes, query: Bytes, text: Text)
    ensures Wanted(r, cluster, query, text) <==> Rows.Matches(r, cluster, Needle(query, text), text)
  {
    var l, needle := text.lower(r.name), text.lower(text.trim(query));
    if a, b :| l == a + needle + b {
      assert HasPrefix(l[|a|..], needle);
    }
    if Contains(l, needle) {
      var i :| 0 <= i <= |l| && HasPrefix(l[i..], needle);
      assert l == l[..i] + needle + l[i..][|needle|..];
    }
  }

  lemma DecidesCases(v: seq<Bytes>, w: seq<Bytes>, n: nat)
    requires |v| == |w| == 6 && 5 <= n <= 6
    ensures Decides(v, w, n) <==>
              if v[0] != w[0] then Before(v[0], w[0]) else if v[1] != w[1] then Before(v[1], w[1])
              else if v[2] != w[2] then Before(v[2], w[2]) else if v[3] != w[3] then Before(v[3], w[3])
              else if n == 5 || v[4] != w[4] then Before(v[4], w[4]) else Before(v[5], w[5])
  {
    if v[0] != w[0] {
      DecidesFirst(v, w, n, 0);
    } else if v[1] != w[1] {
      DecidesFirst(v, w, n, 1);
    } else if v[2] != w[2] {
      DecidesFirst(v, w, n, 2);
    } else if v[3] != w[3] {
      DecidesFirst(v, w, n, 3);
    } else if n == 5 || v[4] != w[4] {
      DecidesFirst(v, w, n, 4);
    } else {
      DecidesFirst(v, w, n, 5);
    }
  }

  lemma DecidesFirst(v: seq<Bytes>, w: seq<Bytes>, n: nat, k: nat)
    requires |v| == |w| == 6 && k < n <= 6 && (forall j :: 0 <= j < k ==> v[j] == w[j]) && (v[k] != w[k] || k == n - 1)
    ensures Decides(v, w, n) <==> Before(v[k], w[k])
  {
    BeforeIsStrictTotal();
    hide Before;
  }

  lemma GroupIsPriority(kind: Bytes, n: Byte)
    ensures InGroup(kind, n) <==> n == KindPriority(kind)
  {
    hide Ascii;
  }

  lemma ComparedExactly(r: Row, text: Text)
    ensures forall parts :: ComparedBy(r, text, parts) <==>
              parts == [[KindPriority(r.kind)], text.lower(r.name), r.namespace, r.kind, r.cluster, IndexKey(r, text)]
  {
    hide IndexKey, InGroup, KindPriority;
    forall n: Byte ensures InGroup(r.kind, n) <==> n == KindPriority(r.kind) {
      GroupIsPriority(r.kind, n);
    }
    PriorityIsSmall(r.kind);
  }

  lemma PriorityIsSmall(kind: Bytes)
    ensures 0 <= KindPriority(kind) < 4
  {
    hide Ascii;
  }

  lemma OneByteOrder(x: Byte, y: Byte)
    ensures Before([x], [y]) <==> x < y
  {
  }

  /** The comparison of the sort, and that of the whole answer. */
  lemma PrecedesIsLess(a: Row, b: Row, text: Text)
    ensures Precedes(a, b, 5, text) <==> SearchLess(a, b, text)
    ensures Precedes(a, b, 6, text) <==> ShownOrder(text)(a, b)
  {
    hide KindPriority, IndexKey, Before, ComparedBy;
    var x, y := KindPriority(a.kind), KindPriority(b.kind);
    var v := [[x], text.lower(a.name), a.namespace, a.kind, a.cluster, IndexKey(a, text)];
    var w := [[y], text.lower(b.name), b.namespace, b.kind, b.cluster, IndexKey(b, text)];
    ComparedExactly(a, text);
    ComparedExactly(b, text);
    OneByteOrder(x, y);
    BeforeIsStrictTotal();
    DecidesCases(v, w, 5);
    DecidesCases(v, w, 6);
    assert Precedes(a, b, 5, text) <==> Decides(v, w, 5);
    assert Precedes(a, b, 6, text) <==> Decides(v, w, 6);
    hide Decides, Precedes;
    SearchLessCases(a, b, text);
  }

  lemma AnswerIsListed(u: seq<Row>, m: map<Cell, Snapshot>, cluster: Bytes, query: Bytes, text: Text)
    ensures IsAnswer(u, m, cluster, query, text) <==> ListsMatches(u, m, cluster, Needle(query, text), text)
  {
    hide Precedes, ShownOrder, ShownBySome, StoredRow, Wanted, Rows.Matches;
    forall a, b ensures Precedes(a, b, 6, text) <==> ShownOrder(text)(a, b) {
      PrecedesIsLess(a, b, text);
    }
    forall r ensures ShownBySome(r, m) && Wanted(r, cluster, query, text) <==> StoredRow(m, r) && Rows.Matches(r, cluster, Needle(query, text), text) {
      ShownIsStored(r, m);
      WantedMatches(r, cluster, query, text);
    }
  }

  /** There is one whole answer to a query. */
  lemma AnswerIsUnique(u: seq<Row>, v: seq<Row>, m: map<Cell, Snapshot>, cluster: Bytes, query: Bytes, text: Text)
    requires IsAnswer(u, m, cluster, query, text) && IsAnswer(v, m, cluster, query, text)
    ensures u == v
  {
    hide ShownOrder, StoredRow, Rows.Matches, Precedes;
    AnswerIsListed(u, m, cluster, query, text);
    AnswerIsListed(v, m, cluster, query, text);
    ShownOrderAsymmetric(text);
    AscendingUnique(u, v, ShownOrder(text));
  }

  /** SearchName answers with the page of the whole answer. */
  lemma NameSearchAnswers(search: map<Bytes, Row>, m: map<Cell, Snapshot>, cluster: Bytes, query: Bytes, limit: int, offset: int, text: Text)
    requires Searched(search, m, text)
    ensures var rows := NameSearch(search, cluster, query, limit, offset, text);
            if limit <= 0 || Blank(query, text) then rows == []
            else exists u :: IsAnswer(u, m, cluster, query, text) && IsPage(rows, u, if offset < 0 then 0 else offset, limit)
  {
    hide IndexSearch.Matches, Page, IsAnswer, ListsMatches, Searched, IsPage;
    if limit > 0 && !Blank(query, text) {
      var u := IndexSearch.Matches(search, cluster, Needle(query, text), text);
      MatchesAreListed(search, m, cluster, Needle(query, text), text);
      AnswerIsListed(u, m, cluster, query, text);
      PageIsPage(u, if offset < 0 then 0 else offset, limit);
    }
  }

  /** SearchNamePrefix answers with the first rows whose name has the prefix. */
  lemma PrefixSearchAnswers(search: map<Bytes, Row>, m: map<Cell, Snapshot>, prefix: Bytes, limit: int, text: Text)
    requires Searched(search, m, text) && NUL !in text.lower(prefix)
    ensures var rows := PrefixSearch(search, prefix, limit, text);
            if limit <= 0 then rows == [] else exists u :: IsPrefixAnswer(u, m, prefix, text) && IsPage(rows, u, 0, limit)
  {
    hide Page, Searched, IsPage, Listing, StoredRow, ShownBySome, IndexKey, Before;
    if limit > 0 {
      var u := Listing(search, WithPrefix(search, text.lower(prefix)));
      PrefixSearchIsFilter(search, m, prefix, limit, text, u);
      forall r ensures ShownBySome(r, m) <==> StoredRow(m, r) {
        ShownIsStored(r, m);
      }
      assert IsPrefixAnswer(u, m, prefix, text) by {
        forall i, j | 0 <= i < j < |u| ensures Before(IndexKey(u[i], text), IndexKey(u[j], text)) {
          assert IndexOrder(text)(u[i], u[j]);
        }
      }
      PageIsPage(u, 0, limit);
    }
  }

  /** So after every run of proper saves, deletes and prunes both searches answer from the reference alone. */
  lemma SearchesAnswerFromTheReference(ops: seq<Op>, text: Text, cluster: Bytes, query: Bytes, limit: int, offset: int)
    requires AllProper(ops)
    ensures var rows := NameSearch(Run(ops, text).search, cluster, query, limit, offset, text);
            if limit <= 0 || Blank(query, text) then rows == []
            else exists u :: IsAnswer(u, RefRun(ops), cluster, query, text) && IsPage(rows, u, if offset < 0 then 0 else offset, limit)
    ensures NUL !in text.lower(query) ==>
              var rows := PrefixSearch(Run(ops, text).search, query, limit, text);
              if limit <= 0 then rows == [] else exists u :: IsPrefixAnswer(u, RefRun(ops), query, text) && IsPage(rows, u, 0, limit)
  {
    hide IsAnswer, IsPrefixAnswer, IsPage, Searched, Keyed, NameSearch, PrefixSearch, Run, RefRun;
    IndexAgreesAlways(ops, text);
    NameSearchAnswers(Run(ops, text).search, RefRun(ops), cluster, query, limit, offset, text);
    if NUL !in text.lower(query) {
      PrefixSearchAnswers(Run(ops, text).search, RefRun(ops), query, limit, text);
    }
  }
}

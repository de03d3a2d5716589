/**
 The rows of the name index: how they come from a snapshot, the key under which each is
 stored, which of them a query matches, and the order in which they are shown.
 strings.ToLower and strings.TrimSpace are any two functions on byte strings.
*/
module Rows {
  import opened Options
  import opened Orders
  import opened Bytes
  import opened Keys

  datatype Text = Text(lower: Bytes -> Bytes, trim: Bytes -> Bytes)

  datatype Item = Item(name: Bytes, namespace: Bytes)
  /** `observedAt` is None for the zero time. */
  datatype Snapshot = Snapshot(items: seq<Item>, observedAt: Option<int>)
  datatype Row = Row(cluster: Bytes, kind: Bytes, namespace: Bytes, name: Bytes, observedAt: Option<int>)

  function RowOf(c: Cell, item: Item, observedAt: Option<int>): Row {
    Row(c.cluster, c.kind, if item.namespace == [] then c.namespace else item.namespace, item.name, observedAt)
  }

  /** The rows of the first items come first; items without a name have no row. */
  function RowsOfItems(c: Cell, items: seq<Item>, observedAt: Option<int>): seq<Row> {
    if items == [] then []
    else
      var n := |items| - 1;
      RowsOfItems(c, items[..n], observedAt)
      + if items[n].name == [] then [] else [RowOf(c, items[n], observedAt)]
  }

  function RowsOf(c: Cell, snap: Snapshot): seq<Row> {
    RowsOfItems(c, snap.items, snap.observedAt)
  }

  lemma {:induction false} RowsOfItemsExactly(c: Cell, items: seq<Item>, observedAt: Option<int>, r: Row)
    ensures r in RowsOfItems(c, items, observedAt)
       <==> exists i :: 0 <= i < |items| && items[i].name != [] && r == RowOf(c, items[i], observedAt)
  {
    if items != [] {
      var n := |items| - 1;
      RowsOfItemsExactly(c, items[..n], observedAt, r);
      if r in RowsOfItems(c, items[..n], observedAt) {
        var i :| 0 <= i < n && items[..n][i].name != [] && r == RowOf(c, items[..n][i], observedAt);
        assert items[i].name != [];
      }
      if i :| 0 <= i < |items| && items[i].name != [] && r == RowOf(c, items[i], observedAt) {
        assert i < n ==> items[..n][i] == items[i];
      }
    }
  }

  function CellOf(r: Row): Cell {
    Cell(r.cluster, r.kind, r.namespace)
  }

  function IndexKey(r: Row, text: Text): Bytes {
    SearchIndexKey(CellOf(r), r.name, text.lower)
  }

  lemma IndexKeyInjective(r: Row, q: Row, text: Text)
    requires IndexKey(r, text) == IndexKey(q, text)
    ensures r.(observedAt := q.observedAt) == q
  {
    SearchIndexKeyInjective(CellOf(r), r.name, CellOf(q), q.name, text.lower);
  }

  function IndexKeys(rows: seq<Row>, text: Text): seq<Bytes> {
    if rows == [] then []
    else IndexKeys(rows[..|rows| - 1], text) + [IndexKey(rows[|rows| - 1], text)]
  }

  /** Every item stays in the namespace of its cell, so every row knows its cell. */
  predicate Proper(c: Cell, snap: Snapshot) {
    forall item <- snap.items :: item.namespace == [] || item.namespace == c.namespace
  }

  lemma RowsKnowTheirCell(c: Cell, snap: Snapshot, r: Row)
    requires r in RowsOf(c, snap)
    ensures r.cluster == c.cluster && r.kind == c.kind && r.observedAt == snap.observedAt
    ensures Proper(c, snap) ==> CellOf(r) == c
  {
    RowsOfItemsExactly(c, snap.items, snap.observedAt, r);
  }

  // -------------------------------------------------------------------- queries

  /** strings.Contains. */
  predicate Contains(s: Bytes, needle: Bytes) {
    exists i :: 0 <= i <= |s| && HasPrefix(s[i..], needle)
  }

  function Needle(query: Bytes, text: Text): Bytes {
    text.lower(text.trim(query))
  }

  /** An empty `cluster` stands for all clusters. */
  predicate Matches(r: Row, cluster: Bytes, needle: Bytes, text: Text) {
    (cluster == [] || r.cluster == cluster) && Contains(text.lower(r.name), needle)
  }

  function Matching(rows: seq<Row>, cluster: Bytes, needle: Bytes, text: Text): seq<Row> {
    if rows == [] then []
    else
      var n := |rows| - 1;
      Matching(rows[..n], cluster, needle, text)
      + if Matches(rows[n], cluster, needle, text) then [rows[n]] else []
  }

  lemma {:induction false} MatchingExactly(rows: seq<Row>, cluster: Bytes, needle: Bytes, text: Text, r: Row)
    ensures r in Matching(rows, cluster, needle, text) <==> r in rows && Matches(r, cluster, needle, text)
  {
    if rows != [] {
      var n := |rows| - 1;
      MatchingExactly(rows[..n], cluster, needle, text, r);
      assert rows == rows[..n] + [rows[n]];
    }
  }

  lemma MatchingAppend(rows: seq<Row>, r: Row, cluster: Bytes, needle: Bytes, text: Text)
    ensures Matching(rows + [r], cluster, needle, text)
         == Matching(rows, cluster, needle, text) + if Matches(r, cluster, needle, text) then [r] else []
  {
    assert (rows + [r])[..|rows + [r]| - 1] == rows;
  }

  /** rows[offset:end] with both ends cut to the length. */
  function Page<T>(rows: seq<T>, offset: nat, limit: nat): seq<T> {
    if offset >= |rows| then []
    else rows[offset..if offset + limit > |rows| then |rows| else offset + limit]
  }

  // ---------------------------------------------------------------------- order

  function Ascii(s: string): Bytes {
    seq(|s|, i requires 0 <= i < |s| => s[i] as int % 256)
  }

  function KindPriority(kind: Bytes): Byte {
    if kind == Ascii("helmreleases") then 0
    else if kind == Ascii("deployments") then 1
    else if kind == Ascii("replicasets") || kind == Ascii("daemonsets") || kind == Ascii("statefulsets") then 2
    else 3
  }

  /** The comparison that SearchName and sortSearchRows share. */
  predicate SearchLess(a: Row, b: Row, text: Text) {
    if KindPriority(a.kind) != KindPriority(b.kind) then KindPriority(a.kind) < KindPriority(b.kind)
    else if text.lower(a.name) != text.lower(b.name) then Before(text.lower(a.name), text.lower(b.name))
    else if a.namespace != b.namespace then Before(a.namespace, b.namespace)
    else if a.kind != b.kind then Before(a.kind, b.kind)
    else Before(a.cluster, b.cluster)
  }

  function SearchOrder(text: Text): (Row, Row) -> bool {
    (a, b) => SearchLess(a, b, text)
  }

  function IndexOrder(text: Text): (Row, Row) -> bool {
    (a, b) => Before(IndexKey(a, text), IndexKey(b, text))
  }

  /** The order of a result in full: ties of the comparison stay in key order. */
  function ShownOrder(text: Text): (Row, Row) -> bool {
    (a, b) => SearchLess(a, b, text)
           || (!SearchLess(b, a, text) && Before(IndexKey(a, text), IndexKey(b, text)))
  }

  /** Two rows compare equal exactly when they agree in everything but the case of their names. */
  predicate Alike(a: Row, b: Row, text: Text) {
    CellOf(a) == CellOf(b) && text.lower(a.name) == text.lower(b.name)
  }

  lemma SearchLessCases(a: Row, b: Row, text: Text)
    ensures !SearchLess(a, a, text)
    ensures !(SearchLess(a, b, text) && SearchLess(b, a, text))
    ensures !SearchLess(a, b, text) && !SearchLess(b, a, text) <==> Alike(a, b, text)
  {
    BeforeIsStrictTotal();
    hide KindPriority, Before;
  }

  lemma SearchLessTransitive(a: Row, b: Row, c: Row, text: Text)
    requires SearchLess(a, b, text) && SearchLess(b, c, text)
    ensures SearchLess(a, c, text)
  {
    BeforeIsStrictTotal();
    hide KindPriority, Before;
  }

  lemma AlikeComparesAlike(a: Row, b: Row, c: Row, text: Text)
    requires Alike(a, b, text)
    ensures SearchLess(a, c, text) <==> SearchLess(b, c, text)
    ensures SearchLess(c, a, text) <==> SearchLess(c, b, text)
  {
    hide KindPriority, Before;
  }

  lemma SearchOrderIsWeak(text: Text)
    ensures WeakOrder(SearchOrder(text))
  {
    hide SearchLess, Alike;
    var less := SearchOrder(text);
    forall x: Row ensures !less(x, x) { SearchLessCases(x, x, text); }
    forall x, y, z | less(x, y) && less(y, z) ensures less(x, z) { SearchLessTransitive(x, y, z, text); }
    forall x, y, z | !less(x, y) && !less(y, z) ensures !less(x, z) { NotLessTransitive(x, y, z, text); }
  }

  lemma NotLessTransitive(x: Row, y: Row, z: Row, text: Text)
    requires !SearchLess(x, y, text) && !SearchLess(y, z, text)
    ensures !SearchLess(x, z, text)
  {
    hide SearchLess, Alike;
    SearchLessCases(x, y, text);
    SearchLessCases(y, z, text);
    SearchLessCases(x, z, text);
    if Alike(x, y, text) {
      AlikeComparesAlike(x, y, z, text);
    } else if Alike(y, z, text) {
      AlikeComparesAlike(y, z, x, text);
    } else {
      SearchLessTransitive(z, y, x, text);
    }
  }

  lemma ShownOrderAsymmetric(text: Text)
    ensures Asymmetric(ShownOrder(text))
  {
    hide SearchLess, Before, IndexKey;
    BeforeIsStrictTotal();
    forall x, y | ShownOrder(text)(x, y) ensures !ShownOrder(text)(y, x) {
      SearchLessCases(x, y, text);
    }
  }
}

/**
 The session accounting: running totals, the same per kind and (for requests and fetches)
 per source, and the size of every cached cell. All counters are unsigned 64-bit words that
 wrap around, as in the source.
*/
module Accounting {
  import opened MapSums

  const W := 0x1_0000_0000_0000_0000
  type Word = x: int | 0 <= x < W
  /** Go's int. */
  type Int64 = x: int | -0x8000_0000_0000_0000 <= x < 0x8000_0000_0000_0000

  function Plus(a: Word, b: Word): Word {
    if a + b >= W then a + b - W else a + b
  }

  function Minus(a: Word, b: Word): Word {
    if a < b then a - b + W else a - b
  }

  // ----------------------------------------------------------------- the ledger

  /** dataplaneSessionSourceStats, and the same five counters of a kind and of the session. */
  datatype Counts = Counts(requests: Word, freshHits: Word, misses: Word, fetchAttempts: Word, fetchErrors: Word)
  datatype Sizes = Sizes(liveBytes: Word, hydratedBytes: Word, currentBytes: Word, currentCells: Word)
  /** dataplaneSessionKindStats, and the totals of the session. */
  datatype Tally = Tally(counts: Counts, sizes: Sizes)

  const NO_COUNTS := Counts(0, 0, 0, 0, 0)
  const NO_SIZES := Sizes(0, 0, 0, 0)
  const NOTHING := Tally(NO_COUNTS, NO_SIZES)

  datatype CellKey = CellKey(cluster: string, kind: string, namespace: string)

  datatype Ledger = Ledger(total: Tally, bySource: map<string, Counts>, byKind: map<string, Tally>, cells: map<CellKey, Word>)

  const FRESH := Ledger(NOTHING, map[], map[], map[])

  function PlusCounts(a: Counts, b: Counts): Counts {
    Counts(Plus(a.requests, b.requests), Plus(a.freshHits, b.freshHits), Plus(a.misses, b.misses),
           Plus(a.fetchAttempts, b.fetchAttempts), Plus(a.fetchErrors, b.fetchErrors))
  }

  function PlusSizes(a: Sizes, b: Sizes): Sizes {
    Sizes(Plus(a.liveBytes, b.liveBytes), Plus(a.hydratedBytes, b.hydratedBytes),
          Plus(a.currentBytes, b.currentBytes), Plus(a.currentCells, b.currentCells))
  }

  function PlusTally(a: Tally, b: Tally): Tally {
    Tally(PlusCounts(a.counts, b.counts), PlusSizes(a.sizes, b.sizes))
  }

  function KindOf(l: Ledger, kind: string): Tally {
    if kind in l.byKind then l.byKind[kind] else NOTHING
  }

  function SourceOf(l: Ledger, source: string): Counts {
    if source in l.bySource then l.bySource[source] else NO_COUNTS
  }

  function NormalizeSource(source: string): string {
    if source == "" then "api" else source
  }

  /** The same amounts go to the session and to the kind. */
  function Post(l: Ledger, kind: string, d: Tally): Ledger {
    l.(total := PlusTally(l.total, d), byKind := l.byKind[kind := PlusTally(KindOf(l, kind), d)])
  }

  /** Requests and fetches also go to the source. */
  function PostFrom(l: Ledger, source: string, kind: string, d: Counts): Ledger {
    var s := NormalizeSource(source);
    Post(l, kind, Tally(d, NO_SIZES)).(bySource := l.bySource[s := PlusCounts(SourceOf(l, s), d)])
  }

  // ------------------------------------------------------------- the operations

  datatype Op =
    | Request(source: string, kind: string, hit: bool)
    | FetchAttempt(source: string, kind: string)
    | FetchResult(source: string, kind: string, payload: Int64, failed: bool)
    | Hydration(kind: string, payload: Int64)
    | CacheWrite(key: CellKey, payload: Int64)
    | CacheDelete(key: CellKey)

  function Record(l: Ledger, op: Op): Ledger {
    match op
    case Request(source, kind, hit) =>
      PostFrom(l, source, kind, NO_COUNTS.(requests := 1, freshHits := if hit then 1 else 0, misses := if hit then 0 else 1))
    case FetchAttempt(source, kind) => PostFrom(l, source, kind, NO_COUNTS.(fetchAttempts := 1))
    case FetchResult(source, kind, payload, failed) =>
      if failed then PostFrom(l, source, kind, NO_COUNTS.(fetchErrors := 1))
      else if payload <= 0 then l
      else Post(l, kind, Tally(NO_COUNTS, NO_SIZES.(liveBytes := payload)))
    case Hydration(kind, payload) =>
      if payload <= 0 then l else Post(l, kind, Tally(NO_COUNTS, NO_SIZES.(hydratedBytes := payload)))
    case CacheWrite(key, payload) =>
      if payload < 0 then l
      else
        var before: Word := if key in l.cells then l.cells[key] else 0;
        Post(l, key.kind, Tally(NO_COUNTS, NO_SIZES.(currentBytes := Minus(payload, before), currentCells := if key in l.cells then 0 else 1)))
          .(cells := l.cells[key := payload])
    case CacheDelete(key) =>
      if key !in l.cells then l
      else
        Post(l, key.kind, Tally(NO_COUNTS, NO_SIZES.(currentBytes := Minus(0, l.cells[key]), currentCells := Minus(0, 1))))
          .(cells := l.cells - {key})
  }

  function Run(ops: seq<Op>): Ledger {
    if ops == [] then FRESH else Record(Run(ops[..|ops| - 1]), ops[|ops| - 1])
  }

  // -------------------------------------------------- the operations spelled out

  function Spelled(l: Ledger, counts: Counts, sizes: Sizes, kind: string, k: Tally, cells: map<CellKey, Word>): Ledger {
    Ledger(Tally(counts, sizes), l.bySource, l.byKind[kind := k], cells)
  }

  function OneMore(c: Counts, hit: bool): Counts {
    c.(requests := Plus(c.requests, 1), freshHits := if hit then Plus(c.freshHits, 1) else c.freshHits,
       misses := if hit then c.misses else Plus(c.misses, 1))
  }

  lemma SpelledRequest(l: Ledger, source: string, kind: string, hit: bool)
    ensures var s, k := NormalizeSource(source), KindOf(l, kind);
            Record(l, Request(source, kind, hit))
            == Spelled(l, OneMore(l.total.counts, hit), l.total.sizes, kind, k.(counts := OneMore(k.counts, hit)), l.cells)
                 .(bySource := l.bySource[s := OneMore(SourceOf(l, s), hit)])
  {
    AddOne(l.total.counts, hit); AddOne(KindOf(l, kind).counts, hit); AddOne(SourceOf(l, NormalizeSource(source)), hit);
    AddSizes(l.total.sizes, 0, 0); AddSizes(KindOf(l, kind).sizes, 0, 0);
    hide Plus, PlusCounts, PlusSizes;
  }

  lemma SpelledAttempt(l: Ledger, source: string, kind: string)
    ensures var s, k, c := NormalizeSource(source), KindOf(l, kind), l.total.counts;
            Record(l, FetchAttempt(source, kind))
            == Spelled(l, c.(fetchAttempts := Plus(c.fetchAttempts, 1)), l.total.sizes, kind,
                       k.(counts := k.counts.(fetchAttempts := Plus(k.counts.fetchAttempts, 1))), l.cells)
                 .(bySource := l.bySource[s := SourceOf(l, s).(fetchAttempts := Plus(SourceOf(l, s).fetchAttempts, 1))])
  {
    AddOne(l.total.counts, false); AddOne(KindOf(l, kind).counts, false); AddOne(SourceOf(l, NormalizeSource(source)), false);
    AddSizes(l.total.sizes, 0, 0); AddSizes(KindOf(l, kind).sizes, 0, 0);
    hide Plus, PlusCounts, PlusSizes;
  }

  lemma SpelledError(l: Ledger, source: string, kind: string, payload: Int64)
    ensures var s, k, c := NormalizeSource(source), KindOf(l, kind), l.total.counts;
            Record(l, FetchResult(source, kind, payload, true))
            == Spelled(l, c.(fetchErrors := Plus(c.fetchErrors, 1)), l.total.sizes, kind,
                       k.(counts := k.counts.(fetchErrors := Plus(k.counts.fetchErrors, 1))), l.cells)
                 .(bySource := l.bySource[s := SourceOf(l, s).(fetchErrors := Plus(SourceOf(l, s).fetchErrors, 1))])
  {
    AddOne(l.total.counts, false); AddOne(KindOf(l, kind).counts, false); AddOne(SourceOf(l, NormalizeSource(source)), false);
    AddSizes(l.total.sizes, 0, 0); AddSizes(KindOf(l, kind).sizes, 0, 0);
    hide Plus, PlusCounts, PlusSizes;
  }

  lemma SpelledBytes(l: Ledger, source: string, kind: string, payload: Int64)
    requires payload > 0
    ensures var k, s := KindOf(l, kind), l.total.sizes;
            && Record(l, FetchResult(source, kind, payload, false))
               == Spelled(l, l.total.counts, s.(liveBytes := Plus(s.liveBytes, payload)), kind,
                          k.(sizes := k.sizes.(liveBytes := Plus(k.sizes.liveBytes, payload))), l.cells)
            && Record(l, Hydration(kind, payload))
               == Spelled(l, l.total.counts, s.(hydratedBytes := Plus(s.hydratedBytes, payload)), kind,
                          k.(sizes := k.sizes.(hydratedBytes := Plus(k.sizes.hydratedBytes, payload))), l.cells)
  {
    AddOne(l.total.counts, false); AddOne(KindOf(l, kind).counts, false);
    AddSizes(l.total.sizes, payload, 0); AddSizes(KindOf(l, kind).sizes, payload, 0);
    hide Plus, PlusCounts, PlusSizes;
  }

  lemma NothingToRecord(l: Ledger, op: Op)
    requires match op
             case FetchResult(_, _, payload, failed) => !failed && payload <= 0
             case Hydration(_, payload) => payload <= 0
             case CacheWrite(_, payload) => payload < 0
             case CacheDelete(key) => key !in l.cells
             case _ => false
    ensures Record(l, op) == l
  {
  }

  lemma Overwrite<K, V>(m: map<K, V>, k: K, v: V, w: V)
    ensures m[k := v][k := w] == m[k := w]
  {
  }

  /** A write in the two steps of the source: a new cell is counted, then the difference moves. */
  function Grown(s: Sizes, isNew: bool, before: Word, payload: Word): Sizes {
    var s' := if isNew then s.(currentCells := Plus(s.currentCells, 1)) else s;
    s'.(currentBytes := if payload >= before then Plus(s.currentBytes, Minus(payload, before))
                        else Minus(s.currentBytes, Minus(before, payload)))
  }

  lemma GrownIs(s: Sizes, isNew: bool, before: Word, payload: Word)
    ensures PlusSizes(s, NO_SIZES.(currentBytes := Minus(payload, before), currentCells := if isNew then 1 else 0))
         == Grown(s, isNew, before, payload)
  {
  }

  lemma SpelledWrite(l: Ledger, key: CellKey, payload: Int64)
    requires payload >= 0
    ensures var k, isNew := KindOf(l, key.kind), key !in l.cells;
            var before: Word := if isNew then 0 else l.cells[key];
            Record(l, CacheWrite(key, payload))
            == Spelled(l, l.total.counts, Grown(l.total.sizes, isNew, before, payload), key.kind,
                       k.(sizes := Grown(k.sizes, isNew, before, payload)), l.cells[key := payload])
  {
    var isNew := key !in l.cells;
    var before: Word := if isNew then 0 else l.cells[key];
    AddOne(l.total.counts, false); AddOne(KindOf(l, key.kind).counts, false);
    GrownIs(l.total.sizes, isNew, before, payload); GrownIs(KindOf(l, key.kind).sizes, isNew, before, payload);
    hide Plus, Minus, PlusCounts, PlusSizes, Grown;
  }

  function Shrunk(s: Sizes, before: Word): Sizes {
    s.(currentBytes := Minus(s.currentBytes, before), currentCells := Minus(s.currentCells, 1))
  }

  lemma ShrunkIs(s: Sizes, before: Word)
    ensures PlusSizes(s, NO_SIZES.(currentBytes := Minus(0, before), currentCells := Minus(0, 1))) == Shrunk(s, before)
  {
  }

  lemma SpelledDelete(l: Ledger, key: CellKey)
    requires key in l.cells
    ensures var k, before := KindOf(l, key.kind), l.cells[key];
            Record(l, CacheDelete(key))
            == Spelled(l, l.total.counts, Shrunk(l.total.sizes, before), key.kind, k.(sizes := Shrunk(k.sizes, before)), l.cells - {key})
  {
    AddOne(l.total.counts, false); AddOne(KindOf(l, key.kind).counts, false);
    ShrunkIs(l.total.sizes, l.cells[key]); ShrunkIs(KindOf(l, key.kind).sizes, l.cells[key]);
    hide Plus, Minus, PlusCounts, PlusSizes, Shrunk;
  }

  // ----------------------------------------------------------------- invariants

  function TallyAddition(): (Tally, Tally) -> Tally {
    (a, b) => PlusTally(a, b)
  }

  function CountsAddition(): (Counts, Counts) -> Counts {
    (a, b) => PlusCounts(a, b)
  }

  ghost function AsInts(m: map<CellKey, Word>): map<CellKey, int> {
    map c <- m :: m[c] as int
  }

  ghost function OfKind(m: map<CellKey, Word>, kind: string): map<CellKey, Word> {
    map c <- m | c.kind == kind :: m[c]
  }

  ghost function Bytes(m: map<CellKey, Word>): int {
    Total(AsInts(m))
  }

  /** The two counters of cached data say, in 64 bits, what is in `m`. */
  ghost predicate Measures(s: Sizes, m: map<CellKey, Word>) {
    s.currentBytes == Bytes(m) % W && s.currentCells == |m| % W
  }

  predicate HitsAndMisses(c: Counts) {
    c.requests == Plus(c.freshHits, c.misses)
  }

  /** All counters of the session are the sums of those of the kinds. */
  ghost predicate KindsAddUp(l: Ledger) {
    l.total == Sum(l.byKind, TallyAddition(), NOTHING)
  }

  ghost predicate SourcesAddUp(l: Ledger) {
    l.total.counts == Sum(l.bySource, CountsAddition(), NO_COUNTS)
  }

  ghost predicate AllHitsAndMisses(l: Ledger) {
    && HitsAndMisses(l.total.counts)
    && (forall k <- l.byKind :: HitsAndMisses(l.byKind[k].counts))
    && (forall s <- l.bySource :: HitsAndMisses(l.bySource[s]))
  }

  ghost predicate CacheAddsUp(l: Ledger) {
    Measures(l.total.sizes, l.cells) && forall kind :: Measures(KindOf(l, kind).sizes, OfKind(l.cells, kind))
  }

  ghost predicate Balanced(l: Ledger) {
    KindsAddUp(l) && SourcesAddUp(l) && AllHitsAndMisses(l) && CacheAddsUp(l)
  }

  // --------------------------------------------------------------------- proofs

  lemma PlusLaws()
    ensures forall a :: Plus(0, a) == a
    ensures forall a, b :: Plus(a, b) == Plus(b, a)
    ensures forall a, b, c :: Plus(a, Plus(b, c)) == Plus(Plus(a, b), c)
  {
  }

  lemma PlusZero()
    ensures forall a {:trigger Plus(a, 0)} :: Plus(a, 0) == a
    ensures forall a {:trigger Plus(0, a)} :: Plus(0, a) == a
  {
  }

  /** What one more request, attempt or error makes of a set of counters. */
  lemma AddOne(c: Counts, hit: bool)
    ensures PlusCounts(c, NO_COUNTS.(requests := 1, freshHits := if hit then 1 else 0, misses := if hit then 0 else 1))
         == c.(requests := Plus(c.requests, 1), freshHits := if hit then Plus(c.freshHits, 1) else c.freshHits,
               misses := if hit then c.misses else Plus(c.misses, 1))
    ensures PlusCounts(c, NO_COUNTS.(fetchAttempts := 1)) == c.(fetchAttempts := Plus(c.fetchAttempts, 1))
    ensures PlusCounts(c, NO_COUNTS.(fetchErrors := 1)) == c.(fetchErrors := Plus(c.fetchErrors, 1))
    ensures PlusCounts(c, NO_COUNTS) == c
  {
    PlusZero();
    hide Plus;
  }

  lemma AddSizes(s: Sizes, n: Word, m: Word)
    ensures PlusSizes(s, NO_SIZES.(liveBytes := n)) == s.(liveBytes := Plus(s.liveBytes, n))
    ensures PlusSizes(s, NO_SIZES.(hydratedBytes := n)) == s.(hydratedBytes := Plus(s.hydratedBytes, n))
    ensures PlusSizes(s, NO_SIZES.(currentBytes := n, currentCells := m))
         == s.(currentBytes := Plus(s.currentBytes, n), currentCells := Plus(s.currentCells, m))
    ensures PlusSizes(s, NO_SIZES) == s
  {
    PlusZero();
    hide Plus;
  }

  lemma AdditionLaws()
    ensures Addition(CountsAddition(), NO_COUNTS) && Addition(TallyAddition(), NOTHING)
  {
    hide Plus;
    PlusLaws();
    forall x, y, z ensures PlusCounts(x, PlusCounts(y, z)) == PlusCounts(PlusCounts(x, y), z) {}
    forall x, y, z ensures PlusSizes(x, PlusSizes(y, z)) == PlusSizes(PlusSizes(x, y), z) {}
    forall x, y ensures PlusCounts(x, y) == PlusCounts(y, x) {}
    forall x, y ensures PlusSizes(x, y) == PlusSizes(y, x) {}
  }

  lemma SumMoves<V(!new)>(m: map<string, V>, k: string, d: V, add: (V, V) -> V, zero: V)
    requires Addition(add, zero)
    ensures var was := if k in m then m[k] else zero;
            Sum(m[k := add(was, d)], add, zero) == add(Sum(m, add, zero), d)
  {
    var was := if k in m then m[k] else zero;
    SumUpdate(m, k, add(was, d), add, zero);
    var rest := Sum(m - {k}, add, zero);
    if k in m {
      SumWithout(m, k, add, zero);
    }
    assert Sum(m, add, zero) == add(was, rest);
    assert add(add(was, d), rest) == add(was, add(d, rest)) == add(was, add(rest, d)) == add(add(was, rest), d);
  }

  lemma PostKeepsKinds(l: Ledger, kind: string, d: Tally)
    requires KindsAddUp(l)
    ensures KindsAddUp(Post(l, kind, d))
  {
    hide PlusTally;
    AdditionLaws();
    SumMoves(l.byKind, kind, d, TallyAddition(), NOTHING);
    assert PlusTally(KindOf(l, kind), d) == TallyAddition()(KindOf(l, kind), d);
  }

  lemma PostFromKeepsSources(l: Ledger, source: string, kind: string, d: Counts)
    requires SourcesAddUp(l)
    ensures SourcesAddUp(PostFrom(l, source, kind, d))
  {
    hide PlusCounts;
    AdditionLaws();
    var s := NormalizeSource(source);
    SumMoves(l.bySource, s, d, CountsAddition(), NO_COUNTS);
    assert PlusCounts(SourceOf(l, s), d) == CountsAddition()(SourceOf(l, s), d);
  }

  /** Amounts that leave the five counters alone leave the sources in balance. */
  lemma SizesKeepSources(l: Ledger, kind: string, d: Sizes)
    ensures var t := Post(l, kind, Tally(NO_COUNTS, d));
            t.total.counts == l.total.counts && t.bySource == l.bySource
            && (AllHitsAndMisses(l) ==> AllHitsAndMisses(t))
  {
    hide PlusSizes, HitsAndMisses;
    NoChange(l.total.counts);
    NoChange(KindOf(l, kind).counts);
    NoHits();
  }

  lemma NoHits()
    ensures HitsAndMisses(NO_COUNTS)
  {
  }

  lemma NoChange(c: Counts)
    ensures PlusCounts(c, NO_COUNTS) == c
  {
  }

  lemma CountsKeepHits(c: Counts, d: Counts)
    requires HitsAndMisses(c) && HitsAndMisses(d)
    ensures HitsAndMisses(PlusCounts(c, d))
  {
    PlusLaws();
    hide Plus;
    var a, b, x, y := c.freshHits, c.misses, d.freshHits, d.misses;
    assert Plus(Plus(a, b), Plus(x, y)) == Plus(a, Plus(b, Plus(x, y))) == Plus(a, Plus(Plus(b, x), y));
    assert Plus(a, Plus(Plus(x, b), y)) == Plus(a, Plus(x, Plus(b, y))) == Plus(Plus(a, x), Plus(b, y));
  }

  lemma PostFromKeepsHits(l: Ledger, source: string, kind: string, d: Counts)
    requires AllHitsAndMisses(l) && HitsAndMisses(d)
    ensures AllHitsAndMisses(PostFrom(l, source, kind, d))
  {
    hide HitsAndMisses, PlusCounts, PlusSizes;
    NoHits();
    CountsKeepHits(l.total.counts, d);
    CountsKeepHits(KindOf(l, kind).counts, d);
    CountsKeepHits(SourceOf(l, NormalizeSource(source)), d);
  }

  /** Amounts without cached bytes or cells leave the cache in balance. */
  lemma PostKeepsCache(l: Ledger, kind: string, d: Tally)
    requires CacheAddsUp(l) && d.sizes.currentBytes == 0 && d.sizes.currentCells == 0
    ensures CacheAddsUp(Post(l, kind, d))
  {
    hide PlusCounts, Bytes, OfKind;
    var t := Post(l, kind, d);
    forall k ensures Measures(KindOf(t, k).sizes, OfKind(t.cells, k)) {
      assert Measures(KindOf(l, k).sizes, OfKind(l.cells, k));
    }
  }

  lemma ModPlus(a: int, b: int, w: Word)
    requires w == b % W
    ensures Plus(a % W, w) == (a + b) % W
  {
  }

  lemma BytesWithout(m: map<CellKey, Word>, key: CellKey)
    ensures key in m ==> Bytes(m) == m[key] + Bytes(m - {key}) && |m - {key}| == |m| - 1
    ensures key !in m ==> m - {key} == m
  {
    hide Total;
    TotalWithout(AsInts(m), key);
    assert AsInts(m - {key}) == AsInts(m) - {key};
  }

  lemma BytesUpdate(m: map<CellKey, Word>, key: CellKey, payload: Word)
    ensures Bytes(m[key := payload]) == payload + Bytes(m - {key})
    ensures |m[key := payload]| == |m| + if key in m then 0 else 1
  {
    hide Total;
    TotalUpdate(AsInts(m), key, payload);
    assert AsInts(m[key := payload]) == AsInts(m)[key := payload];
    assert AsInts(m - {key}) == AsInts(m) - {key};
  }

  /** The bytes and cells of a map after one write. */
  lemma WriteMeasures(s: Sizes, m: map<CellKey, Word>, key: CellKey, payload: Word)
    requires Measures(s, m)
    ensures var before := if key in m then m[key] else 0;
            Measures(PlusSizes(s, NO_SIZES.(currentBytes := Minus(payload, before), currentCells := if key in m then 0 else 1)), m[key := payload])
  {
    hide Bytes, Plus;
    var before := if key in m then m[key] else 0;
    BytesWithout(m, key);
    BytesUpdate(m, key, payload);
    ModPlus(Bytes(m), payload - before, Minus(payload, before));
    ModPlus(|m|, if key in m then 0 else 1, if key in m then 0 else 1);
  }

  lemma DeleteMeasures(s: Sizes, m: map<CellKey, Word>, key: CellKey)
    requires Measures(s, m) && key in m
    ensures Measures(PlusSizes(s, NO_SIZES.(currentBytes := Minus(0, m[key]), currentCells := Minus(0, 1))), m - {key})
  {
    hide Bytes, Plus;
    BytesWithout(m, key);
    ModPlus(Bytes(m), 0 - m[key] as int, Minus(0, m[key]));
    ModPlus(|m|, -1, Minus(0, 1));
  }

  lemma WriteKeepsCache(l: Ledger, key: CellKey, payload: Int64)
    requires CacheAddsUp(l) && payload >= 0
    ensures CacheAddsUp(Record(l, CacheWrite(key, payload)))
  {
    hide PlusCounts, PlusSizes, Measures;
    var t := Record(l, CacheWrite(key, payload));
    WriteMeasures(l.total.sizes, l.cells, key, payload);
    forall k ensures Measures(KindOf(t, k).sizes, OfKind(t.cells, k)) {
      var m := OfKind(l.cells, k);
      if k == key.kind {
        WriteMeasures(KindOf(l, k).sizes, m, key, payload);
        assert OfKind(t.cells, k) == m[key := payload];
      } else {
        assert OfKind(t.cells, k) == m;
      }
    }
  }

  lemma DeleteKeepsCache(l: Ledger, key: CellKey)
    requires CacheAddsUp(l) && key in l.cells
    ensures CacheAddsUp(Record(l, CacheDelete(key)))
  {
    hide PlusCounts, PlusSizes, Measures;
    var t := Record(l, CacheDelete(key));
    DeleteMeasures(l.total.sizes, l.cells, key);
    forall k ensures Measures(KindOf(t, k).sizes, OfKind(t.cells, k)) {
      var m := OfKind(l.cells, k);
      if k == key.kind {
        DeleteMeasures(KindOf(l, k).sizes, m, key);
        assert OfKind(t.cells, k) == m - {key};
      } else {
        assert OfKind(t.cells, k) == m;
      }
    }
  }

  lemma PostFromBalanced(l: Ledger, source: string, kind: string, d: Counts)
    requires Balanced(l) && HitsAndMisses(d)
    ensures Balanced(PostFrom(l, source, kind, d))
  {
    hide AllHitsAndMisses, HitsAndMisses, PlusTally, PlusCounts, Measures;
    PostKeepsKinds(l, kind, Tally(d, NO_SIZES));
    PostFromKeepsSources(l, source, kind, d);
    PostFromKeepsHits(l, source, kind, d);
    PostKeepsCache(l, kind, Tally(d, NO_SIZES));
  }

  lemma PostBalanced(l: Ledger, kind: string, d: Sizes)
    requires Balanced(l) && d.currentBytes == 0 && d.currentCells == 0
    ensures Balanced(Post(l, kind, Tally(NO_COUNTS, d)))
  {
    hide AllHitsAndMisses, CacheAddsUp, PlusTally;
    PostKeepsKinds(l, kind, Tally(NO_COUNTS, d));
    SizesKeepSources(l, kind, d);
    PostKeepsCache(l, kind, Tally(NO_COUNTS, d));
  }

  /** Changing the cells touches none of the sums. */
  lemma CellsAside(l: Ledger, kind: string, d: Sizes, cells: map<CellKey, Word>)
    requires KindsAddUp(l) && SourcesAddUp(l) && AllHitsAndMisses(l)
    ensures var t := Post(l, kind, Tally(NO_COUNTS, d)).(cells := cells);
            KindsAddUp(t) && SourcesAddUp(t) && AllHitsAndMisses(t)
  {
    hide PlusTally, HitsAndMisses;
    PostKeepsKinds(l, kind, Tally(NO_COUNTS, d));
    SizesKeepSources(l, kind, d);
  }

  /** Every operation keeps every balance. */
  lemma RecordBalanced(l: Ledger, op: Op)
    requires Balanced(l)
    ensures Balanced(Record(l, op))
  {
    hide KindsAddUp, SourcesAddUp, AllHitsAndMisses, CacheAddsUp, PostFrom, Post;
    match op
    case Request(source, kind, hit) =>
      PostFromBalanced(l, source, kind, NO_COUNTS.(requests := 1, freshHits := if hit then 1 else 0, misses := if hit then 0 else 1));
    case FetchAttempt(source, kind) => PostFromBalanced(l, source, kind, NO_COUNTS.(fetchAttempts := 1));
    case FetchResult(source, kind, payload, failed) =>
      if failed {
        PostFromBalanced(l, source, kind, NO_COUNTS.(fetchErrors := 1));
      } else if payload > 0 {
        PostBalanced(l, kind, NO_SIZES.(liveBytes := payload));
      }
    case Hydration(kind, payload) =>
      if payload > 0 { PostBalanced(l, kind, NO_SIZES.(hydratedBytes := payload)); }
    case CacheWrite(key, payload) =>
      if payload >= 0 {
        var before: Word := if key in l.cells then l.cells[key] else 0;
        WriteKeepsCache(l, key, payload);
        CellsAside(l, key.kind, NO_SIZES.(currentBytes := Minus(payload, before), currentCells := if key in l.cells then 0 else 1), l.cells[key := payload]);
      }
    case CacheDelete(key) =>
      if key in l.cells {
        DeleteKeepsCache(l, key);
        CellsAside(l, key.kind, NO_SIZES.(currentBytes := Minus(0, l.cells[key]), currentCells := Minus(0, 1)), l.cells - {key});
      }
  }

  lemma FreshIsBalanced()
    ensures Balanced(FRESH)
  {
    forall kind ensures Measures(KindOf(FRESH, kind).sizes, OfKind(FRESH.cells, kind)) {
      assert OfKind(FRESH.cells, kind) == map[] && AsInts(map[]) == map[];
    }
    assert AsInts(FRESH.cells) == map[];
  }

  /** After any sequence of operations all sums agree. */
  lemma {:induction false} AccountingIsConserved(ops: seq<Op>)
    ensures Balanced(Run(ops))
  {
    hide Balanced, Record;
    if ops == [] {
      FreshIsBalanced();
    } else {
      AccountingIsConserved(ops[..|ops| - 1]);
      RecordBalanced(Run(ops[..|ops| - 1]), ops[|ops| - 1]);
    }
  }

  /** While the cached bytes fit a word the counters are exact, and no deletion can underflow. */
  lemma CountersAreExact(ops: seq<Op>, key: CellKey)
    ensures var l := Run(ops);
            Bytes(l.cells) < W && |l.cells| < W ==>
              && l.total.sizes.currentBytes == Bytes(l.cells) && l.total.sizes.currentCells == |l.cells|
              && KindOf(l, key.kind).sizes.currentBytes == Bytes(OfKind(l.cells, key.kind))
              && KindOf(l, key.kind).sizes.currentCells == |OfKind(l.cells, key.kind)|
              && (key in l.cells ==>
                    && l.cells[key] <= KindOf(l, key.kind).sizes.currentBytes <= l.total.sizes.currentBytes
                    && 1 <= KindOf(l, key.kind).sizes.currentCells <= l.total.sizes.currentCells)
  {
    hide Run, Bytes, KindsAddUp, SourcesAddUp, AllHitsAndMisses, KindOf, OfKind, Measures;
    var l := Run(ops);
    AccountingIsConserved(ops);
    PartIsNoMore(l.cells, key.kind);
    CellIsPart(l.cells, key);
    if Bytes(l.cells) < W && |l.cells| < W {
      MeasuresExactly(l.total.sizes, l.cells);
      MeasuresExactly(KindOf(l, key.kind).sizes, OfKind(l.cells, key.kind));
    }
  }

  lemma MeasuresExactly(s: Sizes, m: map<CellKey, Word>)
    requires Measures(s, m) && 0 <= Bytes(m) < W && |m| < W
    ensures s.currentBytes == Bytes(m) && s.currentCells == |m|
  {
    hide Bytes;
  }

  lemma CellIsPart(m: map<CellKey, Word>, key: CellKey)
    ensures key in m ==> m[key] <= Bytes(OfKind(m, key.kind)) && 1 <= |OfKind(m, key.kind)|
  {
    hide Bytes;
    if key in m {
      var part := OfKind(m, key.kind);
      assert key in part && part[key] == m[key];
      BytesWithout(part, key);
      BytesBound(part - {key});
    }
  }

  lemma BytesBound(m: map<CellKey, Word>)
    ensures Bytes(m) >= 0
  {
    TotalBounds(AsInts(m), CellKey("", "", ""));
  }

  lemma {:induction false} PartIsNoMore(m: map<CellKey, Word>, kind: string)
    ensures 0 <= Bytes(OfKind(m, kind)) <= Bytes(m) && |OfKind(m, kind)| <= |m|
    decreases |m|
  {
    hide Bytes;
    if c :| c in m {
      PartIsNoMore(m - {c}, kind);
      BytesWithout(m, c);
      BytesWithout(OfKind(m, kind), c);
      assert OfKind(m - {c}, kind) == OfKind(m, kind) - {c};
    } else {
      assert OfKind(m, kind) == m == map[];
      NoBytes();
    }
  }

  lemma NoBytes()
    ensures Bytes(map[]) == 0
  {
    assert AsInts(map[]) == map[];
  }

  // ------------------------------------------------- counters and the history

  datatype Counter = Requests | FreshHits | Misses | FetchAttempts | FetchErrors

  function Read(c: Counts, counter: Counter): Word {
    match counter
    case Requests => c.requests
    case FreshHits => c.freshHits
    case Misses => c.misses
    case FetchAttempts => c.fetchAttempts
    case FetchErrors => c.fetchErrors
  }

  /** Which operations a counter is there to count. */
  predicate Concerns(op: Op, counter: Counter) {
    match counter
    case Requests => op.Request?
    case FreshHits => op.Request? && op.hit
    case Misses => op.Request? && !op.hit
    case FetchAttempts => op.FetchAttempt?
    case FetchErrors => op.FetchResult? && op.failed
  }

  function SeenOfKind(ops: seq<Op>, counter: Counter, kind: string): nat {
    if ops == [] then 0
    else
      var op := ops[|ops| - 1];
      SeenOfKind(ops[..|ops| - 1], counter, kind) + if Concerns(op, counter) && op.kind == kind then 1 else 0
  }

  /** An operation without a source counts for "api". */
  predicate CountsFor(named: string, source: string) {
    if named == "" then source == "api" else source == named
  }

  function SeenFrom(ops: seq<Op>, counter: Counter, source: string): nat {
    if ops == [] then 0
    else
      var op := ops[|ops| - 1];
      SeenFrom(ops[..|ops| - 1], counter, source)
      + if Concerns(op, counter) && CountsFor(op.source, source) then 1 else 0
  }

  function One(b: bool): Word {
    if b then 1 else 0
  }

  lemma Stepped(n: nat, w: Word, b: bool)
    requires w == n % W
    ensures Plus(w, One(b)) == (n + One(b)) % W
  {
  }

  lemma KindStep(l: Ledger, op: Op, counter: Counter, kind: string)
    ensures Read(KindOf(Record(l, op), kind).counts, counter)
         == Plus(Read(KindOf(l, kind).counts, counter), One(Concerns(op, counter) && op.kind == kind))
  {
    PlusZero();
    hide Plus, Minus, PlusSizes;
  }

  lemma SourceStep(l: Ledger, op: Op, counter: Counter, source: string)
    ensures Read(SourceOf(Record(l, op), source), counter)
         == Plus(Read(SourceOf(l, source), counter), One(Concerns(op, counter) && NormalizeSource(op.source) == source))
  {
    PlusZero();
    hide Plus, Minus, PlusSizes, NormalizeSource;
  }

  /** Every counter of a kind is the number of the operations it counts. */
  lemma {:induction false} KindCountersCount(ops: seq<Op>, counter: Counter, kind: string)
    ensures Read(KindOf(Run(ops), kind).counts, counter) == SeenOfKind(ops, counter, kind) % W
  {
    if ops != [] {
      hide Plus, Record, KindOf, Read;
      var front, op := ops[..|ops| - 1], ops[|ops| - 1];
      KindCountersCount(front, counter, kind);
      KindStep(Run(front), op, counter, kind);
      Stepped(SeenOfKind(front, counter, kind), Read(KindOf(Run(front), kind).counts, counter), Concerns(op, counter) && op.kind == kind);
    }
  }

  /** Likewise for a source; operations that name no source are counted under "api". */
  lemma {:induction false} SourceCountersCount(ops: seq<Op>, counter: Counter, source: string)
    ensures Read(SourceOf(Run(ops), source), counter) == SeenFrom(ops, counter, source) % W
  {
    if ops != [] {
      hide Plus, Record, SourceOf, Read;
      var front, op := ops[..|ops| - 1], ops[|ops| - 1];
      SourceCountersCount(front, counter, source);
      SourceStep(Run(front), op, counter, source);
      Stepped(SeenFrom(front, counter, source), Read(SourceOf(Run(front), source), counter),
              Concerns(op, counter) && NormalizeSource(op.source) == source);
    }
  }

  // ------------------------------------------------------- bytes and the history

  /** The payloads that were fetched for a kind, or hydrated for it. */
  function PayloadOf(op: Op, kind: string, hydrated: bool): nat {
    match op
    case FetchResult(_, k, payload, failed) => if !hydrated && k == kind && !failed && payload > 0 then payload else 0
    case Hydration(k, payload) => if hydrated && k == kind && payload > 0 then payload else 0
    case _ => 0
  }

  function Payloads(ops: seq<Op>, kind: string, hydrated: bool): nat {
    if ops == [] then 0 else Payloads(ops[..|ops| - 1], kind, hydrated) + PayloadOf(ops[|ops| - 1], kind, hydrated)
  }

  function Volume(t: Tally, hydrated: bool): Word {
    if hydrated then t.sizes.hydratedBytes else t.sizes.liveBytes
  }

  lemma VolumeStep(l: Ledger, op: Op, kind: string, hydrated: bool)
    ensures PayloadOf(op, kind, hydrated) < W
    ensures Volume(KindOf(Record(l, op), kind), hydrated) == Plus(Volume(KindOf(l, kind), hydrated), PayloadOf(op, kind, hydrated))
  {
    PlusZero();
    hide Plus, Minus, PlusCounts;
  }

  /** The live and the hydrated bytes of a kind are the sums of what was reported for it. */
  lemma {:induction false} VolumesAddUp(ops: seq<Op>, kind: string, hydrated: bool)
    ensures Volume(KindOf(Run(ops), kind), hydrated) == Payloads(ops, kind, hydrated) % W
  {
    if ops != [] {
      hide Plus, Record, KindOf, Volume, PayloadOf;
      var front, op := ops[..|ops| - 1], ops[|ops| - 1];
      VolumesAddUp(front, kind, hydrated);
      VolumeStep(Run(front), op, kind, hydrated);
      ModPlus(Payloads(front, kind, hydrated), PayloadOf(op, kind, hydrated), PayloadOf(op, kind, hydrated));
    }
  }

  // ------------------------------------------------------- cells and the history

  /** The operation sets or removes the entry of the cell. */
  predicate Settles(op: Op, c: CellKey) {
    (op.CacheWrite? && op.key == c && op.payload >= 0) || (op.CacheDelete? && op.key == c)
  }

  /** The size was reported for the cell, and nothing about the cell since. */
  ghost predicate LastReported(ops: seq<Op>, c: CellKey, n: Int64) {
    n >= 0 && exists i :: 0 <= i < |ops| && ops[i] == CacheWrite(c, n) && forall k :: i < k < |ops| ==> !Settles(ops[k], c)
  }

  lemma LastReportedStep(ops: seq<Op>, op: Op, c: CellKey, n: Int64)
    ensures LastReported(ops + [op], c, n) <==> (n >= 0 && op == CacheWrite(c, n)) || (LastReported(ops, c, n) && !Settles(op, c))
  {
    var all := ops + [op];
    if n >= 0 && op == CacheWrite(c, n) {
      assert all[|ops|] == CacheWrite(c, n);
    }
    if LastReported(ops, c, n) && !Settles(op, c) {
      var i :| 0 <= i < |ops| && ops[i] == CacheWrite(c, n) && forall k :: i < k < |ops| ==> !Settles(ops[k], c);
      assert all[i] == CacheWrite(c, n);
    }
    if LastReported(all, c, n) && op != CacheWrite(c, n) {
      var i :| 0 <= i < |all| && all[i] == CacheWrite(c, n) && forall k :: i < k < |all| ==> !Settles(all[k], c);
      assert !Settles(all[|ops|], c) && ops[i] == CacheWrite(c, n);
      assert forall k :: i < k < |ops| ==> ops[k] == all[k];
    }
  }

  lemma CellStep(l: Ledger, op: Op, c: CellKey, n: Int64)
    ensures var cells := Record(l, op).cells;
            (c in cells && cells[c] == n) <==> (n >= 0 && op == CacheWrite(c, n)) || (c in l.cells && l.cells[c] == n && !Settles(op, c))
  {
    hide Plus, Minus, PlusTally, PlusCounts, PlusSizes;
  }

  /** The ledger knows for each cell the size reported last, unless the cell was deleted since; a negative size is no report. */
  lemma {:induction false} CellsAreLastReported(ops: seq<Op>, c: CellKey, n: Int64)
    ensures (c in Run(ops).cells && Run(ops).cells[c] == n) <==> LastReported(ops, c, n)
  {
    hide Record, LastReported, Settles;
    if ops == [] {
      NothingReported(c, n);
    } else {
      var front, op := ops[..|ops| - 1], ops[|ops| - 1];
      CellsAreLastReported(front, c, n);
      CellStep(Run(front), op, c, n);
      LastReportedStep(front, op, c, n);
      assert ops == front + [op];
    }
  }

  lemma NothingReported(c: CellKey, n: Int64)
    ensures !LastReported([], c, n)
  {
  }
}

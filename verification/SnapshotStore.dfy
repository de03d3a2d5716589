/**
 The snapshot stores and the session statistics as classes: each method edits its fields
 the way the source does and is shown to take the step of the specification.
*/
module SnapshotStore {
  import opened Options
  import opened Accounting

  /** `observedAt` is None for the zero time; `body` stands for the rest of the snapshot. */
  datatype Snap = Snap(observedAt: Option<int>, revision: Word, body: string)

  /** The size of an encoded snapshot, as estimateSnapshotPayloadBytes gives it. */
  type Size = x: int | 0 <= x < 0x8000_0000_0000_0000

  // -------------------------------------------------------------- specification

  /** What a namespaced store holds: snapshots, and a revision for every namespace it has heard of. */
  datatype Space = Space(snaps: map<string, Snap>, revs: map<string, Word>)

  function RevOf(s: Space, ns: string): Word {
    if ns in s.revs then s.revs[ns] else 0
  }

  function Stored(s: Space, ns: string, snap: Snap): Space {
    var rev := Plus(RevOf(s, ns), 1);
    Space(s.snaps[ns := snap.(revision := rev)], s.revs[ns := rev])
  }

  function Cleared(s: Space, ns: string): Space {
    Space(s.snaps - {ns}, s.revs[ns := Plus(RevOf(s, ns), 1)])
  }

  /** What the statistics are told of a write; a store without a kind tells nothing. */
  function ToldWrite(l: Ledger, cluster: string, kind: string, ns: string, size: Size): Ledger {
    if kind == "" then l else Record(l, CacheWrite(CellKey(cluster, kind, ns), size))
  }

  function ToldDelete(l: Ledger, cluster: string, kind: string, ns: string): Ledger {
    if kind == "" then l else Record(l, CacheDelete(CellKey(cluster, kind, ns)))
  }

  // ----------------------------------------------------------------- statistics

  class SessionStats {
    var requestsTotal: Word
    var freshHits: Word
    var misses: Word
    var fetchAttempts: Word
    var fetchErrors: Word
    var liveBytes: Word
    var hydratedBytes: Word
    var currentBytes: Word
    var currentCells: Word
    var bySource: map<string, Counts>
    var byKind: map<string, Tally>
    var cacheCellBytes: map<CellKey, Word>

    ghost function View(): Ledger
      reads this
    {
      Ledger(Tally(Counts(requestsTotal, freshHits, misses, fetchAttempts, fetchErrors),
                   Sizes(liveBytes, hydratedBytes, currentBytes, currentCells)),
             bySource, byKind, cacheCellBytes)
    }

    constructor ()
      ensures View() == FRESH
    {
      requestsTotal, freshHits, misses, fetchAttempts, fetchErrors := 0, 0, 0, 0, 0;
      liveBytes, hydratedBytes, currentBytes, currentCells := 0, 0, 0, 0;
      bySource, byKind, cacheCellBytes := map[], map[], map[];
    }

    /** ensureSourceLocked: the entry, or zeros for one that is to be made. */
    function SourceEntry(source: string): Counts
      reads this
    {
      if source in bySource then bySource[source] else NO_COUNTS
    }

    function KindEntry(kind: string): Tally
      reads this
    {
      if kind in byKind then byKind[kind] else NOTHING
    }

    method RecordRequest(source: string, kind: string, hit: bool)
      modifies this
      ensures View() == Record(old(View()), Request(source, kind, hit))
    {
      hide Plus, Record;
      SpelledRequest(View(), source, kind, hit);
      var s := NormalizeSource(source);
      requestsTotal := Plus(requestsTotal, 1);
      var src := SourceEntry(s);
      src := src.(requests := Plus(src.requests, 1));
      var k := KindEntry(kind);
      k := k.(counts := k.counts.(requests := Plus(k.counts.requests, 1)));
      if hit {
        freshHits := Plus(freshHits, 1);
        src := src.(freshHits := Plus(src.freshHits, 1));
        k := k.(counts := k.counts.(freshHits := Plus(k.counts.freshHits, 1)));
      } else {
        misses := Plus(misses, 1);
        src := src.(misses := Plus(src.misses, 1));
        k := k.(counts := k.counts.(misses := Plus(k.counts.misses, 1)));
      }
      bySource := bySource[s := src];
      byKind := byKind[kind := k];
    }

    method RecordFetchAttempt(source: string, kind: string)
      modifies this
      ensures View() == Record(old(View()), FetchAttempt(source, kind))
    {
      hide Plus, Record;
      SpelledAttempt(View(), source, kind);
      var s := NormalizeSource(source);
      fetchAttempts := Plus(fetchAttempts, 1);
      var src := SourceEntry(s);
      bySource := bySource[s := src.(fetchAttempts := Plus(src.fetchAttempts, 1))];
      var k := KindEntry(kind);
      byKind := byKind[kind := k.(counts := k.counts.(fetchAttempts := Plus(k.counts.fetchAttempts, 1)))];
    }

    method RecordFetchResult(source: string, kind: string, payload: Int64, failed: bool)
      modifies this
      ensures View() == Record(old(View()), FetchResult(source, kind, payload, failed))
    {
      hide Plus, Record;
      var s := NormalizeSource(source);
      if failed {
        SpelledError(View(), source, kind, payload);
        fetchErrors := Plus(fetchErrors, 1);
        var src := SourceEntry(s);
        bySource := bySource[s := src.(fetchErrors := Plus(src.fetchErrors, 1))];
        var k := KindEntry(kind);
        byKind := byKind[kind := k.(counts := k.counts.(fetchErrors := Plus(k.counts.fetchErrors, 1)))];
        return;
      }
      if payload <= 0 {
        NothingToRecord(View(), FetchResult(source, kind, payload, failed));
        return;
      }
      SpelledBytes(View(), source, kind, payload);
      liveBytes := Plus(liveBytes, payload);
      var k := KindEntry(kind);
      byKind := byKind[kind := k.(sizes := k.sizes.(liveBytes := Plus(k.sizes.liveBytes, payload)))];
    }

    method RecordHydration(kind: string, payload: Int64)
      modifies this
      ensures View() == Record(old(View()), Hydration(kind, payload))
    {
      hide Plus, Record;
      if payload <= 0 {
        NothingToRecord(View(), Hydration(kind, payload));
        return;
      }
      SpelledBytes(View(), "", kind, payload);
      hydratedBytes := Plus(hydratedBytes, payload);
      var k := KindEntry(kind);
      byKind := byKind[kind := k.(sizes := k.sizes.(hydratedBytes := Plus(k.sizes.hydratedBytes, payload)))];
    }

    method RecordCacheWrite(cluster: string, kind: string, namespace: string, payload: Int64)
      modifies this
      ensures View() == Record(old(View()), CacheWrite(CellKey(cluster, kind, namespace), payload))
    {
      hide Plus, Minus, Record;
      var key := CellKey(cluster, kind, namespace);
      if payload < 0 {
        NothingToRecord(View(), CacheWrite(key, payload));
        return;
      }
      SpelledWrite(View(), key, payload);
      var newBytes: Word := payload;
      var existed := key in cacheCellBytes;
      var oldBytes: Word := if existed then cacheCellBytes[key] else 0;
      cacheCellBytes := cacheCellBytes[key := newBytes];
      if !existed {
        currentCells := Plus(currentCells, 1);
        var k := KindEntry(kind);
        k := k.(sizes := k.sizes.(currentCells := Plus(k.sizes.currentCells, 1)));
        byKind := byKind[kind := k];
      }
      if newBytes >= oldBytes {
        var diff := Minus(newBytes, oldBytes);
        currentBytes := Plus(currentBytes, diff);
        var k := KindEntry(kind);
        k := k.(sizes := k.sizes.(currentBytes := Plus(k.sizes.currentBytes, diff)));
        Overwrite(old(byKind), kind, KindEntry(kind), k);
        byKind := byKind[kind := k];
        return;
      }
      var diff := Minus(oldBytes, newBytes);
      currentBytes := Minus(currentBytes, diff);
      var k := KindEntry(kind);
      k := k.(sizes := k.sizes.(currentBytes := Minus(k.sizes.currentBytes, diff)));
      Overwrite(old(byKind), kind, KindEntry(kind), k);
      byKind := byKind[kind := k];
    }

    method RecordCacheDelete(cluster: string, kind: string, namespace: string)
      modifies this
      ensures View() == Record(old(View()), CacheDelete(CellKey(cluster, kind, namespace)))
    {
      hide Plus, Minus, Record;
      var key := CellKey(cluster, kind, namespace);
      if key !in cacheCellBytes {
        NothingToRecord(View(), CacheDelete(key));
        return;
      }
      SpelledDelete(View(), key);
      var oldBytes := cacheCellBytes[key];
      cacheCellBytes := cacheCellBytes - {key};
      currentBytes := Minus(currentBytes, oldBytes);
      currentCells := Minus(currentCells, 1);
      var k := KindEntry(kind);
      byKind := byKind[kind := k.(sizes := k.sizes.(currentBytes := Minus(k.sizes.currentBytes, oldBytes),
                                                    currentCells := Minus(k.sizes.currentCells, 1)))];
    }
  }

  // --------------------------------------------------------------------- stores

  class NamespacedStore {
    var snaps: map<string, Snap>
    var nsRev: map<string, Word>
    const stats: SessionStats?
    const cluster: string
    const kind: string
    const estimate: Snap -> Size

    ghost function View(): Space
      reads this
    {
      Space(snaps, nsRev)
    }

    constructor (stats: SessionStats?, cluster: string, kind: string, estimate: Snap -> Size)
      ensures View() == Space(map[], map[])
      ensures this.stats == stats && this.cluster == cluster && this.kind == kind && this.estimate == estimate
    {
      this.stats, this.cluster, this.kind, this.estimate := stats, cluster, kind, estimate;
      snaps, nsRev := map[], map[];
    }

    method Bump(namespace: string) returns (rev: Word)
      modifies this`nsRev
      ensures rev == Plus(RevOf(old(View()), namespace), 1) && nsRev == old(nsRev)[namespace := rev]
    {
      rev := if namespace in nsRev then Plus(nsRev[namespace], 1) else Plus(0, 1);
      nsRev := nsRev[namespace := rev];
    }

    method Set(namespace: string, snap: Snap)
      modifies this, if stats == null then {} else {stats}
      ensures View() == Stored(old(View()), namespace, snap)
      ensures snaps.Keys == old(snaps.Keys) + {namespace}
      ensures snaps[namespace].observedAt == snap.observedAt && snaps[namespace].body == snap.body
      ensures forall ns <- old(snaps) :: ns != namespace ==> snaps[ns] == old(snaps)[ns]
      ensures stats != null ==>
                stats.View() == ToldWrite(old(stats.View()), cluster, kind, namespace,
                                          estimate(snap.(revision := RevOf(View(), namespace))))
    {
      hide Record;
      var rev := Bump(namespace);
      var stamped := snap.(revision := rev);
      snaps := snaps[namespace := stamped];
      if stats != null && kind != "" {
        stats.RecordCacheWrite(cluster, kind, namespace, estimate(stamped));
      }
    }

    method Clear(namespace: string)
      modifies this, if stats == null then {} else {stats}
      ensures View() == Cleared(old(View()), namespace)
      ensures snaps.Keys == old(snaps.Keys) - {namespace}
      ensures forall ns <- snaps :: snaps[ns] == old(snaps)[ns]
      ensures stats != null ==> stats.View() == ToldDelete(old(stats.View()), cluster, kind, namespace)
    {
      hide Record;
      var rev := Bump(namespace);
      snaps := snaps - {namespace};
      if stats != null && kind != "" {
        stats.RecordCacheDelete(cluster, kind, namespace);
      }
    }

    /** peekNamespacedSnapshot and getCached: a stored snapshot whose time is set. */
    method Peek(namespace: string) returns (r: Option<Snap>)
      ensures r.Some? <==> namespace in snaps && snaps[namespace].observedAt.Some?
      ensures r.Some? ==> r.value == snaps[namespace]
    {
      if namespace !in snaps || snaps[namespace].observedAt == None {
        return None;
      }
      return Some(snaps[namespace]);
    }

    /** getFresh: a known snapshot younger than `ttl`. */
    method GetFresh(namespace: string, ttl: int, now: int) returns (r: Option<Snap>)
      ensures r.Some? <==> namespace in snaps && snaps[namespace].observedAt.Some? && now - snaps[namespace].observedAt.value < ttl
      ensures r.Some? ==> r.value == snaps[namespace]
    {
      var known := Peek(namespace);
      if known == None || now - known.value.observedAt.value >= ttl {
        return None;
      }
      return known;
    }

    /** peekAllNamespacedSnapshots. */
    method PeekAll() returns (out: map<string, Snap>)
      ensures out == map ns <- snaps | snaps[ns].observedAt.Some? :: snaps[ns]
    {
      out := map[];
      var rest := snaps.Keys;
      while rest != {}
        invariant rest <= snaps.Keys
        invariant out == map ns <- snaps.Keys - rest | snaps[ns].observedAt.Some? :: snaps[ns]
      {
        var ns :| ns in rest;
        rest := rest - {ns};
        if snaps[ns].observedAt == None {
          continue;
        }
        out := out[ns := snaps[ns]];
      }
    }
  }

  /** A store of one cluster-wide snapshot; None is the zero value it starts with. */
  class ClusterStore {
    var rev: Word
    var snap: Option<Snap>
    const stats: SessionStats?
    const cluster: string
    const kind: string
    const estimate: Snap -> Size

    constructor (stats: SessionStats?, cluster: string, kind: string, estimate: Snap -> Size)
      ensures rev == 0 && snap == None
      ensures this.stats == stats && this.cluster == cluster && this.kind == kind && this.estimate == estimate
    {
      this.stats, this.cluster, this.kind, this.estimate := stats, cluster, kind, estimate;
      rev, snap := 0, None;
    }

    method Set(next: Snap)
      modifies this, if stats == null then {} else {stats}
      ensures rev == Plus(old(rev), 1) && snap == Some(next.(revision := rev))
      ensures stats != null ==>
                stats.View() == ToldWrite(old(stats.View()), cluster, kind, "", estimate(next.(revision := rev)))
    {
      hide Record;
      rev := Plus(rev, 1);
      var stamped := next.(revision := rev);
      snap := Some(stamped);
      if stats != null && kind != "" {
        stats.RecordCacheWrite(cluster, kind, "", estimate(stamped));
      }
    }

    method Peek() returns (r: Option<Snap>)
      ensures r.Some? <==> snap.Some? && snap.value.observedAt.Some?
      ensures r.Some? ==> r == snap
    {
      if snap == None || snap.value.observedAt == None {
        return None;
      }
      return snap;
    }
  }
}

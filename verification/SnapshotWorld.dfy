/**
 All stores of a manager together with the statistics they share, over whole runs: the cells
 the statistics count are exactly the snapshots stored, and revisions only go up.
*/
module SnapshotWorld {
  import opened Options
  import opened Accounting
  import opened SnapshotStore

  datatype Plane = Plane(cluster: string, kind: string)

  datatype Store =
    | Spaces(space: Space)
    | Wide(rev: Word, snap: Option<Snap>)

  datatype World = World(ledger: Ledger, stores: map<Plane, Store>)

  datatype Event =
    | Put(plane: Plane, ns: string, snap: Snap)
    | Clear(plane: Plane, ns: string)
    | PutWide(plane: Plane, snap: Snap)
    | Other(op: Op)

  const START := World(FRESH, map[])

  function SpaceAt(w: World, p: Plane): Space {
    if p in w.stores && w.stores[p].Spaces? then w.stores[p].space else Space(map[], map[])
  }

  function WideRev(w: World, p: Plane): Word {
    if p in w.stores && w.stores[p].Wide? then w.stores[p].rev else 0
  }

  function Step(w: World, e: Event, estimate: Snap -> Size): World {
    match e
    case Put(p, ns, snap) =>
      var s := Stored(SpaceAt(w, p), ns, snap);
      World(ToldWrite(w.ledger, p.cluster, p.kind, ns, estimate(s.snaps[ns])), w.stores[p := Spaces(s)])
    case Clear(p, ns) =>
      World(ToldDelete(w.ledger, p.cluster, p.kind, ns), w.stores[p := Spaces(Cleared(SpaceAt(w, p), ns))])
    case PutWide(p, snap) =>
      var rev := Plus(WideRev(w, p), 1);
      var stamped := snap.(revision := rev);
      World(ToldWrite(w.ledger, p.cluster, p.kind, "", estimate(stamped)), w.stores[p := Wide(rev, Some(stamped))])
    case Other(op) => w.(ledger := Record(w.ledger, op))
  }

  function Run(es: seq<Event>, estimate: Snap -> Size): World {
    if es == [] then START else Step(Run(es[..|es| - 1], estimate), es[|es| - 1], estimate)
  }

  /** Each kind has stores of one sort, and only the stores report cached data. */
  predicate Typed(e: Event, wide: set<string>) {
    match e
    case Put(p, _, _) => p.kind !in wide
    case Clear(p, _) => p.kind !in wide
    case PutWide(p, _) => p.kind in wide
    case Other(op) => !op.CacheWrite? && !op.CacheDelete?
  }

  predicate AllTyped(es: seq<Event>, wide: set<string>) {
    forall e <- es :: Typed(e, wide)
  }

  // ----------------------------------------------------- cells are the snapshots

  /** The snapshot that is stored for a cell. */
  function StoredAt(w: World, c: CellKey): Option<Snap> {
    var p := Plane(c.cluster, c.kind);
    if p !in w.stores then None
    else match w.stores[p]
      case Spaces(s) => if c.namespace in s.snaps then Some(s.snaps[c.namespace]) else None
      case Wide(_, snap) => if c.namespace == "" then snap else None
  }

  ghost predicate OneSort(w: World, wide: set<string>) {
    forall p <- w.stores :: w.stores[p].Wide? <==> p.kind in wide
  }

  /** The counted cells are the stored snapshots, with their sizes. */
  ghost predicate Mirrored(w: World, estimate: Snap -> Size) {
    forall c {:trigger MirroredAt(w, c, estimate)} :: MirroredAt(w, c, estimate)
  }

  ghost predicate MirroredAt(w: World, c: CellKey, estimate: Snap -> Size) {
    && (c in w.ledger.cells <==> c.kind != "" && StoredAt(w, c).Some?)
    && (c in w.ledger.cells ==> w.ledger.cells[c] == estimate(StoredAt(w, c).value))
  }

  lemma StepKeepsSorts(w: World, e: Event, estimate: Snap -> Size, wide: set<string>)
    requires OneSort(w, wide) && Typed(e, wide)
    ensures OneSort(Step(w, e, estimate), wide)
  {
    hide Record, Plus, ToldWrite, ToldDelete, Stored, Cleared;
  }

  /** What the operations do to the cells. */
  lemma CellsAfter(l: Ledger, op: Op)
    ensures Record(l, op).cells
         == match op
            case CacheWrite(key, payload) => if payload < 0 then l.cells else l.cells[key := payload]
            case CacheDelete(key) => l.cells - {key}
            case _ => l.cells
  {
    hide PlusTally, PlusCounts, Minus;
    if op.CacheDelete? && op.key !in l.cells {
      assert l.cells - {op.key} == l.cells;
    }
  }

  lemma StepMirrors(w: World, e: Event, estimate: Snap -> Size, wide: set<string>)
    requires OneSort(w, wide) && Typed(e, wide) && Mirrored(w, estimate)
    ensures Mirrored(Step(w, e, estimate), estimate)
  {
    hide Record, Plus;
    var w' := Step(w, e, estimate);
    match e {
      case Put(p, ns, snap) => CellsAfter(w.ledger, CacheWrite(CellKey(p.cluster, p.kind, ns), estimate(SpaceAt(w', p).snaps[ns])));
      case Clear(p, ns) => CellsAfter(w.ledger, CacheDelete(CellKey(p.cluster, p.kind, ns)));
      case PutWide(p, snap) => CellsAfter(w.ledger, CacheWrite(CellKey(p.cluster, p.kind, ""), estimate(w'.stores[p].snap.value)));
      case Other(op) => CellsAfter(w.ledger, op);
    }
    forall c ensures MirroredAt(w', c, estimate) {
      assert MirroredAt(w, c, estimate);
    }
  }

  lemma StepBalanced(w: World, e: Event, estimate: Snap -> Size)
    requires Balanced(w.ledger)
    ensures Balanced(Step(w, e, estimate).ledger)
  {
    hide Balanced, Record, Plus;
    match e
    case Put(p, ns, snap) => RecordBalanced(w.ledger, CacheWrite(CellKey(p.cluster, p.kind, ns), estimate(SpaceAt(Step(w, e, estimate), p).snaps[ns])));
    case Clear(p, ns) => RecordBalanced(w.ledger, CacheDelete(CellKey(p.cluster, p.kind, ns)));
    case PutWide(p, snap) => RecordBalanced(w.ledger, CacheWrite(CellKey(p.cluster, p.kind, ""), estimate(snap.(revision := Plus(WideRev(w, p), 1)))));
    case Other(op) => RecordBalanced(w.ledger, op);
  }

  lemma {:induction false} RunKeepsAll(es: seq<Event>, estimate: Snap -> Size, wide: set<string>)
    requires AllTyped(es, wide)
    ensures var w := Run(es, estimate);
            OneSort(w, wide) && Mirrored(w, estimate) && Balanced(w.ledger)
  {
    hide Balanced, Step, Mirrored, OneSort, Typed;
    if es == [] {
      StartIsInOrder(estimate, wide);
    } else {
      var front, e := es[..|es| - 1], es[|es| - 1];
      assert forall f <- front :: f in es;
      assert e in es;
      RunKeepsAll(front, estimate, wide);
      StepKeepsSorts(Run(front, estimate), e, estimate, wide);
      StepMirrors(Run(front, estimate), e, estimate, wide);
      StepBalanced(Run(front, estimate), e, estimate);
    }
  }

  lemma StartIsInOrder(estimate: Snap -> Size, wide: set<string>)
    ensures OneSort(START, wide) && Mirrored(START, estimate) && Balanced(START.ledger)
  {
    FreshIsBalanced();
  }

  /** The current bytes and cells of the session are, in 64 bits, those of the snapshots stored. */
  lemma CellsAreTheSnapshots(es: seq<Event>, estimate: Snap -> Size, wide: set<string>, c: CellKey)
    requires AllTyped(es, wide)
    ensures var w := Run(es, estimate);
            && (c in w.ledger.cells <==> c.kind != "" && StoredAt(w, c).Some?)
            && (c in w.ledger.cells ==> w.ledger.cells[c] == estimate(StoredAt(w, c).value))
            && w.ledger.total.sizes.currentBytes == Bytes(w.ledger.cells) % W
            && w.ledger.total.sizes.currentCells == |w.ledger.cells| % W
  {
    hide Run, Step, Bytes, KindsAddUp, SourcesAddUp, AllHitsAndMisses, OneSort, StoredAt;
    RunKeepsAll(es, estimate, wide);
    assert MirroredAt(Run(es, estimate), c, estimate);
  }

  // ------------------------------------------------------------------- contents

  /** The event stores or clears the cell. */
  predicate Touches(e: Event, c: CellKey) {
    match e
    case Put(p, ns, _) => p.cluster == c.cluster && p.kind == c.kind && ns == c.namespace
    case Clear(p, ns) => p.cluster == c.cluster && p.kind == c.kind && ns == c.namespace
    case PutWide(p, _) => p.cluster == c.cluster && p.kind == c.kind && c.namespace == ""
    case Other(_) => false
  }

  predicate SameContent(a: Snap, b: Snap) {
    a.observedAt == b.observedAt && a.body == b.body
  }

  predicate Writes(e: Event, c: CellKey, snap: Snap) {
    (e.Put? || e.PutWide?) && Touches(e, c) && SameContent(e.snap, snap)
  }

  /** The snapshot's content was written to the cell, and the cell has not been touched since. */
  ghost predicate LastWritten(es: seq<Event>, c: CellKey, snap: Snap) {
    exists i :: 0 <= i < |es| && Writes(es[i], c, snap) && forall k :: i < k < |es| ==> !Touches(es[k], c)
  }

  lemma LastWrittenStep(es: seq<Event>, e: Event, c: CellKey, snap: Snap)
    ensures LastWritten(es + [e], c, snap) <==> Writes(e, c, snap) || (LastWritten(es, c, snap) && !Touches(e, c))
  {
    var all := es + [e];
    if Writes(e, c, snap) {
      assert Writes(all[|es|], c, snap);
    }
    if LastWritten(es, c, snap) && !Touches(e, c) {
      var i :| 0 <= i < |es| && Writes(es[i], c, snap) && forall k :: i < k < |es| ==> !Touches(es[k], c);
      assert Writes(all[i], c, snap);
    }
    if LastWritten(all, c, snap) && !Writes(e, c, snap) {
      var i :| 0 <= i < |all| && Writes(all[i], c, snap) && forall k :: i < k < |all| ==> !Touches(all[k], c);
      assert !Touches(all[|es|], c) && Writes(es[i], c, snap);
      assert forall k :: i < k < |es| ==> es[k] == all[k];
    }
  }

  predicate HasContent(w: World, c: CellKey, snap: Snap) {
    StoredAt(w, c).Some? && SameContent(StoredAt(w, c).value, snap)
  }

  lemma StepWrites(w: World, e: Event, estimate: Snap -> Size, wide: set<string>, c: CellKey, snap: Snap)
    requires OneSort(w, wide) && Typed(e, wide)
    ensures HasContent(Step(w, e, estimate), c, snap) <==> Writes(e, c, snap) || (HasContent(w, c, snap) && !Touches(e, c))
  {
    hide Record, Plus, ToldWrite, ToldDelete;
  }

  /** In every run, a store holds for a cell exactly the content written to it last, and nothing once it was cleared. */
  lemma {:induction false} StoredIsLastWritten(es: seq<Event>, estimate: Snap -> Size, wide: set<string>, c: CellKey, snap: Snap)
    requires AllTyped(es, wide)
    ensures HasContent(Run(es, estimate), c, snap) <==> LastWritten(es, c, snap)
  {
    hide Step, LastWritten, Typed, Writes, Touches, OneSort, HasContent, Balanced, Mirrored;
    if es == [] {
      NothingWritten(c, snap);
    } else {
      var front, e := es[..|es| - 1], es[|es| - 1];
      assert forall f <- front :: f in es;
      assert Typed(e, wide);
      StoredIsLastWritten(front, estimate, wide, c, snap);
      RunKeepsAll(front, estimate, wide);
      StepWrites(Run(front, estimate), e, estimate, wide, c, snap);
      LastWrittenStep(front, e, c, snap);
      assert es == front + [e];
    }
  }

  lemma NothingWritten(c: CellKey, snap: Snap)
    ensures !HasContent(START, c, snap) && !LastWritten([], c, snap)
  {
  }

  // ------------------------------------------------------------------ revisions

  predicate IsUpdate(e: Event, p: Plane, ns: string) {
    (e.Put? || e.Clear?) && e.plane == p && e.ns == ns
  }

  /** How often a namespace was stored or cleared. */
  function Updates(es: seq<Event>, p: Plane, ns: string): nat {
    if es == [] then 0
    else
      var e := es[|es| - 1];
      Updates(es[..|es| - 1], p, ns) + One(IsUpdate(e, p, ns))
  }

  lemma StepRevision(w: World, e: Event, estimate: Snap -> Size, wide: set<string>, p: Plane, ns: string)
    requires Typed(e, wide) && p.kind !in wide
    requires var s := SpaceAt(w, p); ns in s.snaps ==> s.snaps[ns].revision == RevOf(s, ns)
    ensures var s, s' := SpaceAt(w, p), SpaceAt(Step(w, e, estimate), p);
            && RevOf(s', ns) == (if IsUpdate(e, p, ns) then Plus(RevOf(s, ns), 1) else RevOf(s, ns))
            && (ns in s'.snaps ==> s'.snaps[ns].revision == RevOf(s', ns))
  {
    hide Record, Plus, ToldWrite, ToldDelete;
  }

  lemma {:induction false} RevisionCountsUpdates(es: seq<Event>, estimate: Snap -> Size, wide: set<string>, p: Plane, ns: string)
    requires AllTyped(es, wide) && p.kind !in wide
    ensures var s := SpaceAt(Run(es, estimate), p);
            && RevOf(s, ns) == Updates(es, p, ns) % W
            && (ns in s.snaps ==> s.snaps[ns].revision == RevOf(s, ns))
  {
    hide Step, Plus, SpaceAt, RevOf, IsUpdate;
    if es != [] {
      var front, e := es[..|es| - 1], es[|es| - 1];
      assert forall f <- front :: f in es;
      assert Typed(e, wide);
      RevisionCountsUpdates(front, estimate, wide, p, ns);
      StepRevision(Run(front, estimate), e, estimate, wide, p, ns);
      Stepped(Updates(front, p, ns), RevOf(SpaceAt(Run(front, estimate), p), ns), IsUpdate(e, p, ns));
    } else {
      NoRevisions(p, ns);
    }
  }

  lemma NoRevisions(p: Plane, ns: string)
    ensures RevOf(SpaceAt(START, p), ns) == 0 && SpaceAt(START, p).snaps == map[]
  {
  }

  lemma {:induction false} UpdatesGrow(es: seq<Event>, i: nat, p: Plane, ns: string)
    requires i <= |es|
    ensures Updates(es[..i], p, ns) <= Updates(es, p, ns)
    ensures Updates(es[..i], p, ns) == Updates(es, p, ns) <==>
              forall k :: i <= k < |es| ==> !IsUpdate(es[k], p, ns)
  {
    if i == |es| {
      assert es[..i] == es;
    } else {
      var n := |es| - 1;
      UpdatesGrow(es[..n], i, p, ns);
      assert es[..n][..i] == es[..i];
      assert forall k :: i <= k < n ==> es[..n][k] == es[k];
    }
  }

  /**
   A snapshot seen later has a larger revision, unless nothing was stored or cleared in
   between; clearing does not start the count again. This holds until a namespace has been
   updated 2^64 times.
  */
  lemma RevisionsIncrease(es: seq<Event>, i: nat, estimate: Snap -> Size, wide: set<string>, p: Plane, ns: string)
    requires AllTyped(es, wide) && p.kind !in wide && i <= |es|
    ensures var s, s' := SpaceAt(Run(es[..i], estimate), p), SpaceAt(Run(es, estimate), p);
            ns in s.snaps && ns in s'.snaps && Updates(es, p, ns) < W ==>
              && s.snaps[ns].revision <= s'.snaps[ns].revision
              && (s.snaps[ns].revision == s'.snaps[ns].revision <==>
                  forall k :: i <= k < |es| ==> !IsUpdate(es[k], p, ns))
  {
    hide Run, Step, Updates, Typed;
    assert forall f <- es[..i] :: f in es;
    RevisionCountsUpdates(es[..i], estimate, wide, p, ns);
    RevisionCountsUpdates(es, estimate, wide, p, ns);
    UpdatesGrow(es, i, p, ns);
  }

  // ------------------------------------------- revisions of cluster-wide stores

  function WideSnap(w: World, p: Plane): Option<Snap> {
    if p in w.stores && w.stores[p].Wide? then w.stores[p].snap else None
  }

  predicate IsWideUpdate(e: Event, p: Plane) {
    e.PutWide? && e.plane == p
  }

  lemma NoWideRevisions(p: Plane)
    ensures WideRev(START, p) == 0 && WideSnap(START, p) == None
  {
  }

  function WideUpdates(es: seq<Event>, p: Plane): nat {
    if es == [] then 0
    else WideUpdates(es[..|es| - 1], p) + One(IsWideUpdate(es[|es| - 1], p))
  }

  lemma StepWideRevision(w: World, e: Event, estimate: Snap -> Size, wide: set<string>, p: Plane)
    requires Typed(e, wide) && p.kind in wide
    requires WideSnap(w, p).Some? ==> WideSnap(w, p).value.revision == WideRev(w, p)
    ensures var w' := Step(w, e, estimate);
            && WideRev(w', p) == (if IsWideUpdate(e, p) then Plus(WideRev(w, p), 1) else WideRev(w, p))
            && (WideSnap(w', p).Some? ==> WideSnap(w', p).value.revision == WideRev(w', p))
  {
    hide Record, Plus, ToldWrite, ToldDelete;
  }

  /** The revision of a cluster-wide store is the number of its writes, and its snapshot carries it. */
  lemma {:induction false} WideRevisionCountsUpdates(es: seq<Event>, estimate: Snap -> Size, wide: set<string>, p: Plane)
    requires AllTyped(es, wide) && p.kind in wide
    ensures var w := Run(es, estimate);
            && WideRev(w, p) == WideUpdates(es, p) % W
            && (WideSnap(w, p).Some? ==> WideSnap(w, p).value.revision == WideRev(w, p))
  {
    hide Step, Plus, WideRev, WideSnap, Typed, IsWideUpdate;
    if es != [] {
      var front, e := es[..|es| - 1], es[|es| - 1];
      assert forall f <- front :: f in es;
      assert Typed(e, wide);
      WideRevisionCountsUpdates(front, estimate, wide, p);
      StepWideRevision(Run(front, estimate), e, estimate, wide, p);
      Stepped(WideUpdates(front, p), WideRev(Run(front, estimate), p), IsWideUpdate(e, p));
    } else {
      NoWideRevisions(p);
    }
  }

  lemma {:induction false} WideUpdatesGrow(es: seq<Event>, i: nat, p: Plane)
    requires i <= |es|
    ensures WideUpdates(es[..i], p) <= WideUpdates(es, p)
    ensures WideUpdates(es[..i], p) == WideUpdates(es, p) <==>
              forall k :: i <= k < |es| ==> !IsWideUpdate(es[k], p)
  {
    if i == |es| {
      assert es[..i] == es;
    } else {
      var n := |es| - 1;
      WideUpdatesGrow(es[..n], i, p);
      assert es[..n][..i] == es[..i];
      assert forall k :: i <= k < n ==> es[..n][k] == es[k];
    }
  }

  /** Of two snapshots of a cluster-wide store the later has the larger revision, unless nothing was written between. */
  lemma WideRevisionsIncrease(es: seq<Event>, i: nat, estimate: Snap -> Size, wide: set<string>, p: Plane)
    requires AllTyped(es, wide) && p.kind in wide && i <= |es|
    ensures var a, b := WideSnap(Run(es[..i], estimate), p), WideSnap(Run(es, estimate), p);
            a.Some? && b.Some? && WideUpdates(es, p) < W ==>
              && a.value.revision <= b.value.revision
              && (a.value.revision == b.value.revision <==> forall k :: i <= k < |es| ==> !IsWideUpdate(es[k], p))
  {
    hide Run, Step, WideUpdates, Typed, WideSnap;
    assert forall f <- es[..i] :: f in es;
    WideRevisionCountsUpdates(es[..i], estimate, wide, p);
    WideRevisionCountsUpdates(es, estimate, wide, p);
    WideUpdatesGrow(es, i, p);
  }
}

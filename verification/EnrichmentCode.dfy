/** The session and the coordinator as objects: the critical sections of the enrichment code. */
module EnrichmentCode {
  import opened Options
  import opened Enrichment

  datatype Item = Item(name: string, row: Row)

  /** The names of a list in order, and the last row of each. */
  function ListedNames(items: seq<Item>): seq<string> {
    if items == [] then []
    else
      var n := |items| - 1;
      ListedNames(items[..n]) + if items[n].name == "" then [] else [items[n].name]
  }

  function ListedRows(items: seq<Item>): map<string, Row> {
    if items == [] then map[]
    else
      var n := |items| - 1;
      if items[n].name == "" then ListedRows(items[..n]) else ListedRows(items[..n])[items[n].name := items[n].row]
  }

  method ListRows(items: seq<Item>) returns (order: seq<string>, merged: map<string, Row>)
    ensures order == ListedNames(items) && merged == ListedRows(items)
  {
    order, merged := [], map[];
    for i := 0 to |items|
      invariant order == ListedNames(items[..i]) && merged == ListedRows(items[..i])
    {
      assert items[..i + 1][..i] == items[..i];
      if items[i].name == "" {
        continue;
      }
      order := order + [items[i].name];
      merged := merged[items[i].name := items[i].row];
    }
    assert items[..|items|] == items;
  }

  /** How many of the first n items have a name. */
  function NamedBefore(items: seq<Item>, n: nat): nat
    requires n <= |items|
  {
    if n == 0 then 0 else NamedBefore(items, n - 1) + if items[n - 1].name == "" then 0 else 1
  }

  lemma {:induction false} SameNamedBefore(items: seq<Item>, more: seq<Item>, n: nat)
    requires n <= |items| && items <= more
    ensures NamedBefore(items, n) == NamedBefore(more, n)
  {
    if n > 0 {
      SameNamedBefore(items, more, n - 1);
      assert items[n - 1] == more[n - 1];
    }
  }

  /** The named items keep their order, and each name has the row of its last item. */
  lemma {:induction false} RowsAreListed(items: seq<Item>)
    ensures |ListedNames(items)| == NamedBefore(items, |items|)
    ensures forall i :: 0 <= i < |items| && items[i].name != "" ==>
              NamedBefore(items, i) < |ListedNames(items)| && ListedNames(items)[NamedBefore(items, i)] == items[i].name
    ensures forall name :: name in ListedNames(items) <==> name in ListedRows(items)
    ensures "" !in ListedNames(items)
  {
    if items != [] {
      var n := |items| - 1;
      var front := items[..n];
      RowsAreListed(front);
      SameNamedBefore(front, items, n);
      forall i | 0 <= i < |items| && items[i].name != ""
        ensures NamedBefore(items, i) < |ListedNames(items)| && ListedNames(items)[NamedBefore(items, i)] == items[i].name
      {
        SameNamedBefore(front, items, i);
        assert i < n ==> front[i] == items[i];
      }
    }
  }

  /** The row of a name is that of its last item. */
  lemma {:induction false} LastRowCounts(items: seq<Item>, name: string) returns (i: nat)
    requires name in ListedRows(items) && name != ""
    ensures i < |items| && IsLast(items, i, name, ListedRows(items)[name])
  {
    var n := |items| - 1;
    if items[n].name == name {
      i := n;
    } else {
      i := LastRowCounts(items[..n], name);
      assert forall j :: i <= j < n ==> items[..n][j] == items[j];
    }
  }

  predicate IsLast(items: seq<Item>, i: nat, name: string, row: Row)
    requires i < |items|
  {
    items[i] == Item(name, row) && forall j :: i < j < |items| ==> items[j].name != name
  }

  /**
   A session. `phase` says where its runner and its workers stand, which the source keeps in
   their goroutines; `cancelled` is the state of its context.
  */
  class EnrichSession {
    const rev: nat
    const cluster: string
    const work: seq<string>
    const favs: seq<string>
    const sweep: seq<string>
    const total: nat
    var order: seq<string>
    var merged: map<string, Row>
    var detailDone: nat
    var relatedDone: nat
    var complete: bool
    var cancelled: bool
    ghost var phase: Phase

    ghost function View(): Session
      reads this
    {
      Session(cluster, order, work, favs, sweep, merged, detailDone, relatedDone, total, phase, cancelled)
    }

    ghost predicate Valid()
      reads this
    {
      complete <==> phase == Over
    }

    constructor (rev: nat, cluster: string, order: seq<string>, work: seq<string>, favs: seq<string>, sweep: seq<string>, merged: map<string, Row>)
      ensures Valid() && this.rev == rev
      ensures View() == Session(cluster, order, work, favs, sweep, merged, 0, 0, |work| + |sweep|, New, false)
    {
      this.rev, this.cluster, this.work, this.favs, this.sweep, this.total := rev, cluster, work, favs, sweep, |work| + |sweep|;
      this.order, this.merged := order, merged;
      detailDone, relatedDone, complete, cancelled, phase := 0, 0, false, false, New;
    }

    /** A step that touches no field: starting, waiting, taking or leaving the semaphore, the end of a batch that a sweep follows. */
    ghost method Proceed(a: Action)
      requires Valid() && Enabled(View(), a)
      requires var s := SessionStep(View(), a); s == View().(phase := s.phase) && s.phase != Over
      modifies this`phase
      ensures Valid() && View() == SessionStep(old(View()), a)
    {
      phase := SessionStep(View(), a).phase;
    }

    /** The runner is done: its wait was cancelled, or its last batch has ended. */
    method SetComplete(ghost a: Action)
      requires Valid() && Enabled(View(), a) && (a.Start? || a.WaitCancelled? || a.BatchEnd?) && SessionStep(View(), a).phase == Over
      modifies this`complete, this`phase
      ensures Valid() && View() == SessionStep(old(View()), a)
    {
      complete := true;
      phase := Over;
    }

    method MergeExistingRowsInto(order: seq<string>, base: map<string, Row>) returns (rows: map<string, Row>)
      ensures rows == Carried(merged, order, base)
    {
      rows := map[];
      for i := 0 to |order|
        invariant rows == Carried(merged, order[..i], base)
      {
        var name := order[i];
        assert order[..i + 1] == order[..i] + [name];
        var next := RowAt(base, name);
        if name in merged && merged[name].enriched {
          next := MergeRow(next, merged[name]);
        }
        rows := rows[name := next];
      }
      assert order[..|order|] == order;
    }

    method UpdateBaseRows(order: seq<string>, base: map<string, Row>)
      modifies this`order, this`merged
      ensures merged == Carried(old(merged), order, base) && this.order == order
    {
      var rows := MergeExistingRowsInto(order, base);
      this.order := order;
      merged := rows;
    }

    /** The section behind a failed look-up of the clients. */
    method CountClientError(ghost i: nat)
      requires Valid() && Enabled(View(), ClientError(rev, i))
      modifies this`detailDone, this`relatedDone, this`phase
      ensures Valid() && View() == SessionStep(old(View()), ClientError(rev, i))
    {
      phase := SessionStep(View(), ClientError(rev, i)).phase;
      detailDone := detailDone + 1;
      relatedDone := relatedDone + 1;
    }

    /** The section behind the details call for worker i's name; `fields` is None when the call failed. */
    method CountDetail(ghost i: nat, name: string, fields: Option<string>)
      requires Valid() && Enabled(View(), Detail(rev, i, fields)) && name == NameOf(View(), i)
      modifies this`merged, this`detailDone, this`phase
      ensures Valid() && View() == SessionStep(old(View()), Detail(rev, i, fields))
    {
      phase := SessionStep(View(), Detail(rev, i, fields)).phase;
      var row := RowAt(merged, name);
      if fields.Some? {
        row := row.(detail := fields.value);
      }
      merged := merged[name := row];
      detailDone := detailDone + 1;
    }

    /** The section of a policy without details. */
    method CountNoDetail(ghost i: nat)
      requires Valid() && Enabled(View(), NoDetail(rev, i))
      modifies this`detailDone, this`phase
      ensures Valid() && View() == SessionStep(old(View()), NoDetail(rev, i))
    {
      phase := SessionStep(View(), NoDetail(rev, i)).phase;
      detailDone := detailDone + 1;
    }

    method CountPlaneError(ghost i: nat)
      requires Valid() && Enabled(View(), PlaneError(rev, i))
      modifies this`relatedDone, this`phase
      ensures Valid() && View() == SessionStep(old(View()), PlaneError(rev, i))
    {
      phase := SessionStep(View(), PlaneError(rev, i)).phase;
      relatedDone := relatedDone + 1;
    }

    /** The section that merges the projection of worker i's name. */
    method CountRelated(ghost i: nat, name: string, metrics: Row)
      requires Valid() && Enabled(View(), Related(rev, i, metrics)) && name == NameOf(View(), i)
      modifies this`merged, this`relatedDone, this`phase
      ensures Valid() && View() == SessionStep(old(View()), Related(rev, i, metrics))
    {
      phase := SessionStep(View(), Related(rev, i, metrics)).phase;
      var cur := RowAt(merged, name);
      cur := MergeRow(cur, metrics);
      merged := merged[name := cur];
      relatedDone := relatedDone + 1;
    }

    /** The rows of a poll: every listed name in order, with what is cached about it. */
    method PollRows(cached: map<string, Row>) returns (updates: seq<Row>)
      modifies this`merged
      ensures merged == Polled(old(merged), order, cached)
      ensures |updates| == |order|
      ensures forall i :: 0 <= i < |order| ==> updates[i] == RowAt(merged, order[i])
    {
      hide Polled;
      updates := [];
      PolledNothing(merged, cached);
      for i := 0 to |order|
        invariant order == old(order) && merged == Polled(old(merged), order[..i], cached)
        invariant |updates| == i
        invariant forall j :: 0 <= j < i ==> updates[j] == RowAt(Polled(old(merged), order, cached), order[j])
      {
        var name := order[i];
        var row := RowAt(merged, name);
        if name in cached {
          row := MergeRow(row, cached[name]);
          merged := merged[name := row];
        }
        updates := updates + [row];
        PolledOneMore(old(merged), order, i, cached);
      }
      assert order[..|order|] == order;
    }
  }

  lemma PolledNothing(merged: map<string, Row>, cached: map<string, Row>)
    ensures Polled(merged, [], cached) == merged
  {
  }

  lemma MergeRowTwice(dst: Row, src: Row)
    ensures MergeRow(MergeRow(dst, src), src) == MergeRow(dst, src)
  {
  }

  lemma PolledOneMore(merged: map<string, Row>, order: seq<string>, i: nat, cached: map<string, Row>)
    requires i < |order|
    ensures var was, name := Polled(merged, order[..i], cached), order[i];
            var now := if name in cached then was[name := MergeRow(RowAt(was, name), cached[name])] else was;
            && now == Polled(merged, order[..i + 1], cached)
            && (if name in cached then MergeRow(RowAt(was, name), cached[name]) else RowAt(was, name))
               == RowAt(Polled(merged, order, cached), name)
  {
    var name := order[i];
    assert order[..i + 1] == order[..i] + [name];
    if name in cached {
      MergeRowTwice(RowAt(merged, name), cached[name]);
    }
  }

  ghost function Views(all: map<nat, EnrichSession>): map<nat, Session>
    reads all.Values
  {
    map r <- all :: all[r].View()
  }

  ghost function Revisions(byCluster: map<string, EnrichSession>): map<string, nat> {
    map c <- byCluster :: byCluster[c].rev
  }

  /** The views with one session apart from the others. */
  lemma ViewsApart(all: map<nat, EnrichSession>, r: nat)
    requires r in all
    ensures Views(all) == Views(all - {r})[r := all[r].View()]
  {
  }

  lemma ViewsPut(all: map<nat, EnrichSession>, r: nat, s: EnrichSession)
    requires r !in all
    ensures Views(all[r := s]) == Views(all)[r := s.View()]
  {
  }

  lemma RevisionsPut(byCluster: map<string, EnrichSession>, c: string, s: EnrichSession)
    ensures Revisions(byCluster[c := s]) == Revisions(byCluster)[c := s.rev]
    ensures Revisions(byCluster - {c}) == Revisions(byCluster) - {c}
  {
  }

  /** The coordinator; `all` remembers every session it ever published, by its revision. */
  class Coordinator {
    var byCluster: map<string, EnrichSession>
    var nextRev: nat
    ghost var all: map<nat, EnrichSession>

    ghost function View(): State
      reads this, all.Values
    {
      State(Views(all), Revisions(byCluster), nextRev)
    }

    ghost predicate Known()
      reads this, all.Values
    {
      && (forall r <- all :: all[r].rev == r && all[r].Valid())
      && (forall c <- byCluster :: byCluster[c].rev in all && all[byCluster[c].rev] == byCluster[c])
    }

    /** Valid objects that stand in a state the runs of module Enrichment can reach. */
    ghost predicate Valid()
      reads this, all.Values
    {
      Known() && Inv(View())
    }

    constructor ()
      ensures Valid() && View() == INIT
    {
      byCluster, nextRev, all := map[], 0, map[];
      new;
      InitInv();
    }

    /** What the view shows of the fields. */
    lemma ViewShows()
      requires Known()
      ensures View().sessions.Keys == all.Keys && View().current.Keys == byCluster.Keys && View().nextRev == nextRev
      ensures forall r <- all :: View().sessions[r] == all[r].View()
      ensures forall c <- byCluster :: View().current[c] == byCluster[c].rev
    {
    }

    /** The running session gets the rows of a new list. */
    method Update(cluster: string, order: seq<string>, base: map<string, Row>)
      requires Known() && cluster in byCluster && byCluster[cluster].order == order
      modifies byCluster[cluster]
      ensures Known()
      ensures var st, s := old(View()), old(byCluster[cluster].View());
              View() == st.(sessions := st.sessions[old(byCluster[cluster].rev) := s.(merged := Carried(s.merged, order, base))])
    {
      hide Carried, Views;
      ghost var before := View();
      var prev := byCluster[cluster];
      ViewsApart(all, prev.rev);
      prev.UpdateBaseRows(order, base);
      ViewsApart(all, prev.rev);
    }

    /** The running session shows its rows with what is cached, and keeps them. */
    method MergeCached(cluster: string, cached: map<string, Row>) returns (updates: seq<Row>)
      requires Known() && cluster in byCluster
      modifies byCluster[cluster]
      ensures Known()
      ensures var st, s := old(View()), old(byCluster[cluster].View());
              View() == st.(sessions := st.sessions[old(byCluster[cluster].rev) := s.(merged := Polled(s.merged, s.order, cached))])
      ensures |updates| == |byCluster[cluster].order|
      ensures forall i :: 0 <= i < |updates| ==> updates[i] == RowAt(byCluster[cluster].merged, byCluster[cluster].order[i])
    {
      hide Polled, Views;
      var s := byCluster[cluster];
      ViewsApart(all, s.rev);
      updates := s.PollRows(cached);
      ViewsApart(all, s.rev);
    }

    /** The running session is cancelled and taken out. */
    method Retire(cluster: string)
      requires Known() && cluster in byCluster
      modifies this`byCluster, byCluster[cluster]
      ensures Known() && all == old(all) && nextRev == old(nextRev) && cluster !in byCluster
      ensures cluster in old(View()).current && old(View()).current[cluster] in old(View()).sessions
      ensures View() == Retired(old(View()), cluster)
    {
      hide Views;
      var prev := byCluster[cluster];
      ViewsApart(all, prev.rev);
      RevisionsPut(byCluster, cluster, prev);
      prev.cancelled := true;
      byCluster := byCluster - {cluster};
      ViewsApart(all, prev.rev);
    }

    /** A new session under the next revision. */
    method Publish(cluster: string, order: seq<string>, work: seq<string>, favs: seq<string>, sweep: seq<string>, merged: map<string, Row>, ghost a: Action)
      requires Known() && nextRev + 1 !in all
      requires a.Begin? && a == Enrichment.Begin(cluster, order, a.base, work, favs, sweep)
      modifies this
      ensures Known() && View() == Published(old(View()), a, merged)
      ensures cluster in byCluster && byCluster[cluster].rev == nextRev
      ensures forall r <- old(all) :: r in all && all[r] == old(all)[r]
    {
      hide Views, Revisions;
      nextRev := nextRev + 1;
      var sess := new EnrichSession(nextRev, cluster, order, work, favs, sweep, merged);
      ViewsPut(all, nextRev, sess);
      RevisionsPut(byCluster, cluster, sess);
      byCluster := byCluster[cluster := sess];
      all := all[nextRev := sess];
    }

    /** The critical section that updates the running session or replaces it. */
    method Begin(cluster: string, order: seq<string>, base: map<string, Row>, work: seq<string>, favs: seq<string>, sweep: seq<string>)
      returns (rev: nat)
      requires Valid() && forall name :: name in base <==> name in order
      modifies this, all.Values
      ensures Valid() && View() == BeginStep(old(View()), Enrichment.Begin(cluster, order, base, work, favs, sweep))
      ensures cluster in byCluster && rev == byCluster[cluster].rev
      ensures forall r <- old(all) :: r in all && all[r] == old(all)[r]
    {
      hide Inv, Carried, Published, Retired, Views, Revisions;
      ghost var a := Enrichment.Begin(cluster, order, base, work, favs, sweep);
      ghost var before := View();
      BeginKeepsInv(before, a);
      NextIsNew(before);
      ViewShows();
      var merged := base;
      if cluster in byCluster {
        var prev := byCluster[cluster];
        if prev.order == order && prev.work == work && prev.favs == favs && prev.sweep == sweep {
          Update(cluster, order, base);
          return prev.rev;
        }
        merged := prev.MergeExistingRowsInto(order, base);
        Retire(cluster);
      } else {
        assert merged == map name | name in order :: RowAt(base, name);
      }
      Publish(cluster, order, work, favs, sweep, merged, a);
      rev := nextRev;
    }

    /** The session a poll asks for, if its revision is still the current one. */
    method Poll(cluster: string, revision: nat, cached: map<string, Row>) returns (r: Answer)
      requires Valid()
      modifies all.Values
      ensures Valid()
      ensures r.Stale? <==> !(cluster in byCluster && byCluster[cluster].rev == revision)
      ensures r.Stale? ==> View() == old(View()) && r.latest == if cluster in byCluster then byCluster[cluster].rev else 0
      ensures r.Report? ==>
                var s := byCluster[cluster];
                && View() == Step(old(View()), Enrichment.Poll(cluster, revision, cached))
                && |r.updates| == |s.order| && (forall i :: 0 <= i < |s.order| ==> r.updates[i] == RowAt(s.merged, s.order[i]))
                && r.detail == s.detailDone && r.related == s.relatedDone && r.total == s.total
                && r.related <= r.detail <= r.total
                && (r.stage == "complete" <==> s.complete) && (r.stage == "complete" ==> r.related == r.detail)
                && (r.stage == "detail" ==> r.detail < r.total) && (r.stage == "related" ==> r.detail == r.total)
                && (r.stage == "complete" || r.stage == "detail" || r.stage == "related")
    {
      hide Inv, Polled, Views;
      ghost var before := View();
      ghost var a := Enrichment.Poll(cluster, revision, cached);
      ViewShows();
      if cluster !in byCluster || byCluster[cluster].rev != revision {
        var latest := 0;
        if cluster in byCluster {
          latest := byCluster[cluster].rev;
        }
        return Stale(latest);
      }
      var s := byCluster[cluster];
      StepKeepsInv(before, a);
      ClusterOfCurrent(before, cluster);
      ProgressOf(s.View(), before, revision);
      var updates := MergeCached(cluster, cached);
      ViewShows();
      var stage := "complete";
      if !s.complete {
        if s.detailDone < s.total {
          stage := "detail";
        } else {
          stage := "related";
        }
      }
      return Report(s.detailDone, s.relatedDone, s.total, stage, updates);
    }
  }

  /** A section of one session is the system's step. */
  twostate lemma SectionIsStep(c: Coordinator, s: EnrichSession, a: Action)
    requires old(c.Valid()) && old(c.all) == c.all && old(c.byCluster) == c.byCluster && old(c.nextRev) == c.nextRev
    requires !a.Begin? && !a.Poll? && a.rev in c.all && c.all[a.rev] == s && s.Valid()
    requires forall r <- c.all :: c.all[r] != s ==> unchanged(c.all[r])
    requires old(Enabled(s.View(), a)) && s.View() == SessionStep(old(s.View()), a)
    ensures c.Valid() && c.View() == Step(old(c.View()), a)
  {
    hide Inv, Enabled, SessionStep, BeginStep, PollStep, Revisions;
    StepKeepsInv(old(c.View()), a);
    assert Views(c.all) == old(Views(c.all))[a.rev := s.View()];
  }

  lemma NextIsNew(st: State)
    requires Inv(st)
    ensures st.nextRev + 1 !in st.sessions
  {
    hide Progress;
  }

  lemma ClusterOfCurrent(st: State, cluster: string)
    requires Inv(st) && cluster in st.current
    ensures st.current[cluster] in st.sessions && st.sessions[st.current[cluster]].cluster == cluster
  {
    hide Progress;
  }

  /** What the counters of a session in a reachable state say. */
  lemma ProgressOf(s: Session, st: State, rev: nat)
    requires Inv(st) && rev in st.sessions && st.sessions[rev] == s
    ensures s.relatedDone <= s.detailDone <= s.total && (s.phase == Over ==> s.relatedDone == s.detailDone)
  {
    hide Count;
    if Running(s.phase) {
      CountBounds(s.phase.workers);
    }
  }

  /** What a poll answers for a revision: stale with the latest one, or the counters, the stage and the rows. */
  datatype Answer = Stale(latest: nat) | Report(detail: nat, related: nat, total: nat, stage: string, updates: seq<Row>)
}

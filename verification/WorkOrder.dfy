/**
 Which namespaces are enriched, and in which order: the listed ones among focus, recent and
 favourite names, best score first, ties in list order, cut to the target limit.
*/
module WorkOrder {
  import opened Orders
  import opened Policy

  const FOCUS := 1_000_000
  const FAVOURITE := 10_000
  const RECENT := 500
  const MAX_TARGETS := 32

  datatype Hints = Hints(focus: string, recent: seq<string>, favourites: set<string>)

  // -------------------------------------------------------------- specification

  /** The first position of a name. */
  function IndexOf(s: seq<string>, name: string): (i: nat)
    requires name in s
    ensures i < |s| && s[i] == name && name !in s[..i]
  {
    if s[0] == name then 0
    else
      assert s == [s[0]] + s[1..];
      var i := IndexOf(s[1..], name);
      assert s[..i + 1] == [s[0]] + s[1..][..i];
      i + 1
  }

  function Score(name: string, h: Hints): int {
    (if name != "" && name == h.focus then FOCUS else 0)
    + (if name in h.favourites then FAVOURITE else 0)
    + (if name in h.recent then (|h.recent| - IndexOf(h.recent, name)) * RECENT else 0)
  }

  predicate Eligible(list: seq<string>, h: Hints, name: string) {
    name != "" && name in list && (name == h.focus || name in h.recent || name in h.favourites)
  }

  /** The first list position; 0 for a name that is not listed. */
  function Position(list: seq<string>, name: string): nat {
    if name in list then IndexOf(list, name) else 0
  }

  predicate Outranks(list: seq<string>, h: Hints, a: string, b: string) {
    if Score(a, h) != Score(b, h) then Score(a, h) > Score(b, h) else Position(list, a) < Position(list, b)
  }

  function Ranking(list: seq<string>, h: Hints): (string, string) -> bool {
    (a, b) => Outranks(list, h, a, b)
  }

  /** All eligible names, best first. */
  ghost predicate IsRanked(all: seq<string>, list: seq<string>, h: Hints) {
    Ascending(all, Ranking(list, h)) && forall n :: n in all <==> Eligible(list, h, n)
  }

  function Cap(maxTargets: int): nat {
    if maxTargets <= 0 then MAX_TARGETS else maxTargets
  }

  ghost predicate IsWorkOrder(out: seq<string>, list: seq<string>, h: Hints, maxTargets: int) {
    exists all :: IsRanked(all, list, h) && out == if |all| > Cap(maxTargets) then all[..Cap(maxTargets)] else all
  }

  // -------------------------------------------------------------------- meaning

  lemma RankingIsWeak(list: seq<string>, h: Hints)
    ensures WeakOrder(Ranking(list, h)) && Asymmetric(Ranking(list, h))
  {
    hide Score, Position;
  }

  /** Two listed names never tie. */
  lemma RankingDecides(list: seq<string>, h: Hints, a: string, b: string)
    requires a in list && b in list && a != b
    ensures Outranks(list, h, a, b) || Outranks(list, h, b, a)
  {
  }

  /** The work order is fixed by its inputs, whatever order the favourites are met in. */
  lemma WorkOrderIsDetermined(out: seq<string>, out': seq<string>, list: seq<string>, h: Hints, maxTargets: int)
    requires IsWorkOrder(out, list, h, maxTargets) && IsWorkOrder(out', list, h, maxTargets)
    ensures out == out'
  {
    hide Eligible;
    var all :| IsRanked(all, list, h) && out == if |all| > Cap(maxTargets) then all[..Cap(maxTargets)] else all;
    var all' :| IsRanked(all', list, h) && out' == if |all'| > Cap(maxTargets) then all'[..Cap(maxTargets)] else all';
    RankingIsWeak(list, h);
    AscendingUnique(all, all', Ranking(list, h));
  }

  /** No name twice, all eligible, within the cap, and nothing left out ranks before anything kept. */
  lemma WorkOrderIsTheBest(out: seq<string>, list: seq<string>, h: Hints, maxTargets: int)
    requires IsWorkOrder(out, list, h, maxTargets)
    ensures |out| <= Cap(maxTargets)
    ensures forall i, j :: 0 <= i < j < |out| ==> out[i] != out[j] && Outranks(list, h, out[i], out[j])
    ensures forall n <- out :: Eligible(list, h, n)
    ensures forall n :: Eligible(list, h, n) && n !in out ==> |out| == Cap(maxTargets) && forall k <- out :: Outranks(list, h, k, n)
  {
    hide Eligible, Score, Position;
    var all :| IsRanked(all, list, h) && out == if |all| > Cap(maxTargets) then all[..Cap(maxTargets)] else all;
    RankingIsWeak(list, h);
    forall i, j | 0 <= i < j < |out| ensures out[i] != out[j] && Outranks(list, h, out[i], out[j]) {
      assert Ranking(list, h)(all[i], all[j]);
    }
    forall n | Eligible(list, h, n) && n !in out ensures |out| == Cap(maxTargets) && forall k <- out :: Outranks(list, h, k, n) {
      var j :| 0 <= j < |all| && all[j] == n;
      forall k <- out ensures Outranks(list, h, k, n) {
        var i :| 0 <= i < |out| && out[i] == k;
        assert out[i] == all[i];
        assert i != j && forall l :: 0 <= l < |out| ==> out[l] == all[l] && out[l] in out;
        assert Ranking(list, h)(all[i], all[j]);
      }
    }
  }

  // ------------------------------------------------ the work order, said outright

  /** `r` is the first position of the name, or the length of the list if the name is not in it. */
  predicate StandsAt(s: seq<string>, name: string, r: int) {
    0 <= r <= |s| && (r < |s| ==> s[r] == name) && forall j :: 0 <= j < r ==> s[j] != name
  }

  /** A million for the focus, ten thousand for a favourite, and 500 for each place from the end of the recent names. */
  ghost predicate Worth(name: string, h: Hints, w: int) {
    exists r :: StandsAt(h.recent, name, r)
      && w == (|h.recent| - r) * 500 + (if name in h.favourites then 10_000 else 0) + if name == h.focus then 1_000_000 else 0
  }

  /** The name is worth more, or as much and listed earlier. */
  ghost predicate GoesBefore(list: seq<string>, h: Hints, a: string, b: string) {
    exists v, w, i, j :: Worth(a, h, v) && Worth(b, h, w) && StandsAt(list, a, i) && StandsAt(list, b, j) && (v > w || (v == w && i < j))
  }

  predicate Asked(list: seq<string>, h: Hints, name: string) {
    name != "" && name in list && (name in h.favourites || name in h.recent || name == h.focus)
  }

  /** The best of the names asked for, each once and best first, as many as fit. */
  ghost predicate IsBestFirst(out: seq<string>, list: seq<string>, h: Hints, most: int) {
    && |out| <= most
    && (forall i, j :: 0 <= i < j < |out| ==> GoesBefore(list, h, out[i], out[j]))
    && (forall n <- out :: Asked(list, h, n))
    && (forall n :: Asked(list, h, n) && n !in out ==> |out| == most && forall k <- out :: GoesBefore(list, h, k, n))
  }

  lemma StandsAtIndex(s: seq<string>, name: string, r: int)
    ensures StandsAt(s, name, r) <==> r == if name in s then IndexOf(s, name) else |s|
  {
    if name in s {
      var i := IndexOf(s, name);
      assert forall j :: 0 <= j < i ==> s[..i][j] == s[j] && s[j] in s[..i];
    }
  }

  lemma WorthIsScore(name: string, h: Hints, w: int)
    requires name != ""
    ensures Worth(name, h, w) <==> w == Score(name, h)
  {
    hide StandsAt, IndexOf;
    var r := if name in h.recent then IndexOf(h.recent, name) else |h.recent|;
    forall q ensures StandsAt(h.recent, name, q) <==> q == r {
      StandsAtIndex(h.recent, name, q);
    }
    assert StandsAt(h.recent, name, r);
  }

  lemma GoesBeforeOutranks(list: seq<string>, h: Hints, a: string, b: string)
    requires a != "" && b != "" && a in list && b in list
    ensures GoesBefore(list, h, a, b) <==> Outranks(list, h, a, b)
  {
    hide Worth, StandsAt, Score, IndexOf;
    forall w ensures (Worth(a, h, w) <==> w == Score(a, h)) && (Worth(b, h, w) <==> w == Score(b, h)) {
      WorthIsScore(a, h, w);
      WorthIsScore(b, h, w);
    }
    forall i ensures (StandsAt(list, a, i) <==> i == IndexOf(list, a)) && (StandsAt(list, b, i) <==> i == IndexOf(list, b)) {
      StandsAtIndex(list, a, i);
      StandsAtIndex(list, b, i);
    }
    assert Worth(a, h, Score(a, h)) && Worth(b, h, Score(b, h));
    assert StandsAt(list, a, IndexOf(list, a)) && StandsAt(list, b, IndexOf(list, b));
  }

  /** The work order, in the numbers of the request alone; without a positive limit there are at most 32 targets. */
  lemma WorkOrderIsBestFirst(out: seq<string>, list: seq<string>, h: Hints, maxTargets: int)
    requires IsWorkOrder(out, list, h, maxTargets)
    ensures IsBestFirst(out, list, h, if maxTargets > 0 then maxTargets else 32)
  {
    hide IsWorkOrder, Outranks, GoesBefore;
    WorkOrderIsTheBest(out, list, h, maxTargets);
    forall a, b | Asked(list, h, a) && Asked(list, h, b) ensures GoesBefore(list, h, a, b) <==> Outranks(list, h, a, b) {
      GoesBeforeOutranks(list, h, a, b);
    }
    assert forall n :: Asked(list, h, n) <==> Eligible(list, h, n);
    assert forall i :: 0 <= i < |out| ==> out[i] in out;
  }

  /** What a policy leaves of the hints: the recent names and favourites up to their limits, and nothing that it excludes. */
  lemma PolicyHintsAreLimited(h: Hints, met: seq<string>, n: Enrichment)
    ensures var g := PolicyHints(h, met, n);
            && g.focus == (if n.includeFocus then h.focus else "")
            && g.recent <= h.recent
            && |g.recent| == (if !n.includeRecent || n.recentLimit <= 0 then 0 else if n.recentLimit < |h.recent| then n.recentLimit else |h.recent|)
            && forall k :: k in g.favourites <==>
                 n.includeFavourites && exists i :: 0 <= i < |met| && i < n.favouriteLimit && met[i] == k
  {
    if n.includeFavourites && 0 < n.favouriteLimit <= |met| {
      assert forall i :: 0 <= i < n.favouriteLimit ==> met[..n.favouriteLimit][i] == met[i];
    }
  }

  // ----------------------------------------------------------- the focus is first

  /** Up to 1979 recent names the focus outranks everything else. */
  lemma FocusOutranks(list: seq<string>, h: Hints, n: string)
    requires h.focus != "" && n != h.focus && |h.recent| <= 1979
    ensures Outranks(list, h, h.focus, n)
  {
    hide IndexOf, Position;
  }

  /** A name that outranks all other eligible names comes first. */
  lemma BestIsFirst(out: seq<string>, list: seq<string>, h: Hints, maxTargets: int, n: string)
    requires IsWorkOrder(out, list, h, maxTargets) && Eligible(list, h, n)
    requires forall m :: Eligible(list, h, m) && m != n ==> Outranks(list, h, n, m)
    ensures out != [] && out[0] == n
  {
    hide Eligible, Outranks;
    var all :| IsRanked(all, list, h) && out == if |all| > Cap(maxTargets) then all[..Cap(maxTargets)] else all;
    RankingAsymmetric(list, h);
    var j :| 0 <= j < |all| && all[j] == n;
    var first := all[0];
    assert first in all;
    assert first == n || Ranking(list, h)(n, first);
    assert j == 0 || Ranking(list, h)(first, n);
  }

  lemma RankingAsymmetric(list: seq<string>, h: Hints)
    ensures Asymmetric(Ranking(list, h))
  {
    hide Score, Position;
  }

  lemma FocusIsFirst(out: seq<string>, list: seq<string>, h: Hints, maxTargets: int)
    requires IsWorkOrder(out, list, h, maxTargets) && h.focus != "" && h.focus in list
    ensures |h.recent| <= 1979 ==> out != [] && out[0] == h.focus
  {
    if |h.recent| <= 1979 {
      hide IsWorkOrder, Outranks;
      forall m | Eligible(list, h, m) && m != h.focus ensures Outranks(list, h, h.focus, m) {
        FocusOutranks(list, h, m);
      }
      BestIsFirst(out, list, h, maxTargets, h.focus);
    }
  }

  /** From 1980 recent names on a favourite that leads them and the list comes before the focus. */
  lemma FocusCanLose(n: nat)
    requires n >= 1980
    ensures var h := Hints("f", seq(n, i => "a"), {"a"});
            && Outranks(["a", "f"], h, "a", "f")
            && (forall out, maxTargets :: IsWorkOrder(out, ["a", "f"], h, maxTargets) ==> out != [] && out[0] == "a")
  {
    var h := Hints("f", seq(n, i => "a"), {"a"});
    var list := ["a", "f"];
    assert h.recent[0] == "a" && IndexOf(h.recent, "a") == 0;
    assert "f" !in h.recent && "a" in h.recent;
    assert Score("a", h) == FAVOURITE + n * RECENT && Score("f", h) == FOCUS;
    assert list[0] == "a" && list[1] == "f" && IndexOf(list, "a") == 0;
    assert Outranks(list, h, "a", "f");
    forall out, maxTargets | IsWorkOrder(out, list, h, maxTargets) ensures out != [] && out[0] == "a" {
      FirstOfTwo(out, h, maxTargets);
    }
  }

  lemma FirstOfTwo(out: seq<string>, h: Hints, maxTargets: int)
    requires IsWorkOrder(out, ["a", "f"], h, maxTargets) && Outranks(["a", "f"], h, "a", "f") && "a" in h.favourites
    ensures out != [] && out[0] == "a"
  {
    hide Outranks, IsWorkOrder;
    var list := ["a", "f"];
    assert list[0] == "a" && Eligible(list, h, "a");
    BestIsFirst(out, list, h, maxTargets, "a");
  }

  // ------------------------------------------------------ favourites and recency

  /** Of two names that are both or neither favourites, the more recent comes first. */
  lemma RecencyOrders(list: seq<string>, h: Hints, a: string, b: string)
    requires a != h.focus && b != h.focus && (a in h.favourites <==> b in h.favourites) && a in h.recent
    ensures b !in h.recent || IndexOf(h.recent, a) < IndexOf(h.recent, b) ==> Outranks(list, h, a, b)
  {
    hide IndexOf, Position;
  }

  /** A favourite beats every name that is neither favourite nor focus while there are fewer than 20 recent names. */
  lemma FavouritesOutrank(list: seq<string>, h: Hints, a: string, b: string)
    requires a in h.favourites && b !in h.favourites && b != h.focus && |h.recent| < 20
    ensures Outranks(list, h, a, b)
  {
    hide IndexOf, Position;
  }

  /** From 20 recent names on, the work list can start with the most recent one although a favourite is listed. */
  lemma FavouritesCanLose(n: nat)
    requires n >= 20
    ensures var h := Hints("", seq(n, i => "r"), {"v"});
            forall out, maxTargets :: IsWorkOrder(out, ["r", "v"], h, maxTargets) ==> out != [] && out[0] == "r"
  {
    var h := Hints("", seq(n, i => "r"), {"v"});
    var list := ["r", "v"];
    assert h.recent[0] == "r" && IndexOf(h.recent, "r") == 0 && "v" !in h.recent;
    assert list[0] == "r" && list[1] == "v" && IndexOf(list, "r") == 0 && "r" in list && "v" in list;
    assert Score("r", h) == n * RECENT && Score("v", h) == FAVOURITE;
    assert Outranks(list, h, "r", "v");
    forall out, maxTargets | IsWorkOrder(out, list, h, maxTargets) ensures out != [] && out[0] == "r" {
      RecentFirst(out, h, maxTargets);
    }
  }

  lemma RecentFirst(out: seq<string>, h: Hints, maxTargets: int)
    requires IsWorkOrder(out, ["r", "v"], h, maxTargets) && Outranks(["r", "v"], h, "r", "v") && "r" in h.recent
    ensures out != [] && out[0] == "r"
  {
    hide Outranks, IsWorkOrder;
    var list := ["r", "v"];
    assert list[0] == "r" && Eligible(list, h, "r");
    BestIsFirst(out, list, h, maxTargets, "r");
  }

  // ------------------------------------------------------------------ the method

  function NamesIn(s: seq<string>): set<string> {
    set k <- s
  }

  /** applyNamespaceEnrichmentPolicyHints; `met` lists the favourites as the loop meets them. */
  function PolicyHints(h: Hints, met: seq<string>, n: Enrichment): Hints {
    Hints(if n.includeFocus then h.focus else "",
          if n.includeRecent && n.recentLimit > 0 then (if |h.recent| < n.recentLimit then h.recent else h.recent[..n.recentLimit]) else [],
          if n.includeFavourites && n.favouriteLimit > 0
          then NamesIn(if |met| < n.favouriteLimit then met else met[..n.favouriteLimit]) else {})
  }

  /** Under a validated policy the focus is always first. */
  lemma PolicyKeepsFocusFirst(out: seq<string>, list: seq<string>, h: Hints, met: seq<string>, p: Policy, e: Env)
    requires Sound(e)
    ensures var n := Validate(p, e).enrichment;
            IsWorkOrder(out, list, PolicyHints(h, met, n), n.maxTargets) && n.includeFocus && h.focus != "" && h.focus in list ==>
              out != [] && out[0] == h.focus
  {
    hide IsWorkOrder, Validate, Sound, NamesIn;
    var n := Validate(p, e).enrichment;
    RecentLimitIsBounded(p, e);
    var g := PolicyHints(h, met, n);
    if IsWorkOrder(out, list, g, n.maxTargets) && n.includeFocus && h.focus != "" && h.focus in list {
      FocusIsFirst(out, list, g, n.maxTargets);
    }
  }

  lemma RecentLimitIsBounded(p: Policy, e: Env)
    ensures Validate(p, e).enrichment.recentLimit <= 200
  {
    hide ValidSignals, ValidTtl, DetectorsOf, ClampedMetrics, ClampedDashboard, DEFAULT_TTL, ValidWarmKinds;
  }

  method TryAdd(n: string, present: set<string>, seen: set<string>, candidates: seq<string>)
    returns (seen': set<string>, candidates': seq<string>)
    ensures n == "" || n !in present || n in seen ==> seen' == seen && candidates' == candidates
    ensures !(n == "" || n !in present || n in seen) ==> seen' == seen + {n} && candidates' == candidates + [n]
  {
    seen', candidates' := seen, candidates;
    if n == "" || n !in present {
      return;
    }
    if n in seen {
      return;
    }
    seen' := seen + {n};
    candidates' := candidates + [n];
  }

  /** The first position of every name that is not empty. */
  ghost predicate Places(m: map<string, int>, s: seq<string>, empties: bool) {
    forall n :: (n in m <==> n in s && (empties || n != "")) && (n in m ==> n in s && m[n] == IndexOf(s, n))
  }

  method FirstPlaces(s: seq<string>, empties: bool) returns (m: map<string, int>)
    ensures Places(m, s, empties)
  {
    m := map[];
    for i := 0 to |s|
      invariant forall n :: n in m <==> n in s[..i] && (empties || n != "")
      invariant forall n <- m :: 0 <= m[n] < i && s[m[n]] == n && n !in s[..m[n]]
    {
      var n := s[i];
      assert s[..i + 1] == s[..i] + [n];
      if n == "" && !empties {
        continue;
      }
      if n !in m {
        m := m[n := i];
      }
    }
    assert s[..|s|] == s;
    forall n <- m ensures n in s && m[n] == IndexOf(s, n) {
      FirstIsUnique(s, n, m[n]);
    }
  }

  lemma FirstIsUnique(s: seq<string>, n: string, i: nat)
    requires i < |s| && s[i] == n && n !in s[..i]
    ensures IndexOf(s, n) == i
  {
    var j := IndexOf(s, n);
    assert forall k :: 0 <= k < i ==> s[..i][k] == s[k] && s[k] in s[..i];
    assert forall k :: 0 <= k < j ==> s[..j][k] == s[k] && s[k] in s[..j];
  }

  /** namespaceEnrichScore, as the code looks the rank up. */
  function ScoreByRank(name: string, h: Hints, rank: map<string, int>): int {
    (if name != "" && name == h.focus then FOCUS else 0)
    + (if name in h.favourites then FAVOURITE else 0)
    + (if name in rank && |h.recent| > 0 then (|h.recent| - rank[name]) * RECENT else 0)
  }

  function ByMaps(h: Hints, rank: map<string, int>, pos: map<string, int>): (string, string) -> bool {
    (a, b) =>
      if ScoreByRank(a, h, rank) != ScoreByRank(b, h, rank) then ScoreByRank(a, h, rank) > ScoreByRank(b, h, rank)
      else (if a in pos then pos[a] else 0) < (if b in pos then pos[b] else 0)
  }

  /** Names that are not empty compare by the maps as they do by the lists. */
  lemma MapsRankAlike(h: Hints, list: seq<string>, rank: map<string, int>, pos: map<string, int>, a: string, b: string)
    requires Places(rank, h.recent, true) && Places(pos, list, false) && a != "" && b != ""
    ensures ByMaps(h, rank, pos)(a, b) <==> Ranking(list, h)(a, b)
  {
  }

  lemma MapOrderIsWeak(h: Hints, rank: map<string, int>, pos: map<string, int>)
    ensures WeakOrder(ByMaps(h, rank, pos))
  {
    hide ScoreByRank;
  }

  ghost predicate Distinct(s: seq<string>) {
    forall i, j :: 0 <= i < j < |s| ==> s[i] != s[j]
  }

  lemma {:induction false} DistinctCounts(s: seq<string>)
    ensures Distinct(s) <==> forall x :: multiset(s)[x] <= 1
  {
    if s != [] {
      var n := |s| - 1;
      DistinctCounts(s[..n]);
      assert s == s[..n] + [s[n]];
      assert forall x :: multiset(s)[x] == multiset(s[..n])[x] + if x == s[n] then 1 else 0;
      if Distinct(s) {
        assert s[n] !in s[..n];
      } else if Distinct(s[..n]) {
        var i :| 0 <= i < n && s[i] == s[n];
        assert s[..n][i] in s[..n];
      }
    }
  }

  /** Sorting distinct listed names by rank ranks them. */
  lemma SortedIsRanked(s: seq<string>, h: Hints, list: seq<string>, rank: map<string, int>, pos: map<string, int>)
    requires Distinct(s) && (forall n <- s :: n != "" && n in list)
    requires Places(rank, h.recent, true) && Places(pos, list, false)
    ensures var t := StableSort(s, ByMaps(h, rank, pos));
            Ascending(t, Ranking(list, h)) && SameElements(s, t)
  {
    hide Outranks, Places, StableSort;
    var t := StableSort(s, ByMaps(h, rank, pos));
    MapOrderIsWeak(h, rank, pos);
    StableSortSorts(s, ByMaps(h, rank, pos));
    SortedElements(s, ByMaps(h, rank, pos));
    DistinctCounts(s);
    DistinctCounts(t);
    forall i, j | 0 <= i < j < |t| ensures Ranking(list, h)(t[i], t[j]) {
      assert t[i] in t && t[j] in t;
      MapsRankAlike(h, list, rank, pos, t[j], t[i]);
      RankingDecides(list, h, t[i], t[j]);
    }
  }

  method BuildEnrichmentWorkOrder(list: seq<string>, h: Hints, met: seq<string>, maxTargets: int) returns (out: seq<string>)
    requires Lists(met, h.favourites)
    ensures IsWorkOrder(out, list, h, maxTargets)
    ensures IsBestFirst(out, list, h, if maxTargets > 0 then maxTargets else 32)
  {
    out := RankedAndCut(list, h, met, maxTargets);
    WorkOrderIsBestFirst(out, list, h, maxTargets);
  }

  method RankedAndCut(list: seq<string>, h: Hints, met: seq<string>, maxTargets: int) returns (out: seq<string>)
    requires Lists(met, h.favourites)
    ensures IsWorkOrder(out, list, h, maxTargets)
  {
    hide StableSort;
    var pos := FirstPlaces(list, false);
    var rank := FirstPlaces(h.recent, true);
    var candidates := CollectCandidates(list, h, met, pos.Keys);
    SortedIsRanked(candidates, h, list, rank, pos);
    hide Places, Outranks;
    if |candidates| == 0 {
      assert IsRanked([], list, h);
      return [];
    }
    candidates := StableSort(candidates, ByMaps(h, rank, pos));
    assert IsRanked(candidates, list, h);
    var max := maxTargets;
    if max <= 0 {
      max := MAX_TARGETS;
    }
    out := candidates;
    if |candidates| > max {
      out := candidates[..max];
    }
  }

  method CollectCandidates(list: seq<string>, h: Hints, met: seq<string>, present: set<string>) returns (candidates: seq<string>)
    requires Lists(met, h.favourites) && forall n :: n in present <==> n in list && n != ""
    ensures Distinct(candidates) && forall n :: n in candidates <==> Eligible(list, h, n)
  {
    var seen: set<string> := {};
    candidates := [];
    seen, candidates := TryAdd(h.focus, present, seen, candidates);
    for i := 0 to |h.recent|
      invariant Distinct(candidates) && forall n :: n in seen <==> n in candidates
      invariant forall n :: n in candidates <==> n in present && (n == h.focus || n in h.recent[..i])
    {
      assert h.recent[..i + 1] == h.recent[..i] + [h.recent[i]];
      seen, candidates := TryAdd(h.recent[i], present, seen, candidates);
    }
    assert h.recent[..|h.recent|] == h.recent;
    for i := 0 to |met|
      invariant Distinct(candidates) && forall n :: n in seen <==> n in candidates
      invariant forall n :: n in candidates <==> n in present && (n == h.focus || n in h.recent || n in met[..i])
    {
      assert met[..i + 1] == met[..i] + [met[i]];
      seen, candidates := TryAdd(met[i], present, seen, candidates);
    }
    assert met[..|met|] == met;
  }
}

/**
 The background sweep: which namespaces a cycle selects, and how many it may select over
 time. Times are nanoseconds of a clock that does not go back; whether the scheduler is busy
 and whether the cluster has a blocking error are given with each call.
*/
module Sweep {
  import opened Options
  import opened Orders
  import opened Policy

  const HOUR := 3_600_000_000_000
  const MINUTE := 60_000_000_000

  /** What the manager keeps for one cluster. */
  datatype Record = Record(hourStart: Option<int>, hourCount: int, last: map<string, int>)

  const UNSEEN := Record(None, 0, map[])

  datatype Call = Call(order: seq<string>, focused: seq<string>, busy: bool, blocked: bool, now: int)

  datatype Candidate = Candidate(name: string, last: Option<int>, pos: nat)

  predicate IsSystem(name: string) {
    || name == "default" || name == "kube-system" || name == "kube-public" || name == "kube-node-lease"
    || (|name| >= |"openshift-"| && name[..|"openshift-"|] == "openshift-")
  }

  // -------------------------------------------------------------- specification

  predicate Runs(p: Enrichment, c: Call) {
    && p.enabled && p.sweep.enabled && p.sweep.perCycle > 0 && p.sweep.perHour > 0
    && !(p.sweep.pauseWhenBusy && c.busy) && !(p.sweep.pauseOnIssues && c.blocked)
  }

  /** A new hour starts with the first call at least an hour after the start of the last one. */
  function Rolled(r: Record, now: int): Record {
    if r.hourStart == None || now - r.hourStart.value >= HOUR then r.(hourStart := Some(now), hourCount := 0) else r
  }

  function LastOf(r: Record, name: string): Option<int> {
    if name in r.last then Some(r.last[name]) else None
  }

  predicate Eligible(r: Record, p: Enrichment, c: Call, name: string) {
    && name != "" && name !in c.focused
    && (p.sweep.includeSystem || !IsSystem(name))
    && (name in r.last ==> c.now - r.last[name] >= p.sweep.minInterval * MINUTE)
  }

  function Candidates(r: Record, p: Enrichment, c: Call, n: nat): seq<Candidate>
    requires n <= |c.order|
  {
    if n == 0 then []
    else
      Candidates(r, p, c, n - 1)
      + if Eligible(r, p, c, c.order[n - 1]) then [Candidate(c.order[n - 1], LastOf(r, c.order[n - 1]), n - 1)] else []
  }

  /** Never swept first, then the longest ago, then the order of the list. */
  predicate Sooner(a: Candidate, b: Candidate) {
    if a.last.None? != b.last.None? then a.last.None?
    else if a.last != b.last then a.last.value < b.last.value
    else a.pos < b.pos
  }

  function SoonerOrder(): (Candidate, Candidate) -> bool {
    (a, b) => Sooner(a, b)
  }

  function Names(cs: seq<Candidate>): (names: seq<string>)
    ensures |names| == |cs|
  {
    seq(|cs|, i requires 0 <= i < |cs| => cs[i].name)
  }

  function Limit(r: Record, p: Enrichment): int {
    var left := p.sweep.perHour - r.hourCount;
    if left < p.sweep.perCycle then left else p.sweep.perCycle
  }

  function First<T>(s: seq<T>, n: int): seq<T> {
    if n <= 0 then [] else if |s| > n then s[..n] else s
  }

  function Chosen(r: Record, p: Enrichment, c: Call): seq<Candidate> {
    if !Runs(p, c) then []
    else
      var r' := Rolled(r, c.now);
      First(StableSort(Candidates(r', p, c, |c.order|), SoonerOrder()), Limit(r', p))
  }

  function After(r: Record, p: Enrichment, c: Call): Record {
    if !Runs(p, c) then r
    else Rolled(r, c.now).(hourCount := Rolled(r, c.now).hourCount + |Chosen(r, p, c)|)
  }

  function Marked(r: Record, name: string, now: int): Record {
    r.(last := r.last[name := now])
  }

  // -------------------------------------------------------- what is selected

  lemma SoonerIsWeak()
    ensures WeakOrder(SoonerOrder())
  {
  }

  lemma {:induction false} CandidatesExactly(r: Record, p: Enrichment, c: Call, n: nat)
    requires n <= |c.order|
    ensures forall i :: 0 <= i < n && Eligible(r, p, c, c.order[i]) ==>
              Candidate(c.order[i], LastOf(r, c.order[i]), i) in Candidates(r, p, c, n)
    ensures forall x <- Candidates(r, p, c, n) ::
              x.pos < n && Eligible(r, p, c, c.order[x.pos]) && x == Candidate(c.order[x.pos], LastOf(r, c.order[x.pos]), x.pos)
    ensures forall i, j :: 0 <= i < j < |Candidates(r, p, c, n)| ==> Candidates(r, p, c, n)[i].pos < Candidates(r, p, c, n)[j].pos
  {
    hide Eligible;
    if n > 0 {
      CandidatesExactly(r, p, c, n - 1);
    }
  }

  /** The place of a list position in the sweep. */
  function At(r: Record, c: Call, i: nat): Candidate
    requires i < |c.order|
  {
    Candidate(c.order[i], LastOf(r, c.order[i]), i)
  }

  /**
   The selection: only eligible places of the list, within both limits; and if an eligible
   place is left out, a limit is reached and everything taken comes sooner.
  */
  lemma SelectionIsTheFirst(r: Record, p: Enrichment, c: Call)
    requires Runs(p, c)
    ensures var chosen, r' := Chosen(r, p, c), Rolled(r, c.now);
            && |chosen| <= p.sweep.perCycle && (chosen != [] ==> r'.hourCount + |chosen| <= p.sweep.perHour)
            && Ascending(chosen, SoonerOrder())
            && (forall x <- chosen :: x.pos < |c.order| && x == At(r', c, x.pos) && Eligible(r', p, c, x.name))
            && (forall i :: 0 <= i < |c.order| && Eligible(r', p, c, c.order[i]) && At(r', c, i) !in chosen ==>
                  && (|chosen| == p.sweep.perCycle || r'.hourCount + |chosen| >= p.sweep.perHour)
                  && forall x <- chosen :: Sooner(x, At(r', c, i)))
  {
    hide Eligible, Sooner, StableSort;
    var chosen, r' := Chosen(r, p, c), Rolled(r, c.now);
    var all := Candidates(r', p, c, |c.order|);
    var sorted := StableSort(all, SoonerOrder());
    CandidatesExactly(r', p, c, |c.order|);
    SoonerIsWeak();
    SortedStrictly(all);
    SortedElements(all, SoonerOrder());
    ChosenIsFront(r, p, c);
    hide Chosen, Runs, Rolled, Candidates;
    forall x <- chosen ensures x.pos < |c.order| && x == At(r', c, x.pos) && Eligible(r', p, c, x.name) {
      assert x in sorted && x in all;
    }
    forall i | 0 <= i < |c.order| && Eligible(r', p, c, c.order[i]) && At(r', c, i) !in chosen
      ensures (|chosen| == p.sweep.perCycle || r'.hourCount + |chosen| >= p.sweep.perHour) && forall x <- chosen :: Sooner(x, At(r', c, i))
    {
      assert At(r', c, i) in all && At(r', c, i) in sorted;
      var k :| 0 <= k < |sorted| && sorted[k] == At(r', c, i);
      assert forall j :: 0 <= j < |chosen| ==> chosen[j] == sorted[j] && chosen[j] in chosen;
      forall x <- chosen ensures Sooner(x, At(r', c, i)) {
        var j :| 0 <= j < |chosen| && chosen[j] == x;
        assert SoonerOrder()(sorted[j], sorted[k]);
      }
    }
  }

  /** The selection is the front of the sorted candidates, cut at one of the limits if at all. */
  lemma ChosenIsFront(r: Record, p: Enrichment, c: Call)
    requires Runs(p, c)
    ensures var chosen, r' := Chosen(r, p, c), Rolled(r, c.now);
            var sorted := StableSort(Candidates(r', p, c, |c.order|), SoonerOrder());
            && chosen <= sorted && |chosen| <= p.sweep.perCycle && (chosen != [] ==> r'.hourCount + |chosen| <= p.sweep.perHour)
            && (chosen != sorted ==> |chosen| == p.sweep.perCycle || r'.hourCount + |chosen| >= p.sweep.perHour)
  {
    hide StableSort, Candidates;
  }

  lemma SortedStrictly(all: seq<Candidate>)
    requires forall i, j :: 0 <= i < j < |all| ==> all[i].pos < all[j].pos
    ensures Ascending(StableSort(all, SoonerOrder()), SoonerOrder())
  {
    hide StableSort;
    var tie := (a: Candidate, b: Candidate) => a.pos < b.pos;
    SoonerIsWeak();
    StableSortKeepsTies(all, SoonerOrder(), tie);
    var sorted := StableSort(all, SoonerOrder());
    forall i, j | 0 <= i < j < |sorted| ensures SoonerOrder()(sorted[i], sorted[j]) {
      assert Refined(sorted[i], sorted[j], SoonerOrder(), tie);
    }
  }

  /** No name in focus, and none swept within the interval, is selected. */
  lemma SelectionExcludes(r: Record, p: Enrichment, c: Call, x: Candidate)
    ensures x in Chosen(r, p, c) ==>
              && x.name !in c.focused && (IsSystem(x.name) ==> p.sweep.includeSystem)
              && (x.name in r.last ==> c.now - r.last[x.name] >= p.sweep.minInterval * MINUTE)
  {
    hide Chosen;
    if Runs(p, c) {
      SelectionIsTheFirst(r, p, c);
    } else {
      NothingChosen(r, p, c);
    }
  }

  lemma NothingChosen(r: Record, p: Enrichment, c: Call)
    requires !Runs(p, c)
    ensures Chosen(r, p, c) == []
  {
  }

  // ------------------------------------------------- the selection, said outright

  predicate SwitchedOff(p: Enrichment, c: Call) {
    || !p.enabled || !p.sweep.enabled || p.sweep.perCycle <= 0 || p.sweep.perHour <= 0
    || (c.busy && p.sweep.pauseWhenBusy) || (c.blocked && p.sweep.pauseOnIssues)
  }

  predicate FreshHour(r: Record, now: int) {
    r.hourStart.None? || now >= r.hourStart.value + 3_600_000_000_000
  }

  /** How many were selected so far in the hour that runs at the call. */
  function CountedSoFar(r: Record, now: int): int {
    if FreshHour(r, now) then 0 else r.hourCount
  }

  predicate SystemName(name: string) {
    name in ["kube-system", "kube-public", "kube-node-lease", "default"] || "openshift-" <= name
  }

  /** A name to sweep: not in focus, no system name unless those are included, and not swept within the interval in minutes. */
  predicate Open(r: Record, p: Enrichment, c: Call, name: string) {
    && name != "" && name !in c.focused
    && (SystemName(name) ==> p.sweep.includeSystem)
    && (name !in r.last || r.last[name] + p.sweep.minInterval * 60_000_000_000 <= c.now)
  }

  /** Never swept, then swept longer ago, then earlier in the list. */
  predicate Sweeps(r: Record, c: Call, i: nat, j: nat)
    requires i < |c.order| && j < |c.order|
  {
    var a, b := c.order[i], c.order[j];
    if a in r.last && b in r.last && r.last[a] != r.last[b] then r.last[a] < r.last[b]
    else if a in r.last <==> b in r.last then i < j
    else a !in r.last
  }

  ghost predicate AtPlaces(names: seq<string>, c: Call, places: seq<nat>) {
    |places| == |names| && forall k :: 0 <= k < |names| ==> places[k] < |c.order| && c.order[places[k]] == names[k]
  }

  /** The names at the first open places, as many as one cycle and the hour still allow. */
  ghost predicate IsSelection(names: seq<string>, r: Record, p: Enrichment, c: Call, places: seq<nat>) {
    var room := p.sweep.perHour - CountedSoFar(r, c.now);
    var most := if room < 0 then 0 else if room < p.sweep.perCycle then room else p.sweep.perCycle;
    && AtPlaces(names, c, places) && |names| <= most
    && (forall k, l :: 0 <= k < l < |places| ==> Sweeps(r, c, places[k], places[l]))
    && (forall k :: 0 <= k < |names| ==> Open(r, p, c, names[k]))
    && (forall i :: 0 <= i < |c.order| && Open(r, p, c, c.order[i]) && i !in places ==>
          |names| == most && forall k <- places :: Sweeps(r, c, k, i))
  }

  lemma OpenIsEligible(r: Record, p: Enrichment, c: Call, name: string)
    ensures Open(r, p, c, name) <==> Eligible(Rolled(r, c.now), p, c, name)
  {
  }

  lemma SweepsIsSooner(r: Record, c: Call, i: nat, j: nat)
    requires i < |c.order| && j < |c.order|
    ensures Sweeps(r, c, i, j) <==> Sooner(At(Rolled(r, c.now), c, i), At(Rolled(r, c.now), c, j))
  {
  }

  function PlacesOf(cs: seq<Candidate>): (places: seq<nat>)
    ensures |places| == |cs|
  {
    seq(|cs|, k requires 0 <= k < |cs| => cs[k].pos)
  }

  lemma ChosenArePlaced(r: Record, p: Enrichment, c: Call)
    requires Runs(p, c)
    ensures var chosen := Chosen(r, p, c);
            && AtPlaces(Names(chosen), c, PlacesOf(chosen))
            && (forall k :: 0 <= k < |chosen| ==> Open(r, p, c, Names(chosen)[k]))
            && (forall k :: 0 <= k < |chosen| ==> chosen[k].pos < |c.order| && chosen[k] == At(Rolled(r, c.now), c, chosen[k].pos))
  {
    var chosen := Chosen(r, p, c);
    SelectionIsTheFirst(r, p, c);
    hide Chosen, Eligible, Sooner, Open, Runs;
    forall k | 0 <= k < |chosen|
      ensures chosen[k].pos < |c.order| && chosen[k] == At(Rolled(r, c.now), c, chosen[k].pos) && Open(r, p, c, chosen[k].name)
    {
      assert chosen[k] in chosen;
      OpenIsEligible(r, p, c, chosen[k].name);
    }
  }

  lemma ChosenAreSorted(r: Record, p: Enrichment, c: Call, k: nat, l: nat)
    requires Runs(p, c) && k < l < |Chosen(r, p, c)|
    ensures var chosen := Chosen(r, p, c);
            chosen[k].pos < |c.order| && chosen[l].pos < |c.order| && Sweeps(r, c, chosen[k].pos, chosen[l].pos)
  {
    var chosen := Chosen(r, p, c);
    SelectionIsTheFirst(r, p, c);
    ChosenArePlaced(r, p, c);
    hide Chosen, Eligible, Sooner, Open, Sweeps, Runs;
    assert SoonerOrder()(chosen[k], chosen[l]);
    SweepsIsSooner(r, c, chosen[k].pos, chosen[l].pos);
  }

  /** A place that is left out although open comes after all that are taken, and no room is left. */
  lemma LeftOutIsLater(r: Record, p: Enrichment, c: Call, i: nat)
    requires Runs(p, c) && i < |c.order| && Open(r, p, c, c.order[i]) && i !in PlacesOf(Chosen(r, p, c))
    ensures var chosen, r' := Chosen(r, p, c), Rolled(r, c.now);
            && (|chosen| == p.sweep.perCycle || r'.hourCount + |chosen| >= p.sweep.perHour)
            && forall k :: 0 <= k < |chosen| ==> chosen[k].pos < |c.order| && Sweeps(r, c, chosen[k].pos, i)
  {
    var chosen, r' := Chosen(r, p, c), Rolled(r, c.now);
    SelectionIsTheFirst(r, p, c);
    ChosenArePlaced(r, p, c);
    OpenIsEligible(r, p, c, c.order[i]);
    hide Chosen, Eligible, Sooner, Open, Sweeps, Runs;
    forall k | 0 <= k < |chosen| ensures chosen[k] != At(r', c, i) {
      assert PlacesOf(chosen)[k] in PlacesOf(chosen);
    }
    forall k | 0 <= k < |chosen| ensures Sweeps(r, c, chosen[k].pos, i) {
      assert chosen[k] in chosen;
      SweepsIsSooner(r, c, chosen[k].pos, i);
    }
  }

  lemma RoomLeft(r: Record, p: Enrichment, c: Call)
    requires Runs(p, c)
    ensures var room, n := p.sweep.perHour - CountedSoFar(r, c.now), |Chosen(r, p, c)|;
            && n <= (if room < 0 then 0 else if room < p.sweep.perCycle then room else p.sweep.perCycle)
            && (n == p.sweep.perCycle || Rolled(r, c.now).hourCount + n >= p.sweep.perHour ==>
                  n == if room < 0 then 0 else if room < p.sweep.perCycle then room else p.sweep.perCycle)
    ensures !SwitchedOff(p, c)
  {
    hide StableSort, Candidates;
  }

  /** A cycle selects the first open places, unless it is switched off. */
  lemma SelectionIsAsAsked(r: Record, p: Enrichment, c: Call) returns (places: seq<nat>)
    ensures if SwitchedOff(p, c) then Chosen(r, p, c) == [] else IsSelection(Names(Chosen(r, p, c)), r, p, c, places)
  {
    var chosen := Chosen(r, p, c);
    places := PlacesOf(chosen);
    if Runs(p, c) {
      RoomLeft(r, p, c);
      ChosenArePlaced(r, p, c);
      hide Chosen, Open, Sweeps, Runs, SwitchedOff, AtPlaces;
      forall k, l | 0 <= k < l < |places| ensures places[k] < |c.order| && places[l] < |c.order| && Sweeps(r, c, places[k], places[l]) {
        ChosenAreSorted(r, p, c, k, l);
      }
      forall i | 0 <= i < |c.order| && Open(r, p, c, c.order[i]) && i !in places
        ensures |chosen| == p.sweep.perCycle || Rolled(r, c.now).hourCount + |chosen| >= p.sweep.perHour
        ensures forall k <- places :: k < |c.order| && Sweeps(r, c, k, i)
      {
        LeftOutIsLater(r, p, c, i);
      }
    } else {
      NothingChosen(r, p, c);
    }
  }

  /** The hour's count goes up by what was selected, after it has started again if an hour has passed. */
  lemma AfterIsCounted(r: Record, p: Enrichment, c: Call)
    ensures After(r, p, c) ==
              if SwitchedOff(p, c) then r
              else Record(if FreshHour(r, c.now) then Some(c.now) else r.hourStart, CountedSoFar(r, c.now) + |Chosen(r, p, c)|, r.last)
  {
    hide Chosen;
  }

  // ------------------------------------------------------- the budget over time

  datatype Event = Cycle(call: Call) | Mark(name: string, at: int)

  function TimeOf(e: Event): int {
    match e
    case Cycle(c) => c.now
    case Mark(_, at) => at
  }

  function Step(r: Record, p: Enrichment, e: Event): Record {
    match e
    case Cycle(c) => After(r, p, c)
    case Mark(name, at) => Marked(r, name, at)
  }

  function Run(p: Enrichment, es: seq<Event>): Record {
    if es == [] then UNSEEN else Step(Run(p, es[..|es| - 1]), p, es[|es| - 1])
  }

  /** How many namespaces event k selects. */
  function Picks(p: Enrichment, es: seq<Event>, k: nat): nat
    requires k < |es|
  {
    match es[k]
    case Cycle(c) => |Chosen(Run(p, es[..k]), p, c)|
    case Mark(_, _) => 0
  }

  function PicksBetween(p: Enrichment, es: seq<Event>, i: nat, j: nat): nat
    requires i <= j <= |es|
  {
    if i == j then 0 else PicksBetween(p, es, i, j - 1) + Picks(p, es, j - 1)
  }

  /** The selections of the events that fall into the hour that started at h. */
  function PicksInHour(p: Enrichment, es: seq<Event>, n: nat, h: int): nat
    requires n <= |es|
  {
    if n == 0 then 0
    else
      PicksInHour(p, es, n - 1, h)
      + if Run(p, es[..n]).hourStart == Some(h) then Picks(p, es, n - 1) else 0
  }

  ghost predicate ClockRuns(es: seq<Event>) {
    forall i, j :: 0 <= i < j < |es| ==> TimeOf(es[i]) <= TimeOf(es[j])
  }

  lemma StepOf(p: Enrichment, es: seq<Event>, k: nat)
    requires k < |es|
    ensures Run(p, es[..k + 1]) == Step(Run(p, es[..k]), p, es[k])
  {
    assert es[..k + 1][..k] == es[..k];
  }

  /** What one event does to the window: count on, or start again. */
  lemma StepCounts(p: Enrichment, es: seq<Event>, k: nat)
    requires k < |es| && p.sweep.perHour >= 0
    requires Run(p, es[..k]).hourCount <= p.sweep.perHour
    ensures var r, r', n := Run(p, es[..k]), Run(p, es[..k + 1]), Picks(p, es, k);
            && r'.hourCount <= p.sweep.perHour
            && (r'.hourStart == r.hourStart ==> r'.hourCount == r.hourCount + n)
            && (r'.hourStart != r.hourStart ==>
                  && r'.hourStart == Some(TimeOf(es[k])) && r'.hourCount == n
                  && (r.hourStart.Some? ==> TimeOf(es[k]) - r.hourStart.value >= HOUR))
  {
    hide Chosen, Run;
    StepOf(p, es, k);
    var r := Run(p, es[..k]);
    if es[k].Cycle? {
      var c := es[k].call;
      if Runs(p, c) {
        hide Runs;
        SelectionIsTheFirst(r, p, c);
      } else {
        NothingChosen(r, p, c);
      }
    }
  }

  /** The count never exceeds the hourly budget. */
  lemma {:induction false} CountIsBounded(p: Enrichment, es: seq<Event>, n: nat)
    requires p.sweep.perHour >= 0 && n <= |es|
    ensures 0 <= Run(p, es[..n]).hourCount <= p.sweep.perHour
  {
    if n > 0 {
      CountIsBounded(p, es, n - 1);
      hide Run;
      StepCounts(p, es, n - 1);
    }
  }

  /** The selections of one hour, counted from its start, stay within the budget. */
  lemma {:induction false} HourlyBudget(p: Enrichment, es: seq<Event>, n: nat, h: int)
    requires p.sweep.perHour >= 0 && n <= |es| && ClockRuns(es)
    ensures PicksInHour(p, es, n, h) <= p.sweep.perHour
    ensures var r := Run(p, es[..n]);
            && (r.hourStart == Some(h) ==> PicksInHour(p, es, n, h) == r.hourCount)
            && (r.hourStart == None ==> PicksInHour(p, es, n, h) == 0)
            && (r.hourStart.Some? && r.hourStart.value < h ==> PicksInHour(p, es, n, h) == 0)
            && (r.hourStart.Some? ==> n > 0 && r.hourStart.value <= TimeOf(es[n - 1]))
  {
    if n > 0 {
      HourlyBudget(p, es, n - 1, h);
      CountIsBounded(p, es, n - 1);
      hide Run, Picks;
      StepCounts(p, es, n - 1);
    } else {
      assert es[..0] == [];
    }
  }

  /**
   The selections from event i on: all in the hour that ran at event i, or one new hour has
   begun since, or an hour has passed.
  */
  lemma {:induction false} BudgetSince(p: Enrichment, es: seq<Event>, i: nat, j: nat)
    requires p.sweep.perHour >= 0 && i < j <= |es| && ClockRuns(es)
    requires TimeOf(es[j - 1]) - TimeOf(es[i]) < HOUR
    ensures var r, r', n := Run(p, es[..i]), Run(p, es[..j]), PicksBetween(p, es, i, j);
            || (r'.hourStart == r.hourStart && n == r'.hourCount - r.hourCount)
            || (r'.hourStart.Some? && r'.hourStart.value >= TimeOf(es[i]) && n <= p.sweep.perHour + r'.hourCount)
  {
    hide Run, Picks;
    CountIsBounded(p, es, i);
    CountIsBounded(p, es, j - 1);
    if j > i + 1 {
      BudgetSince(p, es, i, j - 1);
    }
    StepCounts(p, es, j - 1);
  }

  /** In any interval shorter than an hour at most twice the hourly budget is selected. */
  lemma BudgetInAnyHour(p: Enrichment, es: seq<Event>, i: nat, j: nat)
    requires p.sweep.perHour >= 0 && ClockRuns(es) && i <= j <= |es|
    ensures i < j && TimeOf(es[j - 1]) - TimeOf(es[i]) < HOUR ==> PicksBetween(p, es, i, j) <= 2 * p.sweep.perHour
  {
    hide Run, Picks, PicksBetween;
    if i < j && TimeOf(es[j - 1]) - TimeOf(es[i]) < HOUR {
      BudgetSince(p, es, i, j);
      CountIsBounded(p, es, i);
      CountIsBounded(p, es, j);
    }
  }

  /** The factor of two is reached: an hour that ends with a selection, and the next that starts with one. */
  const ONE_AN_HOUR := DEFAULT_ENRICHMENT.(sweep := DEFAULT_SWEEP.(enabled := true, perCycle := 1, perHour := 1))
  const STRADDLE := [
    Cycle(Call([], [], false, false, 0)),
    Cycle(Call(["a"], [], false, false, HOUR - 1)),
    Cycle(Call(["b"], [], false, false, HOUR))]

  lemma OneName(r: Record, name: string, now: int)
    requires r.last == map[] && name != "" && !IsSystem(name) && Rolled(r, now).hourCount == 0
    ensures |Chosen(r, ONE_AN_HOUR, Call([name], [], false, false, now))| == 1
  {
    var c, r' := Call([name], [], false, false, now), Rolled(r, now);
    assert Candidates(r', ONE_AN_HOUR, c, 0) == [];
    assert |Candidates(r', ONE_AN_HOUR, c, 1)| == 1;
    SoonerIsWeak();
    SortedElements(Candidates(r', ONE_AN_HOUR, c, 1), SoonerOrder());
  }

  lemma TwiceIsReached()
    ensures ClockRuns(STRADDLE)
    ensures TimeOf(STRADDLE[2]) - TimeOf(STRADDLE[1]) == 1
    ensures PicksBetween(ONE_AN_HOUR, STRADDLE, 1, 3) == 2 * ONE_AN_HOUR.sweep.perHour
  {
    var p, es := ONE_AN_HOUR, STRADDLE;
    var r1 := Record(Some(0), 0, map[]);
    assert Run(p, es[..0]) == UNSEEN;
    StepOf(p, es, 0);
    NoNames(UNSEEN, es[0].call);
    assert Run(p, es[..1]) == r1;
    OneName(r1, "a", HOUR - 1);
    StepOf(p, es, 1);
    assert Run(p, es[..2]) == Record(Some(0), 1, map[]);
    OneName(Record(Some(0), 1, map[]), "b", HOUR);
    hide Run, Chosen;
    assert Picks(p, es, 1) == 1 && Picks(p, es, 2) == 1;
    assert PicksBetween(p, es, 1, 1) == 0;
    assert PicksBetween(p, es, 1, 2) == 1;
  }

  lemma NoNames(r: Record, c: Call)
    requires c.order == []
    ensures Chosen(r, ONE_AN_HOUR, c) == []
  {
    var r' := Rolled(r, c.now);
    assert Candidates(r', ONE_AN_HOUR, c, 0) == [];
    assert StableSort<Candidate>([], SoonerOrder()) == [];
  }

  /** Under a validated policy no hour sees more than 500 selections, and no cycle more than 25. */
  lemma ValidatedBudget(p: Policy, e: Env, es: seq<Event>, n: nat, h: int)
    requires Sound(e) && n <= |es| && ClockRuns(es)
    ensures var s := Validate(p, e).enrichment;
            1 <= s.sweep.perCycle <= 25 && PicksInHour(s, es, n, h) <= s.sweep.perHour <= 500
  {
    SweepIsValid(p, e);
    hide Validate, PicksInHour, ClockRuns, Sound;
    HourlyBudget(Validate(p, e).enrichment, es, n, h);
  }

  lemma SweepIsValid(p: Policy, e: Env)
    ensures SweepValid(Validate(p, e).enrichment.sweep)
  {
    hide ValidSignals, ValidTtl, DetectorsOf, ClampedMetrics, ClampedDashboard, DEFAULT_TTL, ValidWarmKinds;
  }

  // ------------------------------------------------------------------- the code

  class Sweeper {
    var hourStart: map<string, int>
    var hourCount: map<string, int>
    var lastSwept: map<string, map<string, int>>

    ghost function View(cluster: string): Record
      reads this
    {
      Record(if cluster in hourStart then Some(hourStart[cluster]) else None,
             if cluster in hourCount then hourCount[cluster] else 0,
             if cluster in lastSwept then lastSwept[cluster] else map[])
    }

    constructor ()
      ensures forall cluster :: View(cluster) == UNSEEN
    {
      hourStart, hourCount, lastSwept := map[], map[], map[];
    }

    method RollHour(cluster: string, now: int)
      modifies this`hourStart, this`hourCount
      ensures forall other :: View(other) == if other == cluster then Rolled(old(View(other)), now) else old(View(other))
    {
      if cluster !in hourStart || now - hourStart[cluster] >= HOUR {
        hourStart := hourStart[cluster := now];
        hourCount := hourCount[cluster := 0];
      }
    }

    method SelectNamespaceSweepNames(cluster: string, p: Enrichment, c: Call) returns (out: seq<string>)
      modifies this
      ensures out == Names(Chosen(old(View(cluster)), p, c))
      ensures View(cluster) == After(old(View(cluster)), p, c)
      ensures if SwitchedOff(p, c) then out == [] else exists places :: IsSelection(out, old(View(cluster)), p, c, places)
      ensures forall other :: other != cluster ==> View(other) == old(View(other))
    {
      ghost var places := SelectionIsAsAsked(View(cluster), p, c);
      hide IsSelection;
      hide StableSort, Eligible, Names, Candidates, Rolled;
      NoNamesAtAll();
      if !p.enabled || !p.sweep.enabled || p.sweep.perCycle <= 0 || p.sweep.perHour <= 0 {
        return [];
      }
      if p.sweep.pauseWhenBusy && c.busy {
        return [];
      }
      if p.sweep.pauseOnIssues && c.blocked {
        return [];
      }
      RollHour(cluster, c.now);
      ghost var r := View(cluster);
      var count := if cluster in hourCount then hourCount[cluster] else 0;
      var remainingHour := p.sweep.perHour - count;
      if remainingHour <= 0 {
        return [];
      }
      var limit := p.sweep.perCycle;
      if remainingHour < limit {
        limit := remainingHour;
      }
      if cluster !in lastSwept {
        lastSwept := lastSwept[cluster := map[]];
      }
      out := PickNames(lastSwept[cluster], p, c, limit, r);
      hourCount := hourCount[cluster := count + |out|];
    }

    method MarkNamespaceSwept(cluster: string, namespace: string, now: int)
      modifies this`lastSwept
      ensures forall other :: View(other) ==
                if other == cluster && cluster != "" && namespace != "" then
                  old(View(other)).(last := old(View(other)).last[namespace := now])
                else old(View(other))
    {
      if cluster == "" || namespace == "" {
        return;
      }
      if cluster !in lastSwept {
        lastSwept := lastSwept[cluster := map[]];
      }
      lastSwept := lastSwept[cluster := lastSwept[cluster][namespace := now]];
    }
  }

  lemma NoNamesAtAll()
    ensures Names([]) == []
  {
  }

  method PickNames(last: map<string, int>, p: Enrichment, c: Call, limit: int, ghost r: Record) returns (out: seq<string>)
    requires r.last == last && limit > 0
    ensures out == Names(First(StableSort(Candidates(r, p, c, |c.order|), SoonerOrder()), limit))
  {
    hide StableSort, Candidates, Names;
    var candidates := CollectCandidates(last, p, c, r);
    candidates := StableSort(candidates, SoonerOrder());
    if |candidates| > limit {
      candidates := candidates[..limit];
    }
    out := NamesOf(candidates);
  }

  method NamesOf(candidates: seq<Candidate>) returns (out: seq<string>)
    ensures out == Names(candidates)
  {
    out := [];
    for i := 0 to |candidates|
      invariant out == Names(candidates[..i])
    {
      assert candidates[..i + 1] == candidates[..i] + [candidates[i]];
      out := out + [candidates[i].name];
    }
    assert candidates[..|candidates|] == candidates;
  }

  /** The loop over the list. */
  method CollectCandidates(last: map<string, int>, p: Enrichment, c: Call, ghost r: Record) returns (candidates: seq<Candidate>)
    requires r.last == last
    ensures candidates == Candidates(r, p, c, |c.order|)
  {
    candidates := [];
    for pos := 0 to |c.order|
      invariant candidates == Candidates(r, p, c, pos)
    {
      var name := c.order[pos];
      if name == "" {
        continue;
      }
      if name in c.focused {
        continue;
      }
      if !p.sweep.includeSystem && IsSystem(name) {
        continue;
      }
      if name in last && c.now - last[name] < p.sweep.minInterval * MINUTE {
        continue;
      }
      candidates := candidates + [Candidate(name, if name in last then Some(last[name]) else None, pos)];
    }
  }
}

/**
 What validation makes of any policy and what an override takes from any policy, setting by
 setting and in plain numbers.
*/
module PolicyEffects {
  import opened Options
  import opened Policy
  import opened PolicyOrders
  import opened Bundles

  /** A value within its range stays; any other becomes the default. */
  function Fit(n: int, min: int, max: int, default: int): int {
    if min <= n && n <= max then n else default
  }

  // -------------------------------------------------------- sections of numbers

  predicate ObserversSettle(o: Observers, v: Observers, manual: bool) {
    && v.nsInterval == Fit(o.nsInterval, 10, 3600, 120) && v.nodesInterval == Fit(o.nodesInterval, 10, 3600, 180)
    && v.nodesBackoff == Fit(o.nodesBackoff, 30, 3600, 300)
    && v.enabled == (o.enabled && !manual) && v.nsEnabled == o.nsEnabled && v.nodesEnabled == o.nodesEnabled
  }

  predicate SweepSettles(s: Sweep, v: Sweep, manual: bool) {
    && v.idleQuietMs == Fit(s.idleQuietMs, 5000, 300000, 30000) && v.perCycle == Fit(s.perCycle, 1, 25, 2)
    && v.perHour == Fit(s.perHour, 1, 500, 30) && v.minInterval == Fit(s.minInterval, 5, 1440, 360)
    && v.maxParallel == Fit(s.maxParallel, 1, 4, 1)
    && v.enabled == (s.enabled && !manual) && v.pauseOnActivity == s.pauseOnActivity && v.pauseWhenBusy == s.pauseWhenBusy
    && v.pauseOnIssues == s.pauseOnIssues && v.includeSystem == s.includeSystem
  }

  ghost predicate EnrichmentSettles(n: Enrichment, v: Enrichment, manual: bool) {
    && v.recentLimit == Fit(n.recentLimit, 0, 200, 20) && v.favouriteLimit == Fit(n.favouriteLimit, 0, 200, 40)
    && v.maxTargets == Fit(n.maxTargets, 0, 250, 32) && v.maxParallel == Fit(n.maxParallel, 1, 8, 2)
    && v.idleQuietMs == Fit(n.idleQuietMs, 0, 60000, 2000) && v.pollMs == Fit(n.pollMs, 500, 60000, 1500)
    && v.enabled == (n.enabled && !manual) && v.includeFocus == n.includeFocus && v.includeRecent == n.includeRecent
    && v.includeFavourites == n.includeFavourites && v.details == n.details && v.pods == n.pods && v.deployments == n.deployments
    && KindsSettle(n.warmKinds, v.warmKinds) && SweepSettles(n.sweep, v.sweep, manual)
  }

  predicate AllContextsSettle(a: AllContexts, v: AllContexts) {
    && v.interval == Fit(a.interval, 60, 3600, 300) && v.perCycle == Fit(a.perCycle, 1, 25, 1)
    && v.idleQuietMs == Fit(a.idleQuietMs, 5000, 300000, 30000)
    && v.enabled == a.enabled && v.pauseOnActivity == a.pauseOnActivity && v.pauseWhenBusy == a.pauseWhenBusy
  }

  predicate BudgetSettles(b: Budget, v: Budget) {
    && v.maxConcurrent == Fit(b.maxConcurrent, 1, 16, 4) && v.maxBackground == Fit(b.maxBackground, 1, v.maxConcurrent, 2)
    && v.longRunNotice == Fit(b.longRunNotice, 0, 300, 2) && v.retries == Fit(b.retries, 1, 6, 3)
  }

  /** The position of a kind's first mention. */
  predicate FirstAt(kinds: seq<string>, k: string, i: int) {
    0 <= i < |kinds| && kinds[i] == k && forall j :: 0 <= j < i ==> kinds[j] != k
  }

  ghost predicate ComesFirst(kinds: seq<string>, k: string, l: string) {
    exists a, b :: a < b && FirstAt(kinds, k, a) && FirstAt(kinds, l, b)
  }

  /** The allowed kinds stay, each once, in the order of their first mention; without any the default takes their place. */
  ghost predicate KindsSettle(kinds: seq<string>, v: seq<string>) {
    if forall k <- kinds :: k !in ALLOWED_WARM then
      v == ["pods", "deployments", "resourcequotas", "limitranges"]
    else
      && (forall k :: k in v <==> k in kinds && k in ALLOWED_WARM)
      && (forall i, j :: 0 <= i < j < |v| ==> ComesFirst(kinds, v[i], v[j]))
  }

  /** The metrics entries follow the metrics settings, the other default kinds are brought in range, and the rest stays. */
  predicate TtlSettles(ttl: Option<map<string, int>>, v: Option<map<string, int>>, podTtl: int, nodeTtl: int) {
    v.Some?
    && var t := if ttl.Some? then ttl.value else map[];
       && v.value.Keys == t.Keys + DEFAULT_TTL.Keys
       && forall k <- v.value :: v.value[k] ==
            if k == PODMETRICS then podTtl else if k == NODEMETRICS then nodeTtl
            else if k in DEFAULT_TTL then Fit(if k in t then t[k] else 0, 5, 3600, DEFAULT_TTL[k])
            else if k in t then t[k] else 0
  }

  // ---------------------------------------------- detectors and older settings

  /** A detector's value, or else that of the older setting if it is in range. */
  function Detected(value: int, older: int, min: int, max: int, default: int): int {
    if value <= 0 then Fit(older, min, max, default) else Fit(value, min, max, default)
  }

  /** The detectors take over what the older settings say, and the older settings then say what the detectors say. */
  predicate DetectorsSettle(p: Policy, v: Policy) {
    var d, u := p.signals.detectors, v.signals.detectors;
    var warn := Detected(d.quotaWarn, p.signals.quotaWarn, 1, 99, 80);
    var crit := Detected(d.quotaCrit, p.signals.quotaCrit, 1, 100, 90);
    && u.restarts == Detected(d.restarts, p.dashboard.restartThreshold, 1, 1000, 3)
    && u.containerPct == Detected(d.containerPct, p.metrics.containerPct, 50, 100, 90)
    && u.nodePct == Detected(d.nodePct, p.metrics.nodePct, 50, 100, 85)
    && (if warn < crit then u.quotaWarn == warn && u.quotaCrit == crit else u.quotaWarn == 80 && u.quotaCrit == 90)
    && v.dashboard.restartThreshold == u.restarts && v.metrics.containerPct == u.containerPct && v.metrics.nodePct == u.nodePct
    && v.signals.quotaWarn == u.quotaWarn && v.signals.quotaCrit == u.quotaCrit
  }

  predicate DashboardSettles(d: Dashboard, v: Dashboard) {
    v.refresh == Fit(d.refresh, 0, 3600, 10) && v.signalLimit == Fit(d.signalLimit, 1, 100, 10) && v.cachedTotals == d.cachedTotals
  }

  predicate MetricsSettle(m: Metrics, v: Metrics) {
    v.podTtl == Fit(m.podTtl, 15, 300, 30) && v.nodeTtl == Fit(m.nodeTtl, 15, 300, 30) && v.enabled == m.enabled
  }

  predicate TimesSettle(s: Signals, v: Signals) {
    && v.longJob == Fit(s.longJob, 60, 604800, 21600) && v.cronJob == Fit(s.cronJob, 300, 2592000, 86400)
    && v.staleHelm == Fit(s.staleHelm, 60, 86400, 900) && v.unused == Fit(s.unused, 300, 2592000, 86400)
    && v.youngPod == Fit(s.youngPod, 60, 86400, 1800) && v.unavailable == Fit(s.unavailable, 60, 86400, 600)
  }

  // ------------------------------------------------------------ signal overrides

  predicate IsSeverity(s: string) {
    s in ["high", "medium", "low"]
  }

  /** The override says something that validation keeps. */
  predicate Meaningful(o: SignalOverride) {
    o.enabled.Some? || IsSeverity(o.severity) || o.priority.Some?
  }

  /** What is kept of an override: an unknown severity goes, a priority out of range becomes 10. */
  predicate KeptAs(o: SignalOverride, v: SignalOverride) {
    && v.enabled == o.enabled && v.severity == (if IsSeverity(o.severity) then o.severity else "")
    && v.priority == if o.priority.Some? then Some(Fit(o.priority.value, 0, 100, 10)) else None
  }

  /** The name, trimmed, is that of a known signal, and its override means something. */
  predicate Speaks(m: Overrides, k: string, e: Env, t: string) {
    k in m && t != "" && e.trim(k) == t && e.known(t) && Meaningful(m[k])
  }

  /** A signal has an override if some name of it speaks, and then what one of these says. */
  ghost predicate OverridesSettle(m: Overrides, v: Overrides, e: Env) {
    && (forall t :: t in v <==> exists k :: Speaks(m, k, e, t))
    && (forall t <- v :: exists k :: Speaks(m, k, e, t) && KeptAs(m[k], v[t]))
  }

  ghost predicate SpeaksAtAll(m: Overrides, e: Env) {
    exists k, t :: Speaks(m, k, e, t)
  }

  ghost predicate ContextSpeaks(m: map<string, Overrides>, c: string, e: Env, t: string) {
    c in m && t != "" && e.trim(c) == t && SpeaksAtAll(m[c], e)
  }

  ghost predicate ContextsSettle(m: map<string, Overrides>, v: map<string, Overrides>, e: Env) {
    && (forall t :: t in v <==> exists c :: ContextSpeaks(m, c, e, t))
    && (forall t <- v :: exists c :: ContextSpeaks(m, c, e, t) && OverridesSettle(m[c], v[t], e))
  }

  // ------------------------------------------------------------------ the theorem

  /** Everything validation does to a policy. */
  ghost predicate Settles(p: Policy, v: Policy, e: Env) {
    && v.profile == (if p.profile in ["manual", "focused", "balanced", "wide", "diagnostic"] then p.profile else "focused")
    && TtlSettles(p.snapshots.ttl, v.snapshots.ttl, v.metrics.podTtl, v.metrics.nodeTtl)
    && v.snapshots.manualBypass == p.snapshots.manualBypass && v.snapshots.invalidateWrites == p.snapshots.invalidateWrites
    && v.persistence.maxAgeHours == Fit(p.persistence.maxAgeHours, 1, 720, 168) && v.persistence.enabled == p.persistence.enabled
    && ObserversSettle(p.observers, v.observers, p.profile == "manual")
    && EnrichmentSettles(p.enrichment, v.enrichment, p.profile == "manual")
    && AllContextsSettle(p.allContexts, v.allContexts) && BudgetSettles(p.budget, v.budget)
    && DashboardSettles(p.dashboard, v.dashboard) && MetricsSettle(p.metrics, v.metrics) && DetectorsSettle(p, v)
    && TimesSettle(p.signals, v.signals)
    && OverridesSettle(p.signals.overrides, v.signals.overrides, e) && ContextsSettle(p.signals.contexts, v.signals.contexts, e)
  }

  lemma KeptIsValid(o: SignalOverride)
    ensures Meaningful(o) <==> !IsEmpty(ValidOverride(o))
    ensures forall v :: KeptAs(o, v) <==> v == ValidOverride(o)
  {
  }

  lemma SpeaksCounts(m: Overrides, k: string, e: Env, t: string)
    ensures Speaks(m, k, e, t) <==> k in m && Counts(m, k, e) && e.trim(k) == t
  {
    hide Meaningful, ValidOverride, IsEmpty;
    if k in m {
      KeptIsValid(m[k]);
    }
  }

  lemma NormalizedSettles(m: Overrides, e: Env)
    requires Sound(e)
    ensures OverridesSettle(m, Normalized(m, e), e)
    ensures Normalized(m, e) != map[] <==> SpeaksAtAll(m, e)
  {
    hide Normalized, Counts, Speaks, KeptAs, ValidOverride, Sound;
    var v := Normalized(m, e);
    forall t ensures t in v <==> exists k :: Speaks(m, k, e, t) {
      NormalizedExactly(m, e, t);
      if k :| k in m && Counts(m, k, e) && e.trim(k) == t {
        SpeaksCounts(m, k, e, t);
      }
      if k :| Speaks(m, k, e, t) {
        SpeaksCounts(m, k, e, t);
      }
    }
    forall t <- v ensures exists k :: k in m && Speaks(m, k, e, t) && KeptAs(m[k], v[t]) {
      NormalizedExactly(m, e, t);
      var k :| k in m && Counts(m, k, e) && e.trim(k) == t && v[t] == ValidOverride(m[k]);
      SpeaksCounts(m, k, e, t);
      KeptIsValid(m[k]);
    }
    if k, t :| Speaks(m, k, e, t) {
      assert t in v;
    }
    if v != map[] {
      var t :| t in v;
    }
  }

  lemma SameSurroundingsSettle(m: Overrides, v: Overrides, e: Env, f: Env)
    requires e.trim == f.trim && e.known == f.known
    ensures OverridesSettle(m, v, e) <==> OverridesSettle(m, v, f)
    ensures SpeaksAtAll(m, e) <==> SpeaksAtAll(m, f)
  {
    hide Meaningful, KeptAs;
    assert forall k, t :: Speaks(m, k, e, t) <==> Speaks(m, k, f, t);
    hide Speaks;
  }

  lemma ContextSpeaksLives(m: map<string, Overrides>, c: string, e: Env, t: string)
    requires Sound(e)
    ensures ContextSpeaks(m, c, e, t) <==> c in m && Live(m, c, e) && e.trim(c) == t
    ensures c in m ==> OverridesSettle(m[c], Left(m, c, e), e)
  {
    hide Normalized, SpeaksAtAll, Sound, Says, OverridesSettle;
    if c in m {
      var d := Sub(e, InContext(c));
      SubIsSound(e, InContext(c));
      AlikeIsSound(e, d);
      NormalizedSettles(m[c], d);
      SameSurroundingsSettle(m[c], Normalized(m[c], d), e, d);
      LeftSays(m, c, e);
    }
  }

  lemma NormalizedContextsSettle(m: map<string, Overrides>, e: Env)
    requires Sound(e)
    ensures ContextsSettle(m, NormalizedContexts(m, e), e)
  {
    hide NormalizedContexts, ContextSpeaks, OverridesSettle, Left, Live, Sound;
    var v := NormalizedContexts(m, e);
    forall t ensures t in v <==> exists c :: ContextSpeaks(m, c, e, t) {
      ContextsExactly(m, e, t);
      if c :| c in m && Live(m, c, e) && e.trim(c) == t {
        ContextSpeaksLives(m, c, e, t);
      }
      if c :| ContextSpeaks(m, c, e, t) {
        ContextSpeaksLives(m, c, e, t);
      }
    }
    forall t <- v ensures exists c :: c in m && ContextSpeaks(m, c, e, t) && OverridesSettle(m[c], v[t], e) {
      ContextsExactly(m, e, t);
      var c :| c in m && Live(m, c, e) && e.trim(c) == t && v[t] == Left(m, c, e);
      ContextSpeaksLives(m, c, e, t);
    }
  }

  lemma SignalMapsSettle(s: Signals, d: Detectors, e: Env)
    requires Sound(e)
    ensures OverridesSettle(s.overrides, ValidSignals(s, d, e).overrides, e)
    ensures ContextsSettle(s.contexts, ValidSignals(s, d, e).contexts, e)
  {
    hide OverridesSettle, ContextSpeaks, Normalized, NormalizedContexts, Sound;
    var f, g := Sub(e, InSignals), Sub(e, InContexts);
    SubIsSound(e, InSignals);
    SubIsSound(e, InContexts);
    AlikeIsSound(e, f);
    AlikeIsSound(e, g);
    NormalizedSettles(s.overrides, f);
    SameSurroundingsSettle(s.overrides, Normalized(s.overrides, f), e, f);
    NormalizedContextsSettle(s.contexts, g);
    SameContextsSettle(s.contexts, NormalizedContexts(s.contexts, g), e, g);
  }

  lemma SameContextsSettle(m: map<string, Overrides>, v: map<string, Overrides>, e: Env, f: Env)
    requires e.trim == f.trim && e.known == f.known && ContextsSettle(m, v, f)
    ensures ContextsSettle(m, v, e)
  {
    hide SpeaksAtAll, OverridesSettle;
    forall c, t ensures ContextSpeaks(m, c, e, t) <==> ContextSpeaks(m, c, f, t) {
      if c in m { SameSurroundingsSettle(m[c], map[], e, f); }
    }
    hide ContextSpeaks;
    forall t <- v ensures exists c :: c in m && ContextSpeaks(m, c, e, t) && OverridesSettle(m[c], v[t], e) {
      var c :| ContextSpeaks(m, c, f, t) && OverridesSettle(m[c], v[t], f);
      assert ContextSpeaks(m, c, e, t);
      SameSurroundingsSettle(m[c], v[t], e, f);
    }
  }

  lemma {:induction false} WarmKindsExactly(kinds: seq<string>)
    ensures var v := WarmKinds(kinds);
            && (forall k :: k in v <==> k in kinds && k in ALLOWED_WARM)
            && (forall i, j :: 0 <= i < j < |v| ==> ComesFirst(kinds, v[i], v[j]))
  {
    hide ALLOWED_WARM;
    if kinds != [] {
      var n := |kinds| - 1;
      var front, v := WarmKinds(kinds[..n]), WarmKinds(kinds);
      WarmKindsExactly(kinds[..n]);
      assert kinds == kinds[..n] + [kinds[n]];
      forall i, j | 0 <= i < j < |v| ensures ComesFirst(kinds, v[i], v[j]) {
        if j < |front| {
          assert v[i] == front[i] && v[j] == front[j] && ComesFirst(kinds[..n], front[i], front[j]);
          var a, b :| a < b && FirstAt(kinds[..n], v[i], a) && FirstAt(kinds[..n], v[j], b);
          assert FirstAt(kinds, v[i], a) && FirstAt(kinds, v[j], b);
        } else {
          assert front[i] in kinds[..n];
          var a := FirstMention(kinds[..n], front[i]);
          assert FirstAt(kinds, v[i], a);
          assert FirstAt(kinds, v[j], n) by {
            assert v[j] !in front && v[j] in ALLOWED_WARM;
            assert forall b :: 0 <= b < n ==> kinds[..n][b] == kinds[b] && kinds[b] in kinds[..n];
          }
        }
      }
    }
  }

  lemma {:induction false} FirstMention(kinds: seq<string>, k: string) returns (i: int)
    requires k in kinds
    ensures FirstAt(kinds, k, i)
  {
    var n := |kinds| - 1;
    if k in kinds[..n] {
      i := FirstMention(kinds[..n], k);
      assert forall j :: 0 <= j <= i ==> kinds[..n][j] == kinds[j];
    } else {
      i := n;
      assert forall j :: 0 <= j < n ==> kinds[..n][j] == kinds[j] && kinds[j] in kinds[..n];
    }
  }

  lemma ValidKindsSettle(kinds: seq<string>)
    ensures KindsSettle(kinds, ValidWarmKinds(kinds))
  {
    hide ALLOWED_WARM, WarmKinds, ComesFirst;
    WarmKindsExactly(kinds);
    if k :| k in kinds && k in ALLOWED_WARM {
      assert k in WarmKinds(kinds);
    } else {
      SomeOrNone(WarmKinds(kinds));
    }
  }

  lemma SomeOrNone(s: seq<string>)
    ensures s == [] || exists k :: k in s
  {
    if s != [] {
      assert s[0] in s;
    }
  }

  lemma NumbersSettle(p: Policy)
    ensures AllContextsSettle(p.allContexts, ValidAllContexts(p.allContexts)) && BudgetSettles(p.budget, ValidBudget(p.budget))
    ensures ObserversSettle(p.observers, ValidObservers(p.observers), false)
    ensures SweepSettles(p.enrichment.sweep, ValidSweep(p.enrichment.sweep), false)
    ensures EnrichmentSettles(p.enrichment, ValidEnrichment(p.enrichment), false)
  {
    hide ValidWarmKinds, KindsSettle;
    ValidKindsSettle(p.enrichment.warmKinds);
  }

  lemma ValidTtlSettles(ttl: Option<map<string, int>>, pod: int, node: int)
    ensures TtlSettles(ttl, Some(ValidTtl(ttl)[PODMETRICS := pod][NODEMETRICS := node]), pod, node)
  {
    DefaultTtlInRange();
    hide DEFAULT_TTL, PODMETRICS, NODEMETRICS;
  }

  lemma DetectorsAreSettled(p: Policy, e: Env)
    ensures DetectorsSettle(p, Assembled(p, e))
    ensures DashboardSettles(p.dashboard, Assembled(p, e).dashboard) && MetricsSettle(p.metrics, Assembled(p, e).metrics)
    ensures TimesSettle(p.signals, Assembled(p, e).signals)
  {
    hide Normalized, NormalizedContexts, ValidTtl, ValidEnrichment, ValidObservers, ValidProfile, ValidBudget, ValidAllContexts;
  }

  lemma ManualSettles(o: Observers, ov: Observers, n: Enrichment, nv: Enrichment)
    requires ObserversSettle(o, ov, false) && EnrichmentSettles(n, nv, false)
    ensures ObserversSettle(o, ov.(enabled := false), true)
    ensures EnrichmentSettles(n, nv.(enabled := false, sweep := nv.sweep.(enabled := false)), true)
  {
    hide KindsSettle;
  }

  lemma DetectorsSettleOff(p: Policy, a: Policy)
    requires DetectorsSettle(p, a)
    ensures DetectorsSettle(p, ManualOff(a))
  {
  }

  lemma AssembledSettles(p: Policy, e: Env)
    requires Sound(e)
    ensures Settles(p, ManualOff(Assembled(p, e)), e)
  {
    hide OverridesSettle, ContextsSettle, KindsSettle, TtlSettles, DetectorsSettle, TimesSettle, Sound, ValidTtl;
    hide ObserversSettle, EnrichmentSettles, AllContextsSettle, BudgetSettles, DashboardSettles, MetricsSettle;
    hide DetectorsOf, ClampedDashboard, ClampedMetrics, ValidSignals, ValidObservers, ValidEnrichment, ValidAllContexts, ValidBudget;
    var a := Assembled(p, e);
    NumbersSettle(p);
    ManualSettles(p.observers, a.observers, p.enrichment, a.enrichment);
    ValidTtlSettles(p.snapshots.ttl, a.metrics.podTtl, a.metrics.nodeTtl);
    AssembledTtl(p, e);
    DetectorsAreSettled(p, e);
    SignalMapsSettle(p.signals, DetectorsOf(p), e);
    DetectorsSettleOff(p, a);
  }

  lemma AssembledTtl(p: Policy, e: Env)
    ensures var a := Assembled(p, e);
            a.snapshots.ttl == Some(ValidTtl(p.snapshots.ttl)[PODMETRICS := a.metrics.podTtl][NODEMETRICS := a.metrics.nodeTtl])
  {
    hide ValidTtl, ValidSignals, ValidDetectors, Migrated, PODMETRICS, NODEMETRICS;
  }

  /** Every setting of every policy, after validation; a policy without a profile and a TTL table becomes the default. */
  lemma ValidationSettles(p: Policy, e: Env)
    requires Sound(e)
    ensures if p.profile == "" && p.snapshots.ttl == None then Validate(p, e) == DEFAULT else Settles(p, Validate(p, e), e)
  {
    hide Settles, Assembled, ManualOff, Sound;
    if p.profile != "" || p.snapshots.ttl != None {
      AssembledSettles(p, e);
    }
  }

  /** A policy whose numbers are all out of range, with the default switches. */
  const BLANK := Policy(
    "none", Snapshots(Some(map[]), true, true), Persistence(true, -1), Observers(true, true, -1, true, -1, -1),
    Enrichment(true, true, true, -1, true, -1, -1, -1, -1, true, true, true, [], -1,
               Sweep(false, -1, -1, -1, -1, -1, true, true, true, false)),
    AllContexts(false, -1, -1, -1, true, true), Budget(-1, -1, -1, -1), Dashboard(-1, true, -1, -1), Metrics(true, -1, -1, -1, -1),
    Signals(-1, -1, -1, -1, -1, -1, -1, -1, Detectors(-1, -1, -1, -1, -1), map[], map[]))

  /** The default policy is what validation falls back to everywhere. */
  lemma DefaultIsTheFallback(e: Env)
    requires Sound(e)
    ensures Validate(BLANK, e) == DEFAULT
  {
    hide WarmKinds, DEFAULT_TTL, DEFAULT_WARM, PODMETRICS, NODEMETRICS;
    SubIsSound(e, InSignals);
    SubIsSound(e, InContexts);
    EmptyListing(Sub(e, InSignals));
    EmptyListing(Sub(e, InContexts));
    hide Sound, Alike;
    BlankTtl();
    NoWarmKinds();
  }

  lemma NoWarmKinds()
    ensures ValidWarmKinds([]) == DEFAULT_WARM
  {
  }

  lemma BlankTtl()
    ensures ValidTtl(Some(map[]))[PODMETRICS := 30][NODEMETRICS := 30] == DEFAULT_TTL
  {
    DefaultTtlInRange();
    hide DEFAULT_TTL, PODMETRICS, NODEMETRICS;
    assert ValidTtl(Some(map[])) == DEFAULT_TTL;
  }

  /** A bundle without a version becomes one of the first version, and any other keeps its own. */
  lemma VersionSettles(b: Bundle, e: Env)
    ensures ValidateBundle(b, e).version == if e.trim(b.version) == "" then "v1" else b.version
    ensures ValidateBundle(b, e).global == Validate(b.global, Sub(e, InGlobal))
  {
    hide Validate, KeptOver;
  }

  // ---------------------------------------------------------------- overrides

  /** A setting that the override names takes its value, and any other keeps its own. */
  predicate Takes<T(==)>(o: Option<T>, before: T, after: T) {
    match o
    case Some(v) => after == v
    case None => after == before
  }

  predicate TtlTakes(o: Option<map<string, Option<int>>>, ttl: Option<map<string, int>>, v: Option<map<string, int>>) {
    match o
    case None => v == ttl
    case Some(changes) =>
      && v.Some?
      && (forall k <- changes :: if changes[k].Some? then k in v.value && v.value[k] == changes[k].value else k !in v.value)
      && (forall k <- v.value :: k in changes || (ttl.Some? && k in ttl.value && v.value[k] == ttl.value[k]))
      && (ttl.Some? ==> forall k <- ttl.value :: k in changes || k in v.value)
  }

  predicate SnapshotsTake(o: SnapshotsOverride, s: Snapshots, v: Snapshots) {
    && TtlTakes(o.ttl, s.ttl, v.ttl) && Takes(o.manualBypass, s.manualBypass, v.manualBypass)
    && Takes(o.invalidateWrites, s.invalidateWrites, v.invalidateWrites)
  }

  predicate ObserversTake(o: ObserversOverride, b: Observers, v: Observers) {
    && Takes(o.enabled, b.enabled, v.enabled) && Takes(o.nsEnabled, b.nsEnabled, v.nsEnabled)
    && Takes(o.nsInterval, b.nsInterval, v.nsInterval) && Takes(o.nodesEnabled, b.nodesEnabled, v.nodesEnabled)
    && Takes(o.nodesInterval, b.nodesInterval, v.nodesInterval) && Takes(o.nodesBackoff, b.nodesBackoff, v.nodesBackoff)
  }

  predicate SweepTakes(o: SweepOverride, s: Sweep, v: Sweep) {
    && Takes(o.enabled, s.enabled, v.enabled) && Takes(o.idleQuietMs, s.idleQuietMs, v.idleQuietMs)
    && Takes(o.perCycle, s.perCycle, v.perCycle) && Takes(o.perHour, s.perHour, v.perHour)
    && Takes(o.minInterval, s.minInterval, v.minInterval) && Takes(o.maxParallel, s.maxParallel, v.maxParallel)
    && Takes(o.pauseOnActivity, s.pauseOnActivity, v.pauseOnActivity) && Takes(o.pauseWhenBusy, s.pauseWhenBusy, v.pauseWhenBusy)
    && Takes(o.pauseOnIssues, s.pauseOnIssues, v.pauseOnIssues) && Takes(o.includeSystem, s.includeSystem, v.includeSystem)
  }

  predicate EnrichmentTakes(o: EnrichmentOverride, n: Enrichment, v: Enrichment) {
    && Takes(o.enabled, n.enabled, v.enabled) && Takes(o.includeFocus, n.includeFocus, v.includeFocus)
    && Takes(o.includeRecent, n.includeRecent, v.includeRecent) && Takes(o.recentLimit, n.recentLimit, v.recentLimit)
    && Takes(o.includeFavourites, n.includeFavourites, v.includeFavourites)
    && Takes(o.favouriteLimit, n.favouriteLimit, v.favouriteLimit) && Takes(o.maxTargets, n.maxTargets, v.maxTargets)
    && Takes(o.maxParallel, n.maxParallel, v.maxParallel) && Takes(o.idleQuietMs, n.idleQuietMs, v.idleQuietMs)
    && Takes(o.details, n.details, v.details) && Takes(o.pods, n.pods, v.pods) && Takes(o.deployments, n.deployments, v.deployments)
    && Takes(o.warmKinds, n.warmKinds, v.warmKinds) && Takes(o.pollMs, n.pollMs, v.pollMs)
    && if o.sweep.Some? then SweepTakes(o.sweep.value, n.sweep, v.sweep) else v.sweep == n.sweep
  }

  predicate AllContextsTake(o: AllContextsOverride, a: AllContexts, v: AllContexts) {
    && Takes(o.enabled, a.enabled, v.enabled) && Takes(o.interval, a.interval, v.interval) && Takes(o.perCycle, a.perCycle, v.perCycle)
    && Takes(o.idleQuietMs, a.idleQuietMs, v.idleQuietMs) && Takes(o.pauseOnActivity, a.pauseOnActivity, v.pauseOnActivity)
    && Takes(o.pauseWhenBusy, a.pauseWhenBusy, v.pauseWhenBusy)
  }

  predicate BudgetTakes(o: BudgetOverride, b: Budget, v: Budget) {
    && Takes(o.maxConcurrent, b.maxConcurrent, v.maxConcurrent) && Takes(o.maxBackground, b.maxBackground, v.maxBackground)
    && Takes(o.longRunNotice, b.longRunNotice, v.longRunNotice) && Takes(o.retries, b.retries, v.retries)
  }

  predicate MetricsTake(o: MetricsOverride, m: Metrics, v: Metrics) {
    && Takes(o.enabled, m.enabled, v.enabled) && Takes(o.podTtl, m.podTtl, v.podTtl) && Takes(o.nodeTtl, m.nodeTtl, v.nodeTtl)
    && Takes(o.containerPct, m.containerPct, v.containerPct) && Takes(o.nodePct, m.nodePct, v.nodePct)
  }

  predicate SignalsTake(o: SignalsOverride, s: Signals, v: Signals) {
    && Takes(o.longJob, s.longJob, v.longJob) && Takes(o.cronJob, s.cronJob, v.cronJob) && Takes(o.staleHelm, s.staleHelm, v.staleHelm)
    && Takes(o.unused, s.unused, v.unused) && Takes(o.youngPod, s.youngPod, v.youngPod)
    && Takes(o.unavailable, s.unavailable, v.unavailable) && Takes(o.quotaWarn, s.quotaWarn, v.quotaWarn)
    && Takes(o.quotaCrit, s.quotaCrit, v.quotaCrit) && Takes(o.overrides, s.overrides, v.overrides)
    && Takes(o.contexts, s.contexts, v.contexts)
    && Takes(o.detectors.restarts, s.detectors.restarts, v.detectors.restarts)
    && Takes(o.detectors.containerPct, s.detectors.containerPct, v.detectors.containerPct)
    && Takes(o.detectors.nodePct, s.detectors.nodePct, v.detectors.nodePct)
    && Takes(o.detectors.quotaWarn, s.detectors.quotaWarn, v.detectors.quotaWarn)
    && Takes(o.detectors.quotaCrit, s.detectors.quotaCrit, v.detectors.quotaCrit)
  }

  /** Every setting of the overlaid policy comes from the override where that names it, and from the global policy elsewhere. */
  lemma OverlayTakes(g: Policy, o: Override)
    ensures var v := Overlay(g, o);
            && Takes(o.profile, g.profile, v.profile) && v.dashboard == g.dashboard
            && (if o.snapshots.Some? then SnapshotsTake(o.snapshots.value, g.snapshots, v.snapshots) else v.snapshots == g.snapshots)
            && (if o.observers.Some? then ObserversTake(o.observers.value, g.observers, v.observers) else v.observers == g.observers)
            && (if o.enrichment.Some? then EnrichmentTakes(o.enrichment.value, g.enrichment, v.enrichment) else v.enrichment == g.enrichment)
            && (if o.allContexts.Some? then AllContextsTake(o.allContexts.value, g.allContexts, v.allContexts) else v.allContexts == g.allContexts)
            && (if o.budget.Some? then BudgetTakes(o.budget.value, g.budget, v.budget) else v.budget == g.budget)
            && (if o.metrics.Some? then MetricsTake(o.metrics.value, g.metrics, v.metrics) else v.metrics == g.metrics)
            && (if o.signals.Some? then SignalsTake(o.signals.value, g.signals, v.signals) else v.signals == g.signals)
            && (if o.persistence.Some? then
                  && Takes(o.persistence.value.enabled, g.persistence.enabled, v.persistence.enabled)
                  && Takes(o.persistence.value.maxAgeHours, g.persistence.maxAgeHours, v.persistence.maxAgeHours)
                else v.persistence == g.persistence)
  {
    hide Overlay, SnapshotsTake, ObserversTake, EnrichmentTakes, AllContextsTake, BudgetTakes, MetricsTake, SignalsTake;
    SimplePartsTaken(g, o);
    FirstPartsTaken(g, o);
    OtherPartsTaken(g, o);
  }

  lemma SimplePartsTaken(g: Policy, o: Override)
    ensures var v := Overlay(g, o);
            && Takes(o.profile, g.profile, v.profile) && v.dashboard == g.dashboard
            && (if o.persistence.Some? then
                  && Takes(o.persistence.value.enabled, g.persistence.enabled, v.persistence.enabled)
                  && Takes(o.persistence.value.maxAgeHours, g.persistence.maxAgeHours, v.persistence.maxAgeHours)
                else v.persistence == g.persistence)
  {
    hide OverlaySnapshots, OverlayObservers, OverlayEnrichment, OverlayAllContexts, OverlayBudget, OverlayMetrics, OverlaySignals;
  }

  lemma FirstPartsTaken(g: Policy, o: Override)
    ensures var v := Overlay(g, o);
            && (if o.snapshots.Some? then SnapshotsTake(o.snapshots.value, g.snapshots, v.snapshots) else v.snapshots == g.snapshots)
            && (if o.observers.Some? then ObserversTake(o.observers.value, g.observers, v.observers) else v.observers == g.observers)
            && (if o.enrichment.Some? then EnrichmentTakes(o.enrichment.value, g.enrichment, v.enrichment) else v.enrichment == g.enrichment)
  {
    hide SnapshotsTake, ObserversTake, EnrichmentTakes, Or;
    hide OverlaySnapshots, OverlayObservers, OverlayEnrichment, OverlayAllContexts, OverlayBudget, OverlayMetrics, OverlaySignals;
    if o.snapshots.Some? { SnapshotsTaken(g.snapshots, o.snapshots.value); }
    if o.observers.Some? { ObserversTaken(g.observers, o.observers.value); }
    if o.enrichment.Some? { EnrichmentTaken(g.enrichment, o.enrichment.value); }
  }

  lemma OtherPartsTaken(g: Policy, o: Override)
    ensures var v := Overlay(g, o);
            && (if o.allContexts.Some? then AllContextsTake(o.allContexts.value, g.allContexts, v.allContexts) else v.allContexts == g.allContexts)
            && (if o.budget.Some? then BudgetTakes(o.budget.value, g.budget, v.budget) else v.budget == g.budget)
            && (if o.metrics.Some? then MetricsTake(o.metrics.value, g.metrics, v.metrics) else v.metrics == g.metrics)
            && (if o.signals.Some? then SignalsTake(o.signals.value, g.signals, v.signals) else v.signals == g.signals)
  {
    hide AllContextsTake, BudgetTakes, MetricsTake, SignalsTake, Or;
    hide OverlaySnapshots, OverlayObservers, OverlayEnrichment, OverlayAllContexts, OverlayBudget, OverlayMetrics, OverlaySignals;
    if o.allContexts.Some? { AllContextsTaken(g.allContexts, o.allContexts.value); }
    if o.budget.Some? { BudgetTaken(g.budget, o.budget.value); }
    if o.metrics.Some? { MetricsTaken(g.metrics, o.metrics.value); }
    if o.signals.Some? { SignalsTaken(g.signals, o.signals.value); }
  }

  lemma SnapshotsTaken(s: Snapshots, o: SnapshotsOverride)
    ensures SnapshotsTake(o, s, OverlaySnapshots(s, o))
  {
  }

  lemma ObserversTaken(b: Observers, o: ObserversOverride)
    ensures ObserversTake(o, b, OverlayObservers(b, o))
  {
  }

  lemma SweepTaken(s: Sweep, o: SweepOverride)
    ensures SweepTakes(o, s, OverlaySweep(s, o))
  {
  }

  lemma EnrichmentTaken(n: Enrichment, o: EnrichmentOverride)
    ensures EnrichmentTakes(o, n, OverlayEnrichment(n, o))
  {
    hide SweepTakes, OverlaySweep;
    if o.sweep.Some? { SweepTaken(n.sweep, o.sweep.value); }
  }

  lemma AllContextsTaken(a: AllContexts, o: AllContextsOverride)
    ensures AllContextsTake(o, a, OverlayAllContexts(a, o))
  {
  }

  lemma BudgetTaken(b: Budget, o: BudgetOverride)
    ensures BudgetTakes(o, b, OverlayBudget(b, o))
  {
  }

  lemma MetricsTaken(m: Metrics, o: MetricsOverride)
    ensures MetricsTake(o, m, OverlayMetrics(m, o))
  {
  }

  lemma SignalsTaken(s: Signals, o: SignalsOverride)
    ensures SignalsTake(o, s, OverlaySignals(s, o))
  {
  }
}

/**
 Dataplane policies: the settings with their defaults, validation, and the overrides of
 single contexts. Straight-line assignments are written as expressions; a map that is nil
 and a map that is empty are the same here wherever the source makes no difference.
*/
module Policy {
  import opened Options

  // ------------------------------------------------------------------- settings

  datatype SignalOverride = SignalOverride(enabled: Option<bool>, severity: string, priority: Option<int>)

  type Overrides = map<string, SignalOverride>

  datatype Snapshots = Snapshots(ttl: Option<map<string, int>>, manualBypass: bool, invalidateWrites: bool)
  datatype Persistence = Persistence(enabled: bool, maxAgeHours: int)
  datatype Observers = Observers(enabled: bool, nsEnabled: bool, nsInterval: int, nodesEnabled: bool, nodesInterval: int, nodesBackoff: int)
  datatype Sweep = Sweep(
    enabled: bool, idleQuietMs: int, perCycle: int, perHour: int, minInterval: int, maxParallel: int,
    pauseOnActivity: bool, pauseWhenBusy: bool, pauseOnIssues: bool, includeSystem: bool)
  datatype Enrichment = Enrichment(
    enabled: bool, includeFocus: bool, includeRecent: bool, recentLimit: int, includeFavourites: bool, favouriteLimit: int,
    maxTargets: int, maxParallel: int, idleQuietMs: int, details: bool, pods: bool, deployments: bool,
    warmKinds: seq<string>, pollMs: int, sweep: Sweep)
  datatype AllContexts = AllContexts(
    enabled: bool, interval: int, perCycle: int, idleQuietMs: int, pauseOnActivity: bool, pauseWhenBusy: bool)
  datatype Budget = Budget(maxConcurrent: int, maxBackground: int, longRunNotice: int, retries: int)
  datatype Dashboard = Dashboard(refresh: int, cachedTotals: bool, restartThreshold: int, signalLimit: int)
  datatype Metrics = Metrics(enabled: bool, podTtl: int, nodeTtl: int, containerPct: int, nodePct: int)
  datatype Detectors = Detectors(restarts: int, containerPct: int, nodePct: int, quotaWarn: int, quotaCrit: int)
  datatype Signals = Signals(
    longJob: int, cronJob: int, staleHelm: int, unused: int, youngPod: int, unavailable: int, quotaWarn: int, quotaCrit: int,
    detectors: Detectors, overrides: Overrides, contexts: map<string, Overrides>)

  datatype Policy = Policy(
    profile: string, snapshots: Snapshots, persistence: Persistence, observers: Observers, enrichment: Enrichment,
    allContexts: AllContexts, budget: Budget, dashboard: Dashboard, metrics: Metrics, signals: Signals)

  /** The loops over maps, by where they stand: each may meet its keys in an order of its own. */
  datatype Place = InGlobal | InPruning(name: string) | InResult | InSignals | InContexts | InContext(name: string)

  /**
   What the code takes from its surroundings: strings.TrimSpace, the table of signal types,
   and for each walk over a map the order in which it meets the keys.
  */
  datatype Env = Env(trim: string -> string, known: string -> bool, order: (seq<Place>, set<string>) -> seq<string>)

  /** The surroundings of a part of the code: its walks are walks of the whole. */
  function Sub(e: Env, place: Place): Env {
    Env(e.trim, e.known, (walk: seq<Place>, keys: set<string>) => e.order([place] + walk, keys))
  }

  ghost predicate Lists(s: seq<string>, keys: set<string>) {
    (forall k :: k in s <==> k in keys) && forall i, j :: 0 <= i < j < |s| ==> s[i] != s[j]
  }

  ghost predicate Sound(e: Env) {
    (forall s :: e.trim(e.trim(s)) == e.trim(s)) && forall walk, keys :: Lists(e.order(walk, keys), keys)
  }

  /** Same surroundings, but maps may be met in another order. */
  ghost predicate Alike(e: Env, f: Env) {
    Sound(e) && Sound(f) && e.trim == f.trim && e.known == f.known
  }

  lemma SubIsSound(e: Env, place: Place)
    requires Sound(e)
    ensures Alike(e, Sub(e, place))
  {
    var d := Sub(e, place);
    forall walk, keys ensures Lists(d.order(walk, keys), keys) {
      assert Lists(e.order([place] + walk, keys), keys);
    }
  }

  // ------------------------------------------------------------------- defaults

  const PODMETRICS := "podmetrics"
  const NODEMETRICS := "nodemetrics"

  const DEFAULT_TTL := map[
    "namespaces" := 120, "nodes" := 120, "persistentvolumes" := 180, "clusterroles" := 300, "clusterrolebindings" := 300,
    "customresourcedefinitions" := 300, "pods" := 15, "deployments" := 45, "daemonsets" := 45, "statefulsets" := 45,
    "replicasets" := 30, "jobs" := 30, "cronjobs" := 30, "horizontalpodautoscalers" := 45, "services" := 60,
    "ingresses" := 60, "persistentvolumeclaims" := 60, "configmaps" := 120, "secrets" := 120, "serviceaccounts" := 180,
    "roles" := 180, "rolebindings" := 180, "helmreleases" := 120, "resourcequotas" := 180, "limitranges" := 180,
    PODMETRICS := 30, NODEMETRICS := 30]

  const DEFAULT_WARM := ["pods", "deployments", "resourcequotas", "limitranges"]

  const ALLOWED_WARM := [
    "pods", "deployments", "daemonsets", "statefulsets", "replicasets", "jobs", "cronjobs", "horizontalpodautoscalers",
    "services", "ingresses", "persistentvolumeclaims", "configmaps", "secrets", "serviceaccounts", "roles", "rolebindings",
    "helmreleases", "resourcequotas", "limitranges"]

  const DEFAULT_SWEEP := Sweep(false, 30000, 2, 30, 360, 1, true, true, true, false)
  const DEFAULT_ENRICHMENT := Enrichment(true, true, true, 20, true, 40, 32, 2, 2000, true, true, true, DEFAULT_WARM, 1500, DEFAULT_SWEEP)
  const DEFAULT_DETECTORS := Detectors(3, 90, 85, 80, 90)

  const DEFAULT := Policy(
    "focused", Snapshots(Some(DEFAULT_TTL), true, true), Persistence(true, 168), Observers(true, true, 120, true, 180, 300),
    DEFAULT_ENRICHMENT, AllContexts(false, 300, 1, 30000, true, true), Budget(4, 2, 2, 3), Dashboard(10, true, 3, 10),
    Metrics(true, 30, 30, 90, 85),
    Signals(21600, 86400, 900, 86400, 1800, 600, 80, 90, DEFAULT_DETECTORS, map[], map[]))

  // ----------------------------------------------------------------- validation

  function Clamp(value: int, min: int, max: int, fallback: int): int {
    if value < min || value > max then fallback else value
  }

  predicate IsProfile(p: string) {
    p == "manual" || p == "focused" || p == "balanced" || p == "wide" || p == "diagnostic"
  }

  function TtlOr0(ttl: map<string, int>, k: string): int {
    if k in ttl then ttl[k] else 0
  }

  /** The entries of the default kinds are clamped; others are kept as they are. */
  function ValidTtl(ttl: Option<map<string, int>>): map<string, int> {
    var t := if ttl == None then map[] else ttl.value;
    map k <- t.Keys + DEFAULT_TTL.Keys ::
      if k in DEFAULT_TTL then Clamp(TtlOr0(t, k), 5, 3600, DEFAULT_TTL[k]) else t[k]
  }

  /** Allowed kinds, each once, in the order given. */
  function WarmKinds(kinds: seq<string>): seq<string> {
    if kinds == [] then []
    else
      var front, k := WarmKinds(kinds[..|kinds| - 1]), kinds[|kinds| - 1];
      if k in ALLOWED_WARM && k !in front then front + [k] else front
  }

  function ValidWarmKinds(kinds: seq<string>): seq<string> {
    if WarmKinds(kinds) == [] then DEFAULT_WARM else WarmKinds(kinds)
  }

  function ValidSweep(s: Sweep): Sweep {
    s.(idleQuietMs := Clamp(s.idleQuietMs, 5000, 300000, 30000), perCycle := Clamp(s.perCycle, 1, 25, 2),
       perHour := Clamp(s.perHour, 1, 500, 30), minInterval := Clamp(s.minInterval, 5, 1440, 360),
       maxParallel := Clamp(s.maxParallel, 1, 4, 1))
  }

  function ValidEnrichment(n: Enrichment): Enrichment {
    n.(recentLimit := Clamp(n.recentLimit, 0, 200, 20), favouriteLimit := Clamp(n.favouriteLimit, 0, 200, 40),
       maxTargets := Clamp(n.maxTargets, 0, 250, 32), maxParallel := Clamp(n.maxParallel, 1, 8, 2),
       idleQuietMs := Clamp(n.idleQuietMs, 0, 60000, 2000), warmKinds := ValidWarmKinds(n.warmKinds),
       pollMs := Clamp(n.pollMs, 500, 60000, 1500), sweep := ValidSweep(n.sweep))
  }

  function ValidObservers(o: Observers): Observers {
    o.(nsInterval := Clamp(o.nsInterval, 10, 3600, 120), nodesInterval := Clamp(o.nodesInterval, 10, 3600, 180),
       nodesBackoff := Clamp(o.nodesBackoff, 30, 3600, 300))
  }

  function ValidAllContexts(a: AllContexts): AllContexts {
    a.(interval := Clamp(a.interval, 60, 3600, 300), perCycle := Clamp(a.perCycle, 1, 25, 1),
       idleQuietMs := Clamp(a.idleQuietMs, 5000, 300000, 30000))
  }

  /** The fallback of the background limit is 2 even where the limit above it is 1. */
  function ValidBudget(b: Budget): Budget {
    var most := Clamp(b.maxConcurrent, 1, 16, 4);
    Budget(most, Clamp(b.maxBackground, 1, most, 2), Clamp(b.longRunNotice, 0, 300, 2), Clamp(b.retries, 1, 6, 3))
  }

  function ClampedDashboard(d: Dashboard): Dashboard {
    d.(refresh := Clamp(d.refresh, 0, 3600, 10), restartThreshold := Clamp(d.restartThreshold, 1, 1000, 3),
       signalLimit := Clamp(d.signalLimit, 1, 100, 10))
  }

  function ClampedMetrics(m: Metrics): Metrics {
    m.(podTtl := Clamp(m.podTtl, 15, 300, 30), nodeTtl := Clamp(m.nodeTtl, 15, 300, 30),
       containerPct := Clamp(m.containerPct, 50, 100, 90), nodePct := Clamp(m.nodePct, 50, 100, 85))
  }

  /** A detector without a value takes that of the older setting. */
  function Migrated(d: Detectors, dash: Dashboard, m: Metrics, s: Signals): Detectors {
    Detectors(
      if d.restarts <= 0 then dash.restartThreshold else d.restarts,
      if d.containerPct <= 0 then m.containerPct else d.containerPct,
      if d.nodePct <= 0 then m.nodePct else d.nodePct,
      if d.quotaWarn <= 0 then s.quotaWarn else d.quotaWarn,
      if d.quotaCrit <= 0 then s.quotaCrit else d.quotaCrit)
  }

  function ValidDetectors(d: Detectors): Detectors {
    var warn, crit := Clamp(d.quotaWarn, 1, 99, 80), Clamp(d.quotaCrit, 1, 100, 90);
    Detectors(Clamp(d.restarts, 1, 1000, 3), Clamp(d.containerPct, 50, 100, 90), Clamp(d.nodePct, 50, 100, 85),
              if crit <= warn then 80 else warn, if crit <= warn then 90 else crit)
  }

  function ValidOverride(o: SignalOverride): SignalOverride {
    SignalOverride(o.enabled,
                   if o.severity == "low" || o.severity == "medium" || o.severity == "high" then o.severity else "",
                   if o.priority == None then None else Some(Clamp(o.priority.value, 0, 100, 10)))
  }

  predicate IsEmpty(o: SignalOverride) {
    o.enabled == None && o.severity == "" && o.priority == None
  }

  /** The loop of normalizeSignalOverrides over the keys `ks`. */
  function NormalizedOver(m: Overrides, ks: seq<string>, e: Env): Overrides
    requires forall k <- ks :: k in m
  {
    if ks == [] then map[]
    else
      var n := |ks| - 1;
      assert ks[n] in ks && forall k <- ks[..n] :: k in ks;
      var out, t, o := NormalizedOver(m, ks[..n], e), e.trim(ks[n]), ValidOverride(m[ks[n]]);
      if t == "" || !e.known(t) || IsEmpty(o) then out else out[t := o]
  }

  function Normalized(m: Overrides, e: Env): Overrides {
    if (forall k <- e.order([], m.Keys) :: k in m) then NormalizedOver(m, e.order([], m.Keys), e) else map[]
  }

  function ContextsOver(m: map<string, Overrides>, ks: seq<string>, e: Env): map<string, Overrides>
    requires forall k <- ks :: k in m
  {
    if ks == [] then map[]
    else
      var n := |ks| - 1;
      assert ks[n] in ks && forall k <- ks[..n] :: k in ks;
      var out, t, o := ContextsOver(m, ks[..n], e), e.trim(ks[n]), Normalized(m[ks[n]], Sub(e, InContext(ks[n])));
      if t == "" || o == map[] then out else out[t := o]
  }

  function NormalizedContexts(m: map<string, Overrides>, e: Env): map<string, Overrides> {
    if (forall k <- e.order([], m.Keys) :: k in m) then ContextsOver(m, e.order([], m.Keys), e) else map[]
  }

  function ValidSignals(s: Signals, d: Detectors, e: Env): Signals {
    var warn, crit := Clamp(d.quotaWarn, 1, 99, 80), Clamp(d.quotaCrit, 1, 100, 90);
    Signals(Clamp(s.longJob, 60, 604800, 21600), Clamp(s.cronJob, 300, 2592000, 86400), Clamp(s.staleHelm, 60, 86400, 900),
            Clamp(s.unused, 300, 2592000, 86400), Clamp(s.youngPod, 60, 86400, 1800), Clamp(s.unavailable, 60, 86400, 600),
            if crit <= warn then 80 else warn, if crit <= warn then 90 else crit,
            d, Normalized(s.overrides, Sub(e, InSignals)), NormalizedContexts(s.contexts, Sub(e, InContexts)))
  }

  /** The manual profile switches all background work off. */
  function ManualOff(p: Policy): Policy {
    if p.profile != "manual" then p
    else p.(observers := p.observers.(enabled := false),
            enrichment := p.enrichment.(enabled := false, sweep := p.enrichment.sweep.(enabled := false)))
  }

  function ValidProfile(profile: string): string {
    if IsProfile(profile) then profile else "focused"
  }

  function DetectorsOf(p: Policy): Detectors {
    ValidDetectors(Migrated(p.signals.detectors, ClampedDashboard(p.dashboard), ClampedMetrics(p.metrics), p.signals))
  }

  /** All sections validated. */
  function Assembled(p: Policy, e: Env): Policy {
    var dash, metrics, d := ClampedDashboard(p.dashboard), ClampedMetrics(p.metrics), DetectorsOf(p);
    Policy(
      ValidProfile(p.profile),
      p.snapshots.(ttl := Some(ValidTtl(p.snapshots.ttl)[PODMETRICS := metrics.podTtl][NODEMETRICS := metrics.nodeTtl])),
      p.persistence.(maxAgeHours := Clamp(p.persistence.maxAgeHours, 1, 720, 168)),
      ValidObservers(p.observers), ValidEnrichment(p.enrichment), ValidAllContexts(p.allContexts), ValidBudget(p.budget),
      dash.(restartThreshold := d.restarts), metrics.(containerPct := d.containerPct, nodePct := d.nodePct),
      ValidSignals(p.signals, d, e))
  }

  /** ValidateDataplanePolicy. */
  function Validate(p: Policy, e: Env): Policy {
    if p.profile == "" && p.snapshots.ttl == None then DEFAULT else ManualOff(Assembled(p, e))
  }

  // -------------------------------------------------- validation is idempotent

  lemma DefaultTtlInRange()
    ensures forall k <- DEFAULT_TTL :: 5 <= DEFAULT_TTL[k] <= 3600
    ensures PODMETRICS in DEFAULT_TTL && NODEMETRICS in DEFAULT_TTL && PODMETRICS != NODEMETRICS
    ensures DEFAULT_TTL[PODMETRICS] == 30 && DEFAULT_TTL[NODEMETRICS] == 30
  {
  }

  /** A validated TTL table, before and after the two metrics entries are put in. */
  lemma TtlTwice(ttl: Option<map<string, int>>, pod: int, node: int)
    requires 15 <= pod <= 300 && 15 <= node <= 300
    ensures var t := ValidTtl(ttl)[PODMETRICS := pod][NODEMETRICS := node];
            ValidTtl(Some(t))[PODMETRICS := pod][NODEMETRICS := node] == t
  {
    DefaultTtlInRange();
    hide DEFAULT_TTL, PODMETRICS, NODEMETRICS;
    var t := ValidTtl(ttl)[PODMETRICS := pod][NODEMETRICS := node];
    var u := ValidTtl(Some(t))[PODMETRICS := pod][NODEMETRICS := node];
    forall k <- t.Keys ensures k in u && u[k] == t[k] {}
    assert u.Keys == t.Keys;
  }

  lemma {:induction false} WarmKindsAreClean(kinds: seq<string>)
    ensures forall k <- WarmKinds(kinds) :: k in ALLOWED_WARM
    ensures forall i, j :: 0 <= i < j < |WarmKinds(kinds)| ==> WarmKinds(kinds)[i] != WarmKinds(kinds)[j]
  {
    hide ALLOWED_WARM;
    if kinds != [] {
      WarmKindsAreClean(kinds[..|kinds| - 1]);
    }
  }

  lemma {:induction false} CleanStays(kinds: seq<string>)
    requires forall k <- kinds :: k in ALLOWED_WARM
    requires forall i, j :: 0 <= i < j < |kinds| ==> kinds[i] != kinds[j]
    ensures WarmKinds(kinds) == kinds
  {
    hide ALLOWED_WARM;
    if kinds != [] {
      var n := |kinds| - 1;
      assert kinds[n] in kinds && forall k <- kinds[..n] :: k in kinds;
      CleanStays(kinds[..n]);
      assert kinds == kinds[..n] + [kinds[n]];
    }
  }

  lemma DefaultWarmIsClean()
    ensures WarmKinds(DEFAULT_WARM) == DEFAULT_WARM != []
  {
    var a := ALLOWED_WARM;
    assert DEFAULT_WARM[0] == a[0] && DEFAULT_WARM[1] == a[1] && DEFAULT_WARM[2] == a[17] && DEFAULT_WARM[3] == a[18];
    assert forall k <- DEFAULT_WARM :: k in a;
    assert |DEFAULT_WARM[0]| == 4 && |DEFAULT_WARM[1]| == 11 && |DEFAULT_WARM[2]| == 14;
    assert DEFAULT_WARM[1][0] == 'd' && DEFAULT_WARM[3][0] == 'l' && |DEFAULT_WARM[3]| == 11;
    CleanStays(DEFAULT_WARM);
  }

  lemma WarmKindsTwice(kinds: seq<string>)
    ensures ValidWarmKinds(ValidWarmKinds(kinds)) == ValidWarmKinds(kinds)
  {
    hide WarmKinds, ALLOWED_WARM;
    DefaultWarmIsClean();
    WarmKindsAreClean(kinds);
    CleanStays(WarmKinds(kinds));
  }

  /** Overrides as normalization leaves them. */
  ghost predicate Clean(m: Overrides, e: Env) {
    forall k <- m :: CleanEntry(k, m[k], e)
  }

  ghost predicate CleanEntry(k: string, o: SignalOverride, e: Env) {
    e.trim(k) == k != "" && e.known(k) && ValidOverride(o) == o && !IsEmpty(o)
  }

  lemma ValidOverrideTwice(o: SignalOverride)
    ensures ValidOverride(ValidOverride(o)) == ValidOverride(o)
  {
  }

  lemma {:induction false} NormalizedIsClean(m: Overrides, ks: seq<string>, e: Env)
    requires Sound(e) && forall k <- ks :: k in m
    ensures Clean(NormalizedOver(m, ks, e), e)
  {
    hide ValidOverride, IsEmpty;
    if ks != [] {
      var n := |ks| - 1;
      assert ks[n] in ks && forall k <- ks[..n] :: k in ks;
      NormalizedIsClean(m, ks[..n], e);
      ValidOverrideTwice(m[ks[n]]);
    }
  }

  lemma {:induction false} CleanIsNormalized(m: Overrides, ks: seq<string>, e: Env)
    requires Clean(m, e) && forall k <- ks :: k in m
    ensures NormalizedOver(m, ks, e) == map k <- m | k in ks :: m[k]
  {
    hide ValidOverride, IsEmpty;
    if ks != [] {
      var n := |ks| - 1;
      assert ks[n] in ks && forall k <- ks[..n] :: k in ks;
      CleanIsNormalized(m, ks[..n], e);
      assert CleanEntry(ks[n], m[ks[n]], e);
      assert ks == ks[..n] + [ks[n]];
    }
  }

  lemma CleanAlike(m: Overrides, e: Env, f: Env)
    requires Alike(e, f) && Clean(m, e)
    ensures Clean(m, f)
  {
    hide ValidOverride, IsEmpty;
    forall k <- m ensures CleanEntry(k, m[k], f) {
      assert CleanEntry(k, m[k], e);
    }
  }

  lemma CleanStaysPut(m: Overrides, e: Env)
    requires Sound(e) && Clean(m, e)
    ensures Normalized(m, e) == m
  {
    hide Clean, NormalizedOver;
    assert Lists(e.order([], m.Keys), m.Keys);
    CleanIsNormalized(m, e.order([], m.Keys), e);
  }

  lemma NormalizedClean(m: Overrides, e: Env)
    requires Sound(e)
    ensures Clean(Normalized(m, e), e)
  {
    hide NormalizedOver, CleanEntry;
    if forall k <- e.order([], m.Keys) :: k in m {
      NormalizedIsClean(m, e.order([], m.Keys), e);
    }
  }

  ghost predicate CleanContexts(m: map<string, Overrides>, e: Env) {
    forall k <- m :: e.trim(k) == k != "" && m[k] != map[] && Clean(m[k], e)
  }

  lemma {:induction false} ContextsAreClean(m: map<string, Overrides>, ks: seq<string>, e: Env)
    requires Sound(e) && forall k <- ks :: k in m
    ensures CleanContexts(ContextsOver(m, ks, e), e)
  {
    hide Clean, Normalized;
    if ks != [] {
      var n := |ks| - 1;
      assert ks[n] in ks && forall k <- ks[..n] :: k in ks;
      ContextsAreClean(m, ks[..n], e);
      SubIsSound(e, InContext(ks[n]));
      NormalizedClean(m[ks[n]], Sub(e, InContext(ks[n])));
      CleanAlike(Normalized(m[ks[n]], Sub(e, InContext(ks[n]))), Sub(e, InContext(ks[n])), e);
    }
  }

  lemma {:induction false} CleanContextsStay(m: map<string, Overrides>, ks: seq<string>, e: Env)
    requires Sound(e) && CleanContexts(m, e) && forall k <- ks :: k in m
    ensures ContextsOver(m, ks, e) == map k <- m | k in ks :: m[k]
  {
    hide Clean, Normalized, Sound;
    if ks != [] {
      var n := |ks| - 1;
      assert ks[n] in ks && forall k <- ks[..n] :: k in ks;
      CleanContextsStay(m, ks[..n], e);
      SubIsSound(e, InContext(ks[n]));
      CleanAlike(m[ks[n]], e, Sub(e, InContext(ks[n])));
      CleanStaysPut(m[ks[n]], Sub(e, InContext(ks[n])));
      assert ks == ks[..n] + [ks[n]];
    }
  }

  lemma SignalMapsTwice(s: Signals, e: Env, f: Env)
    requires Alike(e, f)
    ensures Normalized(Normalized(s.overrides, e), f) == Normalized(s.overrides, e)
    ensures NormalizedContexts(NormalizedContexts(s.contexts, e), f) == NormalizedContexts(s.contexts, e)
  {
    hide Normalized, ContextsOver, Clean;
    NormalizedClean(s.overrides, e);
    CleanAlike(Normalized(s.overrides, e), e, f);
    CleanStaysPut(Normalized(s.overrides, e), f);
    var ks := e.order([], s.contexts.Keys);
    var m := NormalizedContexts(s.contexts, e);
    assert Lists(ks, s.contexts.Keys);
    ContextsAreClean(s.contexts, ks, e);
    forall k <- m ensures f.trim(k) == k != "" && m[k] != map[] && Clean(m[k], f) {
      CleanAlike(m[k], e, f);
    }
    assert Lists(f.order([], m.Keys), m.Keys);
    CleanContextsStay(m, f.order([], m.Keys), f);
  }

  lemma DetectorsTwice(p: Policy, s: Signals)
    ensures var dash, metrics, d := ClampedDashboard(p.dashboard), ClampedMetrics(p.metrics), DetectorsOf(p);
            var dash', metrics' := dash.(restartThreshold := d.restarts), metrics.(containerPct := d.containerPct, nodePct := d.nodePct);
            && ClampedDashboard(dash') == dash' && ClampedMetrics(metrics') == metrics'
            && ValidDetectors(Migrated(d, dash', metrics', s)) == d
            && 1 <= d.quotaWarn < d.quotaCrit <= 100
            && 15 <= metrics.podTtl <= 300 && 15 <= metrics.nodeTtl <= 300
  {
  }

  lemma SectionsTwice(p: Policy, b: bool, c: bool)
    ensures var o, n := ValidObservers(p.observers), ValidEnrichment(p.enrichment);
            && ValidObservers(o) == o && ValidObservers(o.(enabled := b)) == o.(enabled := b)
            && ValidEnrichment(n) == n
            && ValidEnrichment(n.(enabled := b, sweep := n.sweep.(enabled := c))) == n.(enabled := b, sweep := n.sweep.(enabled := c))
    ensures ValidAllContexts(ValidAllContexts(p.allContexts)) == ValidAllContexts(p.allContexts)
    ensures ValidBudget(ValidBudget(p.budget)) == ValidBudget(p.budget)
  {
    hide ValidWarmKinds;
    WarmKindsTwice(p.enrichment.warmKinds);
  }

  lemma SomeElement(s: seq<string>)
    requires s != []
    ensures exists k :: k in s
  {
    assert s[0] in s;
  }

  lemma EmptyListing(e: Env)
    requires Sound(e)
    ensures e.order([], {}) == []
  {
    assert Lists(e.order([], {}), {});
    if e.order([], {}) != [] {
      SomeElement(e.order([], {}));
    }
  }

  lemma DefaultIsValid(e: Env)
    requires Sound(e)
    ensures Validate(DEFAULT, e) == DEFAULT
  {
    DefaultWarmIsClean();
    EmptyListing(e);
    DefaultTtlStays();
    hide DEFAULT_TTL, WarmKinds, ValidTtl, DEFAULT_WARM, Sound;
  }

  lemma DefaultTtlStays()
    ensures ValidTtl(Some(DEFAULT_TTL))[PODMETRICS := 30][NODEMETRICS := 30] == DEFAULT_TTL
  {
    DefaultTtlInRange();
    hide DEFAULT_TTL, PODMETRICS, NODEMETRICS;
    assert ValidTtl(Some(DEFAULT_TTL)) == DEFAULT_TTL;
  }

  lemma SubsAreAlike(e: Env, f: Env, place: Place)
    requires Alike(e, f)
    ensures Alike(Sub(e, place), Sub(f, place)) && Alike(e, Sub(f, place))
  {
    SubIsSound(e, place);
    SubIsSound(f, place);
  }

  lemma SignalsTwice(s: Signals, d: Detectors, e: Env, f: Env)
    requires Alike(e, f) && 1 <= d.quotaWarn <= 99 && d.quotaWarn < d.quotaCrit <= 100
    ensures ValidSignals(ValidSignals(s, d, e), d, f) == ValidSignals(s, d, e)
    ensures ValidSignals(s, d, e).detectors == d
  {
    hide Normalized, NormalizedContexts, Alike, Sub;
    SubsAreAlike(e, f, InSignals);
    SubsAreAlike(e, f, InContexts);
    SignalMapsTwice(s, Sub(e, InSignals), Sub(f, InSignals));
    SignalMapsTwice(s, Sub(e, InContexts), Sub(f, InContexts));
  }

  lemma ProfileStays(profile: string)
    ensures IsProfile(ValidProfile(profile)) && ValidProfile(ValidProfile(profile)) == ValidProfile(profile) != ""
  {
  }

  lemma AssembledTwice(p: Policy, e: Env, f: Env, v: Policy)
    requires Alike(e, f)
    requires var a := Assembled(p, e); v == a || v == ManualOff(a)
    ensures Assembled(v, f) == v
  {
    hide Alike, ValidDetectors, Migrated, ClampedDashboard, ClampedMetrics, ValidSignals, ValidBudget, ValidTtl;
    hide ValidObservers, ValidEnrichment, ValidAllContexts, IsProfile, ValidProfile;
    var m := ClampedMetrics(p.metrics);
    ProfileStays(p.profile);
    DetectorsTwice(p, v.signals);
    SectionsTwice(p, false, false);
    SignalsTwice(p.signals, DetectorsOf(p), e, f);
    TtlTwice(p.snapshots.ttl, m.podTtl, m.nodeTtl);
    ClampTwice(p.persistence.maxAgeHours);
    hide PODMETRICS, NODEMETRICS;
  }

  lemma ClampTwice(n: int)
    ensures var c := Clamp(n, 1, 720, 168); Clamp(c, 1, 720, 168) == c
  {
  }

  /** Validating twice is validating once, in whatever order the maps are met. */
  lemma ValidateIsIdempotent(p: Policy, e: Env, f: Env)
    requires Alike(e, f)
    ensures Validate(Validate(p, e), f) == Validate(p, e)
  {
    if p.profile == "" && p.snapshots.ttl == None {
      DefaultIsValid(f);
    } else {
      hide Assembled, Alike;
      ValidatedProfile(p, e);
      AssembledTwice(p, e, f, Validate(p, e));
    }
  }

  lemma ValidatedProfile(p: Policy, e: Env)
    ensures IsProfile(Assembled(p, e).profile) && Assembled(p, e).profile != ""
    ensures IsProfile(ManualOff(Assembled(p, e)).profile)
  {
    hide ValidDetectors, ValidSignals, ValidTtl, ValidEnrichment;
    ProfileStays(p.profile);
  }

  // ----------------------------------------------- which policies are left alone

  predicate In(n: int, min: int, max: int) {
    min <= n <= max
  }

  predicate ObserversValid(o: Observers) {
    In(o.nsInterval, 10, 3600) && In(o.nodesInterval, 10, 3600) && In(o.nodesBackoff, 30, 3600)
  }

  predicate SweepValid(s: Sweep) {
    && In(s.idleQuietMs, 5000, 300000) && In(s.perCycle, 1, 25) && In(s.perHour, 1, 500) && In(s.minInterval, 5, 1440)
    && In(s.maxParallel, 1, 4)
  }

  predicate WarmKindsValid(kinds: seq<string>) {
    && kinds != [] && (forall k <- kinds :: k in ALLOWED_WARM)
    && forall i, j :: 0 <= i < j < |kinds| ==> kinds[i] != kinds[j]
  }

  predicate EnrichmentValid(n: Enrichment) {
    && In(n.recentLimit, 0, 200) && In(n.favouriteLimit, 0, 200) && In(n.maxTargets, 0, 250) && In(n.maxParallel, 1, 8)
    && In(n.idleQuietMs, 0, 60000) && WarmKindsValid(n.warmKinds) && In(n.pollMs, 500, 60000) && SweepValid(n.sweep)
  }

  predicate AllContextsValid(a: AllContexts) {
    In(a.interval, 60, 3600) && In(a.perCycle, 1, 25) && In(a.idleQuietMs, 5000, 300000)
  }

  /** A background limit of 2 is left alone beside a limit of 1. */
  predicate BudgetValid(b: Budget) {
    && In(b.maxConcurrent, 1, 16) && (In(b.maxBackground, 1, b.maxConcurrent) || b.maxBackground == 2)
    && In(b.longRunNotice, 0, 300) && In(b.retries, 1, 6)
  }

  /** The detectors, and the older settings that mirror them. */
  predicate DetectorsValid(p: Policy) {
    var d := p.signals.detectors;
    && In(d.restarts, 1, 1000) && In(d.containerPct, 50, 100) && In(d.nodePct, 50, 100)
    && 1 <= d.quotaWarn < d.quotaCrit <= 100
    && p.dashboard.restartThreshold == d.restarts && p.metrics.containerPct == d.containerPct && p.metrics.nodePct == d.nodePct
    && p.signals.quotaWarn == d.quotaWarn && p.signals.quotaCrit == d.quotaCrit
    && In(p.dashboard.refresh, 0, 3600) && In(p.dashboard.signalLimit, 1, 100)
    && In(p.metrics.podTtl, 15, 300) && In(p.metrics.nodeTtl, 15, 300)
  }

  ghost predicate SignalsValid(s: Signals, e: Env) {
    && In(s.longJob, 60, 604800) && In(s.cronJob, 300, 2592000) && In(s.staleHelm, 60, 86400) && In(s.unused, 300, 2592000)
    && In(s.youngPod, 60, 86400) && In(s.unavailable, 60, 86400) && Clean(s.overrides, e) && CleanContexts(s.contexts, e)
  }

  predicate TtlValid(p: Policy) {
    p.snapshots.ttl.Some?
    && var t := p.snapshots.ttl.value;
       && (forall k <- DEFAULT_TTL :: k in t && (k == PODMETRICS || k == NODEMETRICS || In(t[k], 5, 3600)))
       && PODMETRICS in t && t[PODMETRICS] == p.metrics.podTtl && NODEMETRICS in t && t[NODEMETRICS] == p.metrics.nodeTtl
  }

  predicate ManualValid(p: Policy) {
    p.profile == "manual" ==> !p.observers.enabled && !p.enrichment.enabled && !p.enrichment.sweep.enabled
  }

  ghost predicate Valid(p: Policy, e: Env) {
    SectionsValid(p, e) && ManualValid(p)
  }

  ghost predicate SectionsValid(p: Policy, e: Env) {
    && IsProfile(p.profile) && TtlValid(p) && In(p.persistence.maxAgeHours, 1, 720) && ObserversValid(p.observers)
    && EnrichmentValid(p.enrichment) && AllContextsValid(p.allContexts) && BudgetValid(p.budget) && DetectorsValid(p)
    && SignalsValid(p.signals, e)
  }

  lemma SimpleSectionsStay(p: Policy)
    ensures ValidObservers(p.observers) == p.observers <==> ObserversValid(p.observers)
    ensures ValidAllContexts(p.allContexts) == p.allContexts <==> AllContextsValid(p.allContexts)
    ensures ValidBudget(p.budget) == p.budget <==> BudgetValid(p.budget)
    ensures ValidSweep(p.enrichment.sweep) == p.enrichment.sweep <==> SweepValid(p.enrichment.sweep)
    ensures Clamp(p.persistence.maxAgeHours, 1, 720, 168) == p.persistence.maxAgeHours <==> In(p.persistence.maxAgeHours, 1, 720)
  {
  }

  lemma WarmKindsStay(kinds: seq<string>)
    ensures ValidWarmKinds(kinds) == kinds <==> WarmKindsValid(kinds)
  {
    hide WarmKinds, ALLOWED_WARM;
    DefaultWarmIsClean();
    WarmKindsAreClean(kinds);
    WarmKindsAreClean(DEFAULT_WARM);
    if WarmKindsValid(kinds) {
      CleanStays(kinds);
    }
  }

  lemma EnrichmentStays(n: Enrichment)
    ensures ValidEnrichment(n) == n <==> EnrichmentValid(n)
  {
    hide ValidWarmKinds, WarmKindsValid;
    WarmKindsStay(n.warmKinds);
  }

  lemma DetectorsStay(p: Policy)
    ensures var dash, metrics, d := ClampedDashboard(p.dashboard), ClampedMetrics(p.metrics), DetectorsOf(p);
            var warn, crit := Clamp(d.quotaWarn, 1, 99, 80), Clamp(d.quotaCrit, 1, 100, 90);
            (&& dash.(restartThreshold := d.restarts) == p.dashboard
             && metrics.(containerPct := d.containerPct, nodePct := d.nodePct) == p.metrics
             && d == p.signals.detectors
             && (if crit <= warn then 80 else warn) == p.signals.quotaWarn && (if crit <= warn then 90 else crit) == p.signals.quotaCrit)
            <==> DetectorsValid(p)
  {
  }

  lemma SignalMapsStay(s: Signals, e: Env)
    requires Sound(e)
    ensures Normalized(s.overrides, e) == s.overrides <==> Clean(s.overrides, e)
    ensures NormalizedContexts(s.contexts, e) == s.contexts <==> CleanContexts(s.contexts, e)
  {
    hide Normalized, ContextsOver, Clean;
    NormalizedClean(s.overrides, e);
    var ks := e.order([], s.contexts.Keys);
    assert Lists(ks, s.contexts.Keys);
    ContextsAreClean(s.contexts, ks, e);
    if Clean(s.overrides, e) {
      CleanStaysPut(s.overrides, e);
    }
    if CleanContexts(s.contexts, e) {
      CleanContextsStay(s.contexts, ks, e);
    }
  }

  lemma TtlStays(p: Policy)
    requires In(p.metrics.podTtl, 15, 300) && In(p.metrics.nodeTtl, 15, 300)
    ensures Some(ValidTtl(p.snapshots.ttl)[PODMETRICS := p.metrics.podTtl][NODEMETRICS := p.metrics.nodeTtl]) == p.snapshots.ttl
       <==> TtlValid(p)
  {
    DefaultTtlInRange();
    hide DEFAULT_TTL, PODMETRICS, NODEMETRICS;
    var t := ValidTtl(p.snapshots.ttl)[PODMETRICS := p.metrics.podTtl][NODEMETRICS := p.metrics.nodeTtl];
    if TtlValid(p) {
      var u := p.snapshots.ttl.value;
      assert t.Keys == u.Keys;
      forall k <- u ensures t[k] == u[k] {
        assert k in ValidTtl(p.snapshots.ttl);
      }
      assert t == u;
    }
    if Some(t) == p.snapshots.ttl {
      var u := p.snapshots.ttl.value;
      assert u[NODEMETRICS] == p.metrics.nodeTtl && u[PODMETRICS] == p.metrics.podTtl;
      forall k <- DEFAULT_TTL ensures k in u && (k == PODMETRICS || k == NODEMETRICS || In(u[k], 5, 3600)) {
        assert k in ValidTtl(p.snapshots.ttl);
      }
    }
  }

  lemma CleanIsShared(s: Signals, e: Env, f: Env)
    requires Alike(e, f)
    ensures Clean(s.overrides, e) <==> Clean(s.overrides, f)
    ensures CleanContexts(s.contexts, e) <==> CleanContexts(s.contexts, f)
  {
    hide Clean;
    forall m | Clean(m, e) || Clean(m, f) ensures Clean(m, e) && Clean(m, f) {
      if Clean(m, e) { CleanAlike(m, e, f); } else { CleanAlike(m, f, e); }
    }
  }

  lemma SignalsStay(s: Signals, d: Detectors, e: Env)
    requires Sound(e)
    ensures ValidSignals(s, d, e) == s <==>
              var warn, crit := Clamp(d.quotaWarn, 1, 99, 80), Clamp(d.quotaCrit, 1, 100, 90);
              && d == s.detectors && SignalsValid(s, e)
              && (if crit <= warn then 80 else warn) == s.quotaWarn && (if crit <= warn then 90 else crit) == s.quotaCrit
  {
    hide Normalized, NormalizedContexts, Clean, CleanContexts, Sound, Sub;
    SubIsSound(e, InSignals);
    SubIsSound(e, InContexts);
    SignalMapsStay(s, Sub(e, InSignals));
    SignalMapsStay(s, Sub(e, InContexts));
    CleanIsShared(s, e, Sub(e, InSignals));
    CleanIsShared(s, e, Sub(e, InContexts));
  }

  lemma AssembledStays(p: Policy, e: Env)
    requires Sound(e) && IsProfile(p.profile)
    ensures Assembled(p, e) == p <==> SectionsValid(p, e)
  {
    hide Sound, ValidObservers, ValidEnrichment, ValidAllContexts, ValidBudget, ValidTtl, ValidSignals, Migrated, ValidDetectors;
    hide ObserversValid, EnrichmentValid, AllContextsValid, BudgetValid, SignalsValid, DetectorsValid, IsProfile, DEFAULT_TTL, TtlValid;
    hide ClampedDashboard, ClampedMetrics;
    SimpleSectionsStay(p);
    EnrichmentStays(p.enrichment);
    DetectorsStay(p);
    SignalsStay(p.signals, DetectorsOf(p), e);
    MetricsInRange(p);
    if In(p.metrics.podTtl, 15, 300) && In(p.metrics.nodeTtl, 15, 300) {
      TtlStays(p);
    }
  }

  lemma MetricsInRange(p: Policy)
    ensures DetectorsValid(p) ==> In(p.metrics.podTtl, 15, 300) && In(p.metrics.nodeTtl, 15, 300)
    ensures In(ClampedMetrics(p.metrics).podTtl, 15, 300) && In(ClampedMetrics(p.metrics).nodeTtl, 15, 300)
    ensures DetectorsValid(p) ==> ClampedMetrics(p.metrics).podTtl == p.metrics.podTtl && ClampedMetrics(p.metrics).nodeTtl == p.metrics.nodeTtl
  {
  }

  lemma FlagsAreKept(p: Policy, e: Env)
    requires IsProfile(p.profile)
    ensures var a := Assembled(p, e);
            && a.profile == p.profile && (ManualValid(a) <==> ManualValid(p))
            && (ManualOff(a) == a <==> ManualValid(a)) && ManualValid(ManualOff(a))
  {
    hide ValidDetectors, ValidSignals, ValidTtl, DEFAULT_TTL, Migrated, ValidWarmKinds;
  }

  /** Validation leaves exactly the valid policies alone. */
  lemma FixedPointsExactly(p: Policy, e: Env)
    requires Sound(e)
    ensures Validate(p, e) == p <==> Valid(p, e)
  {
    hide Assembled, SectionsValid, Sound, ManualOff, ManualValid, IsProfile;
    ProfileStays(p.profile);
    SectionsHaveProfile(p, e);
    if p.profile == "" && p.snapshots.ttl == None {
      DefaultHasTtl();
    } else if IsProfile(p.profile) {
      AssembledStays(p, e);
      FlagsAreKept(p, e);
    } else {
      ValidatedProfile(p, e);
    }
  }

  lemma SectionsHaveProfile(p: Policy, e: Env)
    ensures SectionsValid(p, e) ==> IsProfile(p.profile)
    ensures !IsProfile("")
  {
    hide TtlValid, SignalsValid;
  }

  lemma DefaultHasTtl()
    ensures DEFAULT.snapshots.ttl != None
  {
  }

  /** The two quota limits of a validated policy, in both places, are in order. */
  lemma QuotaIsInOrder(p: Policy, e: Env)
    ensures var s := Validate(p, e).signals;
            && 1 <= s.quotaWarn < s.quotaCrit <= 100
            && s.detectors.quotaWarn == s.quotaWarn && s.detectors.quotaCrit == s.quotaCrit
  {
    hide Normalized, NormalizedContexts, ValidTtl, ValidEnrichment, DEFAULT_TTL;
    DetectorsTwice(p, p.signals);
  }

  /** The TTL table and the metrics settings agree, and the default kinds' entries are in range. */
  lemma TtlAgreesWithMetrics(p: Policy, e: Env)
    ensures var v := Validate(p, e);
            && v.snapshots.ttl.Some? && DEFAULT_TTL.Keys <= v.snapshots.ttl.value.Keys
            && v.snapshots.ttl.value[PODMETRICS] == v.metrics.podTtl
            && v.snapshots.ttl.value[NODEMETRICS] == v.metrics.nodeTtl
            && forall k <- DEFAULT_TTL :: 5 <= v.snapshots.ttl.value[k] <= 3600
  {
    DefaultTtlInRange();
    DetectorsTwice(p, p.signals);
    hide DEFAULT_TTL, PODMETRICS, NODEMETRICS, ValidSignals, ValidDetectors, Migrated, ValidEnrichment, ValidObservers;
  }

  /** The background limit stays within the limit above it, but for one case. */
  lemma BackgroundLimitExactly(b: Budget)
    ensures ValidBudget(b).maxBackground <= ValidBudget(b).maxConcurrent <==> !(b.maxConcurrent == 1 && b.maxBackground != 1)
  {
  }
}

/** Overrides of single contexts and the bundle that holds them: what a context's policy is, and what pruning may drop. */
module Bundles {
  import opened Options
  import opened Policy
  import opened PolicyOrders

  // ------------------------------------------------------------------- overrides

  datatype SnapshotsOverride = SnapshotsOverride(ttl: Option<map<string, Option<int>>>, manualBypass: Option<bool>, invalidateWrites: Option<bool>)
  datatype ObserversOverride = ObserversOverride(
    enabled: Option<bool>, nsEnabled: Option<bool>, nsInterval: Option<int>, nodesEnabled: Option<bool>,
    nodesInterval: Option<int>, nodesBackoff: Option<int>)
  datatype SweepOverride = SweepOverride(
    enabled: Option<bool>, idleQuietMs: Option<int>, perCycle: Option<int>, perHour: Option<int>, minInterval: Option<int>,
    maxParallel: Option<int>, pauseOnActivity: Option<bool>, pauseWhenBusy: Option<bool>, pauseOnIssues: Option<bool>,
    includeSystem: Option<bool>)
  datatype EnrichmentOverride = EnrichmentOverride(
    enabled: Option<bool>, includeFocus: Option<bool>, includeRecent: Option<bool>, recentLimit: Option<int>,
    includeFavourites: Option<bool>, favouriteLimit: Option<int>, maxTargets: Option<int>, maxParallel: Option<int>,
    idleQuietMs: Option<int>, details: Option<bool>, pods: Option<bool>, deployments: Option<bool>,
    warmKinds: Option<seq<string>>, pollMs: Option<int>, sweep: Option<SweepOverride>)
  datatype AllContextsOverride = AllContextsOverride(
    enabled: Option<bool>, interval: Option<int>, perCycle: Option<int>, idleQuietMs: Option<int>,
    pauseOnActivity: Option<bool>, pauseWhenBusy: Option<bool>)
  datatype BudgetOverride = BudgetOverride(
    maxConcurrent: Option<int>, maxBackground: Option<int>, longRunNotice: Option<int>, retries: Option<int>)
  datatype MetricsOverride = MetricsOverride(
    enabled: Option<bool>, podTtl: Option<int>, nodeTtl: Option<int>, containerPct: Option<int>, nodePct: Option<int>)
  /** The nested pointers of the detectors are one level here: a missing section overrides nothing. */
  datatype DetectorsOverride = DetectorsOverride(
    restarts: Option<int>, containerPct: Option<int>, nodePct: Option<int>, quotaWarn: Option<int>, quotaCrit: Option<int>)
  datatype SignalsOverride = SignalsOverride(
    longJob: Option<int>, cronJob: Option<int>, staleHelm: Option<int>, unused: Option<int>, youngPod: Option<int>,
    unavailable: Option<int>, quotaWarn: Option<int>, quotaCrit: Option<int>, detectors: DetectorsOverride,
    overrides: Option<Overrides>, contexts: Option<map<string, Overrides>>)
  datatype PersistenceOverride = PersistenceOverride(enabled: Option<bool>, maxAgeHours: Option<int>)

  datatype Override = Override(
    profile: Option<string>, snapshots: Option<SnapshotsOverride>, observers: Option<ObserversOverride>,
    enrichment: Option<EnrichmentOverride>, allContexts: Option<AllContextsOverride>, budget: Option<BudgetOverride>,
    metrics: Option<MetricsOverride>, signals: Option<SignalsOverride>, persistence: Option<PersistenceOverride>)

  function Or<T>(o: Option<T>, otherwise: T): T {
    match o
    case Some(v) => v
    case None => otherwise
  }

  /** An entry without a value deletes; the others are set. */
  function OverlayTtl(ttl: map<string, int>, o: map<string, Option<int>>): map<string, int> {
    map k <- ttl.Keys + o.Keys | k in o ==> o[k].Some? :: if k in o then o[k].value else ttl[k]
  }

  function OverlaySnapshots(s: Snapshots, o: SnapshotsOverride): Snapshots {
    Snapshots(if o.ttl == None then s.ttl else Some(OverlayTtl(Or(s.ttl, map[]), o.ttl.value)),
              Or(o.manualBypass, s.manualBypass), Or(o.invalidateWrites, s.invalidateWrites))
  }

  function OverlayObservers(b: Observers, o: ObserversOverride): Observers {
    Observers(Or(o.enabled, b.enabled), Or(o.nsEnabled, b.nsEnabled), Or(o.nsInterval, b.nsInterval),
              Or(o.nodesEnabled, b.nodesEnabled), Or(o.nodesInterval, b.nodesInterval), Or(o.nodesBackoff, b.nodesBackoff))
  }

  function OverlaySweep(s: Sweep, o: SweepOverride): Sweep {
    Sweep(Or(o.enabled, s.enabled), Or(o.idleQuietMs, s.idleQuietMs), Or(o.perCycle, s.perCycle), Or(o.perHour, s.perHour),
          Or(o.minInterval, s.minInterval), Or(o.maxParallel, s.maxParallel), Or(o.pauseOnActivity, s.pauseOnActivity),
          Or(o.pauseWhenBusy, s.pauseWhenBusy), Or(o.pauseOnIssues, s.pauseOnIssues), Or(o.includeSystem, s.includeSystem))
  }

  function OverlayEnrichment(n: Enrichment, o: EnrichmentOverride): Enrichment {
    Enrichment(Or(o.enabled, n.enabled), Or(o.includeFocus, n.includeFocus), Or(o.includeRecent, n.includeRecent),
               Or(o.recentLimit, n.recentLimit), Or(o.includeFavourites, n.includeFavourites), Or(o.favouriteLimit, n.favouriteLimit),
               Or(o.maxTargets, n.maxTargets), Or(o.maxParallel, n.maxParallel), Or(o.idleQuietMs, n.idleQuietMs),
               Or(o.details, n.details), Or(o.pods, n.pods), Or(o.deployments, n.deployments), Or(o.warmKinds, n.warmKinds),
               Or(o.pollMs, n.pollMs), if o.sweep == None then n.sweep else OverlaySweep(n.sweep, o.sweep.value))
  }

  function OverlayAllContexts(a: AllContexts, o: AllContextsOverride): AllContexts {
    AllContexts(Or(o.enabled, a.enabled), Or(o.interval, a.interval), Or(o.perCycle, a.perCycle),
                Or(o.idleQuietMs, a.idleQuietMs), Or(o.pauseOnActivity, a.pauseOnActivity), Or(o.pauseWhenBusy, a.pauseWhenBusy))
  }

  function OverlayBudget(b: Budget, o: BudgetOverride): Budget {
    Budget(Or(o.maxConcurrent, b.maxConcurrent), Or(o.maxBackground, b.maxBackground), Or(o.longRunNotice, b.longRunNotice),
           Or(o.retries, b.retries))
  }

  function OverlayMetrics(m: Metrics, o: MetricsOverride): Metrics {
    Metrics(Or(o.enabled, m.enabled), Or(o.podTtl, m.podTtl), Or(o.nodeTtl, m.nodeTtl), Or(o.containerPct, m.containerPct),
            Or(o.nodePct, m.nodePct))
  }

  function OverlayDetectors(d: Detectors, o: DetectorsOverride): Detectors {
    Detectors(Or(o.restarts, d.restarts), Or(o.containerPct, d.containerPct), Or(o.nodePct, d.nodePct),
              Or(o.quotaWarn, d.quotaWarn), Or(o.quotaCrit, d.quotaCrit))
  }

  function OverlaySignals(s: Signals, o: SignalsOverride): Signals {
    Signals(Or(o.longJob, s.longJob), Or(o.cronJob, s.cronJob), Or(o.staleHelm, s.staleHelm), Or(o.unused, s.unused),
            Or(o.youngPod, s.youngPod), Or(o.unavailable, s.unavailable), Or(o.quotaWarn, s.quotaWarn), Or(o.quotaCrit, s.quotaCrit),
            OverlayDetectors(s.detectors, o.detectors), Or(o.overrides, s.overrides), Or(o.contexts, s.contexts))
  }

  function Overlay(g: Policy, o: Override): Policy {
    Policy(Or(o.profile, g.profile),
           if o.snapshots == None then g.snapshots else OverlaySnapshots(g.snapshots, o.snapshots.value),
           if o.persistence == None then g.persistence
           else Persistence(Or(o.persistence.value.enabled, g.persistence.enabled), Or(o.persistence.value.maxAgeHours, g.persistence.maxAgeHours)),
           if o.observers == None then g.observers else OverlayObservers(g.observers, o.observers.value),
           if o.enrichment == None then g.enrichment else OverlayEnrichment(g.enrichment, o.enrichment.value),
           if o.allContexts == None then g.allContexts else OverlayAllContexts(g.allContexts, o.allContexts.value),
           if o.budget == None then g.budget else OverlayBudget(g.budget, o.budget.value),
           g.dashboard,
           if o.metrics == None then g.metrics else OverlayMetrics(g.metrics, o.metrics.value),
           if o.signals == None then g.signals else OverlaySignals(g.signals, o.signals.value))
  }

  /** applyDataplanePolicyOverride. */
  function ApplyOverride(g: Policy, o: Override, e: Env): Policy {
    Validate(Overlay(g, o), e)
  }

  // ------------------------------------------------------------- overlay, laws

  const NO_OVERRIDE := Override(None, None, None, None, None, None, None, None, None)

  function SweepAll(s: Sweep): SweepOverride {
    SweepOverride(Some(s.enabled), Some(s.idleQuietMs), Some(s.perCycle), Some(s.perHour), Some(s.minInterval), Some(s.maxParallel),
                  Some(s.pauseOnActivity), Some(s.pauseWhenBusy), Some(s.pauseOnIssues), Some(s.includeSystem))
  }

  function EnrichmentAll(n: Enrichment): EnrichmentOverride {
    EnrichmentOverride(Some(n.enabled), Some(n.includeFocus), Some(n.includeRecent), Some(n.recentLimit), Some(n.includeFavourites),
                       Some(n.favouriteLimit), Some(n.maxTargets), Some(n.maxParallel), Some(n.idleQuietMs), Some(n.details),
                       Some(n.pods), Some(n.deployments), Some(n.warmKinds), Some(n.pollMs), Some(SweepAll(n.sweep)))
  }

  function SignalsAll(s: Signals): SignalsOverride {
    var d := s.detectors;
    SignalsOverride(Some(s.longJob), Some(s.cronJob), Some(s.staleHelm), Some(s.unused), Some(s.youngPod), Some(s.unavailable),
                    Some(s.quotaWarn), Some(s.quotaCrit),
                    DetectorsOverride(Some(d.restarts), Some(d.containerPct), Some(d.nodePct), Some(d.quotaWarn), Some(d.quotaCrit)),
                    Some(s.overrides), Some(s.contexts))
  }

  /** The override that sets every setting an override can set, and deletes the TTL entries of `g` that `p` lacks. */
  function OverrideAll(p: Policy, ttl: map<string, int>, g: map<string, int>): Override {
    Override(
      Some(p.profile),
      Some(SnapshotsOverride(Some(map k <- ttl.Keys + g.Keys :: if k in ttl then Some(ttl[k]) else None),
                             Some(p.snapshots.manualBypass), Some(p.snapshots.invalidateWrites))),
      Some(ObserversOverride(Some(p.observers.enabled), Some(p.observers.nsEnabled), Some(p.observers.nsInterval),
                             Some(p.observers.nodesEnabled), Some(p.observers.nodesInterval), Some(p.observers.nodesBackoff))),
      Some(EnrichmentAll(p.enrichment)),
      Some(AllContextsOverride(Some(p.allContexts.enabled), Some(p.allContexts.interval), Some(p.allContexts.perCycle),
                               Some(p.allContexts.idleQuietMs), Some(p.allContexts.pauseOnActivity), Some(p.allContexts.pauseWhenBusy))),
      Some(BudgetOverride(Some(p.budget.maxConcurrent), Some(p.budget.maxBackground), Some(p.budget.longRunNotice), Some(p.budget.retries))),
      Some(MetricsOverride(Some(p.metrics.enabled), Some(p.metrics.podTtl), Some(p.metrics.nodeTtl), Some(p.metrics.containerPct),
                           Some(p.metrics.nodePct))),
      Some(SignalsAll(p.signals)),
      Some(PersistenceOverride(Some(p.persistence.enabled), Some(p.persistence.maxAgeHours))))
  }

  /** The empty override changes nothing; the full one reaches every policy, but for the dashboard settings. */
  lemma OverlayReaches(g: Policy, p: Policy)
    requires g.snapshots.ttl.Some? && p.snapshots.ttl.Some?
    ensures Overlay(g, NO_OVERRIDE) == g
    ensures Overlay(g, OverrideAll(p, p.snapshots.ttl.value, g.snapshots.ttl.value)) == p.(dashboard := g.dashboard)
  {
    TtlReaches(g.snapshots.ttl.value, p.snapshots.ttl.value);
    hide OverlayTtl;
  }

  lemma TtlReaches(g: map<string, int>, t: map<string, int>)
    ensures OverlayTtl(g, map k <- t.Keys + g.Keys :: if k in t then Some(t[k]) else None) == t
  {
  }

  // --------------------------------------------------------------------- bundles

  datatype Bundle = Bundle(version: string, global: Policy, contexts: map<string, Override>)

  /** The loop of ValidateDataplanePolicyBundle over the keys `ks`: overrides that change nothing are dropped. */
  function KeptOver(g: Policy, m: map<string, Override>, ks: seq<string>, e: Env): map<string, Override>
    requires forall k <- ks :: k in m
  {
    if ks == [] then map[]
    else
      var n := |ks| - 1;
      assert ks[n] in ks && forall k <- ks[..n] :: k in ks;
      var next, t := KeptOver(g, m, ks[..n], e), e.trim(ks[n]);
      if t == "" || ApplyOverride(g, m[ks[n]], Sub(e, InPruning(ks[n]))) == g then next else next[t := m[ks[n]]]
  }

  function Kept(g: Policy, m: map<string, Override>, e: Env): map<string, Override> {
    if (forall k <- e.order([], m.Keys) :: k in m) then KeptOver(g, m, e.order([], m.Keys), e) else map[]
  }

  /** ValidateDataplanePolicyBundle. */
  function ValidateBundle(b: Bundle, e: Env): Bundle {
    var g := Validate(b.global, Sub(e, InGlobal));
    Bundle(if e.trim(b.version) == "" then "v1" else b.version, g, Kept(g, b.contexts, e))
  }

  /** EffectivePolicy; the override is applied once to decide whether to keep it and once more for the result. */
  function Effective(b: Bundle, context: string, e: Env): Policy {
    var valid := ValidateBundle(b, e);
    var name := e.trim(context);
    if name == "" || name !in valid.contexts then valid.global
    else ApplyOverride(valid.global, valid.contexts[name], Sub(e, InResult))
  }

  /** The names of a bundle's contexts that stand for `name`. */
  predicate StandsFor(b: Bundle, raw: string, name: string, e: Env) {
    raw in b.contexts && e.trim(raw) == name != ""
  }

  // -------------------------------------------------------------------- pruning

  lemma {:induction false} KeptExactly(g: Policy, m: map<string, Override>, ks: seq<string>, e: Env, name: string)
    requires forall k <- ks :: k in m
    ensures var next := KeptOver(g, m, ks, e);
            && (name in next ==> name != "" && exists k <- ks :: e.trim(k) == name && next[name] == m[k] && ApplyOverride(g, m[k], Sub(e, InPruning(k))) != g)
            && (name !in next ==> forall k <- ks :: e.trim(k) == name != "" ==> ApplyOverride(g, m[k], Sub(e, InPruning(k))) == g)
  {
    hide ApplyOverride;
    if ks != [] {
      var n := |ks| - 1;
      assert ks[n] in ks && forall k <- ks[..n] :: k in ks;
      assert ks == ks[..n] + [ks[n]];
      KeptExactly(g, m, ks[..n], e, name);
    }
  }

  /** Where an effective policy comes from: an override that changes something, or the global policy if none does. */
  lemma EffectiveCases(b: Bundle, context: string, e: Env) returns (raw: Option<string>)
    requires Sound(e)
    ensures var g, name := Validate(b.global, Sub(e, InGlobal)), e.trim(context);
            match raw
            case Some(r) =>
              && StandsFor(b, r, name, e) && ApplyOverride(g, b.contexts[r], Sub(e, InPruning(r))) != g
              && Effective(b, context, e) == ApplyOverride(g, b.contexts[r], Sub(e, InResult))
            case None =>
              && Effective(b, context, e) == g
              && forall r :: StandsFor(b, r, name, e) ==> ApplyOverride(g, b.contexts[r], Sub(e, InPruning(r))) == g
  {
    hide ApplyOverride, Validate, KeptOver;
    var g, name, ks := Validate(b.global, Sub(e, InGlobal)), e.trim(context), e.order([], b.contexts.Keys);
    assert Lists(ks, b.contexts.Keys);
    KeptExactly(g, b.contexts, ks, e, name);
    var next := KeptOver(g, b.contexts, ks, e);
    if name in next {
      var k :| k in ks && e.trim(k) == name && next[name] == b.contexts[k] && ApplyOverride(g, b.contexts[k], Sub(e, InPruning(k))) != g;
      raw := Some(k);
    } else {
      raw := None;
    }
  }

  /** What a context's policy may be without any pruning: an override written for it, applied in some order, or else the global policy. */
  ghost predicate Means(b: Bundle, context: string, e: Env, p: Policy) {
    exists h :: Alike(e, h) && MeansWith(b, e.trim(context), e, Validate(b.global, h), p)
  }

  ghost predicate MeansWith(b: Bundle, name: string, e: Env, g: Policy, p: Policy) {
    if exists raw :: StandsFor(b, raw, name, e) then exists raw, f :: StandsFor(b, raw, name, e) && Alike(e, f) && p == ApplyOverride(g, b.contexts[raw], f)
    else p == g
  }

  /** Dropping the overrides that change nothing leaves every context with a policy that was written for it. */
  lemma PruningPreservesMeaning(b: Bundle, context: string, e: Env)
    requires Sound(e)
    ensures Means(b, context, e, Effective(b, context, e))
  {
    hide ApplyOverride, Validate, Effective, Sub, Alike;
    var h, name := Sub(e, InGlobal), e.trim(context);
    SubIsSound(e, InGlobal);
    SubIsSound(e, InResult);
    var g := Validate(b.global, h);
    var raw := EffectiveCases(b, context, e);
    if raw == None {
      if r :| StandsFor(b, r, name, e) {
        SubIsSound(e, InPruning(r));
        assert Effective(b, context, e) == ApplyOverride(g, b.contexts[r], Sub(e, InPruning(r)));
      }
    } else {
      assert StandsFor(b, raw.value, name, e);
    }
    assert MeansWith(b, name, e, g, Effective(b, context, e));
  }

  /** Every effective policy is a fixed point of validation. */
  lemma EffectiveIsValid(b: Bundle, context: string, e: Env, f: Env)
    requires Alike(e, f)
    ensures Validate(Effective(b, context, e), f) == Effective(b, context, e)
  {
    hide Validate, Overlay, Effective, Alike, Sub;
    AlikeIsSound(e, f);
    SelfAlike(e, f);
    var raw := EffectiveCases(b, context, e);
    SubsAreAlike(f, e, InGlobal);
    SubsAreAlike(f, e, InResult);
    SelfAlike(f, Sub(e, InGlobal));
    SelfAlike(f, Sub(e, InResult));
    ValidateIsIdempotent(b.global, Sub(e, InGlobal), f);
    if raw.Some? {
      ValidateIsIdempotent(Overlay(Validate(b.global, Sub(e, InGlobal)), b.contexts[raw.value]), Sub(e, InResult), f);
    }
  }
}

/**
 When the order in which Go meets the keys of maps shows in the policy of a context. Each
 walk over a map has an order of its own; the conditions below speak of the bundle alone.
*/
module BundleOrders {
  import opened Options
  import opened Policy
  import opened PolicyOrders
  import opened Bundles

  // ------------------------------------------------ overrides that are clear

  /** The signal maps that an override brings along are clear. */
  ghost predicate OverrideClear(o: Override, e: Env) {
    o.signals.Some? ==>
      && (o.signals.value.overrides.Some? ==> Unambiguous(o.signals.value.overrides.value, e))
      && (o.signals.value.contexts.Some? ==> ContextsUnambiguous(o.signals.value.contexts.value, e))
  }

  ghost predicate GlobalClear(b: Bundle, e: Env) {
    Defaulted(b.global) || SignalsClear(b.global.signals, e)
  }

  ghost predicate OverridesClear(b: Bundle, name: string, e: Env) {
    forall raw :: StandsFor(b, raw, name, e) ==> OverrideClear(b.contexts[raw], e)
  }

  lemma CleanIsUnambiguous(m: Overrides, e: Env)
    requires Clean(m, e)
    ensures Unambiguous(m, e)
  {
    hide ValidOverride, IsEmpty;
    assert forall k <- m :: CleanEntry(k, m[k], e);
  }

  lemma CleanIsClear(s: Signals, e: Env)
    requires Clean(s.overrides, e) && CleanContexts(s.contexts, e)
    ensures SignalsClear(s, e)
  {
    hide Clean, Unambiguous, Counts;
    CleanIsUnambiguous(s.overrides, e);
    forall c <- s.contexts ensures Unambiguous(s.contexts[c], e) {
      CleanIsUnambiguous(s.contexts[c], e);
    }
  }

  /** What is known of a validated policy. */
  ghost predicate Validated(g: Policy, e: Env) {
    g.snapshots.ttl.Some? && Clean(g.signals.overrides, e) && CleanContexts(g.signals.contexts, e) && Validate(g, e) == g
  }

  lemma ValidateIsValidated(p: Policy, e: Env, f: Env)
    requires Alike(e, f)
    ensures Validated(Validate(p, f), e)
  {
    hide Validate, SectionsValid, Alike, Clean;
    SelfAlike(e, f);
    AlikeIsSound(e, f);
    ValidateIsIdempotent(p, f, e);
    FixedPointsExactly(Validate(p, f), e);
    ValidHasClean(Validate(p, f), e);
  }

  lemma ValidHasClean(p: Policy, e: Env)
    requires Valid(p, e)
    ensures p.snapshots.ttl.Some? && Clean(p.signals.overrides, e) && CleanContexts(p.signals.contexts, e)
  {
    hide Clean, CleanContexts, EnrichmentValid, DetectorsValid;
  }

  /** What an override leaves of a validated policy, in any order, exactly when its own maps are clear. */
  lemma OverlayClear(g: Policy, o: Override, e: Env)
    requires Validated(g, e)
    ensures !Defaulted(Overlay(g, o)) && (SignalsClear(Overlay(g, o).signals, e) <==> OverrideClear(o, e))
  {
    hide Validate, Clean, CleanContexts, Unambiguous, ContextsUnambiguous, OverlayTtl;
    CleanIsClear(g.signals, e);
  }

  /** A clear override makes the same of a validated policy in every order. */
  lemma ClearApplies(g: Policy, o: Override, e: Env, f: Env)
    requires Alike(e, f) && Validated(g, e) && OverrideClear(o, e)
    ensures ApplyOverride(g, o, f) == ApplyOverride(g, o, e)
  {
    hide Validate, Overlay, Validated, OverrideClear, SignalsClear, Alike;
    OverlayClear(g, o, e);
    ClearAgrees(Overlay(g, o), e, f);
  }

  lemma ClearGlobal(b: Bundle, e: Env, f: Env)
    requires Alike(e, f) && GlobalClear(b, e)
    ensures Validate(b.global, f) == Validate(b.global, e)
  {
    hide Validate, SignalsClear, Alike;
    ClearAgrees(b.global, e, f);
  }

  // ------------------------------------------------------- steering a resolution

  /** Surroundings of a resolution in which `last` is the context met last, and each part has surroundings of its own. */
  function Choose(e: Env, last: string, inGlobal: Env, pruning: Env, inResult: Env): Env {
    Env(e.trim, e.known, (walk: seq<Place>, keys: set<string>) =>
      if walk == [] then MoveLast(e.order([], keys), last)
      else match walk[0]
        case InGlobal => inGlobal.order(walk[1..], keys)
        case InPruning(_) => pruning.order(walk[1..], keys)
        case InResult => inResult.order(walk[1..], keys)
        case _ => e.order(walk, keys))
  }

  lemma ChooseIsSound(e: Env, last: string, a: Env, p: Env, r: Env)
    requires Alike(e, a) && Alike(e, p) && Alike(e, r)
    ensures Alike(e, Choose(e, last, a, p, r))
  {
    var f := Choose(e, last, a, p, r);
    forall walk, keys ensures Lists(f.order(walk, keys), keys) {
      if walk == [] {
        var s := e.order([], keys);
        assert Lists(s, keys);
        OthersExactly(s, last);
      } else {
        assert Lists(a.order(walk[1..], keys), keys) && Lists(p.order(walk[1..], keys), keys);
        assert Lists(r.order(walk[1..], keys), keys) && Lists(e.order(walk, keys), keys);
      }
    }
  }

  lemma ChooseParts(e: Env, last: string, a: Env, p: Env, r: Env, raw: string)
    requires Alike(e, a) && Alike(e, p) && Alike(e, r)
    ensures var f := Choose(e, last, a, p, r);
            && SameWalks(Sub(f, InGlobal), a) && SameWalks(Sub(f, InPruning(raw)), p) && SameWalks(Sub(f, InResult), r)
  {
    hide Sound, MoveLast;
    forall walk: seq<Place>, place: Place ensures ([place] + walk)[0] == place && ([place] + walk)[1..] == walk {}
  }

  /** The results of the parts under such surroundings. */
  lemma ChosenParts(b: Bundle, g: Policy, o: Override, e: Env, last: string, a: Env, p: Env, r: Env, raw: string)
    requires Alike(e, a) && Alike(e, p) && Alike(e, r)
    ensures var f := Choose(e, last, a, p, r);
            && Validate(b.global, Sub(f, InGlobal)) == Validate(b.global, a)
            && ApplyOverride(g, o, Sub(f, InPruning(raw))) == ApplyOverride(g, o, p)
            && ApplyOverride(g, o, Sub(f, InResult)) == ApplyOverride(g, o, r)
  {
    hide Validate, Overlay, Choose, Sub, SameWalks, Alike;
    var f := Choose(e, last, a, p, r);
    ChooseParts(e, last, a, p, r, raw);
    SameValidate(b.global, Sub(f, InGlobal), a);
    SameValidate(Overlay(g, o), Sub(f, InPruning(raw)), p);
    SameValidate(Overlay(g, o), Sub(f, InResult), r);
  }

  /** The context met last, if its override changes something, gives the effective policy. */
  lemma LastWins(b: Bundle, context: string, e: Env, raw: string, a: Env, p: Env, r: Env)
    requires Alike(e, a) && Alike(e, p) && Alike(e, r) && StandsFor(b, raw, e.trim(context), e)
    requires ApplyOverride(Validate(b.global, a), b.contexts[raw], p) != Validate(b.global, a)
    ensures var f := Choose(e, raw, a, p, r);
            Alike(e, f) && Effective(b, context, f) == ApplyOverride(Validate(b.global, a), b.contexts[raw], r)
  {
    hide Validate, ApplyOverride, Alike;
    var f, g := Choose(e, raw, a, p, r), Validate(b.global, a);
    ChooseIsSound(e, raw, a, p, r);
    ChosenParts(b, g, b.contexts[raw], e, raw, a, p, r, raw);
    LastIsKept(g, b.contexts, f, raw, e);
  }

  lemma LastIsKept(g: Policy, m: map<string, Override>, f: Env, raw: string, e: Env)
    requires Alike(e, f) && raw in m && f.trim(raw) != "" && f.order([], m.Keys) == MoveLast(e.order([], m.Keys), raw)
    requires ApplyOverride(g, m[raw], Sub(f, InPruning(raw))) != g
    ensures f.trim(raw) in Kept(g, m, f) && Kept(g, m, f)[f.trim(raw)] == m[raw]
  {
    hide ApplyOverride;
    assert Lists(e.order([], m.Keys), m.Keys);
    assert Lists(f.order([], m.Keys), m.Keys);
  }

  /** If under its surroundings nothing is kept, the global policy is the effective one. */
  lemma NothingWins(b: Bundle, context: string, e: Env, a: Env, p: Env)
    requires Alike(e, a) && Alike(e, p)
    requires forall raw :: StandsFor(b, raw, e.trim(context), e) ==>
               ApplyOverride(Validate(b.global, a), b.contexts[raw], p) == Validate(b.global, a)
    ensures var f := Choose(e, "", a, p, e);
            Alike(e, f) && Effective(b, context, f) == Validate(b.global, a)
  {
    hide Validate, ApplyOverride, Alike, Effective;
    var f, g := Choose(e, "", a, p, e), Validate(b.global, a);
    EnvAlike(e, a);
    ChooseIsSound(e, "", a, p, e);
    AlikeIsSound(e, f);
    ChosenParts(b, g, NO_OVERRIDE, e, "", a, p, e, "");
    forall raw | StandsFor(b, raw, e.trim(context), e) ensures ApplyOverride(g, b.contexts[raw], Sub(f, InPruning(raw))) == g {
      ChosenParts(b, g, b.contexts[raw], e, "", a, p, e, raw);
    }
    AlikeTrims(e, f);
    var _ := EffectiveCases(b, context, f);
  }

  lemma EnvAlike(e: Env, f: Env)
    requires Alike(e, f)
    ensures Alike(e, e)
  {
  }

  // --------------------------------------------- when orders show in a resolution

  /** Every order gives the context the same policy. */
  ghost predicate Independent(b: Bundle, context: string, e: Env) {
    forall f, g :: Alike(e, f) && Alike(e, g) ==> Effective(b, context, f) == Effective(b, context, g)
  }

  predicate Changes(b: Bundle, raw: string, e: Env)
    requires raw in b.contexts
  {
    ApplyOverride(Validate(b.global, e), b.contexts[raw], e) != Validate(b.global, e)
  }

  /** All overrides for the context that change something resolve to one policy. */
  ghost predicate OneResult(b: Bundle, name: string, e: Env) {
    forall j, k :: StandsFor(b, j, name, e) && StandsFor(b, k, name, e) && Changes(b, j, e) && Changes(b, k, e) ==>
      ApplyOverride(Validate(b.global, e), b.contexts[j], e) == ApplyOverride(Validate(b.global, e), b.contexts[k], e)
  }

  /** An unclear override always shows, whatever stands beside it. */
  lemma UnclearOverrideShows(b: Bundle, context: string, e: Env, raw: string)
    requires Sound(e) && StandsFor(b, raw, e.trim(context), e) && !OverrideClear(b.contexts[raw], e)
    ensures !Independent(b, context, e)
  {
    hide Validate, Overlay, OverrideClear, SignalsClear, Alike, Effective, Validated;
    SoundAlike(e);
    var g, o := Validate(b.global, e), b.contexts[raw];
    ValidateIsValidated(b.global, e, e);
    OverlayClear(g, o, e);
    var f1, f2 := UnclearShows(Overlay(g, o), e);
    var p := if ApplyOverride(g, o, f1) != g then f1 else f2;
    LastWins(b, context, e, raw, e, p, f1);
    LastWins(b, context, e, raw, e, p, f2);
  }

  lemma SoundAlike(e: Env)
    requires Sound(e)
    ensures Alike(e, e)
  {
  }

  /** With a clear global policy and clear overrides each resolution is the one result, or the global policy if nothing changes. */
  lemma ClearResolution(b: Bundle, context: string, e: Env, f: Env) returns (raw: Option<string>)
    requires Alike(e, f) && GlobalClear(b, e) && OverridesClear(b, e.trim(context), e)
    ensures var g, name := Validate(b.global, e), e.trim(context);
            match raw
            case Some(r) => StandsFor(b, r, name, e) && Changes(b, r, e) && Effective(b, context, f) == ApplyOverride(g, b.contexts[r], e)
            case None => Effective(b, context, f) == g && forall r :: StandsFor(b, r, name, e) ==> !Changes(b, r, e)
  {
    hide Validate, ApplyOverride, Effective, GlobalClear, OverrideClear, Validated, Sub;
    SoundAlike(e);
    var g, name := Validate(b.global, e), e.trim(context);
    SubIsSound(f, InGlobal);
    ClearGlobal(b, e, Sub(f, InGlobal));
    ValidateIsValidated(b.global, e, e);
    raw := EffectiveCases(b, context, f);
    forall r, place | StandsFor(b, r, name, e)
      ensures ApplyOverride(g, b.contexts[r], Sub(f, place)) == ApplyOverride(g, b.contexts[r], e)
    {
      SubIsSound(f, place);
      ClearApplies(g, b.contexts[r], e, Sub(f, place));
    }
    assert forall r :: StandsFor(b, r, name, f) <==> StandsFor(b, r, name, e);
  }

  /** Where the global policy is clear, the order shows exactly when an override for the context is unclear or two of them disagree. */
  lemma ClearOrderExactly(b: Bundle, context: string, e: Env)
    requires Sound(e) && GlobalClear(b, e)
    ensures var name := e.trim(context);
            Independent(b, context, e) <==> OverridesClear(b, name, e) && OneResult(b, name, e)
  {
    hide Validate, ApplyOverride, Effective, GlobalClear, OverrideClear, Alike;
    var name := e.trim(context);
    SoundAlike(e);
    if raw :| StandsFor(b, raw, name, e) && !OverrideClear(b.contexts[raw], e) {
      UnclearOverrideShows(b, context, e, raw);
    } else if j, k :| StandsFor(b, j, name, e) && StandsFor(b, k, name, e) && Changes(b, j, e) && Changes(b, k, e)
                      && ApplyOverride(Validate(b.global, e), b.contexts[j], e) != ApplyOverride(Validate(b.global, e), b.contexts[k], e) {
      LastWins(b, context, e, j, e, e, e);
      LastWins(b, context, e, k, e, e, e);
    } else {
      forall f, g | Alike(e, f) && Alike(e, g) ensures Effective(b, context, f) == Effective(b, context, g) {
        var r := ClearResolution(b, context, e, f);
        var s := ClearResolution(b, context, e, g);
      }
    }
  }

  // --------------------------------------------------- an unclear global policy

  predicate CarriesNames(o: Override) {
    o.signals.Some? && o.signals.value.overrides.Some?
  }

  predicate CarriesContexts(o: Override) {
    o.signals.Some? && o.signals.value.contexts.Some?
  }

  /** The override brings along every signal map in which the global policy is unclear. */
  ghost predicate Replaces(b: Bundle, o: Override, e: Env) {
    && (!Unambiguous(b.global.signals.overrides, e) ==> CarriesNames(o))
    && (!ContextsUnambiguous(b.global.signals.contexts, e) ==> CarriesContexts(o))
  }

  /** It brings along none of them. */
  ghost predicate Keeps(b: Bundle, o: Override, e: Env) {
    && (!Unambiguous(b.global.signals.overrides, e) ==> !CarriesNames(o))
    && (!ContextsUnambiguous(b.global.signals.contexts, e) ==> !CarriesContexts(o))
  }

  /** The overrides for the context settle what the global policy leaves open, all in the same way, or change nothing. */
  ghost predicate Settled(b: Bundle, name: string, e: Env) {
    && (exists raw :: StandsFor(b, raw, name, e) && Replaces(b, b.contexts[raw], e))
    && (forall raw :: StandsFor(b, raw, name, e) ==>
          Replaces(b, b.contexts[raw], e) || (Keeps(b, b.contexts[raw], e) && !Changes(b, raw, e)))
    && (forall j, k :: StandsFor(b, j, name, e) && StandsFor(b, k, name, e) && Replaces(b, b.contexts[j], e) && Replaces(b, b.contexts[k], e) ==>
          ApplyOverride(Validate(b.global, e), b.contexts[j], e) == ApplyOverride(Validate(b.global, e), b.contexts[k], e))
  }

  /** The maps of an override's result: its own, if it brings them along, or those it found. */
  lemma ResultMaps(g: Policy, o: Override, e: Env, f: Env)
    requires Alike(e, f) && Validated(g, e)
    ensures var r := ApplyOverride(g, o, f).signals;
            && r.overrides == (if CarriesNames(o) then Normalized(o.signals.value.overrides.value, Sub(f, InSignals)) else g.signals.overrides)
            && r.contexts == (if CarriesContexts(o) then NormalizedContexts(o.signals.value.contexts.value, Sub(f, InContexts)) else g.signals.contexts)
  {
    hide Validate, Normalized, NormalizedContexts, Clean, CleanContexts, Sub, Alike, OverlayTtl, Bare;
    OnlyMapsDiffer(Overlay(g, o), Overlay(g, o), f, f);
    SubIsSound2(e, f);
    CleanIsShared(g.signals, e, Sub(f, InSignals));
    CleanIsShared(g.signals, e, Sub(f, InContexts));
    SignalMapsStay(g.signals, Sub(f, InSignals));
    SignalMapsStay(g.signals, Sub(f, InContexts));
  }

  lemma SubIsSound2(e: Env, f: Env)
    requires Alike(e, f)
    ensures Alike(e, Sub(f, InSignals)) && Alike(e, Sub(f, InContexts)) && Sound(Sub(f, InSignals)) && Sound(Sub(f, InContexts))
  {
    SubIsSound(f, InSignals);
    SubIsSound(f, InContexts);
  }

  /** Clear maps come out the same in every order. */
  lemma OwnMapsAgree(o: Override, e: Env, f: Env, f': Env)
    requires Alike(e, f) && Alike(e, f') && OverrideClear(o, e)
    ensures CarriesNames(o) ==> Normalized(o.signals.value.overrides.value, Sub(f, InSignals)) == Normalized(o.signals.value.overrides.value, Sub(f', InSignals))
    ensures CarriesContexts(o) ==>
              NormalizedContexts(o.signals.value.contexts.value, Sub(f, InContexts)) == NormalizedContexts(o.signals.value.contexts.value, Sub(f', InContexts))
  {
    hide Normalized, NormalizedContexts, Unambiguous, ContextsUnambiguous, Alike, Sub;
    AlikeIsSound(e, f);
    SubIsSound2(e, f);
    SubIsSound2(e, f');
    if CarriesNames(o) { SignalOrderExactly(o.signals.value.overrides.value, e); }
    if CarriesContexts(o) { ContextOrderExactly(o.signals.value.contexts.value, e); }
  }

  /** The global policy in two orders: the same but for the maps in which it is unclear. */
  lemma Globals(b: Bundle, e: Env, h: Env, h': Env)
    requires Alike(e, h) && Alike(e, h') && !Defaulted(b.global)
    ensures var g, g' := Validate(b.global, h), Validate(b.global, h');
            && Validated(g, e) && Validated(g', e) && Bare(g) == Bare(g')
            && g.signals.overrides == Normalized(b.global.signals.overrides, Sub(h, InSignals))
            && g.signals.contexts == NormalizedContexts(b.global.signals.contexts, Sub(h, InContexts))
            && (Unambiguous(b.global.signals.overrides, e) ==> g.signals.overrides == g'.signals.overrides)
            && (ContextsUnambiguous(b.global.signals.contexts, e) ==> g.signals.contexts == g'.signals.contexts)
  {
    hide Validate, Normalized, NormalizedContexts, Unambiguous, ContextsUnambiguous, Alike, Sub, Bare, Validated;
    AlikeIsSound(e, h);
    ValidateIsValidated(b.global, e, h);
    ValidateIsValidated(b.global, e, h');
    OnlyMapsDiffer(b.global, b.global, h, h');
    OnlyMapsDiffer(b.global, b.global, h', h);
    SubIsSound2(e, h);
    SubIsSound2(e, h');
    SignalOrderExactly(b.global.signals.overrides, e);
    ContextOrderExactly(b.global.signals.contexts, e);
  }

  lemma BareOverlay(g: Policy, g': Policy, o: Override, f: Env, f': Env)
    requires Bare(g) == Bare(g')
    ensures Bare(ApplyOverride(g, o, f)) == Bare(ApplyOverride(g', o, f'))
  {
    hide Validate, OverlayTtl;
    BaresOverlaid(g, g', o);
    hide Bare, Overlay;
    OnlyMapsDiffer(Overlay(g, o), Overlay(g', o), f, f');
  }

  lemma BaresOverlaid(g: Policy, g': Policy, o: Override)
    requires Bare(g) == Bare(g')
    ensures Bare(Overlay(g, o)) == Bare(Overlay(g', o))
  {
    hide OverlayTtl;
    assert g.(signals := g'.signals) == g' && g.signals.detectors == g'.signals.detectors;
  }

  /** An override that settles the open maps makes the same of the global policy in every order. */
  lemma ReplacedAgree(b: Bundle, o: Override, e: Env, h: Env, f: Env, h': Env, f': Env)
    requires Alike(e, h) && Alike(e, f) && Alike(e, h') && Alike(e, f') && !Defaulted(b.global)
    requires OverrideClear(o, e) && Replaces(b, o, e)
    ensures ApplyOverride(Validate(b.global, h), o, f) == ApplyOverride(Validate(b.global, h'), o, f')
  {
    hide Validate, ApplyOverride, Normalized, NormalizedContexts, Unambiguous, ContextsUnambiguous, Alike, Sub, Bare, Validated, OverrideClear;
    hide CarriesNames, CarriesContexts;
    var g, g' := Validate(b.global, h), Validate(b.global, h');
    Globals(b, e, h, h');
    BareOverlay(g, g', o, f, f');
    ResultMaps(g, o, e, f);
    ResultMaps(g', o, e, f');
    OwnMapsAgree(o, e, f, f');
    SamePolicy(ApplyOverride(g, o, f), ApplyOverride(g', o, f'));
  }

  /** An override that leaves the open maps changes something in every order or in none. */
  lemma KeptAgree(b: Bundle, o: Override, e: Env, h: Env, f: Env, h': Env, f': Env)
    requires Alike(e, h) && Alike(e, f) && Alike(e, h') && Alike(e, f') && !Defaulted(b.global)
    requires OverrideClear(o, e) && Keeps(b, o, e)
    ensures ApplyOverride(Validate(b.global, h), o, f) == Validate(b.global, h)
       <==> ApplyOverride(Validate(b.global, h'), o, f') == Validate(b.global, h')
  {
    hide Validate, ApplyOverride, Normalized, NormalizedContexts, Unambiguous, ContextsUnambiguous, Alike, Sub, Bare, Validated, OverrideClear;
    hide CarriesNames, CarriesContexts;
    var g, g' := Validate(b.global, h), Validate(b.global, h');
    Globals(b, e, h, h');
    BareOverlay(g, g', o, f, f');
    ResultMaps(g, o, e, f);
    ResultMaps(g', o, e, f');
    OwnMapsAgree(o, e, f, f');
    BareOf(ApplyOverride(g, o, f), g);
    BareOf(ApplyOverride(g', o, f'), g');
  }

  lemma BareOf(p: Policy, q: Policy)
    ensures p == q <==> Bare(p) == Bare(q) && p.signals.overrides == q.signals.overrides && p.signals.contexts == q.signals.contexts
  {
  }

  /** Surroundings that walk over signal names as `n` does and over contexts as `c` does. */
  function Mix(n: Env, c: Env): Env {
    Env(n.trim, n.known, (walk: seq<Place>, keys: set<string>) =>
      if walk != [] && walk[0] == InContexts then c.order(walk, keys) else n.order(walk, keys))
  }

  lemma MixParts(e: Env, n: Env, c: Env)
    requires Alike(e, n) && Alike(e, c)
    ensures Alike(e, Mix(n, c))
    ensures SameWalks(Sub(Mix(n, c), InSignals), Sub(n, InSignals)) && SameWalks(Sub(Mix(n, c), InContexts), Sub(c, InContexts))
  {
    var f := Mix(n, c);
    forall walk, keys ensures Lists(f.order(walk, keys), keys) {
      assert Lists(n.order(walk, keys), keys) && Lists(c.order(walk, keys), keys);
    }
    hide Lists;
    forall walk: seq<Place>, place: Place ensures ([place] + walk)[0] == place {}
  }

  lemma MixedGlobal(b: Bundle, e: Env, n: Env, c: Env)
    requires Alike(e, n) && Alike(e, c) && !Defaulted(b.global)
    ensures Alike(e, Mix(n, c))
    ensures Validate(b.global, Mix(n, c)).signals.overrides == Normalized(b.global.signals.overrides, Sub(n, InSignals))
    ensures Validate(b.global, Mix(n, c)).signals.contexts == NormalizedContexts(b.global.signals.contexts, Sub(c, InContexts))
  {
    hide Validate, Normalized, NormalizedContexts, Sub, Mix, SameWalks, Bare;
    MixParts(e, n, c);
    OnlyMapsDiffer(b.global, b.global, Mix(n, c), n);
    SameNormalized(b.global.signals.overrides, Sub(Mix(n, c), InSignals), Sub(n, InSignals));
    SameContexts(b.global.signals.contexts, Sub(Mix(n, c), InContexts), Sub(c, InContexts));
  }

  /** Two global policies that differ in a map which the override leaves show, if the override changes both. */
  lemma OpenMapShows(b: Bundle, context: string, e: Env, raw: string, h: Env, h': Env)
    requires Sound(e) && StandsFor(b, raw, e.trim(context), e) && Alike(e, h) && Alike(e, h')
    requires var g, g', o := Validate(b.global, h), Validate(b.global, h'), b.contexts[raw];
             && ApplyOverride(g, o, e) != g && ApplyOverride(g', o, e) != g'
             && ((!CarriesNames(o) && g.signals.overrides != g'.signals.overrides)
                 || (!CarriesContexts(o) && g.signals.contexts != g'.signals.contexts))
    ensures !Independent(b, context, e)
  {
    hide Validate, ApplyOverride, Effective, Alike, Validated, CarriesNames, CarriesContexts, Normalized, NormalizedContexts;
    SoundAlike(e);
    LastWins(b, context, e, raw, h, e, e);
    LastWins(b, context, e, raw, h', e, e);
    ValidateIsValidated(b.global, e, h);
    ValidateIsValidated(b.global, e, h');
    ResultMaps(Validate(b.global, h), b.contexts[raw], e, e);
    ResultMaps(Validate(b.global, h'), b.contexts[raw], e, e);
  }

  /** An override that settles only a part, or leaves the open maps and changes something else, shows. */
  lemma OpenShows(b: Bundle, context: string, e: Env, raw: string)
    requires Sound(e) && !Defaulted(b.global) && StandsFor(b, raw, e.trim(context), e) && OverrideClear(b.contexts[raw], e)
    requires var o := b.contexts[raw]; !Replaces(b, o, e) && !(Keeps(b, o, e) && !Changes(b, raw, e))
    ensures !Independent(b, context, e)
  {
    hide Validate, ApplyOverride, Alike, Normalized, NormalizedContexts, Unambiguous, ContextsUnambiguous, OverrideClear, Independent;
    hide CarriesNames, CarriesContexts, Mix;
    SoundAlike(e);
    var o := b.contexts[raw];
    if !Unambiguous(b.global.signals.overrides, e) && !CarriesNames(o) {
      var n, n' := UnclearNames(b.global.signals.overrides, e);
      var c := OtherContexts(b, raw, e);
      MixedGlobal(b, e, n, c);
      MixedGlobal(b, e, n', c);
      OpenChanges(b, raw, e, Mix(n, c), c);
      OpenChanges(b, raw, e, Mix(n', c), c);
      OpenMapShows(b, context, e, raw, Mix(n, c), Mix(n', c));
    } else {
      var c, c' := UnclearContexts(b.global.signals.contexts, e);
      var n := OtherNames(b, raw, e);
      MixedGlobal(b, e, n, c);
      MixedGlobal(b, e, n, c');
      OpenChanges(b, raw, e, Mix(n, c), n);
      OpenChanges(b, raw, e, Mix(n, c'), n);
      OpenMapShows(b, context, e, raw, Mix(n, c), Mix(n, c'));
    }
  }

  /** Surroundings in which the contexts of the global policy are not those that the override brings along. */
  lemma OtherContexts(b: Bundle, raw: string, e: Env) returns (c: Env)
    requires Sound(e) && raw in b.contexts
    ensures Alike(e, c)
    ensures !ContextsUnambiguous(b.global.signals.contexts, e) && CarriesContexts(b.contexts[raw]) ==>
              NormalizedContexts(b.global.signals.contexts, Sub(c, InContexts))
              != NormalizedContexts(b.contexts[raw].signals.value.contexts.value, Sub(e, InContexts))
  {
    hide NormalizedContexts, ContextsUnambiguous, Alike;
    SoundAlike(e);
    c := e;
    if !ContextsUnambiguous(b.global.signals.contexts, e) && CarriesContexts(b.contexts[raw]) {
      var f, g := UnclearContexts(b.global.signals.contexts, e);
      c := if NormalizedContexts(b.global.signals.contexts, Sub(f, InContexts))
              != NormalizedContexts(b.contexts[raw].signals.value.contexts.value, Sub(e, InContexts)) then f else g;
    }
  }

  lemma OtherNames(b: Bundle, raw: string, e: Env) returns (n: Env)
    requires Sound(e) && raw in b.contexts
    ensures Alike(e, n)
    ensures !Unambiguous(b.global.signals.overrides, e) && CarriesNames(b.contexts[raw]) ==>
              Normalized(b.global.signals.overrides, Sub(n, InSignals))
              != Normalized(b.contexts[raw].signals.value.overrides.value, Sub(e, InSignals))
  {
    hide Normalized, Unambiguous, Alike;
    SoundAlike(e);
    n := e;
    if !Unambiguous(b.global.signals.overrides, e) && CarriesNames(b.contexts[raw]) {
      var f, g := UnclearNames(b.global.signals.overrides, e);
      n := if Normalized(b.global.signals.overrides, Sub(f, InSignals))
              != Normalized(b.contexts[raw].signals.value.overrides.value, Sub(e, InSignals)) then f else g;
    }
  }

  /** Such an override changes the global policy under those surroundings. */
  lemma OpenChanges(b: Bundle, raw: string, e: Env, h: Env, part: Env)
    requires Sound(e) && !Defaulted(b.global) && raw in b.contexts && Alike(e, h) && OverrideClear(b.contexts[raw], e)
    requires var o, g := b.contexts[raw], Validate(b.global, h);
             || (Keeps(b, o, e) && Changes(b, raw, e))
             || (CarriesContexts(o) && g.signals.contexts != NormalizedContexts(o.signals.value.contexts.value, Sub(e, InContexts)))
             || (CarriesNames(o) && g.signals.overrides != Normalized(o.signals.value.overrides.value, Sub(e, InSignals)))
    ensures ApplyOverride(Validate(b.global, h), b.contexts[raw], e) != Validate(b.global, h)
  {
    hide Validate, ApplyOverride, Alike, Normalized, NormalizedContexts, Unambiguous, ContextsUnambiguous, OverrideClear, Validated;
    hide Keeps, CarriesNames, CarriesContexts;
    SoundAlike(e);
    var o, g := b.contexts[raw], Validate(b.global, h);
    ValidateIsValidated(b.global, e, h);
    ResultMaps(g, o, e, e);
    if Keeps(b, o, e) && Changes(b, raw, e) {
      KeptAgree(b, o, e, e, e, h, e);
    }
  }

  /** Where the global policy is unclear, orders do not show exactly when overrides settle what it leaves open. */
  lemma UnclearOrderExactly(b: Bundle, context: string, e: Env)
    requires Sound(e) && !GlobalClear(b, e)
    ensures var name := e.trim(context);
            Independent(b, context, e) <==> OverridesClear(b, name, e) && Settled(b, name, e)
  {
    hide Validate, ApplyOverride, Effective, OverrideClear, Alike, Replaces, Keeps, SignalsClear;
    var name := e.trim(context);
    SoundAlike(e);
    if raw :| StandsFor(b, raw, name, e) && !OverrideClear(b.contexts[raw], e) {
      UnclearOverrideShows(b, context, e, raw);
    } else if raw :| StandsFor(b, raw, name, e) && !Replaces(b, b.contexts[raw], e) && !(Keeps(b, b.contexts[raw], e) && !Changes(b, raw, e)) {
      OpenShows(b, context, e, raw);
    } else if !exists raw :: StandsFor(b, raw, name, e) && Replaces(b, b.contexts[raw], e) {
      GlobalShows(b, context, e);
    } else if j, k :| StandsFor(b, j, name, e) && StandsFor(b, k, name, e) && Replaces(b, b.contexts[j], e) && Replaces(b, b.contexts[k], e)
                      && ApplyOverride(Validate(b.global, e), b.contexts[j], e) != ApplyOverride(Validate(b.global, e), b.contexts[k], e) {
      ReplacerWins(b, context, e, j);
      ReplacerWins(b, context, e, k);
    } else {
      forall f, g | Alike(e, f) && Alike(e, g) ensures Effective(b, context, f) == Effective(b, context, g) {
        SettledResult(b, context, e, f);
        SettledResult(b, context, e, g);
      }
    }
  }

  /** Nothing settles the global policy, so it shows as it is. */
  lemma GlobalShows(b: Bundle, context: string, e: Env)
    requires Sound(e) && !GlobalClear(b, e)
    requires forall raw :: StandsFor(b, raw, e.trim(context), e) ==>
               OverrideClear(b.contexts[raw], e) && Keeps(b, b.contexts[raw], e) && !Changes(b, raw, e)
    ensures !Independent(b, context, e)
  {
    hide Validate, ApplyOverride, Effective, OverrideClear, Alike, Keeps, SignalsClear;
    SoundAlike(e);
    var f, g := UnclearShows(b.global, e);
    forall h, raw | (h == f || h == g) && StandsFor(b, raw, e.trim(context), e)
      ensures ApplyOverride(Validate(b.global, h), b.contexts[raw], e) == Validate(b.global, h)
    {
      KeptAgree(b, b.contexts[raw], e, e, e, h, e);
    }
    NothingWins(b, context, e, f, e);
    NothingWins(b, context, e, g, e);
  }

  /** Each override that settles the global policy gives the effective policy in some order. */
  lemma ReplacerWins(b: Bundle, context: string, e: Env, raw: string)
    requires Sound(e) && !GlobalClear(b, e) && StandsFor(b, raw, e.trim(context), e)
    requires OverrideClear(b.contexts[raw], e) && Replaces(b, b.contexts[raw], e)
    ensures exists f :: Alike(e, f) && Effective(b, context, f) == ApplyOverride(Validate(b.global, e), b.contexts[raw], e)
  {
    hide Validate, ApplyOverride, Effective, OverrideClear, Alike, Replaces, SignalsClear;
    SoundAlike(e);
    var o := b.contexts[raw];
    var f, g := UnclearShows(b.global, e);
    ReplacedAgree(b, o, e, e, e, f, e);
    ReplacedAgree(b, o, e, e, e, g, e);
    var h := if ApplyOverride(Validate(b.global, f), o, e) != Validate(b.global, f) then f else g;
    LastWins(b, context, e, raw, h, e, e);
  }

  lemma SettledResult(b: Bundle, context: string, e: Env, f: Env)
    requires Alike(e, f) && !GlobalClear(b, e) && OverridesClear(b, e.trim(context), e) && Settled(b, e.trim(context), e)
    ensures forall r :: StandsFor(b, r, e.trim(context), e) && Replaces(b, b.contexts[r], e) ==>
              Effective(b, context, f) == ApplyOverride(Validate(b.global, e), b.contexts[r], e)
  {
    hide Validate, ApplyOverride, Effective, OverrideClear, Alike, Replaces, Keeps, SignalsClear, Sub;
    var name := e.trim(context);
    AlikeIsSound(e, f);
    AlikeTrims(e, f);
    SoundAlike(e);
    SubIsSound(f, InGlobal);
    SubIsSound(f, InResult);
    ThroughAlike(e, f, Sub(f, InGlobal));
    ThroughAlike(e, f, Sub(f, InResult));
    var h := Sub(f, InGlobal);
    var raw := EffectiveCases(b, context, f);
    forall r | StandsFor(b, r, name, e) && Replaces(b, b.contexts[r], e)
      ensures Effective(b, context, f) == ApplyOverride(Validate(b.global, e), b.contexts[r], e)
    {
      if raw.Some? {
        SubIsSound(f, InPruning(raw.value));
        ThroughAlike(e, f, Sub(f, InPruning(raw.value)));
        if Keeps(b, b.contexts[raw.value], e) && !Changes(b, raw.value, e) {
          KeptAgree(b, b.contexts[raw.value], e, e, e, h, Sub(f, InPruning(raw.value)));
        }
        ReplacedAgree(b, b.contexts[raw.value], e, e, e, h, Sub(f, InResult));
      } else {
        SubIsSound(f, InPruning(r));
        ThroughAlike(e, f, Sub(f, InPruning(r)));
        ReplacedAgree(b, b.contexts[r], e, e, e, h, Sub(f, InPruning(r)));
      }
    }
  }

  lemma ThroughAlike(e: Env, f: Env, g: Env)
    requires Alike(e, f) && Alike(f, g)
    ensures Alike(e, g)
  {
  }

  /**
   A context's effective policy does not depend on the order in which maps are met exactly
   when: the overrides for it are clear and those that change something resolve to one
   policy; or, if the global policy is itself unclear, when clear overrides settle it.
  */
  lemma EffectiveOrderExactly(b: Bundle, context: string, e: Env)
    requires Sound(e)
    ensures var name := e.trim(context);
            Independent(b, context, e)
            <==> OverridesClear(b, name, e) && if GlobalClear(b, e) then OneResult(b, name, e) else Settled(b, name, e)
  {
    hide Independent, OverridesClear, GlobalClear, OneResult, Settled;
    if GlobalClear(b, e) {
      ClearOrderExactly(b, context, e);
    } else {
      UnclearOrderExactly(b, context, e);
    }
  }

  // -------------------------------------------------- what follows for bundles

  /** No two names of contexts differ only in surrounding space. */
  ghost predicate NamesDiffer(m: map<string, Override>, e: Env) {
    forall j <- m, k <- m :: e.trim(j) == e.trim(k) ==> j == k
  }

  ghost predicate BundleClear(b: Bundle, e: Env) {
    GlobalClear(b, e) && forall raw <- b.contexts :: OverrideClear(b.contexts[raw], e)
  }

  /** A clear bundle with names that differ has one meaning for each context. */
  lemma MeaningIsUnique(b: Bundle, context: string, e: Env, p: Policy, q: Policy)
    requires Sound(e) && BundleClear(b, e) && NamesDiffer(b.contexts, e)
    requires Means(b, context, e, p) && Means(b, context, e, q)
    ensures p == q
  {
    hide Validate, ApplyOverride, OverrideClear, GlobalClear, Alike, Validated;
    MeaningIs(b, context, e, p);
    MeaningIs(b, context, e, q);
  }

  /** The meaning of a context in a clear bundle: the global policy with its override applied, in any order. */
  lemma MeaningIs(b: Bundle, context: string, e: Env, p: Policy)
    requires Sound(e) && BundleClear(b, e) && Means(b, context, e, p)
    ensures var g, name := Validate(b.global, e), e.trim(context);
            if exists raw :: StandsFor(b, raw, name, e) then exists raw :: StandsFor(b, raw, name, e) && p == ApplyOverride(g, b.contexts[raw], e)
            else p == g
  {
    hide Validate, ApplyOverride, OverrideClear, GlobalClear, Alike, Validated;
    SoundAlike(e);
    var g, name := Validate(b.global, e), e.trim(context);
    var h :| Alike(e, h) && MeansWith(b, name, e, Validate(b.global, h), p);
    ClearGlobal(b, e, h);
    ValidateIsValidated(b.global, e, e);
    if exists raw :: StandsFor(b, raw, name, e) {
      var raw, f :| StandsFor(b, raw, name, e) && Alike(e, f) && p == ApplyOverride(g, b.contexts[raw], f);
      ClearApplies(g, b.contexts[raw], e, f);
    }
  }

  ghost predicate AllKept(g: Policy, m: map<string, Override>, e: Env) {
    forall k <- m :: e.trim(k) == k != "" && ApplyOverride(g, m[k], Sub(e, InPruning(k))) != g
  }

  lemma {:induction false} AllKeptStay(g: Policy, m: map<string, Override>, ks: seq<string>, e: Env)
    requires AllKept(g, m, e) && forall k <- ks :: k in m
    ensures KeptOver(g, m, ks, e) == map k <- m | k in ks :: m[k]
  {
    hide ApplyOverride;
    if ks != [] {
      var n := |ks| - 1;
      assert ks[n] in ks && forall k <- ks[..n] :: k in ks;
      AllKeptStay(g, m, ks[..n], e);
      assert ks == ks[..n] + [ks[n]];
    }
  }

  /** What the first validation keeps of a clear bundle, the second keeps in its own order. */
  lemma KeptAreAllKept(b: Bundle, e: Env, f: Env)
    requires Alike(e, f) && BundleClear(b, e)
    ensures AllKept(Validate(b.global, e), ValidateBundle(b, e).contexts, f) && ValidateBundle(b, e).global == Validate(b.global, e)
  {
    hide Validate, ApplyOverride, OverrideClear, GlobalClear, Alike, Validated, KeptOver, Sub;
    AlikeIsSound(e, f);
    SoundAlike(e);
    SubIsSound(e, InGlobal);
    ClearGlobal(b, e, Sub(e, InGlobal));
    ValidateIsValidated(b.global, e, e);
    AlikeTrims(e, f);
    var g, ks := Validate(b.global, e), e.order([], b.contexts.Keys);
    ListsKeys(e, b.contexts.Keys);
    var next := ValidateBundle(b, e).contexts;
    forall t <- next ensures f.trim(t) == t != "" && ApplyOverride(g, next[t], Sub(f, InPruning(t))) != g {
      KeptExactly(g, b.contexts, ks, e, t);
      var k :| k in ks && e.trim(k) == t && next[t] == b.contexts[k] && ApplyOverride(g, b.contexts[k], Sub(e, InPruning(k))) != g;
      TrimmedTwice(e, k);
      SubIsSound(e, InPruning(k));
      SubIsSound(f, InPruning(t));
      ThroughAlike(e, f, Sub(f, InPruning(t)));
      ClearApplies(g, b.contexts[k], e, Sub(e, InPruning(k)));
      ClearApplies(g, b.contexts[k], e, Sub(f, InPruning(t)));
    }
  }

  lemma ListsKeys(e: Env, keys: set<string>)
    requires Sound(e)
    ensures forall k :: k in e.order([], keys) <==> k in keys
  {
    assert Lists(e.order([], keys), keys);
  }

  lemma TrimmedTwice(e: Env, s: string)
    requires Sound(e)
    ensures e.trim(e.trim(s)) == e.trim(s)
  {
  }

  /** A clear bundle that has been validated is left alone by validation in any other order, and resolves every context as before. */
  lemma BundleValidationIsIdempotent(b: Bundle, context: string, e: Env, f: Env)
    requires Alike(e, f) && BundleClear(b, e)
    ensures ValidateBundle(ValidateBundle(b, e), f) == ValidateBundle(b, e)
    ensures Effective(ValidateBundle(b, e), context, f) == Effective(b, context, e)
  {
    hide Validate, ApplyOverride, OverrideClear, GlobalClear, Alike, Validated, KeptOver, Sub, AllKept;
    AlikeIsSound(e, f);
    var v, g := ValidateBundle(b, e), Validate(b.global, e);
    KeptAreAllKept(b, e, f);
    SubIsSound(f, InGlobal);
    ThroughAlike(e, f, Sub(f, InGlobal));
    ValidateIsIdempotent(b.global, e, Sub(f, InGlobal));
    ListsKeys(f, v.contexts.Keys);
    AllKeptStay(g, v.contexts, f.order([], v.contexts.Keys), f);
    assert Kept(g, v.contexts, f) == v.contexts;
    AlikeTrims(e, f);
    var name := e.trim(context);
    if name != "" && name in v.contexts {
      KeptAreClear(b, e, name);
      ValidateIsValidated(b.global, e, e);
      SubIsSound(e, InResult);
      SubIsSound(f, InResult);
      ThroughAlike(e, f, Sub(f, InResult));
      ClearApplies(g, v.contexts[name], e, Sub(e, InResult));
      ClearApplies(g, v.contexts[name], e, Sub(f, InResult));
    }
  }

  lemma KeptAreClear(b: Bundle, e: Env, name: string)
    requires Sound(e) && BundleClear(b, e) && name in ValidateBundle(b, e).contexts
    ensures OverrideClear(ValidateBundle(b, e).contexts[name], e) && Alike(e, e)
  {
    hide Validate, ApplyOverride, OverrideClear, GlobalClear, KeptOver, Sub;
    ListsKeys(e, b.contexts.Keys);
    KeptExactly(Validate(b.global, Sub(e, InGlobal)), b.contexts, e.order([], b.contexts.Keys), e, name);
  }

  // --------------------------------------------------------- bundles that fail

  const OFF := SignalOverride(Some(false), "", None)
  const ON := SignalOverride(Some(true), "", None)
  const NO_DETECTORS := DetectorsOverride(None, None, None, None, None)

  /** An override with one signal under two spellings that say different things. */
  const TWO_SPELLINGS := NO_OVERRIDE.(signals := Some(SignalsOverride(
    None, None, None, None, None, None, None, None, NO_DETECTORS, Some(map["t" := OFF, " t" := ON]), None)))

  const SWITCHED_OFF := DEFAULT.(signals := DEFAULT.signals.(overrides := map["t" := OFF]))

  const SPELLINGS := Bundle("v1", SWITCHED_OFF, map["a" := TWO_SPELLINGS])

  /** One context under two names with different profiles. */
  const TWO_NAMES := Bundle("v1", DEFAULT, map["a" := NO_OVERRIDE.(profile := Some("manual")), " a" := NO_OVERRIDE.(profile := Some("wide"))])

  /** Surroundings such as strings.TrimSpace and a table with the signal type "t" give. */
  ghost predicate Plausible(e: Env) {
    && Sound(e) && e.trim("a") == "a" == e.trim(" a") && e.trim("t") == "t" == e.trim(" t") && e.known("t")
  }

  lemma SwitchedOffIsValid(e: Env)
    requires Plausible(e)
    ensures Validate(SWITCHED_OFF, e) == SWITCHED_OFF && SignalsClear(SWITCHED_OFF.signals, e) && Alike(e, e)
  {
    SoundAlike(e);
    DefaultIsValid(e);
    assert Clean(SWITCHED_OFF.signals.overrides, e) && CleanContexts(SWITCHED_OFF.signals.contexts, e);
    CleanIsClear(SWITCHED_OFF.signals, e);
    SubIsSound2(e, e);
    CleanIsShared(SWITCHED_OFF.signals, e, Sub(e, InSignals));
    CleanIsShared(SWITCHED_OFF.signals, e, Sub(e, InContexts));
    SignalMapsStay(SWITCHED_OFF.signals, Sub(e, InSignals));
    SignalMapsStay(SWITCHED_OFF.signals, Sub(e, InContexts));
    assert Bare(SWITCHED_OFF) == Bare(DEFAULT);
    hide Validate, Bare, DEFAULT_TTL, Clean, CleanContexts, Sub, Normalized, NormalizedContexts;
    OnlyMapsDiffer(SWITCHED_OFF, DEFAULT, e, e);
    SamePolicy(Validate(SWITCHED_OFF, e), SWITCHED_OFF);
  }

  /** The two spellings are not clear, so the context's policy depends on the order. */
  lemma SpellingsShow(e: Env)
    requires Plausible(e)
    ensures NamesDiffer(SPELLINGS.contexts, e)
    ensures exists f, g :: Alike(e, f) && Alike(e, g) && Effective(SPELLINGS, "a", f) != Effective(SPELLINGS, "a", g)
  {
    var m := map["t" := OFF, " t" := ON];
    assert Counts(m, "t", e) && Counts(m, " t", e) && ValidOverride(m["t"]) != ValidOverride(m[" t"]);
    assert !OverrideClear(TWO_SPELLINGS, e);
    assert StandsFor(SPELLINGS, "a", e.trim("a"), e);
    hide OverrideClear, Effective, Alike;
    UnclearOverrideShows(SPELLINGS, "a", e, "a");
  }

  /** What the two spellings leave when one of them is met last. */
  lemma SpellingLast(e: Env, last: string) returns (f: Env)
    requires Plausible(e) && (last == "t" || last == " t")
    ensures Alike(e, f)
    ensures var n := Normalized(map["t" := OFF, " t" := ON], Sub(f, InSignals));
            "t" in n && n["t"] == (if last == "t" then OFF else ON) && (last == "t" ==> n == map["t" := OFF])
  {
    var m := map["t" := OFF, " t" := ON];
    f := Steer(e, _ => last);
    SteerIsSound(e, _ => last);
    SteeredEnd(e, _ => last, [InSignals], m.Keys);
    assert [InSignals] + [] == [InSignals];
    SubIsSound2(e, f);
    assert Counts(m, last, e);
    CountsAlike(m, e, Sub(f, InSignals));
    hide Normalized, Counts, Sound;
    LastStays(m, Sub(f, InSignals), last);
    if last == "t" {
      OnlySpelling(m, Sub(f, InSignals));
    }
  }

  /** In one order the override switches the signal on, in the other it says what the global policy says. */
  lemma SpellingsApply(e: Env) returns (on: Env, off: Env)
    requires Plausible(e)
    ensures Alike(e, on) && Alike(e, off)
    ensures ApplyOverride(SWITCHED_OFF, TWO_SPELLINGS, on) != SWITCHED_OFF
    ensures ApplyOverride(SWITCHED_OFF, TWO_SPELLINGS, off) == SWITCHED_OFF
  {
    hide Validate, Normalized, NormalizedContexts, Sub, DEFAULT_TTL, Bare, Overlay, Clean, Plausible, Alike, Validated, SignalsClear;
    on := SpellingLast(e, " t");
    off := SpellingLast(e, "t");
    SwitchedOffIsValid(e);
    ValidateIsValidated(SWITCHED_OFF, e, e);
    ResultMaps(SWITCHED_OFF, TWO_SPELLINGS, e, on);
    ResultMaps(SWITCHED_OFF, TWO_SPELLINGS, e, off);
    OverlayIsBare();
    OnlyMapsDiffer(Overlay(SWITCHED_OFF, TWO_SPELLINGS), SWITCHED_OFF, off, e);
    SamePolicy(ApplyOverride(SWITCHED_OFF, TWO_SPELLINGS, off), SWITCHED_OFF);
  }

  lemma OverlayIsBare()
    ensures Bare(Overlay(SWITCHED_OFF, TWO_SPELLINGS)) == Bare(SWITCHED_OFF)
  {
    hide DEFAULT_TTL;
  }

  /** Nothing but "t" can come out of the two spellings. */
  lemma OnlySpelling(m: Overrides, e: Env)
    requires Sound(e) && m == map["t" := OFF, " t" := ON] && e.trim("t") == "t" == e.trim(" t")
    requires "t" in Normalized(m, e) && Normalized(m, e)["t"] == ValidOverride(OFF)
    ensures Normalized(m, e) == map["t" := OFF]
  {
    hide Normalized, Counts;
    var n := Normalized(m, e);
    forall t ensures t in n <==> t == "t" {
      NormalizedExactly(m, e, t);
    }
  }

  /** A bundle that a second validation, in another order, does not leave alone. */
  lemma SecondValidationCanDiffer(e: Env)
    requires Plausible(e)
    ensures exists f, g :: Alike(e, f) && Alike(e, g) && ValidateBundle(ValidateBundle(SPELLINGS, f), g) != ValidateBundle(SPELLINGS, f)
  {
    hide Validate, ApplyOverride, Alike, TWO_SPELLINGS, SWITCHED_OFF, Choose, SignalsClear;
    SwitchedOffIsValid(e);
    PlausibleIsSound(e);
    var on, off := SpellingsApply(e);
    var f, g := Choose(e, "a", e, on, e), Choose(e, "a", e, off, e);
    ChooseIsSound(e, "a", e, on, e);
    ChooseIsSound(e, "a", e, off, e);
    ChosenParts(SPELLINGS, SWITCHED_OFF, TWO_SPELLINGS, e, "a", e, on, e, "a");
    ChosenParts(SPELLINGS, SWITCHED_OFF, TWO_SPELLINGS, e, "a", e, off, e, "a");
    var v := ValidateBundle(SPELLINGS, f);
    AlikeTrims(e, f);
    AlikeTrims(e, g);
    AlikeIsSound(e, f);
    AlikeIsSound(e, g);
    OneContext(SWITCHED_OFF, f);
    OneContext(SWITCHED_OFF, g);
    assert v.global == SWITCHED_OFF && v.contexts == map["a" := TWO_SPELLINGS];
    ChosenParts(v, SWITCHED_OFF, TWO_SPELLINGS, e, "a", e, off, e, "a");
    assert "a" !in ValidateBundle(v, g).contexts && "a" in v.contexts;
    assert Alike(e, f) && Alike(e, g) && ValidateBundle(ValidateBundle(SPELLINGS, f), g) != ValidateBundle(SPELLINGS, f);
  }

  lemma PlausibleIsSound(e: Env)
    requires Plausible(e)
    ensures Sound(e) && e.trim("a") == "a" == e.trim(" a")
  {
  }

  lemma OneContext(g: Policy, e: Env)
    requires Sound(e) && e.trim("a") == "a"
    ensures var m := map["a" := TWO_SPELLINGS];
            Kept(g, m, e) == if ApplyOverride(g, TWO_SPELLINGS, Sub(e, InPruning("a"))) == g then map[] else m
  {
    hide ApplyOverride, TWO_SPELLINGS, Sub;
    var m := map["a" := TWO_SPELLINGS];
    var ks := e.order([], m.Keys);
    ListsKeys(e, m.Keys);
    var next := KeptOver(g, m, ks, e);
    forall t ensures t in next <==> t == "a" && ApplyOverride(g, TWO_SPELLINGS, Sub(e, InPruning("a"))) != g {
      KeptExactly(g, m, ks, e, t);
      assert "a" in ks;
    }
    forall t <- next ensures next[t] == TWO_SPELLINGS {
      KeptExactly(g, m, ks, e, t);
    }
    assert next == if ApplyOverride(g, TWO_SPELLINGS, Sub(e, InPruning("a"))) == g then map[] else m;
  }

  /** Two names for one context with different profiles: the order decides which of them it gets. */
  lemma CollidingNamesShow(e: Env)
    requires Plausible(e)
    ensures exists f, g :: Alike(e, f) && Alike(e, g) && Effective(TWO_NAMES, "a", f) != Effective(TWO_NAMES, "a", g)
  {
    hide Validate, ApplyOverride, GlobalClear, Effective, Alike, OverrideClear, DEFAULT;
    SoundAlike(e);
    DefaultIsValid(e);
    DefaultIsClear(e);
    ProfileShows("manual", e);
    ProfileShows("wide", e);
    assert StandsFor(TWO_NAMES, "a", "a", e) && StandsFor(TWO_NAMES, " a", "a", e);
    ClearOrderExactly(TWO_NAMES, "a", e);
  }

  lemma DefaultIsClear(e: Env)
    ensures GlobalClear(TWO_NAMES, e)
  {
    hide DEFAULT_TTL;
  }

  lemma ProfileShows(profile: string, e: Env)
    requires Sound(e) && IsProfile(profile) && profile != "focused"
    ensures var r := ApplyOverride(DEFAULT, NO_OVERRIDE.(profile := Some(profile)), e);
            r.profile == profile && r != DEFAULT
  {
    hide Assembled, DEFAULT_TTL;
    var p := Overlay(DEFAULT, NO_OVERRIDE.(profile := Some(profile)));
    FlagsAreKept(p, e);
    assert p.profile == profile && p.snapshots.ttl.Some?;
    assert Validate(p, e).profile == profile;
  }

  // ------------------------------------------------- there are such surroundings

  function TrimLeft(s: string): string {
    if s != [] && s[0] == ' ' then TrimLeft(s[1..]) else s
  }

  function TrimRight(s: string): string {
    if s != [] && s[|s| - 1] == ' ' then TrimRight(s[..|s| - 1]) else s
  }

  function TrimBlanks(s: string): string {
    TrimRight(TrimLeft(s))
  }

  lemma {:induction false} TrimmedLeft(s: string)
    ensures TrimLeft(s) == [] || TrimLeft(s)[0] != ' '
  {
    if s != [] && s[0] == ' ' { TrimmedLeft(s[1..]); }
  }

  lemma {:induction false} TrimmedRight(s: string)
    ensures TrimRight(s) == [] || (TrimRight(s)[|TrimRight(s)| - 1] != ' ' && TrimRight(s)[0] == s[0])
  {
    if s != [] && s[|s| - 1] == ' ' { TrimmedRight(s[..|s| - 1]); }
  }

  lemma TrimBlanksTwice(s: string)
    ensures TrimBlanks(TrimBlanks(s)) == TrimBlanks(s)
  {
    TrimmedLeft(s);
    TrimmedRight(TrimLeft(s));
  }

  ghost function AnyOrder(keys: set<string>): seq<string>
    decreases |keys|
  {
    if keys == {} then []
    else
      var k :| k in keys;
      [k] + AnyOrder(keys - {k})
  }

  lemma {:induction false} AnyOrderLists(keys: set<string>)
    ensures Lists(AnyOrder(keys), keys)
    decreases |keys|
  {
    if keys != {} {
      var s := AnyOrder(keys);
      AnyOrderLists(keys - {s[0]});
      assert forall j :: 1 <= j < |s| ==> s[j] in s[1..];
    }
  }

  lemma SurroundingsExist()
    ensures exists e :: Plausible(e)
  {
    var e := Env((s: string) => TrimBlanks(s), (s: string) => s == "t", (walk: seq<Place>, keys: set<string>) => AnyOrder(keys));
    forall s ensures e.trim(e.trim(s)) == e.trim(s) { TrimBlanksTwice(s); }
    forall walk, keys ensures Lists(e.order(walk, keys), keys) { AnyOrderLists(keys); }
    assert " a"[1..] == "a" && " t"[1..] == "t";
    assert TrimLeft(" a") == TrimLeft("a") == "a" && TrimLeft(" t") == TrimLeft("t") == "t";
    assert TrimRight("a") == "a" && TrimRight("t") == "t";
    assert Plausible(e);
  }
}

/** The loops of the policy code, over the keys of a map in the order in which they are met. */
module PolicyCode {
  import opened Options
  import opened Policy
  import opened Bundles

  method NormalizeWarmKinds(kinds: seq<string>, fallback: seq<string>) returns (out: seq<string>)
    ensures out == if WarmKinds(kinds) == [] then fallback else WarmKinds(kinds)
  {
    hide ALLOWED_WARM;
    out := [];
    var seen: set<string> := {};
    for i := 0 to |kinds|
      invariant out == WarmKinds(kinds[..i]) && forall k :: k in seen <==> k in out
    {
      var kind := kinds[i];
      assert kinds[..i + 1][..i] == kinds[..i];
      if kind !in ALLOWED_WARM {
        continue;
      }
      if kind in seen {
        continue;
      }
      seen := seen + {kind};
      out := out + [kind];
    }
    assert kinds[..|kinds|] == kinds;
    if |out| == 0 {
      out := fallback;
    }
  }

  /** The table `t` with the entries of some default kinds clamped. */
  ghost predicate Clamped(out: map<string, int>, t: map<string, int>, kinds: set<string>)
    requires kinds <= DEFAULT_TTL.Keys
  {
    && out.Keys == t.Keys + kinds
    && forall k <- out :: out[k] == if k in kinds then Clamp(TtlOr0(t, k), 5, 3600, DEFAULT_TTL[k]) else TtlOr0(t, k)
  }

  lemma ClampOneMore(out: map<string, int>, t: map<string, int>, kinds: set<string>, k: string)
    requires kinds <= DEFAULT_TTL.Keys && k in DEFAULT_TTL && k !in kinds && Clamped(out, t, kinds)
    ensures Clamped(out[k := Clamp(TtlOr0(out, k), 5, 3600, DEFAULT_TTL[k])], t, kinds + {k})
  {
    hide DEFAULT_TTL, Clamp;
  }

  lemma AllClamped(out: map<string, int>, ttl: Option<map<string, int>>)
    requires Clamped(out, if ttl == None then map[] else ttl.value, DEFAULT_TTL.Keys)
    ensures out == ValidTtl(ttl)
  {
    hide DEFAULT_TTL, Clamp;
  }

  ghost function Elements(ks: seq<string>): set<string> {
    set k <- ks
  }

  /** The default entries of the TTL table, clamped one by one. */
  method ValidateTtl(ttl: Option<map<string, int>>, e: Env) returns (out: map<string, int>)
    requires Sound(e)
    ensures out == ValidTtl(ttl)
  {
    hide DEFAULT_TTL, Clamp, Clamped;
    out := if ttl == None then map[] else ttl.value;
    ghost var t := out;
    var ks := e.order([], DEFAULT_TTL.Keys);
    assert Lists(ks, DEFAULT_TTL.Keys);
    NothingClamped(t);
    for i := 0 to |ks|
      invariant Elements(ks[..i]) <= DEFAULT_TTL.Keys && Clamped(out, t, Elements(ks[..i]))
    {
      var k := ks[i];
      assert k in ks && k !in ks[..i];
      assert ks[..i + 1] == ks[..i] + [k] && Elements(ks[..i + 1]) == Elements(ks[..i]) + {k};
      ClampOneMore(out, t, Elements(ks[..i]), k);
      out := out[k := Clamp(TtlOr0(out, k), 5, 3600, DEFAULT_TTL[k])];
    }
    assert ks[..|ks|] == ks && Elements(ks) == DEFAULT_TTL.Keys;
    AllClamped(out, ttl);
  }

  lemma NothingClamped(t: map<string, int>)
    ensures Clamped(t, t, {}) && Elements([]) == {}
  {
    hide DEFAULT_TTL;
  }

  method NormalizeSignalOverrides(m: Overrides, e: Env) returns (out: Overrides)
    requires Sound(e)
    ensures out == Normalized(m, e)
  {
    hide ValidOverride, IsEmpty;
    var ks := e.order([], m.Keys);
    assert Lists(ks, m.Keys);
    out := map[];
    for i := 0 to |ks|
      invariant (forall k <- ks[..i] :: k in m) && out == NormalizedOver(m, ks[..i], e)
    {
      assert ks[i] in ks && ks[..i + 1] == ks[..i] + [ks[i]];
      var signalType := e.trim(ks[i]);
      if signalType == "" || !e.known(signalType) {
        continue;
      }
      var o := ValidOverride(m[ks[i]]);
      if IsEmpty(o) {
        continue;
      }
      out := out[signalType := o];
    }
    assert ks[..|ks|] == ks;
  }

  method NormalizeContextSignalOverrides(m: map<string, Overrides>, e: Env) returns (out: map<string, Overrides>)
    requires Sound(e)
    ensures out == NormalizedContexts(m, e)
  {
    hide Normalized;
    var ks := e.order([], m.Keys);
    assert Lists(ks, m.Keys);
    out := map[];
    for i := 0 to |ks|
      invariant (forall k <- ks[..i] :: k in m) && out == ContextsOver(m, ks[..i], e)
    {
      assert ks[i] in ks && ks[..i + 1] == ks[..i] + [ks[i]];
      SubIsSound(e, InContext(ks[i]));
      var overrides := NormalizeSignalOverrides(m[ks[i]], Sub(e, InContext(ks[i])));
      var context := e.trim(ks[i]);
      if context == "" || |overrides| == 0 {
        assert |overrides| == 0 ==> overrides == map[];
        continue;
      }
      out := out[context := overrides];
    }
    assert ks[..|ks|] == ks;
  }

  method OverlayTtlEntries(ttl: Option<map<string, int>>, o: map<string, Option<int>>, e: Env) returns (out: map<string, int>)
    requires Sound(e)
    ensures out == OverlayTtl(Or(ttl, map[]), o)
  {
    out := Or(ttl, map[]);
    ghost var t := out;
    var ks := e.order([], o.Keys);
    assert Lists(ks, o.Keys);
    for i := 0 to |ks|
      invariant forall k :: k in out <==> if k in ks[..i] then k in o && o[k].Some? else k in t
      invariant forall k <- out :: out[k] == if k in ks[..i] && k in o && o[k].Some? then o[k].value else TtlOr0(t, k)
    {
      var k := ks[i];
      assert k in ks && ks[..i + 1] == ks[..i] + [k];
      if o[k] == None {
        out := out - {k};
        continue;
      }
      out := out[k := o[k].value];
    }
    assert ks[..|ks|] == ks;
  }

  method ValidateContexts(g: Policy, m: map<string, Override>, e: Env) returns (next: map<string, Override>)
    requires Sound(e)
    ensures next == Kept(g, m, e)
  {
    hide ApplyOverride;
    var ks := e.order([], m.Keys);
    assert Lists(ks, m.Keys);
    next := map[];
    for i := 0 to |ks|
      invariant (forall k <- ks[..i] :: k in m) && next == KeptOver(g, m, ks[..i], e)
    {
      assert ks[i] in ks && ks[..i + 1] == ks[..i] + [ks[i]];
      var context := e.trim(ks[i]);
      if context == "" {
        continue;
      }
      var resolved := ApplyOverride(g, m[ks[i]], Sub(e, InPruning(ks[i])));
      if resolved == g {
        continue;
      }
      next := next[context := m[ks[i]]];
    }
    assert ks[..|ks|] == ks;
  }
}

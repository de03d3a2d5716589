/**
 When the order in which Go meets the keys of a map shows in a validated policy: exactly
 when two names of one map that trim alike would leave different entries behind.
*/
module PolicyOrders {
  import opened Options
  import opened Policy

  // ------------------------------------------------------------ steering a walk

  function MoveLast(s: seq<string>, k: string): seq<string> {
    if k in s then Others(s, k) + [k] else s
  }

  function Others(s: seq<string>, k: string): seq<string> {
    if s == [] then []
    else Others(s[..|s| - 1], k) + if s[|s| - 1] == k then [] else [s[|s| - 1]]
  }

  lemma {:induction false} OthersExactly(s: seq<string>, k: string)
    requires forall i, j :: 0 <= i < j < |s| ==> s[i] != s[j]
    ensures forall x :: x in Others(s, k) <==> x in s && x != k
    ensures forall i, j :: 0 <= i < j < |Others(s, k)| ==> Others(s, k)[i] != Others(s, k)[j]
  {
    if s != [] {
      var front, x := s[..|s| - 1], s[|s| - 1];
      OthersExactly(front, k);
      assert s == front + [x] && x !in front;
      assert forall i :: 0 <= i < |Others(front, k)| ==> Others(front, k)[i] in Others(front, k);
    }
  }

  /** The surroundings in which each walk meets a key of our choice last, if it is there. */
  function Steer(e: Env, last: seq<Place> -> string): Env {
    Env(e.trim, e.known, (walk: seq<Place>, keys: set<string>) => MoveLast(e.order(walk, keys), last(walk)))
  }

  lemma SteerIsSound(e: Env, last: seq<Place> -> string)
    requires Sound(e)
    ensures Alike(e, Steer(e, last))
  {
    var f := Steer(e, last);
    forall walk, keys ensures Lists(f.order(walk, keys), keys) {
      var s := e.order(walk, keys);
      assert Lists(s, keys);
      OthersExactly(s, last(walk));
    }
  }

  predicate EndsWith(s: seq<string>, k: string) {
    s != [] && s[|s| - 1] == k
  }

  lemma SteeredEnd(e: Env, last: seq<Place> -> string, walk: seq<Place>, keys: set<string>)
    requires Sound(e) && last(walk) in keys
    ensures EndsWith(Steer(e, last).order(walk, keys), last(walk))
  {
    assert Lists(e.order(walk, keys), keys);
  }

  // -------------------------------------------------------- one map of overrides

  /** The entry leaves something behind. */
  predicate Counts(m: Overrides, k: string, e: Env)
    requires k in m
  {
    e.trim(k) != "" && e.known(e.trim(k)) && !IsEmpty(ValidOverride(m[k]))
  }

  /** Names that trim alike say the same, where they say anything. */
  ghost predicate Unambiguous(m: Overrides, e: Env) {
    forall j <- m, k <- m :: Counts(m, j, e) && Counts(m, k, e) && e.trim(j) == e.trim(k) ==> ValidOverride(m[j]) == ValidOverride(m[k])
  }

  /** Everything that some order could leave behind. */
  ghost function Entries(m: Overrides, e: Env): set<(string, SignalOverride)> {
    set k <- m | Counts(m, k, e) :: (e.trim(k), ValidOverride(m[k]))
  }

  lemma {:induction false} OverExactly(m: Overrides, ks: seq<string>, e: Env, t: string)
    requires forall k <- ks :: k in m
    ensures t in NormalizedOver(m, ks, e) <==> exists k <- ks :: Counts(m, k, e) && e.trim(k) == t
    ensures t in NormalizedOver(m, ks, e) ==> exists k <- ks :: Counts(m, k, e) && e.trim(k) == t && NormalizedOver(m, ks, e)[t] == ValidOverride(m[k])
  {
    hide ValidOverride, IsEmpty;
    if ks != [] {
      var n := |ks| - 1;
      assert ks[n] in ks && forall k <- ks[..n] :: k in ks;
      assert ks == ks[..n] + [ks[n]];
      OverExactly(m, ks[..n], e, t);
    }
  }

  lemma NormalizedExactly(m: Overrides, e: Env, t: string)
    requires Sound(e)
    ensures t in Normalized(m, e) <==> exists k <- m :: Counts(m, k, e) && e.trim(k) == t
    ensures t in Normalized(m, e) ==> exists k <- m :: Counts(m, k, e) && e.trim(k) == t && Normalized(m, e)[t] == ValidOverride(m[k])
  {
    hide Counts, ValidOverride;
    assert Lists(e.order([], m.Keys), m.Keys);
    OverExactly(m, e.order([], m.Keys), e, t);
  }

  /** The entry met last stays. */
  lemma LastStays(m: Overrides, e: Env, k: string)
    requires Sound(e) && k in m && Counts(m, k, e) && EndsWith(e.order([], m.Keys), k)
    ensures e.trim(k) in Normalized(m, e) && Normalized(m, e)[e.trim(k)] == ValidOverride(m[k])
  {
    hide ValidOverride, IsEmpty;
    assert Lists(e.order([], m.Keys), m.Keys);
  }

  /** A map whose names agree normalizes to its entries. */
  lemma NormalizedIsEntries(m: Overrides, e: Env, t: string, o: SignalOverride)
    requires Sound(e) && Unambiguous(m, e)
    ensures t in Normalized(m, e) && Normalized(m, e)[t] == o <==> (t, o) in Entries(m, e)
  {
    hide Counts, ValidOverride, Normalized;
    NormalizedExactly(m, e, t);
  }

  lemma SameEntries(m: Overrides, n: Overrides, e: Env, f: Env)
    requires Alike(e, f) && Unambiguous(m, e) && Unambiguous(n, f)
    ensures Entries(m, e) == Entries(n, f) <==> Normalized(m, e) == Normalized(n, f)
  {
    hide Entries, Unambiguous, Normalized;
    forall t, o ensures t in Normalized(m, e) && Normalized(m, e)[t] == o <==> (t, o) in Entries(m, e) {
      NormalizedIsEntries(m, e, t, o);
    }
    forall t, o ensures t in Normalized(n, f) && Normalized(n, f)[t] == o <==> (t, o) in Entries(n, f) {
      NormalizedIsEntries(n, f, t, o);
    }
    var a, b := Normalized(m, e), Normalized(n, f);
    if Entries(m, e) == Entries(n, f) {
      forall t ensures (t in a <==> t in b) && (t in a ==> a[t] == b[t]) {
        if t in a { assert (t, a[t]) in Entries(m, e); }
        if t in b { assert (t, b[t]) in Entries(n, f); }
      }
      assert a == b;
    }
    if a == b {
      forall x ensures x in Entries(m, e) <==> x in Entries(n, f) {
        assert x == (x.0, x.1);
      }
    }
  }

  lemma EntriesAlike(m: Overrides, e: Env, f: Env)
    requires Alike(e, f)
    ensures Entries(m, e) == Entries(m, f) && (Unambiguous(m, e) <==> Unambiguous(m, f))
  {
    hide ValidOverride, IsEmpty;
    assert forall k <- m :: Counts(m, k, e) == Counts(m, k, f);
  }

  /** Two surroundings that differ in nothing but the last key they meet. */
  lemma AmbiguityShows(m: Overrides, j: string, k: string, e: Env, f: Env)
    requires Alike(e, f) && j in m && k in m && Counts(m, j, e) && Counts(m, k, e)
    requires e.trim(j) == e.trim(k) && ValidOverride(m[j]) != ValidOverride(m[k])
    requires EndsWith(e.order([], m.Keys), j) && EndsWith(f.order([], m.Keys), k)
    ensures Normalized(m, e) != Normalized(m, f)
  {
    hide ValidOverride, IsEmpty, Normalized;
    assert Counts(m, k, f);
    LastStays(m, e, j);
    LastStays(m, f, k);
  }

  /** The order of a walk over signal names shows exactly when two names are ambiguous. */
  lemma SignalOrderExactly(m: Overrides, e: Env)
    requires Sound(e)
    ensures (forall f, g :: Alike(e, f) && Alike(e, g) ==> Normalized(m, f) == Normalized(m, g)) <==> Unambiguous(m, e)
  {
    hide Normalized, Counts, ValidOverride, Entries, Alike, EndsWith;
    if Unambiguous(m, e) {
      forall f, g | Alike(e, f) && Alike(e, g) ensures Normalized(m, f) == Normalized(m, g) {
        ToOthers(e, f, g);
        EntriesAlike(m, e, f);
        EntriesAlike(m, e, g);
        SameEntries(m, m, f, g);
      }
    } else {
      var j, k :| j in m && k in m && Counts(m, j, e) && Counts(m, k, e) && e.trim(j) == e.trim(k) && ValidOverride(m[j]) != ValidOverride(m[k]);
      var f, g := Steer(e, _ => j), Steer(e, _ => k);
      SteerIsSound(e, _ => j);
      SteerIsSound(e, _ => k);
      ToOthers(e, f, g);
      SteeredEnd(e, _ => j, [], m.Keys);
      SteeredEnd(e, _ => k, [], m.Keys);
      CountsAlike(m, e, f);
      AmbiguityShows(m, j, k, f, g);
    }
  }

  lemma ToOthers(e: Env, f: Env, g: Env)
    requires Alike(e, f) && Alike(e, g)
    ensures Alike(f, g) && Sound(e) && Sound(f) && Sound(g)
    ensures f.trim == e.trim == g.trim && f.known == e.known == g.known
  {
  }

  lemma CountsAlike(m: Overrides, e: Env, f: Env)
    requires Alike(e, f)
    ensures forall k <- m :: Counts(m, k, e) == Counts(m, k, f)
  {
  }

  // ------------------------------------------------------- the map of contexts

  predicate Says(m: Overrides, e: Env) {
    exists k <- m :: Counts(m, k, e)
  }

  /** The context leaves something behind. */
  predicate Live(m: map<string, Overrides>, c: string, e: Env)
    requires c in m
  {
    e.trim(c) != "" && Says(m[c], e)
  }

  /** Live contexts are unambiguous, and those whose names trim alike say the same. */
  ghost predicate ContextsUnambiguous(m: map<string, Overrides>, e: Env) {
    && (forall c <- m :: Live(m, c, e) ==> Unambiguous(m[c], e))
    && (forall c <- m, d <- m :: Live(m, c, e) && Live(m, d, e) && e.trim(c) == e.trim(d) ==> Entries(m[c], e) == Entries(m[d], e))
  }

  lemma NormalizedSays(m: Overrides, e: Env)
    requires Sound(e)
    ensures Normalized(m, e) != map[] <==> Says(m, e)
  {
    hide Normalized, Counts;
    if Says(m, e) {
      var k :| k in m && Counts(m, k, e);
      NormalizedExactly(m, e, e.trim(k));
    }
    if t :| t in Normalized(m, e) {
      NormalizedExactly(m, e, t);
    }
  }

  /** What a walk leaves for the context. */
  function Left(m: map<string, Overrides>, c: string, e: Env): Overrides
    requires c in m
  {
    Normalized(m[c], Sub(e, InContext(c)))
  }

  lemma LeftSays(m: map<string, Overrides>, c: string, e: Env)
    requires Sound(e) && c in m
    ensures Left(m, c, e) != map[] <==> Says(m[c], e)
    ensures Live(m, c, e) <==> e.trim(c) != "" && Left(m, c, e) != map[]
  {
    hide Normalized, Sound, Alike;
    SubIsSound(e, InContext(c));
    AlikeIsSound(e, Sub(e, InContext(c)));
    NormalizedSays(m[c], Sub(e, InContext(c)));
    CountsAlike(m[c], e, Sub(e, InContext(c)));
  }

  lemma AlikeIsSound(e: Env, f: Env)
    requires Alike(e, f)
    ensures Sound(e) && Sound(f)
  {
  }

  lemma {:induction false} ContextsOverExactly(m: map<string, Overrides>, ks: seq<string>, e: Env, t: string)
    requires Sound(e) && forall k <- ks :: k in m
    ensures t in ContextsOver(m, ks, e) <==> exists c <- ks :: Live(m, c, e) && e.trim(c) == t
    ensures t in ContextsOver(m, ks, e) ==> exists c <- ks :: Live(m, c, e) && e.trim(c) == t && ContextsOver(m, ks, e)[t] == Left(m, c, e)
  {
    hide Normalized, Live, Sound;
    if ks != [] {
      var n := |ks| - 1;
      assert ks[n] in ks && forall k <- ks[..n] :: k in ks;
      assert ks == ks[..n] + [ks[n]];
      ContextsOverExactly(m, ks[..n], e, t);
      LeftSays(m, ks[n], e);
    }
  }

  lemma ContextsExactly(m: map<string, Overrides>, e: Env, t: string)
    requires Sound(e)
    ensures t in NormalizedContexts(m, e) <==> exists c <- m :: Live(m, c, e) && e.trim(c) == t
    ensures t in NormalizedContexts(m, e) ==> exists c <- m :: Live(m, c, e) && e.trim(c) == t && NormalizedContexts(m, e)[t] == Left(m, c, e)
  {
    hide Live, Left, ContextsOver;
    assert Lists(e.order([], m.Keys), m.Keys);
    ContextsOverExactly(m, e.order([], m.Keys), e, t);
  }

  lemma LastContextStays(m: map<string, Overrides>, e: Env, c: string)
    requires Sound(e) && c in m && Live(m, c, e) && EndsWith(e.order([], m.Keys), c)
    ensures e.trim(c) in NormalizedContexts(m, e) && NormalizedContexts(m, e)[e.trim(c)] == Left(m, c, e)
  {
    hide Normalized, Live;
    assert Lists(e.order([], m.Keys), m.Keys);
    LeftSays(m, c, e);
  }

  lemma LiveAlike(m: map<string, Overrides>, e: Env, f: Env)
    requires Alike(e, f)
    ensures forall c <- m :: Live(m, c, e) == Live(m, c, f)
    ensures ContextsUnambiguous(m, e) <==> ContextsUnambiguous(m, f)
  {
    hide Counts, Entries, Unambiguous;
    forall c <- m ensures Live(m, c, e) == Live(m, c, f) {
      CountsAlike(m[c], e, f);
    }
    forall c <- m ensures Entries(m[c], e) == Entries(m[c], f) && (Unambiguous(m[c], e) <==> Unambiguous(m[c], f)) {
      EntriesAlike(m[c], e, f);
    }
  }

  /** Contexts that say the same leave the same. */
  lemma LeftAlike(m: map<string, Overrides>, c: string, d: string, e: Env, f: Env)
    requires Alike(e, f) && c in m && d in m && Unambiguous(m[c], e) && Unambiguous(m[d], e)
    ensures Left(m, c, e) == Left(m, d, f) <==> Entries(m[c], e) == Entries(m[d], e)
  {
    hide Normalized, Unambiguous, Entries, Alike, Sub;
    var e', f' := Sub(e, InContext(c)), Sub(f, InContext(d));
    SubOfAlike(e, f, c, d);
    EntriesAlike(m[c], e, e');
    EntriesAlike(m[d], e, f');
    SameEntries(m[c], m[d], e', f');
  }

  lemma SubOfAlike(e: Env, f: Env, c: string, d: string)
    requires Alike(e, f)
    ensures Alike(e, Sub(e, InContext(c))) && Alike(e, Sub(f, InContext(d))) && Alike(Sub(e, InContext(c)), Sub(f, InContext(d)))
  {
    SubIsSound(e, InContext(c));
    SubIsSound(f, InContext(d));
  }

  lemma ContextsAgree(m: map<string, Overrides>, e: Env, f: Env)
    requires Alike(e, f) && ContextsUnambiguous(m, e)
    ensures NormalizedContexts(m, e) == NormalizedContexts(m, f)
  {
    hide NormalizedContexts, Live, Left, Unambiguous, Entries, Alike;
    AlikeIsSound(e, f);
    LiveAlike(m, e, f);
    var a, b := NormalizedContexts(m, e), NormalizedContexts(m, f);
    AlikeTrims(e, f);
    forall t ensures (t in a <==> t in b) && (t in a ==> a[t] == b[t]) {
      ContextsExactly(m, e, t);
      ContextsExactly(m, f, t);
      if t in a && t in b {
        var c :| c in m && Live(m, c, e) && e.trim(c) == t && a[t] == Left(m, c, e);
        var d :| d in m && Live(m, d, f) && f.trim(d) == t && b[t] == Left(m, d, f);
        LeftAlike(m, c, d, e, f);
      }
    }
    assert a == b;
  }

  lemma AlikeTrims(e: Env, f: Env)
    requires Alike(e, f)
    ensures e.trim == f.trim
  {
  }

  /** The surroundings meet `c` last among the contexts, and `k` last among the names of `c`. */
  predicate Meets(e: Env, m: map<string, Overrides>, c: string, k: string) {
    && c in m && EndsWith(e.order([], m.Keys), c)
    && (k in m[c] ==> EndsWith(e.order([InContext(c)], m[c].Keys), k))
  }

  /** Where contexts are ambiguous, two pairs of last keys leave different maps. */
  lemma ContextAmbiguity(m: map<string, Overrides>, e: Env) returns (c: string, j: string, d: string, k: string)
    requires Sound(e) && !ContextsUnambiguous(m, e)
    ensures c in m && d in m
    ensures forall f, g :: Alike(e, f) && Alike(e, g) && Meets(f, m, c, j) && Meets(g, m, d, k) ==>
              NormalizedContexts(m, f) != NormalizedContexts(m, g)
  {
    hide NormalizedContexts, Live, Counts, Entries, ValidOverride, Alike, EndsWith, Meets;
    if c' :| c' in m && Live(m, c', e) && !Unambiguous(m[c'], e) {
      c, d := c', c';
      j, k :| j in m[c] && k in m[c] && Counts(m[c], j, e) && Counts(m[c], k, e) && e.trim(j) == e.trim(k)
              && ValidOverride(m[c][j]) != ValidOverride(m[c][k]);
      forall f, g | Alike(e, f) && Alike(e, g) && Meets(f, m, c, j) && Meets(g, m, d, k)
        ensures NormalizedContexts(m, f) != NormalizedContexts(m, g)
      {
        NamesShow(m, c, j, k, e, f, g);
      }
    } else {
      c, d :| c in m && d in m && Live(m, c, e) && Live(m, d, e) && e.trim(c) == e.trim(d) && Entries(m[c], e) != Entries(m[d], e);
      j, k := "", "";
      forall f, g | Alike(e, f) && Alike(e, g) && Meets(f, m, c, j) && Meets(g, m, d, k)
        ensures NormalizedContexts(m, f) != NormalizedContexts(m, g)
      {
        ContextsShow(m, c, d, j, k, e, f, g);
      }
    }
  }

  lemma NamesShow(m: map<string, Overrides>, c: string, j: string, k: string, e: Env, f: Env, g: Env)
    requires Alike(e, f) && Alike(e, g) && Meets(f, m, c, j) && Meets(g, m, c, k) && Live(m, c, e)
    requires j in m[c] && k in m[c] && Counts(m[c], j, e) && Counts(m[c], k, e) && e.trim(j) == e.trim(k)
    requires ValidOverride(m[c][j]) != ValidOverride(m[c][k])
    ensures NormalizedContexts(m, f) != NormalizedContexts(m, g)
  {
    hide NormalizedContexts, Live, Counts, ValidOverride, Normalized, EndsWith, Alike;
    ToOthers(e, f, g);
    LiveAlike(m, e, f);
    LiveAlike(m, e, g);
    LastContextStays(m, f, c);
    LastContextStays(m, g, c);
    var f', g' := Sub(f, InContext(c)), Sub(g, InContext(c));
    SubOfAlike(f, g, c, c);
    SubOrder(f, c, m[c].Keys);
    SubOrder(g, c, m[c].Keys);
    ToOthers(f, e, f');
    CountsAlike(m[c], e, f');
    SubTrims(e, f, f');
    AmbiguityShows(m[c], j, k, f', g');
  }

  lemma SubTrims(e: Env, f: Env, g: Env)
    requires Alike(e, f) && Alike(f, g)
    ensures e.trim == f.trim == g.trim
  {
  }

  lemma SubOrder(e: Env, c: string, keys: set<string>)
    ensures Sub(e, InContext(c)).order([], keys) == e.order([InContext(c)], keys)
  {
    assert [InContext(c)] + [] == [InContext(c)];
  }

  lemma ContextsShow(m: map<string, Overrides>, c: string, d: string, j: string, k: string, e: Env, f: Env, g: Env)
    requires Alike(e, f) && Alike(e, g) && Meets(f, m, c, j) && Meets(g, m, d, k)
    requires d in m && Live(m, c, e) && Live(m, d, e) && e.trim(c) == e.trim(d) && Entries(m[c], e) != Entries(m[d], e)
    requires Unambiguous(m[c], e) && Unambiguous(m[d], e)
    ensures NormalizedContexts(m, f) != NormalizedContexts(m, g)
  {
    hide NormalizedContexts, Live, Entries, Unambiguous, Left, EndsWith, Alike;
    ToOthers(e, f, g);
    LiveAlike(m, e, f);
    LiveAlike(m, e, g);
    EntriesAlike(m[c], e, f);
    EntriesAlike(m[d], e, f);
    LastContextStays(m, f, c);
    LastContextStays(m, g, d);
    LeftAlike(m, c, d, f, g);
  }

  /** The order of the walks over contexts and their names shows exactly when contexts are ambiguous. */
  lemma ContextOrderExactly(m: map<string, Overrides>, e: Env)
    requires Sound(e)
    ensures (forall f, g :: Alike(e, f) && Alike(e, g) ==> NormalizedContexts(m, f) == NormalizedContexts(m, g))
       <==> ContextsUnambiguous(m, e)
  {
    hide NormalizedContexts, ContextsUnambiguous, Alike, Meets;
    if ContextsUnambiguous(m, e) {
      forall f, g | Alike(e, f) && Alike(e, g) ensures NormalizedContexts(m, f) == NormalizedContexts(m, g) {
        ToOthers(e, f, g);
        LiveAlike(m, e, f);
        ContextsAgree(m, f, g);
      }
    } else {
      var c, j, d, k := ContextAmbiguity(m, e);
      var f := Steered(e, [], m, c, j);
      var g := Steered(e, [], m, d, k);
    }
  }

  /** Surroundings that meet the two keys last, where the contexts are walked at `walk`. */
  lemma Steered(e: Env, walk: seq<Place>, m: map<string, Overrides>, c: string, k: string) returns (f: Env)
    requires Sound(e) && c in m
    ensures Alike(e, f)
    ensures EndsWith(f.order(walk, m.Keys), c)
    ensures k in m[c] ==> EndsWith(f.order(walk + [InContext(c)], m[c].Keys), k)
    ensures walk == [] ==> Meets(f, m, c, k)
    ensures walk == [InContexts] ==> Meets(Sub(f, InContexts), m, c, k)
  {
    hide EndsWith, Alike;
    var last := (w: seq<Place>) => if w == walk then c else k;
    f := Steer(e, last);
    SteerIsSound(e, last);
    SteeredEnd(e, last, walk, m.Keys);
    assert walk + [InContext(c)] != walk by {
      assert |walk + [InContext(c)]| != |walk|;
    }
    if k in m[c] {
      SteeredEnd(e, last, walk + [InContext(c)], m[c].Keys);
    }
    assert [] + [InContext(c)] == [InContext(c)];
    assert [InContexts] + [] == [InContexts];
  }

  // ------------------------------------------------------------ a whole policy

  predicate Defaulted(p: Policy) {
    p.profile == "" && p.snapshots.ttl == None
  }

  ghost predicate SignalsClear(s: Signals, e: Env) {
    Unambiguous(s.overrides, e) && ContextsUnambiguous(s.contexts, e)
  }

  /** Everything but the two maps. */
  function Bare(p: Policy): Policy {
    p.(signals := p.signals.(overrides := map[], contexts := map[]))
  }

  /** Orders reach nothing but the two maps of signals. */
  lemma OnlyMapsDiffer(p: Policy, q: Policy, e: Env, f: Env)
    requires Bare(p) == Bare(q)
    ensures Bare(Validate(p, e)) == Bare(Validate(q, f))
    ensures !Defaulted(p) ==>
              && Validate(p, e).signals.overrides == Normalized(p.signals.overrides, Sub(e, InSignals))
              && Validate(p, e).signals.contexts == NormalizedContexts(p.signals.contexts, Sub(e, InContexts))
  {
    hide Normalized, NormalizedContexts, Sub, ValidTtl, ValidObservers, ValidEnrichment, ValidBudget, ValidAllContexts;
    hide ValidDetectors, ClampedMetrics, ClampedDashboard, DEFAULT_TTL, Clamp;
    assert Migrated(p.signals.detectors, ClampedDashboard(p.dashboard), ClampedMetrics(p.metrics), p.signals)
        == Migrated(q.signals.detectors, ClampedDashboard(q.dashboard), ClampedMetrics(q.metrics), q.signals);
  }

  lemma SamePolicy(p: Policy, q: Policy)
    requires Bare(p) == Bare(q)
    ensures p == q <==> p.signals.overrides == q.signals.overrides && p.signals.contexts == q.signals.contexts
  {
  }

  lemma ClearAgrees(p: Policy, e: Env, f: Env)
    requires Alike(e, f) && (Defaulted(p) || SignalsClear(p.signals, e))
    ensures Validate(p, e) == Validate(p, f)
  {
    hide Validate, Bare, Normalized, NormalizedContexts, Unambiguous, ContextsUnambiguous, Alike, Sub;
    if Defaulted(p) {
      DefaultedIsDefault(p, e, f);
    } else {
      OnlyMapsDiffer(p, p, e, f);
      OnlyMapsDiffer(p, p, f, e);
      SamePolicy(Validate(p, e), Validate(p, f));
      var a, b, c, d := Sub(e, InSignals), Sub(f, InSignals), Sub(e, InContexts), Sub(f, InContexts);
      SubsAreAlike(e, f, InSignals);
      SubsAreAlike(e, f, InContexts);
      SelfAlike(e, f);
      SubsAreAlike(e, e, InSignals);
      SubsAreAlike(e, e, InContexts);
      AlikeIsSound(e, a);
      SignalOrderExactly(p.signals.overrides, e);
      ContextOrderExactly(p.signals.contexts, e);
    }
  }

  lemma SelfAlike(e: Env, f: Env)
    requires Alike(e, f)
    ensures Alike(e, e) && Alike(f, f) && Alike(f, e)
  {
  }

  lemma DefaultedIsDefault(p: Policy, e: Env, f: Env)
    requires Defaulted(p)
    ensures Validate(p, e) == DEFAULT == Validate(p, f)
  {
  }

  lemma UnclearNames(m: Overrides, e: Env) returns (f: Env, g: Env)
    requires Sound(e) && !Unambiguous(m, e)
    ensures Alike(e, f) && Alike(e, g) && Normalized(m, Sub(f, InSignals)) != Normalized(m, Sub(g, InSignals))
  {
    hide Normalized, Alike, Counts, ValidOverride, EndsWith;
    var j, k :| j in m && k in m && Counts(m, j, e) && Counts(m, k, e) && e.trim(j) == e.trim(k) && ValidOverride(m[j]) != ValidOverride(m[k]);
    f, g := Steer(e, _ => j), Steer(e, _ => k);
    SteerIsSound(e, _ => j);
    SteerIsSound(e, _ => k);
    SteeredEnd(e, _ => j, [InSignals], m.Keys);
    SteeredEnd(e, _ => k, [InSignals], m.Keys);
    assert [InSignals] + [] == [InSignals];
    var a, b := Sub(f, InSignals), Sub(g, InSignals);
    SubsOfThree(e, f, g, InSignals);
    CountsAlike(m, e, a);
    AlikeTrims(e, a);
    AmbiguityShows(m, j, k, a, b);
  }

  lemma SubsOfThree(e: Env, f: Env, g: Env, place: Place)
    requires Alike(e, f) && Alike(e, g)
    ensures Alike(e, Sub(f, place)) && Alike(e, Sub(g, place)) && Alike(Sub(f, place), Sub(g, place))
  {
    SubIsSound(f, place);
    SubIsSound(g, place);
  }

  lemma UnclearContexts(m: map<string, Overrides>, e: Env) returns (f: Env, g: Env)
    requires Sound(e) && !ContextsUnambiguous(m, e)
    ensures Alike(e, f) && Alike(e, g) && NormalizedContexts(m, Sub(f, InContexts)) != NormalizedContexts(m, Sub(g, InContexts))
  {
    hide NormalizedContexts, Alike, ContextsUnambiguous, Meets;
    var c, j, d, k := ContextAmbiguity(m, e);
    f := Steered(e, [InContexts], m, c, j);
    g := Steered(e, [InContexts], m, d, k);
    SubsOfThree(e, f, g, InContexts);
  }

  /** Two surroundings in which a policy with unclear signals is validated differently. */
  lemma UnclearShows(p: Policy, e: Env) returns (f: Env, g: Env)
    requires Sound(e) && !SignalsClear(p.signals, e) && !Defaulted(p)
    ensures Alike(e, f) && Alike(e, g) && Validate(p, f) != Validate(p, g)
  {
    hide Normalized, NormalizedContexts, Unambiguous, ContextsUnambiguous, Alike, Validate, Bare, Sub;
    if !Unambiguous(p.signals.overrides, e) {
      f, g := UnclearNames(p.signals.overrides, e);
    } else {
      f, g := UnclearContexts(p.signals.contexts, e);
    }
    OnlyMapsDiffer(p, p, f, g);
    OnlyMapsDiffer(p, p, g, f);
  }

  /** A policy is validated to the same whatever the orders, exactly when its signal maps are clear or it is replaced by the default. */
  lemma ValidateOrderExactly(p: Policy, e: Env)
    requires Sound(e)
    ensures (forall f, g :: Alike(e, f) && Alike(e, g) ==> Validate(p, f) == Validate(p, g))
       <==> Defaulted(p) || SignalsClear(p.signals, e)
  {
    hide Validate, SignalsClear, Alike, Sub, Normalized, NormalizedContexts, Bare, Defaulted;
    if Defaulted(p) || SignalsClear(p.signals, e) {
      forall f, g | Alike(e, f) && Alike(e, g) ensures Validate(p, f) == Validate(p, g) {
        ToOthers(e, f, g);
        ClearAlike(p.signals, e, f);
        ClearAgrees(p, f, g);
      }
    } else {
      var f, g := UnclearShows(p, e);
    }
  }

  lemma ClearAlike(s: Signals, e: Env, f: Env)
    requires Alike(e, f)
    ensures SignalsClear(s, e) <==> SignalsClear(s, f)
  {
    hide Unambiguous, ContextsUnambiguous;
    EntriesAlike(s.overrides, e, f);
    LiveAlike(s.contexts, e, f);
  }

  // --------------------------------------------------- walks that are the same

  /** All walks meet their keys in the same order. */
  ghost predicate SameWalks(e: Env, f: Env) {
    e.trim == f.trim && e.known == f.known && forall walk, keys :: e.order(walk, keys) == f.order(walk, keys)
  }

  lemma {:induction false} SameOver(m: Overrides, ks: seq<string>, e: Env, f: Env)
    requires e.trim == f.trim && e.known == f.known && forall k <- ks :: k in m
    ensures NormalizedOver(m, ks, e) == NormalizedOver(m, ks, f)
  {
    hide ValidOverride, IsEmpty;
    if ks != [] {
      assert ks[|ks| - 1] in ks && forall k <- ks[..|ks| - 1] :: k in ks;
      SameOver(m, ks[..|ks| - 1], e, f);
    }
  }

  lemma SameNormalized(m: Overrides, e: Env, f: Env)
    requires SameWalks(e, f)
    ensures Normalized(m, e) == Normalized(m, f)
  {
    hide NormalizedOver;
    if forall k <- e.order([], m.Keys) :: k in m {
      SameOver(m, e.order([], m.Keys), e, f);
    }
  }

  lemma SameSub(e: Env, f: Env, place: Place)
    requires SameWalks(e, f)
    ensures SameWalks(Sub(e, place), Sub(f, place))
  {
  }

  lemma {:induction false} SameContextsOver(m: map<string, Overrides>, ks: seq<string>, e: Env, f: Env)
    requires SameWalks(e, f) && forall k <- ks :: k in m
    ensures ContextsOver(m, ks, e) == ContextsOver(m, ks, f)
  {
    hide Normalized;
    if ks != [] {
      var n := |ks| - 1;
      assert ks[n] in ks && forall k <- ks[..n] :: k in ks;
      SameContextsOver(m, ks[..n], e, f);
      SameSub(e, f, InContext(ks[n]));
      SameNormalized(m[ks[n]], Sub(e, InContext(ks[n])), Sub(f, InContext(ks[n])));
    }
  }

  lemma SameValidate(p: Policy, e: Env, f: Env)
    requires SameWalks(e, f)
    ensures Validate(p, e) == Validate(p, f)
  {
    hide Validate, Bare, Normalized, ContextsOver, SameWalks;
    OnlyMapsDiffer(p, p, e, f);
    OnlyMapsDiffer(p, p, f, e);
    SamePolicy(Validate(p, e), Validate(p, f));
    if Defaulted(p) {
      DefaultedIsDefault(p, e, f);
    } else {
      SameSub(e, f, InSignals);
      SameSub(e, f, InContexts);
      SameNormalized(p.signals.overrides, Sub(e, InSignals), Sub(f, InSignals));
      SameContexts(p.signals.contexts, Sub(e, InContexts), Sub(f, InContexts));
    }
  }

  lemma SameContexts(m: map<string, Overrides>, e: Env, f: Env)
    requires SameWalks(e, f)
    ensures NormalizedContexts(m, e) == NormalizedContexts(m, f)
  {
    hide ContextsOver;
    if forall k <- e.order([], m.Keys) :: k in m {
      SameContextsOver(m, e.order([], m.Keys), e, f);
    }
  }
}

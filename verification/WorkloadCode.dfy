/**
 The compiler of a request to a JSON Patch, as its loops run: which requests it refuses and
 why, and what the patch it builds does.
*/
module WorkloadCode {
  import opened Options
  import opened Json
  import opened WorkloadPatch
  import opened WorkloadEffects

  ghost function MatchedBelow(cs: seq<Json>, n: nat, p: Params): set<nat>
    requires n <= |cs|
  {
    set i: nat | i < n && Matched(cs[i], p)
  }

  lemma OneMoreBelow(cs: seq<Json>, n: nat, p: Params)
    requires n < |cs|
    ensures MatchedBelow(cs, n + 1, p) == MatchedBelow(cs, n, p) + if Matched(cs[n], p) then {n} else {}
    ensures |MatchedBelow(cs, n + 1, p)| == |MatchedBelow(cs, n, p)| + if Matched(cs[n], p) then 1 else 0
    ensures Compile(cs[..n + 1], p) == Compile(cs[..n], p) + ContainerOps(cs[n], n, p)
    ensures !Matched(cs[n], p) ==> ContainerOps(cs[n], n, p) == []
  {
    hide Matched;
    assert cs[..n + 1][..n] == cs[..n];
  }

  lemma SomeMatched(cs: seq<Json>, p: Params)
    ensures |MatchedBelow(cs, |cs|, p)| == 0 <==> forall c <- cs :: !Matched(c, p)
  {
    hide Matched;
    var below := MatchedBelow(cs, |cs|, p);
    if |below| == 0 {
      assert below == {};
      forall c <- cs ensures !Matched(c, p) {
        var i :| 0 <= i < |cs| && cs[i] == c;
        assert i !in below;
      }
    }
    if forall c <- cs :: !Matched(c, p) {
      assert below == {};
    }
  }

  /** Whether a matched container can be patched at all. */
  predicate Patchable(p: Params) {
    p.target == "env" || (p.target == "image" && p.op == "set")
  }

  /** Whether the document lists containers at all. */
  ghost predicate Listed(doc: Json) {
    exists cs :: Lists(doc, cs)
  }

  /** An env request names a variable, a set has a value, and the pattern compiles. */
  predicate NamesKey(p: Params) {
    p.target == "env" ==> p.key != ""
  }

  predicate HasValue(p: Params) {
    p.op == "set" ==> p.value != ""
  }

  ghost predicate SomeChosen(doc: Json, p: Params) {
    exists cs :: Lists(doc, cs) && exists c <- cs :: Chosen(c, p)
  }

  method BuildPatch(doc: Json, p: Params) returns (r: Built)
    ensures r == Rejected(NoContainers) <==> !Listed(doc)
    ensures r == Rejected(KeyRequired) <==> Listed(doc) && !NamesKey(p)
    ensures r == Rejected(ValueRequired) <==> Listed(doc) && NamesKey(p) && !HasValue(p)
    ensures r == Rejected(InvalidPattern) <==> Listed(doc) && NamesKey(p) && HasValue(p) && p.pattern == Invalid
    ensures r == Rejected(ImageOnlySets) <==>
              && NamesKey(p) && HasValue(p) && p.pattern != Invalid
              && p.target == "image" && p.op != "set" && SomeChosen(doc, p)
    ensures r == Rejected(UnsupportedTarget) <==>
              && NamesKey(p) && HasValue(p) && p.pattern != Invalid
              && p.target != "image" && p.target != "env" && SomeChosen(doc, p)
    ensures r.Patch? ==> exists cs ::
              && Lists(doc, cs)
              && r.matched == |ChosenBelow(cs, |cs|, p)|
              && if r.matched == 0 then r.ops == [] else Carries(doc, cs, p, Apply(doc, r.ops))
  {
    hide Matched, Containers, Edit, Apply, Base, Nested, Compile, ContainerOps, MatchedBelow, Lists, Chosen, Carries;
    forall cs ensures Lists(doc, cs) <==> Containers(doc) == Some(cs) {
      ListsIsContainers(doc, cs);
    }
    if Containers(doc) == None {
      return Rejected(NoContainers);
    }
    var containers := Containers(doc).value;
    assert Lists(doc, containers);
    if p.target == "env" && p.key == "" {
      return Rejected(KeyRequired);
    }
    if p.op == "set" && p.value == "" {
      return Rejected(ValueRequired);
    }
    if p.pattern == Invalid {
      return Rejected(InvalidPattern);
    }
    r := CompileAll(containers, p);
    MatchedAreChosen(containers, p);
    SomeMatched(containers, p);
    if r.Patch? && r.matched > 0 {
      PatchIsEdit(doc, p);
      EditCarries(doc, p);
    }
  }

  lemma MatchedAreChosen(cs: seq<Json>, p: Params)
    requires p.pattern != Invalid
    ensures MatchedBelow(cs, |cs|, p) == ChosenBelow(cs, |cs|, p)
    ensures (exists c <- cs :: Chosen(c, p)) <==> exists c <- cs :: Matched(c, p)
  {
    hide Matched, Chosen;
    forall c | c in cs ensures Chosen(c, p) <==> Matched(c, p) {
      ChosenIsMatched(c, p);
    }
  }

  /** The loop over the containers. */
  method CompileAll(containers: seq<Json>, p: Params) returns (r: Built)
    ensures r.Rejected? ==>
              && !Patchable(p) && (exists c <- containers :: Matched(c, p))
              && r.reason == if p.target == "image" then ImageOnlySets else UnsupportedTarget
    ensures r.Patch? ==>
              && r.ops == Compile(containers, p)
              && r.matched == |MatchedBelow(containers, |containers|, p)|
              && (r.matched > 0 ==> Patchable(p)) && (r.matched == 0 ==> r.ops == [])
  {
    hide Matched, Base, Compile, ContainerOps, MatchedBelow;
    var ops: seq<Operation> := [];
    var matched: nat := 0;
    NoneBelow(containers, p);
    for i := 0 to |containers|
      invariant matched == |MatchedBelow(containers, i, p)|
      invariant matched > 0 ==> Patchable(p)
      invariant ops == Compile(containers[..i], p)
      invariant matched == 0 ==> ops == []
    {
      var container := containers[i];
      OneMoreBelow(containers, i, p);
      if !Matched(container, p) {
        continue;
      }
      assert container in containers;
      matched := matched + 1;
      var base := Base(i);
      if p.target == "image" {
        if p.op != "set" {
          return Rejected(ImageOnlySets);
        }
        ImageCompiles(container, i, p);
        ops := ops + [Replace(base + "/image", Str(p.value))];
      } else if p.target == "env" {
        var more := EnvOps(container, i, base, p);
        ops := ops + more;
      } else {
        return Rejected(UnsupportedTarget);
      }
    }
    assert containers[..|containers|] == containers;
    return Patch(ops, matched);
  }

  lemma NoneBelow(cs: seq<Json>, p: Params)
    ensures MatchedBelow(cs, 0, p) == {} && Compile(cs[..0], p) == []
  {
  }

  lemma ImageCompiles(c: Json, i: nat, p: Params)
    requires Matched(c, p) && p.target == "image"
    ensures ContainerOps(c, i, p) == [Replace(Base(i) + "/image", Str(p.value))]
  {
  }

  /** The case "env" of the loop body. */
  method EnvOps(container: Json, i: nat, base: string, p: Params) returns (ops: seq<Operation>)
    requires Matched(container, p) && p.target == "env" && base == Base(i)
    ensures ops == ContainerOps(container, i, p)
  {
    var hasEnv := HasEnv(container);
    var envRaw := Env(container);
    var envIndex := -1;
    var hasValueFrom := false;
    for idx := 0 to |envRaw|
      invariant envIndex == -1 && !hasValueFrom && forall j :: 0 <= j < idx ==> !Named(envRaw[j], p.key)
    {
      var entry := envRaw[idx];
      if !entry.Obj? {
        continue;
      }
      if "name" in entry.members && entry.members["name"] == Str(p.key) {
        EnvIndexIs(envRaw, p.key, idx);
        envIndex := idx;
        hasValueFrom := "valueFrom" in entry.members;
        break;
      }
    }
    ops := [];
    if p.op == "unset" {
      if envIndex >= 0 {
        ops := ops + [Remove(base + "/env/" + Digits(envIndex))];
      }
      return;
    }
    if !hasEnv {
      ops := ops + [Add(base + "/env", Arr([]))];
    }
    if envIndex >= 0 {
      if hasValueFrom {
        ops := ops + [Remove(base + "/env/" + Digits(envIndex) + "/valueFrom")];
      }
      ops := ops + [Add(base + "/env/" + Digits(envIndex) + "/value", Str(p.value))];
    } else {
      ops := ops + [Add(base + "/env/-", NewEntry(p.key, p.value))];
    }
  }
}

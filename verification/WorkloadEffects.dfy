/**
 What a built patch does to the workload, in the terms of the request alone: which
 containers it changes, what each of them looks like afterwards, and when it fails.
*/
module WorkloadEffects {
  import opened Options
  import opened Json
  import opened WorkloadPatch

  predicate Holds(doc: Json, name: string, inner: Json) {
    doc.Obj? && name in doc.members && doc.members[name] == inner
  }

  /** `cs` is the list at spec.template.spec.containers. */
  ghost predicate Lists(doc: Json, cs: seq<Json>) {
    exists a, b, c ::
      Holds(doc, "spec", a) && Holds(a, "template", b) && Holds(b, "spec", c) && Holds(c, "containers", Arr(cs))
  }

  /** An object that may differ only in one member, which is now `v`. */
  predicate Becomes(doc: Json, name: string, v: Json, doc': Json) {
    doc.Obj? && doc' == Obj(doc.members[name := v])
  }

  /** The document with another list of containers, and nothing else changed. */
  ghost predicate Relists(doc: Json, cs': seq<Json>, doc': Json) {
    exists a, b, c, a', b', c' ::
      && Holds(doc, "spec", a) && Holds(a, "template", b) && Holds(b, "spec", c)
      && Becomes(doc, "spec", a', doc') && Becomes(a, "template", b', a') && Becomes(b, "spec", c', b')
      && Becomes(c, "containers", Arr(cs'), c')
  }

  /** The pattern accepts the container's name; a name that is missing or no string counts as empty. */
  predicate Accepts(pattern: Pattern, c: Json) {
    pattern.Matching? ==>
      pattern.matches(if c.Obj? && "name" in c.members && c.members["name"].Str? then c.members["name"].s else "")
  }

  predicate Chosen(c: Json, p: Params) {
    c.Obj? && Accepts(p.pattern, c)
  }

  predicate Lacks(c: Json, name: string) {
    c.Obj? && name !in c.members
  }

  predicate IsFirst(envs: seq<Json>, key: string, k: int) {
    && 0 <= k < |envs| && Holds(envs[k], "name", Str(key))
    && forall j :: 0 <= j < k ==> !Holds(envs[j], "name", Str(key))
  }

  predicate NotThere(envs: seq<Json>, key: string) {
    forall j :: 0 <= j < |envs| ==> !Holds(envs[j], "name", Str(key))
  }

  /** `envs` are the entries of the container; a missing list, or something else in its place, counts as empty. */
  predicate HasEntries(c: Json, envs: seq<Json>) {
    if c.Obj? && "env" in c.members && c.members["env"].Arr? then envs == c.members["env"].items else envs == []
  }

  /** The first entry of the name gets the value and loses its reference; without one a new entry comes last. */
  ghost predicate EntrySet(envs: seq<Json>, key: string, value: string, envs': seq<Json>) {
    if NotThere(envs, key) then
      envs' == envs + [Obj(map["name" := Str(key), "value" := Str(value)])]
    else
      exists k :: IsFirst(envs, key, k) && envs[k].Obj?
        && envs' == envs[..k] + [Obj((envs[k].members - {"valueFrom"})["value" := Str(value)])] + envs[k + 1..]
  }

  /** The first entry of the name goes. */
  ghost predicate EntryGone(envs: seq<Json>, key: string, envs': seq<Json>) {
    exists k :: IsFirst(envs, key, k) && envs' == envs[..k] + envs[k + 1..]
  }

  /** What the request asks of a chosen container. */
  ghost predicate Changed(c: Json, p: Params, c': Json) {
    if p.target == "image" then
      c.Obj? && "image" in c.members && Becomes(c, "image", Str(p.value), c')
    else
      exists envs, envs' ::
        && HasEntries(c, envs)
        && if p.op == "unset" then
             if NotThere(envs, p.key) then c' == c else EntryGone(envs, p.key, envs') && Becomes(c, "env", Arr(envs'), c')
           else
             EntrySet(envs, p.key, p.value, envs') && Becomes(c, "env", Arr(envs'), c')
  }

  ghost function ChosenBelow(cs: seq<Json>, n: nat, p: Params): set<nat>
    requires n <= |cs|
  {
    set i: nat | i < n && Chosen(cs[i], p)
  }

  /** Only chosen containers change, each as asked. */
  ghost predicate ListChanged(cs: seq<Json>, p: Params, cs': seq<Json>) {
    && |cs'| == |cs|
    && forall i :: 0 <= i < |cs| ==> if Chosen(cs[i], p) then Changed(cs[i], p, cs'[i]) else cs'[i] == cs[i]
  }

  /** The whole effect of a patch on a document whose containers are `cs`. */
  ghost predicate Carries(doc: Json, cs: seq<Json>, p: Params, result: Option<Json>) {
    match result
    case None => p.target == "image" && exists c <- cs :: Chosen(c, p) && Lacks(c, "image")
    case Some(doc') =>
      && !(p.target == "image" && exists c <- cs :: Chosen(c, p) && Lacks(c, "image"))
      && exists cs' :: Relists(doc, cs', doc') && ListChanged(cs, p, cs')
  }

  // -------------------------------------------- the direct edit does just that

  lemma {:induction false} NestedStep(doc: Json, path: seq<string>)
    requires path != []
    ensures Nested(doc, path) == if doc.Obj? && path[0] in doc.members then Nested(doc.members[path[0]], path[1..]) else None
    ensures forall v :: Nested(doc, path).Some? ==>
              WithNested(doc, path, v) == Obj(doc.members[path[0] := WithNested(doc.members[path[0]], path[1..], v)])
  {
  }

  lemma PodSteps()
    ensures POD[1..] == ["template", "spec", "containers"] && POD[1..][1..] == ["spec", "containers"]
    ensures POD[1..][1..][1..] == ["containers"] && POD[1..][1..][1..][1..] == []
  {
  }

  lemma ListsIsContainers(doc: Json, cs: seq<Json>)
    ensures Lists(doc, cs) <==> Containers(doc) == Some(cs)
  {
    PodSteps();
    NestedStep(doc, POD);
    if doc.Obj? && "spec" in doc.members {
      var a := doc.members["spec"];
      NestedStep(a, POD[1..]);
      if a.Obj? && "template" in a.members {
        var b := a.members["template"];
        NestedStep(b, POD[1..][1..]);
        if b.Obj? && "spec" in b.members {
          var c := b.members["spec"];
          NestedStep(c, POD[1..][1..][1..]);
          if Containers(doc) == Some(cs) {
            assert Holds(doc, "spec", a) && Holds(a, "template", b) && Holds(b, "spec", c) && Holds(c, "containers", Arr(cs));
          }
        }
      }
    }
  }

  lemma WithContainersRelists(doc: Json, cs': seq<Json>)
    requires Containers(doc).Some?
    ensures Relists(doc, cs', WithContainers(doc, cs'))
  {
    PodSteps();
    var v := Arr(cs');
    NestedStep(doc, POD);
    var a := doc.members["spec"];
    NestedStep(a, POD[1..]);
    var b := a.members["template"];
    NestedStep(b, POD[1..][1..]);
    var c := b.members["spec"];
    NestedStep(c, POD[1..][1..][1..]);
    var c' := WithNested(c, POD[1..][1..][1..], v);
    var b' := WithNested(b, POD[1..][1..], v);
    var a' := WithNested(a, POD[1..], v);
    assert Becomes(c, "containers", v, c') && Becomes(b, "spec", c', b') && Becomes(a, "template", b', a');
    assert Becomes(doc, "spec", a', WithContainers(doc, cs'));
  }

  lemma ChosenIsMatched(c: Json, p: Params)
    requires p.pattern != Invalid
    ensures Chosen(c, p) <==> Matched(c, p)
  {
  }

  lemma EntrySetBySetEnv(envs: seq<Json>, key: string, value: string)
    ensures EntrySet(envs, key, value, SetEnv(envs, key, value))
  {
    var k := EnvIndex(envs, key);
    if k >= 0 {
      assert IsFirst(envs, key, k);
      var e := Obj((envs[k].members - {"valueFrom"})["value" := Str(value)]);
      assert envs[k := e] == envs[..k] + [e] + envs[k + 1..];
    }
  }

  lemma EntryGoneByUnsetEnv(envs: seq<Json>, key: string)
    ensures NotThere(envs, key) <==> EnvIndex(envs, key) < 0
    ensures !NotThere(envs, key) ==> EntryGone(envs, key, UnsetEnv(envs, key))
  {
    var k := EnvIndex(envs, key);
    if k >= 0 {
      assert IsFirst(envs, key, k);
    }
  }

  lemma EditChanges(c: Json, p: Params)
    requires p.pattern != Invalid
    ensures EditContainer(c, p) == None <==> p.target == "image" && Chosen(c, p) && Lacks(c, "image")
    ensures EditContainer(c, p).Some? ==>
              if Chosen(c, p) then Changed(c, p, EditContainer(c, p).value) else EditContainer(c, p).value == c
  {
    hide EntrySet, EntryGone, NotThere, SetEnv, UnsetEnv, EnvIndex, Accepts;
    ChosenIsMatched(c, p);
    if Chosen(c, p) && p.target != "image" {
      var envs := Env(c);
      assert HasEntries(c, envs);
      EntrySetBySetEnv(envs, p.key, p.value);
      EntryGoneByUnsetEnv(envs, p.key);
      var envs' := if p.op == "unset" then UnsetEnv(envs, p.key) else SetEnv(envs, p.key, p.value);
      assert Changed(c, p, EditContainer(c, p).value) by {
        assert HasEntries(c, envs) && (p.op == "unset" || EntrySet(envs, p.key, p.value, envs'));
      }
    }
  }

  /** The direct edit, and so the compiled patch, has exactly the effect that the request asks for. */
  lemma EditCarries(doc: Json, p: Params)
    requires Containers(doc).Some? && p.pattern != Invalid
    ensures Carries(doc, Containers(doc).value, p, Edit(doc, p))
  {
    hide Containers, WithContainers, EditContainer, Relists, Changed, Chosen;
    var cs := Containers(doc).value;
    EditAllLength(cs, p);
    forall i | 0 <= i < |cs|
      ensures EditContainer(cs[i], p) == None <==> p.target == "image" && Chosen(cs[i], p) && Lacks(cs[i], "image")
      ensures EditContainer(cs[i], p).Some? ==>
                if Chosen(cs[i], p) then Changed(cs[i], p, EditContainer(cs[i], p).value) else EditContainer(cs[i], p).value == cs[i]
    {
      EditChanges(cs[i], p);
    }
    if EditAll(cs, p).Some? {
      var cs' := EditAll(cs, p).value;
      WithContainersRelists(doc, cs');
      assert ListChanged(cs, p, cs');
    }
  }
}

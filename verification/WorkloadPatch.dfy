/**
 The compiler from "set or unset an environment variable, or set the image, of the matching
 containers" to a JSON Patch. The direct edit of the document is the reference: applying
 the compiled operations gives what the direct edit gives, or both fail.
*/
module WorkloadPatch {
  import opened Options
  import opened Json

  /** regexp.Compile of the container pattern; an empty pattern matches everything. */
  datatype Pattern = Everything | Invalid | Matching(matches: string -> bool)

  /** The parameters, already trimmed. Every `op` other than "unset" sets an env entry. */
  datatype Params = Params(op: string, target: string, key: string, value: string, pattern: Pattern)

  datatype Reason = NoContainers | KeyRequired | ValueRequired | InvalidPattern | ImageOnlySets | UnsupportedTarget

  datatype Built = Patch(ops: seq<Operation>, matched: nat) | Rejected(reason: Reason)

  // ------------------------------------------------------------ nested members

  function Nested(doc: Json, path: seq<string>): Option<Json> {
    if path == [] then Some(doc)
    else if doc.Obj? && path[0] in doc.members then Nested(doc.members[path[0]], path[1..])
    else None
  }

  function WithNested(doc: Json, path: seq<string>, v: Json): Json
    requires Nested(doc, path).Some?
  {
    if path == [] then v
    else Obj(doc.members[path[0] := WithNested(doc.members[path[0]], path[1..], v)])
  }

  lemma {:induction false} NestedLaws(doc: Json, path: seq<string>, v: Json, w: Json)
    requires Nested(doc, path).Some?
    ensures Nested(WithNested(doc, path, v), path) == Some(v)
    ensures WithNested(WithNested(doc, path, v), path, w) == WithNested(doc, path, w)
    ensures WithNested(doc, path, Nested(doc, path).value) == doc
  {
    if path != [] {
      var inner := doc.members[path[0]];
      NestedLaws(inner, path[1..], v, w);
      assert doc.members[path[0] := inner] == doc.members;
      assert doc.members[path[0] := WithNested(inner, path[1..], v)][path[0] := WithNested(inner, path[1..], w)]
          == doc.members[path[0] := WithNested(inner, path[1..], w)];
    }
  }

  /** An operation below a nested member is the operation on that member. */
  lemma {:induction false} ApplyBelow(doc: Json, path: seq<string>, rest: seq<string>, op: Operation)
    requires Nested(doc, path).Some? && rest != []
    ensures ApplyAt(doc, path + rest, op)
         == match ApplyAt(Nested(doc, path).value, rest, op)
            case None => None
            case Some(v) => Some(WithNested(doc, path, v))
  {
    if path == [] {
      assert path + rest == rest;
    } else {
      hide ApplyHere;
      ApplyBelow(doc.members[path[0]], path[1..], rest, op);
      assert (path + rest)[1..] == path[1..] + rest;
    }
  }

  const POD := ["spec", "template", "spec", "containers"]

  /** The pod template's containers; the source reports their absence as an error. */
  function Containers(doc: Json): Option<seq<Json>> {
    match Nested(doc, POD)
    case Some(Arr(cs)) => Some(cs)
    case _ => None
  }

  function WithContainers(doc: Json, cs: seq<Json>): Json
    requires Containers(doc).Some?
  {
    WithNested(doc, POD, Arr(cs))
  }

  lemma ContainersLaws(doc: Json, cs: seq<Json>, ds: seq<Json>)
    requires Containers(doc).Some?
    ensures Containers(WithContainers(doc, cs)) == Some(cs)
    ensures WithContainers(WithContainers(doc, cs), ds) == WithContainers(doc, ds)
    ensures WithContainers(doc, Containers(doc).value) == doc
  {
    NestedLaws(doc, POD, Arr(cs), Arr(ds));
  }

  // ------------------------------------------------------------ the direct edit

  function NameOf(c: Json): string {
    if c.Obj? && "name" in c.members && c.members["name"].Str? then c.members["name"].s else ""
  }

  predicate Matched(c: Json, p: Params) {
    c.Obj? && match p.pattern
              case Matching(f) => f(NameOf(c))
              case _ => true
  }

  predicate Named(e: Json, key: string) {
    e.Obj? && "name" in e.members && e.members["name"] == Str(key)
  }

  /** The entries of `env`; anything but an array counts as none. */
  function Env(c: Json): seq<Json>
    requires c.Obj?
  {
    if "env" in c.members && c.members["env"].Arr? then c.members["env"].items else []
  }

  predicate HasEnv(c: Json)
    requires c.Obj?
  {
    "env" in c.members && c.members["env"].Arr?
  }

  /** The first entry with that name, or -1. */
  function EnvIndex(envs: seq<Json>, key: string): (i: int)
    ensures -1 <= i < |envs|
    ensures i >= 0 ==> Named(envs[i], key)
    ensures forall j :: 0 <= j < (if i < 0 then |envs| else i) ==> !Named(envs[j], key)
  {
    if envs == [] then -1
    else
      var n := |envs| - 1;
      var i := EnvIndex(envs[..n], key);
      if i >= 0 then i else if Named(envs[n], key) then n else -1
  }

  function SetEntry(e: Json, value: string): Json
    requires e.Obj?
  {
    Obj((e.members - {"valueFrom"})["value" := Str(value)])
  }

  function NewEntry(key: string, value: string): Json {
    Obj(map["name" := Str(key), "value" := Str(value)])
  }

  function SetEnv(envs: seq<Json>, key: string, value: string): seq<Json> {
    var i := EnvIndex(envs, key);
    if i >= 0 then envs[i := SetEntry(envs[i], value)] else envs + [NewEntry(key, value)]
  }

  function UnsetEnv(envs: seq<Json>, key: string): seq<Json> {
    var i := EnvIndex(envs, key);
    if i >= 0 then envs[..i] + envs[i + 1..] else envs
  }

  /** One container edited in place; an image can be set only where there is one. */
  function EditContainer(c: Json, p: Params): Option<Json> {
    if !Matched(c, p) then Some(c)
    else if p.target == "image" then
      if "image" in c.members then Some(Obj(c.members["image" := Str(p.value)])) else None
    else if p.op == "unset" then
      if EnvIndex(Env(c), p.key) >= 0 then Some(Obj(c.members["env" := Arr(UnsetEnv(Env(c), p.key))])) else Some(c)
    else
      Some(Obj(c.members["env" := Arr(SetEnv(Env(c), p.key, p.value))]))
  }

  function EditAll(cs: seq<Json>, p: Params): Option<seq<Json>> {
    if cs == [] then Some([])
    else
      var n := |cs| - 1;
      var front, last := EditAll(cs[..n], p), EditContainer(cs[n], p);
      if front == None || last == None then None else Some(front.value + [last.value])
  }

  function Edit(doc: Json, p: Params): Option<Json>
    requires Containers(doc).Some?
  {
    match EditAll(Containers(doc).value, p)
    case None => None
    case Some(cs) => Some(WithContainers(doc, cs))
  }

  // ------------------------------------------------------------- the compilation

  function Base(i: nat): string {
    "/spec/template/spec/containers" + ("/" + Digits(i))
  }

  /** The operations for the container at position i. */
  function ContainerOps(c: Json, i: nat, p: Params): seq<Operation> {
    if !Matched(c, p) then []
    else if p.target == "image" then [Replace(Base(i) + "/image", Str(p.value))]
    else
      var k := EnvIndex(Env(c), p.key);
      if p.op == "unset" then
        if k >= 0 then [Remove(Base(i) + "/env/" + Digits(k))] else []
      else
        (if HasEnv(c) then [] else [Add(Base(i) + "/env", Arr([]))])
        + if k < 0 then [Add(Base(i) + "/env/-", NewEntry(p.key, p.value))]
          else (if "valueFrom" in Env(c)[k].members then [Remove(Base(i) + "/env/" + Digits(k) + "/valueFrom")] else [])
               + [Add(Base(i) + "/env/" + Digits(k) + "/value", Str(p.value))]
  }

  function Compile(cs: seq<Json>, p: Params): seq<Operation> {
    if cs == [] then []
    else Compile(cs[..|cs| - 1], p) + ContainerOps(cs[|cs| - 1], |cs| - 1, p)
  }

  lemma {:induction false} PointerAppend(a: seq<string>, b: seq<string>)
    ensures Pointer(a + b) == Pointer(a) + Pointer(b)
  {
    if a == [] {
      assert a + b == b;
    } else {
      PointerAppend(a[1..], b);
      assert (a + b)[1..] == a[1..] + b;
    }
  }

  lemma PodPointer()
    ensures Pointer(POD) == "/spec/template/spec/containers"
  {
    hide Pointer;
    OnePath("spec"); OnePath("template"); OnePath("containers");
    PointerAppend(["spec"], ["template"]);
    PointerAppend(["spec", "template"], ["spec"]);
    PointerAppend(["spec", "template", "spec"], ["containers"]);
    assert ["spec"] + ["template"] == ["spec", "template"];
    assert ["spec", "template"] + ["spec"] == ["spec", "template", "spec"];
    assert ["spec", "template", "spec"] + ["containers"] == POD;
  }

  lemma BaseIsPointer(i: nat)
    ensures Base(i) == Pointer(POD + [Digits(i)])
  {
    hide Pointer, Digits;
    PointerAppend(POD, [Digits(i)]);
    OnePath(Digits(i));
    PodPointer();
  }

  ghost predicate AllPlain(tokens: seq<string>) {
    forall t <- tokens :: Plain(t)
  }

  lemma PodIsPlain(i: nat)
    ensures AllPlain(POD + [Digits(i)])
  {
    IndexOfDigits(i);
  }

  /** An operation whose path leads into container i is the operation on that container. */
  lemma ApplyInContainer(doc: Json, i: nat, rest: seq<string>, op: Operation)
    requires Containers(doc).Some? && i < |Containers(doc).value|
    requires rest != [] && AllPlain(rest) && op.path == Base(i) + Pointer(rest)
    ensures ApplyOne(doc, op)
         == match ApplyAt(Containers(doc).value[i], rest, op)
            case None => None
            case Some(c) => Some(WithContainers(doc, Containers(doc).value[i := c]))
  {
    hide Base, Tokens, Pointer, ApplyAt, Digits, Nested;
    var cs := Containers(doc).value;
    BaseIsPointer(i);
    PodIsPlain(i);
    PointerAppend(POD + [Digits(i)], rest);
    PointerIsRead(POD + [Digits(i)] + rest);
    assert POD + [Digits(i)] + rest == POD + ([Digits(i)] + rest);
    ApplyBelow(doc, POD, [Digits(i)] + rest, op);
    ApplyAtIndex(cs, i, rest, op);
  }

  lemma ApplyAtIndex(cs: seq<Json>, i: nat, rest: seq<string>, op: Operation)
    requires i < |cs| && rest != []
    ensures ApplyAt(Arr(cs), [Digits(i)] + rest, op)
         == match ApplyAt(cs[i], rest, op)
            case None => None
            case Some(c) => Some(Arr(cs[i := c]))
  {
    hide Index, Digits, ApplyHere;
    IndexOfDigits(i);
    assert ([Digits(i)] + rest)[1..] == rest;
  }

  // --------------------------------------------- operations inside a container

  lemma MemberPaths(k: nat)
    ensures Pointer(["image"]) == "/image" && Pointer(["env"]) == "/env" && Pointer(["env", "-"]) == "/env/-"
    ensures Pointer(["env", Digits(k)]) == "/env/" + Digits(k)
    ensures Pointer(["env", Digits(k), "value"]) == "/env/" + Digits(k) + "/value"
    ensures Pointer(["env", Digits(k), "valueFrom"]) == "/env/" + Digits(k) + "/valueFrom"
    ensures AllPlain(["image"]) && AllPlain(["env"]) && AllPlain(["env", "-"]) && AllPlain(["env", Digits(k)])
    ensures AllPlain(["env", Digits(k), "value"]) && AllPlain(["env", Digits(k), "valueFrom"])
  {
    hide Pointer, Digits;
    var d := Digits(k);
    IndexOfDigits(k);
    OnePath("image"); OnePath("env"); OnePath("value"); OnePath("valueFrom"); OnePath(d); OnePath("-");
    PointerAppend(["env"], ["-"]);
    PointerAppend(["env"], [d]);
    PointerAppend(["env", d], ["value"]);
    PointerAppend(["env", d], ["valueFrom"]);
    assert ["env"] + ["-"] == ["env", "-"] && ["env"] + [d] == ["env", d];
    assert ["env", d] + ["value"] == ["env", d, "value"] && ["env", d] + ["valueFrom"] == ["env", d, "valueFrom"];
  }

  lemma OnePath(t: string)
    ensures Pointer([t]) == "/" + t
  {
    assert [t][1..] == [];
    assert Pointer([]) == "";
  }

  /** What an operation on an env entry, or on a member of it, does to the container. */
  lemma InEntry(m: map<string, Json>, k: nat, t: string, op: Operation)
    requires "env" in m && m["env"].Arr? && k < |m["env"].items| && m["env"].items[k].Obj?
    ensures ApplyAt(Obj(m), ["env", Digits(k), t], op)
         == match ApplyHere(m["env"].items[k], t, op)
            case None => None
            case Some(e) => Some(Obj(m["env" := Arr(m["env"].items[k := e])]))
  {
    hide Index, Digits, ApplyHere;
    IndexOfDigits(k);
    var path := ["env", Digits(k), t];
    assert path[1..] == [Digits(k), t] && path[1..][1..] == [t];
    assert ApplyAt(m["env"].items[k], [t], op) == ApplyHere(m["env"].items[k], t, op);
    assert [Digits(k)] + [t] == [Digits(k), t];
    ApplyAtIndex(m["env"].items, k, [t], op);
  }

  lemma InEnv(m: map<string, Json>, t: string, op: Operation)
    requires "env" in m
    ensures ApplyAt(Obj(m), ["env", t], op)
         == match ApplyHere(m["env"], t, op)
            case None => None
            case Some(e) => Some(Obj(m["env" := e]))
  {
    hide ApplyHere;
    assert ["env", t][1..] == [t];
  }

  /** The document with container i replaced, if there is a replacement. */
  function Put(doc: Json, i: nat, c: Option<Json>): (r: Option<Json>)
    requires Containers(doc).Some? && i < |Containers(doc).value|
    ensures c.Some? ==> r.Some? && Containers(r.value) == Some(Containers(doc).value[i := c.value])
  {
    ContainersLaws(doc, if c.Some? then Containers(doc).value[i := c.value] else [], []);
    match c
    case None => None
    case Some(v) => Some(WithContainers(doc, Containers(doc).value[i := v]))
  }

  lemma PutTwice(doc: Json, i: nat, c: Json, d: Option<Json>)
    requires Containers(doc).Some? && i < |Containers(doc).value|
    ensures var doc' := Put(doc, i, Some(c)).value;
            && Containers(doc') == Some(Containers(doc).value[i := c])
            && Put(doc', i, d) == Put(doc, i, d)
  {
    hide WithContainers, Containers;
    var cs := Containers(doc).value;
    ContainersLaws(doc, cs[i := c], if d.Some? then cs[i := d.value] else cs);
    if d.Some? {
      assert cs[i := c][i := d.value] == cs[i := d.value];
    }
  }

  lemma OneOperation(doc: Json, op: Operation)
    ensures Apply(doc, []) == Some(doc) && Apply(doc, [op]) == ApplyOne(doc, op)
  {
    assert [op][..0] == [];
    assert Apply(doc, [op][..0]) == Some(doc);
  }

  lemma ImageOps(doc: Json, i: nat, p: Params)
    requires Containers(doc).Some? && i < |Containers(doc).value|
    requires Matched(Containers(doc).value[i], p) && p.target == "image"
    ensures Apply(doc, ContainerOps(Containers(doc).value[i], i, p)) == Put(doc, i, EditContainer(Containers(doc).value[i], p))
  {
    hide Base, WithContainers, Containers, ApplyOne, Pointer, Apply;
    var op := Replace(Base(i) + "/image", Str(p.value));
    MemberPaths(0);
    OneOperation(doc, op);
    ApplyInContainer(doc, i, ["image"], op);
  }

  lemma RemoveStep(doc: Json, i: nat, k: nat)
    requires Containers(doc).Some? && i < |Containers(doc).value|
    requires var c := Containers(doc).value[i]; c.Obj? && HasEnv(c) && k < |Env(c)|
    ensures var c := Containers(doc).value[i];
            Apply(doc, [Remove(Base(i) + "/env/" + Digits(k))])
            == Put(doc, i, Some(Obj(c.members["env" := Arr(Env(c)[..k] + Env(c)[k + 1..])])))
  {
    hide Base, WithContainers, Containers, ApplyOne, ApplyAt, Pointer, Apply, Digits;
    var c := Containers(doc).value[i];
    var op := Remove(Base(i) + "/env/" + Digits(k));
    MemberPaths(k);
    OneOperation(doc, op);
    assert op.path == Base(i) + ("/env/" + Digits(k));
    ApplyInContainer(doc, i, ["env", Digits(k)], op);
    InEnv(c.members, Digits(k), op);
    IndexOfDigits(k);
  }

  lemma PutSame(doc: Json, i: nat)
    requires Containers(doc).Some? && i < |Containers(doc).value|
    ensures Put(doc, i, Some(Containers(doc).value[i])) == Some(doc) == Apply(doc, [])
  {
    hide WithContainers, Containers, Apply;
    var cs := Containers(doc).value;
    assert cs[i := cs[i]] == cs;
    ContainersLaws(doc, cs, cs);
    OneOperation(doc, Remove(""));
  }

  lemma UnsetOps(doc: Json, i: nat, p: Params)
    requires Containers(doc).Some? && i < |Containers(doc).value|
    requires Matched(Containers(doc).value[i], p) && p.target == "env" && p.op == "unset"
    ensures Apply(doc, ContainerOps(Containers(doc).value[i], i, p)) == Put(doc, i, EditContainer(Containers(doc).value[i], p))
  {
    hide Base, WithContainers, Containers, Apply, Put, Digits;
    var c := Containers(doc).value[i];
    var k := EnvIndex(Env(c), p.key);
    if k >= 0 {
      RemoveStep(doc, i, k);
    } else {
      PutSame(doc, i);
    }
  }

  /** The container once it surely has an env array, and the operations that see to it. */
  function Prepared(c: Json): Json
    requires c.Obj?
  {
    if HasEnv(c) then c else Obj(c.members["env" := Arr([])])
  }

  function PrepareOps(c: Json, i: nat): seq<Operation>
    requires c.Obj?
  {
    if HasEnv(c) then [] else [Add(Base(i) + "/env", Arr([]))]
  }

  lemma PrepareStep(doc: Json, i: nat)
    requires Containers(doc).Some? && i < |Containers(doc).value| && Containers(doc).value[i].Obj?
    ensures Apply(doc, PrepareOps(Containers(doc).value[i], i)) == Put(doc, i, Some(Prepared(Containers(doc).value[i])))
  {
    hide Base, WithContainers, Containers, ApplyOne, Pointer, Apply;
    var cs := Containers(doc).value;
    var op := Add(Base(i) + "/env", Arr([]));
    MemberPaths(0);
    OneOperation(doc, op);
    if HasEnv(cs[i]) {
      assert cs[i := cs[i]] == cs;
      ContainersLaws(doc, cs, cs);
    } else {
      ApplyInContainer(doc, i, ["env"], op);
    }
  }

  function DropOps(c: Json, i: nat, k: nat): seq<Operation>
    requires c.Obj? && k < |Env(c)| && Env(c)[k].Obj?
  {
    if "valueFrom" in Env(c)[k].members then [Remove(Base(i) + "/env/" + Digits(k) + "/valueFrom")] else []
  }

  function Dropped(c: Json, k: nat): Json
    requires c.Obj? && HasEnv(c) && k < |Env(c)| && Env(c)[k].Obj?
  {
    Obj(c.members["env" := Arr(Env(c)[k := Obj(Env(c)[k].members - {"valueFrom"})])])
  }

  lemma DropStep(doc: Json, i: nat, k: nat)
    requires Containers(doc).Some? && i < |Containers(doc).value|
    requires var c := Containers(doc).value[i]; c.Obj? && HasEnv(c) && k < |Env(c)| && Env(c)[k].Obj?
    ensures Apply(doc, DropOps(Containers(doc).value[i], i, k)) == Put(doc, i, Some(Dropped(Containers(doc).value[i], k)))
  {
    hide Base, WithContainers, Containers, ApplyOne, ApplyAt, Pointer, Apply, Digits;
    var cs := Containers(doc).value;
    var c := cs[i];
    var e := Env(c)[k];
    var op := Remove(Base(i) + "/env/" + Digits(k) + "/valueFrom");
    MemberPaths(k);
    OneOperation(doc, op);
    if "valueFrom" in e.members {
      assert op.path == Base(i) + ("/env/" + Digits(k) + "/valueFrom");
      ApplyInContainer(doc, i, ["env", Digits(k), "valueFrom"], op);
      InEntry(c.members, k, "valueFrom", op);
    } else {
      assert e.members - {"valueFrom"} == e.members;
      assert Env(c)[k := e] == Env(c) && c.members["env" := Arr(Env(c))] == c.members;
      assert cs[i := c] == cs;
      ContainersLaws(doc, cs, cs);
    }
  }

  lemma ValueStep(doc: Json, i: nat, k: nat, value: string)
    requires Containers(doc).Some? && i < |Containers(doc).value|
    requires var c := Containers(doc).value[i]; c.Obj? && HasEnv(c) && k < |Env(c)| && Env(c)[k].Obj?
    ensures var c := Containers(doc).value[i];
            var e := Obj(Env(c)[k].members["value" := Str(value)]);
            Apply(doc, [Add(Base(i) + "/env/" + Digits(k) + "/value", Str(value))])
            == Put(doc, i, Some(Obj(c.members["env" := Arr(Env(c)[k := e])])))
  {
    hide Base, WithContainers, Containers, ApplyOne, ApplyAt, Pointer, Apply, Digits;
    var c := Containers(doc).value[i];
    var op := Add(Base(i) + "/env/" + Digits(k) + "/value", Str(value));
    MemberPaths(k);
    OneOperation(doc, op);
    assert op.path == Base(i) + ("/env/" + Digits(k) + "/value");
    ApplyInContainer(doc, i, ["env", Digits(k), "value"], op);
    InEntry(c.members, k, "value", op);
  }

  lemma AppendStep(doc: Json, i: nat, e: Json)
    requires Containers(doc).Some? && i < |Containers(doc).value|
    requires var c := Containers(doc).value[i]; c.Obj? && HasEnv(c)
    ensures var c := Containers(doc).value[i];
            Apply(doc, [Add(Base(i) + "/env/-", e)]) == Put(doc, i, Some(Obj(c.members["env" := Arr(Env(c) + [e])])))
  {
    hide Base, WithContainers, Containers, ApplyOne, ApplyAt, Pointer, Apply, Digits;
    var c := Containers(doc).value[i];
    var op := Add(Base(i) + "/env/-", e);
    MemberPaths(0);
    OneOperation(doc, op);
    ApplyInContainer(doc, i, ["env", "-"], op);
    InEnv(c.members, "-", op);
  }

  /** Two groups of operations in a row on one container. */
  lemma ThenOn(doc: Json, i: nat, c: Json, d: Option<Json>, ops: seq<Operation>, more: seq<Operation>)
    requires Containers(doc).Some? && i < |Containers(doc).value|
    requires Apply(doc, ops) == Put(doc, i, Some(c))
    requires Apply(Put(doc, i, Some(c)).value, more) == Put(Put(doc, i, Some(c)).value, i, d)
    ensures Apply(doc, ops + more) == Put(doc, i, d)
  {
    hide Apply, WithContainers, Containers;
    ApplyAppend(doc, ops, more);
    PutTwice(doc, i, c, d);
  }

  lemma AppendOps(doc: Json, i: nat, key: string, value: string)
    requires Containers(doc).Some? && i < |Containers(doc).value| && Containers(doc).value[i].Obj?
    ensures var c := Containers(doc).value[i];
            Apply(doc, PrepareOps(c, i) + [Add(Base(i) + "/env/-", NewEntry(key, value))])
            == Put(doc, i, Some(Obj(c.members["env" := Arr(Env(c) + [NewEntry(key, value)])])))
  {
    hide Base, WithContainers, Containers, ApplyOne, ApplyAt, Apply, NewEntry;
    var c, e := Containers(doc).value[i], NewEntry(key, value);
    PrepareStep(doc, i);
    var c1 := Prepared(c);
    AppendStep(Put(doc, i, Some(c1)).value, i, e);
    assert c1.members["env" := Arr(Env(c1) + [e])] == c.members["env" := Arr(Env(c) + [e])];
    ThenOn(doc, i, c1, Some(Obj(c1.members["env" := Arr(Env(c1) + [e])])), PrepareOps(c, i), [Add(Base(i) + "/env/-", e)]);
  }

  function ChangeOps(c: Json, i: nat, k: nat, value: string): seq<Operation>
    requires c.Obj? && k < |Env(c)| && Env(c)[k].Obj?
  {
    DropOps(c, i, k) + [Add(Base(i) + "/env/" + Digits(k) + "/value", Str(value))]
  }

  lemma ChangeStep(doc: Json, i: nat, k: nat, value: string)
    requires Containers(doc).Some? && i < |Containers(doc).value|
    requires var c := Containers(doc).value[i]; c.Obj? && HasEnv(c) && k < |Env(c)| && Env(c)[k].Obj?
    ensures var c := Containers(doc).value[i];
            Apply(doc, ChangeOps(c, i, k, value))
            == Put(doc, i, Some(Obj(c.members["env" := Arr(Env(c)[k := SetEntry(Env(c)[k], value)])])))
  {
    hide Base, WithContainers, Containers, ApplyOne, ApplyAt, Apply, DropOps;
    var c := Containers(doc).value[i];
    DropStep(doc, i, k);
    var c1 := Dropped(c, k);
    ValueStep(Put(doc, i, Some(c1)).value, i, k, value);
    var envs := Env(c1)[k := SetEntry(Env(c)[k], value)];
    assert envs == Env(c)[k := SetEntry(Env(c)[k], value)];
    assert c1.members["env" := Arr(envs)] == c.members["env" := Arr(envs)];
    ThenOn(doc, i, c1, Some(Obj(c1.members["env" := Arr(envs)])), DropOps(c, i, k),
           [Add(Base(i) + "/env/" + Digits(k) + "/value", Str(value))]);
  }

  lemma SetOps(doc: Json, i: nat, p: Params)
    requires Containers(doc).Some? && i < |Containers(doc).value|
    requires Matched(Containers(doc).value[i], p) && p.target == "env" && p.op != "unset"
    ensures Apply(doc, ContainerOps(Containers(doc).value[i], i, p)) == Put(doc, i, EditContainer(Containers(doc).value[i], p))
  {
    hide Base, WithContainers, Containers, ApplyOne, ApplyAt, Apply, Put, SetEntry, NewEntry;
    var c := Containers(doc).value[i];
    var k := EnvIndex(Env(c), p.key);
    if k < 0 {
      AppendOps(doc, i, p.key, p.value);
    } else {
      assert HasEnv(c) && PrepareOps(c, i) == [];
      ChangeStep(doc, i, k, p.value);
      assert ContainerOps(c, i, p) == ChangeOps(c, i, k, p.value);
    }
  }

  /** Compiling and patching one container is editing it. */
  lemma ContainerOpsEdit(doc: Json, i: nat, p: Params)
    requires Containers(doc).Some? && i < |Containers(doc).value|
    requires p.target == "env" || p.target == "image"
    ensures Apply(doc, ContainerOps(Containers(doc).value[i], i, p)) == Put(doc, i, EditContainer(Containers(doc).value[i], p))
  {
    hide Base, Containers, WithContainers, ApplyOne, Apply;
    var cs := Containers(doc).value;
    if !Matched(cs[i], p) {
      PutSame(doc, i);
    } else if p.target == "image" {
      ImageOps(doc, i, p);
    } else if p.op == "unset" {
      UnsetOps(doc, i, p);
    } else {
      SetOps(doc, i, p);
    }
  }

  // -------------------------------------------------------------- the main result

  lemma {:induction false} EditAllLength(cs: seq<Json>, p: Params)
    ensures EditAll(cs, p).Some? ==> |EditAll(cs, p).value| == |cs|
    ensures EditAll(cs, p).Some? ==> forall i :: 0 <= i < |cs| ==> EditContainer(cs[i], p) == Some(EditAll(cs, p).value[i])
    ensures EditAll(cs, p) == None <==> exists i :: 0 <= i < |cs| && EditContainer(cs[i], p) == None
  {
    hide EditContainer;
    if cs != [] {
      var n := |cs| - 1;
      EditAllLength(cs[..n], p);
      if i :| 0 <= i < n && EditContainer(cs[i], p) == None {
        assert cs[..n][i] == cs[i];
      }
    }
  }

  lemma {:induction false} CompiledPrefix(doc: Json, n: nat, p: Params)
    requires Containers(doc).Some? && n <= |Containers(doc).value|
    requires p.target == "env" || p.target == "image"
    ensures var cs := Containers(doc).value;
            Apply(doc, Compile(cs[..n], p))
            == match EditAll(cs[..n], p)
               case None => None
               case Some(es) => Some(WithContainers(doc, es + cs[n..]))
  {
    hide Containers, WithContainers, ContainerOps, EditContainer, Apply;
    var cs := Containers(doc).value;
    if n == 0 {
      OneOperation(doc, Remove(""));
      ContainersLaws(doc, cs, cs);
      assert [] + cs[0..] == cs;
    } else {
      CompiledPrefix(doc, n - 1, p);
      EditAllLength(cs[..n - 1], p);
      assert cs[..n][..n - 1] == cs[..n - 1];
      ApplyAppend(doc, Compile(cs[..n - 1], p), ContainerOps(cs[n - 1], n - 1, p));
      match EditAll(cs[..n - 1], p)
      case None =>
      case Some(es) =>
        var ds := es + cs[n - 1..];
        var doc' := WithContainers(doc, ds);
        ContainersLaws(doc, ds, ds);
        ContainerOpsEdit(doc', n - 1, p);
        if EditContainer(cs[n - 1], p).Some? {
          var e := EditContainer(cs[n - 1], p).value;
          ContainersLaws(doc, ds, ds[n - 1 := e]);
          assert ds[n - 1 := e] == es + [e] + cs[n..];
        }
    }
  }

  /** The compiled patch and the direct edit agree, on the result and on whether there is one. */
  lemma PatchIsEdit(doc: Json, p: Params)
    requires Containers(doc).Some?
    requires p.target == "env" || p.target == "image"
    ensures Apply(doc, Compile(Containers(doc).value, p)) == Edit(doc, p)
  {
    hide Containers, WithContainers, EditContainer, Apply;
    var cs := Containers(doc).value;
    CompiledPrefix(doc, |cs|, p);
    assert cs[..|cs|] == cs;
    if EditAll(cs, p).Some? {
      assert EditAll(cs, p).value + cs[|cs|..] == EditAll(cs, p).value;
    }
  }

  /** The edit fails exactly when an image is to be set in a matched container that has none. */
  lemma EditFailsExactly(doc: Json, p: Params)
    requires Containers(doc).Some?
    ensures Edit(doc, p) == None <==>
              p.target == "image" && exists c <- Containers(doc).value :: Matched(c, p) && "image" !in c.members
  {
    hide Containers, WithContainers;
    var cs := Containers(doc).value;
    EditAllLength(cs, p);
    if c :| c in cs && Matched(c, p) && "image" !in c.members {
      var i :| 0 <= i < |cs| && cs[i] == c;
    }
  }

  /** Nothing but the containers changes, and of these only the matched ones. */
  lemma EditTouchesOnlyMatched(doc: Json, p: Params, i: nat)
    requires Containers(doc).Some? && i < |Containers(doc).value|
    requires Edit(doc, p).Some?
    ensures var doc' := Edit(doc, p).value;
            && Containers(doc').Some? && |Containers(doc').value| == |Containers(doc).value|
            && WithContainers(doc', Containers(doc).value) == doc
            && Some(Containers(doc').value[i]) == EditContainer(Containers(doc).value[i], p)
            && (!Matched(Containers(doc).value[i], p) ==> Containers(doc').value[i] == Containers(doc).value[i])
  {
    hide Containers, WithContainers, Matched;
    var cs := Containers(doc).value;
    EditAllLength(cs, p);
    ContainersLaws(doc, EditAll(cs, p).value, cs);
  }

  // -------------------------------------------- what the edit of env stands for

  /** The first entry of a name: the one the compiler edits. */
  function Entry(envs: seq<Json>, key: string): Option<Json> {
    var k := EnvIndex(envs, key);
    if k >= 0 then Some(envs[k]) else None
  }

  lemma EnvIndexIs(envs: seq<Json>, key: string, k: nat)
    requires k < |envs| && Named(envs[k], key) && forall j :: 0 <= j < k ==> !Named(envs[j], key)
    ensures EnvIndex(envs, key) == k
  {
  }

  /** After a set the variable has the value and no valueFrom, and every other variable is as before. */
  lemma SetEnvMeans(envs: seq<Json>, key: string, value: string, other: string)
    ensures var e := Entry(SetEnv(envs, key, value), key);
            e.Some? && e.value.Obj? && "value" in e.value.members && e.value.members["value"] == Str(value)
            && "valueFrom" !in e.value.members
    ensures other != key ==> Entry(SetEnv(envs, key, value), other) == Entry(envs, other)
  {
    var k := EnvIndex(envs, key);
    var envs' := SetEnv(envs, key, value);
    EnvIndexIs(envs', key, if k >= 0 then k else |envs|);
    if other != key {
      var j := EnvIndex(envs, other);
      assert forall i :: 0 <= i < |envs| ==> (Named(envs'[i], other) <==> Named(envs[i], other));
      if j >= 0 {
        EnvIndexIs(envs', other, j);
      }
    }
  }

  lemma SetEnvTwice(envs: seq<Json>, key: string, value: string)
    ensures SetEnv(SetEnv(envs, key, value), key, value) == SetEnv(envs, key, value)
  {
    var k := EnvIndex(envs, key);
    var envs' := SetEnv(envs, key, value);
    var at := if k >= 0 then k else |envs|;
    EnvIndexIs(envs', key, at);
    assert (envs'[at].members - {"valueFrom"})["value" := Str(value)] == envs'[at].members;
  }

  lemma EditContainerTwice(c: Json, p: Params)
    requires p.op != "unset" && EditContainer(c, p).Some?
    ensures EditContainer(EditContainer(c, p).value, p) == EditContainer(c, p)
  {
    if Matched(c, p) {
      var d := EditContainer(c, p).value;
      assert NameOf(d) == NameOf(c);
      if p.target == "image" {
        assert d.members["image" := Str(p.value)] == d.members;
      } else {
        hide SetEnv;
        SetEnvTwice(Env(c), p.key, p.value);
        assert d.members["env" := Arr(Env(d))] == d.members;
      }
    }
  }

  /** Compiling and applying a set once more changes nothing. */
  lemma SetTwiceIsOnce(doc: Json, p: Params)
    requires Containers(doc).Some? && (p.target == "env" || p.target == "image")
    ensures p.op != "unset" && Edit(doc, p).Some? ==>
              var doc' := Edit(doc, p).value;
              Containers(doc').Some? && Apply(doc', Compile(Containers(doc').value, p)) == Some(doc')
  {
    hide Containers, WithContainers, EditContainer, Apply;
    if p.op != "unset" && Edit(doc, p).Some? {
      var cs := Containers(doc).value;
      var es := EditAll(cs, p).value;
      var doc' := Edit(doc, p).value;
      EditAllLength(cs, p);
      EditAllLength(es, p);
      ContainersLaws(doc, es, es);
      forall i | 0 <= i < |es| ensures EditContainer(es[i], p) == Some(es[i]) {
        EditContainerTwice(cs[i], p);
      }
      assert EditAll(es, p).value == es;
      PatchIsEdit(doc', p);
    }
  }

  /** A second unset finds nothing more exactly when there was at most one entry of the name. */
  lemma UnsetTwice(envs: seq<Json>, key: string)
    ensures UnsetEnv(UnsetEnv(envs, key), key) == UnsetEnv(envs, key)
       <==> forall i, j :: 0 <= i < j < |envs| ==> !(Named(envs[i], key) && Named(envs[j], key))
  {
    hide Named, EnvIndex;
    var k := EnvIndex(envs, key);
    if k >= 0 {
      var rest := UnsetEnv(envs, key);
      var again := EnvIndex(rest, key);
      if again >= 0 {
        assert |UnsetEnv(rest, key)| < |rest|;
        assert forall j :: 0 <= j < k ==> rest[j] == envs[j];
        assert again >= k && rest[again] == envs[again + 1];
      } else {
        forall j | k < j < |envs| ensures !Named(envs[j], key) {
          assert rest[j - 1] == envs[j];
        }
      }
    }
  }

  /** At most one entry of the name. */
  ghost predicate NamedOnce(envs: seq<Json>, key: string) {
    forall i, j :: 0 <= i < j < |envs| ==> !(Named(envs[i], key) && Named(envs[j], key))
  }

  /** The container is not matched, or has the name at most once. */
  ghost predicate NothingLeft(c: Json, p: Params) {
    Matched(c, p) ==> NamedOnce(Env(c), p.key)
  }

  lemma UnsetContainerTwice(c: Json, p: Params)
    requires p.target == "env" && p.op == "unset"
    ensures EditContainer(c, p).Some?
    ensures EditContainer(EditContainer(c, p).value, p) == EditContainer(c, p) <==> NothingLeft(c, p)
  {
    hide Named, EnvIndex;
    if Matched(c, p) {
      var d := EditContainer(c, p).value;
      assert NameOf(d) == NameOf(c);
      UnsetTwice(Env(c), p.key);
      UnsetShrinks(Env(c), p.key);
      if EnvIndex(Env(c), p.key) >= 0 {
        UnsetShrinks(Env(d), p.key);
        assert Env(d) == UnsetEnv(Env(c), p.key);
      }
    }
  }

  lemma UnsetShrinks(envs: seq<Json>, key: string)
    ensures UnsetEnv(envs, key) == envs <==> EnvIndex(envs, key) < 0
  {
    hide Named;
    assert EnvIndex(envs, key) >= 0 ==> |UnsetEnv(envs, key)| == |envs| - 1;
  }

  lemma UnsetNeverFails(cs: seq<Json>, p: Params)
    requires p.target == "env"
    ensures EditAll(cs, p).Some?
  {
    EditAllLength(cs, p);
  }

  lemma UnsetAllTwice(cs: seq<Json>, p: Params)
    requires p.target == "env" && p.op == "unset"
    ensures EditAll(cs, p).Some?
    ensures EditAll(EditAll(cs, p).value, p) == EditAll(cs, p) <==> forall c <- cs :: NothingLeft(c, p)
  {
    hide EditContainer, Matched, NothingLeft, EditAll;
    UnsetNeverFails(cs, p);
    EditAllLength(cs, p);
    var es := EditAll(cs, p).value;
    UnsetNeverFails(es, p);
    EditAllLength(es, p);
    var fs := EditAll(es, p).value;
    forall i | 0 <= i < |cs| ensures fs[i] == es[i] <==> NothingLeft(cs[i], p) {
      UnsetContainerTwice(cs[i], p);
    }
    if forall c <- cs :: NothingLeft(c, p) {
      assert forall i :: 0 <= i < |cs| ==> cs[i] in cs;
      assert fs == es;
    }
    if fs == es {
      forall c <- cs ensures NothingLeft(c, p) {
        var i :| 0 <= i < |cs| && cs[i] == c;
        assert fs[i] == es[i];
      }
    }
  }

  /** Compiling and applying an unset once more changes nothing exactly when no matched container had the name twice. */
  lemma UnsetTwiceIsOnce(doc: Json, p: Params)
    requires Containers(doc).Some? && p.target == "env" && p.op == "unset"
    ensures Edit(doc, p).Some? && Containers(Edit(doc, p).value).Some?
    ensures var doc' := Edit(doc, p).value;
            Apply(doc', Compile(Containers(doc').value, p)) == Some(doc')
            <==> forall c <- Containers(doc).value :: NothingLeft(c, p)
  {
    hide Containers, WithContainers, EditAll, Apply, NothingLeft;
    var cs := Containers(doc).value;
    UnsetAllTwice(cs, p);
    var es := EditAll(cs, p).value;
    UnsetNeverFails(es, p);
    var fs := EditAll(es, p).value;
    var doc' := WithContainers(doc, es);
    ContainersLaws(doc, es, es);
    ContainersLaws(doc', fs, es);
    PatchIsEdit(doc', p);
  }
}

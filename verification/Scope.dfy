/** Narrowing the two object sets before they are compared: kinds, ignored labels, one namespace for all. */
module Scoping {
  import opened Trees
  import opened Strings
  import Manifests
  import Normalizing
  import opened Reporting

  datatype Scope = Scope(kinds: seq<string>, ignoreLabels: set<string>, namespace: string)

  const NAMESPACE := ["metadata", "namespace"]
  const LABELS := ["metadata", "labels"]

  function KindAt(obj: Fields): Manifests.GVK {
    match Manifests.ParseGroupVersion(TextAt(obj, ["apiVersion"]))
    case Some(gv) => Manifests.GVK(gv.group, gv.version, TextAt(obj, ["kind"]))
    case None => Manifests.GVK("", "", "")
  }

  /** The parts of the version-independent key of an object. */
  function KeyParts(obj: Fields): seq<string> {
    [KindAt(obj).group, KindAt(obj).kind, TextAt(obj, NAMESPACE), TextAt(obj, ["metadata", "name"])]
  }

  function KeyOf(obj: Fields): string { Join(KeyParts(obj), '/') }

  predicate Compares(s: Scope, obj: Fields) { s.kinds == [] || TextAt(obj, ["kind"]) in s.kinds }

  /** Takes the ignored labels away, and the label map with them if it becomes empty. */
  function StripLabels(s: Scope, obj: Fields): Fields {
    if s.ignoreLabels == {} then obj
    else match NestedMap(obj, LABELS)
      case Present(m) =>
        var left := m.fields - s.ignoreLabels;
        if left == map[] then RemoveNested(obj, LABELS)
        else (match SetNested(obj, LABELS, Map(left)) case Some(out) => out case None => obj)
      case _ => obj
  }

  /** A subject of a role binding, moved to the namespace if it names another one. */
  function MoveSubject(ns: string, subject: Json): Json {
    if subject.Map? && "namespace" in subject.fields && subject.fields["namespace"].Str?
       && subject.fields["namespace"].s != "" && subject.fields["namespace"].s != ns
    then Map(subject.fields["namespace" := Str(ns)]) else subject
  }

  function MoveObject(ns: string, obj: Fields): Fields {
    if TextAt(obj, NAMESPACE) != "" && TextAt(obj, NAMESPACE) != ns
    then (match SetNested(obj, NAMESPACE, Str(ns)) case Some(out) => out case None => obj)
    else obj
  }

  function MoveSubjects(ns: string, obj: Fields): Fields {
    match NestedSlice(obj, ["subjects"])
    case Present(l) => obj["subjects" := List(seq(|l.items|, i requires 0 <= i < |l.items| => MoveSubject(ns, l.items[i])))]
    case _ => obj
  }

  function Canonicalize(s: Scope, obj: Fields): Fields {
    if s.namespace == "" then obj else MoveSubjects(s.namespace, MoveObject(s.namespace, obj))
  }

  function Scoped(s: Scope, obj: Fields): Fields { Canonicalize(s, StripLabels(s, obj)) }

  /** What `Scope.Apply` promises whatever order it walks in: one object per new key, taken from one that has it. */
  ghost predicate Narrows(s: Scope, objs: ObjectSet, out: ObjectSet) {
    && (forall k :: k in objs && Compares(s, objs[k]) ==> KeyOf(Scoped(s, objs[k])) in out)
    && (forall k' :: k' in out ==> exists k :: k in objs && Compares(s, objs[k]) && KeyOf(out[k']) == k' && out[k'] == Scoped(s, objs[k]))
  }

  method Apply(s: Scope, objs: ObjectSet) returns (out: ObjectSet)
    ensures Narrows(s, objs, out)
  {
    hide Scoped;
    hide KeyOf;
    out := map[];
    var todo := objs.Keys;
    while todo != {}
      invariant todo <= objs.Keys
      invariant forall k :: k in objs && k !in todo && Compares(s, objs[k]) ==> KeyOf(Scoped(s, objs[k])) in out
      invariant forall k' :: k' in out ==>
                  exists k :: k in objs && Compares(s, objs[k]) && KeyOf(out[k']) == k' && out[k'] == Scoped(s, objs[k])
      decreases |todo|
    {
      var k :| k in todo;
      todo := todo - {k};
      if Compares(s, objs[k]) {
        var obj := Scoped(s, objs[k]);
        out := out[KeyOf(obj) := obj];
      }
    }
  }

  // ------------------------------------------------------- What scoping changes

  lemma StripLabelsReads(s: Scope, obj: Fields, q: seq<string>)
    requires !NestedMap(obj, q).Present?
    ensures Nested(Map(StripLabels(s, obj)), q) ==
            if LABELS < q && q[2] in s.ignoreLabels && NestedMap(obj, LABELS).Present? then Missing else Nested(Map(obj), q)
  {
    hide Nested;
    hide SetNested;
    hide RemoveNested;
    assert s.ignoreLabels != {} ==> StripLabels(s, obj) == Normalizing.StripKeys(obj, LABELS, s.ignoreLabels);
    Normalizing.StripKeysReads(obj, LABELS, s.ignoreLabels, q);
  }

  /** Where the namespace of an object is moved, that is all that changes. */
  lemma MoveObjectIs(ns: string, obj: Fields)
    ensures TextAt(obj, NAMESPACE) != "" ==>
              && "metadata" in obj && obj["metadata"].Map?
              && MoveObject(ns, obj) == obj["metadata" := Map(obj["metadata"].fields["namespace" := Str(ns)])]
    ensures TextAt(obj, NAMESPACE) == "" ==> MoveObject(ns, obj) == obj
  {
    ReadTwo(obj, "metadata", "namespace");
    if TextAt(obj, NAMESPACE) != "" {
      var md := obj["metadata"].fields;
      assert NAMESPACE[1..] == ["namespace"];
      assert SetNested(md, ["namespace"], Str(ns)) == Some(md["namespace" := Str(ns)]);
      if TextAt(obj, NAMESPACE) == ns {
        assert md["namespace" := Str(ns)] == md;
        assert obj["metadata" := Map(md)] == obj;
      }
    }
  }

  lemma MoveObjectReads(ns: string, obj: Fields, q: seq<string>)
    requires !NestedMap(obj, q).Present?
    ensures Nested(Map(MoveObject(ns, obj)), q) ==
            if q == NAMESPACE && TextAt(obj, NAMESPACE) != "" then Present(Str(ns)) else Nested(Map(obj), q)
  {
    MoveObjectIs(ns, obj);
    var out := MoveObject(ns, obj);
    if TextAt(obj, NAMESPACE) != "" && q[0] == "metadata" {
      var md := obj["metadata"].fields;
      assert Nested(Map(obj), q) == Nested(obj["metadata"], q[1..]);
      assert Nested(Map(out), q) == Nested(out["metadata"], q[1..]);
      ReadTwo(obj, "metadata", "namespace");
      assert q[1..] != [];
      if q[1] == "namespace" {
        assert |q| == 2 ==> q == NAMESPACE;
        assert Nested(out["metadata"], q[1..]) == Nested(Str(ns), q[1..][1..]);
        assert Nested(obj["metadata"], q[1..]) == Nested(md["namespace"], q[1..][1..]);
      }
    }
  }

  lemma MoveSubjectsReads(ns: string, obj: Fields, q: seq<string>)
    requires q != [] && q[0] != "subjects"
    ensures Nested(Map(MoveSubjects(ns, obj)), q) == Nested(Map(obj), q)
  {
  }

  /**
    What scoping changes in an object, subjects apart: ignored labels go, and a namespace becomes the
    given one if one is given. Every other value is read as before, and nothing new appears.
   */
  lemma ScopedReads(s: Scope, obj: Fields, q: seq<string>)
    requires !NestedMap(obj, q).Present? && q != [] && q[0] != "subjects"
    ensures Nested(Map(Scoped(s, obj)), q) ==
            if ["metadata", "labels"] < q && q[2] in s.ignoreLabels && NestedMap(obj, ["metadata", "labels"]).Present? then Missing
            else if q == ["metadata", "namespace"] && s.namespace != "" && TextAt(obj, q) != "" then Present(Str(s.namespace))
            else Nested(Map(obj), q)
  {
    hide Nested;
    hide StripLabels;
    hide MoveObject;
    hide MoveSubjects;
    var bare := StripLabels(s, obj);
    StripLabelsReads(s, obj, q);
    StripKeepsTexts(s, obj);
    if s.namespace != "" {
      MoveObjectReads(s.namespace, bare, q);
      MoveSubjectsReads(s.namespace, MoveObject(s.namespace, bare), q);
    }
    assert LABELS < q ==> q[1] == "labels";
  }

  /** `y` is the subject `x` in the namespace `ns`, if it names a namespace at all. */
  ghost predicate SubjectMoved(x: Json, y: Json, ns: string) {
    if x.Map? && "namespace" in x.fields && x.fields["namespace"].Str? && x.fields["namespace"].s != ""
    then y == Map(x.fields["namespace" := Str(ns)]) else y == x
  }

  lemma SubjectsKept(s: Scope, obj: Fields)
    ensures Nested(Map(StripLabels(s, obj)), ["subjects"]) == Nested(Map(obj), ["subjects"])
    ensures Nested(Map(MoveObject(s.namespace, obj)), ["subjects"]) == Nested(Map(obj), ["subjects"])
  {
    hide SetNested;
    hide RemoveNested;
    assert s.ignoreLabels != {} ==> StripLabels(s, obj) == Normalizing.StripKeys(obj, LABELS, s.ignoreLabels);
    assert ["subjects"][0] != LABELS[0];
    Normalizing.StripKeysExact(obj, LABELS, s.ignoreLabels, ["subjects"]);
    MoveObjectIs(s.namespace, obj);
  }

  /** The subjects of a role binding move one by one, if a namespace is given. */
  lemma ScopedSubjects(s: Scope, obj: Fields)
    ensures var was, r := NestedSlice(obj, ["subjects"]), NestedSlice(Scoped(s, obj), ["subjects"]);
            && (s.namespace == "" || !was.Present? ==> r == was)
            && (s.namespace != "" && was.Present? ==>
                  && r.Present? && |r.value.items| == |was.value.items|
                  && forall i :: 0 <= i < |was.value.items| ==>
                       SubjectMoved(was.value.items[i], r.value.items[i], s.namespace))
  {
    hide StripLabels;
    hide MoveObject;
    var bare := StripLabels(s, obj);
    SubjectsKept(s, obj);
    SubjectsKept(s, bare);
    var ns := s.namespace;
    var moved := MoveObject(ns, bare);
    var was := NestedSlice(moved, ["subjects"]);
    if ns != "" && was.Present? {
      var out := MoveSubjects(ns, moved);
      ReadOne(out, "subjects");
      forall i | 0 <= i < |was.value.items|
        ensures SubjectMoved(was.value.items[i], MoveSubject(ns, was.value.items[i]), ns)
      {
        SubjectMovedOne(ns, was.value.items[i]);
      }
    }
  }

  lemma SubjectMovedOne(ns: string, x: Json)
    ensures SubjectMoved(x, MoveSubject(ns, x), ns)
  {
    if x.Map? && "namespace" in x.fields && x.fields["namespace"] == Str(ns) {
      assert x.fields["namespace" := Str(ns)] == x.fields;
    }
  }

  // ------------------------------------------------------------- What the key becomes

  lemma ReadTwo(obj: Fields, k: string, l: string)
    ensures Nested(Map(obj), [k, l]) ==
            if k !in obj || obj[k].Null? then Missing
            else if !obj[k].Map? then BadPath
            else if l in obj[k].fields then Present(obj[k].fields[l]) else Missing
  {
    assert [k, l][1..] == [l];
    if k in obj && obj[k].Map? { ReadOne(obj[k].fields, l); }
  }

  /** What identifies an object: its texts at the four places. */
  function Texts(obj: Fields): (string, string, string, string) {
    (TextAt(obj, ["apiVersion"]), TextAt(obj, ["kind"]), TextAt(obj, NAMESPACE), TextAt(obj, ["metadata", "name"]))
  }

  /** Writing or dropping another key of the metadata, or another field, changes none of the texts. */
  lemma TextsKept(obj: Fields, out: Fields)
    requires forall k :: k == "apiVersion" || k == "kind" ==> (k in out <==> k in obj) && (k in obj ==> out[k] == obj[k])
    requires "metadata" in out <==> "metadata" in obj
    requires "metadata" in obj ==>
               if !obj["metadata"].Map? then out["metadata"] == obj["metadata"]
               else out["metadata"].Map? && forall l :: l == "namespace" || l == "name" ==>
                      var f, g := obj["metadata"].fields, out["metadata"].fields; (l in g <==> l in f) && (l in f ==> g[l] == f[l])
    ensures Texts(out) == Texts(obj)
  {
    ReadOne(obj, "apiVersion");
    ReadOne(out, "apiVersion");
    ReadOne(obj, "kind");
    ReadOne(out, "kind");
    ReadTwo(obj, "metadata", "namespace");
    ReadTwo(out, "metadata", "namespace");
    ReadTwo(obj, "metadata", "name");
    ReadTwo(out, "metadata", "name");
  }

  lemma StripKeepsTexts(s: Scope, obj: Fields)
    ensures Texts(StripLabels(s, obj)) == Texts(obj)
  {
    if s.ignoreLabels != {} && NestedMap(obj, LABELS).Present? {
      ReadTwo(obj, "metadata", "labels");
      assert LABELS[1..] == ["labels"];
      var f := obj["metadata"].fields;
      var left := f["labels"].fields - s.ignoreLabels;
      assert RemoveNested(obj, LABELS) == obj["metadata" := Map(f - {"labels"})];
      assert SetNested(f, ["labels"], Map(left)) == Some(f["labels" := Map(left)]);
      assert SetNested(obj, LABELS, Map(left)) == Some(obj["metadata" := Map(f["labels" := Map(left)])]);
      TextsKept(obj, obj["metadata" := Map(f - {"labels"})]);
      TextsKept(obj, obj["metadata" := Map(f["labels" := Map(left)])]);
    }
  }

  lemma MoveSubjectsKeepsTexts(ns: string, obj: Fields)
    ensures Texts(MoveSubjects(ns, obj)) == Texts(obj)
  {
    TextsKept(obj, MoveSubjects(ns, obj));
  }

  lemma MoveObjectTexts(ns: string, obj: Fields)
    requires ns != ""
    ensures var t := Texts(obj); Texts(MoveObject(ns, obj)) == (t.0, t.1, if t.2 == "" then "" else ns, t.3)
  {
    if TextAt(obj, NAMESPACE) != "" && TextAt(obj, NAMESPACE) != ns {
      ReadTwo(obj, "metadata", "namespace");
      assert NAMESPACE[1..] == ["namespace"];
      var f := obj["metadata"].fields;
      var out := obj["metadata" := Map(f["namespace" := Str(ns)])];
      assert SetNested(obj, NAMESPACE, Str(ns)) == Some(out);
      ReadOne(obj, "apiVersion");
      ReadOne(out, "apiVersion");
      ReadOne(obj, "kind");
      ReadOne(out, "kind");
      ReadTwo(out, "metadata", "namespace");
      ReadTwo(obj, "metadata", "name");
      ReadTwo(out, "metadata", "name");
    }
  }

  /** Narrowing changes one thing about the key: with a canonical namespace, any namespace becomes that one. */
  lemma ScopedKey(s: Scope, obj: Fields)
    ensures var p := KeyParts(obj);
            KeyParts(Scoped(s, obj)) == [p[0], p[1], if p[2] == "" || s.namespace == "" then p[2] else s.namespace, p[3]]
  {
    ScopedTexts(s, obj);
    hide Scoped;
    hide TextAt;
  }

  lemma ScopedTexts(s: Scope, obj: Fields)
    ensures var t := Texts(obj);
            Texts(Scoped(s, obj)) == (t.0, t.1, if t.2 == "" || s.namespace == "" then t.2 else s.namespace, t.3)
  {
    hide StripLabels;
    hide MoveObject;
    hide MoveSubjects;
    var bare := StripLabels(s, obj);
    StripKeepsTexts(s, obj);
    assert Texts(bare) == Texts(obj);
    if s.namespace != "" {
      MoveObjectTexts(s.namespace, bare);
      MoveSubjectsKeepsTexts(s.namespace, MoveObject(s.namespace, bare));
      assert Texts(Scoped(s, obj)) == Texts(MoveObject(s.namespace, bare));
    }
  }

  /** Only objects of the compared kinds are left, all of them if none are given, and none of these is overlooked. */
  lemma NarrowsKinds(s: Scope, objs: ObjectSet, out: ObjectSet)
    requires Narrows(s, objs, out)
    ensures forall k :: k in out ==> s.kinds == [] || TextAt(out[k], ["kind"]) in s.kinds
    ensures forall k :: k in objs && (s.kinds == [] || TextAt(objs[k], ["kind"]) in s.kinds) ==> KeyOf(Scoped(s, objs[k])) in out
  {
    hide Scoped;
    hide KeyOf;
    forall k | k in out ensures s.kinds == [] || TextAt(out[k], ["kind"]) in s.kinds {
      var j :| j in objs && Compares(s, objs[j]) && KeyOf(out[k]) == k && out[k] == Scoped(s, objs[j]);
      ScopedTexts(s, objs[j]);
    }
  }

  /** Two objects share a key exactly if group, kind, namespace and name agree, whatever their versions. */
  lemma KeyAgrees(a: Fields, b: Fields)
    requires AllFree(KeyParts(a), '/')
    requires Manifests.WellFormed(TextAt(a, ["apiVersion"])) && Manifests.WellFormed(TextAt(b, ["apiVersion"]))
    ensures KeyOf(a) == KeyOf(b) <==>
            && Manifests.ParseGroupVersion(TextAt(a, ["apiVersion"])).value.group
               == Manifests.ParseGroupVersion(TextAt(b, ["apiVersion"])).value.group
            && TextAt(a, ["kind"]) == TextAt(b, ["kind"])
            && TextAt(a, ["metadata", "namespace"]) == TextAt(b, ["metadata", "namespace"])
            && TextAt(a, ["metadata", "name"]) == TextAt(b, ["metadata", "name"])
  {
    hide TextAt;
    hide Join;
    hide Manifests.ParseGroupVersion;
    SameKeyIff(KeyParts(a), KeyParts(b));
  }

  // --------------------------------------------------------------- What gets lost

  ghost function InScope(s: Scope, objs: ObjectSet): set<string> {
    set k | k in objs && Compares(s, objs[k])
  }

  /** Objects are filed under their own keys, whose parts are free of slashes. */
  ghost predicate Keyed(objs: ObjectSet) {
    forall k :: k in objs ==> KeyOf(objs[k]) == k && AllFree(KeyParts(objs[k]), '/')
  }

  /** Two objects that one canonical namespace throws together. */
  predicate Collide(s: Scope, a: Fields, b: Fields) {
    var p, q := KeyParts(a), KeyParts(b);
    s.namespace != "" && p[0] == q[0] && p[1] == q[1] && p[3] == q[3] && p[2] != "" && q[2] != ""
  }

  lemma SameKeyIff(a: seq<string>, b: seq<string>)
    requires |a| == 4 && |b| == 4 && AllFree(a, '/')
    ensures Join(a, '/') == Join(b, '/') <==> a[0] == b[0] && a[1] == b[1] && a[2] == b[2] && a[3] == b[3]
  {
    JoinInjective(a, b, '/');
    assert a == b <==> a[0] == b[0] && a[1] == b[1] && a[2] == b[2] && a[3] == b[3];
  }

  /** Two objects with different keys get the same key exactly if they collide. */
  lemma CollideIff(s: Scope, a: Fields, b: Fields)
    requires AllFree(KeyParts(a), '/') && AllFree(KeyParts(b), '/') && KeyOf(a) != KeyOf(b) && Free(s.namespace, '/')
    ensures KeyOf(Scoped(s, a)) == KeyOf(Scoped(s, b)) <==> Collide(s, a, b)
  {
    hide Scoped;
    hide KeyParts;
    ScopedKey(s, a);
    ScopedKey(s, b);
    var p, q := KeyParts(a), KeyParts(b);
    var p', q' := KeyParts(Scoped(s, a)), KeyParts(Scoped(s, b));
    assert |p| == 4 && |q| == 4 by { PartCount(a); PartCount(b); }
    forall i | 0 <= i < 4 ensures Free(p'[i], '/') { assert p'[i] == p[i] || p'[i] == s.namespace; }
    SameKeyIff(p, q);
    SameKeyIff(p', q');
  }

  lemma PartCount(obj: Fields)
    ensures |KeyParts(obj)| == 4
  {
  }

  /** As many new keys as objects exactly if no two objects get the same. */
  lemma {:induction false} ImageSize(s: set<string>, f: string -> string)
    ensures |set k | k in s :: f(k)| <= |s|
    ensures |set k | k in s :: f(k)| == |s| <==> forall j, k :: j in s && k in s && j != k ==> f(j) != f(k)
  {
    if s != {} {
      var x :| x in s;
      var rest := s - {x};
      var image, whole := set k | k in rest :: f(k), set k | k in s :: f(k);
      ImageSize(rest, f);
      assert whole == image + {f(x)};
      if f(x) in image {
        var k :| k in rest && f(k) == f(x);
        assert whole == image && k in s && x in s;
      } else {
        assert forall k :: k in rest ==> f(k) in image;
      }
    }
  }

  /**
    Narrowing keeps every compared object exactly if no two of them agree on group, kind and name
    while both have a namespace. Otherwise it drops one of the two, and with it any drift in it.
   */
  lemma NothingLostIff(s: Scope, objs: ObjectSet, out: ObjectSet)
    requires Narrows(s, objs, out) && Keyed(objs) && Free(s.namespace, '/')
    ensures |out| <= |InScope(s, objs)|
    ensures |out| == |InScope(s, objs)| <==>
            forall j, k :: j in InScope(s, objs) && k in InScope(s, objs) && j != k ==> !Collide(s, objs[j], objs[k])
  {
    hide Scoped;
    hide KeyOf;
    hide KeyParts;
    hide Collide;
    hide Compares;
    var scope := InScope(s, objs);
    var f := k => if k in objs then KeyOf(Scoped(s, objs[k])) else "";
    ImageSize(scope, f);
    forall k' ensures k' in out.Keys <==> k' in (set k | k in scope :: f(k)) {
      if k' in out {
        var k :| k in objs && Compares(s, objs[k]) && KeyOf(out[k']) == k' && out[k'] == Scoped(s, objs[k]);
        assert k in scope && f(k) == k';
      }
    }
    assert out.Keys == set k | k in scope :: f(k);
    assert |out| == |out.Keys|;
    forall j, k | j in scope && k in scope && j != k ensures f(j) == f(k) <==> Collide(s, objs[j], objs[k]) {
      CollideIff(s, objs[j], objs[k]);
    }
  }

  // ------------------------------------------------------------------- A witness

  function Placed(ns: string): Fields {
    map["apiVersion" := Str("v1"), "kind" := Str("ConfigMap"), "metadata" := Map(map["name" := Str("c"), "namespace" := Str(ns)])]
  }

  lemma PlacedTexts(ns: string)
    ensures TextAt(Placed(ns), NAMESPACE) == ns && NestedSlice(Placed(ns), ["subjects"]) == Missing
  {
    ReadTwo(Placed(ns), "metadata", "namespace");
    ReadOne(Placed(ns), "subjects");
  }

  lemma PlacedScoped(ns: string, to: string)
    requires ns != "" && to != ""
    ensures Scoped(Scope([], {}, to), Placed(ns)) == Placed(to)
  {
    PlacedTexts(ns);
    PlacedTexts(to);
    var path, f := NAMESPACE, map["name" := Str("c"), "namespace" := Str(ns)];
    assert path[0] == "metadata" && path[1..] == ["namespace"];
    assert f["namespace" := Str(to)] == map["name" := Str("c"), "namespace" := Str(to)];
    assert SetNested(f, ["namespace"], Str(to)) == Some(f["namespace" := Str(to)]);
    assert Placed(ns)["metadata" := Map(f["namespace" := Str(to)])] == Placed(to);
    assert SetNested(Placed(ns), path, Str(to)) == Some(Placed(to));
    assert MoveObject(to, Placed(ns)) == Placed(to);
    assert MoveSubjects(to, Placed(to)) == Placed(to);
  }

  lemma PlacedKey(ns: string)
    ensures KeyParts(Placed(ns)) == ["", "ConfigMap", ns, "c"]
  {
    var obj := Placed(ns);
    PlacedTexts(ns);
    ReadOne(obj, "apiVersion");
    ReadOne(obj, "kind");
    ReadTwo(obj, "metadata", "name");
    SplitFree("v1", '/');
  }

  lemma TwoKeys(x: string, y: string)
    requires x != y && Free(x, '/') && Free(y, '/')
    ensures KeyOf(Placed(x)) != KeyOf(Placed(y))
  {
    hide KeyParts;
    PlacedKey(x);
    PlacedKey(y);
    SameKeyIff(["", "ConfigMap", x, "c"], ["", "ConfigMap", y, "c"]);
  }

  /** Sets whose compared objects all become `to` narrow to that object alone. */
  lemma NarrowsToOne(s: Scope, objs: ObjectSet, out: ObjectSet, to: Fields)
    requires Narrows(s, objs, out) && s.kinds == [] && objs != map[]
    requires forall k :: k in objs ==> Scoped(s, objs[k]) == to
    ensures out == map[KeyOf(to) := to]
  {
    hide Scoped;
    hide KeyOf;
    var k :| k in objs;
    assert Compares(s, objs[k]) && KeyOf(to) in out;
  }

  /** Whatever the walks do, the scoped comparison of the two sets is clean. */
  ghost predicate Clean(s: Scope, golden: ObjectSet, op: ObjectSet) {
    forall g, o, r :: Narrows(s, golden, g) && Narrows(s, op, o) && Faithful(r, g, o) ==> r.Equal()
  }

  lemma CleanWhenOne(s: Scope, golden: ObjectSet, op: ObjectSet, to: Fields)
    requires s.kinds == [] && golden != map[] && op != map[]
    requires forall k :: k in golden ==> Scoped(s, golden[k]) == to
    requires forall k :: k in op ==> Scoped(s, op[k]) == to
    ensures Clean(s, golden, op)
  {
    hide Scoped;
    hide KeyOf;
    hide Narrows;
    hide Faithful;
    forall g, o, r | Narrows(s, golden, g) && Narrows(s, op, o) && Faithful(r, g, o) ensures r.Equal() {
      NarrowsToOne(s, golden, g, to);
      NarrowsToOne(s, op, o, to);
      EqualIff(r, g, o);
    }
  }

  lemma TwoIntoOne(s: Scope, x: Fields, y: Fields, to: Fields) returns (golden: ObjectSet, op: ObjectSet)
    requires s.kinds == [] && KeyOf(x) != KeyOf(y) && Scoped(s, x) == to && Scoped(s, y) == to
    ensures |golden| == 2 && |op| == 1 && op.Keys <= golden.Keys && Clean(s, golden, op)
    ensures forall k :: k in golden ==> KeyOf(golden[k]) == k
  {
    hide Scoped;
    hide KeyOf;
    hide Clean;
    golden := map[KeyOf(x) := x, KeyOf(y) := y];
    op := map[KeyOf(x) := x];
    assert golden.Keys == {KeyOf(x), KeyOf(y)} && op.Keys == {KeyOf(x)};
    assert |golden.Keys| == 2 && |op.Keys| == 1;
    CleanWhenOne(s, golden, op, to);
  }

  /** Hidden drift exists: the operator leaves one of two objects out, and the scoped report is clean. */
  lemma HiddenDrift() returns (s: Scope, golden: ObjectSet, op: ObjectSet)
    ensures |golden| == 2 && |op| == 1 && op.Keys <= golden.Keys && Clean(s, golden, op)
    ensures forall k :: k in golden ==> KeyOf(golden[k]) == k
  {
    hide Scoped;
    hide KeyOf;
    hide Clean;
    hide Placed;
    s := Scope([], {}, "canon");
    TwoKeys("x", "y");
    PlacedScoped("x", "canon");
    PlacedScoped("y", "canon");
    golden, op := TwoIntoOne(s, Placed("x"), Placed("y"), Placed("canon"));
  }
}

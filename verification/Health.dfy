/** Health grading of a live object. */
module Grading {
  import opened Trees
  import opened Manifests

  function IntAt(view: Fields, path: seq<string>): Option<int> {
    match NestedInt(view, path)
    case BadPath => None
    case Missing => Some(0)
    case Present(v) => Some(v.n)
  }

  function ReplicaHealth(view: Fields): (h: Health)
    ensures h == Healthy || h == Progressing
  {
    var replicas := IntAt(view, ["spec", "replicas"]);
    var available := IntAt(view, ["status", "availableReplicas"]);
    if replicas.Some? && available.Some? && available.value >= replicas.value then Healthy else Progressing
  }

  predicate Established(c: Json) {
    c.Map? && "type" in c.fields && "status" in c.fields
    && c.fields["type"] == Str("Established") && c.fields["status"] == Str("True")
  }

  function CrdHealth(view: Fields): (h: Health)
    ensures h == Healthy || h == Progressing
  {
    var conds := NestedSlice(view, ["status", "conditions"]);
    if conds.Present? && exists i :: 0 <= i < |conds.value.items| && Established(conds.value.items[i])
    then Healthy else Progressing
  }

  /** A graded object is never Degraded nor Unknown: those two come from the applier alone. */
  function ComputeHealth(kind: string, view: Fields): (h: Health)
    ensures h == Healthy || h == Progressing
  {
    if kind == "Deployment" || kind == "StatefulSet" then ReplicaHealth(view)
    else if kind == CRD then CrdHealth(view)
    else Healthy
  }

  /** `crdHealth`: walks the conditions up to the first that says Established. */
  method GradeCrd(view: Fields) returns (h: Health)
    ensures h == CrdHealth(view)
  {
    var conds := NestedSlice(view, ["status", "conditions"]);
    if !conds.Present? { return Progressing; }
    var cs := conds.value.items;
    for i := 0 to |cs|
      invariant forall k :: 0 <= k < i ==> !Established(cs[k])
    {
      if !cs[i].Map? { continue; }
      if Established(cs[i]) { return Healthy; }
    }
    return Progressing;
  }

  /** A read that counts as `n`: a number, or nothing at all for zero. */
  ghost predicate CountsAs(r: Lookup, n: int) { (r.Missing? && n == 0) || r == Present(Num(n)) }

  lemma IntAtCounts(view: Fields, path: seq<string>, n: int)
    ensures CountsAs(Nested(Map(view), path), n) <==> IntAt(view, path) == Some(n)
  {
    hide Nested;
  }

  lemma ReplicaMeaning(view: Fields)
    ensures var asked := Nested(Map(view), ["spec", "replicas"]);
            var up := Nested(Map(view), ["status", "availableReplicas"]);
            ReplicaHealth(view) == Healthy <==> exists a, b :: CountsAs(asked, a) && CountsAs(up, b) && a <= b
  {
    hide Nested;
    hide IntAt;
    hide CountsAs;
    var p, q := ["spec", "replicas"], ["status", "availableReplicas"];
    var asked, up := Nested(Map(view), p), Nested(Map(view), q);
    if ReplicaHealth(view) == Healthy {
      var a, b := IntAt(view, p).value, IntAt(view, q).value;
      IntAtCounts(view, p, a);
      IntAtCounts(view, q, b);
      assert CountsAs(asked, a) && CountsAs(up, b) && a <= b;
    }
    if a, b :| CountsAs(asked, a) && CountsAs(up, b) && a <= b {
      IntAtCounts(view, p, a);
      IntAtCounts(view, q, b);
    }
  }

  /** What the list item `i` says of a CRD: a condition of type Established with status True. */
  lemma EstablishedMeaning(c: Json)
    ensures Established(c) <==>
            c.Map? && Nested(c, ["type"]) == Present(Str("Established")) && Nested(c, ["status"]) == Present(Str("True"))
  {
    if c.Map? {
      ReadOne(c.fields, "type");
      ReadOne(c.fields, "status");
    }
  }

  lemma CrdMeaning(view: Fields)
    ensures var conds := Nested(Map(view), ["status", "conditions"]);
            CrdHealth(view) == Healthy <==>
              && conds.Present? && conds.value.List?
              && exists i :: 0 <= i < |conds.value.items|
                   && conds.value.items[i].Map?
                   && Nested(conds.value.items[i], ["type"]) == Present(Str("Established"))
                   && Nested(conds.value.items[i], ["status"]) == Present(Str("True"))
  {
    hide Nested;
    hide Established;
    var conds := Nested(Map(view), ["status", "conditions"]);
    if conds.Present? && conds.value.List? {
      var items := conds.value.items;
      if i :| 0 <= i < |items| && Established(items[i]) { EstablishedMeaning(items[i]); }
      if i :| 0 <= i < |items| && items[i].Map?
              && Nested(items[i], ["type"]) == Present(Str("Established"))
              && Nested(items[i], ["status"]) == Present(Str("True"))
      {
        EstablishedMeaning(items[i]);
      }
    }
  }

  /** Exactly when an object is Healthy, by what is read of it. */
  lemma GradeMeaning(kind: string, view: Fields)
    ensures kind == "Deployment" || kind == "StatefulSet" ==>
              var asked := Nested(Map(view), ["spec", "replicas"]);
              var up := Nested(Map(view), ["status", "availableReplicas"]);
              (ComputeHealth(kind, view) == Healthy <==> exists a, b :: CountsAs(asked, a) && CountsAs(up, b) && a <= b)
    ensures kind == "CustomResourceDefinition" ==>
              var conds := Nested(Map(view), ["status", "conditions"]);
              (ComputeHealth(kind, view) == Healthy <==>
                 && conds.Present? && conds.value.List?
                 && exists i :: 0 <= i < |conds.value.items|
                      && conds.value.items[i].Map?
                      && Nested(conds.value.items[i], ["type"]) == Present(Str("Established"))
                      && Nested(conds.value.items[i], ["status"]) == Present(Str("True")))
    ensures kind != "Deployment" && kind != "StatefulSet" && kind != "CustomResourceDefinition" ==>
              ComputeHealth(kind, view) == Healthy
  {
    hide Nested;
    assert |"Deployment"| == 10 && |"StatefulSet"| == 11 && |CRD| == 24;
    hide CountsAs;
    ReplicaMeaning(view);
    hide ReplicaHealth;
    CrdMeaning(view);
    hide CrdHealth;
  }
}

/** Canonical forms for comparison: provenance labels stripped, nil values and empty maps pruned. */
module Normalizing {
  import opened Trees

  predicate IsEmpty(v: Json) { v == Null || v == Map(map[]) }

  /** `pruneEmpties`: map entries that prune to nothing go; list elements stay in place. */
  function Prune(v: Json): Json {
    match v
    case Map(f) => Map(map k | k in f && !IsEmpty(Prune(f[k])) :: Prune(f[k]))
    case List(xs) => List(seq(|xs|, i requires 0 <= i < |xs| => Prune(xs[i])))
    case _ => v
  }

  // --------------------------------------------- What pruning means, on its own

  /** A value that carries no information under a map: nil, or a map of such values only. */
  ghost predicate Vanishes(v: Json) {
    v.Null? || (v.Map? && forall k :: k in v.fields ==> Vanishes(v.fields[k]))
  }

  /** Equal up to map entries that vanish. */
  ghost predicate Equiv(a: Json, b: Json) {
    match (a, b)
    case (Map(f), Map(g)) =>
      && (forall k :: k in f && !Vanishes(f[k]) ==> k in g && Equiv(f[k], g[k]))
      && (forall k :: k in g && !Vanishes(g[k]) ==> k in f && !Vanishes(f[k]))
    case (List(xs), List(ys)) =>
      |xs| == |ys| && forall i :: 0 <= i < |xs| ==> Equiv(xs[i], ys[i])
    case _ => a == b
  }

  /** No map anywhere in the tree holds a nil or an empty map. */
  ghost predicate Compact(v: Json) {
    match v
    case Map(f) => forall k :: k in f ==> !IsEmpty(f[k]) && Compact(f[k])
    case List(xs) => forall i :: 0 <= i < |xs| ==> Compact(xs[i])
    case _ => true
  }

  lemma {:induction false} PruneVanishes(v: Json)
    ensures IsEmpty(Prune(v)) <==> Vanishes(v)
  {
    if v.Map? {
      var f := v.fields;
      forall k | k in f ensures IsEmpty(Prune(f[k])) <==> Vanishes(f[k]) { PruneVanishes(f[k]); }
      if Vanishes(v) {
        assert Prune(v).fields == map[];
      } else {
        var k :| k in f && !Vanishes(f[k]);
        assert k in Prune(v).fields;
      }
    }
  }

  lemma {:induction false} PruneCompact(v: Json)
    ensures Compact(Prune(v))
  {
    match v
    case Map(f) => forall k | k in f { PruneCompact(f[k]); }
    case List(xs) => forall i | 0 <= i < |xs| { PruneCompact(xs[i]); }
    case _ =>
  }

  lemma {:induction false} PruneFixesCompact(v: Json)
    requires Compact(v)
    ensures Prune(v) == v
  {
    match v
    case Map(f) =>
      forall k | k in f ensures Prune(f[k]) == f[k] { PruneFixesCompact(f[k]); }
      assert Prune(v).fields == f;
    case List(xs) =>
      forall i | 0 <= i < |xs| ensures Prune(xs[i]) == xs[i] { PruneFixesCompact(xs[i]); }
      assert Prune(v).items == xs;
    case _ =>
  }

  /** Pruned forms agree exactly on trees that are equal up to vanishing entries. */
  lemma {:induction false} PruneDecidesEquiv(a: Json, b: Json)
    ensures Prune(a) == Prune(b) <==> Equiv(a, b)
  {
    match (a, b)
    case (Map(f), Map(g)) =>
      var p, q := Prune(a).fields, Prune(b).fields;
      forall k | k in f ensures k in p <==> !Vanishes(f[k]) { PruneVanishes(f[k]); }
      forall k | k in g ensures k in q <==> !Vanishes(g[k]) { PruneVanishes(g[k]); }
      forall k | k in f && k in g ensures Prune(f[k]) == Prune(g[k]) <==> Equiv(f[k], g[k]) {
        PruneDecidesEquiv(f[k], g[k]);
      }
      MapsAgree(f, g, p, q);
    case (List(xs), List(ys)) =>
      if |xs| == |ys| {
        forall i | 0 <= i < |xs| ensures Prune(xs[i]) == Prune(ys[i]) <==> Equiv(xs[i], ys[i]) {
          PruneDecidesEquiv(xs[i], ys[i]);
        }
        var p, q := Prune(a).items, Prune(b).items;
        if Equiv(a, b) { assert p == q; }
        if p == q {
          forall i | 0 <= i < |xs| ensures Equiv(xs[i], ys[i]) { assert p[i] == q[i]; }
        }
      } else {
        assert |Prune(a).items| != |Prune(b).items|;
      }
    case _ =>
  }

  lemma MapsAgree(f: Fields, g: Fields, p: Fields, q: Fields)
    requires p == Prune(Map(f)).fields && q == Prune(Map(g)).fields
    requires forall k :: k in f ==> (k in p <==> !Vanishes(f[k]))
    requires forall k :: k in g ==> (k in q <==> !Vanishes(g[k]))
    requires forall k :: k in f && k in g ==> (Prune(f[k]) == Prune(g[k]) <==> Equiv(f[k], g[k]))
    ensures p == q <==> Equiv(Map(f), Map(g))
  {
    if p == q {
      forall k | k in f && !Vanishes(f[k]) ensures k in g && Equiv(f[k], g[k]) {
        assert k in p && k in q;
        assert p[k] == q[k];
      }
      forall k | k in g && !Vanishes(g[k]) ensures k in f && !Vanishes(f[k]) { assert k in q && k in p; }
    }
    if Equiv(Map(f), Map(g)) {
      forall k ensures k in p <==> k in q { }
      forall k | k in p ensures p[k] == q[k] { assert k in f && k in g; }
    }
  }

  // --------------------------------------------------------------- Allowlist

  const ALLOWLISTED := {
    "helm.sh/chart", "helm.sh/resource-policy",
    "app.kubernetes.io/managed-by", "app.kubernetes.io/version", "app.kubernetes.io/instance",
    "dual-deployment-operator.cc.sap/origin", "dual-deployment-operator.cc.sap/owned-by"
  }
  const LABELS := ["metadata", "labels"]
  const ANNOTATIONS := ["metadata", "annotations"]

  /** `stripKeys`: drops the listed keys of a nested map, and the map itself once empty. */
  function StripKeys(obj: Fields, path: seq<string>, drop: set<string>): Fields
    requires path != []
  {
    var r := NestedMap(obj, path);
    if !r.Present? then obj
    else
      var m := r.value.fields - drop;
      if m == map[] then RemoveNested(obj, path)
      else match SetNested(obj, path, Map(m))
        case Some(out) => out
        case None => obj
  }

  function StripAllowlist(obj: Fields): Fields {
    StripKeys(StripKeys(obj, LABELS, ALLOWLISTED), ANNOTATIONS, ALLOWLISTED)
  }

  /** The form in which two objects are compared. */
  function Canonical(obj: Fields): Fields { Prune(Map(StripAllowlist(obj))).fields }

  /** After stripping, the map at `path` is gone or free of the listed keys. */
  ghost predicate Stripped(obj: Fields, path: seq<string>, drop: set<string>) {
    var r := NestedMap(obj, path);
    r.Present? ==> r.value.fields.Keys !! drop
  }

  lemma {:induction false} RemovedIsNotMap(f: Fields, path: seq<string>)
    requires path != []
    ensures !NestedMap(RemoveNested(f, path), path).Present?
    decreases |path|
  {
    var g := RemoveNested(f, path);
    if path[0] in g {
      assert Nested(Map(g), path) == Nested(g[path[0]], path[1..]);
      if |path| > 1 && f[path[0]].Map? {
        RemovedIsNotMap(f[path[0]].fields, path[1..]);
      }
    }
  }

  lemma StripKeysExact(obj: Fields, path: seq<string>, drop: set<string>, q: seq<string>)
    requires path != []
    ensures Stripped(StripKeys(obj, path, drop), path, drop)
    ensures !(q <= path) && !(path <= q) ==>
              Nested(Map(StripKeys(obj, path, drop)), q) == Nested(Map(obj), q)
  {
    var r := NestedMap(obj, path);
    if r.Present? {
      var m := r.value.fields - drop;
      if m == map[] {
        RemovedIsNotMap(obj, path);
        if !(q <= path) { RemoveNestedExact(obj, path, q); }
      } else {
        SetNestedExact(obj, path, Map(m), q);
      }
    }
  }

  /**
    What every read of a stripped object finds: below the path the listed keys are gone and the others
    as they were, and off the path nothing has changed.
   */
  lemma StripKeysReads(obj: Fields, path: seq<string>, drop: set<string>, q: seq<string>)
    requires path != [] && (q <= path ==> !NestedMap(obj, q).Present?)
    ensures Nested(Map(StripKeys(obj, path, drop)), q) ==
            if path < q && q[|path|] in drop && NestedMap(obj, path).Present? then Missing else Nested(Map(obj), q)
  {
    hide SetNested;
    hide RemoveNested;
    var r := NestedMap(obj, path);
    if q <= path {
      NestedAppend(Map(obj), q, path[|q|..]);
      assert q + path[|q|..] == path;
    } else if !(path <= q) {
      StripKeysExact(obj, path, drop, q);
    } else if r.Present? {
      var m, rest := r.value.fields - drop, q[|path|..];
      assert path + rest == q && rest[0] == q[|path|];
      NestedAppend(Map(obj), path, rest);
      assert forall k :: k in r.value.fields && k !in drop ==> k in m;
      if m == map[] {
        ParentIsMap(obj, path);
        RemoveNestedExact(obj, path, q);
      } else {
        SetNestedExact(obj, path, Map(m), []);
        NestedAppend(Map(StripKeys(obj, path, drop)), path, rest);
      }
    }
  }

  lemma ParentIsMap(f: Fields, path: seq<string>)
    requires path != [] && Nested(Map(f), path).Present?
    ensures NestedMap(f, path[..|path| - 1]).Present?
  {
    var n := |path| - 1;
    assert path[..n] + [path[n]] == path;
    NestedAppend(Map(f), path[..n], [path[n]]);
  }

  /** A read at or below an allowlisted label or annotation. */
  predicate Provenance(q: seq<string>) {
    |q| >= 3 && q[0] == "metadata" && (q[1] == "labels" || q[1] == "annotations") && q[2] in ALLOWLISTED
  }

  /** Only provenance is stripped: every other read finds what it found before. */
  lemma AllowlistReads(obj: Fields, q: seq<string>)
    requires q <= LABELS || q <= ANNOTATIONS ==> !NestedMap(obj, q).Present?
    ensures Nested(Map(StripAllowlist(obj)), q) ==
            if Provenance(q) && NestedMap(obj, q[..2]).Present? then Missing else Nested(Map(obj), q)
  {
    hide StripKeys;
    hide Nested;
    var first := StripKeys(obj, LABELS, ALLOWLISTED);
    assert LABELS[0] == ANNOTATIONS[0] == "metadata" && LABELS[1] == "labels" && ANNOTATIONS[1] == "annotations";
    StripKeysReads(obj, LABELS, ALLOWLISTED, q);
    StripKeysExact(obj, LABELS, ALLOWLISTED, ANNOTATIONS);
    if |q| >= 3 {
      assert LABELS < q ==> q[..2] == LABELS;
      assert ANNOTATIONS < q ==> q[..2] == ANNOTATIONS;
      assert q[0] == "metadata" && q[1] == "labels" ==> LABELS < q;
      assert q[0] == "metadata" && q[1] == "annotations" ==> ANNOTATIONS < q;
    }
    StripKeysReads(first, ANNOTATIONS, ALLOWLISTED, q);
  }

  /** A value that is compared as it is. */
  predicate IsScalar(v: Json) { v.Bool? || v.Num? || v.Str? }

  lemma {:induction false} PruneReads(v: Json, q: seq<string>)
    requires Nested(v, q).Present? && IsScalar(Nested(v, q).value)
    ensures Nested(Prune(v), q) == Nested(v, q)
    decreases |q|
  {
    if q != [] {
      PruneReads(v.fields[q[0]], q[1..]);
      var p := Prune(v.fields[q[0]]);
      assert !IsEmpty(p);
      assert Prune(v).fields[q[0]] == p;
    }
  }

  /** Drift is seen: two objects that differ in a value anywhere but in provenance have different canonical forms. */
  lemma DriftSeen(a: Fields, b: Fields, q: seq<string>)
    requires !Provenance(q) && Nested(Map(a), q).Present? && Nested(Map(b), q).Present?
    requires IsScalar(Nested(Map(a), q).value) && Nested(Map(b), q) != Nested(Map(a), q)
    requires IsScalar(Nested(Map(b), q).value)
    ensures Canonical(a) != Canonical(b)
  {
    hide StripAllowlist;
    AllowlistReads(a, q);
    AllowlistReads(b, q);
    PruneReads(Map(StripAllowlist(a)), q);
    PruneReads(Map(StripAllowlist(b)), q);
    assert Map(Canonical(a)) == Prune(Map(StripAllowlist(a))) && Map(Canonical(b)) == Prune(Map(StripAllowlist(b)));
  }

  lemma {:induction false} PruneKeepsPaths(v: Json, path: seq<string>)
    requires Nested(Prune(v), path).Present? && Nested(Prune(v), path).value.Map?
    ensures Nested(v, path).Present? && Nested(v, path).value.Map?
    ensures Nested(Prune(v), path).value.fields.Keys <= Nested(v, path).value.fields.Keys
    decreases |path|
  {
    if path != [] {
      assert v.Map? && path[0] in v.fields;
      assert Nested(Prune(v), path) == Nested(Prune(v.fields[path[0]]), path[1..]);
      PruneKeepsPaths(v.fields[path[0]], path[1..]);
    }
  }

  lemma {:induction false} CompactAt(v: Json, path: seq<string>)
    requires Compact(v) && path != [] && Nested(v, path).Present?
    ensures !IsEmpty(Nested(v, path).value)
    decreases |path|
  {
    assert v.Map? && path[0] in v.fields;
    assert Nested(v, path) == Nested(v.fields[path[0]], path[1..]);
    if |path| > 1 { CompactAt(v.fields[path[0]], path[1..]); }
  }

  /** Stripping an object that is stripped and compact changes nothing. */
  lemma {:induction false} StripKeysFixes(obj: Fields, path: seq<string>, drop: set<string>)
    requires path != [] && Compact(Map(obj)) && Stripped(obj, path, drop)
    ensures StripKeys(obj, path, drop) == obj
  {
    var r := NestedMap(obj, path);
    if r.Present? {
      var m := r.value.fields;
      assert m - drop == m;
      CompactAt(Map(obj), path);
      SetNestedSame(obj, path);
    }
  }

  lemma {:induction false} SetNestedSame(f: Fields, path: seq<string>)
    requires path != [] && NestedMap(f, path).Present?
    ensures SetNested(f, path, NestedMap(f, path).value) == Some(f)
    decreases |path|
  {
    assert Nested(Map(f), path) == Nested(f[path[0]], path[1..]);
    if |path| == 1 {
      assert f[path[0] := f[path[0]]] == f;
    } else {
      SetNestedSame(f[path[0]].fields, path[1..]);
      assert f[path[0] := f[path[0]]] == f;
    }
  }

  /** Canonical forms hold no nil and no empty map under any map, and no allowlisted label or annotation. */
  lemma CanonicalShape(obj: Fields)
    ensures Compact(Map(Canonical(obj)))
    ensures Stripped(Canonical(obj), LABELS, ALLOWLISTED) && Stripped(Canonical(obj), ANNOTATIONS, ALLOWLISTED)
  {
    var first := StripKeys(obj, LABELS, ALLOWLISTED);
    var both := StripAllowlist(obj);
    assert LABELS[1] != ANNOTATIONS[1];
    StripKeysExact(obj, LABELS, ALLOWLISTED, ANNOTATIONS);
    StripKeysExact(first, ANNOTATIONS, ALLOWLISTED, LABELS);
    PruneCompact(Map(both));
    CanonicalStripped(both, LABELS);
    CanonicalStripped(both, ANNOTATIONS);
  }

  lemma CanonicalStripped(obj: Fields, path: seq<string>)
    requires Stripped(obj, path, ALLOWLISTED)
    ensures Stripped(Prune(Map(obj)).fields, path, ALLOWLISTED)
  {
    if NestedMap(Prune(Map(obj)).fields, path).Present? {
      PruneKeepsPaths(Map(obj), path);
    }
  }

  /** Canonicalising twice is canonicalising once. */
  lemma CanonicalIdempotent(obj: Fields)
    ensures Canonical(Canonical(obj)) == Canonical(obj)
  {
    var c := Canonical(obj);
    CanonicalShape(obj);
    StripKeysFixes(c, LABELS, ALLOWLISTED);
    StripKeysFixes(c, ANNOTATIONS, ALLOWLISTED);
    PruneFixesCompact(Map(c));
  }

  // ------------------------------------------------ What equal forms mean, on its own

  /** A label or annotation map without its provenance. */
  ghost function BareField(k: string, v: Json): Json {
    if (k == "labels" || k == "annotations") && v.Map? then Map(v.fields - ALLOWLISTED) else v
  }

  /** The object with the allowlisted labels and annotations taken out, and nothing else. */
  ghost function Bare(obj: Fields): Fields {
    if "metadata" in obj && obj["metadata"].Map?
    then obj["metadata" := Map(map k | k in obj["metadata"].fields :: BareField(k, obj["metadata"].fields[k]))]
    else obj
  }

  /** What stripping one map of the metadata leaves of the metadata. */
  ghost function MetaWithout(md: Fields, k: string): Fields {
    if k in md && md[k].Map? then
      var m := md[k].fields - ALLOWLISTED;
      if m == map[] then md - {k} else md[k := Map(m)]
    else md
  }

  lemma StripMeta(obj: Fields, k: string)
    ensures StripKeys(obj, ["metadata", k], ALLOWLISTED) ==
            if "metadata" in obj && obj["metadata"].Map?
            then obj["metadata" := Map(MetaWithout(obj["metadata"].fields, k))] else obj
  {
    var path := ["metadata", k];
    assert path[1..] == [k];
    if "metadata" in obj {
      assert Nested(Map(obj), path) == Nested(obj["metadata"], [k]);
      if obj["metadata"].Map? {
        var md := obj["metadata"].fields;
        ReadOne(md, k);
        assert obj["metadata" := Map(md)] == obj;
        assert RemoveNested(md, [k]) == md - {k};
        if k in md && md[k].Map? {
          var m := Map(md[k].fields - ALLOWLISTED);
          assert SetNested(md, [k], m) == Some(md[k := m]);
        }
      }
    }
  }

  lemma EquivRefl(v: Json)
    ensures Equiv(v, v)
  {
    PruneDecidesEquiv(v, v);
  }

  lemma StrippedIsBare(obj: Fields)
    ensures Equiv(Map(StripAllowlist(obj)), Map(Bare(obj)))
  {
    hide StripKeys;
    hide Equiv;
    StripMeta(obj, "labels");
    if "metadata" in obj && obj["metadata"].Map? {
      var md := obj["metadata"].fields;
      var once := MetaWithout(md, "labels");
      var first := obj["metadata" := Map(once)];
      StripMeta(first, "annotations");
      var twice := MetaWithout(once, "annotations");
      Overwrite(obj, "metadata", Map(once), Map(twice));
      assert StripAllowlist(obj) == obj["metadata" := Map(twice)];
      MetaIsBare(md, twice);
      OneField(obj, "metadata", Map(twice), Bare(obj)["metadata"]);
    } else {
      StripMeta(obj, "annotations");
      EquivRefl(Map(obj));
    }
  }

  lemma MetaIsBare(md: Fields, twice: Fields)
    requires twice == MetaWithout(MetaWithout(md, "labels"), "annotations")
    ensures Equiv(Map(twice), Map(map k | k in md :: BareField(k, md[k])))
  {
    var bare: Fields := map k | k in md :: BareField(k, md[k]);
    forall k | k in md ensures k in twice ==> twice[k] == bare[k] { }
    forall k | k in md && k !in twice ensures Vanishes(bare[k]) { }
    forall k | k in twice ensures Equiv(twice[k], bare[k]) { EquivRefl(twice[k]); }
  }

  lemma OneField(f: Fields, k: string, v: Json, w: Json)
    requires Equiv(v, w) && (Vanishes(v) <==> Vanishes(w))
    ensures Equiv(Map(f[k := v]), Map(f[k := w]))
  {
    forall j | j in f ensures Equiv(f[j], f[j]) { EquivRefl(f[j]); }
  }

  /** Two objects have one canonical form exactly when, provenance taken out, they are equal up to vanishing entries. */
  lemma CanonicalDecides(a: Fields, b: Fields)
    ensures Canonical(a) == Canonical(b) <==> Equiv(Map(Bare(a)), Map(Bare(b)))
  {
    hide StripAllowlist;
    hide Bare;
    StrippedIsBare(a);
    StrippedIsBare(b);
    PruneDecidesEquiv(Map(StripAllowlist(a)), Map(Bare(a)));
    PruneDecidesEquiv(Map(StripAllowlist(b)), Map(Bare(b)));
    PruneDecidesEquiv(Map(Bare(a)), Map(Bare(b)));
    assert Map(Canonical(a)) == Prune(Map(StripAllowlist(a))) && Map(Canonical(b)) == Prune(Map(StripAllowlist(b)));
  }
}

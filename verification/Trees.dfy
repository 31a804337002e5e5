/**
  JSON-like object trees, and the nested accessors of the Kubernetes
  `unstructured` helpers that the operator uses on them.
 */
module Trees {

  datatype Json =
    | Null
    | Bool(b: bool)
    | Num(n: int)
    | Str(s: string)
    | List(items: seq<Json>)
    | Map(fields: Fields)

  type Fields = map<string, Json>

  datatype Option<+T> = None | Some(value: T)

  /** What a nested read finds: nothing, a value, or a non-map on the way. */
  datatype Lookup = Missing | Present(value: Json) | BadPath

  function Nested(v: Json, path: seq<string>): Lookup {
    if path == [] then Present(v)
    else match v
      case Null => Missing
      case Map(f) => if path[0] in f then Nested(f[path[0]], path[1..]) else Missing
      case _ => BadPath
  }

  /** Typed reads: a value of another type is an error. */
  function NestedSlice(f: Fields, path: seq<string>): (r: Lookup)
    ensures r.Present? ==> r.value.List?
  {
    var r := Nested(Map(f), path);
    if r.Present? && !r.value.List? then BadPath else r
  }

  function NestedMap(f: Fields, path: seq<string>): (r: Lookup)
    ensures r.Present? ==> r.value.Map?
  {
    var r := Nested(Map(f), path);
    if r.Present? && !r.value.Map? then BadPath else r
  }

  function NestedString(f: Fields, path: seq<string>): (r: Lookup)
    ensures r.Present? ==> r.value.Str?
  {
    var r := Nested(Map(f), path);
    if r.Present? && !r.value.Str? then BadPath else r
  }

  /** A text, or nothing where there is none. */
  function TextAt(f: Fields, path: seq<string>): string {
    match NestedString(f, path)
    case Present(v) => v.s
    case _ => ""
  }

  function NestedInt(f: Fields, path: seq<string>): (r: Lookup)
    ensures r.Present? ==> r.value.Num?
  {
    var r := Nested(Map(f), path);
    if r.Present? && !r.value.Num? then BadPath else r
  }

  /** Writes `v` at `path`, creating absent maps; None when a non-map is in the way. */
  function SetNested(f: Fields, path: seq<string>, v: Json): Option<Fields>
    requires path != []
    decreases |path|
  {
    if |path| == 1 then Some(f[path[0] := v])
    else if path[0] in f && !f[path[0]].Map? then None
    else
      var inner := if path[0] in f then f[path[0]].fields else map[];
      match SetNested(inner, path[1..], v)
      case Some(g) => Some(f[path[0] := Map(g)])
      case None => None
  }

  /** Deletes the last key of `path`; a missing or non-map step is a no-op. */
  function RemoveNested(f: Fields, path: seq<string>): Fields
    requires path != []
    decreases |path|
  {
    if |path| == 1 then f - {path[0]}
    else if path[0] in f && f[path[0]].Map? then
      f[path[0] := Map(RemoveNested(f[path[0]].fields, path[1..]))]
    else f
  }

  // ---------------------------------------------------------------- Laws

  lemma Overwrite(f: Fields, k: string, v: Json, w: Json)
    ensures f[k := v][k := w] == f[k := w]
  {
  }

  lemma ReadOne(f: Fields, k: string)
    ensures Nested(Map(f), [k]) == if k in f then Present(f[k]) else Missing
  {
    if k in f { assert Nested(Map(f), [k]) == Nested(f[k], []); }
  }

  /** A long read is a read of what a short one finds. */
  lemma {:induction false} NestedAppend(v: Json, p: seq<string>, q: seq<string>)
    ensures Nested(v, p + q) ==
            if Nested(v, p).Present? then Nested(Nested(v, p).value, q) else Nested(v, p)
    decreases |p|
  {
    if p == [] {
      assert p + q == q;
    } else {
      assert (p + q)[0] == p[0] && (p + q)[1..] == p[1..] + q;
      if v.Map? && p[0] in v.fields { NestedAppend(v.fields[p[0]], p[1..], q); }
    }
  }

  /** `q` lies at or below `p`. */
  predicate Under(p: seq<string>, q: seq<string>) { p <= q }

  /** Removal takes exactly the subtree at `path`: reads elsewhere are unchanged. */
  lemma {:induction false} RemoveNestedExact(f: Fields, path: seq<string>, q: seq<string>)
    requires path != [] && !(q < path)
    ensures !Under(path, q) ==>
              Nested(Map(RemoveNested(f, path)), q) == Nested(Map(f), q)
    ensures Under(path, q) && NestedMap(f, path[..|path| - 1]).Present? ==>
              Nested(Map(RemoveNested(f, path)), q) == Missing
    decreases |path|
  {
    assert q != [];
    if |path| == 1 {
      assert path <= q <==> path[0] == q[0];
    } else if path[0] == q[0] {
      var up := path[..|path| - 1];
      assert up[0] == path[0];
      if path[0] in f && f[path[0]].Map? {
        assert path[1..] <= q[1..] <==> path <= q;
        assert q[1..] < path[1..] <==> q < path;
        assert path[1..][..|path[1..]| - 1] == up[1..];
        RemoveNestedExact(f[path[0]].fields, path[1..], q[1..]);
      } else if path[0] in f {
        assert Nested(Map(f), up) == Nested(f[path[0]], up[1..]);
      }
    }
  }

  /** Where a map is present, writing a value there can be read back and disturbs no other branch. */
  lemma {:induction false} SetNestedExact(f: Fields, path: seq<string>, v: Json, q: seq<string>)
    requires path != [] && NestedMap(f, path).Present?
    ensures SetNested(f, path, v).Some?
    ensures Nested(Map(SetNested(f, path, v).value), path) == Present(v)
    ensures !(q <= path) && !(path <= q) ==>
              Nested(Map(SetNested(f, path, v).value), q) == Nested(Map(f), q)
    decreases |path|
  {
    assert path[0] in f;
    assert Nested(Map(f), path) == Nested(f[path[0]], path[1..]);
    if |path| == 1 {
      assert Nested(Map(f[path[0] := v]), path) == Nested(v, path[1..]);
      if q != [] && path[0] != q[0] {
        assert Nested(Map(f[path[0] := v]), q) == Nested(Map(f), q);
      } else if q != [] {
        assert path <= q;
      }
    } else {
      assert f[path[0]].Map?;
      var inner := f[path[0]].fields;
      if q != [] && q[0] == path[0] {
        assert q[1..] <= path[1..] ==> q <= path;
        assert path[1..] <= q[1..] ==> path <= q;
        SetNestedExact(inner, path[1..], v, q[1..]);
      } else {
        SetNestedExact(inner, path[1..], v, []);
      }
    }
  }

  /** The last write at a path wins. */
  lemma {:induction false} SetNestedTwice(f: Fields, path: seq<string>, v: Json, w: Json)
    requires path != [] && NestedMap(f, path).Present?
    ensures SetNested(f, path, v).Some?
    ensures SetNested(SetNested(f, path, v).value, path, w) == SetNested(f, path, w)
    decreases |path|
  {
    assert Nested(Map(f), path) == Nested(f[path[0]], path[1..]);
    if |path| == 1 {
      assert f[path[0] := v][path[0] := w] == f[path[0] := w];
    } else {
      var inner := f[path[0]].fields;
      SetNestedTwice(inner, path[1..], v, w);
      var g := SetNested(inner, path[1..], v).value;
      var w' := SetNested(inner, path[1..], w);
      if w'.Some? { Overwrite(f, path[0], Map(g), Map(w'.value)); }
    }
  }

  /** Removing a key of a nested map is writing the map back without it. */
  lemma {:induction false} RemoveNestedIsSet(f: Fields, path: seq<string>, k: string)
    requires path != []
    ensures NestedMap(f, path).Present? ==>
              Some(RemoveNested(f, path + [k]))
              == SetNested(f, path, Map(NestedMap(f, path).value.fields - {k}))
    ensures !NestedMap(f, path).Present? ==> RemoveNested(f, path + [k]) == f
    decreases |path|
  {
    var full := path + [k];
    assert full[1..] == path[1..] + [k];
    if path[0] in f {
      assert Nested(Map(f), path) == Nested(f[path[0]], path[1..]);
      if f[path[0]].Map? {
        var inner := f[path[0]].fields;
        if |path| == 1 {
          assert RemoveNested(inner, full[1..]) == inner - {k};
        } else {
          RemoveNestedIsSet(inner, path[1..], k);
          assert f[path[0] := f[path[0]]] == f;
        }
      }
    }
  }
}

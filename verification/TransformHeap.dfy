/**
  The transformations on the heap: none of them mutates the manifests it is given, and exactly some of
  the manifests it returns are the very ones it was given.
 */
module HeapTransforms {
  import opened Trees
  import opened HeapTrees
  import Manifests
  import Webhooks
  import Transforms

  // -------------------------------------------------------------------- Values

  function TextsAt(f: Fields, path: seq<string>): map<string, string> {
    match NestedMap(f, path)
    case Present(m) =>
      if forall k :: k in m.fields ==> m.fields[k].Str?
      then map k | k in m.fields :: m.fields[k].s else map[]
    case _ => map[]
  }

  /** A manifest by its tree: what the accessors read off it, and the tree itself. */
  function Decode(v: View): Manifests.Manifest {
    var f := v.0;
    Manifests.Manifest(
      TextAt(f, ["apiVersion"]), TextAt(f, ["kind"]), TextAt(f, ["metadata", "namespace"]), TextAt(f, ["metadata", "name"]),
      TextsAt(f, ["metadata", "labels"]), TextsAt(f, ["metadata", "annotations"]), v.1, f)
  }

  /** The tree of a manifest with nothing but its identity, labels and annotations. */
  ghost function Encode(m: Manifests.Manifest): Fields {
    map["apiVersion" := Str(m.apiVersion), "kind" := Str(m.kind),
        "metadata" := Map(map["namespace" := Str(m.ns), "name" := Str(m.name),
                              "labels" := Map(map k | k in m.labels :: Str(m.labels[k])),
                              "annotations" := Map(map k | k in m.annotations :: Str(m.annotations[k]))])]
  }

  /** Reading such a tree gives the manifest back. */
  lemma DecodeEncode(m: Manifests.Manifest)
    ensures Decode((Encode(m), m.origin)) == m.(body := Encode(m))
  {
    var f := Encode(m);
    var md := f["metadata"].fields;
    ReadOne(f, "apiVersion");
    ReadOne(f, "kind");
    forall k | k in md ensures Nested(Map(f), ["metadata", k]) == Present(md[k]) {
      assert ["metadata", k][1..] == [k];
      ReadOne(md, k);
    }
    assert "namespace" in md && "name" in md && "labels" in md && "annotations" in md;
    assert TextsAt(f, ["metadata", "labels"]) == m.labels;
    assert TextsAt(f, ["metadata", "annotations"]) == m.annotations;
  }

  /** What becomes of one manifest; `kept` says that it is handed on as the object it is. */
  datatype Outcome = Gone | Became(v: View, kept: bool) | Fails

  function AsOutcome(origin: string, r: Option<Fields>): Outcome {
    if r.Some? then Became((r.value, origin), false) else Fails
  }

  function OutcomeIn(t: Transforms.Transformation, v: View): Outcome {
    match t
    case Patch(p) =>
      if !p.matches(Decode(v)) then Became(v, true)
      else (match p.applyOne(Decode(v)) case Some(m) => Became((m.body, v.1), false) case None => Fails)
    case RewriteWebhookURL(prefix) => AsOutcome(v.1, Webhooks.Rewrite(TextAt(v.0, ["kind"]), v.0, prefix))
    case FilterKinds(f) => if Transforms.Dropped(f, Decode(v)) then Gone else Became(v, true)
  }

  /** After one more transformation. */
  function Then(o: Outcome, t: Transforms.Transformation): Outcome {
    match o
    case Became(v, kept) => (match OutcomeIn(t, v) case Became(w, still) => Became(w, kept && still) case x => x)
    case _ => o
  }

  function OutcomeOf(ts: seq<Transforms.Transformation>, v: View): Outcome {
    if ts == [] then Became(v, true) else Then(OutcomeOf(ts[..|ts| - 1], v), ts[|ts| - 1])
  }

  // ------------------------------------------------------------- One manifest

  /** The rewrite of one manifest: a deep copy is edited, never the manifest itself. */
  method RewriteOne(m: Manifest, prefix: string, ghost v: View, ghost r: set<Node>)
    returns (out: Option<Manifest>, ghost s: set<Node>)
    requires Shows(Ref(m.obj), Map(v.0), r) && m.origin == v.1
    ensures fresh(s) && (out.Some? <==> OutcomeIn(Transforms.RewriteWebhookURL(prefix), v).Became?)
    ensures out.Some? ==>
              var o := OutcomeIn(Transforms.RewriteWebhookURL(prefix), v);
              out.value.obj in s && Shows(Ref(out.value.obj), Map(o.v.0), s) && out.value.origin == o.v.1
  {
    var copy, t := Copy(Ref(m.obj), Map(v.0), r);
    var tree := ReadTree(copy, Map(v.0), t);
    var kind := TextAt(tree.fields, ["kind"]);
    var edited := Webhooks.Rewrite(kind, tree.fields, prefix);
    if Webhooks.IsWebhookKind(kind) { edited := Webhooks.RewriteWebhookList(kind, tree.fields, prefix); }
    if edited.None? { return None, {}; }
    s := Refill(copy.node, edited.value);
    out := Some(Manifest(copy.node, m.origin));
  }

  /** Writes an edited object into the map it was read from. */
  method Refill(n: Node, fields: Fields) returns (ghost s: set<Node>)
    modifies n
    ensures n in s && fresh(s - {n}) && Shows(Ref(n), Map(fields), s)
  {
    var g, u := BuildFields(fields);
    n.content := Obj(g);
    s := u + {n};
    forall k | k in fields ensures Shows(g[k], fields[k], s) { ShowsMore(g[k], fields[k], u, s); }
  }

  /** The patch of one manifest: marshalled, patched and read into a new object, unless it does not match. */
  method PatchOne(m: Manifest, p: Transforms.PatchSpec, ghost v: View, ghost r: set<Node>)
    returns (out: Option<Manifest>, ghost s: set<Node>)
    requires Shows(Ref(m.obj), Map(v.0), r) && m.origin == v.1
    ensures fresh(s) && (out.Some? <==> OutcomeIn(Transforms.Patch(p), v).Became?)
    ensures out.Some? ==>
              var o := OutcomeIn(Transforms.Patch(p), v);
              && out.value.origin == o.v.1
              && (if o.kept then out.value == m else out.value.obj in s && Shows(Ref(out.value.obj), Map(o.v.0), s))
  {
    var tree := ReadTree(Ref(m.obj), Map(v.0), r);
    var value := Decode((tree.fields, m.origin));
    if !p.matches(value) { return Some(m), {}; }
    var patched := p.applyOne(value);
    if patched.None? { return None, {}; }
    var c, t := Build(Map(patched.value.body));
    out, s := Some(Manifest(c.node, m.origin)), t;
  }

  // -------------------------------------------------------------------- Lists

  /** `out` is what becomes of `m`: the very object if kept, and otherwise an object all of whose nodes are in `s`. */
  ghost predicate Handed(o: Outcome, m: Manifest, out: Manifest, w: View, s: set<Node>)
    reads s
  {
    && o.Became? && o.v == w && out.origin == w.1
    && if o.kept then out == m else out.obj in s && Shows(Ref(out.obj), Map(w.0), s)
  }

  /** The outputs are, in input order, what becomes of each manifest that is not dropped. */
  ghost predicate Hands(ts: seq<Transforms.Transformation>, ms: seq<Manifest>, v: Views,
                        out: seq<Manifest>, w: Views, idx: seq<nat>, s: set<Node>)
    reads s
  {
    && |idx| == |out| == |w| && |ms| == |v|
    && (forall j, k :: 0 <= j < k < |idx| ==> idx[j] < idx[k])
    && (forall i: nat :: i in idx <==> i < |v| && OutcomeOf(ts, v[i]).Became?)
    && (forall k :: 0 <= k < |idx| ==> idx[k] < |v| && Handed(OutcomeOf(ts, v[idx[k]]), ms[idx[k]], out[k], w[k], s))
  }

  lemma Single(t: Transforms.Transformation, v: View)
    ensures OutcomeOf([t], v) == OutcomeIn(t, v)
  {
    assert [t][..0] == [];
  }

  lemma HandedMore(o: Outcome, m: Manifest, out: Manifest, w: View, s: set<Node>, u: set<Node>)
    requires Handed(o, m, out, w, s) && s <= u
    ensures Handed(o, m, out, w, u)
  {
    if !o.kept { ShowsMore(Ref(out.obj), Map(w.0), s, u); }
  }

  /** One transformation over a list; stops at the first manifest that fails. */
  method Apply(t: Transforms.Transformation, ms: seq<Manifest>, ghost v: Views, ghost r: set<Node>)
    returns (out: Option<seq<Manifest>>, ghost w: Views, ghost idx: seq<nat>, ghost s: set<Node>)
    requires Lists(ms, v, r)
    ensures Lists(ms, v, r) && fresh(s)
    ensures out.Some? <==> Transforms.Usable(t) && forall i :: 0 <= i < |v| ==> !OutcomeIn(t, v[i]).Fails?
    ensures out.Some? ==> Hands([t], ms, v, out.value, w, idx, s)
  {
    hide Shows;
    hide OutcomeIn;
    hide OutcomeOf;
    var acc: seq<Manifest> := [];
    w, idx, s := [], [], {};
    if t.Patch? && t.spec.strategicMerge == t.spec.jsonPatch { return None, w, idx, s; }
    for i := 0 to |ms|
      invariant fresh(s) && |idx| == |acc| == |w|
      invariant forall k :: 0 <= k < i ==> !OutcomeIn(t, v[k]).Fails?
      invariant forall j, k :: 0 <= j < k < |idx| ==> idx[j] < idx[k]
      invariant forall k: nat :: k in idx <==> k < i && OutcomeIn(t, v[k]).Became?
      invariant forall k :: 0 <= k < |idx| ==> idx[k] < i && Handed(OutcomeIn(t, v[idx[k]]), ms[idx[k]], acc[k], w[k], s)
    {
      var x, fails, u := ApplyOne(t, ms[i], v[i], r);
      if fails { return None, w, idx, s; }
      if x.Some? {
        ghost var all := s + u;
        forall k | 0 <= k < |idx| ensures Handed(OutcomeIn(t, v[idx[k]]), ms[idx[k]], acc[k], w[k], all) {
          HandedMore(OutcomeIn(t, v[idx[k]]), ms[idx[k]], acc[k], w[k], s, all);
        }
        HandedMore(OutcomeIn(t, v[i]), ms[i], x.value, OutcomeIn(t, v[i]).v, u, all);
        acc, w, idx, s := acc + [x.value], w + [OutcomeIn(t, v[i]).v], idx + [i], all;
      }
    }
    out := Some(acc);
    forall i | 0 <= i < |v| ensures OutcomeOf([t], v[i]) == OutcomeIn(t, v[i]) { Single(t, v[i]); }
  }

  method ApplyOne(t: Transforms.Transformation, m: Manifest, ghost v: View, ghost r: set<Node>)
    returns (out: Option<Manifest>, fails: bool, ghost s: set<Node>)
    requires Shows(Ref(m.obj), Map(v.0), r) && m.origin == v.1
    ensures fresh(s) && (fails <==> OutcomeIn(t, v).Fails?) && (out.Some? <==> OutcomeIn(t, v).Became?)
    ensures out.Some? ==> Handed(OutcomeIn(t, v), m, out.value, OutcomeIn(t, v).v, s)
  {
    hide Shows;
    s := {};
    match t {
      case FilterKinds(f) =>
        var tree := ReadTree(Ref(m.obj), Map(v.0), r);
        fails := false;
        out := if Transforms.Dropped(f, Decode((tree.fields, m.origin))) then None else Some(m);
      case RewriteWebhookURL(prefix) =>
        out, s := RewriteOne(m, prefix, v, r);
        fails := out.None?;
      case Patch(p) =>
        out, s := PatchOne(m, p, v, r);
        fails := out.None?;
    }
  }

  // ------------------------------------------------------------------ Pipeline

  lemma OneMore(ts: seq<Transforms.Transformation>, t: Transforms.Transformation, v: View)
    ensures OutcomeOf(ts + [t], v) == Then(OutcomeOf(ts, v), t)
  {
    assert (ts + [t])[..|ts|] == ts;
  }

  /** A manifest that is handed on as it is has not changed. */
  lemma {:induction false} KeptSame(ts: seq<Transforms.Transformation>, v: View)
    ensures OutcomeOf(ts, v).Became? && OutcomeOf(ts, v).kept ==> OutcomeOf(ts, v).v == v
  {
    if ts != [] { KeptSame(ts[..|ts| - 1], v); }
  }

  /** Outputs show their values, in nodes of the input or new ones. */
  lemma HandsLists(ts: seq<Transforms.Transformation>, ms: seq<Manifest>, v: Views, r: set<Node>,
                   out: seq<Manifest>, w: Views, idx: seq<nat>, s: set<Node>)
    requires Lists(ms, v, r) && Hands(ts, ms, v, out, w, idx, s)
    ensures Lists(out, w, r + s)
  {
    hide Shows;
    hide OutcomeOf;
    forall k | 0 <= k < |w| ensures Shows(Ref(out[k].obj), Map(w[k].0), r + s) {
      KeptSame(ts, v[idx[k]]);
      if OutcomeOf(ts, v[idx[k]]).kept {
        ShowsMore(Ref(out[k].obj), Map(w[k].0), r, r + s);
      } else {
        ShowsMore(Ref(out[k].obj), Map(w[k].0), s, r + s);
      }
    }
  }

  /** Positions picked among picked positions. */
  ghost function Through(idx: seq<nat>, picks: seq<nat>): seq<nat> {
    seq(|picks|, k requires 0 <= k < |picks| => if picks[k] < |idx| then idx[picks[k]] else 0)
  }

  lemma HandsOn(ts: seq<Transforms.Transformation>, t: Transforms.Transformation, ms: seq<Manifest>, v: Views,
                cur: seq<Manifest>, w: Views, idx: seq<nat>, s: set<Node>,
                out: seq<Manifest>, w2: Views, idx2: seq<nat>, s2: set<Node>)
    requires Hands(ts, ms, v, cur, w, idx, s) && Hands([t], cur, w, out, w2, idx2, s2)
    ensures Hands(ts + [t], ms, v, out, w2, Through(idx, idx2), s + s2)
  {
    hide Shows;
    hide OutcomeOf;
    HandsThrough(ts, t, ms, v, cur, w, idx, s, out, w2, idx2, s2, Through(idx, idx2));
  }

  lemma HandsThrough(ts: seq<Transforms.Transformation>, t: Transforms.Transformation, ms: seq<Manifest>, v: Views,
                     cur: seq<Manifest>, w: Views, idx: seq<nat>, s: set<Node>,
                     out: seq<Manifest>, w2: Views, idx2: seq<nat>, s2: set<Node>, idx3: seq<nat>)
    requires Hands(ts, ms, v, cur, w, idx, s) && Hands([t], cur, w, out, w2, idx2, s2)
    requires |idx3| == |idx2| && forall k :: 0 <= k < |idx2| ==> idx3[k] == idx[idx2[k]]
    ensures Hands(ts + [t], ms, v, out, w2, idx3, s + s2)
  {
    hide Shows;
    hide OutcomeIn;
    hide OutcomeOf;
    forall k | 0 <= k < |idx3| ensures idx3[k] < |v| && Handed(OutcomeOf(ts + [t], v[idx3[k]]), ms[idx3[k]], out[k], w2[k], s + s2) {
      HandedOn(ts, t, ms[idx3[k]], v[idx3[k]], cur[idx2[k]], w[idx2[k]], s, out[k], w2[k], s2);
    }
    forall i: nat ensures i in idx3 <==> i < |v| && OutcomeOf(ts + [t], v[i]).Became? {
      if i < |v| && OutcomeOf(ts + [t], v[i]).Became? {
        OneMore(ts, t, v[i]);
        assert i in idx;
        var j :| 0 <= j < |idx| && idx[j] == i;
        Single(t, w[j]);
        assert j in idx2;
        var k :| 0 <= k < |idx2| && idx2[k] == j;
        assert idx3[k] == i;
      }
      if i in idx3 {
        var k :| 0 <= k < |idx3| && idx3[k] == i;
        assert Handed(OutcomeOf(ts + [t], v[idx3[k]]), ms[idx3[k]], out[k], w2[k], s + s2);
      }
    }
  }

  lemma HandedOn(ts: seq<Transforms.Transformation>, t: Transforms.Transformation, m: Manifest, v: View,
                 cur: Manifest, w: View, s: set<Node>, out: Manifest, w2: View, s2: set<Node>)
    requires Handed(OutcomeOf(ts, v), m, cur, w, s) && Handed(OutcomeOf([t], w), cur, out, w2, s2)
    ensures Handed(OutcomeOf(ts + [t], v), m, out, w2, s + s2)
  {
    hide Shows;
    hide OutcomeIn;
    OneMore(ts, t, v);
    Single(t, w);
    KeptSame([t], w);
    HandedMore(OutcomeOf([t], w), cur, out, w2, s2, s + s2);
    HandedMore(OutcomeOf(ts, v), m, cur, w, s, s + s2);
  }

  lemma FailsOn(ts: seq<Transforms.Transformation>, n: nat, v: View)
    requires n <= |ts| && OutcomeOf(ts[..n], v).Fails?
    ensures OutcomeOf(ts, v).Fails?
    decreases |ts| - n
  {
    if n == |ts| {
      assert ts[..n] == ts;
    } else {
      assert ts[..n + 1] == ts[..n] + [ts[n]];
      OneMore(ts[..n], ts[n], v);
      FailsOn(ts, n + 1, v);
    }
  }

  /**
    The whole list of transformations over one render, on the heap. The input still stands for what
    it stood for. The output is, in input order, what becomes of each manifest alone. And an output
    is the very object of an input exactly if only filters and patches that do not match it were on
    its way; any other shares no node with the input.
   */
  method Run(ts: seq<Transforms.Transformation>, ms: seq<Manifest>, ghost v: Views, ghost r: set<Node>)
    returns (out: Option<seq<Manifest>>, ghost w: Views, ghost idx: seq<nat>, ghost s: set<Node>)
    requires Lists(ms, v, r)
    ensures Lists(ms, v, r) && fresh(s)
    ensures out.Some? <==> (forall t :: t in ts ==> Transforms.Usable(t)) && forall i :: 0 <= i < |v| ==> !OutcomeOf(ts, v[i]).Fails?
    ensures out.Some? ==> Hands(ts, ms, v, out.value, w, idx, s) && Lists(out.value, w, r + s)
    ensures out.Some? ==> |idx| == |out.value| && forall k :: 0 <= k < |idx| ==>
              && idx[k] < |v| && OutcomeOf(ts, v[idx[k]]).Became?
              && (out.value[k].obj in r <==> OutcomeOf(ts, v[idx[k]]).kept)
  {
    hide Shows;
    hide OutcomeIn;
    hide OutcomeOf;
    hide Hands;
    hide Lists;
    hide Transforms.Usable;
    var cur := ms;
    w, idx, s := v, seq(|v|, i => i), {};
    StartHands(ms, v, r, idx);
    for i := 0 to |ts|
      invariant fresh(s) && Lists(cur, w, r + s) && Hands(ts[..i], ms, v, cur, w, idx, s)
      invariant forall k :: 0 <= k < i ==> Transforms.Usable(ts[k])
      invariant forall k :: 0 <= k < |v| ==> !OutcomeOf(ts[..i], v[k]).Fails?
    {
      assert ts[..i + 1] == ts[..i] + [ts[i]];
      var next, w2, idx2, s2 := Apply(ts[i], cur, w, r + s);
      if next.None? {
        StepFails(ts, i, ms, v, cur, w, idx, s);
        return None, w, idx, s;
      }
      HandsOn(ts[..i], ts[i], ms, v, cur, w, idx, s, next.value, w2, idx2, s2);
      NoneFails(ts[..i], ts[i], ms, v, cur, w, idx, s);
      cur, w, idx, s := next.value, w2, Through(idx, idx2), s + s2;
      HandsLists(ts[..i + 1], ms, v, r, cur, w, idx, s);
    }
    assert ts[..|ts|] == ts;
    out := Some(cur);
    SharesExactly(ts, ms, v, r, cur, w, idx, s);
  }

  /** A transformation that cannot be used or fails on some manifest fails the whole list. */
  lemma StepFails(ts: seq<Transforms.Transformation>, i: nat, ms: seq<Manifest>, v: Views,
                  cur: seq<Manifest>, w: Views, idx: seq<nat>, s: set<Node>)
    requires i < |ts| && Hands(ts[..i], ms, v, cur, w, idx, s)
    requires !(Transforms.Usable(ts[i]) && forall j :: 0 <= j < |w| ==> !OutcomeIn(ts[i], w[j]).Fails?)
    ensures !(forall t :: t in ts ==> Transforms.Usable(t)) || exists k :: 0 <= k < |v| && OutcomeOf(ts, v[k]).Fails?
  {
    hide Hands;
    hide OutcomeIn;
    hide OutcomeOf;
    hide Transforms.Usable;
    assert ts[i] in ts;
    if Transforms.Usable(ts[i]) {
      var j :| 0 <= j < |w| && OutcomeIn(ts[i], w[j]).Fails?;
      var k := ElementFails(ts, i, ms, v, cur, w, idx, s, j);
      assert OutcomeOf(ts, v[k]).Fails?;
    }
  }

  lemma ElementFails(ts: seq<Transforms.Transformation>, i: nat, ms: seq<Manifest>, v: Views,
                     cur: seq<Manifest>, w: Views, idx: seq<nat>, s: set<Node>, j: nat) returns (k: nat)
    requires i < |ts| && Hands(ts[..i], ms, v, cur, w, idx, s) && j < |w| && OutcomeIn(ts[i], w[j]).Fails?
    ensures k < |v| && OutcomeOf(ts, v[k]).Fails?
  {
    hide Shows;
    hide OutcomeIn;
    hide OutcomeOf;
    k := idx[j];
    assert Handed(OutcomeOf(ts[..i], v[k]), ms[k], cur[j], w[j], s);
    OneMore(ts[..i], ts[i], v[k]);
    assert ts[..i + 1] == ts[..i] + [ts[i]];
    FailsOn(ts, i + 1, v[k]);
  }

  lemma SharesExactly(ts: seq<Transforms.Transformation>, ms: seq<Manifest>, v: Views, r: set<Node>,
                      out: seq<Manifest>, w: Views, idx: seq<nat>, s: set<Node>)
    requires Lists(ms, v, r) && Hands(ts, ms, v, out, w, idx, s) && s !! r
    ensures |idx| == |out| && forall k :: 0 <= k < |out| ==> idx[k] < |v| && OutcomeOf(ts, v[idx[k]]).Became?
    ensures forall k :: 0 <= k < |out| ==> (out[k].obj in r <==> OutcomeOf(ts, v[idx[k]]).kept)
  {
    hide Shows;
    hide OutcomeOf;
    forall k | 0 <= k < |out| ensures out[k].obj in r <==> OutcomeOf(ts, v[idx[k]]).kept {
      assert Handed(OutcomeOf(ts, v[idx[k]]), ms[idx[k]], out[k], w[k], s);
      RootIn(ms[idx[k]], v[idx[k]], r);
    }
  }

  lemma RootIn(m: Manifest, v: View, r: set<Node>)
    requires Shows(Ref(m.obj), Map(v.0), r)
    ensures m.obj in r
  {
  }

  lemma StartHands(ms: seq<Manifest>, v: Views, r: set<Node>, idx: seq<nat>)
    requires Lists(ms, v, r) && |idx| == |v| && forall i :: 0 <= i < |v| ==> idx[i] == i
    ensures Hands([], ms, v, ms, v, idx, {}) && r + {} == r
  {
    forall i: nat ensures i in idx <==> i < |v| {
      if i < |v| { assert idx[i] == i; }
    }
  }

  lemma NoneFails(ts: seq<Transforms.Transformation>, t: Transforms.Transformation, ms: seq<Manifest>, v: Views,
                  cur: seq<Manifest>, w: Views, idx: seq<nat>, s: set<Node>)
    requires Hands(ts, ms, v, cur, w, idx, s)
    requires forall k :: 0 <= k < |v| ==> !OutcomeOf(ts, v[k]).Fails?
    requires forall j :: 0 <= j < |w| ==> !OutcomeIn(t, w[j]).Fails?
    ensures forall k :: 0 <= k < |v| ==> !OutcomeOf(ts + [t], v[k]).Fails?
  {
    hide Shows;
    hide OutcomeIn;
    forall k | 0 <= k < |v| ensures !OutcomeOf(ts + [t], v[k]).Fails? {
      OneMore(ts, t, v[k]);
      if OutcomeOf(ts, v[k]).Became? {
        assert k in idx;
        var j :| 0 <= j < |idx| && idx[j] == k;
        assert Handed(OutcomeOf(ts, v[idx[j]]), ms[idx[j]], cur[j], w[j], s);
      }
    }
  }

  // ------------------------------------------------ The same as on values

  lemma ReadsAlike(f: Fields, g: Fields, path: seq<string>)
    requires path != [] && (path[0] in f <==> path[0] in g) && (path[0] in f ==> f[path[0]] == g[path[0]])
    ensures Nested(Map(f), path) == Nested(Map(g), path)
  {
  }

  lemma {:induction false} SetNestedBelow(f: Fields, path: seq<string>, v: Json)
    requires path != [] && SetNested(f, path, v).Some?
    ensures SetNested(f, path, v).value - {path[0]} == f - {path[0]}
  {
  }

  /** The rewrite leaves every top-level field alone but the webhooks and the spec. */
  lemma RewriteKeepsTop(kind: string, f: Fields, prefix: string, k: string)
    requires Webhooks.Rewrite(kind, f, prefix).Some? && k != "webhooks" && k != "spec"
    ensures var g := Webhooks.Rewrite(kind, f, prefix).value; (k in g <==> k in f) && (k in f ==> g[k] == f[k])
  {
    if kind == Webhooks.CRD {
      var cc := NestedMap(f, Webhooks.CONVERSION);
      if cc.Present? && Webhooks.ServiceBased(cc.value.fields) {
        var v := Map(Webhooks.RewriteConfig(cc.value.fields, prefix));
        if SetNested(f, Webhooks.CONVERSION, v).Some? {
          SetNestedBelow(f, Webhooks.CONVERSION, v);
          var g := SetNested(f, Webhooks.CONVERSION, v).value;
          assert k in g - {"spec"} <==> k in f - {"spec"};
        }
      }
    }
  }

  lemma DecodeAlike(f: Fields, g: Fields, origin: string)
    requires forall k :: k == "apiVersion" || k == "kind" || k == "metadata" ==> (k in g <==> k in f) && (k in f ==> g[k] == f[k])
    ensures Decode((g, origin)) == Decode((f, origin)).(body := g)
  {
    ReadsAlike(f, g, ["apiVersion"]);
    ReadsAlike(f, g, ["kind"]);
    ReadsAlike(f, g, ["metadata", "namespace"]);
    ReadsAlike(f, g, ["metadata", "name"]);
    ReadsAlike(f, g, ["metadata", "labels"]);
    ReadsAlike(f, g, ["metadata", "annotations"]);
  }

  /** What a patch returns is an object: its parts are those of its tree. */
  ghost predicate Objects(t: Transforms.Transformation) {
    t.Patch? ==> forall m :: t.spec.applyOne(m).Some? ==>
      var x := t.spec.applyOne(m).value; x.(origin := m.origin) == Decode((x.body, m.origin))
  }

  ghost predicate Agrees(fate: Transforms.Fate, o: Outcome) {
    match o
    case Gone => fate.Gone?
    case Fails => fate.Fails?
    case Became(v, _) => fate == Transforms.Became(Decode(v))
  }

  lemma InAgrees(t: Transforms.Transformation, v: View)
    requires Objects(t)
    ensures Agrees(Transforms.FateIn(t, Decode(v)), OutcomeIn(t, v))
  {
    if t.RewriteWebhookURL? {
      hide Webhooks.Rewrite;
      var kind := TextAt(v.0, ["kind"]);
      var r := Webhooks.Rewrite(kind, v.0, t.prefix);
      if r.Some? {
        forall k | k == "apiVersion" || k == "kind" || k == "metadata"
          ensures (k in r.value <==> k in v.0) && (k in v.0 ==> r.value[k] == v.0[k])
        {
          assert |"apiVersion"| == 10 && |"kind"| == 4 && |"metadata"| == 8 && |"webhooks"| == 8 && |"spec"| == 4;
          assert "metadata"[0] == 'm' && "webhooks"[0] == 'w' && "kind"[0] == 'k' && "spec"[0] == 's';
          RewriteKeepsTop(kind, v.0, t.prefix, k);
        }
        DecodeAlike(v.0, r.value, v.1);
      }
    }
  }

  lemma {:induction false} FateThen(ts: seq<Transforms.Transformation>, t: Transforms.Transformation, m: Manifests.Manifest)
    ensures Transforms.FateOf(ts + [t], m) ==
            match Transforms.FateOf(ts, m) case Became(x) => Transforms.FateIn(t, x) case f => f
    decreases |ts|
  {
    hide Transforms.FateIn;
    if ts == [] {
      assert [t][1..] == [];
    } else {
      assert (ts + [t])[1..] == ts[1..] + [t];
      if Transforms.FateIn(ts[0], m).Became? { FateThen(ts[1..], t, Transforms.FateIn(ts[0], m).m); }
    }
  }

  /** What becomes of a manifest on the heap is what becomes of its value. */
  lemma {:induction false} OutcomeAgrees(ts: seq<Transforms.Transformation>, v: View)
    requires forall t :: t in ts ==> Objects(t)
    ensures Agrees(Transforms.FateOf(ts, Decode(v)), OutcomeOf(ts, v))
  {
    hide OutcomeIn;
    hide Transforms.FateIn;
    hide Objects;
    hide Decode;
    if ts != [] {
      var n := |ts| - 1;
      var rest, t := ts[..n], ts[n];
      assert ts == rest + [t] && t in ts;
      OutcomeAgrees(rest, v);
      FateThen(rest, t, Decode(v));
      if OutcomeOf(rest, v).Became? { InAgrees(t, OutcomeOf(rest, v).v); }
    }
  }

  function DecodeAll(v: Views): seq<Manifests.Manifest> {
    seq(|v|, i requires 0 <= i < |v| => Decode(v[i]))
  }

  ghost predicate Increasing(a: seq<nat>) { forall j, k :: 0 <= j < k < |a| ==> a[j] < a[k] }

  /** An increasing sequence is determined by its members. */
  lemma {:induction false} IncreasingUnique(a: seq<nat>, b: seq<nat>)
    requires Increasing(a) && Increasing(b) && forall i: nat :: i in a <==> i in b
    ensures a == b
  {
    assert (a == [] || a[0] in a) && (b == [] || b[0] in b);
    if a != [] && b != [] {
      var m, n := |a| - 1, |b| - 1;
      assert a[m] in b && b[n] in a;
      assert a[m] == b[n];
      forall i: nat ensures i in a[..m] <==> i in b[..n] {
        assert i in a <==> i in a[..m] || i == a[m];
        assert i in b <==> i in b[..n] || i == b[n];
      }
      IncreasingUnique(a[..m], b[..n]);
      assert a == a[..m] + [a[m]] && b == b[..n] + [b[n]];
    }
  }

  /** The heap pipeline computes the pipeline on values, errors included. */
  lemma HeapComputes(ts: seq<Transforms.Transformation>, ms: seq<Manifest>, v: Views,
                     out: seq<Manifest>, w: Views, idx: seq<nat>, s: set<Node>)
    requires Hands(ts, ms, v, out, w, idx, s) && forall t :: t in ts ==> Objects(t) && Transforms.Usable(t)
    requires forall i :: 0 <= i < |v| ==> !OutcomeOf(ts, v[i]).Fails?
    ensures Transforms.RunAll(ts, DecodeAll(v)) == Some(DecodeAll(w))
  {
    hide Shows;
    hide OutcomeOf;
    hide Objects;
    hide Decode;
    hide Transforms.FateOf;
    hide Transforms.RunAll;
    var values := DecodeAll(v);
    var picks := Transforms.PipelinePointwise(ts, values);
    forall i | 0 <= i < |v| ensures Agrees(Transforms.FateOf(ts, values[i]), OutcomeOf(ts, v[i])) { OutcomeAgrees(ts, v[i]); }
    IncreasingUnique(picks, idx);
    var got := Transforms.RunAll(ts, values).value;
    forall k | 0 <= k < |idx| ensures got[k] == Decode(w[k]) {
      assert Handed(OutcomeOf(ts, v[idx[k]]), ms[idx[k]], out[k], w[k], s);
    }
    assert got == DecodeAll(w);
  }

  lemma HeapFails(ts: seq<Transforms.Transformation>, v: Views)
    requires forall t :: t in ts ==> Objects(t)
    ensures Transforms.RunAll(ts, DecodeAll(v)).Some? <==>
            (forall t :: t in ts ==> Transforms.Usable(t)) && forall i :: 0 <= i < |v| ==> !OutcomeOf(ts, v[i]).Fails?
  {
    hide OutcomeOf;
    hide Objects;
    hide Decode;
    hide Transforms.FateOf;
    hide Transforms.RunAll;
    hide Transforms.Usable;
    var values := DecodeAll(v);
    var _ := Transforms.PipelinePointwise(ts, values);
    forall i | 0 <= i < |v| ensures Agrees(Transforms.FateOf(ts, values[i]), OutcomeOf(ts, v[i])) { OutcomeAgrees(ts, v[i]); }
  }

  // ------------------------------------------------------ The contract that is broken

  /**
    Outputs are not always fresh: a filter that drops nothing hands the input object on, and an edit
    of the output then changes the input.
   */
  method AliasedOutput(v: View) returns (ms: seq<Manifest>, out: Option<seq<Manifest>>, ghost r: set<Node>)
    requires v.0 != map[]
    ensures fresh(r) && out.Some? && out.value == ms && !Lists(ms, [v], r)
  {
    var built, s := BuildManifests([v]);
    ms, r := built, s;
    var t := Transforms.FilterKinds(Transforms.FilterSpec([], ""));
    assert OutcomeIn(t, v) == Became(v, true);
    var filtered, w, idx, u := Apply(t, ms, [v], r);
    out := filtered;
    Single(t, v);
    assert 0 in idx && idx == [0] by { OnlyIndex(idx, [v], t); }
    assert Handed(OutcomeOf([t], v), ms[0], out.value[0], w[0], u);
    RootIn(ms[0], v, r);
    out.value[0].obj.content := Obj(map[]);
  }

  lemma OnlyIndex(idx: seq<nat>, v: Views, t: Transforms.Transformation)
    requires |v| == 1 && (forall i: nat :: i in idx <==> i < |v| && OutcomeOf([t], v[i]).Became?)
    requires OutcomeOf([t], v[0]).Became? && forall j, k :: 0 <= j < k < |idx| ==> idx[j] < idx[k]
    ensures idx == [0]
  {
    hide OutcomeOf;
    assert 0 in idx;
    assert |idx| < 2 || idx[0] < idx[1];
    forall k | 0 <= k < |idx| ensures idx[k] == 0 { assert idx[k] in idx; }
  }
}

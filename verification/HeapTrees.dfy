/**
  Object trees on the heap: nested maps and lists are nodes that may be shared and edited in place.
 */
module HeapTrees {
  import opened Trees

  // ------------------------------------------------------------ Trees on the heap

  type Leaf = v: Json | !v.Map? && !v.List? witness Null

  /** A value inside an object: a scalar, or a reference to a nested map or list. */
  datatype Cell = Scalar(v: Leaf) | Ref(node: Node)

  datatype Content = Obj(fields: map<string, Cell>) | Arr(items: seq<Cell>)

  /** A map or a list of an unstructured object, shared by whoever holds a reference to it. */
  class Node {
    var content: Content

    constructor (content: Content)
      ensures this.content == content
    {
      this.content := content;
    }
  }

  /** The cell stands for the tree `v`, all of it in nodes of `r`. */
  ghost predicate Shows(cell: Cell, v: Json, r: set<Node>)
    reads r
    decreases v
  {
    match v
    case Map(f) =>
      && cell.Ref? && cell.node in r && cell.node.content.Obj? && cell.node.content.fields.Keys == f.Keys
      && forall k :: k in f ==> Shows(cell.node.content.fields[k], f[k], r)
    case List(xs) =>
      && cell.Ref? && cell.node in r && cell.node.content.Arr? && |cell.node.content.items| == |xs|
      && forall i :: 0 <= i < |xs| ==> Shows(cell.node.content.items[i], xs[i], r)
    case _ => cell == Scalar(v)
  }

  lemma {:induction false} ShowsMore(cell: Cell, v: Json, r: set<Node>, s: set<Node>)
    requires Shows(cell, v, r) && r <= s
    ensures Shows(cell, v, s)
    decreases v
  {
    match v
    case Map(f) =>
      forall k | k in f ensures Shows(cell.node.content.fields[k], f[k], s) {
        ShowsMore(cell.node.content.fields[k], f[k], r, s);
      }
    case List(xs) =>
      forall i | 0 <= i < |xs| ensures Shows(cell.node.content.items[i], xs[i], s) {
        ShowsMore(cell.node.content.items[i], xs[i], r, s);
      }
    case _ =>
  }

  /** A cell stands for at most one tree. */
  lemma {:induction false} ShowsUnique(cell: Cell, v: Json, w: Json, r: set<Node>, s: set<Node>)
    requires Shows(cell, v, r) && Shows(cell, w, s)
    ensures v == w
    decreases v
  {
    match v
    case Map(f) =>
      assert w.Map?;
      forall k | k in f ensures f[k] == w.fields[k] {
        ShowsUnique(cell.node.content.fields[k], f[k], w.fields[k], r, s);
      }
      assert f == w.fields;
    case List(xs) =>
      assert w.List?;
      forall i | 0 <= i < |xs| ensures xs[i] == w.items[i] {
        ShowsUnique(cell.node.content.items[i], xs[i], w.items[i], r, s);
      }
      assert xs == w.items;
    case _ =>
  }

  function Kids(c: Content): set<Node> {
    match c
    case Obj(f) => set k | k in f && f[k].Ref? :: f[k].node
    case Arr(xs) => set i | 0 <= i < |xs| && xs[i].Ref? :: xs[i].node
  }

  /** Following references never leaves `s`. */
  ghost predicate Closed(s: set<Node>)
    reads s
  {
    forall n :: n in s ==> Kids(n.content) <= s
  }

  // -------------------------------------------------------------------- Copying

  /** `DeepCopy`: the same tree in nodes of its own, nested ones included. */
  method Copy(cell: Cell, ghost v: Json, ghost r: set<Node>) returns (out: Cell, ghost s: set<Node>)
    requires Shows(cell, v, r)
    ensures fresh(s) && Closed(s) && Shows(out, v, s)
    ensures (out.Ref? ==> out.node in s) && (v.Map? ==> out.Ref?)
    decreases v, 1
  {
    if cell.Scalar? { return cell, {}; }
    match cell.node.content {
      case Obj(f) =>
        var g, t := CopyFields(f, v.fields, r);
        var n := new Node(Obj(g));
        out, s := Ref(n), t + {n};
        forall k | k in v.fields ensures Shows(g[k], v.fields[k], s) { ShowsMore(g[k], v.fields[k], t, s); }
      case Arr(xs) =>
        var ys, t := CopyItems(xs, v.items, r);
        var n := new Node(Arr(ys));
        out, s := Ref(n), t + {n};
        forall i | 0 <= i < |v.items| ensures Shows(ys[i], v.items[i], s) { ShowsMore(ys[i], v.items[i], t, s); }
    }
  }

  method CopyFields(f: map<string, Cell>, ghost v: Fields, ghost r: set<Node>)
    returns (g: map<string, Cell>, ghost s: set<Node>)
    requires f.Keys == v.Keys && forall k :: k in v ==> Shows(f[k], v[k], r)
    ensures fresh(s) && Closed(s) && g.Keys == v.Keys && Kids(Obj(g)) <= s
    ensures forall k :: k in v ==> Shows(g[k], v[k], s)
    decreases Map(v), 0
  {
    g, s := map[], {};
    var todo := f.Keys;
    while todo != {}
      invariant todo <= v.Keys && g.Keys == v.Keys - todo
      invariant fresh(s) && Closed(s) && Kids(Obj(g)) <= s
      invariant forall k :: k in g ==> Shows(g[k], v[k], s)
      decreases |todo|
    {
      var k :| k in todo;
      var c, t := Copy(f[k], v[k], r);
      ghost var u := s + t;
      forall j | j in g ensures Shows(g[j], v[j], u) { ShowsMore(g[j], v[j], s, u); }
      ShowsMore(c, v[k], t, u);
      g, s, todo := g[k := c], u, todo - {k};
    }
  }

  method CopyItems(xs: seq<Cell>, ghost v: seq<Json>, ghost r: set<Node>) returns (ys: seq<Cell>, ghost s: set<Node>)
    requires |xs| == |v| && forall i :: 0 <= i < |v| ==> Shows(xs[i], v[i], r)
    ensures fresh(s) && Closed(s) && |ys| == |v| && Kids(Arr(ys)) <= s
    ensures forall i :: 0 <= i < |v| ==> Shows(ys[i], v[i], s)
    decreases List(v), 0
  {
    ys, s := [], {};
    for i := 0 to |xs|
      invariant |ys| == i && fresh(s) && Closed(s) && Kids(Arr(ys)) <= s
      invariant forall k :: 0 <= k < i ==> Shows(ys[k], v[k], s)
    {
      var c, t := Copy(xs[i], v[i], r);
      ghost var u := s + t;
      forall k | 0 <= k < i ensures Shows(ys[k], v[k], u) { ShowsMore(ys[k], v[k], s, u); }
      ShowsMore(c, v[i], t, u);
      ys, s := ys + [c], u;
    }
  }

  /** A parser or a template engine allocates the tree that it produces. */
  method Build(v: Json) returns (out: Cell, ghost s: set<Node>)
    ensures fresh(s) && Closed(s) && Shows(out, v, s)
    ensures (out.Ref? ==> out.node in s) && (v.Map? ==> out.Ref?)
    decreases v, 1
  {
    match v {
      case Map(f) =>
        var g, t := BuildFields(f);
        var n := new Node(Obj(g));
        out, s := Ref(n), t + {n};
        forall k | k in f ensures Shows(g[k], f[k], s) { ShowsMore(g[k], f[k], t, s); }
      case List(xs) =>
        var ys, t := BuildItems(xs);
        var n := new Node(Arr(ys));
        out, s := Ref(n), t + {n};
        forall i | 0 <= i < |xs| ensures Shows(ys[i], xs[i], s) { ShowsMore(ys[i], xs[i], t, s); }
      case _ => out, s := Scalar(v), {};
    }
  }

  method BuildFields(v: Fields) returns (g: map<string, Cell>, ghost s: set<Node>)
    ensures fresh(s) && Closed(s) && g.Keys == v.Keys && Kids(Obj(g)) <= s
    ensures forall k :: k in v ==> Shows(g[k], v[k], s)
    decreases Map(v), 0
  {
    g, s := map[], {};
    var todo := v.Keys;
    while todo != {}
      invariant todo <= v.Keys && g.Keys == v.Keys - todo
      invariant fresh(s) && Closed(s) && Kids(Obj(g)) <= s
      invariant forall k :: k in g ==> Shows(g[k], v[k], s)
      decreases |todo|
    {
      var k :| k in todo;
      var c, t := Build(v[k]);
      ghost var u := s + t;
      forall j | j in g ensures Shows(g[j], v[j], u) { ShowsMore(g[j], v[j], s, u); }
      ShowsMore(c, v[k], t, u);
      g, s, todo := g[k := c], u, todo - {k};
    }
  }

  method BuildItems(v: seq<Json>) returns (ys: seq<Cell>, ghost s: set<Node>)
    ensures fresh(s) && Closed(s) && |ys| == |v| && Kids(Arr(ys)) <= s
    ensures forall i :: 0 <= i < |v| ==> Shows(ys[i], v[i], s)
    decreases List(v), 0
  {
    ys, s := [], {};
    for i := 0 to |v|
      invariant |ys| == i && fresh(s) && Closed(s) && Kids(Arr(ys)) <= s
      invariant forall k :: 0 <= k < i ==> Shows(ys[k], v[k], s)
    {
      var c, t := Build(v[i]);
      ghost var u := s + t;
      forall k | 0 <= k < i ensures Shows(ys[k], v[k], u) { ShowsMore(ys[k], v[k], s, u); }
      ShowsMore(c, v[i], t, u);
      ys, s := ys + [c], u;
    }
  }

  /** Reads a tree off the heap, as marshalling it does. */
  method ReadTree(cell: Cell, ghost v: Json, ghost r: set<Node>) returns (out: Json)
    requires Shows(cell, v, r)
    ensures out == v
    decreases v, 1
  {
    if cell.Scalar? { return cell.v; }
    match cell.node.content {
      case Obj(f) =>
        var g := ReadFields(f, v.fields, r);
        out := Map(g);
      case Arr(xs) =>
        var ys := ReadItems(xs, v.items, r);
        out := List(ys);
    }
  }

  method ReadFields(f: map<string, Cell>, ghost v: Fields, ghost r: set<Node>) returns (g: Fields)
    requires f.Keys == v.Keys && forall k :: k in v ==> Shows(f[k], v[k], r)
    ensures g == v
    decreases Map(v), 0
  {
    g := map[];
    var todo := f.Keys;
    while todo != {}
      invariant todo <= v.Keys && g.Keys == v.Keys - todo
      invariant forall k :: k in g ==> g[k] == v[k]
      decreases |todo|
    {
      var k :| k in todo;
      var x := ReadTree(f[k], v[k], r);
      g, todo := g[k := x], todo - {k};
    }
  }

  method ReadItems(xs: seq<Cell>, ghost v: seq<Json>, ghost r: set<Node>) returns (ys: seq<Json>)
    requires |xs| == |v| && forall i :: 0 <= i < |v| ==> Shows(xs[i], v[i], r)
    ensures ys == v
    decreases List(v), 0
  {
    ys := [];
    for i := 0 to |xs|
      invariant |ys| == i && forall k :: 0 <= k < i ==> ys[k] == v[k]
    {
      var x := ReadTree(xs[i], v[i], r);
      ys := ys + [x];
    }
  }

  // ----------------------------------------------------------- Lists of manifests

  datatype Manifest = Manifest(obj: Node, origin: string)

  /** The value of a manifest at one moment: its tree and its origin. */
  type View = (Fields, string)
  type Views = seq<View>

  /** The manifests stand for `v`, all of it in nodes of `r`. */
  ghost predicate Lists(ms: seq<Manifest>, v: Views, r: set<Node>)
    reads r
  {
    |ms| == |v| && forall i :: 0 <= i < |v| ==> Shows(Ref(ms[i].obj), Map(v[i].0), r) && ms[i].origin == v[i].1
  }

  lemma ListsMore(ms: seq<Manifest>, v: Views, r: set<Node>, s: set<Node>)
    requires Lists(ms, v, r) && r <= s
    ensures Lists(ms, v, s)
  {
    forall i | 0 <= i < |v| ensures Shows(Ref(ms[i].obj), Map(v[i].0), s) { ShowsMore(Ref(ms[i].obj), Map(v[i].0), r, s); }
  }

  /** Manifests stand for one value only. */
  lemma ListsUnique(ms: seq<Manifest>, v: Views, w: Views, r: set<Node>, s: set<Node>)
    requires Lists(ms, v, r) && Lists(ms, w, s)
    ensures v == w
  {
    forall i | 0 <= i < |v| ensures v[i] == w[i] { ShowsUnique(Ref(ms[i].obj), Map(v[i].0), Map(w[i].0), r, s); }
  }

  /** `cloneManifests`: deep copies of every entry, with the same trees and origins and no node in common. */
  method CloneManifests(ms: seq<Manifest>, ghost v: Views, ghost r: set<Node>) returns (out: seq<Manifest>, ghost s: set<Node>)
    requires Lists(ms, v, r)
    ensures fresh(s) && Closed(s) && Lists(out, v, s)
  {
    hide Shows;
    out, s := [], {};
    for i := 0 to |ms|
      invariant |out| == i && fresh(s) && Closed(s)
      invariant forall k :: 0 <= k < i ==> Shows(Ref(out[k].obj), Map(v[k].0), s) && out[k].origin == v[k].1
    {
      var c, t := Copy(Ref(ms[i].obj), Map(v[i].0), r);
      ghost var u := s + t;
      forall k | 0 <= k < i ensures Shows(Ref(out[k].obj), Map(v[k].0), u) { ShowsMore(Ref(out[k].obj), Map(v[k].0), s, u); }
      ShowsMore(c, Map(v[i].0), t, u);
      out, s := out + [Manifest(c.node, ms[i].origin)], u;
    }
  }

  method BuildManifests(v: Views) returns (out: seq<Manifest>, ghost s: set<Node>)
    ensures fresh(s) && Closed(s) && Lists(out, v, s)
  {
    hide Shows;
    out, s := [], {};
    for i := 0 to |v|
      invariant |out| == i && fresh(s) && Closed(s)
      invariant forall k :: 0 <= k < i ==> Shows(Ref(out[k].obj), Map(v[k].0), s) && out[k].origin == v[k].1
    {
      var c, t := Build(Map(v[i].0));
      ghost var u := s + t;
      forall k | 0 <= k < i ensures Shows(Ref(out[k].obj), Map(v[k].0), u) { ShowsMore(Ref(out[k].obj), Map(v[k].0), s, u); }
      ShowsMore(c, Map(v[i].0), t, u);
      out, s := out + [Manifest(c.node, v[i].1)], u;
    }
  }

  // -------------------------------------------------------------------- Editing

  datatype Step = Key(key: string) | Index(i: nat)

  /** A map or list that a caller can get at: a held root, and the way down from it. */
  datatype Place = Place(root: nat, path: seq<Step>)

  /** What a caller stores: a tree of its own, or a map or list that it can get at. */
  datatype Value = Own(tree: Json) | Shared(place: Place)

  datatype Edit =
    | SetKey(key: string, v: Value)
    | DropKey(key: string)
    | SetItem(i: nat, v: Value)
    | Append(v: Value)
    | Truncate(len: nat)

  function Child(c: Content, step: Step): (r: Option<Node>)
    ensures r.Some? ==> r.value in Kids(c)
  {
    match c
    case Obj(f) => if step.Key? && step.key in f && f[step.key].Ref? then Some(f[step.key].node) else None
    case Arr(xs) => if step.Index? && step.i < |xs| && xs[step.i].Ref? then Some(xs[step.i].node) else None
  }

  /** Walks down from a held root as far as the path leads. */
  method Reach(place: Place, roots: seq<Node>, ghost held: set<Node>) returns (n: Node)
    requires place.root < |roots| && Closed(held) && forall k :: 0 <= k < |roots| ==> roots[k] in held
    ensures n in held
  {
    n := roots[place.root];
    for i := 0 to |place.path|
      invariant n in held
    {
      var next := Child(n.content, place.path[i]);
      if next.Some? { n := next.value; }
    }
  }

  method Take(v: Value, roots: seq<Node>, ghost held: set<Node>) returns (c: Cell, ghost more: set<Node>)
    requires Closed(held) && forall k :: 0 <= k < |roots| ==> roots[k] in held
    ensures held <= more && fresh(more - held) && Closed(more) && (c.Ref? ==> c.node in more)
  {
    match v {
      case Own(tree) =>
        var built, s := Build(tree);
        c, more := built, held + s;
      case Shared(place) =>
        c, more := Scalar(Null), held;
        if place.root < |roots| {
          var n := Reach(place, roots, held);
          c := Ref(n);
        }
    }
  }

  /** Edits one map or list in place; what is held, with what is new, stays closed. */
  method Change(place: Place, edit: Edit, roots: seq<Node>, ghost held: set<Node>) returns (ghost more: set<Node>)
    requires place.root < |roots| && Closed(held) && forall k :: 0 <= k < |roots| ==> roots[k] in held
    modifies held
    ensures held <= more && fresh(more - held) && Closed(more)
  {
    var n := Reach(place, roots, held);
    var c := Scalar(Null);
    more := held;
    if edit.SetKey? || edit.SetItem? || edit.Append? { c, more := Take(edit.v, roots, held); }
    match (edit, n.content) {
      case (SetKey(key, _), Obj(f)) => n.content := Obj(f[key := c]);
      case (DropKey(key), Obj(f)) => n.content := Obj(f - {key});
      case (SetItem(i, _), Arr(xs)) => if i < |xs| { n.content := Arr(xs[i := c]); }
      case (Append(_), Arr(xs)) => n.content := Arr(xs + [c]);
      case (Truncate(len), Arr(xs)) => if len < |xs| { n.content := Arr(xs[..len]); }
      case _ =>
    }
  }
}

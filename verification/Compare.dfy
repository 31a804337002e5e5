/** Structural comparison: where two trees differ. */
module Comparing {
  import opened Trees

  // ------------------------------------------------------------ String order

  /** The byte order that `sort.Strings` uses. */
  predicate LexLeq(a: string, b: string) {
    a == "" || (b != "" && (a[0] < b[0] || (a[0] == b[0] && LexLeq(a[1..], b[1..]))))
  }

  lemma {:induction false} LexTotal(a: string, b: string)
    ensures LexLeq(a, b) || LexLeq(b, a)
    ensures LexLeq(a, b) && LexLeq(b, a) ==> a == b
  {
    if a != "" && b != "" && a[0] == b[0] {
      LexTotal(a[1..], b[1..]);
      assert a == [a[0]] + a[1..] && b == [b[0]] + b[1..];
    }
  }

  lemma {:induction false} LexTransitive(a: string, b: string, c: string)
    requires LexLeq(a, b) && LexLeq(b, c)
    ensures LexLeq(a, c)
  {
    if a != "" && b != "" && c != "" && a[0] == b[0] && b[0] == c[0] {
      LexTransitive(a[1..], b[1..], c[1..]);
    }
  }

  lemma {:induction false} LeastExists(s: set<string>) returns (k: string)
    requires s != {}
    ensures k in s && forall j :: j in s ==> LexLeq(k, j)
    decreases |s|
  {
    var x :| x in s;
    LexTotal(x, x);
    if s == {x} { return x; }
    var rest := s - {x};
    k := LeastExists(rest);
    LexTotal(x, k);
    if LexLeq(x, k) {
      forall j | j in s ensures LexLeq(x, j) {
        if j != x { LexTransitive(x, k, j); }
      }
      k := x;
    }
  }

  ghost function Least(s: set<string>): (k: string)
    requires s != {}
    ensures k in s && forall j :: j in s ==> LexLeq(k, j)
  {
    assert exists k :: k in s && forall j :: j in s ==> LexLeq(k, j) by { var k := LeastExists(s); }
    var k :| k in s && forall j :: j in s ==> LexLeq(k, j);
    k
  }

  ghost function SortedKeys(s: set<string>): (r: seq<string>)
    ensures forall k :: k in r <==> k in s
    decreases |s|
  {
    if s == {} then [] else [Least(s)] + SortedKeys(s - {Least(s)})
  }

  // ------------------------------------------------------------------- Diffs

  datatype Hop = Key(k: string) | Index(i: nat)
  type Position = seq<Hop>

  function Prefixed(h: Hop, ps: seq<Position>): seq<Position> {
    seq(|ps|, i requires 0 <= i < |ps| => [h] + ps[i])
  }

  ghost function KeyDiffs(f: Fields, g: Fields, k: string): seq<Position>
    requires k in f || k in g
    decreases Map(f), 0
  {
    if k !in f || k !in g then [[Key(k)]] else assert f[k] < Map(f); Prefixed(Key(k), Diffs(f[k], g[k]))
  }

  ghost function MapDiffs(f: Fields, g: Fields, keys: seq<string>): seq<Position>
    requires forall k :: k in keys ==> k in f || k in g
    decreases Map(f), 1, |keys|
  {
    if keys == [] then [] else KeyDiffs(f, g, keys[0]) + MapDiffs(f, g, keys[1..])
  }

  ghost function ListDiffs(xs: seq<Json>, ys: seq<Json>, from: nat): seq<Position>
    requires |xs| == |ys| && from <= |xs|
    decreases List(xs), 1, |xs| - from
  {
    if from == |xs| then []
    else
      assert xs[from] < List(xs);
      Prefixed(Index(from), Diffs(xs[from], ys[from])) + ListDiffs(xs, ys, from + 1)
  }

  /** `diffPaths`, with structured positions in place of path strings. */
  ghost function Diffs(a: Json, b: Json): seq<Position>
    decreases a, 2
  {
    match a
    case Map(f) => if !b.Map? then [[]] else MapDiffs(f, b.fields, SortedKeys(f.Keys + b.fields.Keys))
    case List(xs) => if !b.List? || |b.items| != |xs| then [[]] else ListDiffs(xs, b.items, 0)
    case _ => if a == b then [] else [[]]
  }

  // -------------------------------------------------- What the positions mean

  function At(v: Json, p: Position): Option<Json> {
    if p == [] then Some(v)
    else match (v, p[0])
      case (Map(f), Key(k)) => if k in f then At(f[k], p[1..]) else None
      case (List(xs), Index(i)) => if i < |xs| then At(xs[i], p[1..]) else None
      case _ => None
  }

  /** Two values that a comparison can walk into side by side. */
  predicate Walkable(x: Json, y: Json) {
    (x.Map? && y.Map?) || (x.List? && y.List? && |x.items| == |y.items|)
  }

  /** The walk reaches `p` on both sides. */
  ghost predicate Reaches(a: Json, b: Json, p: Position) {
    forall n :: 0 <= n < |p| ==>
      At(a, p[..n]).Some? && At(b, p[..n]).Some? && Walkable(At(a, p[..n]).value, At(b, p[..n]).value)
  }

  /**
    `p` is where the trees part: the walk reaches it, and there one side has nothing, or both have
    values that differ and cannot be walked any further.
   */
  ghost predicate PartsAt(a: Json, b: Json, p: Position) {
    && Reaches(a, b, p)
    && match (At(a, p), At(b, p))
       case (None, None) => false
       case (Some(x), Some(y)) => x != y && !Walkable(x, y)
       case _ => true
  }

  lemma PrefixedIn(h: Hop, ps: seq<Position>, p: Position)
    ensures p in Prefixed(h, ps) <==> p != [] && p[0] == h && p[1..] in ps
  {
    if p in Prefixed(h, ps) {
      var i :| 0 <= i < |ps| && p == [h] + ps[i];
      assert p[1..] == ps[i];
    }
    if p != [] && p[0] == h && p[1..] in ps {
      var i :| 0 <= i < |ps| && ps[i] == p[1..];
      assert Prefixed(h, ps)[i] == [h] + p[1..] == p;
    }
  }

  /** Below a hop that both sides can take, the trees part where the children part. */
  lemma PartsBelow(a: Json, b: Json, p: Position, x: Json, y: Json)
    requires p != [] && Walkable(a, b)
    requires At(a, p[..1]) == Some(x) && At(b, p[..1]) == Some(y)
    ensures PartsAt(a, b, p) <==> PartsAt(x, y, p[1..])
  {
    var q := p[1..];
    assert forall v, n :: 1 <= n <= |p| ==> At(v, p[..n]) == if At(v, p[..1]).Some? then At(At(v, p[..1]).value, p[..n][1..]) else None by {
      forall v, n | 1 <= n <= |p|
        ensures At(v, p[..n]) == if At(v, p[..1]).Some? then At(At(v, p[..1]).value, p[..n][1..]) else None
      {
        AtStep(v, p[..n]);
        assert p[..n][..1] == p[..1];
      }
    }
    assert p[..|p|] == p;
    forall n | 1 <= n <= |p| ensures p[..n][1..] == q[..n - 1] { }
    if Reaches(a, b, p) {
      forall n | 0 <= n < |q|
        ensures At(x, q[..n]).Some? && At(y, q[..n]).Some? && Walkable(At(x, q[..n]).value, At(y, q[..n]).value)
      {
        assert p[..n + 1][1..] == q[..n];
        assert At(a, p[..n + 1]).Some?;
      }
    }
    if Reaches(x, y, q) {
      forall n | 0 <= n < |p|
        ensures At(a, p[..n]).Some? && At(b, p[..n]).Some? && Walkable(At(a, p[..n]).value, At(b, p[..n]).value)
      {
        if n > 0 { assert p[..n][1..] == q[..n - 1]; }
      }
    }
    assert p[..|p|][1..] == q;
  }

  lemma AtStep(v: Json, p: Position)
    requires p != []
    ensures At(v, p) == if At(v, p[..1]).Some? then At(At(v, p[..1]).value, p[1..]) else None
  {
    assert p[..1][1..] == [];
    assert p[..1][0] == p[0];
  }

  lemma KeyDiffsStart(f: Fields, g: Fields, k: string, p: Position)
    requires k in f || k in g
    requires p in KeyDiffs(f, g, k)
    ensures p != [] && p[0] == Key(k)
  {
    if k in f && k in g { PrefixedIn(Key(k), Diffs(f[k], g[k]), p); }
  }

  lemma {:induction false} MapDiffsIn(f: Fields, g: Fields, keys: seq<string>, p: Position)
    requires forall k :: k in keys ==> k in f || k in g
    ensures p in MapDiffs(f, g, keys) <==> p != [] && p[0].Key? && p[0].k in keys && p in KeyDiffs(f, g, p[0].k)
    decreases |keys|
  {
    if keys != [] {
      MapDiffsIn(f, g, keys[1..], p);
      if p in KeyDiffs(f, g, keys[0]) { KeyDiffsStart(f, g, keys[0], p); }
    }
  }

  lemma {:induction false} ListDiffsIn(xs: seq<Json>, ys: seq<Json>, from: nat, p: Position)
    requires |xs| == |ys| && from <= |xs|
    ensures p in ListDiffs(xs, ys, from)
            <==> p != [] && p[0].Index? && from <= p[0].i < |xs| && p[1..] in Diffs(xs[p[0].i], ys[p[0].i])
    decreases |xs| - from
  {
    if from < |xs| {
      PrefixedIn(Index(from), Diffs(xs[from], ys[from]), p);
      ListDiffsIn(xs, ys, from + 1, p);
    }
  }

  /** A hop that only one side can take, or neither, ends the walk. */
  lemma DeadEnd(a: Json, b: Json, p: Position)
    requires p != [] && Walkable(a, b)
    requires At(a, p[..1]).None? || At(b, p[..1]).None?
    ensures PartsAt(a, b, p) <==> |p| == 1 && (At(a, p).Some? || At(b, p).Some?)
  {
    if |p| == 1 {
      assert p[..1] == p;
      assert p[..0] == [];
    } else {
      assert !Reaches(a, b, p);
    }
  }

  /** The reported positions are exactly those where the trees part. */
  lemma {:induction false} DiffsExact(a: Json, b: Json, p: Position)
    ensures p in Diffs(a, b) <==> PartsAt(a, b, p)
    decreases a
  {
    if !Walkable(a, b) {
      if p != [] { assert p[..0] == []; }
    } else if p == [] {
      if a.Map? { MapDiffsIn(a.fields, b.fields, SortedKeys(a.fields.Keys + b.fields.Keys), p); }
      else { ListDiffsIn(a.items, b.items, 0, p); }
    } else {
      assert p[..1][1..] == [] && p[..1][0] == p[0];
      if a.Map? { MapDiffsExact(a, b, p); } else { ListDiffsExact(a, b, p); }
    }
  }

  lemma {:induction false} MapDiffsExact(a: Json, b: Json, p: Position)
    requires a.Map? && b.Map? && p != []
    ensures p in Diffs(a, b) <==> PartsAt(a, b, p)
    decreases a, 0
  {
    var f, g, hop := a.fields, b.fields, p[..1];
    assert hop[0] == p[0] && hop[1..] == [];
    MapDiffsIn(f, g, SortedKeys(f.Keys + g.Keys), p);
    if p[0].Key? && p[0].k in f && p[0].k in g {
      var k := p[0].k;
      PrefixedIn(Key(k), Diffs(f[k], g[k]), p);
      PartsBelow(a, b, p, f[k], g[k]);
      DiffsExact(f[k], g[k], p[1..]);
    } else {
      DeadEnd(a, b, p);
      if |p| == 1 { assert p == [p[0]]; }
    }
  }

  lemma {:induction false} ListDiffsExact(a: Json, b: Json, p: Position)
    requires a.List? && b.List? && |a.items| == |b.items| && p != []
    ensures p in Diffs(a, b) <==> PartsAt(a, b, p)
    decreases a, 0
  {
    var xs, ys, hop := a.items, b.items, p[..1];
    assert hop[0] == p[0] && hop[1..] == [];
    ListDiffsIn(xs, ys, 0, p);
    if p[0].Index? && p[0].i < |xs| {
      var i := p[0].i;
      PartsBelow(a, b, p, xs[i], ys[i]);
      DiffsExact(xs[i], ys[i], p[1..]);
    } else {
      DeadEnd(a, b, p);
    }
  }

  /** No difference is reported exactly when the trees are equal. */
  lemma {:induction false} DiffsEmptyIff(a: Json, b: Json)
    ensures Diffs(a, b) == [] <==> a == b
    decreases a
  {
    match a
    case Map(f) =>
      if b.Map? {
        var g := b.fields;
        var keys := SortedKeys(f.Keys + g.Keys);
        forall k | k in f && k in g ensures Diffs(f[k], g[k]) == [] <==> f[k] == g[k] { DiffsEmptyIff(f[k], g[k]); }
        MapDiffsEmpty(f, g, keys);
        if f == g { forall k | k in keys ensures KeyDiffs(f, g, k) == [] { } }
        if MapDiffs(f, g, keys) == [] {
          forall k | k in f.Keys + g.Keys ensures k in f && k in g && f[k] == g[k] { assert KeyDiffs(f, g, k) == []; }
          assert f.Keys == g.Keys;
          assert f == g;
        }
      }
    case List(xs) =>
      if b.List? && |b.items| == |xs| {
        var ys := b.items;
        forall i | 0 <= i < |xs| ensures Diffs(xs[i], ys[i]) == [] <==> xs[i] == ys[i] { DiffsEmptyIff(xs[i], ys[i]); }
        ListDiffsEmpty(xs, ys, 0);
        if ListDiffs(xs, ys, 0) == [] { assert xs == ys; }
      }
    case _ =>
  }

  lemma {:induction false} MapDiffsEmpty(f: Fields, g: Fields, keys: seq<string>)
    requires forall k :: k in keys ==> k in f || k in g
    ensures MapDiffs(f, g, keys) == [] <==> forall k :: k in keys ==> KeyDiffs(f, g, k) == []
    decreases |keys|
  {
    if keys != [] {
      MapDiffsEmpty(f, g, keys[1..]);
      assert |MapDiffs(f, g, keys)| == |KeyDiffs(f, g, keys[0])| + |MapDiffs(f, g, keys[1..])|;
      assert keys[0] in keys;
      assert forall k :: k in keys <==> k == keys[0] || k in keys[1..];
    }
  }

  lemma {:induction false} ListDiffsEmpty(xs: seq<Json>, ys: seq<Json>, from: nat)
    requires |xs| == |ys| && from <= |xs|
    ensures ListDiffs(xs, ys, from) == [] <==> forall i :: from <= i < |xs| ==> Diffs(xs[i], ys[i]) == []
    decreases |xs| - from
  {
    if from < |xs| { ListDiffsEmpty(xs, ys, from + 1); }
  }
}

/** The comparison report over two object sets, and its scoped form. */
module Reporting {
  import opened Trees
  import opened Strings
  import opened Normalizing
  import opened Comparing

  /** Objects keyed by their version-independent identity. */
  type ObjectSet = map<string, Fields>

  /** A field mismatch: the display key of the object and where the two sides part. */
  datatype Mismatch = Mismatch(display: string, golden: Fields, op: Fields)

  datatype Report = Report(mismatched: seq<Mismatch>, missingOp: seq<string>, extraOp: seq<string>) {
    predicate Equal() { mismatched == [] && missingOp == [] && extraOp == [] }
  }

  function DisplayParts(obj: Fields): seq<string> {
    [TextAt(obj, ["apiVersion"]), TextAt(obj, ["kind"]),
     TextAt(obj, ["metadata", "namespace"]), TextAt(obj, ["metadata", "name"])]
  }

  function DisplayKey(obj: Fields): string { Join(DisplayParts(obj), '/') }

  /** What `Compare` promises: each list holds exactly the objects of its kind of finding. */
  ghost predicate Faithful(r: Report, golden: ObjectSet, op: ObjectSet) {
    && (forall d :: d in r.missingOp <==> exists k :: k in golden && k !in op && d == DisplayKey(golden[k]))
    && (forall d :: d in r.extraOp <==> exists k :: k in op && k !in golden && d == DisplayKey(op[k]))
    && (forall m :: m in r.mismatched <==> exists k :: MismatchAt(golden, op, k, m))
  }

  ghost predicate MismatchAt(golden: ObjectSet, op: ObjectSet, k: string, m: Mismatch) {
    && k in golden && k in op && Canonical(golden[k]) != Canonical(op[k])
    && m == Mismatch(DisplayKey(Canonical(golden[k])), Canonical(golden[k]), Canonical(op[k]))
  }

  /** The printed keys of the objects of `a` that are missing from `b`, those still to do left out. */
  ghost predicate OneSided(ds: seq<string>, a: ObjectSet, b: ObjectSet, todo: set<string>) {
    forall d :: d in ds <==> exists k :: k in a && k !in b && k !in todo && d == DisplayKey(a[k])
  }

  ghost predicate Differing(ms: seq<Mismatch>, golden: ObjectSet, op: ObjectSet, todo: set<string>) {
    forall m :: m in ms <==> exists k :: k !in todo && MismatchAt(golden, op, k, m)
  }

  lemma OneSidedStep(ds: seq<string>, a: ObjectSet, b: ObjectSet, todo: set<string>, k: string)
    requires OneSided(ds, a, b, todo) && k in todo && k in a
    ensures OneSided(if k in b then ds else ds + [DisplayKey(a[k])], a, b, todo - {k})
  {
    hide DisplayKey;
    var out := if k in b then ds else ds + [DisplayKey(a[k])];
    forall d | exists j :: j in a && j !in b && j !in todo - {k} && d == DisplayKey(a[j]) ensures d in out {
      var j :| j in a && j !in b && j !in todo - {k} && d == DisplayKey(a[j]);
      if j != k { assert j !in todo; }
    }
    forall d | d in out ensures exists j :: j in a && j !in b && j !in todo - {k} && d == DisplayKey(a[j]) {
      if d in ds {
        var j :| j in a && j !in b && j !in todo && d == DisplayKey(a[j]);
        assert j !in todo - {k};
      } else {
        assert k !in todo - {k};
      }
    }
  }

  lemma DifferingStep(ms: seq<Mismatch>, golden: ObjectSet, op: ObjectSet, todo: set<string>, k: string)
    requires Differing(ms, golden, op, todo) && k in todo && k in golden
    ensures k !in op || Canonical(golden[k]) == Canonical(op[k]) ==> Differing(ms, golden, op, todo - {k})
    ensures k in op && Canonical(golden[k]) != Canonical(op[k]) ==>
              var g, o := Canonical(golden[k]), Canonical(op[k]);
              Differing(ms + [Mismatch(DisplayKey(g), g, o)], golden, op, todo - {k})
  {
    hide DisplayKey;
    hide Canonical;
    forall m, j | j !in todo - {k} && MismatchAt(golden, op, j, m) ensures j == k || m in ms {
      if j != k { assert j !in todo; }
    }
    forall m | m in ms ensures exists j :: j !in todo - {k} && MismatchAt(golden, op, j, m) {
      var j :| j !in todo && MismatchAt(golden, op, j, m);
      assert j !in todo - {k};
    }
    if k in op && Canonical(golden[k]) != Canonical(op[k]) {
      var g, o := Canonical(golden[k]), Canonical(op[k]);
      assert k !in todo - {k} && MismatchAt(golden, op, k, Mismatch(DisplayKey(g), g, o));
    }
  }

  lemma AllDone(r: Report, golden: ObjectSet, op: ObjectSet)
    requires OneSided(r.missingOp, golden, op, {}) && OneSided(r.extraOp, op, golden, {})
    requires Differing(r.mismatched, golden, op, {})
    ensures Faithful(r, golden, op)
  {
    hide DisplayKey;
    hide MismatchAt;
  }

  /** Walks both sets, in any order; canonical forms are compared. */
  method Compare(golden: ObjectSet, op: ObjectSet) returns (r: Report)
    ensures Faithful(r, golden, op)
  {
    r := Report([], [], []);
    var todo := golden.Keys;
    assert OneSided(r.missingOp, golden, op, todo) && Differing(r.mismatched, golden, op, todo);
    assert OneSided(r.extraOp, op, golden, op.Keys);
    hide OneSided;
    hide Differing;
    hide Faithful;
    hide Canonical;
    hide DisplayKey;
    while todo != {}
      invariant todo <= golden.Keys && r.extraOp == []
      invariant OneSided(r.missingOp, golden, op, todo) && Differing(r.mismatched, golden, op, todo)
      decreases |todo|
    {
      var k :| k in todo;
      OneSidedStep(r.missingOp, golden, op, todo, k);
      DifferingStep(r.mismatched, golden, op, todo, k);
      todo := todo - {k};
      if k !in op {
        r := r.(missingOp := r.missingOp + [DisplayKey(golden[k])]);
      } else {
        var g, o := Canonical(golden[k]), Canonical(op[k]);
        if g != o { r := r.(mismatched := r.mismatched + [Mismatch(DisplayKey(g), g, o)]); }
      }
    }
    todo := op.Keys;
    while todo != {}
      invariant todo <= op.Keys
      invariant OneSided(r.missingOp, golden, op, {}) && Differing(r.mismatched, golden, op, {})
      invariant OneSided(r.extraOp, op, golden, todo)
      decreases |todo|
    {
      var k :| k in todo;
      OneSidedStep(r.extraOp, op, golden, todo, k);
      todo := todo - {k};
      if k !in golden { r := r.(extraOp := r.extraOp + [DisplayKey(op[k])]); }
    }
    AllDone(r, golden, op);
  }

  lemma SingleSidedIff(r: Report, golden: ObjectSet, op: ObjectSet)
    requires Faithful(r, golden, op)
    ensures r.missingOp == [] <==> golden.Keys <= op.Keys
    ensures r.extraOp == [] <==> op.Keys <= golden.Keys
  {
    if k :| k in golden && k !in op { assert DisplayKey(golden[k]) in r.missingOp; }
    if k :| k in op && k !in golden { assert DisplayKey(op[k]) in r.extraOp; }
    if |r.missingOp| > 0 { assert r.missingOp[0] in r.missingOp; }
    if |r.extraOp| > 0 { assert r.extraOp[0] in r.extraOp; }
  }

  lemma MismatchedIff(r: Report, golden: ObjectSet, op: ObjectSet)
    requires Faithful(r, golden, op)
    ensures r.mismatched == [] <==> forall k :: k in golden && k in op ==> Canonical(golden[k]) == Canonical(op[k])
  {
    hide Canonical;
    hide DisplayKey;
    if |r.mismatched| > 0 {
      assert r.mismatched[0] in r.mismatched;
      var k :| MismatchAt(golden, op, k, r.mismatched[0]);
    }
    if k :| k in golden && k in op && Canonical(golden[k]) != Canonical(op[k]) {
      var g, o := Canonical(golden[k]), Canonical(op[k]);
      var m := Mismatch(DisplayKey(g), g, o);
      assert MismatchAt(golden, op, k, m);
      assert m in r.mismatched;
    }
  }

  /** The report is clean exactly when the key sets agree and so do the canonical forms, key by key. */
  lemma EqualIff(r: Report, golden: ObjectSet, op: ObjectSet)
    requires Faithful(r, golden, op)
    ensures r.Equal() <==> golden.Keys == op.Keys && forall k :: k in golden && k in op ==> Canonical(golden[k]) == Canonical(op[k])
  {
    hide Faithful;
    hide Canonical;
    SingleSidedIff(r, golden, op);
    MismatchedIff(r, golden, op);
  }

  /** Every reported mismatch comes with at least one position where the two forms part. */
  lemma MismatchHasDiffs(r: Report, golden: ObjectSet, op: ObjectSet, m: Mismatch)
    requires Faithful(r, golden, op) && m in r.mismatched
    ensures Diffs(Map(m.golden), Map(m.op)) != []
  {
    DiffsEmptyIff(Map(m.golden), Map(m.op));
  }

  // ------------------------------------------------------------------- Scope

  datatype Exclusion = Exclusion(kind: string, name: string)

  /** Re-parses a display key: the kind is the third part from the end, the name the last. */
  predicate IsKnownDivergence(known: seq<Exclusion>, display: string) {
    var parts := Split(display, '/');
    |parts| >= 4 && Exclusion(parts[|parts| - 3], parts[|parts| - 1]) in known
  }

  function DropKnown(known: seq<Exclusion>, keys: seq<string>): seq<string> {
    if keys == [] then []
    else DropKnown(known, keys[..|keys| - 1])
         + if IsKnownDivergence(known, keys[|keys| - 1]) then [] else [keys[|keys| - 1]]
  }

  /** What the scoped report promises: single-sided findings that are not known divergences, and every mismatch. */
  ghost predicate ScopedFaithful(r: Report, known: seq<Exclusion>, golden: ObjectSet, op: ObjectSet) {
    && (forall d :: d in r.missingOp <==>
          !IsKnownDivergence(known, d) && exists k :: k in golden && k !in op && d == DisplayKey(golden[k]))
    && (forall d :: d in r.extraOp <==>
          !IsKnownDivergence(known, d) && exists k :: k in op && k !in golden && d == DisplayKey(op[k]))
    && (forall m :: m in r.mismatched <==> exists k :: MismatchAt(golden, op, k, m))
  }

  method CompareScoped(known: seq<Exclusion>, golden: ObjectSet, op: ObjectSet) returns (r: Report)
    ensures ScopedFaithful(r, known, golden, op)
  {
    hide IsKnownDivergence;
    hide DisplayKey;
    r := Compare(golden, op);
    if |known| == 0 {
      assert known == [];
      NothingKnown();
      return;
    }
    ghost var full := r;
    var missing := DropKnownDivergent(known, r.missingOp);
    var extra := DropKnownDivergent(known, r.extraOp);
    forall d
      ensures d in missing <==> d in full.missingOp && !IsKnownDivergence(known, d)
      ensures d in extra <==> d in full.extraOp && !IsKnownDivergence(known, d)
    {
      DropKnownIn(known, full.missingOp, d);
      DropKnownIn(known, full.extraOp, d);
    }
    r := r.(missingOp := missing, extraOp := extra);
  }

  lemma NothingKnown()
    ensures forall d :: !IsKnownDivergence([], d)
  {
  }

  method DropKnownDivergent(known: seq<Exclusion>, keys: seq<string>) returns (out: seq<string>)
    ensures out == DropKnown(known, keys)
  {
    out := [];
    for i := 0 to |keys|
      invariant out == DropKnown(known, keys[..i])
    {
      assert keys[..i + 1][..i] == keys[..i];
      if !IsKnownDivergence(known, keys[i]) { out := out + [keys[i]]; }
    }
    assert keys[..|keys|] == keys;
  }

  lemma {:induction false} DropKnownIn(known: seq<Exclusion>, keys: seq<string>, d: string)
    ensures d in DropKnown(known, keys) <==> d in keys && !IsKnownDivergence(known, d)
  {
    if keys != [] {
      var init := keys[..|keys| - 1];
      DropKnownIn(known, init, d);
      assert keys == init + [keys[|keys| - 1]];
    }
  }

  /**
    Name and kind have no slash, and neither has the namespace, unless its second part from the end
    happens to be the kind.
   */
  predicate Recoverable(kind: string, ns: string, name: string) {
    && Free(name, '/') && Free(kind, '/')
    && (Free(ns, '/') || var parts := Split(ns, '/'); |parts| >= 2 && parts[|parts| - 2] == kind)
  }

  ghost predicate Printable(obj: Fields) {
    var p := DisplayParts(obj);
    Recoverable(p[1], p[2], p[3])
  }

  /** The object's own kind and name are declared a known divergence. */
  predicate Listed(known: seq<Exclusion>, obj: Fields) {
    Exclusion(TextAt(obj, ["kind"]), TextAt(obj, ["metadata", "name"])) in known
  }

  lemma DisplaySplits(apiVersion: string, kind: string, ns: string, name: string)
    ensures Split(Join([apiVersion, kind, ns, name], '/'), '/')
            == Split(apiVersion, '/') + (Split(kind, '/') + (Split(ns, '/') + Split(name, '/')))
  {
    hide Split;
    var p, q, r := [apiVersion, kind, ns, name], [kind, ns, name], [ns, name];
    assert p[1..] == q && q[1..] == r && r[1..] == [name];
    var tail, rest := Join(r, '/'), Join(q, '/');
    assert Join([name], '/') == name && tail == ns + ['/'] + name;
    assert rest == kind + ['/'] + tail && Join(p, '/') == apiVersion + ['/'] + rest;
    SplitAt(ns, name, '/');
    SplitAt(kind, tail, '/');
    SplitAt(apiVersion, rest, '/');
  }

  /** Exactly when re-parsing a display key recovers the kind and the name that were printed. */
  lemma ParseExact(apiVersion: string, kind: string, ns: string, name: string)
    ensures var parts := Split(Join([apiVersion, kind, ns, name], '/'), '/');
            && |parts| >= 4
            && (parts[|parts| - 3] == kind && parts[|parts| - 1] == name <==> Recoverable(kind, ns, name))
  {
    hide Split;
    hide Join;
    var display := Join([apiVersion, kind, ns, name], '/');
    var parts := Split(display, '/');
    var a, b, c, d := Split(apiVersion, '/'), Split(kind, '/'), Split(ns, '/'), Split(name, '/');
    DisplaySplits(apiVersion, kind, ns, name);
    SplitFree(kind, '/');
    SplitFree(ns, '/');
    SplitFree(name, '/');
    SplitPartsFree(display, '/');
    assert parts[|parts| - 1] == d[|d| - 1];
    if |d| == 1 { assert parts[|parts| - 3] == if |c| == 1 then b[|b| - 1] else c[|c| - 2]; }
  }

  /**
    An object is filtered by its own kind and name, whatever else is declared, if and only if its
    printed key is recoverable; otherwise its own entry does not suppress it.
   */
  lemma FilterExact(obj: Fields)
    ensures Printable(obj) ==> forall known :: IsKnownDivergence(known, DisplayKey(obj)) <==> Listed(known, obj)
    ensures !Printable(obj) ==>
              !IsKnownDivergence([Exclusion(TextAt(obj, ["kind"]), TextAt(obj, ["metadata", "name"]))], DisplayKey(obj))
  {
    hide Recoverable;
    var p := DisplayParts(obj);
    ParseExact(p[0], p[1], p[2], p[3]);
  }

  /** The printed key tells objects apart by apiVersion, kind, namespace and name. */
  lemma DisplayKeyExact(a: Fields, b: Fields)
    requires forall x :: x in {a, b} ==>
               && Free(TextAt(x, ["kind"]), '/') && Free(TextAt(x, ["metadata", "namespace"]), '/')
               && Free(TextAt(x, ["metadata", "name"]), '/')
    ensures DisplayKey(a) == DisplayKey(b) <==>
            && TextAt(a, ["apiVersion"]) == TextAt(b, ["apiVersion"]) && TextAt(a, ["kind"]) == TextAt(b, ["kind"])
            && TextAt(a, ["metadata", "namespace"]) == TextAt(b, ["metadata", "namespace"])
            && TextAt(a, ["metadata", "name"]) == TextAt(b, ["metadata", "name"])
  {
    hide TextAt;
    hide Join;
    hide Split;
    var p, q := DisplayParts(a), DisplayParts(b);
    assert a in {a, b} && b in {a, b};
    if DisplayKey(a) == DisplayKey(b) { PartsAgree(p[0], p[1], p[2], p[3], q[0], q[1], q[2], q[3]); }
  }

  lemma PartsAgree(v: string, k: string, s: string, n: string, v': string, k': string, s': string, n': string)
    requires Free(k, '/') && Free(s, '/') && Free(n, '/') && Free(k', '/') && Free(s', '/') && Free(n', '/')
    requires Join([v, k, s, n], '/') == Join([v', k', s', n'], '/')
    ensures v == v' && k == k' && s == s' && n == n'
  {
    hide Join;
    hide Split;
    DisplaySplits(v, k, s, n);
    DisplaySplits(v', k', s', n');
    SplitFree(k, '/');
    SplitFree(s, '/');
    SplitFree(n, '/');
    SplitFree(k', '/');
    SplitFree(s', '/');
    SplitFree(n', '/');
    var x, y := Split(v, '/'), Split(v', '/');
    var l, r := x + ([k] + ([s] + [n])), y + ([k'] + ([s'] + [n']));
    assert l == r;
    var m := |x|;
    assert l[m] == k && l[m + 1] == s && l[m + 2] == n && r[m] == k' && r[m + 1] == s' && r[m + 2] == n';
    assert x == l[..m] && y == r[..m];
    JoinSplit(v, '/');
    JoinSplit(v', '/');
  }

  /** For an object of slash-free parts the printed key names exactly its own kind and name. */
  lemma DisplayKeyParses(known: seq<Exclusion>, obj: Fields)
    requires var p := DisplayParts(obj); Free(p[1], '/') && Free(p[2], '/') && Free(p[3], '/')
    ensures IsKnownDivergence(known, DisplayKey(obj)) <==> Listed(known, obj)
  {
    hide IsKnownDivergence;
    hide DisplayKey;
    FilterExact(obj);
  }

  /**
    The scoped report drops exactly the single-sided findings of listed objects, and never a field
    mismatch.
   */
  lemma ScopedDropsExactly(r: Report, known: seq<Exclusion>, golden: ObjectSet, op: ObjectSet, k: string)
    requires ScopedFaithful(r, known, golden, op)
    ensures k in golden && k !in op && Printable(golden[k]) ==>
              (DisplayKey(golden[k]) in r.missingOp <==> !Listed(known, golden[k]))
    ensures k in op && k !in golden && Printable(op[k]) ==>
              (DisplayKey(op[k]) in r.extraOp <==> !Listed(known, op[k]))
    ensures k in golden && k in op && Canonical(golden[k]) != Canonical(op[k]) ==>
              exists m :: m in r.mismatched && m.golden == Canonical(golden[k]) && m.op == Canonical(op[k])
  {
    hide IsKnownDivergence;
    hide Canonical;
    hide DisplayKey;
    if k in golden && k !in op && Printable(golden[k]) { FilterExact(golden[k]); }
    if k in op && k !in golden && Printable(op[k]) { FilterExact(op[k]); }
    if k in golden && k in op && Canonical(golden[k]) != Canonical(op[k]) {
      var g, o := Canonical(golden[k]), Canonical(op[k]);
      assert MismatchAt(golden, op, k, Mismatch(DisplayKey(g), g, o));
    }
  }

  /** A slash in the name hides a listed object from the filter, whatever its other parts are. */
  lemma SlashDefeatsFilter(apiVersion: string, kind: string, ns: string, name: string)
    requires !Free(name, '/')
    ensures !IsKnownDivergence([Exclusion(kind, name)], Join([apiVersion, kind, ns, name], '/'))
  {
    hide Join;
    ParseExact(apiVersion, kind, ns, name);
  }
}

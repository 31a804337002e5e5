/** The transformation list of a custom resource and the pipeline that runs it over both renders. */
module Transforms {
  import opened Trees
  import opened Manifests
  import Webhooks

  /** The patch body and the target selector are library code: any functions. */
  datatype PatchSpec = PatchSpec(
    strategicMerge: bool, jsonPatch: bool,
    matches: Manifest -> bool, applyOne: Manifest -> Option<Manifest>)

  datatype FilterSpec = FilterSpec(kinds: seq<string>, source: string)

  /** One declared entry: a union that must have exactly one member set. */
  datatype Spec = Spec(patch: Option<PatchSpec>, rewrite: Option<string>, filter: Option<FilterSpec>)

  datatype Transformation =
    | Patch(spec: PatchSpec)
    | RewriteWebhookURL(prefix: string)
    | FilterKinds(filter: FilterSpec)

  function CountSet(s: Spec): nat {
    (if s.patch.Some? then 1 else 0) + (if s.rewrite.Some? then 1 else 0) + (if s.filter.Some? then 1 else 0)
  }

  function FromSpec(s: Spec): Transformation
    requires CountSet(s) == 1
  {
    if s.patch.Some? then Patch(s.patch.value)
    else if s.rewrite.Some? then RewriteWebhookURL(s.rewrite.value)
    else FilterKinds(s.filter.value)
  }

  /** Declaration order is kept; any entry without exactly one member set fails the whole list. */
  method Build(specs: seq<Spec>) returns (out: Option<seq<Transformation>>)
    ensures out == Built(specs)
  {
    var ts: seq<Transformation> := [];
    for i := 0 to |specs|
      invariant |ts| == i
      invariant forall k :: 0 <= k < i ==> CountSet(specs[k]) == 1 && ts[k] == FromSpec(specs[k])
    {
      var set_ := 0;
      if specs[i].patch.Some? { set_ := set_ + 1; }
      if specs[i].rewrite.Some? { set_ := set_ + 1; }
      if specs[i].filter.Some? { set_ := set_ + 1; }
      if set_ != 1 { return None; }
      ts := ts + [FromSpec(specs[i])];
    }
    out := Some(ts);
    assert ts == Built(specs).value;
  }

  function Built(specs: seq<Spec>): Option<seq<Transformation>> {
    if forall k :: 0 <= k < |specs| ==> CountSet(specs[k]) == 1
    then Some(seq(|specs|, k requires 0 <= k < |specs| && CountSet(specs[k]) == 1 => FromSpec(specs[k])))
    else None
  }

  /**
    What a list of entries is built into: it succeeds exactly if every entry has one member set and
    no other, and then the k-th transformation is the member of the k-th entry, whole.
   */
  lemma BuiltExactly(specs: seq<Spec>)
    ensures Built(specs).Some? <==> forall k :: 0 <= k < |specs| ==>
              || (specs[k].patch.Some? && specs[k].rewrite.None? && specs[k].filter.None?)
              || (specs[k].patch.None? && specs[k].rewrite.Some? && specs[k].filter.None?)
              || (specs[k].patch.None? && specs[k].rewrite.None? && specs[k].filter.Some?)
    ensures Built(specs).Some? ==>
              var ts := Built(specs).value;
              && |ts| == |specs|
              && (forall k, p :: 0 <= k < |specs| ==> (ts[k] == Patch(p) <==> specs[k].patch == Some(p)))
              && (forall k, u :: 0 <= k < |specs| ==> (ts[k] == RewriteWebhookURL(u) <==> specs[k].rewrite == Some(u)))
              && (forall k, f :: 0 <= k < |specs| ==> (ts[k] == FilterKinds(f) <==> specs[k].filter == Some(f)))
  {
    forall k | 0 <= k < |specs|
      ensures CountSet(specs[k]) == 1 <==>
              || (specs[k].patch.Some? && specs[k].rewrite.None? && specs[k].filter.None?)
              || (specs[k].patch.None? && specs[k].rewrite.Some? && specs[k].filter.None?)
              || (specs[k].patch.None? && specs[k].rewrite.None? && specs[k].filter.Some?)
    {
    }
  }

  // -------------------------------------------------------- One transformation

  function RewriteManifest(m: Manifest, prefix: string): Option<Manifest> {
    match Webhooks.Rewrite(m.kind, m.body, prefix)
    case Some(b) => Some(m.(body := b))
    case None => None
  }

  function PatchManifest(p: PatchSpec, m: Manifest): Option<Manifest> {
    if !p.matches(m) then Some(m)
    else match p.applyOne(m)
      case Some(out) => Some(out.(origin := m.origin))
      case None => None
  }

  predicate Dropped(f: FilterSpec, m: Manifest) {
    m.kind in f.kinds && (f.source == "" || m.origin == f.source)
  }

  function Kept(f: FilterSpec, ms: seq<Manifest>): seq<Manifest> {
    if ms == [] then []
    else Kept(f, ms[..|ms| - 1]) + if Dropped(f, ms[|ms| - 1]) then [] else [ms[|ms| - 1]]
  }

  /** Element-wise transformation that fails if any element does. */
  function MapAll(f: Manifest -> Option<Manifest>, ms: seq<Manifest>): Option<seq<Manifest>> {
    if forall k :: 0 <= k < |ms| ==> f(ms[k]).Some?
    then Some(seq(|ms|, k requires 0 <= k < |ms| && f(ms[k]).Some? => f(ms[k]).value))
    else None
  }

  function Run(t: Transformation, ms: seq<Manifest>): Option<seq<Manifest>> {
    match t
    case Patch(p) =>
      if p.strategicMerge == p.jsonPatch then None else MapAll(m => PatchManifest(p, m), ms)
    case RewriteWebhookURL(prefix) => MapAll(m => RewriteManifest(m, prefix), ms)
    case FilterKinds(f) => Some(Kept(f, ms))
  }

  method ApplyTransformation(t: Transformation, ms: seq<Manifest>) returns (out: Option<seq<Manifest>>)
    ensures out == Run(t, ms)
  {
    match t {
      case FilterKinds(f) =>
        var kept: seq<Manifest> := [];
        for i := 0 to |ms|
          invariant kept == Kept(f, ms[..i])
        {
          assert ms[..i + 1][..i] == ms[..i];
          if !Dropped(f, ms[i]) { kept := kept + [ms[i]]; }
        }
        assert ms[..|ms|] == ms;
        out := Some(kept);
      case RewriteWebhookURL(prefix) =>
        out := ApplyEach(m => RewriteManifest(m, prefix), ms);
      case Patch(p) =>
        if p.strategicMerge == p.jsonPatch { return None; }
        out := ApplyEach(m => PatchManifest(p, m), ms);
    }
  }

  /** The shared shape of the two element-wise loops: fill the output index by index, stop at an error. */
  method ApplyEach(f: Manifest -> Option<Manifest>, ms: seq<Manifest>) returns (out: Option<seq<Manifest>>)
    ensures out == MapAll(f, ms)
  {
    var acc: seq<Manifest> := [];
    for i := 0 to |ms|
      invariant |acc| == i
      invariant forall k :: 0 <= k < i ==> f(ms[k]).Some? && acc[k] == f(ms[k]).value
    {
      var r := f(ms[i]);
      if r.None? { return None; }
      acc := acc + [r.value];
    }
    out := Some(acc);
    assert acc == MapAll(f, ms).value;
  }

  // --------------------------------------------------------------- Pipeline

  /** One render alone through the whole list, as the equivalence harness runs it. */
  function RunAll(ts: seq<Transformation>, ms: seq<Manifest>): Option<seq<Manifest>> {
    if ts == [] then Some(ms)
    else match Run(ts[0], ms)
      case Some(next) => RunAll(ts[1..], next)
      case None => None
  }

  /** How many transformations succeed on a render before the first failure. */
  function Progress(ts: seq<Transformation>, ms: seq<Manifest>): nat {
    if ts == [] then 0
    else match Run(ts[0], ms)
      case Some(next) => 1 + Progress(ts[1..], next)
      case None => 0
  }

  datatype Plan = Planned(seed: seq<Manifest>, shoot: seq<Manifest>) | PlanFailed(reason: string)

  /** The two renders through the list, each on its own; the earlier failure names the reason. */
  function Fused(ts: seq<Transformation>, seed: seq<Manifest>, shoot: seq<Manifest>): Plan {
    match (RunAll(ts, seed), RunAll(ts, shoot))
    case (Some(a), Some(b)) => Planned(a, b)
    case _ => PlanFailed(if RunAll(ts, shoot).Some? || (RunAll(ts, seed).None? && Progress(ts, seed) <= Progress(ts, shoot))
                         then "SeedTransformFailed" else "ShootTransformFailed")
  }

  /** The controller's loop, which alternates between the renders, computes the two independent folds. */
  method TransformBoth(ts: seq<Transformation>, seed: seq<Manifest>, shoot: seq<Manifest>) returns (plan: Plan)
    ensures plan == Fused(ts, seed, shoot)
  {
    var a, b := seed, shoot;
    for i := 0 to |ts|
      invariant RunAll(ts, seed) == RunAll(ts[i..], a) && RunAll(ts, shoot) == RunAll(ts[i..], b)
      invariant Progress(ts, seed) == i + Progress(ts[i..], a)
      invariant Progress(ts, shoot) == i + Progress(ts[i..], b)
    {
      assert ts[i..][1..] == ts[i + 1..];
      var ra := ApplyTransformation(ts[i], a);
      if ra.None? { return PlanFailed("SeedTransformFailed"); }
      var rb := ApplyTransformation(ts[i], b);
      if rb.None? {
        ProgressIff(ts[i + 1..], ra.value);
        return PlanFailed("ShootTransformFailed");
      }
      a, b := ra.value, rb.value;
    }
    plan := Planned(a, b);
  }

  lemma {:induction false} ProgressIff(ts: seq<Transformation>, ms: seq<Manifest>)
    ensures Progress(ts, ms) <= |ts|
    ensures RunAll(ts, ms).Some? <==> Progress(ts, ms) == |ts|
  {
    if ts != [] && Run(ts[0], ms).Some? { ProgressIff(ts[1..], Run(ts[0], ms).value); }
  }

  /** A render gets through the first `n` transformations exactly if it does not fail before. */
  lemma {:induction false} ProgressPrefix(ts: seq<Transformation>, ms: seq<Manifest>, n: nat)
    requires n <= |ts|
    ensures RunAll(ts[..n], ms).Some? <==> n <= Progress(ts, ms)
    decreases |ts|
  {
    hide Run;
    if n > 0 {
      assert ts[..n][0] == ts[0] && ts[..n][1..] == ts[1..][..n - 1];
      if Run(ts[0], ms).Some? { ProgressPrefix(ts[1..], Run(ts[0], ms).value, n - 1); }
    }
  }

  /** Transformation `n` is the first to fail on the render. */
  ghost predicate FirstFailure(ts: seq<Transformation>, ms: seq<Manifest>, n: nat) {
    n < |ts| && RunAll(ts[..n], ms).Some? && RunAll(ts[..n + 1], ms).None?
  }

  lemma FailsAtProgress(ts: seq<Transformation>, ms: seq<Manifest>, n: nat)
    ensures FirstFailure(ts, ms, n) <==> n == Progress(ts, ms) < |ts|
  {
    ProgressIff(ts, ms);
    if n < |ts| {
      ProgressPrefix(ts, ms, n);
      ProgressPrefix(ts, ms, n + 1);
    }
  }

  /**
    Which failure is reported: the seed's exactly if it fails at a transformation before which the
    shoot has not failed, the shoot's exactly if it fails where the seed still gets through.
   */
  lemma FusedReason(ts: seq<Transformation>, seed: seq<Manifest>, shoot: seq<Manifest>)
    ensures var plan := Fused(ts, seed, shoot);
            && (plan.PlanFailed? <==> RunAll(ts, seed).None? || RunAll(ts, shoot).None?)
            && (plan == PlanFailed("SeedTransformFailed") <==>
                  exists n: nat :: FirstFailure(ts, seed, n) && RunAll(ts[..n], shoot).Some?)
            && (plan == PlanFailed("ShootTransformFailed") <==>
                  exists n: nat :: FirstFailure(ts, shoot, n) && RunAll(ts[..n + 1], seed).Some?)
            && (plan.PlanFailed? ==> plan.reason == "SeedTransformFailed" || plan.reason == "ShootTransformFailed")
  {
    hide Run;
    hide RunAll;
    hide Progress;
    ProgressIff(ts, seed);
    ProgressIff(ts, shoot);
    var p, q := Progress(ts, seed), Progress(ts, shoot);
    FailsAtProgress(ts, seed, p);
    FailsAtProgress(ts, shoot, q);
    if p < |ts| { ProgressPrefix(ts, shoot, p); }
    if q < |ts| { ProgressPrefix(ts, seed, q + 1); }
    if n: nat :| FirstFailure(ts, seed, n) && RunAll(ts[..n], shoot).Some? { FailsAtProgress(ts, seed, n); }
    if n: nat :| FirstFailure(ts, shoot, n) && RunAll(ts[..n + 1], seed).Some? { FailsAtProgress(ts, shoot, n); }
    assert |"SeedTransformFailed"| == 19 && |"ShootTransformFailed"| == 20;
  }

  // --------------------------------------------------------------- Pointwise

  /** What becomes of one manifest. */
  datatype Fate = Gone | Became(m: Manifest) | Fails

  function AsFate(r: Option<Manifest>): Fate { if r.Some? then Became(r.value) else Fails }

  function FateIn(t: Transformation, m: Manifest): Fate {
    match t
    case Patch(p) => AsFate(PatchManifest(p, m))
    case RewriteWebhookURL(prefix) => AsFate(RewriteManifest(m, prefix))
    case FilterKinds(f) => if Dropped(f, m) then Gone else Became(m)
  }

  /** What each transformation makes of one manifest. */
  lemma FateMeaning(m: Manifest, f: FilterSpec, p: PatchSpec, prefix: string)
    ensures FateIn(FilterKinds(f), m) == Gone <==> m.kind in f.kinds && (f.source == "" || m.origin == f.source)
    ensures FateIn(FilterKinds(f), m) != Gone ==> FateIn(FilterKinds(f), m) == Became(m)
    ensures !p.matches(m) ==> FateIn(Patch(p), m) == Became(m)
    ensures p.matches(m) ==> (FateIn(Patch(p), m) == Fails <==> p.applyOne(m) == None)
    ensures p.matches(m) && p.applyOne(m).Some? ==> FateIn(Patch(p), m) == Became(p.applyOne(m).value.(origin := m.origin))
    ensures FateIn(RewriteWebhookURL(prefix), m) == Fails <==> Webhooks.Rewrite(m.kind, m.body, prefix) == None
    ensures FateIn(RewriteWebhookURL(prefix), m).Became? ==>
              FateIn(RewriteWebhookURL(prefix), m).m == m.(body := Webhooks.Rewrite(m.kind, m.body, prefix).value)
  {
    hide Webhooks.Rewrite;
  }

  /** One manifest alone through the whole list. */
  function FateOf(ts: seq<Transformation>, m: Manifest): Fate {
    if ts == [] then Became(m)
    else match FateIn(ts[0], m)
      case Became(next) => FateOf(ts[1..], next)
      case Gone => Gone
      case Fails => Fails
  }

  /** A patch has exactly one body; without one it fails even an empty render. */
  predicate Usable(t: Transformation) { t.Patch? ==> t.spec.strategicMerge != t.spec.jsonPatch }

  /** `idx` picks, in order, exactly the manifests that `fate` lets through, and `outs` is what became of them. */
  ghost predicate Survive(ms: seq<Manifest>, fate: Manifest -> Fate, outs: seq<Manifest>, idx: seq<nat>) {
    && |idx| == |outs|
    && (forall k :: 0 <= k < |idx| ==> idx[k] < |ms| && fate(ms[idx[k]]) == Became(outs[k]))
    && (forall j, k :: 0 <= j < k < |idx| ==> idx[j] < idx[k])
    && (forall i: nat :: i in idx <==> i < |ms| && fate(ms[i]).Became?)
  }

  /** The positions that a filter keeps. */
  ghost function KeptAt(f: FilterSpec, ms: seq<Manifest>): seq<nat> {
    if ms == [] then []
    else KeptAt(f, ms[..|ms| - 1]) + if Dropped(f, ms[|ms| - 1]) then [] else [|ms| - 1]
  }

  lemma {:induction false} KeptTraced(f: FilterSpec, ms: seq<Manifest>)
    ensures |KeptAt(f, ms)| == |Kept(f, ms)|
    ensures forall k :: 0 <= k < |KeptAt(f, ms)| ==>
              KeptAt(f, ms)[k] < |ms| && Kept(f, ms)[k] == ms[KeptAt(f, ms)[k]]
    ensures forall j, k :: 0 <= j < k < |KeptAt(f, ms)| ==> KeptAt(f, ms)[j] < KeptAt(f, ms)[k]
  {
    if ms != [] { KeptTraced(f, ms[..|ms| - 1]); }
  }

  /** A filter keeps exactly the manifests that are not both listed and of the given origin. */
  lemma {:induction false} KeptExactly(f: FilterSpec, ms: seq<Manifest>, i: nat)
    requires i < |ms|
    ensures i in KeptAt(f, ms) <==> !(ms[i].kind in f.kinds && (f.source == "" || ms[i].origin == f.source))
  {
    var n := |ms| - 1;
    KeptTraced(f, ms[..n]);
    if i < n {
      assert ms[..n][i] == ms[i];
      KeptExactly(f, ms[..n], i);
    }
  }

  /** One transformation works manifest by manifest. */
  lemma RunPointwise(t: Transformation, ms: seq<Manifest>) returns (idx: seq<nat>)
    ensures Run(t, ms).Some? <==> Usable(t) && forall i :: 0 <= i < |ms| ==> !FateIn(t, ms[i]).Fails?
    ensures Run(t, ms).Some? ==> Survive(ms, m => FateIn(t, m), Run(t, ms).value, idx)
  {
    if t.FilterKinds? {
      KeptTraced(t.filter, ms);
      idx := KeptAt(t.filter, ms);
      forall i: nat ensures i in idx <==> i < |ms| && FateIn(t, ms[i]).Became? {
        if i < |ms| { KeptExactly(t.filter, ms, i); }
      }
    } else {
      idx := seq(|ms|, k => k);
      if Run(t, ms).Some? {
        forall i: nat ensures i in idx <==> i < |ms| && FateIn(t, ms[i]).Became? {
          if i < |ms| { assert idx[i] == i; }
        }
      }
    }
  }

  /**
    The pipeline works manifest by manifest: it succeeds exactly if every transformation is usable
    and no manifest fails on its own, and its output is, in the order of the input, what each
    manifest alone becomes, with exactly the dropped ones missing.
   */
  lemma {:induction false} PipelinePointwise(ts: seq<Transformation>, ms: seq<Manifest>) returns (idx: seq<nat>)
    ensures RunAll(ts, ms).Some? <==>
            (forall t :: t in ts ==> Usable(t)) && forall i :: 0 <= i < |ms| ==> !FateOf(ts, ms[i]).Fails?
    ensures RunAll(ts, ms).Some? ==> Survive(ms, m => FateOf(ts, m), RunAll(ts, ms).value, idx)
    decreases |ts|
  {
    hide Run;
    hide FateIn;
    hide Usable;
    idx := [];
    if ts == [] {
      idx := seq(|ms|, k => k);
      assert forall i: nat :: i < |ms| ==> idx[i] == i;
      return;
    }
    var first := RunPointwise(ts[0], ms);
    assert forall t :: t in ts <==> t == ts[0] || t in ts[1..];
    if Run(ts[0], ms).None? {
      if Usable(ts[0]) {
        var i :| 0 <= i < |ms| && FateIn(ts[0], ms[i]).Fails?;
        assert FateOf(ts, ms[i]).Fails?;
      }
      return;
    }
    var mid := Run(ts[0], ms).value;
    var rest := PipelinePointwise(ts[1..], mid);
    ThroughBoth(ts, ms, mid, first);
    if RunAll(ts, ms).Some? {
      idx := seq(|rest|, k requires 0 <= k < |rest| && rest[k] < |first| => first[rest[k]]);
      Compose(ts, ms, mid, RunAll(ts, ms).value, first, rest, idx);
    }
  }

  lemma ThroughBoth(ts: seq<Transformation>, ms: seq<Manifest>, mid: seq<Manifest>, first: seq<nat>)
    requires ts != [] && Survive(ms, m => FateIn(ts[0], m), mid, first)
    requires forall i :: 0 <= i < |ms| ==> !FateIn(ts[0], ms[i]).Fails?
    ensures forall j :: 0 <= j < |mid| ==> FateOf(ts, ms[first[j]]) == FateOf(ts[1..], mid[j])
    ensures (forall i :: 0 <= i < |ms| ==> !FateOf(ts, ms[i]).Fails?) <==> (forall j :: 0 <= j < |mid| ==> !FateOf(ts[1..], mid[j]).Fails?)
  {
    hide FateIn;
    forall i | 0 <= i < |ms| && FateOf(ts, ms[i]).Fails? ensures exists j :: 0 <= j < |mid| && FateOf(ts[1..], mid[j]).Fails? {
      assert i in first;
      var j :| 0 <= j < |first| && first[j] == i;
      assert FateOf(ts[1..], mid[j]).Fails?;
    }
  }

  lemma Compose(ts: seq<Transformation>, ms: seq<Manifest>, mid: seq<Manifest>, outs: seq<Manifest>,
                first: seq<nat>, rest: seq<nat>, idx: seq<nat>)
    requires ts != [] && Survive(ms, m => FateIn(ts[0], m), mid, first)
    requires forall j :: 0 <= j < |mid| ==> FateOf(ts, ms[first[j]]) == FateOf(ts[1..], mid[j])
    requires Survive(mid, m => FateOf(ts[1..], m), outs, rest)
    requires |idx| == |rest| && forall k :: 0 <= k < |rest| ==> idx[k] == first[rest[k]]
    ensures Survive(ms, m => FateOf(ts, m), outs, idx)
  {
    hide FateIn;
    forall i: nat | i < |ms| && FateOf(ts, ms[i]).Became? ensures i in idx {
      assert i in first;
      var j :| 0 <= j < |first| && first[j] == i;
      assert j in rest;
      var k :| 0 <= k < |rest| && rest[k] == j;
      assert idx[k] == i;
    }
    forall i: nat | i in idx ensures i < |ms| && FateOf(ts, ms[i]).Became? {
      var k :| 0 <= k < |idx| && idx[k] == i;
      assert rest[k] in rest;
    }
  }

  /** Nothing on its way changes the origin of a manifest. */
  lemma {:induction false} FateKeepsOrigin(ts: seq<Transformation>, m: Manifest)
    ensures FateOf(ts, m).Became? ==> FateOf(ts, m).m.origin == m.origin
    decreases |ts|
  {
    if ts != [] && FateIn(ts[0], m).Became? { FateKeepsOrigin(ts[1..], FateIn(ts[0], m).m); }
  }
}

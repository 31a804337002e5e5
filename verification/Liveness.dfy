/** Undisturbed passes: when they are error-free, what they settle on, and what never settles. */
module Liveness {
  import opened Trees
  import opened Strings
  import opened Manifests
  import opened Ordering
  import opened Api
  import opened Deliver
  import opened Controller
  import opened Effects
  import opened Retention
  import opened Accounting
  import opened Passes
  import opened Teardown
  import opened Convergence
  import opened Ownership
  import opened Grading
  import Transforms

  /** Nothing about `m` itself stands in the way of applying it. */
  ghost predicate Appliable(w: World, c: Cluster, m: Manifest, o: string) {
    Acceptable(ManifestIdentity(m)) && !Foreign(w, w.AddrOf(c, m), o)
  }

  /** Undisturbed, an apply fails exactly on an ill-formed identity or another owner's cluster-scoped object. */
  lemma CalmApply(w: LoneWorld, c: Cluster, m: Manifest, o: string)
    requires Calm(w)
    ensures var r := Apply(w, c, m, o); Calm(r.world) && (!r.err <==> Appliable(w, c, m, o))
  {
    ApplyEffect(w, c, m, o);
    var a := w.AddrOf(c, m);
    var g := if IsClusterScoped(m.kind) then ForeignOwner(w, a, o) else Guarded(w, Clear);
    assert g.world.Next().fault.Fine? && Continues(w, g.world);
    if Acceptable(ManifestIdentity(m)) {
      assert a.id.kind == m.kind;
      assert g.verdict.Clear? <==> !Foreign(w, a, o);
    }
  }

  lemma {:induction false} CalmApplyAll(w: LoneWorld, cr: CR, c: Cluster, ms: seq<Manifest>, o: string)
    requires Calm(w) && (c == Seed || c == Shoot(cr.shootId))
    requires forall m :: m in ms ==> Appliable(w, c, m, o)
    ensures var r := ApplyAll(w, c, ms, o); Calm(r.world) && !r.err
  {
    hide Apply;
    if ms != [] {
      var before := ApplyAll(w, c, Init(ms), o).world;
      CalmApplyAll(w, cr, c, Init(ms), o);
      ApplyAllLawful(w, cr, c, Init(ms), o);
      StaysAppliable(w, before, cr, c, Last(ms), o);
      CalmApply(before, c, Last(ms), o);
    }
  }

  /** Lawful changes put nobody else's object in the way. */
  lemma StaysAppliable(w: World, w': World, cr: CR, c: Cluster, m: Manifest, o: string)
    requires Lawful(w, w', cr, o) && Appliable(w, c, m, o)
    ensures Appliable(w', c, m, o)
  {
    var a := w.AddrOf(c, m);
    assert w'.AddrOf(c, m) == a;
    if a in w'.live { assert SameAt(w, w', a) || Owner(w'.live[a]) == o; }
  }

  lemma CalmPruneOne(w: LoneWorld, c: Cluster, rs: ResourceStatus, o: string)
    requires Calm(w)
    ensures var r := PruneOne(w, c, rs, o); Calm(r.world) && !r.err
  {
    PruneOneFacts(w, c, rs, o);
    RebuiltAddr(w, c, rs);
    var m := ManifestFromStatus(rs);
    var g := Get(w, w.AddrOf(c, m));
    assert g.world.Next().fault.Fine?;
  }

  lemma {:induction false} CalmPrune(w: LoneWorld, c: Cluster, es: seq<ResourceStatus>, keys: set<string>, cr: CR, o: string)
    requires Calm(w)
    ensures var r := Prune(w, c, es, keys, cr, o); Calm(r.world) && !r.err
  {
    hide PruneOne;
    if es != [] {
      CalmPrune(w, c, Init(es), keys, cr, o);
      if Orphan(cr, keys, Last(es)) {
        CalmPruneOne(Prune(w, c, Init(es), keys, cr, o).world, c, Last(es), o);
      }
    }
  }

  ghost predicate JobAppliable(w: World, job: Job) {
    forall side, m :: m in job.Render(side) ==> Appliable(w, ClusterOf(job.cr, side), m, job.owner)
  }

  ghost predicate Smooth(w: World, d: Draft, job: Job) {
    Calm(d.world) && Lawful(w, d.world, job.cr, job.owner) && !d.applyErr && !d.pruneErr
  }

  lemma SmoothApply(w: LoneWorld, d: Draft, job: Job, side: Side)
    requires JobAppliable(w, job) && Smooth(w, d, job)
    ensures Smooth(w, ApplySide(d, job, side), job)
    ensures !AnyFailed(ApplySide(d, job, side).Statuses(side))
  {
    hide ApplyAll;
    hide Calm;
    var c, ms, o := ClusterOf(job.cr, side), job.Render(side), job.owner;
    forall m | m in ms ensures Appliable(d.world, c, m, o) { StaysAppliable(w, d.world, job.cr, c, m, o); }
    CalmApplyAll(d.world, job.cr, c, ms, o);
    ApplyAllEntries(d.world, c, ms, o);
    ApplyAllLawful(d.world, job.cr, c, ms, o);
    LawfulTransitive(w, d.world, ApplyAll(d.world, c, ms, o).world, job.cr, o);
  }

  lemma SmoothPrune(w: LoneWorld, d: Draft, job: Job, side: Side)
    requires Smooth(w, d, job)
    ensures Smooth(w, PruneSide(d, job, side), job)
  {
    hide Prune;
    hide Calm;
    var c, es, keys := ClusterOf(job.cr, side), StatusForDelete(Inventory(job.cr, side)), d.Keys(side);
    CalmPrune(d.world, c, es, keys, job.cr, job.owner);
    PruneLawful(d.world, c, es, keys, job.cr, job.owner);
    LawfulTransitive(w, d.world, Prune(d.world, c, es, keys, job.cr, job.owner).world, job.cr, job.owner);
  }

  lemma CalmSettle(w: LoneWorld, job: Job)
    requires Calm(w) && JobAppliable(w, job)
    ensures var s := Settle(w, job, Ready);
            !s.err && Smooth(w, s.draft, job)
  {
    hide ApplySide;
    hide PruneSide;
    hide JobAppliable;
    var first := if ShootFirst(job.cr) then ShootSide else SeedSide;
    var d := StartDraft(w, job);
    LawfulRefl(w, job.cr, job.owner);
    assert Smooth(w, d, job);
    hide Smooth;
    var d1 := ApplySide(d, job, first);
    var d2 := ApplySide(d1, job, Other(first));
    var d3 := PruneSide(d2, job, Other(first));
    var d4 := PruneSide(d3, job, first);
    SmoothApply(w, d, job, first);
    SmoothApply(w, d1, job, Other(first));
    SmoothPrune(w, d2, job, Other(first));
    SmoothPrune(w, d3, job, first);
    assert Settle(w, job, Ready) == SettleBoth(d4);
    SmoothEnds(w, d4, job);
  }

  lemma SmoothEnds(w: World, d: Draft, job: Job)
    requires Smooth(w, d, job)
    ensures !SettleBoth(d).err
  {
  }

  /** An undisturbed pass with a ready shoot over appliable renders is error-free. */
  lemma CalmPass(w: LoneWorld, o: string, input: Input)
    requires Delivers(w, o, input) && input.phase == Ready && Calm(w)
    requires JobAppliable(w, PassJob(w, o, input))
    ensures var r := Pass(w, o, input); !r.err && Calm(r.world)
    ensures Lawful(w, Pass(w, o, input).world.(crs := w.crs), w.crs[o], o)
  {
    hide PlanOf;
    hide Settle;
    hide SaveStatus;
    hide JobAppliable;
    var job := PassJob(w, o, input);
    var s := Settle(w, job, Ready);
    CalmSettle(w, job);
    CalmSaves(s.draft.world, o, job.cr.status.(seed := s.seed, shoot := s.shoot, ready := Some(s.ready)), false);
    PassLawful(w, o, input);
  }

  // ------------------------------------------------------------- Steady state

  /** The world after the first `n` of some passes of `o`. */
  ghost function Repeated(w: World, o: string, inputs: seq<Input>, n: nat): World
    requires n <= |inputs|
  {
    if n == 0 then w else Pass(Repeated(w, o, inputs, n - 1), o, inputs[n - 1]).world
  }

  /** The pass delivers `plan` with a ready shoot and without an error. */
  ghost predicate CleanPass(w: World, o: string, input: Input, plan: Transforms.Plan) {
    Delivers(w, o, input) && input.phase == Ready && PlanOf(input) == plan && !Pass(w, o, input).err
  }

  ghost predicate Steady(w: World, o: string, inputs: seq<Input>, plan: Transforms.Plan) {
    forall i :: 0 <= i < |inputs| ==> CleanPass(Repeated(w, o, inputs, i), o, inputs[i], plan)
  }

  lemma {:induction false} RepeatedKeeps(w: World, o: string, inputs: seq<Input>, n: nat)
    requires o in w.crs && n <= |inputs|
    ensures var v := Repeated(w, o, inputs, n);
            v.scope == w.scope && v.answers == w.answers && o in v.crs && SameSpec(w.crs[o], v.crs[o])
  {
    hide Pass;
    if n > 0 {
      RepeatedKeeps(w, o, inputs, n - 1);
      PassResource(Repeated(w, o, inputs, n - 1), o, inputs[n - 1]);
    }
  }

  /**
    The steady state: from the second of any number of error-free passes over the same renders on,
    a rendered object is live and owned if and only if no stray manifest of the render has its
    address. One that has is applied and deleted again by every pass.
   */
  lemma SteadyState(w: LoneWorld, o: string, inputs: seq<Input>, plan: Transforms.Plan, side: Side, m: Manifest, n: nat)
    requires Steady(w, o, inputs, plan) && 2 <= n <= |inputs|
    requires CleanPass(w, o, inputs[0], plan) && m in PassJob(w, o, inputs[0]).Render(side)
    ensures var job := PassJob(w, o, inputs[0]);
            var v, a := Repeated(w, o, inputs, n), w.AddrOf(ClusterOf(job.cr, side), m);
            && (v.OwnedAt(a, o) <==> !StrayRendered(w, job, side, m))
            && (StrayRendered(w, job, side, m) ==> DeletedIn(v.log, |Repeated(w, o, inputs, n - 1).log|, a))
  {
    hide Pass;
    hide PlanOf;
    hide Names;
    hide ManifestIdentity;
    hide Stray;
    var job, v, v1 := PassJob(w, o, inputs[0]), Repeated(w, o, inputs, n - 2), Repeated(w, o, inputs, n - 1);
    assert CleanPass(v, o, inputs[n - 2], plan) && CleanPass(v1, o, inputs[n - 1], plan);
    RepeatedKeeps(w, o, inputs, n - 1);
    RepeatedKeeps(w, o, inputs, n - 2);
    Fixpoint(v, o, inputs[n - 2], inputs[n - 1], side);
    StrayAlike(w, v1, job, PassJob(v1, o, inputs[n - 1]), side, m);
  }

  lemma StrayAlike(w: World, w': World, job: Job, job': Job, side: Side, m: Manifest)
    requires w.scope == w'.scope && job.Render(side) == job'.Render(side) && job.cr.shootId == job'.cr.shootId
    ensures StrayRendered(w, job, side, m) <==> StrayRendered(w', job', side, m)
    ensures w.AddrOf(ClusterOf(job.cr, side), m) == w'.AddrOf(ClusterOf(job'.cr, side), m)
  {
    hide ManifestIdentity;
    if n :| StrayAt(w, job, side, m, n) { assert StrayAt(w', job', side, m, n); }
    if n :| StrayAt(w', job', side, m, n) { assert StrayAt(w, job, side, m, n); }
  }

  /** Undisturbed, appliable renders stay appliable and every pass over them is clean. */
  lemma {:induction false} CalmRepeats(w: LoneWorld, o: string, input: Input, inputs: seq<Input>, n: nat)
    requires Delivers(w, o, input) && input.phase == Ready && Calm(w) && JobAppliable(w, PassJob(w, o, input))
    requires n <= |inputs| && forall i :: 0 <= i < |inputs| ==> inputs[i] == input
    ensures var v := Repeated(w, o, inputs, n);
            && Delivers(v, o, input) && Calm(v) && v.answers == w.answers && JobAppliable(v, PassJob(v, o, input))
            && CleanPass(v, o, input, PlanOf(input))
    ensures forall i :: 0 <= i < n ==> CleanPass(Repeated(w, o, inputs, i), o, inputs[i], PlanOf(input))
  {
    hide Pass;
    hide Delivers;
    hide Calm;
    hide JobAppliable;
    if n > 0 {
      CalmRepeats(w, o, input, inputs, n - 1);
      CalmStep(Repeated(w, o, inputs, n - 1), o, input);
    } else {
      CalmStep(w, o, input);
    }
    CalmStep(Repeated(w, o, inputs, n), o, input);
  }

  lemma CalmStep(w: LoneWorld, o: string, input: Input)
    requires Delivers(w, o, input) && input.phase == Ready && Calm(w) && JobAppliable(w, PassJob(w, o, input))
    ensures CleanPass(w, o, input, PlanOf(input))
    ensures var v := Pass(w, o, input).world;
            Delivers(v, o, input) && Calm(v) && v.answers == w.answers && JobAppliable(v, PassJob(v, o, input))
  {
    hide Pass;
    hide PlanOf;
    hide Settle;
    hide Calm;
    hide JobAppliable;
    hide Lawful;
    var v := Pass(w, o, input).world;
    CalmPass(w, o, input);
    ErrorFreeDelivers(w, o, input);
    PassLawful(w, o, input);
    LawfulScope(w, v.(crs := w.crs), w.crs[o], o);
    StaysJobAppliable(w, v, o, input);
  }

  lemma StaysJobAppliable(w: World, w': World, o: string, input: Input)
    requires Delivers(w, o, input) && Delivers(w', o, input) && SameSpec(w.crs[o], w'.crs[o])
    requires JobAppliable(w, PassJob(w, o, input)) && Lawful(w, w'.(crs := w.crs), w.crs[o], o)
    ensures JobAppliable(w', PassJob(w', o, input))
  {
    hide Lawful;
    hide PlanOf;
    hide Appliable;
    var job, job' := PassJob(w, o, input), PassJob(w', o, input);
    forall s: Side, m | m in job'.Render(s) ensures Appliable(w', ClusterOf(job'.cr, s), m, o) {
      assert m in job.Render(s) && ClusterOf(job'.cr, s) == ClusterOf(job.cr, s);
      StaysAppliable(w, w'.(crs := w.crs), w.crs[o], ClusterOf(job.cr, s), m, o);
      AppliableAlike(w'.(crs := w.crs), w', ClusterOf(job.cr, s), m, o);
    }
  }

  lemma AppliableAlike(w: World, w': World, c: Cluster, m: Manifest, o: string)
    requires w.live == w'.live && w.scope == w'.scope && Appliable(w, c, m, o)
    ensures Appliable(w', c, m, o)
  {
  }

  /** Any number of undisturbed passes, two or more: each is clean, and exactly the stray objects are missing. */
  lemma UndisturbedPasses(w: LoneWorld, o: string, input: Input, inputs: seq<Input>, side: Side, m: Manifest)
    requires Delivers(w, o, input) && input.phase == Ready && Calm(w) && JobAppliable(w, PassJob(w, o, input))
    requires |inputs| >= 2 && forall i :: 0 <= i < |inputs| ==> inputs[i] == input
    requires m in PassJob(w, o, input).Render(side)
    ensures var job := PassJob(w, o, input);
            var v, a := Repeated(w, o, inputs, |inputs|), w.AddrOf(ClusterOf(job.cr, side), m);
            && Steady(w, o, inputs, PlanOf(input))
            && (v.OwnedAt(a, o) <==> !StrayRendered(w, job, side, m))
            && (StrayRendered(w, job, side, m) ==> DeletedIn(v.log, |Repeated(w, o, inputs, |inputs| - 1).log|, a))
  {
    hide Repeated;
    hide CleanPass;
    hide PlanOf;
    hide StrayRendered;
    CalmRepeats(w, o, input, inputs, |inputs|);
    CalmRepeats(w, o, input, inputs, 0);
    RepeatedNone(w, o, inputs);
    SteadyState(w, o, inputs, PlanOf(input), side, m, |inputs|);
  }

  lemma RepeatedNone(w: World, o: string, inputs: seq<Input>)
    ensures Repeated(w, o, inputs, 0) == w
  {
    hide Pass;
  }

  // ---------------------------------------------------------- Ready is reached

  /** Whatever a read shows, these manifests are graded Healthy. */
  ghost predicate GradesHealthy(w: World, ms: seq<Manifest>) {
    forall m, i :: m in ms ==> ComputeHealth(m.kind, w.answers(i).view) == Healthy
  }

  lemma CalmApplyHealthy(w: LoneWorld, c: Cluster, m: Manifest, o: string)
    requires Calm(w) && Appliable(w, c, m, o)
    requires forall i :: ComputeHealth(m.kind, w.answers(i).view) == Healthy
    ensures Apply(w, c, m, o).status.health == Healthy
  {
    hide ComputeHealth;
    hide Stamp;
    hide ManifestIdentity;
    CalmApply(w, c, m, o);
    ApplyEffect(w, c, m, o);
    var a := w.AddrOf(c, m);
    var g := if IsClusterScoped(m.kind) then ForeignOwner(w, a, o) else Guarded(w, Clear);
    var p := Patch(g.world, c, Stamp(m, o));
    assert p.world.Next().fault.Fine?;
  }

  lemma {:induction false} CalmAllHealthy(w: LoneWorld, cr: CR, c: Cluster, ms: seq<Manifest>, o: string)
    requires Calm(w) && (c == Seed || c == Shoot(cr.shootId)) && GradesHealthy(w, ms)
    requires forall m :: m in ms ==> Appliable(w, c, m, o)
    ensures forall rs :: rs in ApplyAll(w, c, ms, o).statuses ==> rs.health == Healthy
  {
    hide Apply;
    if ms != [] {
      var before := ApplyAll(w, c, Init(ms), o).world;
      CalmAllHealthy(w, cr, c, Init(ms), o);
      CalmApplyAll(w, cr, c, Init(ms), o);
      ApplyAllLawful(w, cr, c, Init(ms), o);
      StaysAppliable(w, before, cr, c, Last(ms), o);
      assert Last(ms) in ms && before.answers == w.answers;
      CalmApplyHealthy(before, c, Last(ms), o);
    }
  }

  lemma SmoothHealthy(w: LoneWorld, d: Draft, job: Job, side: Side)
    requires JobAppliable(w, job) && Smooth(w, d, job) && GradesHealthy(w, job.Render(side))
    ensures var d' := ApplySide(d, job, side);
            && (forall rs :: rs in d'.Statuses(side) ==> rs.health == Healthy)
            && d'.Statuses(Other(side)) == d.Statuses(Other(side))
  {
    hide ApplyAll;
    hide Calm;
    var c, ms, o := ClusterOf(job.cr, side), job.Render(side), job.owner;
    forall m | m in ms ensures Appliable(d.world, c, m, o) { StaysAppliable(w, d.world, job.cr, c, m, o); }
    assert GradesHealthy(d.world, ms);
    CalmAllHealthy(d.world, job.cr, c, ms, o);
  }

  lemma SmoothPruneKeeps(w: LoneWorld, d: Draft, job: Job, side: Side)
    requires Smooth(w, d, job)
    ensures PruneSide(d, job, side).seed == d.seed && PruneSide(d, job, side).shoot == d.shoot
  {
    hide Prune;
    hide Calm;
    var c, es, keys := ClusterOf(job.cr, side), StatusForDelete(Inventory(job.cr, side)), d.Keys(side);
    CalmPrune(d.world, c, es, keys, job.cr, job.owner);
    PruneRetained(d.world, c, es, keys, job.cr, job.owner);
  }

  lemma CalmSettleReady(w: LoneWorld, job: Job)
    requires Calm(w) && JobAppliable(w, job) && GradesHealthy(w, job.seed) && GradesHealthy(w, job.shoot)
    ensures Settle(w, job, Ready).ready.status
  {
    hide ApplySide;
    hide PruneSide;
    hide JobAppliable;
    hide GradesHealthy;
    var first := if ShootFirst(job.cr) then ShootSide else SeedSide;
    var d := StartDraft(w, job);
    LawfulRefl(w, job.cr, job.owner);
    assert Smooth(w, d, job);
    hide Smooth;
    var d1 := ApplySide(d, job, first);
    var d2 := ApplySide(d1, job, Other(first));
    var d3 := PruneSide(d2, job, Other(first));
    SmoothApply(w, d, job, first);
    SmoothApply(w, d1, job, Other(first));
    SmoothPrune(w, d2, job, Other(first));
    SmoothHealthy(w, d, job, first);
    SmoothHealthy(w, d1, job, Other(first));
    SmoothPruneKeeps(w, d2, job, Other(first));
    SmoothPruneKeeps(w, d3, job, first);
    ConditionMeaning(d2.seed, d2.shoot);
    assert Settle(w, job, Ready).ready == ComputeConditions(d2.seed, d2.shoot);
  }

  /** Ready is attainable: an undisturbed pass over appliable renders that read back Healthy records Ready=True. */
  lemma CalmPassReady(w: LoneWorld, o: string, input: Input)
    requires Delivers(w, o, input) && input.phase == Ready && Calm(w)
    requires var job := PassJob(w, o, input);
             JobAppliable(w, job) && GradesHealthy(w, job.seed) && GradesHealthy(w, job.shoot)
    ensures var r := Pass(w, o, input); !r.err && o in r.world.crs && SaysReady(r.world.crs[o])
  {
    hide Pass;
    hide PlanOf;
    hide Settle;
    hide JobAppliable;
    hide GradesHealthy;
    CalmPass(w, o, input);
    ErrorFreeDelivers(w, o, input);
    CalmSettleReady(w, PassJob(w, o, input));
  }

  // ----------------------------------------------------------- Ready with an error

  /** A delivery of empty renders that may fail to read the one entry of the seed inventory. */
  lemma EmptyDelivery(w: LoneWorld, job: Job, rs: ResourceStatus)
    requires job.seed == [] && job.shoot == [] && job.cr.status.seed == [rs] && job.cr.status.shoot == []
    requires !KeepsCrd(job.cr, rs) && ShootFirst(job.cr) && w.answers(|w.log|).fault.Failed?
    ensures var s := Settle(w, job, Ready);
            && s.err && s.seed == [rs] && s.shoot == [] && s.draft.world == w.Tick(Read(w.StatusAddr(Seed, rs)))
            && s.ready == ComputeConditions([rs], [])
  {
    hide ComputeConditions;
    hide StatusIdentity;
    hide ManifestFromStatus;
    hide ManifestIdentity;
    RebuiltAddr(w, Seed, rs);
    OrderFacts([], [rs]);
    OrderFacts([], []);
    var d := StartDraft(w, job);
    assert ApplySide(ApplySide(d, job, ShootSide), job, SeedSide) == d;
    assert StatusForDelete([rs]) == [rs] && StatusForDelete([]) == [];
    assert Orphan(job.cr, d.Keys(SeedSide), rs);
    assert Prune(w, Seed, [], d.Keys(SeedSide), job.cr, job.owner) == Pruned(w, [], false);
    assert Init([rs]) == [] && Last([rs]) == rs;
    var d1 := PruneSide(d, job, SeedSide);
    assert d1.world == w.Tick(Read(w.StatusAddr(Seed, rs))) && d1.seed == [rs] && d1.pruneErr;
    assert PruneSide(d1, job, ShootSide) == d1;
  }

  lemma UnreadOrphan(w: LoneWorld, o: string, input: Input, rs: ResourceStatus)
    requires Delivers(w, o, input) && input.phase == Ready
    requires var job := PassJob(w, o, input);
             && job.seed == [] && job.shoot == [] && job.cr.status.seed == [rs] && job.cr.status.shoot == []
             && !KeepsCrd(job.cr, rs) && ShootFirst(job.cr)
    requires rs.health == Healthy && w.answers(|w.log|).fault.Failed? && w.answers(|w.log| + 1).fault.Fine?
    ensures var r := Pass(w, o, input); r.err && Recorded(r.world, o) && o in r.world.crs && SaysReady(r.world.crs[o])
  {
    hide Settle;
    hide PlanOf;
    hide KeepsCrd;
    hide StatusIdentity;
    EmptyDelivery(w, PassJob(w, o, input), rs);
    ConditionMeaning([rs], []);
  }

  /** Ready=True with an error exists: an orphan that was Healthy cannot be read. */
  lemma ReadyWithError() returns (w: LoneWorld, o: string, input: Input)
    ensures Delivers(w, o, input) && Pass(w, o, input).err
    ensures var w' := Pass(w, o, input).world; Recorded(w', o) && o in w'.crs && SaysReady(w'.crs[o])
  {
    hide Pass;
    hide StableSort;
    hide Recorded;
    hide SaysReady;
    var rs := ResourceStatus("v1", "ConfigMap", "ns", "c", Healthy);
    var cr := CR(true, false, false, "ShootFirst", "Delete", "s", CrStatus([rs], [], None, None));
    o := "me";
    w := World(map[], map[o := cr], {}, i => Answer(if i == 0 then Failed else Fine, map[], NoOne), []);
    input := Input(false, true, Some([]), Some([]), [], Ready);
    EmptyPlan(input);
    OrderFacts([], []);
    UnreadOrphan(w, o, input, rs);
  }

  // --------------------------------------------------------- What never settles

  /** Exactly when a rendered object is shadowed: by an entry of its name with a namespace, of an unlisted cluster-scoped kind. */
  lemma ShadowedIff(w: World, job: Job, side: Side, m: Manifest)
    requires m in job.Render(side) && Acceptable(ManifestIdentity(m))
    ensures Shadowed(w, job, side, m) <==>
            && (ClusterOf(job.cr, side), KindOf(m).group, m.kind) in w.scope && !IsClusterScoped(m.kind)
            && exists rs :: && rs in Inventory(job.cr, side) && rs.ns != ""
                            && StatusGroup(rs).group == KindOf(m).group && rs.kind == m.kind && rs.name == m.name
  {
    var c := ClusterOf(job.cr, side);
    if rs :| ShadowedBy(w, job, side, m, rs) { assert rs.kind == m.kind; }
    if (c, KindOf(m).group, m.kind) in w.scope && !IsClusterScoped(m.kind) {
      forall rs | && rs in Inventory(job.cr, side) && rs.ns != ""
                  && StatusGroup(rs).group == KindOf(m).group && rs.kind == m.kind && rs.name == m.name
        ensures ShadowedBy(w, job, side, m, rs)
      {
      }
    }
  }

  /** Strays are ordinary: a render with a namespace makes one of every manifest of an unlisted cluster-scoped kind. */
  lemma NamespacedStrays(w: World, c: Cluster, m: Manifest, ns: string)
    requires ns != "" && WellFormed(m.apiVersion)
    ensures Stray(w, c, ManifestIdentity(Namespaced(m, ns)))
            <==> (c, KindOf(m).group, m.kind) in w.scope && !IsClusterScoped(m.kind)
  {
  }

  /** A shadowed delivery exists: one error-free pass that says Ready and has deleted what it applied. */
  lemma OnePassMayNotConverge() returns (w: LoneWorld, o: string, input: Input, m: Manifest)
    ensures CleanPass(w, o, input, PlanOf(input)) && m in PassJob(w, o, input).seed
    ensures o in Pass(w, o, input).world.crs && SaysReady(Pass(w, o, input).world.crs[o])
    ensures !Pass(w, o, input).world.OwnedAt(w.AddrOf(Seed, m), o)
  {
    hide Pass;
    hide ComputeHealth;
    hide PlanOf;
    forall view ensures ComputeHealth("Widget", view) == Healthy { GradeMeaning("Widget", view); }
    var rs := ResourceStatus("example.org" + "/" + "v1", "Widget", "old", "w", Healthy);
    w, o, input, m := Widget("example.org", "v1", "Widget", [rs], map[]);
    var job := PassJob(w, o, input);
    FormatParses(GroupVersion("example.org", "v1"));
    assert rs in Inventory(job.cr, SeedSide);
    ShadowedIff(w, job, SeedSide, m);
    CalmPassReady(w, o, input);
    Converges(w, o, input, SeedSide);
  }

  /**
    Flapping: a custom object of an unlisted cluster-scoped kind, rendered into a namespace, is live
    after the first undisturbed pass and after no later one. Every pass proves it applied and
    Healthy and says Ready, and every later pass deletes it again.
   */
  lemma Flapping() returns (w: LoneWorld, o: string, input: Input, m: Manifest)
    ensures Delivers(w, o, input) && m in PassJob(w, o, input).seed
    ensures forall inputs: seq<Input> :: |inputs| >= 1 && (forall i :: 0 <= i < |inputs| ==> inputs[i] == input) ==>
              Flaps(w, o, m, inputs)
  {
    hide Pass;
    hide ComputeHealth;
    hide PlanOf;
    forall view ensures ComputeHealth("Widget", view) == Healthy { GradeMeaning("Widget", view); }
    w, o, input, m := Widget("example.org", "v1", "Widget", [], map[]);
    FormatParses(GroupVersion("example.org", "v1"));
    var job := PassJob(w, o, input);
    ShadowedIff(w, job, SeedSide, m);
    assert StrayAt(w, job, SeedSide, m, m);
    forall inputs: seq<Input> | |inputs| >= 1 && forall i :: 0 <= i < |inputs| ==> inputs[i] == input
      ensures Flaps(w, o, m, inputs)
    {
      WidgetFlaps(w, o, input, m, inputs);
    }
  }

  /** The last of some passes applied `m`, found it Healthy and says Ready; `m` is there only if it was the first. */
  ghost predicate Flaps(w: World, o: string, m: Manifest, inputs: seq<Input>)
    requires |inputs| >= 1
  {
    var n := |inputs|;
    var v, v' := Repeated(w, o, inputs, n - 1), Repeated(w, o, inputs, n);
    && !Pass(v, o, inputs[n - 1]).err && o in v'.crs && SaysReady(v'.crs[o])
    && ProvedHealthy(v, v', Seed, m, o)
    && (v'.OwnedAt(w.AddrOf(Seed, m), o) <==> n == 1)
    && (n > 1 ==> DeletedIn(v'.log, |v.log|, w.AddrOf(Seed, m)))
  }

  lemma WidgetFlaps(w: LoneWorld, o: string, input: Input, m: Manifest, inputs: seq<Input>)
    requires Delivers(w, o, input) && input.phase == Ready && Calm(w) && JobAppliable(w, PassJob(w, o, input))
    requires var job := PassJob(w, o, input);
             && m in job.seed && GradesHealthy(w, job.seed) && GradesHealthy(w, job.shoot)
             && !Shadowed(w, job, SeedSide, m) && StrayRendered(w, job, SeedSide, m)
    requires |inputs| >= 1 && forall i :: 0 <= i < |inputs| ==> inputs[i] == input
    ensures Flaps(w, o, m, inputs)
  {
    hide Pass;
    hide Delivers;
    hide JobAppliable;
    hide GradesHealthy;
    hide Shadowed;
    hide StrayRendered;
    hide Calm;
    hide CleanPass;
    hide SaysReady;
    hide ProvedHealthy;
    hide PlanOf;
    hide NobodyElse;
    var n := |inputs|;
    var v := Repeated(w, o, inputs, n - 1);
    CalmRepeats(w, o, input, inputs, n - 1);
    SameHealthy(w, v, o, input);
    ReadyAgain(v, o, input, m);
    if n == 1 {
      FirstLive(w, o, input, m);
    } else {
      UndisturbedPasses(w, o, input, inputs, SeedSide, m);
    }
  }

  lemma SameHealthy(w: World, v: World, o: string, input: Input)
    requires Delivers(w, o, input) && Delivers(v, o, input) && v.answers == w.answers
    requires GradesHealthy(w, PassJob(w, o, input).seed) && GradesHealthy(w, PassJob(w, o, input).shoot)
    ensures PassJob(v, o, input).seed == PassJob(w, o, input).seed
    ensures GradesHealthy(v, PassJob(v, o, input).seed) && GradesHealthy(v, PassJob(v, o, input).shoot)
  {
    hide PlanOf;
  }

  lemma FirstLive(w: LoneWorld, o: string, input: Input, m: Manifest)
    requires CleanPass(w, o, input, PlanOf(input)) && m in PassJob(w, o, input).seed
    requires !Shadowed(w, PassJob(w, o, input), SeedSide, m)
    ensures Pass(w, o, input).world.OwnedAt(w.AddrOf(Seed, m), o)
  {
    hide Pass;
    hide PlanOf;
    hide Names;
    hide Shadowed;
    Converges(w, o, input, SeedSide);
  }

  lemma ReadyAgain(w: LoneWorld, o: string, input: Input, m: Manifest)
    requires Delivers(w, o, input) && input.phase == Ready && Calm(w) && JobAppliable(w, PassJob(w, o, input))
    requires GradesHealthy(w, PassJob(w, o, input).seed) && GradesHealthy(w, PassJob(w, o, input).shoot)
    requires m in PassJob(w, o, input).seed
    ensures var r := Pass(w, o, input);
            !r.err && o in r.world.crs && SaysReady(r.world.crs[o]) && ProvedHealthy(w, r.world, Seed, m, o)
  {
    hide Pass;
    hide PlanOf;
    hide JobAppliable;
    hide GradesHealthy;
    hide Calm;
    hide ProvedHealthy;
    CalmPassReady(w, o, input);
    WritesReady(w, o, input);
    ReadyIsTrue(w, o, input, SeedSide);
  }

  /** An error-free delivery recorded its status. */
  lemma WritesReady(w: World, o: string, input: Input)
    requires Delivers(w, o, input) && !Pass(w, o, input).err
    ensures Recorded(Pass(w, o, input).world, o)
  {
    hide SaveStatus;
    hide PlanOf;
    hide Settle;
    var job := PassJob(w, o, input);
    var s := Settle(w, job, input.phase);
    SaveStatusFacts(s.draft.world, o, job.cr.status.(seed := s.seed, shoot := s.shoot, ready := Some(s.ready)));
  }

  /** Undisturbed, another resource's pass takes an object exactly if its render names the address. */
  lemma CalmTakenIffRendered(w: LoneWorld, o: string, p: string, input: Input, a: Addr)
    requires o != "" && p != o && w.OwnedAt(a, o)
    requires Delivers(w, p, input) && input.phase == Ready && Calm(w) && JobAppliable(w, PassJob(w, p, input))
    ensures var w' := Pass(w, p, input).world; var rendered := RenderedAt(w, PassJob(w, p, input), a);
            (Hit(w, w', a) <==> rendered) && (w'.OwnedAt(a, o) <==> !rendered)
  {
    hide Pass;
    hide PlanOf;
    hide JobAppliable;
    hide RenderedAt;
    hide Calm;
    CalmPass(w, p, input);
    CleanHitIff(w, p, input, a);
    TakenIffRendered(w, o, p, input, a);
  }

  /**
    A takeover exists: a cluster-scoped object of an unlisted kind that carries another owner's
    label is overwritten without an error, and the pass says Ready.
   */
  lemma TakeOver() returns (w: LoneWorld, o: string, input: Input, p: string, a: Addr)
    ensures CleanPass(w, p, input, PlanOf(input)) && p != o && w.OwnedAt(a, o)
    ensures (a.cluster, a.id.group, a.id.kind) in w.scope && !IsClusterScoped(a.id.kind)
    ensures var w' := Pass(w, p, input).world; w'.OwnedAt(a, p) && p in w'.crs && SaysReady(w'.crs[p])
  {
    hide Pass;
    hide ComputeHealth;
    hide PlanOf;
    forall view ensures ComputeHealth("Widget", view) == Healthy { GradeMeaning("Widget", view); }
    o := "you";
    a := At(Seed, Identity("example.org", "Widget", "", "w"));
    var theirs := Manifest("example.org" + "/" + "v1", "Widget", "", "w", map[OWNED_BY := o], map[], "", map[]);
    var m;
    w, p, input, m := Widget("example.org", "v1", "Widget", [], map[a := theirs]);
    FormatParses(GroupVersion("example.org", "v1"));
    ShadowedIff(w, PassJob(w, p, input), SeedSide, m);
    FirstLive(w, p, input, m);
    CalmPassReady(w, p, input);
  }

  /** One custom object in the seed render, of a kind that is cluster-scoped on the server, and undisturbed servers. */
  lemma Widget(group: string, version: string, kind: string, inventory: seq<ResourceStatus>, live: map<Addr, Manifest>)
    returns (w: LoneWorld, o: string, input: Input, m: Manifest)
    requires Free(group, '/') && Free(version, '/') && Free(kind, '/')
    requires kind != "" && group != "" && !IsClusterScoped(kind)
    requires forall view :: ComputeHealth(kind, view) == Healthy
    ensures w.live == live && o == "me" && w.log == []
    ensures Delivers(w, o, input) && input.phase == Ready && Calm(w) && JobAppliable(w, PassJob(w, o, input))
    ensures var job := PassJob(w, o, input);
            && m in job.seed && GradesHealthy(w, job.seed) && GradesHealthy(w, job.shoot) && job.cr.status.seed == inventory
    ensures w.scope == {(Seed, group, kind)} && m == Manifest(group + "/" + version, kind, "new", "w", map[], map[], "upstream", map[])
    ensures Acceptable(ManifestIdentity(m)) && ManifestIdentity(m) == Identity(group, kind, "new", "w")
    ensures CleanPass(w, o, input, PlanOf(input))
  {
    hide Pass;
    hide Settle;
    hide StableSort;
    hide Tier;
    hide IsClusterScoped;
    hide ComputeHealth;
    var apiVersion := group + "/" + version;
    FormatParses(GroupVersion(group, version));
    m := Manifest(apiVersion, kind, "new", "w", map[], map[], "upstream", map[]);
    var cr := CR(true, false, false, "ShootFirst", "Delete", "s", CrStatus(inventory, [], None, None));
    o := "me";
    w := World(live, map[o := cr], {(Seed, group, kind)}, _ => Answer(Fine, map[], NoOne), []);
    input := Input(false, true, Some([m]), Some([]), [], Ready);
    EmptyPlan(input);
    var id := Identity(group, kind, "new", "w");
    assert ManifestIdentity(m) == id;
    SlashFreeId(id);
    WidgetJob(w, o, input, m);
    hide Delivers;
    hide PlanOf;
    hide ManifestIdentity;
    hide JobAppliable;
    hide GradesHealthy;
    CalmPass(w, o, input);
  }

  lemma WidgetJob(w: LoneWorld, o: string, input: Input, m: Manifest)
    requires Delivers(w, o, input) && input.sourceOk && input.transforms == []
    requires input.seedRender == Some([m]) && input.shootRender == Some([])
    requires !IsClusterScoped(m.kind) && Acceptable(ManifestIdentity(m)) && ManifestIdentity(m).kind == m.kind
    requires forall view :: ComputeHealth(m.kind, view) == Healthy
    ensures var job := PassJob(w, o, input);
            && JobAppliable(w, job) && m in job.seed && job.cr == w.crs[o]
            && GradesHealthy(w, job.seed) && GradesHealthy(w, job.shoot)
  {
    hide StableSort;
    hide IsClusterScoped;
    hide ComputeHealth;
    hide ManifestIdentity;
    hide Acceptable;
    EmptyPlan(input);
    OrderFacts([m], []);
    OrderFacts([], []);
  }

  lemma EmptyPlan(input: Input)
    requires input.sourceOk && input.seedRender.Some? && input.shootRender.Some? && input.transforms == []
    ensures PlanOf(input) == Transforms.Planned(input.seedRender.value, input.shootRender.value)
  {
  }

  lemma SlashFreeId(id: Identity)
    requires Free(id.group, '/') && Free(id.kind, '/') && Free(id.ns, '/') && Free(id.name, '/')
    ensures id.SlashFree()
  {
  }
}

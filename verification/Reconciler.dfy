/** The reconciler as it runs: each method changes the API servers as the pass functions say. */
module Reconciling {
  import opened Trees
  import opened Manifests
  import opened Ordering
  import opened Api
  import opened Deliver
  import opened Transforms
  import opened Controller

  // ------------------------------------------------------- Reading a status list

  method HasFailed(statuses: seq<ResourceStatus>) returns (b: bool)
    ensures b == AnyFailed(statuses)
  {
    for i := 0 to |statuses|
      invariant forall k :: 0 <= k < i ==> statuses[k].health != Degraded
    {
      if statuses[i].health == Degraded { return true; }
    }
    return false;
  }

  method HasOnlyFailed(statuses: seq<ResourceStatus>) returns (b: bool)
    ensures b == AllFailed(statuses)
  {
    if |statuses| == 0 { return false; }
    for i := 0 to |statuses|
      invariant forall k :: 0 <= k < i ==> statuses[k].health == Degraded
    {
      if statuses[i].health != Degraded { return false; }
    }
    return true;
  }

  method HasProgressing(statuses: seq<ResourceStatus>) returns (b: bool)
    ensures b == AnyProgressing(statuses)
  {
    for i := 0 to |statuses|
      invariant forall k :: 0 <= k < i ==> statuses[k].health != Progressing && statuses[k].health != Unknown
    {
      if statuses[i].health == Progressing || statuses[i].health == Unknown { return true; }
    }
    return false;
  }

  method ReadyCondition(seed: seq<ResourceStatus>, shoot: seq<ResourceStatus>) returns (c: Condition)
    ensures c == ComputeConditions(seed, shoot)
  {
    var f1 := HasFailed(seed);
    var f2 := HasFailed(shoot);
    if f1 || f2 { return Condition(false, "ResourcesDegraded"); }
    var p1 := HasProgressing(seed);
    var p2 := HasProgressing(shoot);
    if p1 || p2 { return Condition(false, "Progressing"); }
    return Condition(true, "ReconcileSuccess");
  }

  /** `deletable` counts the entries that a deletion has to remove. */
  method CountDeletable(statuses: seq<ResourceStatus>, cr: CR) returns (n: nat)
    ensures n > 0 <==> exists rs :: rs in statuses && !KeepsCrd(cr, rs)
  {
    n := 0;
    for i := 0 to |statuses|
      invariant n > 0 <==> exists k :: 0 <= k < i && !KeepsCrd(cr, statuses[k])
    {
      if !KeepsCrd(cr, statuses[i]) { n := n + 1; }
    }
  }

  // ------------------------------------------------------------------ Walks

  method ApplyRender(applier: SSAApplier, ms: seq<Manifest>, ownedBy: string)
    returns (out: seq<ResourceStatus>, err: bool, left: seq<Manifest>)
    modifies applier.api
    ensures AppliedAll(applier.api.View(), out, err, left)
            == ApplyAll(old(applier.api.View()), applier.cluster, ms, ownedBy)
  {
    hide Apply;
    out, err, left := [], false, [];
    ghost var w := applier.api.View();
    for i := 0 to |ms|
      invariant AppliedAll(applier.api.View(), out, err, left) == ApplyAll(w, applier.cluster, ms[..i], ownedBy)
    {
      assert Init(ms[..i + 1]) == ms[..i] && Last(ms[..i + 1]) == ms[i];
      var st, e, m := applier.ApplyOne(ms[i], ownedBy);
      if e { err := true; }
      out := out + [st];
      left := left + [m];
    }
    assert ms[..|ms|] == ms;
  }

  method PruneOrphan(applier: SSAApplier, rs: ResourceStatus, ownedBy: string) returns (err: bool)
    modifies applier.api
    ensures Wrote(applier.api.View(), err)
            == PruneOne(old(applier.api.View()), applier.cluster, rs, ownedBy)
  {
    hide DeleteOwned;
    var m := ManifestFromStatus(rs);
    var r := applier.GetOne(m);
    if r.NotFound? || r.NoSuchKind? { return false; }
    if !r.Found? { return true; }
    if Owner(r.obj) != ownedBy { return false; }
    err := applier.DeleteOne(m, ownedBy);
  }

  method PruneRender(applier: SSAApplier, prev: seq<ResourceStatus>, current: seq<Manifest>, cr: CR, ownedBy: string)
    returns (retained: seq<ResourceStatus>, err: bool)
    modifies applier.api
    ensures Pruned(applier.api.View(), retained, err)
            == Prune(old(applier.api.View()), applier.cluster, StatusForDelete(prev), RenderKeys(current), cr, ownedBy)
  {
    hide PruneOne;
    hide StableSort;
    var currentKeys: set<string> := {};
    for i := 0 to |current|
      invariant currentKeys == RenderKeys(current[..i])
    {
      currentKeys := currentKeys + {ManifestIdentityKey(current[i])};
      assert forall m :: m in current[..i + 1] <==> m in current[..i] || m == current[i];
    }
    assert current[..|current|] == current;
    retained, err := [], false;
    ghost var w := applier.api.View();
    var es := StatusForDelete(prev);
    for i := 0 to |es|
      invariant Pruned(applier.api.View(), retained, err)
                == Prune(w, applier.cluster, es[..i], currentKeys, cr, ownedBy)
    {
      assert Init(es[..i + 1]) == es[..i] && Last(es[..i + 1]) == es[i];
      var rs := es[i];
      if StatusIdentityKey(rs) in currentKeys { continue; }
      if KeepsCrd(cr, rs) { continue; }
      var e := PruneOrphan(applier, rs, ownedBy);
      if e {
        err := true;
        retained := retained + [rs];
      }
    }
    assert es[..|es|] == es;
  }

  method DeleteRender(applier: SSAApplier, statuses: seq<ResourceStatus>, cr: CR, ownedBy: string) returns (err: bool)
    modifies applier.api
    ensures Wrote(applier.api.View(), err)
            == DeleteAll(old(applier.api.View()), applier.cluster, StatusForDelete(statuses), cr, ownedBy)
  {
    hide DeleteOwned;
    hide StableSort;
    err := false;
    ghost var w := applier.api.View();
    var es := StatusForDelete(statuses);
    for i := 0 to |es|
      invariant Wrote(applier.api.View(), err) == DeleteAll(w, applier.cluster, es[..i], cr, ownedBy)
    {
      assert Init(es[..i + 1]) == es[..i] && Last(es[..i + 1]) == es[i];
      if KeepsCrd(cr, es[i]) { continue; }
      var e := applier.DeleteOne(ManifestFromStatus(es[i]), ownedBy);
      if e { err := true; }
    }
    assert es[..|es|] == es;
  }

  // --------------------------------------------------------------- Delivery

  /** The state that the apply and prune closures of one delivery share. */
  class Delivery {
    const api: ApiServer
    const job: Job
    var seedStatuses: seq<ResourceStatus>
    var shootStatuses: seq<ResourceStatus>
    var seedManifests: seq<Manifest>
    var shootManifests: seq<Manifest>
    var applyErr: bool
    var pruneErr: bool

    ghost function AsDraft(): Draft
      reads this, api
    {
      Draft(api.View(), seedStatuses, shootStatuses, seedManifests, shootManifests, applyErr, pruneErr)
    }

    constructor (api: ApiServer, job: Job)
      ensures this.api == api && this.job == job
      ensures AsDraft() == StartDraft(api.View(), job)
    {
      this.api := api;
      this.job := job;
      seedStatuses, shootStatuses := [], job.cr.status.shoot;
      seedManifests, shootManifests := job.seed, job.shoot;
      applyErr, pruneErr := false, false;
    }

    method ApplyOn(side: Side, applier: SSAApplier)
      requires applier.api == api && applier.cluster == ClusterOf(job.cr, side)
      modifies this`seedStatuses, this`shootStatuses, this`seedManifests, this`shootManifests, this`applyErr, api
      ensures AsDraft() == ApplySide(old(AsDraft()), job, side)
    {
      hide ApplyAll;
      var out, err, left := ApplyRender(applier, job.Render(side), job.owner);
      if side == SeedSide {
        seedStatuses, seedManifests := out, left;
      } else {
        shootStatuses, shootManifests := out, left;
      }
      if err { applyErr := true; }
    }

    method PruneOn(side: Side, applier: SSAApplier)
      requires applier.api == api && applier.cluster == ClusterOf(job.cr, side)
      modifies this`seedStatuses, this`shootStatuses, this`pruneErr, api
      ensures AsDraft() == PruneSide(old(AsDraft()), job, side)
    {
      hide Prune;
      var current := if side == SeedSide then seedManifests else shootManifests;
      var retained, err := PruneRender(applier, Inventory(job.cr, side), current, job.cr, job.owner);
      if side == SeedSide { seedStatuses := seedStatuses + retained; } else { shootStatuses := shootStatuses + retained; }
      if err { pruneErr := true; }
    }
  }

  // -------------------------------------------------------------- Reconciler

  class Reconciler {
    const api: ApiServer
    const seedApplier: SSAApplier

    ghost predicate Valid() { seedApplier.api == api && seedApplier.cluster == Seed }

    constructor (api: ApiServer)
      ensures this.api == api && Valid()
    {
      this.api := api;
      this.seedApplier := new SSAApplier(api, Seed);
    }

    /** Runs both transformation pipelines over the two renders. */
    method MakePlan(input: Input) returns (plan: Plan)
      ensures plan == PlanOf(input)
    {
      if !input.sourceOk { return PlanFailed("InvalidSource"); }
      if input.seedRender.None? { return PlanFailed("SeedRenderFailed"); }
      if input.shootRender.None? { return PlanFailed("ShootRenderFailed"); }
      var ts := Build(input.transforms);
      if ts.None? { return PlanFailed("InvalidTransformation"); }
      plan := TransformBoth(ts.value, input.seedRender.value, input.shootRender.value);
    }

    /** Sets the Ready condition and writes the status; the error is returned whatever the write does. */
    method ErrStatus(o: string, cr: CR, reason: string) returns (err: bool)
      modifies api
      ensures err && api.View() == SaveStatus(old(api.View()), o, cr.status.(ready := Some(Condition(false, reason)))).world
    {
      var _ := api.UpdateStatus(o, cr.status.(ready := Some(Condition(false, reason))));
      err := true;
    }

    /** Writes both inventories and the condition. */
    method FinishPass(job: Job, seed: seq<ResourceStatus>, shoot: seq<ResourceStatus>, ready: Condition, fail: bool,
                      ghost s: Settled)
      returns (err: bool)
      requires s.draft.world == api.View() && s.seed == seed && s.shoot == shoot && s.ready == ready && s.err == fail
      modifies api
      ensures PassResult(api.View(), err) == Finish(s, job)
    {
      var outcome := api.UpdateStatus(job.owner, job.cr.status.(seed := seed, shoot := shoot, ready := Some(ready)));
      err := if outcome.Done? then fail else true;
    }

    /** The shoot client is missing: deliver the seed for SeedFirst only. */
    method DeliverWithoutShoot(d: Delivery, reason: string, fail: bool) returns (err: bool)
      requires Valid() && d.api == api && d.AsDraft() == StartDraft(api.View(), d.job)
      modifies d, api
      ensures PassResult(api.View(), err)
              == Finish(SettleWithoutShoot(old(api.View()), d.job, reason, fail), d.job)
    {
      hide ApplySide;
      hide PruneSide;
      ghost var s := SettleWithoutShoot(api.View(), d.job, reason, fail);
      var seedOut := d.job.cr.status.seed;
      if !ShootFirst(d.job.cr) {
        d.ApplyOn(SeedSide, seedApplier);
        d.PruneOn(SeedSide, seedApplier);
        seedOut := d.seedStatuses;
      }
      err := FinishPass(d.job, seedOut, d.shootStatuses, Condition(false, reason), fail, s);
    }

    method DeliverReady(d: Delivery, shootApplier: SSAApplier) returns (err: bool)
      requires Valid() && d.api == api && d.AsDraft() == StartDraft(api.View(), d.job)
      requires shootApplier.api == api && shootApplier.cluster == ClusterOf(d.job.cr, ShootSide)
      modifies d, api
      ensures PassResult(api.View(), err) == Finish(Settle(old(api.View()), d.job, Ready), d.job)
    {
      hide ApplySide;
      hide PruneSide;
      ghost var s := Settle(api.View(), d.job, Ready);
      if ShootFirst(d.job.cr) {
        d.ApplyOn(ShootSide, shootApplier);
        var failed := HasFailed(d.shootStatuses);
        if failed {
          var all := HasOnlyFailed(d.shootStatuses);
          var reason := if all then "ShootApplyFailed" else "ResourcesDegraded";
          d.PruneOn(ShootSide, shootApplier);
          err := FinishPass(d.job, d.job.cr.status.seed, d.shootStatuses, Condition(false, reason), true, s);
          return;
        }
        d.ApplyOn(SeedSide, seedApplier);
        d.PruneOn(SeedSide, seedApplier);
        d.PruneOn(ShootSide, shootApplier);
      } else {
        d.ApplyOn(SeedSide, seedApplier);
        d.ApplyOn(ShootSide, shootApplier);
        d.PruneOn(ShootSide, shootApplier);
        d.PruneOn(SeedSide, seedApplier);
      }
      var ready := ReadyCondition(d.seedStatuses, d.shootStatuses);
      err := FinishPass(d.job, d.seedStatuses, d.shootStatuses, ready, d.applyErr || d.pruneErr, s);
    }

    method DeleteBoth(o: string, cr: CR, reachable: bool) returns (seedErr: bool, shootErr: bool, pending: bool)
      requires Valid()
      modifies api
      ensures TornDown(api.View(), seedErr, shootErr) == TearDown(old(api.View()), o, cr, reachable)
      ensures pending == Pending(cr)
    {
      hide DeleteAll;
      var n := CountDeletable(cr.status.shoot, cr);
      pending := n > 0;
      seedErr, shootErr := false, false;
      if !(pending && reachable) {
        seedErr := DeleteRender(seedApplier, cr.status.seed, cr, o);
        return;
      }
      var shootApplier := new SSAApplier(api, Shoot(cr.shootId));
      if cr.applyOrder == "SeedFirst" {
        shootErr := DeleteRender(shootApplier, cr.status.shoot, cr, o);
        seedErr := DeleteRender(seedApplier, cr.status.seed, cr, o);
      } else {
        seedErr := DeleteRender(seedApplier, cr.status.seed, cr, o);
        shootErr := DeleteRender(shootApplier, cr.status.shoot, cr, o);
      }
    }

    method ReconcileDelete(o: string, cr: CR, reachable: bool) returns (err: bool)
      requires Valid()
      modifies api
      ensures PassResult(api.View(), err) == DeletePass(old(api.View()), o, cr, reachable)
    {
      hide TearDown;
      var status := MarkDeleting(cr);
      var outcome := api.UpdateStatus(o, status);
      if outcome.Refused? { return true; }
      var seedErr, shootErr, pending := DeleteBoth(o, cr, reachable);
      if pending && !reachable { status := status.(ready := Some(Condition(false, "ShootUnreachable"))); }
      if seedErr { return true; }
      var shootDone := !pending || (reachable && !shootErr);
      if shootDone {
        var done := api.UpdateFinalizer(o, false);
        return !done.Done?;
      }
      if cr.forceDelete {
        var _ := api.UpdateStatus(o, status.(cleanup := Some("ForceDeleted")));
        var done := api.UpdateFinalizer(o, false);
        return !done.Done?;
      }
      var blocked := api.UpdateStatus(o, status.(cleanup := Some("Blocked")));
      return !blocked.Done?;
    }

    /** `Reconcile`: one pass, exactly as `Pass` says. */
    method Reconcile(o: string, input: Input) returns (err: bool)
      requires Valid()
      modifies api
      ensures PassResult(api.View(), err) == Pass(old(api.View()), o, input)
    {
      if o !in api.crs { return false; }
      if input.readFails { return true; }
      var cr := api.crs[o];
      if cr.deleting {
        err := ReconcileDelete(o, cr, input.phase == Ready);
        return;
      }
      if !cr.finalizer {
        var done := api.UpdateFinalizer(o, true);
        return !done.Done?;
      }
      var plan := MakePlan(input);
      if plan.PlanFailed? {
        err := ErrStatus(o, cr, plan.reason);
        return;
      }
      hide Settle;
      var d := new Delivery(api, JobOf(o, cr, plan));
      match input.phase {
        case CredsNotReady =>
          SettlesWithoutShoot(api.View(), d.job);
          err := DeliverWithoutShoot(d, "WaitingForShootCredentials", false);
        case ClientFailed =>
          SettlesWithoutShoot(api.View(), d.job);
          err := DeliverWithoutShoot(d, "ShootApplyFailed", true);
        case Ready =>
          var shootApplier := new SSAApplier(api, Shoot(cr.shootId));
          err := DeliverReady(d, shootApplier);
      }
    }
  }

  lemma SettlesWithoutShoot(w: World, job: Job)
    ensures Settle(w, job, CredsNotReady) == SettleWithoutShoot(w, job, "WaitingForShootCredentials", false)
    ensures Settle(w, job, ClientFailed) == SettleWithoutShoot(w, job, "ShootApplyFailed", true)
  {
  }
}

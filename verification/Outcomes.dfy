/** What a pass returns, and what it writes into the status of its resource, case by case. */
module Outcomes {
  import opened Trees
  import opened Manifests
  import opened Ordering
  import opened Api
  import opened Deliver
  import opened Controller
  import opened Effects
  import opened Retention
  import opened Accounting
  import opened Passes
  import opened Teardown
  import opened Convergence
  import Transforms

  // ------------------------------------------------------ Passes that do not plan

  /** Exactly one member of the union is set. */
  ghost predicate OneMember(s: Transforms.Spec) {
    || (s.patch.Some? && s.rewrite.None? && s.filter.None?)
    || (s.patch.None? && s.rewrite.Some? && s.filter.None?)
    || (s.patch.None? && s.rewrite.None? && s.filter.Some?)
  }

  ghost predicate Rendered(input: Input) { input.sourceOk && input.seedRender.Some? && input.shootRender.Some? }

  ghost predicate AllOneMember(input: Input) {
    forall k :: 0 <= k < |input.transforms| ==> OneMember(input.transforms[k])
  }

  lemma BuildsIff(input: Input)
    ensures Transforms.Built(input.transforms).Some? <==> AllOneMember(input)
  {
    hide Transforms.Built;
    Transforms.BuiltExactly(input.transforms);
  }

  /** The renders get through the declared transformations. */
  ghost predicate Transformed(input: Input)
    requires Rendered(input) && AllOneMember(input)
  {
    BuildsIff(input);
    var ts := Transforms.Built(input.transforms).value;
    Transforms.RunAll(ts, input.seedRender.value).Some? && Transforms.RunAll(ts, input.shootRender.value).Some?
  }

  /**
    A pass can plan exactly if source and renders are there, every declared entry has one member, and
    both renders get through. Else the reason is that of the first of these that fails.
   */
  lemma PlanFailsIff(input: Input)
    ensures var plan := PlanOf(input);
            && (plan.Planned? <==> Rendered(input) && AllOneMember(input) && Transformed(input))
            && (!input.sourceOk ==> plan == Transforms.PlanFailed("InvalidSource"))
            && (input.sourceOk && input.seedRender.None? ==> plan == Transforms.PlanFailed("SeedRenderFailed"))
            && (input.sourceOk && input.seedRender.Some? && input.shootRender.None? ==>
                  plan == Transforms.PlanFailed("ShootRenderFailed"))
            && (Rendered(input) && !AllOneMember(input) ==> plan == Transforms.PlanFailed("InvalidTransformation"))
  {
    hide Transforms.Built;
    hide Transforms.RunAll;
    hide AllOneMember;
    BuildsIff(input);
    if Rendered(input) && AllOneMember(input) {
      Transforms.FusedReason(Transforms.Built(input.transforms).value, input.seedRender.value, input.shootRender.value);
      hide Transforms.Fused;
    }
  }

  /** A failing transformation is reported for the render on which it fails first, the seed's turn coming first. */
  lemma TransformReason(input: Input)
    requires Rendered(input) && AllOneMember(input)
    ensures Transforms.Built(input.transforms).Some?
    ensures var ts := Transforms.Built(input.transforms).value;
            var seed, shoot := input.seedRender.value, input.shootRender.value;
            && (PlanOf(input) == Transforms.PlanFailed("SeedTransformFailed") <==>
                  exists n: nat :: Transforms.FirstFailure(ts, seed, n) && Transforms.RunAll(ts[..n], shoot).Some?)
            && (PlanOf(input) == Transforms.PlanFailed("ShootTransformFailed") <==>
                  exists n: nat :: Transforms.FirstFailure(ts, shoot, n) && Transforms.RunAll(ts[..n + 1], seed).Some?)
  {
    hide Transforms.Built;
    hide Transforms.RunAll;
    BuildsIff(input);
    Transforms.FusedReason(Transforms.Built(input.transforms).value, input.seedRender.value, input.shootRender.value);
    hide Transforms.Fused;
  }

  /** The pass reads its resource, which is guarded and not being deleted. */
  ghost predicate Proceeds(w: World, o: string, input: Input) {
    o in w.crs && !input.readFails && !w.crs[o].deleting && w.crs[o].finalizer
  }

  /**
    A pass that cannot plan returns an error, whatever becomes of its one request, a status write.
    That write changes the Ready condition and nothing else; both inventories stay.
   */
  lemma FailedPlanPass(w: World, o: string, input: Input)
    requires Proceeds(w, o, input)
    requires !(Rendered(input) && AllOneMember(input) && Transformed(input))
    ensures PlanOf(input).PlanFailed?
    ensures var r, effect := Pass(w, o, input), TakesEffect(w.Next().fault);
            var says := w.crs[o].status.(ready := Some(Condition(false, PlanOf(input).reason)));
            && r.err
            && r.world.log == w.log + [WroteStatus(o, effect)]
            && r.world.crs == (if effect then w.crs[o := w.crs[o].(status := says)] else w.crs)
            && r.world.live == w.Met().live && (NobodyElse(w.answers) ==> r.world.live == w.live)
  {
    hide PlanOf;
    hide Settle;
    hide AllOneMember;
    hide Transformed;
    PlanFailsIff(input);
  }

  /** A pass of a resource that is gone does nothing, one that cannot read its resource fails. */
  lemma UnreadPass(w: World, o: string, input: Input)
    ensures o !in w.crs ==> Pass(w, o, input) == PassResult(w, false)
    ensures o in w.crs && input.readFails ==> Pass(w, o, input) == PassResult(w, true)
  {
  }

  /** The first pass only sets the finalizer, and fails exactly if that write is not served. */
  lemma FirstPass(w: World, o: string, input: Input)
    requires o in w.crs && !input.readFails && !w.crs[o].deleting && !w.crs[o].finalizer
    ensures var r, effect := Pass(w, o, input), TakesEffect(w.Next().fault);
            && (r.err <==> !w.Next().fault.Fine?)
            && r.world.log == w.log + [WroteFinalizer(o, effect)]
            && r.world.crs == (if effect then w.crs[o := w.crs[o].(finalizer := true)] else w.crs)
            && r.world.live == w.Met().live
  {
  }

  // ---------------------------------------------------------------- Deliveries

  /** The fault of the last request of a pass. */
  ghost function LastFault(w': World): Fault
    requires w'.log != []
  {
    w'.answers(|w'.log| - 1).fault
  }

  lemma FinishFacts(s: Settled, job: Job)
    requires job.owner in s.draft.world.crs && s.draft.world.crs[job.owner] == job.cr
    ensures var r := Finish(s, job);
            && |r.world.log| == |s.draft.world.log| + 1
            && (r.err <==> s.err || !LastFault(r.world).Fine?)
            && job.owner in r.world.crs
            && r.world.crs[job.owner] ==
               (if TakesEffect(LastFault(r.world))
                then job.cr.(status := job.cr.status.(seed := s.seed, shoot := s.shoot, ready := Some(s.ready))) else job.cr)
  {
  }

  lemma FinishedPass(w: World, o: string, input: Input)
    requires Delivers(w, o, input)
    ensures var job := PassJob(w, o, input); Pass(w, o, input) == Finish(Settle(w, job, input.phase), job)
  {
    hide PlanOf;
    hide Settle;
    hide Finish;
  }

  /**
    Without a shoot client a pass errs exactly if building the client failed or its status write is not
    served; waiting for credentials is no error. It says so, keeps the shoot inventory, and unless
    the order is SeedFirst sends nothing but that write and keeps the seed inventory too.
   */
  lemma ShootlessPass(w: World, o: string, input: Input)
    requires Delivers(w, o, input) && input.phase != Ready
    ensures var r, was := Pass(w, o, input), w.crs[o];
            && |r.world.log| > |w.log| && o in r.world.crs
            && (r.err <==> input.phase == ClientFailed || !LastFault(r.world).Fine?)
            && (TakesEffect(LastFault(r.world)) ==>
                  r.world.crs[o].status.ready ==
                  Some(Condition(false, if input.phase == ClientFailed then "ShootApplyFailed" else "WaitingForShootCredentials")))
            && (!TakesEffect(LastFault(r.world)) ==> r.world.crs[o] == was)
            && r.world.crs[o].status.shoot == was.status.shoot
            && (was.applyOrder != "SeedFirst" ==>
                  |r.world.log| == |w.log| + 1 && r.world.crs[o].status.seed == was.status.seed)
  {
    hide PlanOf;
    hide ApplyAll;
    hide Prune;
    hide Finish;
    var job := PassJob(w, o, input);
    FinishedPass(w, o, input);
    FinishFacts(Settle(w, job, input.phase), job);
  }

  /** An apply of the side failed, or some orphan of it had to be retained. */
  ghost predicate InTrouble(s: Settled, job: Job, side: Side) {
    var out, n := Written(s, side), |job.Render(side)|;
    |out| > n || exists i :: 0 <= i < |out| && i < n && out[i].health == Degraded
  }

  lemma TroubleIff(w: World, s: Settled, job: Job, side: Side, wa: World, wp: World)
    requires SideRan(w, s, job, side, wa, wp)
    ensures SideErred(s, job, side, wa, wp) <==> InTrouble(s, job, side)
  {
    hide ApplyAll;
    hide Prune;
    var a, p := SideApply(wa, job, side), SidePrune(wp, job, side, s.draft.Keys(side));
    ApplyAllEntries(wa, ClusterOf(job.cr, side), job.Render(side), job.owner);
    PruneRetained(wp, ClusterOf(job.cr, side), StatusForDelete(Inventory(job.cr, side)), s.draft.Keys(side), job.cr, job.owner);
    var out := Written(s, side);
    if rs :| rs in a.statuses && rs.health == Degraded {
      var i :| 0 <= i < |a.statuses| && a.statuses[i] == rs;
      assert out[i] == rs;
    }
    if i :| 0 <= i < |job.Render(side)| && out[i].health == Degraded { assert a.statuses[i] in a.statuses; }
  }

  lemma StoppedInTrouble(w: World, job: Job)
    requires Settle(w, job, Ready).applied == {ShootSide}
    ensures Settle(w, job, Ready).err && InTrouble(Settle(w, job, Ready), job, ShootSide)
  {
    hide Settle;
    hide ApplyAll;
    hide Prune;
    DegradedPath(w, job);
    var d1 := ApplySide(StartDraft(w, job), job, ShootSide);
    ApplyAllEntries(w, Shoot(job.cr.shootId), job.shoot, job.owner);
    var rs :| rs in d1.shoot && rs.health == Degraded;
    var i :| 0 <= i < |d1.shoot| && d1.shoot[i] == rs;
    assert Written(Settle(w, job, Ready), ShootSide)[i] == rs;
  }

  lemma ReadyApplies(w: World, job: Job)
    ensures var applied := Settle(w, job, Ready).applied; applied == {ShootSide} || applied == {SeedSide, ShootSide}
  {
    hide ApplySide;
    hide PruneSide;
    hide AnyFailed;
  }

  /**
    With a shoot client a pass errs exactly if an entry that it applied is Degraded, an orphan had to
    be retained, or its status write is not served.
   */
  lemma ReadyPassErrsIff(w: LoneWorld, o: string, input: Input)
    requires Delivers(w, o, input) && input.phase == Ready
    ensures var job, r := PassJob(w, o, input), Pass(w, o, input); var s := Settle(w, job, Ready);
            && |r.world.log| > |w.log| && o in r.world.crs
            && (r.err <==> !LastFault(r.world).Fine? || exists side :: side in s.applied && InTrouble(s, job, side))
            && (TakesEffect(LastFault(r.world)) ==>
                  r.world.crs[o].status.seed == s.seed && r.world.crs[o].status.shoot == s.shoot)
  {
    hide PlanOf;
    hide Settle;
    hide Finish;
    hide SideRan;
    hide SideErred;
    hide InTrouble;
    var job := PassJob(w, o, input);
    var s := Settle(w, job, Ready);
    FinishedPass(w, o, input);
    FinishFacts(s, job);
    ReadyApplies(w, job);
    if s.applied == {ShootSide} {
      StoppedInTrouble(w, job);
      assert ShootSide in s.applied && InTrouble(s, job, ShootSide);
    } else {
      var a1, p1, a2, p2 := BothSidesRan(w, job);
      TroubleIff(w, s, job, SeedSide, a1, p1);
      TroubleIff(w, s, job, ShootSide, a2, p2);
      assert SeedSide in s.applied && ShootSide in s.applied;
    }
  }

  // ----------------------------------------------------------------- Deletions

  /** A shoot that cannot be reached holds a deletion up exactly if some recorded object there is not a CRD that stays. */
  lemma UnreachableBlocksIff(w: World, o: string, cr: CR)
    ensures ShootBlocks(w, o, cr, false) <==>
            exists rs :: rs in cr.status.shoot && (rs.kind != "CustomResourceDefinition" || cr.crdPolicy == "Delete")
  {
  }

  lemma ConcludeSays(t: TornDown, o: string, cr: CR, reachable: bool, status: CrStatus)
    requires o in t.world.crs
    ensures var w' := Conclude(t, o, cr, reachable, status).world; var done := ShootDone(cr, reachable, t.shootErr);
            && o in w'.crs
            && w'.crs[o].status ==
               (if t.seedErr || done || !TakesEffect(Ahead(t.world, 0)) then t.world.crs[o].status
                else status.(cleanup := Some(if cr.forceDelete then "ForceDeleted" else "Blocked")))
  {
    hide Pending;
  }

  /**
    What a deletion pass writes: first that it is Deleting; then, only if the shoot keeps the finalizer
    on, whether that blocks or was forced, and that the shoot cannot be reached if so.
   */
  lemma DeletionSays(w: LoneWorld, o: string, cr: CR, reachable: bool)
    requires o in w.crs && w.crs[o] == cr
    ensures var w', end := DeletePass(w, o, cr, reachable).world, Concluding(w, o, cr, reachable);
            var blocks := Starts(w) && !SideFails(w, o, cr, reachable, SeedSide) && ShootBlocks(w, o, cr, reachable);
            && o in w'.crs
            && w'.crs[o].status ==
               if blocks && TakesEffect(Ahead(end, 0)) then
                 cr.status.(ready := Some(Condition(false, if reachable then "Deleting" else "ShootUnreachable")),
                            cleanup := Some(if cr.forceDelete then "ForceDeleted" else "Blocked"))
               else if TakesEffect(w.Next().fault) then cr.status.(ready := Some(Condition(false, "Deleting")))
               else cr.status
  {
    hide TearDown;
    hide Conclude;
    hide SideFails;
    hide Pending;
    var first := Marked(w, o, cr);
    SaveStatusFacts(w, o, MarkDeleting(cr));
    MarkedOutcome(w, o, cr);
    var t := TearDown(first, o, cr, reachable);
    TearDownErrsIff(w, o, cr, reachable);
    ConcludeSays(t, o, cr, reachable, MarkDeleting(cr));
    ConcludeSays(t, o, cr, reachable, cr.status.(ready := Some(Condition(false, "ShootUnreachable"))));
  }
}

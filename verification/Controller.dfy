/**
  One reconcile pass as a function of the world, the custom resource and the pass's inputs.
  `Reconciler` carries the same pass out step by step.
 */
module Controller {
  import opened Trees
  import opened Manifests
  import opened Ordering
  import opened Api
  import opened Deliver
  import opened Transforms

  datatype Phase = Ready | CredsNotReady | ClientFailed

  /** What a pass gets from outside: the read of the resource, the renders, the shoot client. */
  datatype Input = Input(
    readFails: bool, sourceOk: bool,
    seedRender: Option<seq<Manifest>>, shootRender: Option<seq<Manifest>>,
    transforms: seq<Spec>, phase: Phase)

  datatype Side = SeedSide | ShootSide

  function ClusterOf(cr: CR, side: Side): Cluster {
    if side == SeedSide then Seed else Shoot(cr.shootId)
  }

  function Inventory(cr: CR, side: Side): seq<ResourceStatus> {
    if side == SeedSide then cr.status.seed else cr.status.shoot
  }

  predicate ShootFirst(cr: CR) { cr.applyOrder != "SeedFirst" }

  /** A CRD entry under any policy but Delete is left in place. */
  predicate KeepsCrd(cr: CR, rs: ResourceStatus) { rs.kind == CRD && cr.crdPolicy != "Delete" }

  function PlanOf(input: Input): Plan {
    if !input.sourceOk then PlanFailed("InvalidSource")
    else if input.seedRender.None? then PlanFailed("SeedRenderFailed")
    else if input.shootRender.None? then PlanFailed("ShootRenderFailed")
    else match Built(input.transforms)
      case None => PlanFailed("InvalidTransformation")
      case Some(ts) => Fused(ts, input.seedRender.value, input.shootRender.value)
  }

  // -------------------------------------------------------------- applyAll

  datatype AppliedAll = AppliedAll(world: World, statuses: seq<ResourceStatus>, err: bool, left: seq<Manifest>)

  /** Applies every manifest in turn, whatever the earlier ones did. */
  function ApplyAll(w: World, c: Cluster, ms: seq<Manifest>, o: string): (r: AppliedAll)
    ensures Continues(w, r.world)
  {
    if ms == [] then AppliedAll(w, [], false, [])
    else
      var before := ApplyAll(w, c, Init(ms), o);
      var r := Apply(before.world, c, Last(ms), o);
      AppliedAll(r.world, before.statuses + [r.status], before.err || r.err, before.left + [r.left])
  }

  // ----------------------------------------------------------------- prune

  function RenderKeys(ms: seq<Manifest>): set<string> { set m | m in ms :: ManifestIdentityKey(m) }

  /** An entry that left the render and may be deleted. */
  predicate Orphan(cr: CR, keys: set<string>, rs: ResourceStatus) {
    StatusIdentityKey(rs) !in keys && !KeepsCrd(cr, rs)
  }

  datatype Pruned = Pruned(world: World, retained: seq<ResourceStatus>, err: bool)

  /** One orphan: read it, leave it if gone or foreign, delete it, and keep the entry on any error. */
  function PruneOne(w: World, c: Cluster, rs: ResourceStatus, o: string): (r: Wrote)
    ensures Continues(w, r.world)
  {
    var m := ManifestFromStatus(rs);
    var g := Get(w, w.AddrOf(c, m));
    match g.result
    case NotFound => Wrote(g.world, false)
    case NoSuchKind => Wrote(g.world, false)
    case Unavailable => Wrote(g.world, true)
    case Found(live, _) =>
      if Owner(live) != o then Wrote(g.world, false) else DeleteOwned(g.world, c, m, o)
  }

  function Prune(w: World, c: Cluster, entries: seq<ResourceStatus>, keys: set<string>, cr: CR, o: string): (r: Pruned)
    ensures Continues(w, r.world)
  {
    if entries == [] then Pruned(w, [], false)
    else
      var before := Prune(w, c, Init(entries), keys, cr, o);
      var rs := Last(entries);
      if !Orphan(cr, keys, rs) then before
      else
        var r := PruneOne(before.world, c, rs, o);
        Pruned(r.world, before.retained + (if r.err then [rs] else []), before.err || r.err)
  }

  // ------------------------------------------------------ The delivery paths

  /** The variables that the apply and prune closures share; the applies rewrite the manifests. */
  datatype Draft = Draft(
    world: World, seed: seq<ResourceStatus>, shoot: seq<ResourceStatus>,
    seedLeft: seq<Manifest>, shootLeft: seq<Manifest>,
    applyErr: bool, pruneErr: bool)
  {
    function Statuses(side: Side): seq<ResourceStatus> { if side == SeedSide then seed else shoot }

    function Left(side: Side): seq<Manifest> { if side == SeedSide then seedLeft else shootLeft }

    /** The keys that a prune of `side` compares the inventory with. */
    function Keys(side: Side): set<string> { RenderKeys(Left(side)) }

    function AllKeys(): KeyPair { KeyPair(Keys(SeedSide), Keys(ShootSide)) }
  }

  datatype KeyPair = KeyPair(seed: set<string>, shoot: set<string>)
  {
    function Of(side: Side): set<string> { if side == SeedSide then seed else shoot }
  }

  /** A delivery: the resource as read, its owner value, and the two sorted renders. */
  datatype Job = Job(owner: string, cr: CR, seed: seq<Manifest>, shoot: seq<Manifest>)
  {
    function Render(side: Side): seq<Manifest> { if side == SeedSide then seed else shoot }
  }

  function ApplySide(d: Draft, job: Job, side: Side): (d': Draft)
    ensures Continues(d.world, d'.world)
  {
    var r := ApplyAll(d.world, ClusterOf(job.cr, side), job.Render(side), job.owner);
    var next := d.(world := r.world, applyErr := d.applyErr || r.err);
    if side == SeedSide then next.(seed := r.statuses, seedLeft := r.left)
    else next.(shoot := r.statuses, shootLeft := r.left)
  }

  function PruneSide(d: Draft, job: Job, side: Side): (d': Draft)
    ensures Continues(d.world, d'.world)
  {
    var r := Prune(d.world, ClusterOf(job.cr, side), StatusForDelete(Inventory(job.cr, side)),
                   d.Keys(side), job.cr, job.owner);
    var next := d.(world := r.world, pruneErr := d.pruneErr || r.err);
    if side == SeedSide then next.(seed := d.seed + r.retained) else next.(shoot := d.shoot + r.retained)
  }

  predicate AnyFailed(ss: seq<ResourceStatus>) { exists rs :: rs in ss && rs.health == Degraded }

  predicate AllFailed(ss: seq<ResourceStatus>) { ss != [] && forall rs :: rs in ss ==> rs.health == Degraded }

  predicate AnyProgressing(ss: seq<ResourceStatus>) {
    exists rs :: rs in ss && (rs.health == Progressing || rs.health == Unknown)
  }

  function ComputeConditions(seed: seq<ResourceStatus>, shoot: seq<ResourceStatus>): Condition {
    if AnyFailed(seed) || AnyFailed(shoot) then Condition(false, "ResourcesDegraded")
    else if AnyProgressing(seed) || AnyProgressing(shoot) then Condition(false, "Progressing")
    else Condition(true, "ReconcileSuccess")
  }

  /** How a delivery ends before its status write: the sides it applied, what it writes, whether it errs. */
  datatype Settled = Settled(
    draft: Draft, applied: set<Side>,
    seed: seq<ResourceStatus>, shoot: seq<ResourceStatus>, ready: Condition, err: bool)

  function StartDraft(w: World, job: Job): Draft {
    Draft(w, [], job.cr.status.shoot, job.seed, job.shoot, false, false)
  }

  /** The shoot client is not available: only a SeedFirst resource delivers its seed render. */
  function SettleWithoutShoot(w: World, job: Job, reason: string, err: bool): (s: Settled)
    ensures Continues(w, s.draft.world)
  {
    var d := StartDraft(w, job);
    if ShootFirst(job.cr) then
      Settled(d, {}, job.cr.status.seed, job.cr.status.shoot, Condition(false, reason), err)
    else
      var d' := PruneSide(ApplySide(d, job, SeedSide), job, SeedSide);
      Settled(d', {SeedSide}, d'.seed, d'.shoot, Condition(false, reason), err)
  }

  /** A shoot failure stops a ShootFirst pass before the seed. */
  function SettleDegraded(d: Draft, job: Job): (s: Settled)
    ensures Continues(d.world, s.draft.world)
  {
    var reason := if AllFailed(d.shoot) then "ShootApplyFailed" else "ResourcesDegraded";
    var d' := PruneSide(d, job, ShootSide);
    Settled(d', {ShootSide}, job.cr.status.seed, d'.shoot, Condition(false, reason), true)
  }

  function SettleBoth(d: Draft): Settled {
    Settled(d, {SeedSide, ShootSide}, d.seed, d.shoot,
            ComputeConditions(d.seed, d.shoot), d.applyErr || d.pruneErr)
  }

  function Settle(w: World, job: Job, phase: Phase): (s: Settled)
    ensures Continues(w, s.draft.world)
  {
    match phase
    case CredsNotReady => SettleWithoutShoot(w, job, "WaitingForShootCredentials", false)
    case ClientFailed => SettleWithoutShoot(w, job, "ShootApplyFailed", true)
    case Ready =>
      var d := StartDraft(w, job);
      if ShootFirst(job.cr) then
        var d1 := ApplySide(d, job, ShootSide);
        if AnyFailed(d1.shoot) then SettleDegraded(d1, job)
        else SettleBoth(PruneSide(PruneSide(ApplySide(d1, job, SeedSide), job, SeedSide), job, ShootSide))
      else
        var d2 := ApplySide(ApplySide(d, job, SeedSide), job, ShootSide);
        SettleBoth(PruneSide(PruneSide(d2, job, ShootSide), job, SeedSide))
  }

  datatype PassResult = PassResult(world: World, err: bool)

  /** The same adversary and servers, and a longer log. */
  ghost predicate GoesOn(w: World, w': World) {
    w'.answers == w.answers && w'.scope == w.scope && w.log <= w'.log
  }

  /** The status write that ends a delivery; without it the new inventory is not recorded. */
  function Finish(s: Settled, job: Job): (r: PassResult)
    ensures GoesOn(s.draft.world, r.world)
  {
    var saved := SaveStatus(s.draft.world, job.owner,
                            job.cr.status.(seed := s.seed, shoot := s.shoot, ready := Some(s.ready)));
    PassResult(saved.world, if saved.outcome.Done? then s.err else true)
  }

  function JobOf(o: string, cr: CR, plan: Plan): Job
    requires plan.Planned?
  {
    Job(o, cr, ForApply(plan.seed), ForApply(plan.shoot))
  }

  // --------------------------------------------------------------- Deletion

  /** Deletes every entry that is not a kept CRD, going on after errors. */
  function DeleteAll(w: World, c: Cluster, entries: seq<ResourceStatus>, cr: CR, o: string): (r: Wrote)
    ensures Continues(w, r.world)
  {
    if entries == [] then Wrote(w, false)
    else
      var before := DeleteAll(w, c, Init(entries), cr, o);
      if KeepsCrd(cr, Last(entries)) then before
      else
        var r := DeleteOwned(before.world, c, ManifestFromStatus(Last(entries)), o);
        Wrote(r.world, before.err || r.err)
  }

  predicate Pending(cr: CR) { exists rs :: rs in cr.status.shoot && !KeepsCrd(cr, rs) }

  /** Both renders' deletes in reverse of the apply order; the shoot's only with a client. */
  datatype TornDown = TornDown(world: World, seedErr: bool, shootErr: bool)

  function DeleteSide(w: World, o: string, cr: CR, side: Side): (r: Wrote)
    ensures Continues(w, r.world)
  {
    DeleteAll(w, ClusterOf(cr, side), StatusForDelete(Inventory(cr, side)), cr, o)
  }

  function TearDown(w: World, o: string, cr: CR, reachable: bool): (t: TornDown)
    ensures Continues(w, t.world)
  {
    if !(Pending(cr) && reachable) then
      var seed := DeleteSide(w, o, cr, SeedSide);
      TornDown(seed.world, seed.err, false)
    else if ShootFirst(cr) then
      var seed := DeleteSide(w, o, cr, SeedSide);
      var shoot := DeleteSide(seed.world, o, cr, ShootSide);
      TornDown(shoot.world, seed.err, shoot.err)
    else
      var shoot := DeleteSide(w, o, cr, ShootSide);
      var seed := DeleteSide(shoot.world, o, cr, SeedSide);
      TornDown(seed.world, seed.err, shoot.err)
  }

  /** Nothing was pending on the shoot, or it was reached and every delete there succeeded. */
  predicate ShootDone(cr: CR, reachable: bool, shootErr: bool) {
    !Pending(cr) || (reachable && !shootErr)
  }

  /** After the deletes: keep the finalizer on a seed error or an unfinished shoot, unless forced. */
  function Conclude(t: TornDown, o: string, cr: CR, reachable: bool, status: CrStatus): (r: PassResult)
    ensures GoesOn(t.world, r.world)
  {
    if t.seedErr then PassResult(t.world, true)
    else if ShootDone(cr, reachable, t.shootErr) then
      var done := SaveFinalizer(t.world, o, false);
      PassResult(done.world, !done.outcome.Done?)
    else if cr.forceDelete then
      var noted := SaveStatus(t.world, o, status.(cleanup := Some("ForceDeleted")));
      var done := SaveFinalizer(noted.world, o, false);
      PassResult(done.world, !done.outcome.Done?)
    else
      var blocked := SaveStatus(t.world, o, status.(cleanup := Some("Blocked")));
      PassResult(blocked.world, !blocked.outcome.Done?)
  }

  function MarkDeleting(cr: CR): CrStatus { cr.status.(ready := Some(Condition(false, "Deleting"))) }

  function DeletePass(w: World, o: string, cr: CR, reachable: bool): (r: PassResult)
    ensures GoesOn(w, r.world)
  {
    var first := SaveStatus(w, o, MarkDeleting(cr));
    if first.outcome.Refused? then PassResult(first.world, true)
    else
      var status := if Pending(cr) && !reachable
                    then cr.status.(ready := Some(Condition(false, "ShootUnreachable"))) else MarkDeleting(cr);
      Conclude(TearDown(first.world, o, cr, reachable), o, cr, reachable, status)
  }

  // ------------------------------------------------------------------- Pass

  function Pass(w: World, o: string, input: Input): (r: PassResult)
    ensures GoesOn(w, r.world)
  {
    if o !in w.crs then PassResult(w, false)
    else if input.readFails then PassResult(w, true)
    else
      var cr := w.crs[o];
      if cr.deleting then DeletePass(w, o, cr, input.phase == Ready)
      else if !cr.finalizer then
        var r := SaveFinalizer(w, o, true);
        PassResult(r.world, !r.outcome.Done?)
      else
        match PlanOf(input)
        case PlanFailed(reason) =>
          PassResult(SaveStatus(w, o, cr.status.(ready := Some(Condition(false, reason)))).world, true)
        case Planned(_, _) =>
          var job := JobOf(o, cr, PlanOf(input));
          Finish(Settle(w, job, input.phase), job)
  }
}

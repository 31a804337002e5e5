/**
  Whole runs: passes of any number of custom resources in any order, API failures of every kind,
  other actors on the clusters, and users who create, edit and delete resources.
 */
module Runs {
  import opened Trees
  import opened Manifests
  import opened Ordering
  import opened Api
  import opened Deliver
  import opened Controller
  import opened Effects
  import opened Retention
  import opened Accounting
  import opened Passes
  import opened Trace
  import opened Teardown
  import opened Convergence
  import opened Ownership

  datatype Step =
    | DoPass(owner: string, input: Input)
    | Interfere(live: map<Addr, Manifest>)
    | Create(owner: string, cr: CR)
    | Edit(owner: string, cr: CR)
    | Collect(owner: string)

  /**
    What the environment may do. Other actors never stamp an owner label. A new resource has no
    status and no finalizer; users leave the finalizer and the status alone, cannot undo a
    deletion, and a deleted resource goes once its finalizer is off.
   */
  ghost predicate Enabled(w: World, step: Step) {
    match step
    case DoPass(o, _) => o != ""
    case Interfere(live) =>
      forall a :: a in live && Owner(live[a]) != "" ==> w.OwnedAt(a, Owner(live[a]))
    case Create(o, cr) =>
      o != "" && o !in w.crs && !cr.finalizer && !cr.deleting && cr.status == CrStatus([], [], None, None)
    case Edit(o, cr) =>
      && o in w.crs && cr.finalizer == w.crs[o].finalizer && cr.status == w.crs[o].status
      && (w.crs[o].deleting ==> cr.deleting)
    case Collect(o) => o in w.crs && w.crs[o].deleting && !w.crs[o].finalizer
  }

  ghost function Next(w: World, step: Step): (r: World)
    ensures r.answers == w.answers && r.scope == w.scope
  {
    match step
    case DoPass(o, input) => Pass(w, o, input).world
    case Interfere(live) => w.(live := live)
    case Create(o, cr) => w.(crs := w.crs[o := cr])
    case Edit(o, cr) => w.(crs := w.crs[o := cr])
    case Collect(o) => w.(crs := w.crs - {o})
  }

  /** An edit that points a resource at another shoot cluster strands what it tracks on the old one. */
  ghost function StrandedBy(w: World, o: string, step: Step): set<Addr> {
    if step.Edit? && step.owner == o && o in w.crs && w.crs[o].finalizer && step.cr.shootId != w.crs[o].shootId
    then Addrs(w, Shoot(w.crs[o].shootId), w.crs[o].status.shoot) else {}
  }

  /** Everything that one step takes out of the accounting of `o`. */
  ghost function ReleasedBy(w: World, o: string, step: Step): set<Addr> {
    if step.DoPass? && step.owner == o then Released(w, o, step.input) else StrandedBy(w, o, step)
  }

  /** The world after the first `n` steps. */
  ghost function After(w: World, steps: seq<Step>, n: nat): (r: World)
    requires n <= |steps|
    ensures r.answers == w.answers && r.scope == w.scope
  {
    if n == 0 then w else Next(After(w, steps, n - 1), steps[n - 1])
  }

  ghost predicate Legal(w: World, steps: seq<Step>) {
    forall i :: 0 <= i < |steps| ==> Enabled(After(w, steps, i), steps[i])
  }

  /** Owned, and in no inventory that a finalizer guards. */
  ghost predicate Untracked(w: World, o: string, a: Addr) { w.OwnedAt(a, o) && a !in Tracked(w, o) }

  /** What has been released and since then neither recorded again nor taken away. */
  ghost function Outstanding(w: World, o: string, steps: seq<Step>, n: nat): set<Addr>
    requires n <= |steps|
  {
    if n == 0 then {}
    else
      var before := After(w, steps, n - 1);
      (set a | a in Outstanding(w, o, steps, n - 1) && Untracked(before, o, a)) + ReleasedBy(before, o, steps[n - 1])
  }

  /** No object carries an owner label yet. */
  ghost predicate Pristine(w: World) {
    forall a :: a in w.live ==> Owner(w.live[a]) == ""
  }

  // ------------------------------------------------------------- Accounting

  lemma ForeignPassAccounted(w: World, o: string, p: string, input: Input, released: set<Addr>)
    requires Tame(w) && o != "" && p != o && Accounted(w, o, released)
    ensures Accounted(Pass(w, p, input).world, o, released)
  {
    hide Pass;
    hide TameOthers;
    PassResource(w, p, input);
    PassLoses(w, p, input, o);
    if o in w.crs { TrackedAlike(w, Pass(w, p, input).world, o); }
  }

  lemma StepAccounted(w: World, o: string, step: Step, released: set<Addr>)
    requires Tame(w) && o != "" && Enabled(w, step) && Accounted(w, o, released)
    ensures Accounted(Next(w, step), o, released + ReleasedBy(w, o, step))
  {
    hide TameOthers;
    var w' := Next(w, step);
    match step {
      case DoPass(p, input) =>
        hide Pass;
        if p == o { PassAccounted(w, o, input, released); }
        else { ForeignPassAccounted(w, o, p, input, released); }
      case Interfere(live) =>
        forall a | w'.OwnedAt(a, o) ensures w.OwnedAt(a, o) { }
        if o in w.crs { TrackedAlike(w, w', o); }
      case Create(p, cr) =>
        if p != o && o in w.crs { TrackedAlike(w, w', o); }
      case Edit(p, cr) =>
        if p != o {
          if o in w.crs { TrackedAlike(w, w', o); }
        } else if cr.shootId == w.crs[o].shootId {
          TrackedAlike(w, w', o);
        } else {
          AddrsSameScope(w, w', Seed, cr.status.seed);
        }
      case Collect(p) =>
        if p != o && o in w.crs { TrackedAlike(w, w', o); }
    }
  }

  /** Accounting is an invariant of every run, for every owner at once, whatever others do between any two requests. */
  lemma {:induction false} RunAccounted(w: World, steps: seq<Step>, o: string, n: nat)
    requires Tame(w) && o != "" && Pristine(w) && Legal(w, steps) && n <= |steps|
    ensures Accounted(After(w, steps, n), o, Outstanding(w, o, steps, n))
  {
    hide Next;
    hide Enabled;
    hide ReleasedBy;
    hide Tracked;
    hide TameOthers;
    if n > 0 {
      var before := After(w, steps, n - 1);
      RunAccounted(w, steps, o, n - 1);
      var still := set a | a in Outstanding(w, o, steps, n - 1) && Untracked(before, o, a);
      assert Accounted(before, o, still);
      StepAccounted(before, o, steps[n - 1], still);
    }
  }

  /** `a` left the accounting of `o` in step `i`, for the reason that step gives. */
  ghost predicate ReleasedAt(w: World, steps: seq<Step>, i: nat, o: string, a: Addr) {
    i < |steps| && a in ReleasedBy(After(w, steps, i), o, steps[i])
  }

  /** `a` left the accounting of `o` in step `i`, and ever since, up to `n`, it was owned and untracked. */
  ghost predicate ReleasedSince(w: World, steps: seq<Step>, i: nat, n: nat, o: string, a: Addr)
    requires n <= |steps|
  {
    i < n && ReleasedAt(w, steps, i, o, a) && forall j :: i < j <= n ==> Untracked(After(w, steps, j), o, a)
  }

  lemma {:induction false} ReleasedHasCause(w: World, o: string, steps: seq<Step>, n: nat, a: Addr) returns (i: nat)
    requires n <= |steps| && a in Outstanding(w, o, steps, n) && Untracked(After(w, steps, n), o, a)
    ensures ReleasedSince(w, steps, i, n, o, a)
  {
    hide After;
    hide ReleasedBy;
    hide Untracked;
    if a in ReleasedBy(After(w, steps, n - 1), o, steps[n - 1]) {
      i := n - 1;
    } else {
      i := ReleasedHasCause(w, o, steps, n - 1, a);
    }
  }

  /**
    Inventory accounting and finalizer safety in one. At any point of any run, a live object with
    the label of `o` is in the inventory of a resource that still has its finalizer, or some
    earlier step released it: a delivery whose status write was lost, a CRD kept by policy, a
    forced deletion, or an edit that points at another shoot. And it has been owned and untracked at
    every moment since that step.
   */
  lemma NothingUnaccounted(w: World, steps: seq<Step>, o: string, a: Addr)
    requires Tame(w) && o != "" && Pristine(w) && Legal(w, steps)
    requires After(w, steps, |steps|).OwnedAt(a, o)
    ensures var end := After(w, steps, |steps|);
            || (o in end.crs && end.crs[o].finalizer && a in Tracked(end, o))
            || exists i: nat :: ReleasedSince(w, steps, i, |steps|, o, a)
  {
    hide After;
    hide ReleasedSince;
    hide Legal;
    RunAccounted(w, steps, o, |steps|);
    if a !in Tracked(After(w, steps, |steps|), o) {
      var i := ReleasedHasCause(w, o, steps, |steps|, a);
      assert ReleasedSince(w, steps, i, |steps|, o, a);
    }
  }

  /** Once a resource is gone, nothing of it is left but what an earlier step released. */
  lemma GoneResourceLeavesNothing(w: World, steps: seq<Step>, o: string, a: Addr)
    requires Tame(w) && o != "" && Pristine(w) && Legal(w, steps)
    requires o !in After(w, steps, |steps|).crs
    requires forall i :: !ReleasedAt(w, steps, i, o, a)
    ensures !After(w, steps, |steps|).OwnedAt(a, o)
  {
    hide After;
    hide ReleasedAt;
    hide Legal;
    hide Untracked;
    if After(w, steps, |steps|).OwnedAt(a, o) { NothingUnaccounted(w, steps, o, a); }
  }

  // -------------------------------------------------------------- Ownership

  /** A step that can touch an object of `o` only by a patch: no pass of `o`, and no other actor. */
  ghost predicate Outside(step: Step, o: string) { !step.Interfere? && !(step.DoPass? && step.owner == o) }

  lemma OutsideStep(w: LoneWorld, step: Step, o: string, a: Addr)
    requires o != "" && Outside(step, o)
    ensures var w' := Next(w, step);
            && w.log <= w'.log
            && (w.OwnedAt(a, o) ==> (w'.OwnedAt(a, o) <==> !Hit(w, w', a)))
            && (w.OwnedAt(a, o) && !Hit(w, w', a) ==> SameAt(w, w', a))
            && (w.OwnedAt(a, o) && IsClusterScoped(a.id.kind) ==> !Hit(w, w', a))
            && (!w.OwnedAt(a, o) ==> !w'.OwnedAt(a, o))
  {
    hide Pass;
    LogKept(w, step);
    if step.DoPass? {
      if w.OwnedAt(a, o) {
        ForeignChangeIff(w, o, step.owner, step.input, a);
      } else {
        var w' := Next(w, step);
        PassLawful(w, step.owner, step.input);
        if step.owner in w.crs && a in w'.live {
          assert SameAt(w, w'.(crs := w.crs), a) || Owner(w'.live[a]) == step.owner;
        }
      }
    }
  }

  lemma HitSplit(w: World, w1: World, w2: World, a: Addr)
    requires w.log <= w1.log <= w2.log
    ensures Hit(w, w2, a) <==> Hit(w, w1, a) || Hit(w1, w2, a)
  {
    if i: nat :| HitAt(w, w1, a, i) { assert HitAt(w, w2, a, i); }
    if i: nat :| HitAt(w1, w2, a, i) { assert HitAt(w, w2, a, i); }
    if i: nat :| HitAt(w, w2, a, i) {
      if i < |w1.log| { assert HitAt(w, w1, a, i); } else { assert HitAt(w1, w2, a, i); }
    }
  }

  /**
    In every interleaving, through any stretch of passes of other resources and actions of users, an
    object labelled by `o` keeps its owner if and only if no patch hits its address, and then its
    content too. Objects of the listed kinds are never hit.
   */
  lemma {:induction false} OwnedUnlessHit(w: LoneWorld, steps: seq<Step>, o: string, a: Addr, n: nat)
    requires o != "" && w.OwnedAt(a, o) && n <= |steps|
    requires forall i :: 0 <= i < |steps| ==> Outside(steps[i], o)
    ensures var end := After(w, steps, n);
            && w.log <= end.log
            && (end.OwnedAt(a, o) <==> !Hit(w, end, a))
            && (!Hit(w, end, a) ==> SameAt(w, end, a))
            && (IsClusterScoped(a.id.kind) ==> !Hit(w, end, a))
  {
    hide Next;
    hide Hit;
    hide Outside;
    hide IsClusterScoped;
    if n == 0 {
      NoHit(w, a);
    } else {
      var before := After(w, steps, n - 1);
      OwnedUnlessHit(w, steps, o, a, n - 1);
      OutsideStep(before, steps[n - 1], o, a);
      HitSplit(w, before, After(w, steps, n), a);
    }
  }

  /** A pass in the stretch delivers, with a ready shoot and without an error, or does not deliver at all. */
  ghost predicate CleanStep(w: World, step: Step) {
    step.DoPass? && Delivers(w, step.owner, step.input) ==>
      step.input.phase == Ready && !Pass(w, step.owner, step.input).err
  }

  ghost predicate RendersAt(w: World, step: Step, a: Addr) {
    step.DoPass? && Delivers(w, step.owner, step.input) && RenderedAt(w, PassJob(w, step.owner, step.input), a)
  }

  lemma CleanStepHits(w: LoneWorld, step: Step, a: Addr)
    requires CleanStep(w, step)
    ensures Hit(w, Next(w, step), a) <==> RendersAt(w, step, a)
  {
    hide Pass;
    hide PlanOf;
    hide RenderedAt;
    LogKept(w, step);
    if step.DoPass? {
      if Delivers(w, step.owner, step.input) {
        CleanHitIff(w, step.owner, step.input, a);
      } else if Hit(w, Next(w, step), a) {
        HitIsRendered(w, step.owner, step.input, a);
      }
    }
  }

  /**
    The same by the renders alone: through any stretch of clean passes of other resources and actions
    of users, an object keeps its owner and its content if and only if none of them renders
    something at its address.
   */
  lemma {:induction false} OwnedUnlessRendered(w: LoneWorld, steps: seq<Step>, o: string, a: Addr, n: nat)
    requires o != "" && w.OwnedAt(a, o) && n <= |steps|
    requires forall i :: 0 <= i < |steps| ==> Outside(steps[i], o) && CleanStep(After(w, steps, i), steps[i])
    ensures var kept := forall i :: 0 <= i < n ==> !RendersAt(After(w, steps, i), steps[i], a);
            && (After(w, steps, n).OwnedAt(a, o) <==> kept) && (kept ==> SameAt(w, After(w, steps, n), a))
  {
    hide Next;
    hide Hit;
    hide Outside;
    hide RendersAt;
    hide CleanStep;
    if n > 0 {
      var before := After(w, steps, n - 1);
      OwnedUnlessRendered(w, steps, o, a, n - 1);
      OutsideStep(before, steps[n - 1], o, a);
      CleanStepHits(before, steps[n - 1], a);
    }
  }

  lemma NoHit(w: World, a: Addr)
    ensures !Hit(w, w, a)
  {
  }

  /** So a labelled object of a listed kind keeps owner and content through any such stretch. */
  lemma ForeignPassesKeepOwned(w: LoneWorld, steps: seq<Step>, o: string, a: Addr, n: nat)
    requires o != "" && w.OwnedAt(a, o) && IsClusterScoped(a.id.kind)
    requires forall i :: 0 <= i < |steps| ==> Outside(steps[i], o)
    requires n <= |steps|
    ensures a in After(w, steps, n).live && After(w, steps, n).live[a] == w.live[a]
  {
    hide After;
    hide Outside;
    OwnedUnlessHit(w, steps, o, a, n);
  }

  // --------------------------------------------------------- Deletions that never end

  /** In step `i`, if it is a deletion pass of `o`, the server does not know the kind of `rs`. */
  ghost predicate UnknownAt(w: World, step: Step, o: string, rs: ResourceStatus) {
    step.DoPass? && step.owner == o && Deletes(w, o, step.input) ==>
      MeetsNoMatch(w, o, w.crs[o], step.input.phase == Ready, rs)
  }

  /** The resource is being deleted, still has its finalizer, and records `rs` on the seed. */
  ghost predicate Stuck(w: World, o: string, rs: ResourceStatus) {
    o in w.crs && w.crs[o].deleting && w.crs[o].finalizer && rs in w.crs[o].status.seed
  }

  lemma StuckStep(w: LoneWorld, step: Step, o: string, rs: ResourceStatus)
    requires Stuck(w, o, rs) && Enabled(w, step) && UnknownAt(w, step, o, rs)
    ensures Stuck(Next(w, step), o, rs)
  {
    hide Pass;
    hide MeetsNoMatch;
    if step.DoPass? {
      PassResource(w, step.owner, step.input);
      if step.owner == o {
        StuckPass(w, o, step.input, rs);
      }
    }
  }

  lemma StuckPass(w: LoneWorld, o: string, input: Input, rs: ResourceStatus)
    requires Stuck(w, o, rs) && (Deletes(w, o, input) ==> MeetsNoMatch(w, o, w.crs[o], input.phase == Ready, rs))
    ensures Stuck(Pass(w, o, input).world, o, rs)
  {
    hide DeletePass;
    hide MeetsNoMatch;
    if Deletes(w, o, input) {
      DeletePassResource(w, o, w.crs[o], input.phase == Ready);
      NoMatchBlocksDeletion(w, o, w.crs[o], input.phase == Ready, rs);
    }
  }

  /** A seed entry whose kind the server does not know in any deletion pass keeps the finalizer for ever, forced or not. */
  lemma {:induction false} NoMatchForEver(w: LoneWorld, steps: seq<Step>, o: string, rs: ResourceStatus, n: nat)
    requires Legal(w, steps) && Stuck(w, o, rs) && n <= |steps|
    requires forall i :: 0 <= i < |steps| ==> UnknownAt(After(w, steps, i), steps[i], o, rs)
    ensures Stuck(After(w, steps, n), o, rs)
  {
    hide Next;
    hide Enabled;
    hide Stuck;
    hide UnknownAt;
    if n > 0 {
      NoMatchForEver(w, steps, o, rs, n - 1);
      StuckStep(After(w, steps, n - 1), steps[n - 1], o, rs);
    }
  }

  /**
    A deletion that never ends exists: nothing is live, the deletion is forced, every status write is
    served, and only the kind of one recorded object is unknown to the server since its CRD is gone.
   */
  lemma StuckDeletion() returns (w: World, o: string, rs: ResourceStatus)
    ensures w.live == map[] && o in w.crs && w.crs[o].deleting && w.crs[o].finalizer && w.crs[o].forceDelete
    ensures forall i :: w.answers(i).fault == if i % 2 == 0 then Fine else NoMatch
    ensures forall steps: seq<Step>, n: nat ::
              n <= |steps| && (forall i :: 0 <= i < |steps| ==> steps[i].DoPass? && steps[i].owner == o) ==>
                Stuck(After(w, steps, n), o, rs)
  {
    rs := ResourceStatus("monitoring.coreos.com/v1", "PrometheusRule", "ns", "rule", Healthy);
    var cr := CR(true, true, true, "ShootFirst", "Delete", "s", CrStatus([rs], [], None, None));
    o := "me";
    w := World(map[], map[o := cr], {}, i => Answer(if i % 2 == 0 then Fine else NoMatch, map[], NoOne), []);
    assert StuckAt(w, o, rs);
    forall steps: seq<Step>, n: nat
      | n <= |steps| && forall i :: 0 <= i < |steps| ==> steps[i].DoPass? && steps[i].owner == o
      ensures Stuck(After(w, steps, n), o, rs)
    {
      StuckOn(w, steps, o, rs, n);
    }
  }

  /** The next request is a status write that is served, and the read after it meets an unknown kind. */
  ghost predicate StuckAt(w: World, o: string, rs: ResourceStatus) {
    && Stuck(w, o, rs) && rs.kind != CRD && w.crs[o].status.seed == [rs] && w.crs[o].status.shoot == []
    && |w.log| % 2 == 0 && forall i :: w.answers(i).fault == if i % 2 == 0 then Fine else NoMatch
  }

  lemma {:induction false} StuckOn(w: LoneWorld, steps: seq<Step>, o: string, rs: ResourceStatus, n: nat)
    requires StuckAt(w, o, rs)
    requires n <= |steps| && forall i :: 0 <= i < |steps| ==> steps[i].DoPass? && steps[i].owner == o
    ensures StuckAt(After(w, steps, n), o, rs)
  {
    hide Pass;
    hide StuckAt;
    if n > 0 {
      StuckOn(w, steps, o, rs, n - 1);
      StuckAgain(After(w, steps, n - 1), o, steps[n - 1].input, rs);
    }
  }

  lemma StuckAgain(w: LoneWorld, o: string, input: Input, rs: ResourceStatus)
    requires StuckAt(w, o, rs)
    ensures StuckAt(Pass(w, o, input).world, o, rs)
  {
    hide DeletePass;
    hide MeetsNoMatch;
    if !input.readFails {
      var cr, reachable := w.crs[o], input.phase == Ready;
      OneUnknownEntry(w, o, cr, reachable, rs);
      StuckPass(w, o, input, rs);
      DeletePassResource(w, o, cr, reachable);
    }
  }

  /** One served status write and one read that meets an unknown kind make up the whole pass. */
  lemma OneUnknownEntry(w: World, o: string, cr: CR, reachable: bool, rs: ResourceStatus)
    requires StuckAt(w, o, rs) && w.crs[o] == cr
    ensures MeetsNoMatch(w, o, cr, reachable, rs)
    ensures |DeletePass(w, o, cr, reachable).world.log| == |w.log| + 2
  {
    hide ManifestIdentity;
    hide ManifestFromStatus;
    OrderFacts([], [rs]);
    var start, es := Marked(w, o, cr), StatusForDelete([rs]);
    assert es == [rs] && !Pending(cr);
    assert SideStart(w, o, cr, reachable, SeedSide) == start && |start.log| == |w.log| + 1;
    assert es[..0] == [] && DeleteAt(start, Seed, es, cr, o, 0) == start;
    assert Ahead(start, 0).NoMatch?;
    assert Init(es) == [] && Last(es) == rs;
    assert DeleteAll(start, Seed, [], cr, o) == Wrote(start, false);
    assert DeleteOwned(start, Seed, ManifestFromStatus(rs), o).err;
  }

  // ------------------------------------------------------------ Ready in runs

  /** Step `i` is the delivery that wrote the status which `o` has now, Ready=True included. */
  ghost predicate ReadyFrom(w: World, steps: seq<Step>, i: nat, o: string, status: CrStatus) {
    && i < |steps| && steps[i].DoPass? && steps[i].owner == o
    && var before, input := After(w, steps, i), steps[i].input;
       var after := Pass(before, o, input).world;
       Delivers(before, o, input) && Recorded(after, o) && after.crs[o].status == status
  }

  /** A pass that leaves Ready=True either found it so and left the status alone, or wrote it in a delivery. */
  lemma ReadyAfterPass(w: World, o: string, input: Input)
    requires var w' := Pass(w, o, input).world; o in w'.crs && SaysReady(w'.crs[o])
    ensures o in w.crs
    ensures var w' := Pass(w, o, input).world;
            w'.crs[o].status == w.crs[o].status || (Delivers(w, o, input) && Recorded(w', o))
  {
    hide SaveStatus;
    hide SaveFinalizer;
    hide Settle;
    hide PlanOf;
    hide DeletePass;
    if o in w.crs && !input.readFails {
      var cr := w.crs[o];
      if cr.deleting {
        DeletePassReady(w, o, cr, input.phase == Ready);
      } else if !cr.finalizer {
        SaveFinalizerFacts(w, o, true);
      } else if PlanOf(input).PlanFailed? {
        SaveStatusFacts(w, o, cr.status.(ready := Some(Condition(false, PlanOf(input).reason))));
      } else {
        var s := Settle(w, PassJob(w, o, input), input.phase);
        SaveStatusFacts(s.draft.world, o, cr.status.(seed := s.seed, shoot := s.shoot, ready := Some(s.ready)));
      }
    }
  }

  lemma ConcludeReady(t: TornDown, o: string, cr: CR, reachable: bool, status: CrStatus)
    requires o in t.world.crs && status.ready.Some? && !status.ready.value.status
    ensures var w' := Conclude(t, o, cr, reachable, status).world;
            o in w'.crs && (SaysReady(w'.crs[o]) ==> w'.crs[o].status == t.world.crs[o].status)
  {
    hide SaveStatus;
    hide SaveFinalizer;
    SaveFinalizerFacts(t.world, o, false);
    SaveStatusFacts(t.world, o, status.(cleanup := Some("Blocked")));
    var noted := SaveStatus(t.world, o, status.(cleanup := Some("ForceDeleted")));
    SaveStatusFacts(t.world, o, status.(cleanup := Some("ForceDeleted")));
    SaveFinalizerFacts(noted.world, o, false);
  }

  /** A deletion pass never writes Ready=True. */
  lemma DeletePassReady(w: World, o: string, cr: CR, reachable: bool)
    requires o in w.crs && w.crs[o] == cr
    ensures var w' := DeletePass(w, o, cr, reachable).world;
            o in w'.crs && (SaysReady(w'.crs[o]) ==> w'.crs[o].status == cr.status)
  {
    hide SaveStatus;
    hide TearDown;
    hide Conclude;
    var first := SaveStatus(w, o, MarkDeleting(cr));
    SaveStatusFacts(w, o, MarkDeleting(cr));
    var t := TearDown(first.world, o, cr, reachable);
    ConcludeReady(t, o, cr, reachable, MarkDeleting(cr));
    ConcludeReady(t, o, cr, reachable, cr.status.(ready := Some(Condition(false, "ShootUnreachable"))));
  }

  /** A step that is not a pass of `o` leaves a status that says Ready as it was. */
  lemma OtherStepKeepsReady(w: World, step: Step, o: string)
    requires Enabled(w, step) && !(step.DoPass? && step.owner == o)
    requires o in Next(w, step).crs && SaysReady(Next(w, step).crs[o])
    ensures o in w.crs && w.crs[o].status == Next(w, step).crs[o].status
  {
    hide Pass;
    if step.DoPass? { PassResource(w, step.owner, step.input); }
  }

  /** In every run, a resource that says Ready had that status written by a delivery to which `ReadyIsTrue` applies. */
  lemma {:induction false} ReadyHasCause(w: World, steps: seq<Step>, o: string, n: nat) returns (i: nat)
    requires Legal(w, steps) && n <= |steps| && w.crs == map[]
    requires o in After(w, steps, n).crs && SaysReady(After(w, steps, n).crs[o])
    ensures i < n && ReadyFrom(w, steps, i, o, After(w, steps, n).crs[o].status)
  {
    hide Enabled;
    hide Pass;
    hide Delivers;
    hide SaysReady;
    hide Recorded;
    var before, step := After(w, steps, n - 1), steps[n - 1];
    assert Enabled(before, step);
    if step.DoPass? && step.owner == o {
      ReadyAfterPass(before, o, step.input);
      if After(w, steps, n).crs[o].status != before.crs[o].status {
        return n - 1;
      }
    } else {
      OtherStepKeepsReady(before, step, o);
    }
    SameStatusSaysReady(before.crs[o], After(w, steps, n).crs[o]);
    i := ReadyHasCause(w, steps, o, n - 1);
  }

  lemma SameStatusSaysReady(a: CR, b: CR)
    requires a.status == b.status
    ensures SaysReady(a) <==> SaysReady(b)
  {
  }

  // ----------------------------------------------------- Finalizer comes first

  lemma LogKept(w: World, step: Step)
    ensures w.log <= Next(w, step).log
    ensures !step.DoPass? ==> Next(w, step).log == w.log
    ensures step.DoPass? && step.owner !in w.crs ==> Next(w, step).log == w.log
  {
    hide Pass;
    if step.DoPass? { PassResource(w, step.owner, step.input); }
  }

  /**
    In every run, each patch in the log was sent by a pass of the resource it was sent for, in a
    state where that resource carried the finalizer and was not being deleted.
   */
  lemma {:induction false} PatchesAreGuarded(w: World, steps: seq<Step>, n: nat, i: nat) returns (k: nat)
    requires n <= |steps| && |w.log| <= i < |After(w, steps, n).log| && After(w, steps, n).log[i].Patched?
    ensures k < n && steps[k].DoPass? && steps[k].owner == After(w, steps, n).log[i].owner
    ensures Delivers(After(w, steps, k), steps[k].owner, steps[k].input)
  {
    hide Pass;
    hide Delivers;
    hide Next;
    var before, step := After(w, steps, n - 1), steps[n - 1];
    LogKept(before, step);
    if i < |before.log| {
      k := PatchesAreGuarded(w, steps, n - 1, i);
    } else {
      NextIsPass(before, step);
      PassActs(before, step.owner, step.input);
      k := n - 1;
    }
  }

  // ---------------------------------------------------------- What runs remove

  /**
    In every run, each delete that took effect was sent by a pass of the resource it was sent for.
    Alone, the object carried that resource's label at that moment. Beside others who act between
    the label check and the delete but stamp no labels, it carried that label or none.
   */
  lemma {:induction false} RemovalsAreOwn(w: World, steps: seq<Step>, n: nat, i: nat) returns (k: nat)
    requires n <= |steps| && |w.log| <= i < |After(w, steps, n).log|
    requires After(w, steps, n).log[i].Deleted? && After(w, steps, n).log[i].effect
    ensures var e := After(w, steps, n).log[i];
            && k < n && steps[k].DoPass? && steps[k].owner == e.owner
            && (NobodyElse(w.answers) ==> e.had == e.owner)
            && (Tame(w) ==> e.had == e.owner || e.had == "")
  {
    hide Pass;
    hide Next;
    hide NobodyElse;
    hide TameOthers;
    var before, step := After(w, steps, n - 1), steps[n - 1];
    LogKept(before, step);
    if i < |before.log| {
      k := RemovalsAreOwn(w, steps, n - 1, i);
    } else {
      NextIsPass(before, step);
      PassActs(before, step.owner, step.input);
      k := n - 1;
    }
  }

  /** Somebody takes all labels off. */
  function Unlabelled(live: Live): Live { map a | a in live :: live[a].(labels := map[]) }

  /** A teardown of one seed entry is the removal of that entry. */
  lemma OneEntryTornDown(w: World, o: string, cr: CR, reachable: bool, rs: ResourceStatus)
    requires cr.status.seed == [rs] && cr.status.shoot == [] && !KeepsCrd(cr, rs)
    ensures TearDown(w, o, cr, reachable).world == DeleteOwned(w, Seed, ManifestFromStatus(rs), o).world
  {
    hide DeleteOwned;
    hide KeepsCrd;
    OrderFacts([], [rs]);
    var es := StatusForDelete([rs]);
    assert es[0] in es && es == [rs] && !Pending(cr);
    assert Init(es) == [] && Last(es) == rs;
    assert DeleteAll(w, Seed, [], cr, o) == Wrote(w, false);
  }

  /** The label goes between the check and the delete. */
  lemma RemovedUnlabelled(w: World, o: string, rs: ResourceStatus, a: Addr)
    requires w.StatusAddr(Seed, rs) == a && w.OwnedAt(a, o)
    requires var n := |w.log|;
             && w.answers(n).fault.Fine? && w.answers(n + 1).fault.Fine?
             && w.answers(n).others(w.live) == w.live && w.answers(n + 1).others(w.live) == Unlabelled(w.live)
    ensures DeleteOwned(w, Seed, ManifestFromStatus(rs), o).world.log == w.log + [Read(a), Deleted(a, o, true, true, "")]
  {
    hide ManifestIdentity;
    hide StatusIdentity;
    hide ManifestFromStatus;
    RebuiltAddr(w, Seed, rs);
  }

  /** A deletion pass over one seed entry whose object loses its label after the label check. */
  lemma LabelLost(w: World, o: string, input: Input, rs: ResourceStatus, a: Addr)
    requires Deletes(w, o, input) && w.crs[o].status.seed == [rs] && w.crs[o].status.shoot == []
    requires !KeepsCrd(w.crs[o], rs) && w.StatusAddr(Seed, rs) == a && w.OwnedAt(a, o)
    requires var n := |w.log|;
             && w.answers(n).fault.Fine? && w.answers(n + 1).fault.Fine? && w.answers(n + 2).fault.Fine?
             && w.answers(n).others(w.live) == w.live && w.answers(n + 1).others(w.live) == w.live
             && w.answers(n + 2).others(w.live) == Unlabelled(w.live)
    ensures var log, n := Pass(w, o, input).world.log, |w.log|;
            n + 2 < |log| && log[n + 2] == Deleted(a, o, true, true, "")
  {
    hide StatusIdentity;
    hide ManifestFromStatus;
    hide Conclude;
    hide TearDown;
    hide DeleteOwned;
    hide KeepsCrd;
    var cr, start := w.crs[o], Marked(w, o, w.crs[o]);
    assert start.live == w.live && |start.log| == |w.log| + 1;
    OneEntryTornDown(start, o, cr, input.phase == Ready, rs);
    RemovedUnlabelled(start, o, rs, a);
    assert TearDown(start, o, cr, input.phase == Ready).world.log[|w.log| + 2] == Deleted(a, o, true, true, "");
  }

  /** A removal without a label exists: others stamp nothing, but one of them acts between the check and the delete. */
  lemma UnlabelledRemoved() returns (w: World, o: string, input: Input, a: Addr)
    ensures Tame(w) && Enabled(w, DoPass(o, input)) && Deletes(w, o, input) && w.OwnedAt(a, o)
    ensures var log := Next(w, DoPass(o, input)).log; 2 < |log| && log[2] == Deleted(a, o, true, true, "")
  {
    hide Pass;
    hide StatusIdentity;
    hide KeepsCrd;
    var rs := ResourceStatus("v1", "Secret", "ns", "s", Healthy);
    var m := Manifest("v1", "Secret", "ns", "s", map[OWNED_BY := "me"], map[], "", map[]);
    var cr := CR(true, true, false, "ShootFirst", "Keep", "s", CrStatus([rs], [], None, None));
    o, a, input := "me", At(Seed, StatusIdentity(rs)), Input(false, true, None, None, [], Ready);
    w := World(map[a := m], map[o := cr], {}, i => Answer(Fine, map[], if i == 2 then Unlabelled else NoOne), []);
    assert !KeepsCrd(cr, rs) by { NotACrd(cr, rs); }
    LabelLost(w, o, input, rs, a);
  }

  lemma NotACrd(cr: CR, rs: ResourceStatus)
    requires rs.kind != CRD
    ensures !KeepsCrd(cr, rs)
  {
  }

  lemma NextIsPass(w: World, step: Step)
    ensures step.DoPass? ==> Next(w, step) == Pass(w, step.owner, step.input).world
  {
    hide Pass;
  }
}

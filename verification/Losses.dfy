/**
  What leaves the accounting and never comes back: the four ways out at an input each, and that an
  object which no inventory names stays for good.
 */
module Losses {
  import opened Trees
  import opened Strings
  import opened Manifests
  import opened Ordering
  import opened Api
  import opened Deliver
  import opened Controller
  import opened Effects
  import opened Accounting
  import opened Passes
  import opened Trace
  import opened Teardown
  import opened Convergence
  import opened Liveness
  import opened Ownership
  import opened Runs

  // ------------------------------------------------------------- Left for good

  /** The side whose inventory would name an object at `a`. */
  function SideFor(a: Addr): Side { if a.cluster.Seed? then SeedSide else ShootSide }

  /** Some entry of the list would stand for `a`, whatever shoot the resource points at. */
  ghost predicate NamedIn(w: World, es: seq<ResourceStatus>, a: Addr) {
    exists rs :: rs in es && w.StatusAddr(a.cluster, rs) == a
  }

  /** Owned, and in no inventory of its owner, guarded or not. */
  ghost predicate Abandoned(w: World, o: string, a: Addr) {
    w.OwnedAt(a, o) && (o in w.crs ==> !NamedIn(w, Inventory(w.crs[o], SideFor(a)), a))
  }

  /** Some manifest of the render would be put at `a`, or recorded as standing there. */
  ghost predicate RendersLike(w: World, job: Job, a: Addr) {
    exists m :: m in job.Render(SideFor(a)) && (w.AddrOf(a.cluster, m) == a || w.StatusAddr(a.cluster, StatusOf(m, Unknown)) == a)
  }

  lemma AddrSide(w: World, cr: CR, side: Side, m: Manifest, rs: ResourceStatus, a: Addr)
    ensures w.AddrOf(ClusterOf(cr, side), m) == a ==> side == SideFor(a) && w.AddrOf(a.cluster, m) == a
    ensures w.StatusAddr(ClusterOf(cr, side), rs) == a ==> side == SideFor(a) && w.StatusAddr(a.cluster, rs) == a
  {
    hide ManifestIdentity;
    hide StatusIdentity;
  }

  /** A delivery that does not render it leaves an abandoned object where it is. */
  lemma DeliveryAbandons(w: LoneWorld, o: string, input: Input, a: Addr)
    requires Delivers(w, o, input) && Abandoned(w, o, a) && !RendersLike(w, PassJob(w, o, input), a)
    ensures SameAt(w, Pass(w, o, input).world, a)
  {
    hide Pass;
    hide PlanOf;
    hide Orphan;
    hide ManifestIdentity;
    hide StatusIdentity;
    var job, w', keys := PassJob(w, o, input), Pass(w, o, input).world, PassKeys(w, o, input);
    DeliveryFootprint(w, o, input);
    assert Explained(w, w', job, keys, a);
    if side, m :| PlacedBy(w, w', job, side, m, a) {
      AddrSide(w, job.cr, side, m, ResourceStatus("", "", "", "", Unknown), a);
    }
    if side, rs :| OrphanedAt(w, job, keys, side, rs, a) {
      AddrSide(w, job.cr, side, Manifest("", "", "", "", map[], map[], "", map[]), rs, a);
    }
  }

  lemma DeletionAbandons(w: LoneWorld, o: string, input: Input, a: Addr)
    requires Deletes(w, o, input) && Abandoned(w, o, a)
    ensures SameAt(w, Pass(w, o, input).world, a)
  {
    hide DeletePass;
    hide SideGone;
    hide Lawful;
    hide TearDown;
    var cr, w' := w.crs[o], Pass(w, o, input).world;
    DeletePassClusters(w, o, cr, input.phase == Ready);
    if a !in w'.live {
      DeletePassRemoves(w, o, cr, input.phase == Ready, a);
      var side, rs :| rs in Inventory(cr, side) && !KeepsCrd(cr, rs) && a == w.StatusAddr(ClusterOf(cr, side), rs);
      AddrSide(w, cr, side, Manifest("", "", "", "", map[], map[], "", map[]), rs, a);
    }
  }

  /** What a delivery records on a side: entries of its render, and entries it had. */
  lemma RecordedEntries(w: LoneWorld, job: Job, phase: Phase, side: Side, rs: ResourceStatus)
    requires rs in Written(Settle(w, job, phase), side)
    ensures rs in Inventory(job.cr, side) || exists m :: m in job.Render(side) && rs == StatusOf(m, rs.health)
  {
    hide Settle;
    hide SideRan;
    hide AppliedContract;
    var s := Settle(w, job, phase);
    if side in s.applied {
      var wa, wp := AppliedSideRan(w, job, phase, side);
      RanRetains(w, s, job, side, wa, wp);
      var out, n := Written(s, side), |job.Render(side)|;
      var i :| 0 <= i < |out| && out[i] == rs;
      if i < n {
        assert out[..n][i] == rs && job.Render(side)[i] in job.Render(side);
      } else {
        assert out[n..][i - n] == rs && rs in out[n..];
      }
    } else {
      var _, _, _, _ := DeliveryContract(w, job, phase, side);
    }
  }

  lemma SameEntryAddr(w: World, a: Addr, m: Manifest, h: Health)
    ensures w.StatusAddr(a.cluster, StatusOf(m, h)) == w.StatusAddr(a.cluster, StatusOf(m, Unknown))
  {
  }

  /** Nor does a pass of its owner come to name it again. */
  lemma StaysUnnamed(w: LoneWorld, o: string, input: Input, a: Addr)
    requires o in w.crs && !NamedIn(w, Inventory(w.crs[o], SideFor(a)), a)
    requires Delivers(w, o, input) ==> !RendersLike(w, PassJob(w, o, input), a)
    ensures var w' := Pass(w, o, input).world;
            o in w'.crs && w'.scope == w.scope && !NamedIn(w', Inventory(w'.crs[o], SideFor(a)), a)
  {
    hide SaveStatus;
    hide SaveFinalizer;
    hide DeletePass;
    hide Settle;
    hide PlanOf;
    hide StatusIdentity;
    var w', side := Pass(w, o, input).world, SideFor(a);
    var cr := w.crs[o];
    PassResource(w, o, input);
    if rs :| rs in Inventory(w'.crs[o], side) && w'.StatusAddr(a.cluster, rs) == a {
      assert w.StatusAddr(a.cluster, rs) == a;
      if Delivers(w, o, input) {
        var job := PassJob(w, o, input);
        var s := Settle(w, job, input.phase);
        SaveStatusFacts(s.draft.world, o, cr.status.(seed := s.seed, shoot := s.shoot, ready := Some(s.ready)));
        assert rs in Written(s, side);
        RecordedEntries(w, job, input.phase, side, rs);
        if m :| m in job.Render(side) && rs == StatusOf(m, rs.health) { SameEntryAddr(w, a, m, rs.health); }
      } else if Deletes(w, o, input) {
        DeletePassResource(w, o, cr, input.phase == Ready);
      } else if !input.readFails {
        SaveFinalizerFacts(w, o, true);
        if cr.finalizer { SaveStatusFacts(w, o, cr.status.(ready := Some(Condition(false, PlanOf(input).reason)))); }
      }
    }
  }

  /** A step that neither renders anything at `a` for its owner nor lets anybody else touch it. */
  ghost predicate PassesBy(w: World, step: Step, o: string, a: Addr) {
    match step
    case DoPass(p, input) =>
      if p == o then Delivers(w, o, input) ==> !RendersLike(w, PassJob(w, o, input), a) else !Hit(w, Next(w, step), a)
    case Interfere(_) => false
    case _ => true
  }

  lemma NamedAlike(w: World, w': World, es: seq<ResourceStatus>, a: Addr)
    requires w.scope == w'.scope && NamedIn(w', es, a)
    ensures NamedIn(w, es, a)
  {
    hide StatusIdentity;
    var rs :| rs in es && w'.StatusAddr(a.cluster, rs) == a;
    assert w.StatusAddr(a.cluster, rs) == a;
  }

  lemma AbandonedStep(w: LoneWorld, step: Step, o: string, a: Addr)
    requires o != "" && Enabled(w, step) && Abandoned(w, o, a) && PassesBy(w, step, o, a)
    ensures Abandoned(Next(w, step), o, a) && SameAt(w, Next(w, step), a)
  {
    hide Pass;
    hide PlanOf;
    hide RendersLike;
    hide Hit;
    var w' := Next(w, step);
    match step {
      case DoPass(p, input) =>
        PassLawful(w, p, input);
        if p == o {
          OwnPassBy(w, o, input, a);
        } else {
          ForeignChangeIff(w, o, p, input, a);
          if o in w'.crs && NamedIn(w', Inventory(w'.crs[o], SideFor(a)), a) {
            NamedAlike(w, w', Inventory(w.crs[o], SideFor(a)), a);
          }
        }
      case Create(p, cr) =>
        if p != o && o in w'.crs && NamedIn(w', Inventory(w'.crs[o], SideFor(a)), a) {
          NamedAlike(w, w', Inventory(w.crs[o], SideFor(a)), a);
        }
      case Edit(p, cr) =>
        if o in w'.crs && NamedIn(w', Inventory(w'.crs[o], SideFor(a)), a) {
          NamedAlike(w, w', Inventory(w.crs[o], SideFor(a)), a);
        }
      case Collect(p) =>
        if o in w'.crs && NamedIn(w', Inventory(w'.crs[o], SideFor(a)), a) {
          NamedAlike(w, w', Inventory(w.crs[o], SideFor(a)), a);
        }
    }
  }

  lemma OwnPassBy(w: LoneWorld, o: string, input: Input, a: Addr)
    requires Abandoned(w, o, a) && (Delivers(w, o, input) ==> !RendersLike(w, PassJob(w, o, input), a))
    ensures Abandoned(Pass(w, o, input).world, o, a) && SameAt(w, Pass(w, o, input).world, a)
  {
    hide PlanOf;
    hide DeletePass;
    hide Settle;
    if o in w.crs { StaysUnnamed(w, o, input, a); }
    if Delivers(w, o, input) {
      DeliveryAbandons(w, o, input, a);
    } else if Deletes(w, o, input) {
      DeletionAbandons(w, o, input, a);
    }
  }

  /**
    What no inventory names is never cleaned up: through any run in which its owner's passes do not
    render it and nobody else touches it, an abandoned object stays as it is, deletion of its owner
    included.
   */
  lemma {:induction false} AbandonedForGood(w: LoneWorld, steps: seq<Step>, o: string, a: Addr, n: nat)
    requires o != "" && Legal(w, steps) && Abandoned(w, o, a) && n <= |steps|
    requires forall i :: 0 <= i < |steps| ==> PassesBy(After(w, steps, i), steps[i], o, a)
    ensures Abandoned(After(w, steps, n), o, a) && SameAt(w, After(w, steps, n), a)
  {
    hide Next;
    hide Enabled;
    hide Abandoned;
    hide PassesBy;
    if n > 0 {
      AbandonedForGood(w, steps, o, a, n - 1);
      AbandonedStep(After(w, steps, n - 1), steps[n - 1], o, a);
    }
  }

  // ----------------------------------------------------- The four ways out, at an input

  /** A step that loses track of a live object: accounted before, owned and untracked after. */
  ghost predicate Loses(w: World, step: Step, o: string, a: Addr) {
    && o != "" && Enabled(w, step) && Accounted(w, o, {})
    && Untracked(Next(w, step), o, a) && a in ReleasedBy(w, o, step)
  }

  /** A config map in the core group, where it lives, and its inventory entry. */
  lemma ConfigMap() returns (m: Manifest, id: Identity, rs: ResourceStatus)
    ensures ManifestIdentity(m) == id && StatusIdentity(rs) == id && Acceptable(id)
    ensures !IsClusterScoped(m.kind) && rs.kind != CRD
  {
    m := Manifest("v1", "ConfigMap", "ns", "c", map[], map[], "upstream", map[]);
    rs := ResourceStatus("v1", "ConfigMap", "ns", "c", Healthy);
    id := Identity("", "ConfigMap", "ns", "c");
    SplitFree("v1", '/');
    SlashFreeId(id);
  }

  /** A resource that applies the shoot first, takes CRDs away, and is guarded by its finalizer. */
  lemma PlainResource(status: CrStatus) returns (cr: CR)
    ensures cr.finalizer && !cr.deleting && !cr.forceDelete && ShootFirst(cr) && cr.crdPolicy == "Delete" && cr.status == status
  {
    cr := CR(true, false, false, "ShootFirst", "Delete", "s", status);
  }

  /** The only live object is recorded. */
  lemma OneEntry(w: World, o: string, side: Side, rs: ResourceStatus, a: Addr)
    requires w.live.Keys == {a} && o in w.crs && w.crs[o].finalizer && rs in Inventory(w.crs[o], side)
    requires Acceptable(StatusIdentity(rs)) && w.StatusAddr(ClusterOf(w.crs[o], side), rs) == a
    ensures Accounted(w, o, {})
  {
    hide StatusIdentity;
    hide Acceptable;
  }

  /** A delivery of one seed manifest into an empty inventory, whose patch and read-back are served. */
  lemma OneManifest(w: LoneWorld, job: Job, m: Manifest)
    requires job.seed == [m] && job.shoot == [] && job.cr.status.seed == [] && job.cr.status.shoot == []
    requires !IsClusterScoped(m.kind) && Acceptable(ManifestIdentity(m)) && ShootFirst(job.cr)
    requires w.answers(|w.log|).fault.Fine? && w.answers(|w.log| + 1).fault.Fine?
    ensures var d := Settle(w, job, Ready).draft.world;
            && d.live == w.live[w.AddrOf(Seed, m) := Stored(w, Seed, m, job.owner)] && d.crs == w.crs && d.scope == w.scope
            && d.answers == w.answers && |d.log| == |w.log| + 2
  {
    hide ManifestIdentity;
    hide ComputeConditions;
    hide IsClusterScoped;
    hide Stamp;
    OrderFacts([], []);
    var d := StartDraft(w, job);
    assert ApplySide(d, job, ShootSide) == d;
    assert Init([m]) == [] && Last([m]) == m;
    assert ApplyAll(w, Seed, [], job.owner) == AppliedAll(w, [], false, []);
    var d1 := ApplySide(d, job, SeedSide);
    assert d1.world == Apply(w, Seed, m, job.owner).world;
    ApplyEffect(w, Seed, m, job.owner);
    assert StatusForDelete([]) == [];
    assert PruneSide(d1, job, SeedSide) == d1 && PruneSide(d1, job, ShootSide) == d1;
  }

  /** The delivery of one manifest into an empty inventory, with only the status write refused. */
  lemma RefusedStep(w: LoneWorld, o: string, input: Input, m: Manifest)
    requires o != "" && Delivers(w, o, input) && input.phase == Ready && w.live == map[] && w.crs[o].status.seed == []
    requires var job := PassJob(w, o, input);
             job.seed == [m] && job.shoot == [] && job.cr.status.shoot == [] && ShootFirst(job.cr)
    requires !IsClusterScoped(m.kind) && Acceptable(ManifestIdentity(m))
    requires w.answers(|w.log|).fault.Fine? && w.answers(|w.log| + 1).fault.Fine? && w.answers(|w.log| + 2).fault.Failed?
    ensures var step, a := DoPass(o, input), w.AddrOf(Seed, m);
            Loses(w, step, o, a) && a in LostBy(w, o, input) && Abandoned(Next(w, step), o, a)
  {
    hide Settle;
    hide PlanOf;
    hide ManifestIdentity;
    hide Acceptable;
    hide IsClusterScoped;
    var job := PassJob(w, o, input);
    OneManifest(w, job, m);
    var w', d := Pass(w, o, input).world, Settle(w, job, Ready).draft.world;
    assert w'.crs == d.crs && w'.live == d.live && Last(w'.log) == WroteStatus(o, false);
  }

  lemma OneManifestJob(w: World, o: string, input: Input, m: Manifest)
    requires Delivers(w, o, input) && input.sourceOk && input.transforms == []
    requires input.seedRender == Some([m]) && input.shootRender == Some([])
    ensures var job := PassJob(w, o, input); job.seed == [m] && job.shoot == [] && job.cr == w.crs[o]
  {
    hide StableSort;
    EmptyPlan(input);
    OrderFacts([m], []);
    OrderFacts([], []);
    var job := PassJob(w, o, input);
    assert job.seed[0] in job.seed;
  }

  /** A lost status write: the object is live, and no inventory names it. */
  lemma LostWrite() returns (w: LoneWorld, step: Step, o: string, a: Addr)
    ensures Loses(w, step, o, a) && step.DoPass? && a in LostBy(w, o, step.input)
    ensures Abandoned(Next(w, step), o, a)
  {
    hide PassJob;
    hide IsClusterScoped;
    hide Acceptable;
    hide ManifestIdentity;
    hide StatusIdentity;
    hide Loses;
    hide LostBy;
    hide Abandoned;
    hide Next;
    var m, id, rs := ConfigMap();
    o, a := "me", At(Seed, id);
    var cr := PlainResource(CrStatus([], [], None, None));
    w := World(map[], map[o := cr], {}, i => Answer(if i == 2 then Failed else Fine, map[], NoOne), []);
    var input := Input(false, true, Some([m]), Some([]), [], Ready);
    step := DoPass(o, input);
    EmptyPlan(input);
    hide PlanOf;
    OneManifestJob(w, o, input, m);
    RefusedStep(w, o, input, m);
  }

  /** And it is lost for good: no number of passes without that manifest takes the object away. */
  lemma LostForGood() returns (w: LoneWorld, first: Step, o: string, a: Addr, idle: Input)
    ensures Loses(w, first, o, a) && idle.seedRender == Some([]) && idle.shootRender == Some([])
    ensures forall steps: seq<Step> :: (forall i :: 0 <= i < |steps| ==> steps[i] == DoPass(o, idle)) ==>
              After(Next(w, first), steps, |steps|).OwnedAt(a, o) && Untracked(After(Next(w, first), steps, |steps|), o, a)
  {
    hide Next;
    hide Pass;
    hide Loses;
    w, first, o, a := LostWrite();
    assert o != "" by { LosesOwner(w, first, o, a); }
    idle := Input(false, true, Some([]), Some([]), [], Ready);
    var w1 := Next(w, first);
    forall steps: seq<Step> | forall i :: 0 <= i < |steps| ==> steps[i] == DoPass(o, idle)
      ensures After(w1, steps, |steps|).OwnedAt(a, o) && Untracked(After(w1, steps, |steps|), o, a)
    {
      forall i | 0 <= i < |steps| ensures PassesBy(After(w1, steps, i), steps[i], o, a) { IdlePassesBy(After(w1, steps, i), o, idle, a); }
      AbandonedForGood(w1, steps, o, a, |steps|);
      AbandonedUntracked(After(w1, steps, |steps|), o, a);
    }
  }

  lemma LosesOwner(w: World, step: Step, o: string, a: Addr)
    requires Loses(w, step, o, a)
    ensures o != ""
  {
  }

  lemma IdlePassesBy(w: World, o: string, idle: Input, a: Addr)
    requires idle == Input(false, true, Some([]), Some([]), [], Ready)
    ensures PassesBy(w, DoPass(o, idle), o, a)
  {
    EmptyPlan(idle);
    OrderFacts([], []);
  }

  lemma AbandonedUntracked(w: World, o: string, a: Addr)
    requires Abandoned(w, o, a)
    ensures Untracked(w, o, a)
  {
    hide StatusIdentity;
    hide Acceptable;
    if a in Tracked(w, o) {
      var cr := w.crs[o];
      if a in Addrs(w, Seed, cr.status.seed) {
        AddrsCluster(w, Seed, cr.status.seed, a);
      } else {
        AddrsCluster(w, Shoot(cr.shootId), cr.status.shoot, a);
      }
    }
  }

  /** A delivery of empty renders that finds nothing to prune. */
  lemma NothingToDo(w: World, job: Job)
    requires job.seed == [] && job.shoot == [] && job.cr.status.shoot == [] && ShootFirst(job.cr)
    requires forall rs :: rs in job.cr.status.seed ==> KeepsCrd(job.cr, rs)
    ensures var s := Settle(w, job, Ready); s.draft.world == w && s.seed == [] && s.shoot == [] && s.applied == {SeedSide, ShootSide}
  {
    hide ComputeConditions;
    hide KeepsCrd;
    OrderFacts([], job.cr.status.seed);
    OrderFacts([], []);
    var d := StartDraft(w, job);
    var es := StatusForDelete(job.cr.status.seed);
    assert ApplySide(d, job, ShootSide) == d && ApplySide(d, job, SeedSide) == d;
    forall rs | rs in es ensures !Orphan(job.cr, d.Keys(SeedSide), rs) { }
    PruneNothing(w, Seed, es, d.Keys(SeedSide), job.cr, job.owner);
    assert PruneSide(d, job, SeedSide) == d && PruneSide(d, job, ShootSide) == d;
  }

  /** A CRD that left the render, under a policy that keeps it. */
  lemma KeptCrd() returns (w: LoneWorld, step: Step, o: string, a: Addr)
    ensures Loses(w, step, o, a) && step.DoPass? && a in KeptBy(w, o, step.input)
    ensures Abandoned(Next(w, step), o, a)
  {
    hide Settle;
    hide StableSort;
    hide StatusIdentity;
    hide StatusIdentityKey;
    var rs, id := CrdEntry("apiextensions.k8s.io", "v1");
    o, a := "me", At(Seed, id);
    var m := Manifest(rs.apiVersion, CRD, "", "c", map[OWNED_BY := o], map[], "", map[]);
    var cr := PlainResource(CrStatus([rs], [], None, None));
    cr := cr.(crdPolicy := "Keep");
    w := World(map[a := m], map[o := cr], {}, i => Answer(Fine, map[], NoOne), []);
    var input := Input(false, true, Some([]), Some([]), [], Ready);
    step := DoPass(o, input);
    EmptyPlan(input);
    OrderFacts([], []);
    OneEntry(w, o, SeedSide, rs, a);
    assert KeepsCrd(cr, rs);
    hide Next;
    hide Loses;
    hide KeptBy;
    hide Accounted;
    hide Abandoned;
    KeptStep(w, o, input, rs, a);
  }

  /** The delivery of nothing for a resource with one recorded CRD that it keeps. */
  lemma KeptStep(w: LoneWorld, o: string, input: Input, rs: ResourceStatus, a: Addr)
    requires Delivers(w, o, input) && input.phase == Ready && Calm(w)
    requires var job := PassJob(w, o, input);
             job.seed == [] && job.shoot == [] && job.cr.status.seed == [rs] && job.cr.status.shoot == [] && ShootFirst(job.cr)
    requires KeepsCrd(w.crs[o], rs) && Acceptable(StatusIdentity(rs)) && w.StatusAddr(Seed, rs) == a
    requires w.OwnedAt(a, o) && o != "" && Accounted(w, o, {})
    ensures var step := DoPass(o, input);
            Loses(w, step, o, a) && a in KeptBy(w, o, input) && Abandoned(Next(w, step), o, a)
  {
    hide Settle;
    hide PlanOf;
    hide StatusIdentity;
    hide StatusIdentityKey;
    hide Acceptable;
    hide KeepsCrd;
    hide Accounted;
    hide LostBy;
    hide ForcedBy;
    var job, w' := PassJob(w, o, input), Pass(w, o, input).world;
    NothingToDo(w, job);
    var s := Settle(w, job, Ready);
    assert w'.live == w.live && w'.crs[o].status.seed == [] && w'.crs[o].status.shoot == [] && Recorded(w', o);
    NoKeys(w, job);
    assert a in KeptCrds(w, job.cr, SeedSide, s.draft.Keys(SeedSide));
  }

  lemma NoKeys(w: World, job: Job)
    requires job.seed == [] && job.shoot == [] && job.cr.status.shoot == [] && ShootFirst(job.cr)
    requires forall rs :: rs in job.cr.status.seed ==> KeepsCrd(job.cr, rs)
    ensures var s := Settle(w, job, Ready); s.draft.world == w && s.draft.Keys(SeedSide) == {}
  {
    hide ComputeConditions;
    hide KeepsCrd;
    NothingToDo(w, job);
    OrderFacts([], job.cr.status.seed);
    var d := StartDraft(w, job);
    PruneNothing(w, Seed, StatusForDelete(job.cr.status.seed), d.Keys(SeedSide), job.cr, job.owner);
  }

  lemma CrdEntry(group: string, version: string) returns (rs: ResourceStatus, id: Identity)
    requires Free(group, '/') && Free(version, '/') && group != ""
    ensures rs == ResourceStatus(group + "/" + version, CRD, "", "c", Healthy) && id == Identity(group, CRD, "", "c")
    ensures StatusIdentity(rs) == id && Acceptable(id)
  {
    rs, id := ResourceStatus(group + "/" + version, CRD, "", "c", Healthy), Identity(group, CRD, "", "c");
    FormatParses(GroupVersion(group, version));
    SlashFreeId(id);
  }

  /** A forced deletion with the shoot out of reach; once the resource is collected nothing names the object. */
  lemma ForcedAway() returns (w: LoneWorld, step: Step, o: string, a: Addr)
    ensures Loses(w, step, o, a) && step.DoPass? && a in ForcedBy(w, o, step.input)
    ensures Enabled(Next(w, step), Collect(o)) && Abandoned(Next(Next(w, step), Collect(o)), o, a)
  {
    hide StableSort;
    hide ManifestIdentity;
    hide StatusIdentity;
    var m, id, rs := ConfigMap();
    var cr := PlainResource(CrStatus([], [rs], None, None));
    cr := cr.(deleting := true, forceDelete := true);
    o, a := "me", At(Shoot(cr.shootId), id);
    w := World(map[a := Stamp(m, o)], map[o := cr], {}, i => Answer(Fine, map[], NoOne), []);
    var input := Input(false, true, None, None, [], ClientFailed);
    step := DoPass(o, input);
    OrderFacts([], []);
    OneEntry(w, o, ShootSide, rs, a);
    assert Pending(cr);
    hide Next;
    hide Enabled;
    hide Loses;
    hide Pending;
    hide ForcedBy;
    hide Accounted;
    hide Abandoned;
    ForcedStep(w, o, input, rs, a);
  }

  /** The forced deletion of a resource with one entry on a shoot that cannot be reached. */
  lemma ForcedStep(w: LoneWorld, o: string, input: Input, rs: ResourceStatus, a: Addr)
    requires Deletes(w, o, input) && input.phase != Ready && Calm(w)
    requires var cr := w.crs[o];
             cr.finalizer && cr.forceDelete && cr.status.seed == [] && Pending(cr) && rs in cr.status.shoot
             && w.StatusAddr(Shoot(cr.shootId), rs) == a
    requires Acceptable(StatusIdentity(rs)) && w.OwnedAt(a, o) && o != "" && Accounted(w, o, {})
    ensures var step := DoPass(o, input);
            && Loses(w, step, o, a) && a in ForcedBy(w, o, input)
            && Enabled(Next(w, step), Collect(o)) && Abandoned(Next(Next(w, step), Collect(o)), o, a)
  {
    hide DeletePass;
    hide Pending;
    hide TearDown;
    hide StatusIdentity;
    hide Acceptable;
    hide Accounted;
    hide LostBy;
    hide KeptBy;
    Unreached(w, o, w.crs[o]);
  }

  lemma Unreached(w: LoneWorld, o: string, cr: CR)
    requires o in w.crs && w.crs[o] == cr && cr.status.seed == [] && Pending(cr) && cr.forceDelete && Calm(w)
    ensures var w' := DeletePass(w, o, cr, false).world;
            && w'.live == w.live && w'.scope == w.scope && o in w'.crs && !w'.crs[o].finalizer && SameSpec(cr, w'.crs[o])
    ensures !ShootDone(cr, false, TearDown(Marked(w, o, cr), o, cr, false).shootErr)
  {
    hide Pending;
    OrderFacts([], []);
    assert DeleteSide(Marked(w, o, cr), o, cr, SeedSide) == Wrote(Marked(w, o, cr), false);
  }

  /** An edit that points at another shoot: what was recorded there is stranded. */
  lemma StrandedShoot() returns (w: LoneWorld, step: Step, o: string, a: Addr)
    ensures step.Edit? && o != "" && Enabled(w, step) && Accounted(w, o, {})
    ensures Untracked(Next(w, step), o, a) && a in StrandedBy(w, o, step)
  {
    hide ManifestIdentity;
    hide StatusIdentity;
    var m, id, rs := ConfigMap();
    var cr := PlainResource(CrStatus([], [rs], None, None));
    o, a := "me", At(Shoot(cr.shootId), id);
    w := World(map[a := Stamp(m, o)], map[o := cr], {}, i => Answer(Fine, map[], NoOne), []);
    var other := cr.shootId + "2";
    step := Edit(o, cr.(shootId := other));
    hide Accounted;
    hide Untracked;
    hide StrandedBy;
    hide Next;
    OneEntry(w, o, ShootSide, rs, a);
    StrandedStep(w, o, other, rs, a);
  }

  lemma StrandedStep(w: World, o: string, shootId: string, rs: ResourceStatus, a: Addr)
    requires o in w.crs && w.crs[o].finalizer && w.crs[o].shootId != shootId && w.crs[o].status.seed == []
    requires rs in w.crs[o].status.shoot && Acceptable(StatusIdentity(rs)) && w.StatusAddr(Shoot(w.crs[o].shootId), rs) == a
    requires w.OwnedAt(a, o)
    ensures var step := Edit(o, w.crs[o].(shootId := shootId));
            Untracked(Next(w, step), o, a) && a in StrandedBy(w, o, step)
  {
    hide StatusIdentity;
    hide Acceptable;
  }
}

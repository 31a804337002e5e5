/** When a pass of one custom resource changes an object that carries the label of another. */
module Ownership {
  import opened Trees
  import opened Manifests
  import opened Ordering
  import opened Api
  import opened Deliver
  import opened Controller
  import opened Effects
  import opened Accounting
  import opened Passes
  import opened Trace
  import opened Convergence

  /** From `w` to `w'` a patch at `a` took effect. */
  ghost predicate Hit(w: World, w': World, a: Addr) {
    exists i: nat :: HitAt(w, w', a, i)
  }

  ghost predicate HitAt(w: World, w': World, a: Addr, i: nat) {
    |w.log| <= i < |w'.log| && w'.log[i].Patched? && w'.log[i].effect && w'.log[i].addr == a
  }

  ghost predicate Alien(w: World, p: string, a: Addr) { a in w.live && Owner(w.live[a]) != p }

  /** Work for `p` leaves an object of another owner as it is until a patch hits it, and then it is alien no more. */
  ghost predicate Spares(w: World, w': World, p: string, a: Addr) {
    && w.log <= w'.log
    && (if Alien(w, p, a) && !Hit(w, w', a) then SameAt(w, w', a) else !Alien(w', p, a))
  }

  lemma SparesTransitive(w: World, w1: World, w2: World, p: string, a: Addr)
    requires Spares(w, w1, p, a) && Spares(w1, w2, p, a)
    ensures Spares(w, w2, p, a)
  {
    if i: nat :| HitAt(w, w1, a, i) { assert HitAt(w, w2, a, i); }
    if i: nat :| HitAt(w1, w2, a, i) { assert HitAt(w, w2, a, i); }
    if i: nat :| HitAt(w, w2, a, i) {
      if i < |w1.log| { assert HitAt(w, w1, a, i); } else { assert HitAt(w1, w2, a, i); }
    }
  }

  /** A stretch without patches that takes away only what `p` owns. */
  lemma ShrinkSpares(w: World, w': World, p: string, a: Addr)
    requires w.log <= w'.log && Shrinks(w, w')
    requires forall i :: |w.log| <= i < |w'.log| ==> !w'.log[i].Patched?
    requires forall b :: b in w.live && b !in w'.live ==> w.OwnedAt(b, p)
    ensures Spares(w, w', p, a)
  {
  }

  lemma PatchSpares(w: LoneWorld, c: Cluster, m: Manifest, p: string, a: Addr)
    ensures Spares(w, Patch(w, c, Stamp(m, p)).world, p, a)
  {
    hide ManifestIdentity;
    hide Stamp;
    hide Acceptable;
    var r := Patch(w, c, Stamp(m, p)).world;
    var e := Last(r.log);
    assert r.log == w.log + [e];
    if e.effect && e.addr == a { assert HitAt(w, r, a, |w.log|); }
  }

  lemma ReadSpares(w: LoneWorld, b: Addr, p: string, a: Addr)
    ensures Spares(w, Get(w, b).world, p, a)
  {
  }

  lemma ApplySpares(w: LoneWorld, c: Cluster, m: Manifest, p: string, a: Addr)
    ensures Spares(w, Apply(w, c, m, p).world, p, a)
  {
    hide ManifestIdentity;
    hide Stamp;
    hide IsClusterScoped;
    hide Patch;
    hide Spares;
    var b := w.AddrOf(c, m);
    var g := if IsClusterScoped(m.kind) then ForeignOwner(w, b, p) else Guarded(w, Clear);
    ReadSpares(w, b, p, a);
    assert Spares(w, w, p, a) by { NoneSpares(w, p, a); }
    var q := Patch(g.world, c, Stamp(m, p));
    PatchSpares(g.world, c, m, p, a);
    SparesTransitive(w, g.world, q.world, p, a);
    ReadSpares(q.world, b, p, a);
    SparesTransitive(w, q.world, Get(q.world, b).world, p, a);
  }

  lemma NoneSpares(w: World, p: string, a: Addr)
    ensures Spares(w, w, p, a)
  {
  }

  lemma {:induction false} ApplyAllSpares(w: LoneWorld, c: Cluster, ms: seq<Manifest>, p: string, a: Addr)
    ensures Spares(w, ApplyAll(w, c, ms, p).world, p, a)
  {
    hide Apply;
    hide Spares;
    if ms == [] {
      NoneSpares(w, p, a);
    } else {
      var before := ApplyAll(w, c, Init(ms), p).world;
      ApplyAllSpares(w, c, Init(ms), p, a);
      ApplySpares(before, c, Last(ms), p, a);
      SparesTransitive(w, before, ApplyAll(w, c, ms, p).world, p, a);
    }
  }

  lemma ApplySideSpares(d: Draft, job: Job, side: Side, a: Addr)
    requires NobodyElse(d.world.answers)
    ensures Spares(d.world, ApplySide(d, job, side).world, job.owner, a)
  {
    hide ApplyAll;
    hide Spares;
    ApplyAllSpares(d.world, ClusterOf(job.cr, side), job.Render(side), job.owner, a);
  }

  lemma PruneSideSpares(d: Draft, job: Job, side: Side, a: Addr)
    requires NobodyElse(d.world.answers)
    ensures Spares(d.world, PruneSide(d, job, side).world, job.owner, a)
  {
    hide Prune;
    hide Spares;
    var c, es, keys := ClusterOf(job.cr, side), StatusForDelete(Inventory(job.cr, side)), d.Keys(side);
    OrderFacts([], Inventory(job.cr, side));
    PruneActs(d.world, c, es, keys, job.cr, job.owner);
    PruneEffect(d.world, c, es, keys, job.cr, job.owner);
    ShrinkSpares(d.world, PruneSide(d, job, side).world, job.owner, a);
  }

  lemma SettleSpares(w: LoneWorld, job: Job, phase: Phase, a: Addr)
    ensures Spares(w, Settle(w, job, phase).draft.world, job.owner, a)
  {
    hide ApplySide;
    hide PruneSide;
    hide Spares;
    hide Settle;
    var first, d, p := FirstSide(job.cr), StartDraft(w, job), job.owner;
    var d1 := ApplySide(d, job, first);
    var d2 := ApplySide(d1, job, Other(first));
    var d3 := PruneSide(d2, job, Other(first));
    NoneSpares(w, p, a);
    ApplySideSpares(d, job, first, a);
    PruneSideSpares(d1, job, first, a);
    SparesTransitive(w, d1.world, PruneSide(d1, job, first).world, p, a);
    ApplySideSpares(d1, job, Other(first), a);
    SparesTransitive(w, d1.world, d2.world, p, a);
    PruneSideSpares(d2, job, Other(first), a);
    SparesTransitive(w, d2.world, d3.world, p, a);
    PruneSideSpares(d3, job, first, a);
    SparesTransitive(w, d3.world, PruneSide(d3, job, first).world, p, a);
    SettleWorlds(w, job, phase);
  }

  lemma SavesSpare(w: LoneWorld, p: string, st: CrStatus, present: bool, a: Addr)
    ensures Spares(w, SaveStatus(w, p, st).world, p, a) && Spares(w, SaveFinalizer(w, p, present).world, p, a)
  {
  }

  lemma PassSpares(w: LoneWorld, p: string, input: Input, a: Addr)
    ensures Spares(w, Pass(w, p, input).world, p, a)
  {
    hide Spares;
    hide Settle;
    hide SaveStatus;
    hide SaveFinalizer;
    hide DeletePass;
    hide PlanOf;
    NoneSpares(w, p, a);
    if p in w.crs && !input.readFails {
      var cr := w.crs[p];
      if cr.deleting {
        DeletePassSpares(w, p, input, a);
      } else if !cr.finalizer {
        SavesSpare(w, p, cr.status, true, a);
      } else if PlanOf(input).PlanFailed? {
        SavesSpare(w, p, cr.status.(ready := Some(Condition(false, PlanOf(input).reason))), true, a);
      } else {
        var job := PassJob(w, p, input);
        var s := Settle(w, job, input.phase);
        var st := cr.status.(seed := s.seed, shoot := s.shoot, ready := Some(s.ready));
        SettleSpares(w, job, input.phase, a);
        SavesSpare(s.draft.world, p, st, true, a);
        SparesTransitive(w, s.draft.world, SaveStatus(s.draft.world, p, st).world, p, a);
      }
    }
  }

  lemma DeletePassSpares(w: LoneWorld, p: string, input: Input, a: Addr)
    requires Deletes(w, p, input)
    ensures Spares(w, Pass(w, p, input).world, p, a)
  {
    hide DeletePass;
    hide TearDown;
    hide SideGone;
    hide Lawful;
    var cr, w' := w.crs[p], Pass(w, p, input).world;
    DeletePassClusters(w, p, cr, input.phase == Ready);
    DeletePassRemovesOwn(w, p, cr, input.phase == Ready);
    PassActs(w, p, input);
    ShrinkSpares(w, w', p, a);
  }

  lemma DeletePassRemovesOwn(w: LoneWorld, p: string, cr: CR, reachable: bool)
    requires p in w.crs && w.crs[p] == cr
    ensures var w' := DeletePass(w, p, cr, reachable).world;
            forall b :: b in w.live && b !in w'.live ==> w.OwnedAt(b, p)
  {
    hide SaveStatus;
    hide DeleteSide;
    hide Conclude;
    hide SideGone;
    hide Pending;
    var first := SaveStatus(w, p, MarkDeleting(cr));
    SavesAlone(w, p, MarkDeleting(cr), false);
    var t := TearDown(first.world, p, cr, reachable);
    TearDownOwn(first.world, p, cr, reachable);
    TearDownFacts(first.world, p, cr, reachable);
    ConcludeAlone(t, p, cr, reachable, MarkDeleting(cr));
    ConcludeAlone(t, p, cr, reachable, cr.status.(ready := Some(Condition(false, "ShootUnreachable"))));
  }

  ghost predicate TakesOwn(w: World, w': World, p: string) {
    Shrinks(w, w') && forall b :: b in w.live && b !in w'.live ==> w.OwnedAt(b, p)
  }

  lemma DeleteSideOwn(w: LoneWorld, p: string, cr: CR, side: Side)
    ensures TakesOwn(w, DeleteSide(w, p, cr, side).world, p)
  {
    hide DeleteAll;
    DeleteAllEffect(w, ClusterOf(cr, side), StatusForDelete(Inventory(cr, side)), cr, p);
  }

  lemma TearDownOwn(w: LoneWorld, p: string, cr: CR, reachable: bool)
    ensures TakesOwn(w, TearDown(w, p, cr, reachable).world, p)
  {
    hide DeleteSide;
    hide Pending;
    DeleteSideOwn(w, p, cr, SeedSide);
    DeleteSideOwn(w, p, cr, ShootSide);
    DeleteSideOwn(DeleteSide(w, p, cr, SeedSide).world, p, cr, ShootSide);
    DeleteSideOwn(DeleteSide(w, p, cr, ShootSide).world, p, cr, SeedSide);
  }

  // ------------------------------------------------------- Where patches come from

  /** The address of a rendered manifest. */
  ghost predicate RenderedAt(w: World, job: Job, a: Addr) {
    exists side, m :: m in job.Render(side) && w.AddrOf(ClusterOf(job.cr, side), m) == a
  }

  ghost predicate PatchesRendered(w: World, w': World, job: Job) {
    && w.log <= w'.log && w'.scope == w.scope
    && forall i :: |w.log| <= i < |w'.log| && w'.log[i].Patched? ==> RenderedAt(w, job, w'.log[i].addr)
  }

  lemma RenderedAlike(w: World, w': World, job: Job, a: Addr)
    requires w.scope == w'.scope && RenderedAt(w, job, a)
    ensures RenderedAt(w', job, a)
  {
    hide ManifestIdentity;
    var side, m :| m in job.Render(side) && w.AddrOf(ClusterOf(job.cr, side), m) == a;
    assert w'.AddrOf(ClusterOf(job.cr, side), m) == a;
  }

  lemma RenderedTransitive(w: World, w1: World, w2: World, job: Job)
    requires PatchesRendered(w, w1, job) && PatchesRendered(w1, w2, job)
    ensures PatchesRendered(w, w2, job)
  {
    hide RenderedAt;
    forall i | |w.log| <= i < |w2.log| && w2.log[i].Patched? ensures RenderedAt(w, job, w2.log[i].addr) {
      if i < |w1.log| { assert w2.log[i] == w1.log[i]; } else { RenderedAlike(w1, w, job, w2.log[i].addr); }
    }
  }

  lemma {:induction false} ApplyAllRendered(w: World, c: Cluster, ms: seq<Manifest>, o: string)
    ensures var w' := ApplyAll(w, c, ms, o).world;
            && w.log <= w'.log
            && forall i :: |w.log| <= i < |w'.log| && w'.log[i].Patched? ==> exists m :: m in ms && w'.log[i].addr == w.AddrOf(c, m)
  {
    hide Apply;
    hide ManifestIdentity;
    if ms != [] {
      var w1, w2 := ApplyAll(w, c, Init(ms), o).world, ApplyAll(w, c, ms, o).world;
      ApplyAllRendered(w, c, Init(ms), o);
      ApplyAllEntries(w, c, Init(ms), o);
      ApplyTrace(w1, c, Last(ms), o);
      forall i | |w.log| <= i < |w2.log| && w2.log[i].Patched? ensures exists m :: m in ms && w2.log[i].addr == w.AddrOf(c, m) {
        if i < |w1.log| {
          assert w2.log[i] == w1.log[i];
          var m :| m in Init(ms) && w1.log[i].addr == w.AddrOf(c, m);
          assert m in ms;
        } else {
          assert Last(ms) in ms && w2.log[i].addr == w.AddrOf(c, Last(ms));
        }
      }
    }
  }

  lemma ApplySideRendered(d: Draft, job: Job, side: Side)
    ensures PatchesRendered(d.world, ApplySide(d, job, side).world, job)
  {
    hide ApplyAll;
    hide ManifestIdentity;
    var c, ms := ClusterOf(job.cr, side), job.Render(side);
    var w' := ApplyAll(d.world, c, ms, job.owner).world;
    ApplyAllRendered(d.world, c, ms, job.owner);
    ApplyAllEntries(d.world, c, ms, job.owner);
    forall i | |d.world.log| <= i < |w'.log| && w'.log[i].Patched? ensures RenderedAt(d.world, job, w'.log[i].addr) {
      var m :| m in ms && w'.log[i].addr == d.world.AddrOf(c, m);
      assert m in job.Render(side) && d.world.AddrOf(ClusterOf(job.cr, side), m) == w'.log[i].addr;
    }
  }

  lemma PruneSideRendered(d: Draft, job: Job, side: Side)
    ensures PatchesRendered(d.world, PruneSide(d, job, side).world, job)
  {
    hide Prune;
    var c, es, keys := ClusterOf(job.cr, side), StatusForDelete(Inventory(job.cr, side)), d.Keys(side);
    OrderFacts([], Inventory(job.cr, side));
    PruneActs(d.world, c, es, keys, job.cr, job.owner);
  }

  lemma SettleRendered(w: World, job: Job, phase: Phase)
    ensures PatchesRendered(w, Settle(w, job, phase).draft.world, job)
  {
    hide ApplySide;
    hide PruneSide;
    hide Settle;
    var first, d := FirstSide(job.cr), StartDraft(w, job);
    assert PatchesRendered(w, w, job);
    hide PatchesRendered;
    var d1 := ApplySide(d, job, first);
    var d2 := ApplySide(d1, job, Other(first));
    var d3 := PruneSide(d2, job, Other(first));
    ApplySideRendered(d, job, first);
    PruneSideRendered(d1, job, first);
    RenderedTransitive(w, d1.world, PruneSide(d1, job, first).world, job);
    ApplySideRendered(d1, job, Other(first));
    RenderedTransitive(w, d1.world, d2.world, job);
    PruneSideRendered(d2, job, Other(first));
    RenderedTransitive(w, d2.world, d3.world, job);
    PruneSideRendered(d3, job, first);
    RenderedTransitive(w, d3.world, PruneSide(d3, job, first).world, job);
    SettleWorlds(w, job, phase);
  }

  /** Every patch of a pass is of a manifest that the pass rendered. */
  lemma HitIsRendered(w: LoneWorld, p: string, input: Input, a: Addr)
    requires Hit(w, Pass(w, p, input).world, a)
    ensures Delivers(w, p, input) && RenderedAt(w, PassJob(w, p, input), a)
  {
    var w' := Pass(w, p, input).world;
    var i: nat :| HitAt(w, w', a, i);
    hide Pass;
    assert p in w.crs by { PassLawful(w, p, input); }
    PassActs(w, p, input);
    assert Delivers(w, p, input);
    DeliveryRendered(w, p, input);
  }

  lemma DeliveryRendered(w: World, p: string, input: Input)
    requires Delivers(w, p, input)
    ensures PatchesRendered(w, Pass(w, p, input).world, PassJob(w, p, input))
  {
    hide Settle;
    hide PlanOf;
    hide RenderedAt;
    var job := PassJob(w, p, input);
    var s := Settle(w, job, input.phase);
    SettleRendered(w, job, input.phase);
    var end := SaveStatus(s.draft.world, p, job.cr.status.(seed := s.seed, shoot := s.shoot, ready := Some(s.ready))).world;
    assert end.log == s.draft.world.log + [Last(end.log)];
  }

  // --------------------------------------------------------------- The exact law

  /**
    Exactly when a pass of `p` changes an object labelled by another owner: a patch at its address
    takes effect. That is a patch of a manifest that the pass rendered, of a kind outside the static
    list; and the object loses its owner with it.
   */
  lemma ForeignChangeIff(w: LoneWorld, o: string, p: string, input: Input, a: Addr)
    requires o != "" && p != o && w.OwnedAt(a, o)
    ensures var w' := Pass(w, p, input).world;
            && (!SameAt(w, w', a) <==> Hit(w, w', a))
            && (w'.OwnedAt(a, o) <==> !Hit(w, w', a))
            && (Hit(w, w', a) ==>
                  Delivers(w, p, input) && RenderedAt(w, PassJob(w, p, input), a) && !IsClusterScoped(a.id.kind))
  {
    hide Pass;
    hide PlanOf;
    var w' := Pass(w, p, input).world;
    PassSpares(w, p, input, a);
    PassLawful(w, p, input);
    if p in w.crs && IsClusterScoped(a.id.kind) {
      assert Foreign(w, a, p);
      assert SameAt(w, w'.(crs := w.crs), a);
    }
    if Hit(w, w', a) { HitIsRendered(w, p, input, a); }
  }

  // ------------------------------------------------------------ By the render alone

  /** An applied side without an error patches at every rendered address. */
  lemma SideHits(w: LoneWorld, s: Settled, job: Job, side: Side, wa: World, wp: World, w': World, m: Manifest)
    requires SideRan(w, s, job, side, wa, wp) && !SideErred(s, job, side, wa, wp) && m in job.Render(side)
    requires s.draft.world.log <= w'.log
    ensures Hit(w, w', w.AddrOf(ClusterOf(job.cr, side), m))
  {
    hide ApplyAll;
    hide Prune;
    hide ManifestIdentity;
    hide AlikeOn;
    var c, ms, o := ClusterOf(job.cr, side), job.Render(side), job.owner;
    var a := SideApply(wa, job, side);
    var k :| 0 <= k < |ms| && ms[k] == m;
    RanLogs(w, s, job, side, wa, wp);
    ApplyAllEntries(wa, c, ms, o);
    assert a.statuses[k] in a.statuses;
    var j := ApplyAllPatched(wa, c, ms, o, k);
    assert w'.log[j] == a.world.log[j];
    assert HitAt(w, w', w.AddrOf(c, m), j);
  }

  /** An error-free pass with a ready shoot patches exactly at the addresses that it renders. */
  lemma CleanHitIff(w: LoneWorld, p: string, input: Input, a: Addr)
    requires Delivers(w, p, input) && input.phase == Ready && !Pass(w, p, input).err
    ensures Hit(w, Pass(w, p, input).world, a) <==> RenderedAt(w, PassJob(w, p, input), a)
  {
    hide Pass;
    hide Settle;
    hide PlanOf;
    hide SideRan;
    hide SideErred;
    hide ManifestIdentity;
    var job, w' := PassJob(w, p, input), Pass(w, p, input).world;
    if Hit(w, w', a) { HitIsRendered(w, p, input, a); }
    if RenderedAt(w, job, a) {
      var side, m :| m in job.Render(side) && w.AddrOf(ClusterOf(job.cr, side), m) == a;
      ErrorFreeDelivers(w, p, input);
      var s := Settle(w, job, Ready);
      var a1, p1, a2, p2 := BothSidesRan(w, job);
      SideHits(w, s, job, side, if side == SeedSide then a1 else a2, if side == SeedSide then p1 else p2, w', m);
    }
  }

  /**
    So an error-free pass of `p` takes an object from its owner exactly if it renders something at
    its address; and then the kind is outside the static list.
   */
  lemma TakenIffRendered(w: LoneWorld, o: string, p: string, input: Input, a: Addr)
    requires o != "" && p != o && w.OwnedAt(a, o)
    requires Delivers(w, p, input) && input.phase == Ready && !Pass(w, p, input).err
    ensures var w' := Pass(w, p, input).world; var rendered := RenderedAt(w, PassJob(w, p, input), a);
            && (w'.OwnedAt(a, o) <==> !rendered) && (SameAt(w, w', a) <==> !rendered)
            && (rendered ==> !IsClusterScoped(a.id.kind))
  {
    hide Pass;
    hide PlanOf;
    hide RenderedAt;
    ForeignChangeIff(w, o, p, input, a);
    CleanHitIff(w, p, input, a);
  }
}

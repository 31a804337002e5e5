/** What a pass with a ready shoot writes and leaves live: convergence, the fixed point, and Ready. */
module Convergence {
  import opened Trees
  import opened Manifests
  import opened Ordering
  import opened Api
  import opened Deliver
  import opened Controller
  import opened Effects
  import opened Retention
  import opened Accounting
  import opened Passes
  import opened Trace
  import opened Grading

  // ------------------------------------------------- What each side contributes

  ghost predicate AlikeOn(w: World, w': World, c: Cluster) {
    forall a: Addr :: a.cluster == c ==> SameAt(w, w', a)
  }

  ghost function SideApply(w: World, job: Job, side: Side): AppliedAll {
    ApplyAll(w, ClusterOf(job.cr, side), job.Render(side), job.owner)
  }

  ghost function SidePrune(w: World, job: Job, side: Side, keys: set<string>): Pruned {
    Prune(w, ClusterOf(job.cr, side), StatusForDelete(Inventory(job.cr, side)), keys, job.cr, job.owner)
  }

  /**
    One applied side of a delivery: applied from world `wa` and pruned from world `wp`, by the keys
    of the manifests as the applies left them, with nothing else changed on its cluster in between
    or afterwards and nothing else deleted there.
   */
  ghost predicate SideRan(w: World, s: Settled, job: Job, side: Side, wa: World, wp: World) {
    var c := ClusterOf(job.cr, side);
    var a, p := SideApply(wa, job, side), SidePrune(wp, job, side, s.draft.Keys(side));
    && Continues(w, wa) && Continues(w, wp) && a.world.log <= wp.log
    && AlikeOn(w, wa, c) && AlikeOn(a.world, wp, c) && AlikeOn(p.world, s.draft.world, c)
    && NoDeletesOn(w, wp, c) && NoDeletesOn(p.world, s.draft.world, c)
    && s.draft.Left(side) == a.left && Written(s, side) == a.statuses + p.retained
  }

  ghost predicate SideErred(s: Settled, job: Job, side: Side, wa: World, wp: World) {
    SideApply(wa, job, side).err || SidePrune(wp, job, side, s.draft.Keys(side)).err
  }

  lemma ApplySideKeeps(d: Draft, job: Job, side: Side)
    requires NobodyElse(d.world.answers)
    ensures var d' := ApplySide(d, job, side); var c := ClusterOf(job.cr, Other(side));
            && Continues(d.world, d'.world) && AlikeOn(d.world, d'.world, c)
            && NoDeletesOn(d.world, d'.world, c) && NoDeletesOn(d.world, d'.world, ClusterOf(job.cr, side))
            && d'.Statuses(Other(side)) == d.Statuses(Other(side)) && d'.pruneErr == d.pruneErr
            && d'.Left(Other(side)) == d.Left(Other(side))
            && d'.Statuses(side) == SideApply(d.world, job, side).statuses
            && d'.Left(side) == SideApply(d.world, job, side).left
            && d'.applyErr == (d.applyErr || SideApply(d.world, job, side).err)
  {
    hide ApplyAll;
    ApplyAllEntries(d.world, ClusterOf(job.cr, side), job.Render(side), job.owner);
    ApplyElsewhere(d.world, ClusterOf(job.cr, side), job.Render(side), job.owner);
    ApplyAllRequests(d.world, ClusterOf(job.cr, side), job.Render(side), job.owner);
  }

  lemma PruneSideKeeps(d: Draft, job: Job, side: Side)
    requires NobodyElse(d.world.answers)
    ensures var d' := PruneSide(d, job, side); var c := ClusterOf(job.cr, Other(side));
            && Continues(d.world, d'.world) && AlikeOn(d.world, d'.world, c) && NoDeletesOn(d.world, d'.world, c)
            && d'.Statuses(Other(side)) == d.Statuses(Other(side)) && d'.applyErr == d.applyErr
            && d'.seedLeft == d.seedLeft && d'.shootLeft == d.shootLeft
            && d'.Statuses(side) == d.Statuses(side) + SidePrune(d.world, job, side, d.Keys(side)).retained
            && d'.pruneErr == (d.pruneErr || SidePrune(d.world, job, side, d.Keys(side)).err)
  {
    hide Prune;
    var es, keys := StatusForDelete(Inventory(job.cr, side)), d.Keys(side);
    PruneEffect(d.world, ClusterOf(job.cr, side), es, keys, job.cr, job.owner);
    PruneElsewhere(d.world, ClusterOf(job.cr, side), es, keys, job.cr, job.owner);
    PruneSideActs(d, job, side);
  }

  lemma AlikeTransitive(w: World, w1: World, w2: World, c: Cluster)
    requires AlikeOn(w, w1, c) && AlikeOn(w1, w2, c)
    ensures AlikeOn(w, w2, c)
  {
    forall a: Addr | a.cluster == c ensures SameAt(w, w2, a) {
      assert SameAt(w, w1, a) && SameAt(w1, w2, a);
    }
  }

  lemma AlikeRefl(w: World, c: Cluster)
    ensures AlikeOn(w, w, c) && NoDeletesOn(w, w, c)
  {
  }

  lemma BothPath(w: World, job: Job)
    requires Settle(w, job, Ready).applied == {SeedSide, ShootSide}
    ensures var first := if ShootFirst(job.cr) then ShootSide else SeedSide;
            var d2 := ApplySide(ApplySide(StartDraft(w, job), job, first), job, Other(first));
            Settle(w, job, Ready) == SettleBoth(PruneSide(PruneSide(d2, job, Other(first)), job, first))
  {
    hide ApplySide;
    hide PruneSide;
    assert SeedSide !in {ShootSide};
  }

  /** A delivery that applied both sides ran each of them once, and errs exactly if a side did. */
  lemma BothSidesRan(w: LoneWorld, job: Job) returns (a1: LoneWorld, p1: LoneWorld, a2: LoneWorld, p2: LoneWorld)
    requires Settle(w, job, Ready).applied == {SeedSide, ShootSide}
    ensures var s := Settle(w, job, Ready);
            && SideRan(w, s, job, SeedSide, a1, p1) && SideRan(w, s, job, ShootSide, a2, p2)
            && (s.err <==> SideErred(s, job, SeedSide, a1, p1) || SideErred(s, job, ShootSide, a2, p2))
  {
    hide ApplyAll;
    hide Prune;
    hide AlikeOn;
    hide NoDeletesOn;
    hide RenderKeys;
    var first := if ShootFirst(job.cr) then ShootSide else SeedSide;
    var second := Other(first);
    var c1, c2 := ClusterOf(job.cr, first), ClusterOf(job.cr, second);
    var d := StartDraft(w, job);
    var d1 := ApplySide(d, job, first);
    var d2 := ApplySide(d1, job, second);
    var d3 := PruneSide(d2, job, second);
    var d4 := PruneSide(d3, job, first);
    ApplySideKeeps(d, job, first);
    ApplySideKeeps(d1, job, second);
    PruneSideKeeps(d2, job, second);
    PruneSideKeeps(d3, job, first);
    assert SeedSide != ShootSide;
    var s := Settle(w, job, Ready);
    assert s == SettleBoth(d4) by { BothPath(w, job); }
    AlikeRefl(d4.world, c1);
    AlikeRefl(w, c1);
    AlikeRefl(d2.world, c2);
    AlikeTransitive(d1.world, d2.world, d3.world, c1);
    NoDeletesTransitive(w, d1.world, d2.world, c1);
    NoDeletesTransitive(w, d2.world, d3.world, c1);
    NoDeletesTransitive(w, d1.world, d2.world, c2);
    assert SideRan(w, s, job, first, w, d3.world);
    assert SideRan(w, s, job, second, d1.world, d2.world);
    if first == SeedSide {
      a1, p1, a2, p2 := w, d3.world, d1.world, d2.world;
    } else {
      a1, p1, a2, p2 := d1.world, d2.world, w, d3.world;
    }
  }

  /** A delivery of one side alone applies it and prunes it. */
  lemma OneSidePath(w: World, job: Job, phase: Phase, side: Side)
    requires side in Settle(w, job, phase).applied && Other(side) !in Settle(w, job, phase).applied
    ensures var s := Settle(w, job, phase);
            && s.draft == PruneSide(ApplySide(StartDraft(w, job), job, side), job, side)
            && Written(s, side) == s.draft.Statuses(side)
  {
    hide ApplySide;
    hide PruneSide;
    hide AnyFailed;
    hide AllFailed;
  }

  lemma BothIsReady(w: World, job: Job, phase: Phase)
    requires SeedSide in Settle(w, job, phase).applied && ShootSide in Settle(w, job, phase).applied
    ensures phase == Ready && Settle(w, job, phase).applied == {SeedSide, ShootSide}
  {
    hide ApplySide;
    hide PruneSide;
    hide AnyFailed;
    hide AllFailed;
  }

  /** On every path an applied side was applied once and then pruned once. */
  lemma AppliedSideRan(w: LoneWorld, job: Job, phase: Phase, side: Side) returns (wa: LoneWorld, wp: LoneWorld)
    requires side in Settle(w, job, phase).applied
    ensures SideRan(w, Settle(w, job, phase), job, side, wa, wp)
  {
    hide Settle;
    if Other(side) in Settle(w, job, phase).applied {
      hide SideRan;
      BothIsReady(w, job, phase);
      var a1, p1, a2, p2 := BothSidesRan(w, job);
      wa, wp := if side == SeedSide then a1 else a2, if side == SeedSide then p1 else p2;
    } else {
      hide ApplyAll;
      hide Prune;
      hide AlikeOn;
      hide NoDeletesOn;
      hide RenderKeys;
      var c, d := ClusterOf(job.cr, side), StartDraft(w, job);
      var d1 := ApplySide(d, job, side);
      ApplySideKeeps(d, job, side);
      PruneSideKeeps(d1, job, side);
      OneSidePath(w, job, phase, side);
      wa, wp := w, d1.world;
      AlikeRefl(w, c);
      AlikeRefl(wp, c);
      AlikeRefl(PruneSide(d1, job, side).world, c);
    }
  }

  /**
    What an applied side writes and asks for. It writes one entry per rendered manifest in apply
    order, then `kept`: in order, exactly the orphans whose read or delete fails. On its cluster it
    sends exactly the deletes of the orphans that read back live and owned. And an orphan outside
    `kept` is no longer live and owned.
   */
  ghost predicate AppliedContract(w: World, s: Settled, job: Job, side: Side, wp: World,
                                  kept: seq<ResourceStatus>, idx: seq<nat>) {
    var c, o, ms := ClusterOf(job.cr, side), job.owner, job.Render(side);
    var out, n := Written(s, side), |job.Render(side)|;
    var es, keys := StatusForDelete(Inventory(job.cr, side)), s.draft.Keys(side);
    && |out| == n + |kept| && out[n..] == kept && Leaves(w, c, ms, o, out[..n], s.draft.Left(side))
    && RetainedExactly(wp, c, es, keys, job.cr, o, kept, idx)
    && TargetedExactly(|w.log|, s.draft.world.log, wp, c, es, keys, job.cr, o)
    && (forall rs :: rs in Inventory(job.cr, side) && Orphan(job.cr, keys, rs) && rs !in kept ==>
          !s.draft.world.OwnedAt(w.StatusAddr(c, rs), o))
  }

  lemma RanContract(w: LoneWorld, s: Settled, job: Job, side: Side, wa: World, wp: World) returns (idx: seq<nat>)
    requires SideRan(w, s, job, side, wa, wp)
    ensures AppliedContract(w, s, job, side, wp, SidePrune(wp, job, side, s.draft.Keys(side)).retained, idx)
  {
    hide ApplyAll;
    hide Prune;
    hide Orphan;
    hide RenderKeys;
    hide RetainedExactly;
    hide TargetedExactly;
    var c, o, ms := ClusterOf(job.cr, side), job.owner, job.Render(side);
    var es, keys := StatusForDelete(Inventory(job.cr, side)), s.draft.Keys(side);
    var a, p := SideApply(wa, job, side), SidePrune(wp, job, side, keys);
    ApplyAllEntries(wa, c, ms, o);
    ApplyAllLeft(wa, c, ms, o);
    LeavesSameScope(wa, w, c, ms, o, a.statuses, a.left);
    idx := PruneExact(wp, c, es, keys, job.cr, o);
    RanTargets(w, s, job, side, wa, wp);
    OrderFacts([], Inventory(job.cr, side));
    var out := a.statuses + p.retained;
    assert out[..|ms|] == a.statuses && out[|ms|..] == p.retained;
    forall rs | rs in Inventory(job.cr, side) && Orphan(job.cr, keys, rs) && rs !in p.retained
      ensures !s.draft.world.OwnedAt(w.StatusAddr(c, rs), o)
    {
      PruneGone(wp, c, es, keys, job.cr, o, rs);
      assert wp.StatusAddr(c, rs) == w.StatusAddr(c, rs);
      assert SameAt(p.world, s.draft.world, w.StatusAddr(c, rs));
    }
  }

  /** No delete on the cluster but those of the prune. */
  lemma RanTargets(w: LoneWorld, s: Settled, job: Job, side: Side, wa: World, wp: World)
    requires SideRan(w, s, job, side, wa, wp)
    ensures TargetedExactly(|w.log|, s.draft.world.log, wp, ClusterOf(job.cr, side),
                            StatusForDelete(Inventory(job.cr, side)), s.draft.Keys(side), job.cr, job.owner)
  {
    hide ApplyAll;
    hide Prune;
    hide AlikeOn;
    hide RenderKeys;
    hide TargetsAt;
    var c, o := ClusterOf(job.cr, side), job.owner;
    var es, keys := StatusForDelete(Inventory(job.cr, side)), s.draft.Keys(side);
    var log, mid := s.draft.world.log, SidePrune(wp, job, side, keys).world.log;
    PruneTargeted(wp, c, es, keys, job.cr, o);
    PruneEffect(wp, c, es, keys, job.cr, o);
    assert wp.log <= mid <= log;
    DeletesWithin(w, wp, SidePrune(wp, job, side, keys).world, s.draft.world, c);
  }

  /**
    The contract of every delivery path. An applied side meets `AppliedContract`; a side that was
    not applied keeps its inventory verbatim and its cluster as it was.
   */
  lemma DeliveryContract(w: LoneWorld, job: Job, phase: Phase, side: Side)
    returns (wa: LoneWorld, wp: LoneWorld, kept: seq<ResourceStatus>, idx: seq<nat>)
    ensures var s := Settle(w, job, phase);
            if side in s.applied
            then SideRan(w, s, job, side, wa, wp) && AppliedContract(w, s, job, side, wp, kept, idx)
            else Written(s, side) == Inventory(job.cr, side) && AlikeOn(w, s.draft.world, ClusterOf(job.cr, side))
  {
    hide Settle;
    hide AppliedContract;
    hide SideRan;
    wa, wp, kept, idx := w, w, [], [];
    var s := Settle(w, job, phase);
    if side in s.applied {
      wa, wp := AppliedSideRan(w, job, phase, side);
      idx := RanContract(w, s, job, side, wa, wp);
      kept := SidePrune(wp, job, side, s.draft.Keys(side)).retained;
    } else {
      SettleAlike(w, job, phase, side);
    }
  }

  // ------------------------------------------------------------- Convergence

  /**
    An identity with a namespace that the server does not keep: its kind is cluster-scoped there and
    missing from the operator's list.
   */
  predicate Stray(w: World, c: Cluster, id: Identity) { (c, id.group, id.kind) in w.scope && id.ns != "" }

  lemma StrayMoves(w: World, c: Cluster, id: Identity)
    ensures Stray(w, c, id) <==> w.Locate(c, id).id != id
    ensures !Stray(w, c, w.Locate(c, id).id)
  {
  }

  /** The inventory holds a stray entry at the address of `m`. */
  ghost predicate Shadowed(w: World, job: Job, side: Side, m: Manifest) {
    exists rs :: ShadowedBy(w, job, side, m, rs)
  }

  ghost predicate ShadowedBy(w: World, job: Job, side: Side, m: Manifest, rs: ResourceStatus) {
    && rs in Inventory(job.cr, side) && Stray(w, ClusterOf(job.cr, side), StatusIdentity(rs))
    && w.StatusAddr(ClusterOf(job.cr, side), rs) == w.AddrOf(ClusterOf(job.cr, side), m)
  }

  /** The inventory of a side names exactly the render, entry by entry. */
  ghost predicate Names(es: seq<ResourceStatus>, ms: seq<Manifest>) {
    && EntriesOf(es, ms)
    && (set rs | rs in es :: StatusIdentityKey(rs)) == RenderKeys(ms)
  }

  lemma NamesRender(es: seq<ResourceStatus>, ms: seq<Manifest>)
    requires EntriesOf(es, ms) && forall i :: 0 <= i < |ms| ==> WellFormed(ms[i].apiVersion)
    ensures Names(es, ms)
  {
    forall i | 0 <= i < |ms| ensures StatusIdentityKey(es[i]) == ManifestIdentityKey(ms[i]) {
      IdentityRoundTrip(ms[i], es[i].health);
    }
    forall k | k in (set rs | rs in es :: StatusIdentityKey(rs)) ensures k in RenderKeys(ms) {
      var i :| 0 <= i < |es| && StatusIdentityKey(es[i]) == k;
      assert ms[i] in ms;
    }
    forall k | k in RenderKeys(ms) ensures k in (set rs | rs in es :: StatusIdentityKey(rs)) {
      var i :| 0 <= i < |ms| && ManifestIdentityKey(ms[i]) == k;
      assert es[i] in es;
    }
  }

  /** All applies of a render succeeded. */
  ghost predicate AllLeft(w: World, c: Cluster, ms: seq<Manifest>, o: string, left: seq<Manifest>) {
    && |left| == |ms|
    && forall i :: 0 <= i < |ms| ==> left[i] == Stored(w, c, ms[i], o) && Acceptable(ManifestIdentity(ms[i]))
  }

  /** Once every apply succeeded, the entries at the address of a rendered manifest are orphans exactly if stray. */
  lemma OrphanIffStray(w: World, cr: CR, c: Cluster, ms: seq<Manifest>, o: string, left: seq<Manifest>, m: Manifest, rs: ResourceStatus)
    requires AllLeft(w, c, ms, o, left) && m in ms && w.StatusAddr(c, rs) == w.AddrOf(c, m)
    ensures Orphan(cr, RenderKeys(left), rs) <==> Stray(w, c, StatusIdentity(rs))
  {
    hide ManifestIdentity;
    hide Stamp;
    var id := StatusIdentity(rs);
    StrayMoves(w, c, id);
    var i :| 0 <= i < |ms| && ms[i] == m;
    ReturnedIdentity(w, c, Stamp(m, o));
    if !Stray(w, c, id) {
      assert left[i] in left && ManifestIdentityKey(left[i]) == StatusIdentityKey(rs);
    } else {
      if StatusIdentityKey(rs) in RenderKeys(left) {
        var l :| l in left && ManifestIdentityKey(l) == StatusIdentityKey(rs);
        var j :| 0 <= j < |left| && left[j] == l;
        ReturnedIdentity(w, c, Stamp(ms[j], o));
        StrayMoves(w, c, ManifestIdentity(ms[j]));
        SlashFreeAddr(w, c, ms[j]);
        KeyIsIdentity(ManifestIdentity(l), id);
      }
      StrayIsNoCrd(w, c, rs);
    }
  }

  lemma SlashFreeAddr(w: World, c: Cluster, m: Manifest)
    requires Acceptable(ManifestIdentity(m))
    ensures w.AddrOf(c, m).id.SlashFree()
  {
    var id := ManifestIdentity(m);
    assert forall i :: 0 <= i < 4 ==> w.AddrOf(c, m).id.Parts()[i] == id.Parts()[i] || w.AddrOf(c, m).id.Parts()[i] == "";
  }

  lemma StrayIsNoCrd(w: World, c: Cluster, rs: ResourceStatus)
    requires Stray(w, c, StatusIdentity(rs))
    ensures rs.kind != CRD && !IsClusterScoped(rs.kind)
  {
  }

  /**
    A side of an error-free delivery: the inventory written names exactly the render, and a
    rendered object is live and owned afterwards if and only if no stray entry shadows it.
   */
  lemma SideConverges(w: LoneWorld, s: Settled, job: Job, side: Side, wa: World, wp: World)
    requires SideRan(w, s, job, side, wa, wp) && !SideErred(s, job, side, wa, wp)
    ensures Names(Written(s, side), job.Render(side))
    ensures AllLeft(w, ClusterOf(job.cr, side), job.Render(side), job.owner, s.draft.Left(side))
    ensures forall m :: m in job.Render(side) ==>
              (s.draft.world.OwnedAt(w.AddrOf(ClusterOf(job.cr, side), m), job.owner) <==> !Shadowed(w, job, side, m))
  {
    hide ApplyAll;
    hide Prune;
    hide Shadowed;
    hide ManifestIdentity;
    hide Acceptable;
    var c, ms, o := ClusterOf(job.cr, side), job.Render(side), job.owner;
    var a := SideApply(wa, job, side);
    ApplyAllEntries(wa, c, ms, o);
    ApplyAllLeft(wa, c, ms, o);
    PruneRetained(wp, c, StatusForDelete(Inventory(job.cr, side)), s.draft.Keys(side), job.cr, o);
    assert Written(s, side) == a.statuses;
    forall i | 0 <= i < |ms| ensures a.statuses[i].health != Degraded { assert a.statuses[i] in a.statuses; }
    assert AllLeft(w, c, ms, o, a.left) by {
      assert forall m :: Stored(wa, c, m, o) == Stored(w, c, m, o);
    }
    forall m | m in ms ensures s.draft.world.OwnedAt(w.AddrOf(c, m), o) <==> !Shadowed(w, job, side, m) {
      var i :| 0 <= i < |ms| && ms[i] == m;
      ApplyAllLive(wa, c, ms, o, i);
      SurvivesPrune(w, s, job, side, wa, wp, m);
    }
    forall i | 0 <= i < |ms| ensures WellFormed(ms[i].apiVersion) { AcceptableParses(ms[i]); }
    NamesRender(a.statuses, ms);
  }

  lemma AcceptableParses(m: Manifest)
    requires Acceptable(ManifestIdentity(m))
    ensures WellFormed(m.apiVersion)
  {
  }

  lemma SurvivesPrune(w: LoneWorld, s: Settled, job: Job, side: Side, wa: World, wp: World, m: Manifest)
    requires SideRan(w, s, job, side, wa, wp) && !SideErred(s, job, side, wa, wp) && m in job.Render(side)
    requires AllLeft(w, ClusterOf(job.cr, side), job.Render(side), job.owner, s.draft.Left(side))
    requires SideApply(wa, job, side).world.OwnedAt(w.AddrOf(ClusterOf(job.cr, side), m), job.owner)
    ensures s.draft.world.OwnedAt(w.AddrOf(ClusterOf(job.cr, side), m), job.owner) <==> !Shadowed(w, job, side, m)
  {
    hide ApplyAll;
    hide Prune;
    hide AllLeft;
    hide ManifestIdentity;
    hide StatusIdentity;
    hide RenderKeys;
    hide Orphan;
    hide Stray;
    hide NoDeletesOn;
    var c, o, ms := ClusterOf(job.cr, side), job.owner, job.Render(side);
    var es, keys := StatusForDelete(Inventory(job.cr, side)), s.draft.Keys(side);
    var p, addr := SidePrune(wp, job, side, keys), w.AddrOf(c, m);
    OrderFacts([], Inventory(job.cr, side));
    PruneEffect(wp, c, es, keys, job.cr, o);
    PruneRetained(wp, c, es, keys, job.cr, o);
    assert addr.cluster == c;
    assert wp.OwnedAt(addr, o) by { assert SameAt(SideApply(wa, job, side).world, wp, addr); }
    assert p.world.OwnedAt(addr, o) <==> s.draft.world.OwnedAt(addr, o) by { assert SameAt(p.world, s.draft.world, addr); }
    if rs :| ShadowedBy(w, job, side, m, rs) {
      OrphanIffStray(w, job.cr, c, ms, o, s.draft.Left(side), m, rs);
      assert rs in es && wp.StatusAddr(c, rs) == addr;
      PruneGone(wp, c, es, keys, job.cr, o, rs);
    }
    if !p.world.OwnedAt(addr, o) {
      var rs :| rs in es && Orphan(job.cr, keys, rs) && addr == wp.StatusAddr(c, rs);
      OrphanIffStray(w, job.cr, c, ms, o, s.draft.Left(side), m, rs);
      assert ShadowedBy(w, job, side, m, rs);
    }
  }

  /** What an error-free delivery applies and does not leave live, it asked to be deleted. */
  lemma MissingIsDeleted(w: LoneWorld, s: Settled, job: Job, side: Side, wa: World, wp: World, m: Manifest)
    requires SideRan(w, s, job, side, wa, wp) && !SideErred(s, job, side, wa, wp) && m in job.Render(side)
    requires Shadowed(w, job, side, m)
    ensures DeletedIn(s.draft.world.log, |w.log|, w.AddrOf(ClusterOf(job.cr, side), m))
  {
    hide ApplyAll;
    hide Prune;
    hide ManifestIdentity;
    hide StatusIdentity;
    hide RenderKeys;
    hide Shadowed;
    hide Names;
    var c, o, ms := ClusterOf(job.cr, side), job.owner, job.Render(side);
    var es, keys := StatusForDelete(Inventory(job.cr, side)), s.draft.Keys(side);
    var a, p, addr := SideApply(wa, job, side), SidePrune(wp, job, side, keys), w.AddrOf(c, m);
    var i :| 0 <= i < |ms| && ms[i] == m;
    ApplyAllEntries(wa, c, ms, o);
    assert a.statuses[i] in a.statuses;
    ApplyAllLive(wa, c, ms, o, i);
    SideConverges(w, s, job, side, wa, wp);
    assert wp.OwnedAt(addr, o) by { assert SameAt(a.world, wp, addr); }
    assert !p.world.OwnedAt(addr, o) by { assert SameAt(p.world, s.draft.world, addr); }
    PruneEffect(wp, c, es, keys, job.cr, o);
    PruneDeletes(wp, c, es, keys, job.cr, o, addr);
    var k :| |wp.log| <= k < |p.world.log| && p.world.log[k].Deleted? && p.world.log[k].addr == addr;
    assert s.draft.world.log[k] == p.world.log[k];
  }

  // ---------------------------------------------------------- Pass and fixpoint

  lemma ErrorFreeDelivers(w: LoneWorld, o: string, input: Input)
    requires Delivers(w, o, input) && input.phase == Ready && !Pass(w, o, input).err
    ensures var job := PassJob(w, o, input); var s := Settle(w, job, Ready); var w' := Pass(w, o, input).world;
            && !s.err && s.applied == {SeedSide, ShootSide}
            && Continues(w, s.draft.world)
            && w'.live == s.draft.world.live && w'.scope == w.scope && s.draft.world.log <= w'.log
            && o in w'.crs && w'.crs[o].status.seed == s.seed && w'.crs[o].status.shoot == s.shoot
            && w'.crs[o].status.ready == Some(s.ready)
            && w'.crs[o].finalizer && SameSpec(w.crs[o], w'.crs[o])
  {
    hide SaveStatus;
    hide PlanOf;
    hide ApplySide;
    hide PruneSide;
    hide Lawful;
    var job := PassJob(w, o, input);
    var s := Settle(w, job, Ready);
    var st := job.cr.status.(seed := s.seed, shoot := s.shoot, ready := Some(s.ready));
    SaveStatusFacts(s.draft.world, o, st);
    SavesAlone(s.draft.world, o, st, true);
  }

  /**
    Convergence: after an error-free pass with a ready shoot both inventories name exactly the two
    renders, and a rendered object is live and owned if and only if no stray entry shadows it.
   */
  lemma Converges(w: LoneWorld, o: string, input: Input, side: Side)
    requires Delivers(w, o, input) && input.phase == Ready && !Pass(w, o, input).err
    ensures var job := PassJob(w, o, input); var w' := Pass(w, o, input).world;
            && o in w'.crs
            && Names(Inventory(w'.crs[o], side), job.Render(side))
            && forall m :: m in job.Render(side) ==>
                 && Acceptable(ManifestIdentity(m))
                 && (w'.OwnedAt(w.AddrOf(ClusterOf(job.cr, side), m), o) <==> !Shadowed(w, job, side, m))
                 && (Shadowed(w, job, side, m) ==> DeletedIn(w'.log, |w.log|, w.AddrOf(ClusterOf(job.cr, side), m)))
  {
    hide Settle;
    hide Pass;
    hide Shadowed;
    hide SideRan;
    hide SideErred;
    hide Names;
    hide Acceptable;
    ErrorFreeDelivers(w, o, input);
    var job := PassJob(w, o, input);
    var s := Settle(w, job, Ready);
    var a1, p1, a2, p2 := BothSidesRan(w, job);
    var wa, wp := if side == SeedSide then a1 else a2, if side == SeedSide then p1 else p2;
    SideConverges(w, s, job, side, wa, wp);
    forall m | m in job.Render(side) && Shadowed(w, job, side, m)
      ensures DeletedIn(Pass(w, o, input).world.log, |w.log|, w.AddrOf(ClusterOf(job.cr, side), m))
    {
      MissingIsDeleted(w, s, job, side, wa, wp, m);
    }
  }

  lemma SideHolds(w: LoneWorld, s: Settled, job: Job, side: Side, wa: LoneWorld, wp: LoneWorld, i: nat)
    requires SideRan(w, s, job, side, wa, wp) && !SideErred(s, job, side, wa, wp) && i < |job.Render(side)|
    requires var c, ms := ClusterOf(job.cr, side), job.Render(side);
             && (forall j :: i < j < |ms| ==> w.AddrOf(c, ms[j]) != w.AddrOf(c, ms[i]))
             && s.draft.world.OwnedAt(w.AddrOf(c, ms[i]), job.owner)
    ensures var a := w.AddrOf(ClusterOf(job.cr, side), job.Render(side)[i]);
            s.draft.world.live[a] == Stored(w, ClusterOf(job.cr, side), job.Render(side)[i], job.owner)
  {
    hide ApplyAll;
    hide Prune;
    hide ManifestIdentity;
    hide Orphan;
    hide Stamp;
    var c, ms, o := ClusterOf(job.cr, side), job.Render(side), job.owner;
    var es, keys, a := StatusForDelete(Inventory(job.cr, side)), s.draft.Keys(side), w.AddrOf(c, ms[i]);
    var applied, pruned := SideApply(wa, job, side), SidePrune(wp, job, side, keys);
    ApplyAllEntries(wa, c, ms, o);
    assert applied.statuses[i] in applied.statuses;
    assert forall j :: 0 <= j < |ms| ==> wa.AddrOf(c, ms[j]) == w.AddrOf(c, ms[j]);
    ApplyAllHolds(wa, c, ms, o, i);
    PruneEffect(wp, c, es, keys, job.cr, o);
    assert a.cluster == c;
    assert SameAt(applied.world, wp, a) && SameAt(pruned.world, s.draft.world, a);
    assert pruned.world.live[a] == wp.live[a];
  }

  /**
    What is there after an error-free pass: a rendered object that is live and owned is the manifest
    itself, the last one of the render at its address, as the servers get it.
   */
  lemma ConvergesTo(w: LoneWorld, o: string, input: Input, side: Side, i: nat)
    requires Delivers(w, o, input) && input.phase == Ready && !Pass(w, o, input).err
    requires i < |PassJob(w, o, input).Render(side)|
    requires var job := PassJob(w, o, input); var c, ms := ClusterOf(job.cr, side), job.Render(side);
             && (forall j :: i < j < |ms| ==> w.AddrOf(c, ms[j]) != w.AddrOf(c, ms[i]))
             && Pass(w, o, input).world.OwnedAt(w.AddrOf(c, ms[i]), o)
    ensures var job := PassJob(w, o, input); var m := job.Render(side)[i];
            var live := Pass(w, o, input).world.live[w.AddrOf(ClusterOf(job.cr, side), m)];
            && Sent(m, o, live)
            && (m.kind !in {"ValidatingWebhookConfiguration", "MutatingWebhookConfiguration", "CustomResourceDefinition"} ==>
                  live.body == m.body)
  {
    hide Settle;
    hide Pass;
    hide PlanOf;
    hide SideRan;
    hide SideErred;
    hide Stored;
    hide ManifestIdentity;
    ErrorFreeDelivers(w, o, input);
    var job := PassJob(w, o, input);
    var a1, p1, a2, p2 := BothSidesRan(w, job);
    var wa, wp := if side == SeedSide then a1 else a2, if side == SeedSide then p1 else p2;
    SideHolds(w, Settle(w, job, Ready), job, side, wa, wp, i);
    StoredSent(w, ClusterOf(job.cr, side), job.Render(side)[i], o);
  }

  lemma {:induction false} PruneNothing(w: World, c: Cluster, es: seq<ResourceStatus>, keys: set<string>, cr: CR, o: string)
    requires forall rs :: rs in es ==> !Orphan(cr, keys, rs)
    ensures Prune(w, c, es, keys, cr, o) == Pruned(w, [], false)
  {
    if es != [] {
      assert Last(es) in es;
      PruneNothing(w, c, Init(es), keys, cr, o);
    }
  }

  /** No rendered manifest is stray, and the inventory holds nothing but the render. */
  ghost predicate Settling(w: World, job: Job) {
    forall side ::
      && Names(Inventory(job.cr, side), job.Render(side))
      && forall m :: m in job.Render(side) ==> !Stray(w, ClusterOf(job.cr, side), ManifestIdentity(m))
  }

  /** Applies move no manifest that is not stray, so the keys stay those of the render. */
  lemma KeysStay(w: World, c: Cluster, ms: seq<Manifest>, o: string, ss: seq<ResourceStatus>, left: seq<Manifest>)
    requires Leaves(w, c, ms, o, ss, left) && forall m :: m in ms ==> !Stray(w, c, ManifestIdentity(m))
    ensures RenderKeys(left) == RenderKeys(ms)
  {
    hide ManifestIdentity;
    hide Stamp;
    forall i | 0 <= i < |ms| ensures ManifestIdentityKey(left[i]) == ManifestIdentityKey(ms[i]) {
      assert ms[i] in ms;
      ReturnedIdentity(w, c, Stamp(ms[i], o));
      StrayMoves(w, c, ManifestIdentity(ms[i]));
    }
    forall k | k in RenderKeys(left) ensures k in RenderKeys(ms) {
      var i :| 0 <= i < |left| && ManifestIdentityKey(left[i]) == k;
      assert ms[i] in ms;
    }
    forall k | k in RenderKeys(ms) ensures k in RenderKeys(left) {
      var i :| 0 <= i < |ms| && ManifestIdentityKey(ms[i]) == k;
      assert left[i] in left;
    }
  }

  /** A settling side that has been applied has nothing to prune. */
  lemma PruneSideNothing(w: World, d: Draft, job: Job, side: Side)
    requires Settling(w, job) && d.world.scope == w.scope
    requires Leaves(d.world, ClusterOf(job.cr, side), job.Render(side), job.owner, EntriesLeft(d, job, side), d.Left(side))
    ensures PruneSide(d, job, side) == d
  {
    hide Prune;
    hide ManifestIdentity;
    hide StatusIdentity;
    var c, ms, inv := ClusterOf(job.cr, side), job.Render(side), Inventory(job.cr, side);
    var es := StatusForDelete(inv);
    OrderFacts([], inv);
    LeavesSameScope(d.world, w, c, ms, job.owner, EntriesLeft(d, job, side), d.Left(side));
    KeysStay(w, c, ms, job.owner, EntriesLeft(d, job, side), d.Left(side));
    forall rs | rs in es ensures !Orphan(job.cr, d.Keys(side), rs) {
      assert Names(inv, ms);
      assert StatusIdentityKey(rs) in (set r | r in inv :: StatusIdentityKey(r));
    }
    PruneNothing(d.world, c, es, d.Keys(side), job.cr, job.owner);
    assert d.seed + [] == d.seed && d.shoot + [] == d.shoot;
  }

  /** The entries of the render among the statuses of a side. */
  ghost function EntriesLeft(d: Draft, job: Job, side: Side): seq<ResourceStatus> {
    if |d.Statuses(side)| < |job.Render(side)| then [] else d.Statuses(side)[..|job.Render(side)|]
  }

  lemma ApplySideLeaves(d: Draft, job: Job, side: Side)
    ensures var d' := ApplySide(d, job, side);
            && d'.world.scope == d.world.scope
            && Leaves(d'.world, ClusterOf(job.cr, side), job.Render(side), job.owner, EntriesLeft(d', job, side), d'.Left(side))
            && EntriesLeft(d', job, Other(side)) == EntriesLeft(d, job, Other(side))
            && d'.Left(Other(side)) == d.Left(Other(side))
  {
    hide ApplyAll;
    var c, ms, o := ClusterOf(job.cr, side), job.Render(side), job.owner;
    var r := ApplyAll(d.world, c, ms, o);
    ApplyAllEntries(d.world, c, ms, o);
    ApplyAllLeft(d.world, c, ms, o);
    assert r.statuses[..|ms|] == r.statuses;
    LeavesSameScope(d.world, r.world, c, ms, o, r.statuses, r.left);
  }

  /** A settling delivery deletes nothing, whatever the servers answer. */
  lemma SettleDeletesNothing(w: World, job: Job, phase: Phase)
    requires Settling(w, job) && SortedJob(job)
    ensures Acts(w, Settle(w, job, phase).draft.world, job.owner, {Seed, Shoot(job.cr.shootId)}, {})
  {
    var both, none: set<Cluster> := {Seed, Shoot(job.cr.shootId)}, {};
    assert Acts(w, w, job.owner, both, none);
    hide ApplySide;
    hide PruneSide;
    hide Acts;
    hide Settling;
    hide Leaves;
    hide EntriesLeft;
    var o := job.owner;
    var d := StartDraft(w, job);
    var first := if phase == Ready && ShootFirst(job.cr) then ShootSide else SeedSide;
    var c1, c2 := {ClusterOf(job.cr, first)}, {ClusterOf(job.cr, Other(first))};
    assert c1 + c2 == both;
    var d1 := ApplySide(d, job, first);
    var d2 := ApplySide(d1, job, Other(first));
    ApplySideActs(d, job, first);
    ApplySideActs(d1, job, Other(first));
    ApplySideLeaves(d, job, first);
    ApplySideLeaves(d1, job, Other(first));
    LeavesSameScope(d1.world, d2.world, ClusterOf(job.cr, first), job.Render(first), o, EntriesLeft(d1, job, first), d1.Left(first));
    PruneSideNothing(w, d1, job, first);
    PruneSideNothing(w, d2, job, SeedSide);
    PruneSideNothing(w, d2, job, ShootSide);
    ActsTransitive(w, d1.world, d2.world, o, c1, none, c2, none);
    assert none + none == none;
    ActsWeaken(w, d1.world, o, c1, none, both, none);
  }

  lemma QuietPass(w: World, o: string, input: Input)
    requires Delivers(w, o, input) && Settling(w, PassJob(w, o, input)) && SortedJob(PassJob(w, o, input))
    ensures var w' := Pass(w, o, input).world;
            forall i :: |w.log| <= i < |w'.log| ==> !w'.log[i].Deleted?
  {
    hide PlanOf;
    hide Settle;
    hide SaveStatus;
    hide Settling;
    hide SortedJob;
    var job := PassJob(w, o, input);
    var s := Settle(w, job, input.phase);
    SettleDeletesNothing(w, job, input.phase);
    var st := job.cr.status.(seed := s.seed, shoot := s.shoot, ready := Some(s.ready));
    SavesAct(s.draft.world, o, st, false);
    var w' := SaveStatus(s.draft.world, o, st).world;
    ActsTransitive(w, s.draft.world, w', o, {Seed, Shoot(job.cr.shootId)}, {}, {}, {});
  }

  /** A stray manifest of the render has the address of `m`. */
  ghost predicate StrayRendered(w: World, job: Job, side: Side, m: Manifest) {
    exists n :: StrayAt(w, job, side, m, n)
  }

  ghost predicate StrayAt(w: World, job: Job, side: Side, m: Manifest, n: Manifest) {
    && n in job.Render(side) && Stray(w, ClusterOf(job.cr, side), ManifestIdentity(n))
    && w.AddrOf(ClusterOf(job.cr, side), n) == w.AddrOf(ClusterOf(job.cr, side), m)
  }

  /** Once the inventory names the render, what shadows an object is a stray manifest of that render. */
  lemma NamedShadow(w: World, job: Job, side: Side, m: Manifest)
    requires Names(Inventory(job.cr, side), job.Render(side))
    requires forall n :: n in job.Render(side) ==> Acceptable(ManifestIdentity(n))
    ensures Shadowed(w, job, side, m) <==> StrayRendered(w, job, side, m)
  {
    hide ManifestIdentity;
    hide StatusIdentity;
    hide Stray;
    var es, ms := Inventory(job.cr, side), job.Render(side);
    forall i | 0 <= i < |ms| ensures StatusIdentity(es[i]) == ManifestIdentity(ms[i]) {
      assert ms[i] in ms;
      AcceptableParses(ms[i]);
      IdentityRoundTrip(ms[i], es[i].health);
    }
    if rs :| ShadowedBy(w, job, side, m, rs) {
      var i :| 0 <= i < |es| && es[i] == rs;
      assert StrayAt(w, job, side, m, ms[i]);
    }
    if n :| StrayAt(w, job, side, m, n) {
      var i :| 0 <= i < |ms| && ms[i] == n;
      assert es[i] in es && ShadowedBy(w, job, side, m, es[i]);
    }
  }

  /**
    The fixed point, and who has none. After an error-free pass, a further pass over the same
    renders deletes nothing, whatever the servers answer, if no rendered manifest is stray. If the
    further pass is error-free as well, a rendered object is live and owned afterwards if and only
    if no stray manifest of the render has its address, and otherwise this pass deleted it.
   */
  lemma Fixpoint(w: LoneWorld, o: string, input: Input, again: Input, side: Side)
    requires Delivers(w, o, input) && input.phase == Ready && !Pass(w, o, input).err
    requires var w1 := Pass(w, o, input).world; Delivers(w1, o, again) && PlanOf(again) == PlanOf(input)
    ensures var w1 := Pass(w, o, input).world; var w2 := Pass(w1, o, again).world;
            var job := PassJob(w1, o, again);
            && ((forall side, m :: m in job.Render(side) ==> !Stray(w1, ClusterOf(job.cr, side), ManifestIdentity(m))) ==>
                  forall i :: |w1.log| <= i < |w2.log| ==> !w2.log[i].Deleted?)
            && (again.phase == Ready && !Pass(w1, o, again).err ==>
                  && o in w2.crs && Names(Inventory(w2.crs[o], side), job.Render(side))
                  && forall m :: m in job.Render(side) ==>
                       && (w2.OwnedAt(w1.AddrOf(ClusterOf(job.cr, side), m), o) <==> !StrayRendered(w1, job, side, m))
                       && (StrayRendered(w1, job, side, m) ==>
                             DeletedIn(w2.log, |w1.log|, w1.AddrOf(ClusterOf(job.cr, side), m))))
  {
    hide Pass;
    hide Names;
    hide PlanOf;
    hide Settle;
    hide Shadowed;
    hide StrayRendered;
    hide ManifestIdentity;
    hide Acceptable;
    hide Stray;
    var w1 := Pass(w, o, input).world;
    var job := PassJob(w1, o, again);
    ErrorFreeDelivers(w, o, input);
    Converges(w, o, input, SeedSide);
    Converges(w, o, input, ShootSide);
    PlannedJobSorted(w1, o, again);
    if forall side, m :: m in job.Render(side) ==> !Stray(w1, ClusterOf(job.cr, side), ManifestIdentity(m)) {
      QuietPass(w1, o, again);
    }
    if again.phase == Ready && !Pass(w1, o, again).err {
      Converges(w1, o, again, side);
      forall m | m in job.Render(side) ensures Shadowed(w1, job, side, m) <==> StrayRendered(w1, job, side, m) {
        NamedShadow(w1, job, side, m);
      }
    }
  }

  // ------------------------------------------------------------- Ready is true

  /** The log shows the patch of `m` succeed and its read-back graded Healthy. */
  ghost predicate ProvedHealthy(w: World, w': World, c: Cluster, m: Manifest, o: string) {
    exists j :: |w.log| <= j < |w'.log| - 1 && HealthyFrom(w, w', c, m, o, j)
  }

  ghost predicate HealthyFrom(w: World, w': World, c: Cluster, m: Manifest, o: string, j: nat) {
    && j + 1 < |w'.log|
    && w'.log[j] == Patched(w.AddrOf(c, m), o, true, true)
    && w'.log[j + 1] == Read(w.AddrOf(c, m))
    && w'.answers(j + 1).fault.Fine?
    && ComputeHealth(m.kind, w'.answers(j + 1).view) == Healthy
  }

  lemma ApplyHealthy(w: World, c: Cluster, m: Manifest, o: string)
    requires Apply(w, c, m, o).status.health == Healthy
    ensures var w' := Apply(w, c, m, o).world; |w'.log| >= |w.log| + 2 && HealthyFrom(w, w', c, m, o, |w'.log| - 2)
  {
    var a := w.AddrOf(c, m);
    var g := if IsClusterScoped(m.kind) then ForeignOwner(w, a, o) else Guarded(w, Clear);
    var p := Patch(g.world, c, Stamp(m, o));
    assert p.world.log == g.world.log + [Patched(a, o, true, true)];
  }

  lemma {:induction false} ApplyAllHealthy(w: LoneWorld, c: Cluster, ms: seq<Manifest>, o: string, i: nat)
    requires i < |ms| && |ApplyAll(w, c, ms, o).statuses| == |ms|
    requires ApplyAll(w, c, ms, o).statuses[i].health == Healthy
    ensures ProvedHealthy(w, ApplyAll(w, c, ms, o).world, c, ms[i], o)
  {
    hide Apply;
    hide ManifestIdentity;
    hide ComputeHealth;
    hide Stamp;
    hide Acceptable;
    var before, after := ApplyAll(w, c, Init(ms), o), ApplyAll(w, c, ms, o).world;
    ApplyAllEntries(w, c, Init(ms), o);
    ApplyFacts(before.world, c, Last(ms), o);
    if i == |ms| - 1 {
      ApplyHealthy(before.world, c, Last(ms), o);
      assert HealthyFrom(w, after, c, ms[i], o, |after.log| - 2);
    } else {
      ApplyAllHealthy(w, c, Init(ms), o, i);
      assert ms[i] == Init(ms)[i];
      var j :| |w.log| <= j < |before.world.log| - 1 && HealthyFrom(w, before.world, c, ms[i], o, j);
      assert HealthyFrom(w, after, c, ms[i], o, j);
    }
  }

  ghost predicate SaysReady(cr: CR) { cr.status.ready.Some? && cr.status.ready.value.status }

  /** Only a delivery of both sides settles on Ready, and then every entry it writes is Healthy. */
  lemma SettledReady(w: World, job: Job, phase: Phase)
    requires Settle(w, job, phase).ready.status
    ensures var s := Settle(w, job, phase);
            && phase == Ready && s.applied == {SeedSide, ShootSide}
            && forall side, rs :: rs in Written(s, side) ==> rs.health == Healthy
  {
    hide ApplySide;
    hide PruneSide;
  }

  /**
    Truthfulness: a pass that writes Ready=True delivered both renders with a ready shoot, and the
    log proves every manifest applied, read back and graded Healthy. Beyond the renders it records
    retained orphans only, and none of them if it returns no error.
   */
  lemma ReadyIsTrue(w: LoneWorld, o: string, input: Input, side: Side)
    requires Delivers(w, o, input) && Recorded(Pass(w, o, input).world, o)
    requires SaysReady(Pass(w, o, input).world.crs[o])
    ensures var w' := Pass(w, o, input).world; var job := PassJob(w, o, input); var c := ClusterOf(job.cr, side);
            && input.phase == Ready
            && (forall m :: m in job.Render(side) ==> ProvedHealthy(w, w', c, m, o))
            && |Inventory(w'.crs[o], side)| >= |job.Render(side)|
            && EntriesOf(Inventory(w'.crs[o], side)[..|job.Render(side)|], job.Render(side))
            && (forall rs :: rs in Inventory(w'.crs[o], side)[|job.Render(side)|..] ==>
                  rs in Inventory(job.cr, side) && Orphan(job.cr, PassKeys(w, o, input).Of(side), rs))
            && (!Pass(w, o, input).err ==> |Inventory(w'.crs[o], side)| == |job.Render(side)|)
  {
    hide SaveStatus;
    hide PlanOf;
    hide Settle;
    hide ApplyAll;
    hide Prune;
    hide Lawful;
    hide SideRan;
    var job := PassJob(w, o, input);
    var s := Settle(w, job, input.phase);
    var w' := Pass(w, o, input).world;
    SettleLawful(w, job, input.phase);
    LawfulScope(w, s.draft.world, job.cr, o);
    SaveStatusFacts(s.draft.world, o, job.cr.status.(seed := s.seed, shoot := s.shoot, ready := Some(s.ready)));
    SettledReady(w, job, input.phase);
    var a1, p1, a2, p2 := BothSidesRan(w, job);
    var wa, wp := if side == SeedSide then a1 else a2, if side == SeedSide then p1 else p2;
    RanHealthy(w, s, job, side, wa, wp, w');
    RanRetains(w, s, job, side, wa, wp);
    if !Pass(w, o, input).err { RanClean(w, s, job, side, wa, wp); }
  }

  lemma RanLogs(w: LoneWorld, s: Settled, job: Job, side: Side, wa: World, wp: World)
    requires SideRan(w, s, job, side, wa, wp)
    ensures w.log <= wa.log && SideApply(wa, job, side).world.log <= s.draft.world.log
    ensures SideApply(wa, job, side).world.answers == w.answers && wa.scope == w.scope
    ensures |SideApply(wa, job, side).statuses| == |job.Render(side)| && SideApply(wa, job, side).statuses <= Written(s, side)
  {
    hide ApplyAll;
    hide Prune;
    hide AlikeOn;
    ApplyAllEntries(wa, ClusterOf(job.cr, side), job.Render(side), job.owner);
    PruneEffect(wp, ClusterOf(job.cr, side), StatusForDelete(Inventory(job.cr, side)), s.draft.Keys(side), job.cr, job.owner);
  }

  /** A side whose entries are all Healthy proved every manifest Healthy. */
  lemma RanHealthy(w: LoneWorld, s: Settled, job: Job, side: Side, wa: World, wp: World, w': World)
    requires SideRan(w, s, job, side, wa, wp)
    requires forall rs :: rs in Written(s, side) ==> rs.health == Healthy
    requires s.draft.world.log <= w'.log && w'.answers == w.answers
    ensures forall m :: m in job.Render(side) ==> ProvedHealthy(w, w', ClusterOf(job.cr, side), m, job.owner)
  {
    hide ApplyAll;
    hide Prune;
    hide ManifestIdentity;
    hide ComputeHealth;
    hide SideRan;
    var c, ms, o := ClusterOf(job.cr, side), job.Render(side), job.owner;
    var a := SideApply(wa, job, side);
    RanLogs(w, s, job, side, wa, wp);
    forall m | m in ms ensures ProvedHealthy(w, w', c, m, o) {
      var i :| 0 <= i < |ms| && ms[i] == m;
      assert Written(s, side)[i] in Written(s, side);
      ApplyAllHealthy(wa, c, ms, o, i);
      var j :| |wa.log| <= j < |a.world.log| - 1 && HealthyFrom(wa, a.world, c, m, o, j);
      HealthyLater(wa, w, a.world, w', c, m, o, j);
    }
  }

  lemma HealthyLater(v: World, w: World, v': World, w': World, c: Cluster, m: Manifest, o: string, j: nat)
    requires HealthyFrom(v, v', c, m, o, j) && v.scope == w.scope && v'.log <= w'.log && v'.answers == w'.answers
    ensures HealthyFrom(w, w', c, m, o, j)
  {
  }

  lemma RanRetains(w: World, s: Settled, job: Job, side: Side, wa: World, wp: World)
    requires SideRan(w, s, job, side, wa, wp)
    ensures var out, ms := Written(s, side), job.Render(side);
            && |out| >= |ms| && EntriesOf(out[..|ms|], ms)
            && forall rs :: rs in out[|ms|..] ==> rs in Inventory(job.cr, side) && Orphan(job.cr, s.draft.Keys(side), rs)
  {
    hide ApplyAll;
    hide Prune;
    hide Orphan;
    hide RenderKeys;
    var a, p := SideApply(wa, job, side), SidePrune(wp, job, side, s.draft.Keys(side));
    ApplyAllEntries(wa, ClusterOf(job.cr, side), job.Render(side), job.owner);
    PruneRetained(wp, ClusterOf(job.cr, side), StatusForDelete(Inventory(job.cr, side)), s.draft.Keys(side), job.cr, job.owner);
    OrderFacts([], Inventory(job.cr, side));
    assert Written(s, side)[..|a.statuses|] == a.statuses && Written(s, side)[|a.statuses|..] == p.retained;
  }

  lemma RanClean(w: World, s: Settled, job: Job, side: Side, wa: World, wp: World)
    requires SideRan(w, s, job, side, wa, wp) && !SideErred(s, job, side, wa, wp)
    ensures |Written(s, side)| == |job.Render(side)|
  {
    hide ApplyAll;
    hide Prune;
    var c, ms, o := ClusterOf(job.cr, side), job.Render(side), job.owner;
    ApplyAllEntries(wa, c, ms, o);
    PruneRetained(wp, c, StatusForDelete(Inventory(job.cr, side)), s.draft.Keys(side), job.cr, o);
  }

  /** The read or the delete of entry `k` fails in the prune of `side` that starts from `wp`. */
  ghost predicate OrphanFails(s: Settled, job: Job, side: Side, wp: World, k: nat) {
    RetainsAt(wp, ClusterOf(job.cr, side), StatusForDelete(Inventory(job.cr, side)), s.draft.Keys(side), job.cr, job.owner, k)
  }

  lemma PruneErrsIff(s: Settled, job: Job, side: Side, wp: LoneWorld)
    ensures SidePrune(wp, job, side, s.draft.Keys(side)).err <==> exists k: nat :: OrphanFails(s, job, side, wp, k)
  {
    hide Prune;
    hide RenderKeys;
    hide RetainsAt;
    var c, es, keys := ClusterOf(job.cr, side), StatusForDelete(Inventory(job.cr, side)), s.draft.Keys(side);
    PruneRetained(wp, c, es, keys, job.cr, job.owner);
    var idx := PruneExact(wp, c, es, keys, job.cr, job.owner);
    if idx != [] { assert idx[0] in idx && OrphanFails(s, job, side, wp, idx[0]); }
    if k: nat :| OrphanFails(s, job, side, wp, k) { assert k in idx; }
  }

  /**
    Ready=True does not rule out an error: a delivery that settles on Ready fails exactly when the
    read or the delete of some orphan fails, whose old Healthy grade it keeps.
   */
  lemma ReadyErrsIff(w: LoneWorld, job: Job) returns (a1: LoneWorld, p1: LoneWorld, a2: LoneWorld, p2: LoneWorld)
    requires Settle(w, job, Ready).ready.status
    ensures var s := Settle(w, job, Ready);
            && SideRan(w, s, job, SeedSide, a1, p1) && SideRan(w, s, job, ShootSide, a2, p2)
            && (s.err <==> || (exists k: nat :: OrphanFails(s, job, SeedSide, p1, k))
                           || (exists k: nat :: OrphanFails(s, job, ShootSide, p2, k)))
  {
    hide Settle;
    hide SideRan;
    hide OrphanFails;
    SettledReady(w, job, Ready);
    a1, p1, a2, p2 := BothSidesRan(w, job);
    var s := Settle(w, job, Ready);
    HealthyApplied(w, s, job, SeedSide, a1, p1);
    HealthyApplied(w, s, job, ShootSide, a2, p2);
    PruneErrsIff(s, job, SeedSide, p1);
    PruneErrsIff(s, job, ShootSide, p2);
  }

  lemma HealthyApplied(w: World, s: Settled, job: Job, side: Side, wa: World, wp: World)
    requires SideRan(w, s, job, side, wa, wp)
    requires forall rs :: rs in Written(s, side) ==> rs.health == Healthy
    ensures !SideApply(wa, job, side).err
  {
    hide ApplyAll;
    hide Prune;
    ApplyAllEntries(wa, ClusterOf(job.cr, side), job.Render(side), job.owner);
    forall rs | rs in SideApply(wa, job, side).statuses ensures rs.health == Healthy { assert rs in Written(s, side); }
  }

  // ------------------------------------------------------ What a condition says

  /** The Ready condition by what the entries say, independent of the order in which they are looked at. */
  lemma ConditionMeaning(seed: seq<ResourceStatus>, shoot: seq<ResourceStatus>)
    ensures var c := ComputeConditions(seed, shoot); var all := seed + shoot;
            && (c.status <==> forall i :: 0 <= i < |all| ==> all[i].health == Healthy)
            && (c.status <==> c.reason == "ReconcileSuccess")
            && (c.reason == "ResourcesDegraded" <==> exists i :: 0 <= i < |all| && all[i].health == Degraded)
            && (c.reason == "Progressing" <==>
                  && (forall i :: 0 <= i < |all| ==> all[i].health != Degraded)
                  && (exists i :: 0 <= i < |all| && all[i].health != Healthy))
  {
    Either(seed, shoot);
    assert |"ReconcileSuccess"| == 16 && |"ResourcesDegraded"| == 17 && |"Progressing"| == 11;
  }

  lemma Either(a: seq<ResourceStatus>, b: seq<ResourceStatus>)
    ensures AnyFailed(a) || AnyFailed(b) <==> exists i :: 0 <= i < |a + b| && (a + b)[i].health == Degraded
    ensures AnyProgressing(a) || AnyProgressing(b)
            <==> exists i :: 0 <= i < |a + b| && ((a + b)[i].health == Progressing || (a + b)[i].health == Unknown)
  {
    var all := a + b;
    assert forall rs :: rs in all <==> rs in a || rs in b;
    if AnyFailed(a) || AnyFailed(b) {
      var rs :| (rs in a || rs in b) && rs.health == Degraded;
      assert rs in all;
    }
    if AnyProgressing(a) || AnyProgressing(b) {
      var rs :| (rs in a || rs in b) && (rs.health == Progressing || rs.health == Unknown);
      assert rs in all;
    }
    if i :| 0 <= i < |all| && all[i].health == Degraded { assert all[i] in all; }
    if i :| 0 <= i < |all| && (all[i].health == Progressing || all[i].health == Unknown) { assert all[i] in all; }
  }

  /** A SeedFirst resource never waits for its shoot: the seed is delivered in every phase. */
  lemma SeedFirstNeverWaits(w: World, job: Job, phase: Phase)
    requires job.cr.applyOrder == "SeedFirst"
    ensures SeedSide in Settle(w, job, phase).applied
    ensures ShootSide in Settle(w, job, phase).applied <==> phase == Ready
  {
    hide ApplySide;
    hide PruneSide;
  }

  /** Any other order waits: without a ready and fully applied shoot the seed is left out. */
  lemma ShootFirstWaits(w: World, job: Job, phase: Phase)
    requires job.cr.applyOrder != "SeedFirst"
    ensures SeedSide in Settle(w, job, phase).applied
            <==> phase == Ready && !ApplyAll(w, Shoot(job.cr.shootId), job.shoot, job.owner).err
    ensures ShootSide in Settle(w, job, phase).applied <==> phase == Ready
  {
    hide ApplyAll;
    hide PruneSide;
    ApplyAllEntries(w, Shoot(job.cr.shootId), job.shoot, job.owner);
  }

  lemma DegradedPath(w: World, job: Job)
    requires Settle(w, job, Ready).applied == {ShootSide}
    ensures var d1 := ApplySide(StartDraft(w, job), job, ShootSide);
            AnyFailed(d1.shoot) && Settle(w, job, Ready) == SettleDegraded(d1, job)
  {
    hide ApplySide;
    hide PruneSide;
    assert SeedSide !in {ShootSide};
  }

  /** The reason of a delivery that stopped at the shoot tells a total failure from a partial one. */
  lemma DegradedReason(w: World, job: Job)
    requires Settle(w, job, Ready).applied == {ShootSide}
    ensures var s := Settle(w, job, Ready); var ss := ApplyAll(w, Shoot(job.cr.shootId), job.shoot, job.owner).statuses;
            && s.err && !s.ready.status
            && (exists i :: 0 <= i < |ss| && ss[i].health == Degraded)
            && s.ready.reason == (if forall i :: 0 <= i < |ss| ==> ss[i].health == Degraded
                                  then "ShootApplyFailed" else "ResourcesDegraded")
  {
    hide Settle;
    hide ApplyAll;
    hide PruneSide;
    DegradedPath(w, job);
    FailedByIndex(ApplyAll(w, Shoot(job.cr.shootId), job.shoot, job.owner).statuses);
  }

  lemma FailedByIndex(ss: seq<ResourceStatus>)
    ensures AnyFailed(ss) <==> exists i :: 0 <= i < |ss| && ss[i].health == Degraded
    ensures AllFailed(ss) <==> ss != [] && forall i :: 0 <= i < |ss| ==> ss[i].health == Degraded
  {
    if AllFailed(ss) { forall i | 0 <= i < |ss| ensures ss[i].health == Degraded { assert ss[i] in ss; } }
    if i :| 0 <= i < |ss| && ss[i].health == Degraded { assert ss[i] in ss; }
  }
}

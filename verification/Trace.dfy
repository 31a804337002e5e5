/** The order of the requests that a pass makes, read off the log. */
module Trace {
  import opened Trees
  import opened Manifests
  import opened Ordering
  import opened Api
  import opened Deliver
  import opened Controller
  import opened Effects
  import opened Accounting
  import opened Passes

  // ------------------------------------------------------------- Vocabulary

  /**
    A patch request, whatever became of it, of a manifest whose apiVersion parses. A malformed one
    hides the kind, and no server takes an object without a kind.
   */
  predicate Patches(e: Event) { e.Patched? && e.addr.id.kind != "" }

  function EventTier(e: Event): nat
    requires e.Patched? || e.Deleted?
  {
    Tier(e.addr.id.kind)
  }

  predicate OnCluster(e: Event, c: Cluster) {
    (e.Read? || e.Patched? || e.Deleted?) && e.addr.cluster == c
  }

  /** Within the new part of the log: patches on one cluster climb the tiers, deletes on one cluster descend. */
  ghost predicate Ordered(w: World, w': World) {
    forall i, j :: |w.log| <= i < j < |w'.log| ==>
      var d, e := w'.log[i], w'.log[j];
      && (Patches(d) && Patches(e) && d.addr.cluster == e.addr.cluster ==> EventTier(d) <= EventTier(e))
      && (d.Deleted? && e.Deleted? && d.addr.cluster == e.addr.cluster ==> EventTier(d) >= EventTier(e))
  }

  /**
    The label that an object removed for `o` can carry at that moment: alone it is the label of `o`.
    Somebody else may act between the check and the delete, and if they stamp no labels the object
    may have lost its label, but it is never another owner's.
   */
  ghost predicate MayRemove(answers: nat -> Answer, had: string, o: string) {
    && (NobodyElse(answers) ==> had == o)
    && (TameOthers(answers) ==> had == o || had == "")
  }

  /**
    The new part of the log is ordered, patches and deletes only on the given clusters, and removes
    only what may be removed for `o`.
   */
  ghost predicate Acts(w: World, w': World, o: string, puts: set<Cluster>, drops: set<Cluster>) {
    && w'.answers == w.answers && w.log <= w'.log && Ordered(w, w')
    && forall i :: |w.log| <= i < |w'.log| ==>
         var e := w'.log[i];
         && (e.Patched? ==> e.addr.cluster in puts && e.owner == o)
         && (e.Deleted? ==> e.addr.cluster in drops && e.owner == o && (e.effect ==> MayRemove(w.answers, e.had, o)))
  }

  lemma ActsTransitive(w: World, w1: World, w2: World, o: string,
                       p1: set<Cluster>, d1: set<Cluster>, p2: set<Cluster>, d2: set<Cluster>)
    requires Acts(w, w1, o, p1, d1) && Acts(w1, w2, o, p2, d2)
    requires p1 !! p2 && d1 !! d2
    ensures Acts(w, w2, o, p1 + p2, d1 + d2)
  {
    forall i | |w.log| <= i < |w1.log| ensures w2.log[i] == w1.log[i] { }
    forall i, j | |w.log| <= i < j < |w2.log|
      ensures var d, e := w2.log[i], w2.log[j];
              && (Patches(d) && Patches(e) && d.addr.cluster == e.addr.cluster ==> EventTier(d) <= EventTier(e))
              && (d.Deleted? && e.Deleted? && d.addr.cluster == e.addr.cluster ==> EventTier(d) >= EventTier(e))
    {
    }
  }

  lemma ActsWeaken(w: World, w': World, o: string, p1: set<Cluster>, d1: set<Cluster>, p2: set<Cluster>, d2: set<Cluster>)
    requires Acts(w, w', o, p1, d1) && p1 <= p2 && d1 <= d2
    ensures Acts(w, w', o, p2, d2)
  {
  }

  // -------------------------------------------------------------- Apply all

  /** The requests of one apply: reads and one patch at its address, the patch for `o`. */
  ghost predicate ApplyRequests(w: World, w': World, c: Cluster, m: Manifest, o: string) {
    && w.log <= w'.log
    && forall i :: |w.log| <= i < |w'.log| ==>
         var e := w'.log[i];
         && (e.Read? || e.Patched?) && e.addr == w.AddrOf(c, m)
         && (e.Patched? ==> e.owner == o)
         && (e.Patched? && WellFormed(m.apiVersion) ==> e.addr.id.kind == m.kind)
         && (Patches(e) ==> WellFormed(m.apiVersion))
         && (forall j :: |w.log| <= j < i ==> !w'.log[j].Patched? || !e.Patched?)
  }

  lemma GuardTrace(w: World, c: Cluster, m: Manifest, o: string)
    ensures var a := w.AddrOf(c, m);
            var g := if IsClusterScoped(m.kind) then ForeignOwner(w, a, o) else Guarded(w, Clear);
            (g.world.log == w.log || g.world.log == w.log + [Read(a)]) && g.world.scope == w.scope
  {
    hide IsClusterScoped;
    hide ManifestIdentity;
  }

  lemma PatchTrace(w: World, c: Cluster, m: Manifest, o: string)
    ensures var p := Patch(w, c, Stamp(m, o));
            exists effect, ok ::
              && p.world.log == w.log + [Patched(w.AddrOf(c, m), o, effect, ok)]
              && (!p.err ==> effect && ok)
  {
    hide ManifestIdentity;
    hide Stamp;
    hide Acceptable;
    var p := Patch(w, c, Stamp(m, o));
    var e := Last(p.world.log);
    assert p.world.log == w.log + [Patched(w.AddrOf(c, m), o, e.effect, e.ok)];
  }

  lemma AddressedKind(w: World, c: Cluster, m: Manifest)
    ensures w.AddrOf(c, m).id.kind == if WellFormed(m.apiVersion) then m.kind else ""
  {
  }

  lemma ApplyTrace(w: World, c: Cluster, m: Manifest, o: string)
    ensures var r := Apply(w, c, m, o);
            && ApplyRequests(w, r.world, c, m, o)
            && (!r.err ==> exists j :: |w.log| <= j < |r.world.log| && r.world.log[j] == Patched(w.AddrOf(c, m), o, true, true))
  {
    hide IsClusterScoped;
    hide ManifestIdentity;
    hide Stamp;
    hide Patch;
    hide ForeignOwner;
    var a := w.AddrOf(c, m);
    AddressedKind(w, c, m);
    GuardTrace(w, c, m, o);
    var g := if IsClusterScoped(m.kind) then ForeignOwner(w, a, o) else Guarded(w, Clear);
    var n := |g.world.log|;
    if g.verdict.Clear? {
      PatchTrace(g.world, c, m, o);
      var p := Patch(g.world, c, Stamp(m, o));
      if !p.err {
        assert Apply(w, c, m, o).world.log == p.world.log + [Read(a)];
        assert Apply(w, c, m, o).world.log[n] == Patched(a, o, true, true);
      }
    }
  }

  ghost predicate Ascending(ms: seq<Manifest>) {
    forall i, j :: 0 <= i < j < |ms| ==> Tier(ms[i].kind) <= Tier(ms[j].kind)
  }

  /** Applying a render in tier order patches in tier order. */
  lemma {:induction false} ApplyAllActs(w: World, c: Cluster, ms: seq<Manifest>, o: string)
    requires Ascending(ms)
    ensures var w' := ApplyAll(w, c, ms, o).world;
            && Acts(w, w', o, {c}, {})
            && (forall i :: |w.log| <= i < |w'.log| && Patches(w'.log[i]) ==>
                  exists m :: m in ms && w'.log[i].addr.id.kind == m.kind)
  {
    hide Apply;
    if ms != [] {
      var w1, w2 := ApplyAll(w, c, Init(ms), o).world, ApplyAll(w, c, ms, o).world;
      ApplyAllActs(w, c, Init(ms), o);
      ApplyTrace(w1, c, Last(ms), o);
      forall i | |w.log| <= i < |w1.log| ensures w2.log[i] == w1.log[i] { }
      forall i | |w.log| <= i < |w2.log| && Patches(w2.log[i])
        ensures exists m :: m in ms && w2.log[i].addr.id.kind == m.kind
        ensures EventTier(w2.log[i]) <= Tier(Last(ms).kind)
      {
        if i < |w1.log| {
          assert Patches(w1.log[i]);
          var m :| m in Init(ms) && w1.log[i].addr.id.kind == m.kind;
          assert m in ms;
        } else {
          assert Last(ms) in ms;
        }
      }
      forall i, j | |w.log| <= i < j < |w2.log| && Patches(w2.log[i]) && Patches(w2.log[j])
        ensures EventTier(w2.log[i]) <= EventTier(w2.log[j])
      {
        if j >= |w1.log| { assert w2.log[j].addr.id.kind == Last(ms).kind; }
      }
    }
  }

  /** Whatever the order, applying a render reads and patches on its cluster and deletes nothing. */
  lemma {:induction false} ApplyAllRequests(w: World, c: Cluster, ms: seq<Manifest>, o: string)
    ensures var w' := ApplyAll(w, c, ms, o).world;
            w.log <= w'.log && forall i :: |w.log| <= i < |w'.log| ==> OnCluster(w'.log[i], c) && !w'.log[i].Deleted?
  {
    hide Apply;
    if ms != [] {
      var w1, w2 := ApplyAll(w, c, Init(ms), o).world, ApplyAll(w, c, ms, o).world;
      ApplyAllRequests(w, c, Init(ms), o);
      ApplyTrace(w1, c, Last(ms), o);
      forall i | |w.log| <= i < |w1.log| ensures w2.log[i] == w1.log[i] { }
    }
  }

  /** A manifest whose entry is not Degraded was patched successfully. */
  lemma {:induction false} ApplyAllPatched(w: World, c: Cluster, ms: seq<Manifest>, o: string, i: nat) returns (j: nat)
    requires i < |ms| && |ApplyAll(w, c, ms, o).statuses| == |ms|
    requires ApplyAll(w, c, ms, o).statuses[i].health != Degraded
    ensures |w.log| <= j < |ApplyAll(w, c, ms, o).world.log|
    ensures ApplyAll(w, c, ms, o).world.log[j] == Patched(w.AddrOf(c, ms[i]), o, true, true)
  {
    hide Apply;
    var before := ApplyAll(w, c, Init(ms), o);
    ApplyAllEntries(w, c, Init(ms), o);
    ApplyTrace(before.world, c, Last(ms), o);
    ApplyStatus(before.world, c, Last(ms), o);
    if i == |ms| - 1 {
      assert before.world.AddrOf(c, Last(ms)) == w.AddrOf(c, ms[i]);
      var r := Apply(before.world, c, Last(ms), o);
      j :| |before.world.log| <= j < |r.world.log| && r.world.log[j] == Patched(w.AddrOf(c, ms[i]), o, true, true);
    } else {
      j := ApplyAllPatched(w, c, Init(ms), o, i);
    }
  }

  // -------------------------------------------------------- Prune and delete

  /** The requests of one ownership-checked removal: reads, and deletes for `o`, at one address. */
  ghost predicate DropRequests(w: World, w': World, a: Addr, o: string) {
    && w'.answers == w.answers && w.log <= w'.log
    && forall i :: |w.log| <= i < |w'.log| ==>
         var e := w'.log[i];
         (e.Read? || e.Deleted?) && e.addr == a && (e.Deleted? ==> e.owner == o && (e.effect ==> MayRemove(w.answers, e.had, o)))
  }

  ghost predicate Descending(es: seq<ResourceStatus>) {
    forall i, j :: 0 <= i < j < |es| ==> Tier(es[i].kind) >= Tier(es[j].kind)
  }

  lemma DeleteOneTrace(w: World, c: Cluster, rs: ResourceStatus, o: string)
    ensures var w' := DeleteOwned(w, c, ManifestFromStatus(rs), o).world;
            DropRequests(w, w', w.StatusAddr(c, rs), o)
  {
    hide ManifestIdentity;
    hide StatusIdentity;
    hide ManifestFromStatus;
    RebuiltAddr(w, c, rs);
  }

  lemma PruneOneTrace(w: World, c: Cluster, rs: ResourceStatus, o: string)
    ensures DropRequests(w, PruneOne(w, c, rs, o).world, w.StatusAddr(c, rs), o)
  {
    hide DeleteOwned;
    RebuiltAddr(w, c, rs);
    var a := w.StatusAddr(c, rs);
    var g := Get(w, a);
    assert g.world.log == w.log + [Read(a)];
    DeleteOneTrace(g.world, c, rs, o);
    assert g.world.StatusAddr(c, rs) == a;
  }

  ghost predicate KindAmong(es: seq<ResourceStatus>, kind: string) {
    exists rs :: rs in es && rs.kind == kind
  }

  /** A walk in descending tier order that has acted so far, and then removes one more entry. */
  ghost predicate Dropping(w: World, w': World, c: Cluster, es: seq<ResourceStatus>, o: string) {
    && Acts(w, w', o, {}, {c})
    && (forall i :: |w.log| <= i < |w'.log| ==> OnCluster(w'.log[i], c) && !w'.log[i].Patched?)
    && (forall i :: |w.log| <= i < |w'.log| ==> KindAmong(es, w'.log[i].addr.id.kind))
  }

  lemma StatusAddrKind(w: World, c: Cluster, rs: ResourceStatus)
    ensures w.StatusAddr(c, rs).id.kind == rs.kind && w.StatusAddr(c, rs).cluster == c
  {
  }

  lemma DropOneMore(w: World, w1: World, w2: World, c: Cluster, es: seq<ResourceStatus>, o: string)
    requires es != [] && Descending(es)
    requires Dropping(w, w1, c, Init(es), o)
    requires w1.scope == w.scope && DropRequests(w1, w2, w.StatusAddr(c, Last(es)), o)
    ensures Dropping(w, w2, c, es, o)
  {
    hide Tier;
    StatusAddrKind(w, c, Last(es));
    hide StatusIdentity;
    forall i | |w.log| <= i < |w1.log| ensures w2.log[i] == w1.log[i] { }
    forall i | |w.log| <= i < |w2.log|
      ensures KindAmong(es, w2.log[i].addr.id.kind)
      ensures Tier(w2.log[i].addr.id.kind) >= Tier(Last(es).kind)
    {
      if i < |w1.log| {
        assert KindAmong(Init(es), w1.log[i].addr.id.kind);
        var rs :| rs in Init(es) && rs.kind == w1.log[i].addr.id.kind;
        assert rs in es;
      } else {
        assert Last(es) in es && w2.log[i].addr.id.kind == Last(es).kind;
      }
    }
  }

  lemma DroppingMore(w: World, w': World, c: Cluster, es: seq<ResourceStatus>, o: string)
    requires es != [] && Dropping(w, w', c, Init(es), o)
    ensures Dropping(w, w', c, es, o)
  {
    forall i | |w.log| <= i < |w'.log| ensures KindAmong(es, w'.log[i].addr.id.kind) {
      assert KindAmong(Init(es), w'.log[i].addr.id.kind);
      var rs :| rs in Init(es) && rs.kind == w'.log[i].addr.id.kind;
      assert rs in es;
    }
  }

  lemma {:induction false} PruneActs(w: World, c: Cluster, es: seq<ResourceStatus>, keys: set<string>, cr: CR, o: string)
    requires Descending(es)
    ensures Dropping(w, Prune(w, c, es, keys, cr, o).world, c, es, o)
  {
    hide PruneOne;
    if es != [] {
      PruneActs(w, c, Init(es), keys, cr, o);
      var w1 := Prune(w, c, Init(es), keys, cr, o).world;
      if Orphan(cr, keys, Last(es)) {
        PruneOneTrace(w1, c, Last(es), o);
        DropOneMore(w, w1, Prune(w, c, es, keys, cr, o).world, c, es, o);
      } else {
        DroppingMore(w, w1, c, es, o);
      }
    }
  }

  lemma {:induction false} DeleteAllActs(w: World, c: Cluster, es: seq<ResourceStatus>, cr: CR, o: string)
    requires Descending(es)
    ensures Dropping(w, DeleteAll(w, c, es, cr, o).world, c, es, o)
  {
    hide DeleteOwned;
    if es != [] {
      DeleteAllActs(w, c, Init(es), cr, o);
      var w1 := DeleteAll(w, c, Init(es), cr, o).world;
      if !KeepsCrd(cr, Last(es)) {
        DeleteOneTrace(w1, c, Last(es), o);
        DropOneMore(w, w1, DeleteAll(w, c, es, cr, o).world, c, es, o);
      } else {
        DroppingMore(w, w1, c, es, o);
      }
    }
  }

  // -------------------------------------------------------------- Deliveries

  ghost predicate SortedJob(job: Job) { Ascending(job.seed) && Ascending(job.shoot) }

  lemma PlannedJobSorted(w: World, o: string, input: Input)
    requires Delivers(w, o, input)
    ensures SortedJob(PassJob(w, o, input))
  {
    OrderFacts(PlanOf(input).seed, []);
    OrderFacts(PlanOf(input).shoot, []);
  }

  lemma ApplySideActs(d: Draft, job: Job, side: Side)
    requires SortedJob(job)
    ensures var w' := ApplySide(d, job, side).world; var c := ClusterOf(job.cr, side);
            && Acts(d.world, w', job.owner, {c}, {})
            && (forall i :: |d.world.log| <= i < |w'.log| ==> OnCluster(w'.log[i], c))
  {
    hide ApplyAll;
    hide Acts;
    ApplyAllActs(d.world, ClusterOf(job.cr, side), job.Render(side), job.owner);
    ApplyAllRequests(d.world, ClusterOf(job.cr, side), job.Render(side), job.owner);
  }

  lemma PruneSideActs(d: Draft, job: Job, side: Side)
    ensures var w' := PruneSide(d, job, side).world; var c := ClusterOf(job.cr, side);
            && Acts(d.world, w', job.owner, {}, {c})
            && (forall i :: |d.world.log| <= i < |w'.log| ==> OnCluster(w'.log[i], c))
  {
    hide Prune;
    hide Acts;
    OrderFacts([], Inventory(job.cr, side));
    PruneActs(d.world, ClusterOf(job.cr, side), StatusForDelete(Inventory(job.cr, side)),
              d.Keys(side), job.cr, job.owner);
  }

  /** The patches and deletes of a delivery climb and descend the tiers on each cluster. */
  lemma SettleActs(w: World, job: Job, phase: Phase)
    requires SortedJob(job)
    ensures var both := {Seed, Shoot(job.cr.shootId)};
            Acts(w, Settle(w, job, phase).draft.world, job.owner, both, both)
  {
    hide ApplySide;
    hide PruneSide;
    var o, seed, shoot := job.owner, {Seed}, {Shoot(job.cr.shootId)};
    var both := {Seed, Shoot(job.cr.shootId)};
    assert seed + shoot == both && shoot + seed == both;
    var d := StartDraft(w, job);
    assert Acts(w, w, o, {}, {});
    ActsWeaken(w, w, o, {}, {}, both, both);
    hide Acts;
    if phase == Ready {
      var first := if ShootFirst(job.cr) then ShootSide else SeedSide;
      var c1, c2 := {ClusterOf(job.cr, first)}, {ClusterOf(job.cr, Other(first))};
      assert c1 + c2 == both && c2 + c1 == both;
      var d1 := ApplySide(d, job, first);
      ApplySideActs(d, job, first);
      if first == ShootSide && AnyFailed(d1.shoot) {
        var d2 := PruneSide(d1, job, ShootSide);
        PruneSideActs(d1, job, ShootSide);
        ActsTransitive(w, d1.world, d2.world, o, c1, {}, {}, c1);
        ActsWeaken(w, d2.world, o, c1 + {}, {} + c1, both, both);
      } else {
        var d2 := ApplySide(d1, job, Other(first));
        var d3 := PruneSide(d2, job, Other(first));
        var d4 := PruneSide(d3, job, first);
        ApplySideActs(d1, job, Other(first));
        PruneSideActs(d2, job, Other(first));
        PruneSideActs(d3, job, first);
        ActsTransitive(w, d1.world, d2.world, o, c1, {}, c2, {});
        ActsTransitive(w, d2.world, d3.world, o, c1 + c2, {} + {}, {}, c2);
        ActsTransitive(w, d3.world, d4.world, o, c1 + c2 + {}, {} + {} + c2, {}, c1);
        ActsWeaken(w, d4.world, o, c1 + c2 + {} + {}, {} + {} + c2 + c1, both, both);
      }
    } else if !ShootFirst(job.cr) {
      var d1 := ApplySide(d, job, SeedSide);
      var d2 := PruneSide(d1, job, SeedSide);
      ApplySideActs(d, job, SeedSide);
      PruneSideActs(d1, job, SeedSide);
      ActsTransitive(w, d1.world, d2.world, o, seed, {}, {}, seed);
      ActsWeaken(w, d2.world, o, seed + {}, {} + seed, both, both);
    }
  }

  // ---------------------------------------------------------------- Teardown

  lemma DeleteSideActs(w: World, o: string, cr: CR, side: Side)
    ensures Acts(w, DeleteSide(w, o, cr, side).world, o, {}, {ClusterOf(cr, side)})
  {
    hide DeleteAll;
    hide Acts;
    OrderFacts([], Inventory(cr, side));
    DeleteAllActs(w, ClusterOf(cr, side), StatusForDelete(Inventory(cr, side)), cr, o);
  }

  lemma TearDownActs(w: World, o: string, cr: CR, reachable: bool)
    ensures Acts(w, TearDown(w, o, cr, reachable).world, o, {}, {Seed, Shoot(cr.shootId)})
  {
    hide DeleteSide;
    hide Acts;
    var both := {Seed, Shoot(cr.shootId)};
    if Pending(cr) && reachable {
      var first := if ShootFirst(cr) then SeedSide else ShootSide;
      var w1 := DeleteSide(w, o, cr, first).world;
      var w2 := DeleteSide(w1, o, cr, Other(first)).world;
      DeleteSideActs(w, o, cr, first);
      DeleteSideActs(w1, o, cr, Other(first));
      ActsTransitive(w, w1, w2, o, {}, {ClusterOf(cr, first)}, {}, {ClusterOf(cr, Other(first))});
      ActsWeaken(w, w2, o, {} + {}, {ClusterOf(cr, first)} + {ClusterOf(cr, Other(first))}, {}, both);
    } else {
      DeleteSideActs(w, o, cr, SeedSide);
      ActsWeaken(w, DeleteSide(w, o, cr, SeedSide).world, o, {}, {Seed}, {}, both);
    }
  }

  lemma SavesAct(w: World, o: string, st: CrStatus, present: bool)
    ensures Acts(w, SaveStatus(w, o, st).world, o, {}, {})
    ensures Acts(w, SaveFinalizer(w, o, present).world, o, {}, {})
  {
  }

  lemma ConcludeActs(t: TornDown, o: string, cr: CR, reachable: bool, status: CrStatus)
    ensures Acts(t.world, Conclude(t, o, cr, reachable, status).world, o, {}, {})
  {
    assert Acts(t.world, t.world, o, {}, {});
    hide SaveStatus;
    hide SaveFinalizer;
    hide Acts;
    var forced := status.(cleanup := Some("ForceDeleted"));
    SavesAct(t.world, o, forced, false);
    SavesAct(t.world, o, status.(cleanup := Some("Blocked")), false);
    var w1 := SaveStatus(t.world, o, forced).world;
    SavesAct(w1, o, status, false);
    ActsTransitive(t.world, w1, SaveFinalizer(w1, o, false).world, o, {}, {}, {}, {});
    var none: set<Cluster> := {};
    assert none + none == none;
  }

  lemma DeletePassActs(w: World, o: string, cr: CR, reachable: bool)
    ensures Acts(w, DeletePass(w, o, cr, reachable).world, o, {}, {Seed, Shoot(cr.shootId)})
  {
    hide SaveStatus;
    hide TearDown;
    hide Conclude;
    hide Acts;
    var both: set<Cluster> := {Seed, Shoot(cr.shootId)};
    var first := SaveStatus(w, o, MarkDeleting(cr));
    SavesAct(w, o, MarkDeleting(cr), false);
    ActsWeaken(w, first.world, o, {}, {}, {}, both);
    if !first.outcome.Refused? {
      var t := TearDown(first.world, o, cr, reachable);
      TearDownActs(first.world, o, cr, reachable);
      var end := DeletePass(w, o, cr, reachable).world;
      ConcludeActs(t, o, cr, reachable, MarkDeleting(cr));
      ConcludeActs(t, o, cr, reachable, cr.status.(ready := Some(Condition(false, "ShootUnreachable"))));
      ActsTransitive(w, first.world, t.world, o, {}, {}, {}, both);
      ActsTransitive(w, t.world, end, o, {} + {}, {} + both, {}, {});
      ActsWeaken(w, end, o, {} + {} + {}, {} + both + {}, {}, both);
    }
  }

  // -------------------------------------------------------------------- Pass

  /**
    The ordering law for every pass: on each cluster patches never step down a tier and deletes never
    step up. Alone, no pass removes an object that does not carry its label at that moment; beside
    others that stamp no labels, no pass removes an object that carries another owner's. And the
    finalizer comes first: a pass patches only for a resource that carries the finalizer and is
    not being deleted.
   */
  lemma PassActs(w: World, o: string, input: Input)
    requires o in w.crs
    ensures var both := {Seed, Shoot(w.crs[o].shootId)};
            Acts(w, Pass(w, o, input).world, o, if Delivers(w, o, input) then both else {}, both)
  {
    var cr := w.crs[o];
    var both: set<Cluster> := {Seed, Shoot(cr.shootId)};
    assert Acts(w, w, o, {}, both);
    hide SaveStatus;
    hide SaveFinalizer;
    hide Settle;
    hide DeletePass;
    hide PlanOf;
    hide Acts;
    if Delivers(w, o, input) {
      var job := PassJob(w, o, input);
      PlannedJobSorted(w, o, input);
      var s := Settle(w, job, input.phase);
      SettleActs(w, job, input.phase);
      var st := cr.status.(seed := s.seed, shoot := s.shoot, ready := Some(s.ready));
      SavesAct(s.draft.world, o, st, false);
      ActsTransitive(w, s.draft.world, SaveStatus(s.draft.world, o, st).world, o, both, both, {}, {});
      assert both + {} == both;
    } else if Deletes(w, o, input) {
      DeletePassActs(w, o, cr, input.phase == Ready);
    } else if !input.readFails {
      if !cr.finalizer {
        SavesAct(w, o, cr.status, true);
        ActsWeaken(w, SaveFinalizer(w, o, true).world, o, {}, {}, {}, both);
      } else {
        var st := cr.status.(ready := Some(Condition(false, PlanOf(input).reason)));
        SavesAct(w, o, st, true);
        ActsWeaken(w, SaveStatus(w, o, st).world, o, {}, {}, {}, both);
      }
    }
  }

  // --------------------------------------------------------- ShootFirst gate

  /**
    The gate: in a ShootFirst delivery, any request to the seed cluster comes after a successful
    patch of every manifest of the shoot render.
   */
  lemma ShootFirstGate(w: World, job: Job, phase: Phase, i: nat, m: Manifest) returns (j: nat)
    requires SortedJob(job) && ShootFirst(job.cr) && m in job.shoot
    requires var log := Settle(w, job, phase).draft.world.log;
             |w.log| <= i < |log| && OnCluster(log[i], Seed)
    ensures var log := Settle(w, job, phase).draft.world.log;
            |w.log| <= j < i && log[j] == Patched(w.AddrOf(Shoot(job.cr.shootId), m), job.owner, true, true)
  {
    hide ApplySide;
    hide PruneSide;
    hide Acts;
    hide ManifestIdentity;
    var d := StartDraft(w, job);
    var d1 := ApplySide(d, job, ShootSide);
    ApplySideActs(d, job, ShootSide);
    LogGrows(d1, job);
    PruneSideActs(d1, job, ShootSide);
    assert !AnyFailed(d1.shoot);
    j := AppliedShoot(w, job, m);
  }

  /** If no shoot entry failed, every shoot manifest was patched successfully. */
  lemma AppliedShoot(w: World, job: Job, m: Manifest) returns (j: nat)
    requires m in job.shoot && !AnyFailed(ApplySide(StartDraft(w, job), job, ShootSide).shoot)
    ensures var log := ApplySide(StartDraft(w, job), job, ShootSide).world.log;
            |w.log| <= j < |log| && log[j] == Patched(w.AddrOf(Shoot(job.cr.shootId), m), job.owner, true, true)
  {
    hide ApplyAll;
    hide ManifestIdentity;
    var c := Shoot(job.cr.shootId);
    ApplyAllEntries(w, c, job.shoot, job.owner);
    var ss := ApplyAll(w, c, job.shoot, job.owner).statuses;
    var k :| 0 <= k < |job.shoot| && job.shoot[k] == m;
    assert ss[k] in ss;
    j := ApplyAllPatched(w, c, job.shoot, job.owner, k);
  }

  /** The log only grows along the rest of a ShootFirst delivery. */
  lemma LogGrows(d1: Draft, job: Job)
    ensures d1.world.log <= PruneSide(d1, job, ShootSide).world.log
    ensures var d2 := ApplySide(d1, job, SeedSide);
            d1.world.log <= PruneSide(PruneSide(d2, job, SeedSide), job, ShootSide).world.log
  {
    hide Prune;
    hide ApplyAll;
    var d2 := ApplySide(d1, job, SeedSide);
  }

  /** The gate at the level of a pass, for every order but SeedFirst. */
  lemma PassShootFirst(w: World, o: string, input: Input, i: nat, m: Manifest) returns (j: nat)
    requires Delivers(w, o, input) && w.crs[o].applyOrder != "SeedFirst" && m in PassJob(w, o, input).shoot
    requires var log := Pass(w, o, input).world.log; |w.log| <= i < |log| && OnCluster(log[i], Seed)
    ensures var log := Pass(w, o, input).world.log;
            |w.log| <= j < i && log[j] == Patched(w.AddrOf(Shoot(w.crs[o].shootId), m), o, true, true)
  {
    hide Settle;
    hide PlanOf;
    var job := PassJob(w, o, input);
    var s := Settle(w, job, input.phase);
    PlannedJobSorted(w, o, input);
    var st := job.cr.status.(seed := s.seed, shoot := s.shoot, ready := Some(s.ready));
    var end := SaveStatus(s.draft.world, o, st).world;
    assert end.log == s.draft.world.log + [end.log[|s.draft.world.log|]];
    j := ShootFirstGate(w, job, input.phase, i, m);
  }

  // ------------------------------------------------------- Order by kind, named

  predicate IsWebhook(kind: string) {
    kind == "ValidatingWebhookConfiguration" || kind == "MutatingWebhookConfiguration"
  }

  predicate IsRbac(kind: string) {
    kind in {"ClusterRole", "ClusterRoleBinding", "Role", "RoleBinding", "ServiceAccount"}
  }

  /** The order of two kinds: namespaces, CRDs, RBAC, all else, webhook configurations. */
  ghost predicate Precedes(k: string, l: string) {
    || (k == "Namespace" && l != "Namespace")
    || (k == "CustomResourceDefinition" && l != "Namespace" && l != "CustomResourceDefinition")
    || (IsRbac(k) && l != "Namespace" && l != "CustomResourceDefinition" && !IsRbac(l))
    || (!IsWebhook(k) && IsWebhook(l))
  }

  /** Two patches of one pass on one cluster come in the order of their kinds. */
  lemma PatchesByKind(w: World, w': World, o: string, puts: set<Cluster>, drops: set<Cluster>, i: nat, j: nat)
    requires Acts(w, w', o, puts, drops) && |w.log| <= i < |w'.log| && |w.log| <= j < |w'.log|
    requires Patches(w'.log[i]) && Patches(w'.log[j]) && w'.log[i].addr.cluster == w'.log[j].addr.cluster
    ensures Precedes(w'.log[i].addr.id.kind, w'.log[j].addr.id.kind) ==> i < j
  {
    PrecedesIff(w'.log[i].addr.id.kind, w'.log[j].addr.id.kind);
    hide Tier;
    hide Precedes;
  }

  /** And two deletes in the reverse order. */
  lemma DeletesByKind(w: World, w': World, o: string, puts: set<Cluster>, drops: set<Cluster>, i: nat, j: nat)
    requires Acts(w, w', o, puts, drops) && |w.log| <= i < |w'.log| && |w.log| <= j < |w'.log|
    requires w'.log[i].Deleted? && w'.log[j].Deleted? && w'.log[i].addr.cluster == w'.log[j].addr.cluster
    ensures Precedes(w'.log[i].addr.id.kind, w'.log[j].addr.id.kind) ==> j < i
  {
    PrecedesIff(w'.log[i].addr.id.kind, w'.log[j].addr.id.kind);
    hide Tier;
    hide Precedes;
  }

  lemma PrecedesIff(k: string, l: string)
    ensures Precedes(k, l) <==> Tier(k) < Tier(l)
  {
    assert |"Namespace"| == 9 && |"CustomResourceDefinition"| == 24;
    assert |"ClusterRole"| == 11 && |"ClusterRoleBinding"| == 18 && |"Role"| == 4 && |"RoleBinding"| == 11;
    assert |"ServiceAccount"| == 14 && |"ValidatingWebhookConfiguration"| == 30 && |"MutatingWebhookConfiguration"| == 28;
  }

  // -------------------------------------------------- Order between the clusters

  /** Patches on `first` never follow patches on `second`, and deletes on `second` never follow deletes on `first`. */
  ghost predicate Crossed(w: World, w': World, first: Cluster, second: Cluster) {
    forall i, j :: |w.log| <= i < j < |w'.log| ==>
      var d, e := w'.log[i], w'.log[j];
      && !(d.Patched? && e.Patched? && d.addr.cluster == second && e.addr.cluster == first)
      && !(d.Deleted? && e.Deleted? && d.addr.cluster == first && e.addr.cluster == second)
  }

  /** A stretch that patches or deletes on one cluster only is in order. */
  lemma OneClusterCrossed(w: World, w': World, o: string, c: Cluster, first: Cluster, second: Cluster)
    requires Acts(w, w', o, {c}, {c}) && first != second
    ensures Crossed(w, w', first, second)
  {
  }

  lemma CrossedTransitive(w: World, w1: World, w2: World, o: string, first: Cluster, second: Cluster,
                          p1: set<Cluster>, d1: set<Cluster>, p2: set<Cluster>, d2: set<Cluster>)
    requires Acts(w, w1, o, p1, d1) && Acts(w1, w2, o, p2, d2)
    requires Crossed(w, w1, first, second) && Crossed(w1, w2, first, second)
    requires !(second in p1 && first in p2) && !(first in d1 && second in d2)
    ensures Crossed(w, w2, first, second)
  {
    forall i | |w.log| <= i < |w1.log| ensures w2.log[i] == w1.log[i] { }
  }

  lemma ApplySideCrossed(d: Draft, job: Job, side: Side)
    requires SortedJob(job)
    ensures var c1, c2 := ClusterOf(job.cr, FirstSide(job.cr)), ClusterOf(job.cr, Other(FirstSide(job.cr)));
            Crossed(d.world, ApplySide(d, job, side).world, c1, c2)
  {
    hide ApplySide;
    var c, w' := ClusterOf(job.cr, side), ApplySide(d, job, side).world;
    ApplySideActs(d, job, side);
    ActsWeaken(d.world, w', job.owner, {c}, {}, {c}, {c});
    OneClusterCrossed(d.world, w', job.owner, c, ClusterOf(job.cr, FirstSide(job.cr)), ClusterOf(job.cr, Other(FirstSide(job.cr))));
  }

  lemma PruneSideCrossed(d: Draft, job: Job, side: Side)
    ensures var c1, c2 := ClusterOf(job.cr, FirstSide(job.cr)), ClusterOf(job.cr, Other(FirstSide(job.cr)));
            Crossed(d.world, PruneSide(d, job, side).world, c1, c2)
  {
    hide PruneSide;
    var c, w' := ClusterOf(job.cr, side), PruneSide(d, job, side).world;
    PruneSideActs(d, job, side);
    ActsWeaken(d.world, w', job.owner, {}, {c}, {c}, {c});
    OneClusterCrossed(d.world, w', job.owner, c, ClusterOf(job.cr, FirstSide(job.cr)), ClusterOf(job.cr, Other(FirstSide(job.cr))));
  }

  /** A delivery applies in the order of `applyOrder` and prunes in the reverse order. */
  lemma SettleCrossed(w: World, job: Job, phase: Phase)
    requires SortedJob(job)
    ensures var c1, c2 := ClusterOf(job.cr, FirstSide(job.cr)), ClusterOf(job.cr, Other(FirstSide(job.cr)));
            Crossed(w, Settle(w, job, phase).draft.world, c1, c2)
  {
    hide ApplySide;
    hide PruneSide;
    var o, first := job.owner, FirstSide(job.cr);
    var second := Other(first);
    var c1, c2 := ClusterOf(job.cr, first), ClusterOf(job.cr, second);
    var none: set<Cluster> := {};
    var d := StartDraft(w, job);
    assert Crossed(w, w, c1, c2);
    hide Crossed;
    hide Acts;
    var d1 := ApplySide(d, job, first);
    ApplySideActs(d, job, first);
    ApplySideCrossed(d, job, first);
    var p1 := PruneSide(d1, job, first);
    PruneSideActs(d1, job, first);
    PruneSideCrossed(d1, job, first);
    CrossedTransitive(w, d1.world, p1.world, o, c1, c2, {c1}, none, none, {c1});
    var d2 := ApplySide(d1, job, second);
    ApplySideActs(d1, job, second);
    ApplySideCrossed(d1, job, second);
    CrossedTransitive(w, d1.world, d2.world, o, c1, c2, {c1}, none, {c2}, none);
    ActsTransitive(w, d1.world, d2.world, o, {c1}, none, {c2}, none);
    var d3 := PruneSide(d2, job, second);
    PruneSideActs(d2, job, second);
    PruneSideCrossed(d2, job, second);
    CrossedTransitive(w, d2.world, d3.world, o, c1, c2, {c1} + {c2}, none + none, none, {c2});
    ActsTransitive(w, d2.world, d3.world, o, {c1} + {c2}, none + none, none, {c2});
    var d4 := PruneSide(d3, job, first);
    PruneSideActs(d3, job, first);
    PruneSideCrossed(d3, job, first);
    CrossedTransitive(w, d3.world, d4.world, o, c1, c2, {c1} + {c2} + none, none + none + {c2}, none, {c1});
    SettleWorlds(w, job, phase);
  }

  /** A deletion deletes in the reverse of the apply order. */
  lemma TearDownCrossed(w: World, o: string, cr: CR, reachable: bool)
    ensures var c1, c2 := ClusterOf(cr, FirstSide(cr)), ClusterOf(cr, Other(FirstSide(cr)));
            Crossed(w, TearDown(w, o, cr, reachable).world, c1, c2)
  {
    hide DeleteSide;
    var first := FirstSide(cr);
    var c1, c2 := ClusterOf(cr, first), ClusterOf(cr, Other(first));
    var none: set<Cluster> := {};
    if Pending(cr) && reachable {
      var w1 := DeleteSide(w, o, cr, Other(first)).world;
      var w2 := DeleteSide(w1, o, cr, first).world;
      DeleteSideActs(w, o, cr, Other(first));
      DeleteSideActs(w1, o, cr, first);
      ActsWeaken(w, w1, o, {}, {c2}, {c2}, {c2});
      ActsWeaken(w1, w2, o, {}, {c1}, {c1}, {c1});
      OneClusterCrossed(w, w1, o, c2, c1, c2);
      OneClusterCrossed(w1, w2, o, c1, c1, c2);
      CrossedTransitive(w, w1, w2, o, c1, c2, none, {c2}, none, {c1});
    } else {
      var w1 := DeleteSide(w, o, cr, SeedSide).world;
      DeleteSideActs(w, o, cr, SeedSide);
      ActsWeaken(w, w1, o, {}, {Seed}, {Seed}, {Seed});
      OneClusterCrossed(w, w1, o, Seed, c1, c2);
    }
  }

  lemma SavesCrossed(w: World, o: string, st: CrStatus, present: bool, c1: Cluster, c2: Cluster)
    ensures Crossed(w, w, c1, c2)
    ensures Crossed(w, SaveStatus(w, o, st).world, c1, c2)
    ensures Crossed(w, SaveFinalizer(w, o, present).world, c1, c2)
  {
  }

  lemma ConcludeCrossed(t: TornDown, o: string, cr: CR, reachable: bool, status: CrStatus, c1: Cluster, c2: Cluster)
    ensures Crossed(t.world, Conclude(t, o, cr, reachable, status).world, c1, c2)
  {
    hide SaveStatus;
    hide SaveFinalizer;
    hide Crossed;
    hide Acts;
    var forced := status.(cleanup := Some("ForceDeleted"));
    SavesCrossed(t.world, o, forced, false, c1, c2);
    SavesCrossed(t.world, o, status.(cleanup := Some("Blocked")), false, c1, c2);
    var w1 := SaveStatus(t.world, o, forced).world;
    SavesCrossed(w1, o, status, false, c1, c2);
    SavesAct(t.world, o, forced, false);
    SavesAct(w1, o, forced, false);
    CrossedTransitive(t.world, w1, SaveFinalizer(w1, o, false).world, o, c1, c2, {}, {}, {}, {});
  }

  lemma DeletePassCrossed(w: World, o: string, cr: CR, reachable: bool)
    ensures var c1, c2 := ClusterOf(cr, FirstSide(cr)), ClusterOf(cr, Other(FirstSide(cr)));
            Crossed(w, DeletePass(w, o, cr, reachable).world, c1, c2)
  {
    hide SaveStatus;
    hide TearDown;
    hide Conclude;
    hide Crossed;
    hide Acts;
    var c1, c2 := ClusterOf(cr, FirstSide(cr)), ClusterOf(cr, Other(FirstSide(cr)));
    var both: set<Cluster> := {Seed, Shoot(cr.shootId)};
    var unreachable := cr.status.(ready := Some(Condition(false, "ShootUnreachable")));
    var first := SaveStatus(w, o, MarkDeleting(cr));
    SavesCrossed(w, o, MarkDeleting(cr), false, c1, c2);
    SavesAct(w, o, MarkDeleting(cr), false);
    if !first.outcome.Refused? {
      var t := TearDown(first.world, o, cr, reachable);
      TearDownCrossed(first.world, o, cr, reachable);
      TearDownActs(first.world, o, cr, reachable);
      CrossedTransitive(w, first.world, t.world, o, c1, c2, {}, {}, {}, both);
      ActsTransitive(w, first.world, t.world, o, {}, {}, {}, both);
      ConcludeCrossed(t, o, cr, reachable, MarkDeleting(cr), c1, c2);
      ConcludeCrossed(t, o, cr, reachable, unreachable, c1, c2);
      ConcludeActs(t, o, cr, reachable, MarkDeleting(cr));
      ConcludeActs(t, o, cr, reachable, unreachable);
      CrossedTransitive(w, t.world, DeletePass(w, o, cr, reachable).world, o, c1, c2, {} + {}, {} + both, {}, {});
    }
  }

  /**
    The order between the clusters, for every pass: applies go to the side that `applyOrder` names
    first before they go to the other, and deletes go the other way round.
   */
  lemma PassCrossed(w: World, o: string, input: Input)
    requires o in w.crs
    ensures var cr := w.crs[o];
            var c1, c2 := ClusterOf(cr, FirstSide(cr)), ClusterOf(cr, Other(FirstSide(cr)));
            Crossed(w, Pass(w, o, input).world, c1, c2)
  {
    hide SaveStatus;
    hide SaveFinalizer;
    hide Settle;
    hide DeletePass;
    hide PlanOf;
    hide Crossed;
    hide Acts;
    var cr := w.crs[o];
    var c1, c2 := ClusterOf(cr, FirstSide(cr)), ClusterOf(cr, Other(FirstSide(cr)));
    var both: set<Cluster> := {Seed, Shoot(cr.shootId)};
    SavesCrossed(w, o, cr.status, true, c1, c2);
    if Delivers(w, o, input) {
      var job := PassJob(w, o, input);
      PlannedJobSorted(w, o, input);
      var s := Settle(w, job, input.phase);
      SettleActs(w, job, input.phase);
      SettleCrossed(w, job, input.phase);
      var st := cr.status.(seed := s.seed, shoot := s.shoot, ready := Some(s.ready));
      SavesAct(s.draft.world, o, st, false);
      SavesCrossed(s.draft.world, o, st, false, c1, c2);
      CrossedTransitive(w, s.draft.world, SaveStatus(s.draft.world, o, st).world, o, c1, c2, both, both, {}, {});
    } else if Deletes(w, o, input) {
      DeletePassCrossed(w, o, cr, input.phase == Ready);
    } else if !input.readFails && cr.finalizer {
      SavesCrossed(w, o, cr.status.(ready := Some(Condition(false, PlanOf(input).reason))), true, c1, c2);
    }
  }
}

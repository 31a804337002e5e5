/** One whole pass: what it keeps accounted, what it releases and why, and what it leaves alone. */
module Passes {
  import opened Trees
  import opened Manifests
  import opened Ordering
  import opened Api
  import opened Deliver
  import opened Controller
  import opened Effects
  import opened Accounting

  // ----------------------------------------------- What leaves the inventory

  /** The pass ended with a status write that took effect. */
  ghost predicate Recorded(w': World, o: string) {
    w'.log != [] && Last(w'.log) == WroteStatus(o, true)
  }

  /** The pass gets as far as delivering renders. */
  ghost predicate Delivers(w: World, o: string, input: Input) {
    && o in w.crs && !input.readFails
    && w.crs[o].finalizer && !w.crs[o].deleting
    && PlanOf(input).Planned?
  }

  ghost predicate Deletes(w: World, o: string, input: Input) {
    o in w.crs && !input.readFails && w.crs[o].deleting
  }

  ghost function PassJob(w: World, o: string, input: Input): Job
    requires Delivers(w, o, input)
  {
    JobOf(o, w.crs[o], PlanOf(input))
  }

  /** The keys that the prunes of a delivery compare the inventories with. */
  ghost function PassKeys(w: World, o: string, input: Input): KeyPair
    requires Delivers(w, o, input)
  {
    Settle(w, PassJob(w, o, input), input.phase).draft.AllKeys()
  }

  /** The pass took the finalizer off. */
  ghost predicate Unguards(w: World, o: string, input: Input) {
    && Deletes(w, o, input) && w.crs[o].finalizer
    && var w' := Pass(w, o, input).world; o in w'.crs && !w'.crs[o].finalizer
  }

  /** The world in which a deletion pass starts deleting: after it marked the resource Deleting. */
  ghost function Marked(w: World, o: string, cr: CR): World {
    SaveStatus(w, o, MarkDeleting(cr)).world
  }

  ghost predicate ShootFinished(w: World, o: string, input: Input)
    requires o in w.crs
  {
    var cr, reachable := w.crs[o], input.phase == Ready;
    ShootDone(cr, reachable, TearDown(Marked(w, o, cr), o, cr, reachable).shootErr)
  }

  /** Objects put in place by a pass whose status write did not take effect. */
  ghost function LostBy(w: World, o: string, input: Input): set<Addr> {
    var w' := Pass(w, o, input).world;
    if Delivers(w, o, input) && !Recorded(w', o) then NewlyOwned(w, w', o) else {}
  }

  /** CRDs that the retention policy leaves in place when they leave the render or the resource goes. */
  ghost function KeptBy(w: World, o: string, input: Input): set<Addr> {
    if Delivers(w, o, input) && Recorded(Pass(w, o, input).world, o) then
      var job := PassJob(w, o, input);
      var s := Settle(w, job, input.phase);
      (if SeedSide in s.applied then KeptCrds(w, job.cr, SeedSide, s.draft.Keys(SeedSide)) else {})
      + (if ShootSide in s.applied then KeptCrds(w, job.cr, ShootSide, s.draft.Keys(ShootSide)) else {})
    else if Unguards(w, o, input) then
      KeptCrds(w, w.crs[o], SeedSide, {}) + KeptCrds(w, w.crs[o], ShootSide, {})
    else {}
  }

  /** Shoot objects given up by a forced deletion. */
  ghost function ForcedBy(w: World, o: string, input: Input): set<Addr> {
    if Unguards(w, o, input) && !ShootFinished(w, o, input)
    then Addrs(w, Shoot(w.crs[o].shootId), w.crs[o].status.shoot) else {}
  }

  ghost function Released(w: World, o: string, input: Input): set<Addr> {
    LostBy(w, o, input) + KeptBy(w, o, input) + ForcedBy(w, o, input)
  }

  // -------------------------------------------------------------- Write facts

  /** Of the custom resources, at most `o` was written. */
  ghost predicate OnlyWrites(w: World, w': World, o: string) {
    && w'.scope == w.scope && w'.answers == w.answers && w.log <= w'.log
    && (forall p :: p != o ==> (p in w'.crs <==> p in w.crs) && (p in w.crs ==> w'.crs[p] == w.crs[p]))
    && (o in w'.crs <==> o in w.crs)
  }

  ghost predicate OnlyResource(w: World, w': World, o: string) { OnlyWrites(w, w', o) && w'.live == w.live }

  /** The parts of a resource that no pass writes. */
  ghost predicate SameSpec(cr: CR, cr': CR) {
    cr'.deleting == cr.deleting && cr'.forceDelete == cr.forceDelete && cr'.applyOrder == cr.applyOrder
    && cr'.crdPolicy == cr.crdPolicy && cr'.shootId == cr.shootId
  }

  lemma SaveStatusFacts(w: World, o: string, st: CrStatus)
    ensures var r := SaveStatus(w, o, st);
            && OnlyWrites(w, r.world, o)
            && r.world.log != []
            && (o in w.crs ==> r.world.crs[o] == if Recorded(r.world, o) then w.crs[o].(status := st) else w.crs[o])
            && (r.outcome.Done? ==> Recorded(r.world, o))
  {
  }

  lemma SaveFinalizerFacts(w: World, o: string, present: bool)
    ensures var r := SaveFinalizer(w, o, present);
            && OnlyWrites(w, r.world, o)
            && !Recorded(r.world, o)
            && (o in w.crs ==>
                  && SameSpec(w.crs[o], r.world.crs[o]) && r.world.crs[o].status == w.crs[o].status
                  && (r.world.crs[o].finalizer == w.crs[o].finalizer || r.world.crs[o].finalizer == present)
                  && (r.outcome.Done? ==> r.world.crs[o].finalizer == present))
  {
  }

  /** Alone, a write to a resource leaves the clusters as they are. */
  lemma SavesAlone(w: LoneWorld, o: string, st: CrStatus, present: bool)
    ensures SaveStatus(w, o, st).world.live == w.live && SaveFinalizer(w, o, present).world.live == w.live
  {
  }

  /** Whoever else acts, a write to a resource makes nobody own anything. */
  lemma SavesLose(w: World, o: string, st: CrStatus, present: bool, p: string)
    requires Tame(w) && p != ""
    ensures OnlyLoses(w, SaveStatus(w, o, st).world, p) && OnlyLoses(w, SaveFinalizer(w, o, present).world, p)
  {
    hide TameOthers;
    MetLoses(w, p);
  }

  // --------------------------------------------------------------- Deliveries

  lemma AddrsCluster(w: World, c: Cluster, es: seq<ResourceStatus>, a: Addr)
    requires a in Addrs(w, c, es)
    ensures a.cluster == c
  {
  }

  /** Accounting before a pass is knowledge of each of its two clusters. */
  lemma AccountedIsKnown(w: World, job: Job, known: set<Addr>)
    requires job.owner in w.crs && w.crs[job.owner] == job.cr && job.cr.finalizer
    requires Accounted(w, job.owner, known)
    ensures KnownBefore(w, job, SeedSide, known) && KnownBefore(w, job, ShootSide, known)
  {
    hide Addrs;
    var seed := Addrs(w, Seed, job.cr.status.seed);
    var shoot := Addrs(w, Shoot(job.cr.shootId), job.cr.status.shoot);
    forall a | a in seed ensures a.cluster == Seed { AddrsCluster(w, Seed, job.cr.status.seed, a); }
    forall a | a in shoot ensures a.cluster.Shoot? {
      AddrsCluster(w, Shoot(job.cr.shootId), job.cr.status.shoot, a);
    }
  }

  /** A recorded delivery: the written inventories cover everything up to the kept CRDs. */
  lemma RecordedDelivery(w: World, w': World, job: Job, s: Settled, known: set<Addr>, kept: set<Addr>)
    requires job.owner in w.crs && w.crs[job.owner] == job.cr && job.cr.finalizer
    requires Accounted(w, job.owner, known)
    requires forall c :: c != Seed && c != Shoot(job.cr.shootId) ==> LosesOn(w, s.draft.world, job.owner, c)
    requires SideSettled(w, s, job, SeedSide, known) && SideSettled(w, s, job, ShootSide, known)
    requires SeedSide in s.applied ==> KeptCrds(w, job.cr, SeedSide, s.draft.Keys(SeedSide)) <= kept
    requires ShootSide in s.applied ==> KeptCrds(w, job.cr, ShootSide, s.draft.Keys(ShootSide)) <= kept
    requires OnlyLoses(s.draft.world, w', job.owner) && w'.scope == w.scope && job.owner in w'.crs
    requires w'.crs[job.owner].finalizer && w'.crs[job.owner].shootId == job.cr.shootId
    requires w'.crs[job.owner].status.seed == s.seed && w'.crs[job.owner].status.shoot == s.shoot
    ensures Accounted(w', job.owner, known + kept)
  {
    hide Addrs;
    hide KeptCrds;
    var o, mid := job.owner, s.draft.world;
    var shoot := Shoot(job.cr.shootId);
    AccountedIsKnown(w, job, known);
    AddrsSameScope(w, w', Seed, s.seed);
    AddrsSameScope(w, w', shoot, s.shoot);
    forall a | w'.OwnedAt(a, o) ensures a in known + kept || a in Tracked(w', o) {
      assert mid.OwnedAt(a, o);
      if a.cluster != Seed && a.cluster != shoot {
        assert LosesOn(w, mid, o, a.cluster);
        assert w.OwnedAt(a, o);
        if a in Tracked(w, o) {
          if a in Addrs(w, Seed, job.cr.status.seed) { AddrsCluster(w, Seed, job.cr.status.seed, a); }
          else { AddrsCluster(w, shoot, job.cr.status.shoot, a); }
        }
      } else {
        var side := if a.cluster == Seed then SeedSide else ShootSide;
        if side !in s.applied { assert w.OwnedAt(a, o); }
      }
    }
  }

  // ---------------------------------------------------------------- Teardown

  /** Nothing that `side`'s inventory lets the pass delete is live and owned. */
  ghost predicate SideGone(w: World, o: string, cr: CR, side: Side) {
    forall rs :: rs in Inventory(cr, side) && !KeepsCrd(cr, rs) ==>
                   !w.OwnedAt(w.StatusAddr(ClusterOf(cr, side), rs), o)
  }

  /** Whoever else acts, deleting a side makes nobody own anything; without an error its owner has nothing left. */
  lemma DeleteSideLoses(w: World, o: string, cr: CR, side: Side, p: string)
    requires Tame(w) && p != ""
    ensures var r := DeleteSide(w, o, cr, side);
            OnlyLoses(w, r.world, p) && (p == o && !r.err ==> SideGone(r.world, o, cr, side))
  {
    hide DeleteAll;
    hide TameOthers;
    var c, es := ClusterOf(cr, side), StatusForDelete(Inventory(cr, side));
    DeleteAllLoses(w, c, es, cr, o, p);
    OrderFacts([], Inventory(cr, side));
    var r := DeleteAll(w, c, es, cr, o);
    if p == o && !r.err {
      forall rs | rs in Inventory(cr, side) && !KeepsCrd(cr, rs)
        ensures !r.world.OwnedAt(r.world.StatusAddr(c, rs), o)
      {
        DeleteAllFrees(w, c, es, cr, o, rs);
        assert r.world.StatusAddr(c, rs) == w.StatusAddr(c, rs);
      }
    }
  }

  lemma DeleteSideFacts(w: LoneWorld, o: string, cr: CR, side: Side)
    ensures var r := DeleteSide(w, o, cr, side);
            && Lawful(w, r.world, cr, o) && Shrinks(w, r.world)
            && (!r.err ==> SideGone(r.world, o, cr, side))
  {
    hide DeleteAll;
    var c, es := ClusterOf(cr, side), StatusForDelete(Inventory(cr, side));
    DeleteAllEffect(w, c, es, cr, o);
    DeleteAllLawful(w, c, es, cr, o);
    OrderFacts([], Inventory(cr, side));
    var r := DeleteAll(w, c, es, cr, o);
    if !r.err {
      forall rs | rs in Inventory(cr, side) && !KeepsCrd(cr, rs)
        ensures !r.world.OwnedAt(r.world.StatusAddr(c, rs), o)
      {
        DeleteAllGone(w, c, es, cr, o, rs);
        assert r.world.StatusAddr(c, rs) == w.StatusAddr(c, rs);
      }
    }
  }

  lemma SideGoneStays(w: World, w': World, o: string, cr: CR, side: Side)
    requires SideGone(w, o, cr, side) && OnlyLoses(w, w', o) && w.scope == w'.scope
    ensures SideGone(w', o, cr, side)
  {
    var c := ClusterOf(cr, side);
    forall rs | rs in Inventory(cr, side) && !KeepsCrd(cr, rs)
      ensures !w'.OwnedAt(w'.StatusAddr(c, rs), o)
    {
      assert w.StatusAddr(c, rs) == w'.StatusAddr(c, rs);
    }
  }

  /**
    Whoever else acts, deleting makes nobody own anything; an error-free seed, and a finished shoot,
    have nothing deletable left.
   */
  lemma TearDownLoses(w: World, o: string, cr: CR, reachable: bool, p: string)
    requires Tame(w) && p != ""
    ensures var t := TearDown(w, o, cr, reachable);
            && OnlyLoses(w, t.world, p)
            && (p == o && !t.seedErr ==> SideGone(t.world, o, cr, SeedSide))
            && (p == o && ShootDone(cr, reachable, t.shootErr) ==> SideGone(t.world, o, cr, ShootSide))
  {
    hide DeleteSide;
    hide TameOthers;
    hide SideGone;
    var t := TearDown(w, o, cr, reachable);
    if Pending(cr) && reachable {
      var first := if ShootFirst(cr) then SeedSide else ShootSide;
      var r1 := DeleteSide(w, o, cr, first);
      var r2 := DeleteSide(r1.world, o, cr, Other(first));
      DeleteSideLoses(w, o, cr, first, p);
      DeleteSideLoses(r1.world, o, cr, Other(first), p);
      assert t.world == r2.world;
      if p == o && !r1.err { SideGoneStays(r1.world, r2.world, o, cr, first); }
    } else {
      DeleteSideLoses(w, o, cr, SeedSide, p);
      if !Pending(cr) { NothingPending(t.world, o, cr); }
    }
  }

  lemma NothingPending(w: World, o: string, cr: CR)
    requires !Pending(cr)
    ensures SideGone(w, o, cr, ShootSide)
  {
  }

  /** Deleting only shrinks; an error-free seed, and a finished shoot, have nothing deletable left. */
  lemma TearDownFacts(w: LoneWorld, o: string, cr: CR, reachable: bool)
    ensures var t := TearDown(w, o, cr, reachable);
            && Lawful(w, t.world, cr, o) && Shrinks(w, t.world)
            && (!t.seedErr ==> SideGone(t.world, o, cr, SeedSide))
            && (ShootDone(cr, reachable, t.shootErr) ==> SideGone(t.world, o, cr, ShootSide))
  {
    hide DeleteSide;
    hide Lawful;
    var t := TearDown(w, o, cr, reachable);
    if Pending(cr) && reachable {
      var first := if ShootFirst(cr) then SeedSide else ShootSide;
      var r1 := DeleteSide(w, o, cr, first);
      var r2 := DeleteSide(r1.world, o, cr, Other(first));
      DeleteSideFacts(w, o, cr, first);
      DeleteSideFacts(r1.world, o, cr, Other(first));
      assert t.world == r2.world;
      LawfulTransitive(w, r1.world, r2.world, cr, o);
      assert r1.world.scope == r2.world.scope by { LawfulScope(r1.world, r2.world, cr, o); }
      if !r1.err {
        assert OnlyLoses(r1.world, r2.world, o);
        SideGoneStays(r1.world, r2.world, o, cr, first);
      }
    } else {
      DeleteSideFacts(w, o, cr, SeedSide);
    }
  }

  lemma LawfulScope(w: World, w': World, cr: CR, o: string)
    requires Lawful(w, w', cr, o)
    ensures w'.scope == w.scope && w'.crs == w.crs && w'.answers == w.answers && w.log <= w'.log
  {
  }

  /** The end of a deletion pass writes the resource only, and drops the finalizer only when it may. */
  lemma ConcludeFacts(t: TornDown, o: string, cr: CR, reachable: bool, status: CrStatus)
    requires o in t.world.crs
    ensures var w' := Conclude(t, o, cr, reachable, status).world; var was := t.world.crs[o];
            && OnlyWrites(t.world, w', o) && SameSpec(was, w'.crs[o])
            && (w'.crs[o].status == was.status || (w'.crs[o].status.seed == status.seed && w'.crs[o].status.shoot == status.shoot))
            && (w'.crs[o].finalizer ==> was.finalizer)
            && (was.finalizer && !w'.crs[o].finalizer ==>
                  !t.seedErr && (ShootDone(cr, reachable, t.shootErr) || cr.forceDelete))
  {
    hide SaveStatus;
    hide SaveFinalizer;
    SaveFinalizerFacts(t.world, o, false);
    var forced := SaveStatus(t.world, o, status.(cleanup := Some("ForceDeleted")));
    SaveStatusFacts(t.world, o, status.(cleanup := Some("ForceDeleted")));
    SaveFinalizerFacts(forced.world, o, false);
    SaveStatusFacts(t.world, o, status.(cleanup := Some("Blocked")));
  }

  lemma ConcludeAlone(t: TornDown, o: string, cr: CR, reachable: bool, status: CrStatus)
    requires NobodyElse(t.world.answers)
    ensures Conclude(t, o, cr, reachable, status).world.live == t.world.live
  {
    hide SaveStatus;
    hide SaveFinalizer;
    var forced, blocked := status.(cleanup := Some("ForceDeleted")), status.(cleanup := Some("Blocked"));
    SavesAlone(t.world, o, forced, false);
    SavesAlone(SaveStatus(t.world, o, forced).world, o, forced, false);
    SavesAlone(t.world, o, blocked, false);
  }

  lemma ConcludeLoses(t: TornDown, o: string, cr: CR, reachable: bool, status: CrStatus, p: string)
    requires Tame(t.world) && p != ""
    ensures OnlyLoses(t.world, Conclude(t, o, cr, reachable, status).world, p)
  {
    hide SaveStatus;
    hide SaveFinalizer;
    hide TameOthers;
    var forced, blocked := status.(cleanup := Some("ForceDeleted")), status.(cleanup := Some("Blocked"));
    SavesLose(t.world, o, forced, false, p);
    SavesLose(SaveStatus(t.world, o, forced).world, o, forced, false, p);
    SavesLose(t.world, o, blocked, false, p);
  }

  /** What a deletion pass leaves of the resource. */
  lemma DeletePassResource(w: World, o: string, cr: CR, reachable: bool)
    requires o in w.crs && w.crs[o] == cr
    ensures var w' := DeletePass(w, o, cr, reachable).world;
            && OnlyWrites(w, w', o) && SameSpec(cr, w'.crs[o])
            && w'.crs[o].status.seed == cr.status.seed && w'.crs[o].status.shoot == cr.status.shoot
            && (w'.crs[o].finalizer ==> cr.finalizer)
  {
    hide TearDown;
    hide SaveStatus;
    hide Conclude;
    var first := SaveStatus(w, o, MarkDeleting(cr));
    SaveStatusFacts(w, o, MarkDeleting(cr));
    if !first.outcome.Refused? {
      var t := TearDown(first.world, o, cr, reachable);
      assert Continues(first.world, t.world);
      ConcludeFacts(t, o, cr, reachable, MarkDeleting(cr));
      ConcludeFacts(t, o, cr, reachable, cr.status.(ready := Some(Condition(false, "ShootUnreachable"))));
    }
  }

  /**
    Whoever else acts, a deletion pass makes nobody own anything. When it drops the finalizer its
    owner has nothing deletable left on the seed, nor on the shoot unless the deletion was forced.
   */
  lemma DeletePassLoses(w: World, o: string, cr: CR, reachable: bool, p: string)
    requires o in w.crs && w.crs[o] == cr && Tame(w) && p != ""
    ensures var w' := DeletePass(w, o, cr, reachable).world;
            var done := ShootDone(cr, reachable, TearDown(Marked(w, o, cr), o, cr, reachable).shootErr);
            && OnlyLoses(w, w', p)
            && o in w'.crs
            && (p == o && cr.finalizer && !w'.crs[o].finalizer ==>
                  && SideGone(w', o, cr, SeedSide)
                  && (if done then SideGone(w', o, cr, ShootSide) else cr.forceDelete))
  {
    hide TearDown;
    hide SaveStatus;
    hide Conclude;
    hide SideGone;
    hide TameOthers;
    DeletePassResource(w, o, cr, reachable);
    var first := SaveStatus(w, o, MarkDeleting(cr));
    SaveStatusFacts(w, o, MarkDeleting(cr));
    SavesLose(w, o, MarkDeleting(cr), false, p);
    if !first.outcome.Refused? {
      var t := TearDown(first.world, o, cr, reachable);
      TearDownLoses(first.world, o, cr, reachable, p);
      ConcludeFacts(t, o, cr, reachable, MarkDeleting(cr));
      ConcludeLoses(t, o, cr, reachable, MarkDeleting(cr), p);
      var last := cr.status.(ready := Some(Condition(false, "ShootUnreachable")));
      ConcludeFacts(t, o, cr, reachable, last);
      ConcludeLoses(t, o, cr, reachable, last, p);
      var w' := DeletePass(w, o, cr, reachable).world;
      assert OnlyLoses(t.world, w', p) && w'.scope == t.world.scope;
      if p == o { SideGoneAlike(t.world, w', o, cr); }
    }
  }

  /**
    What a deletion pass does to the clusters. When it drops the finalizer nothing deletable is
    left on the seed, nor on the shoot unless the deletion was forced.
   */
  lemma DeletePassClusters(w: LoneWorld, o: string, cr: CR, reachable: bool)
    requires o in w.crs && w.crs[o] == cr
    ensures var w' := DeletePass(w, o, cr, reachable).world;
            var done := ShootDone(cr, reachable, TearDown(Marked(w, o, cr), o, cr, reachable).shootErr);
            && Shrinks(w, w') && Lawful(w, w'.(crs := w.crs), cr, o)
            && o in w'.crs
            && (cr.finalizer && !w'.crs[o].finalizer ==>
                  && SideGone(w', o, cr, SeedSide)
                  && (if done then SideGone(w', o, cr, ShootSide) else cr.forceDelete))
  {
    hide TearDown;
    hide SaveStatus;
    hide Conclude;
    hide SideGone;
    DeletePassResource(w, o, cr, reachable);
    var first := SaveStatus(w, o, MarkDeleting(cr));
    SaveStatusFacts(w, o, MarkDeleting(cr));
    SavesAlone(w, o, MarkDeleting(cr), false);
    if !first.outcome.Refused? {
      var t := TearDown(first.world, o, cr, reachable);
      TearDownFacts(first.world, o, cr, reachable);
      ConcludeFacts(t, o, cr, reachable, MarkDeleting(cr));
      ConcludeAlone(t, o, cr, reachable, MarkDeleting(cr));
      var last := cr.status.(ready := Some(Condition(false, "ShootUnreachable")));
      ConcludeFacts(t, o, cr, reachable, last);
      ConcludeAlone(t, o, cr, reachable, last);
      var w' := DeletePass(w, o, cr, reachable).world;
      assert w'.live == t.world.live && w'.scope == t.world.scope;
      SideGoneAlike(t.world, w', o, cr);
      LawfulAlike(w, first.world, t.world, w', cr, o);
    }
  }

  /** Writes to resources before and after do not change what is lawful on the clusters. */
  lemma LawfulAlike(w: World, first: World, last: World, w': World, cr: CR, o: string)
    requires OnlyResource(w, first, o) && Lawful(first, last, cr, o)
    requires w'.live == last.live && w'.scope == last.scope && w'.answers == last.answers && last.log <= w'.log
    ensures Lawful(w, w'.(crs := w.crs), cr, o)
  {
    forall a | SameAt(first, last, a) ensures SameAt(w, w'.(crs := w.crs), a) { }
    forall a | Foreign(w, a, o) ensures Foreign(first, a, o) { }
  }

  lemma SideGoneAlike(w: World, w': World, o: string, cr: CR)
    requires OnlyLoses(w, w', o) && w'.scope == w.scope
    ensures forall side :: SideGone(w, o, cr, side) ==> SideGone(w', o, cr, side)
  {
    forall side | SideGone(w, o, cr, side) ensures SideGone(w', o, cr, side) {
      SideGoneStays(w, w', o, cr, side);
    }
  }

  // ---------------------------------------------------------- The whole pass

  lemma TrackedAlike(w: World, w': World, o: string)
    requires w'.scope == w.scope && o in w.crs && o in w'.crs
    requires w'.crs[o].finalizer == w.crs[o].finalizer && w'.crs[o].shootId == w.crs[o].shootId
    requires w'.crs[o].status.seed == w.crs[o].status.seed && w'.crs[o].status.shoot == w.crs[o].status.shoot
    ensures Tracked(w', o) == Tracked(w, o)
  {
    AddrsSameScope(w, w', Seed, w.crs[o].status.seed);
    AddrsSameScope(w, w', Shoot(w.crs[o].shootId), w.crs[o].status.shoot);
  }

  /** A pass of `o` writes no other resource, and its own resource only in status and finalizer. */
  lemma PassResource(w: World, o: string, input: Input)
    ensures var w' := Pass(w, o, input).world;
            && OnlyWrites(w, w', o)
            && (o in w.crs ==> SameSpec(w.crs[o], w'.crs[o]))
            && (o !in w.crs ==> w' == w)
  {
    hide Settle;
    hide DeletePass;
    hide SaveStatus;
    hide SaveFinalizer;
    hide PlanOf;
    if o in w.crs && !input.readFails {
      var cr := w.crs[o];
      if cr.deleting {
        DeletePassResource(w, o, cr, input.phase == Ready);
      } else if !cr.finalizer {
        SaveFinalizerFacts(w, o, true);
      } else if PlanOf(input).PlanFailed? {
        SaveStatusFacts(w, o, cr.status.(ready := Some(Condition(false, PlanOf(input).reason))));
      } else {
        var s := Settle(w, PassJob(w, o, input), input.phase);
        SaveStatusFacts(s.draft.world, o, cr.status.(seed := s.seed, shoot := s.shoot, ready := Some(s.ready)));
      }
    }
  }

  /** Whoever else acts, a pass of `o` makes no other owner own anything. */
  lemma PassLoses(w: World, o: string, input: Input, p: string)
    requires Tame(w) && p != "" && p != o
    ensures OnlyLoses(w, Pass(w, o, input).world, p)
  {
    hide Settle;
    hide DeletePass;
    hide SaveStatus;
    hide SaveFinalizer;
    hide PlanOf;
    hide TameOthers;
    if o in w.crs && !input.readFails {
      var cr := w.crs[o];
      if cr.deleting {
        DeletePassLoses(w, o, cr, input.phase == Ready, p);
      } else if !cr.finalizer {
        SavesLose(w, o, cr.status, true, p);
      } else if PlanOf(input).PlanFailed? {
        SavesLose(w, o, cr.status.(ready := Some(Condition(false, PlanOf(input).reason))), true, p);
      } else {
        var job := PassJob(w, o, input);
        var s := Settle(w, job, input.phase);
        SettleLoses(w, job, input.phase, p);
        SavesLose(s.draft.world, o, cr.status.(seed := s.seed, shoot := s.shoot, ready := Some(s.ready)), true, p);
      }
    }
  }

  /** Alone, a pass acts lawfully on the clusters. */
  lemma PassLawful(w: LoneWorld, o: string, input: Input)
    ensures var w' := Pass(w, o, input).world;
            && OnlyWrites(w, w', o)
            && (o in w.crs ==> Lawful(w, w'.(crs := w.crs), w.crs[o], o) && SameSpec(w.crs[o], w'.crs[o]))
            && (o !in w.crs ==> w' == w)
  {
    PassResource(w, o, input);
    hide Settle;
    hide DeletePass;
    hide SaveStatus;
    hide SaveFinalizer;
    hide PlanOf;
    if o in w.crs && !input.readFails {
      var cr := w.crs[o];
      LawfulRefl(w, cr, o);
      if cr.deleting {
        DeletePassResource(w, o, cr, input.phase == Ready);
        DeletePassClusters(w, o, cr, input.phase == Ready);
      } else if !cr.finalizer {
        SaveFinalizerFacts(w, o, true);
        SavesAlone(w, o, cr.status, true);
        LawfulAlike(w, w, w, SaveFinalizer(w, o, true).world, cr, o);
      } else if PlanOf(input).PlanFailed? {
        var st := cr.status.(ready := Some(Condition(false, PlanOf(input).reason)));
        SaveStatusFacts(w, o, st);
        SavesAlone(w, o, st, true);
        LawfulAlike(w, w, w, SaveStatus(w, o, st).world, cr, o);
      } else {
        var job := PassJob(w, o, input);
        var s := Settle(w, job, input.phase);
        SettleLawful(w, job, input.phase);
        var st := cr.status.(seed := s.seed, shoot := s.shoot, ready := Some(s.ready));
        SaveStatusFacts(s.draft.world, o, st);
        SavesAlone(s.draft.world, o, st, true);
        LawfulAlike(w, w, s.draft.world, SaveStatus(s.draft.world, o, st).world, cr, o);
      }
    } else if o in w.crs {
      LawfulRefl(w, w.crs[o], o);
    }
  }

  lemma SettleLawful(w: LoneWorld, job: Job, phase: Phase)
    ensures Lawful(w, Settle(w, job, phase).draft.world, job.cr, job.owner)
  {
    SettleMoves(w, job, phase);
  }

  /**
    Whoever else acts, as long as nobody else stamps owner labels, a pass keeps its owner's
    accounting: whatever it stops tracking is gone, or released for one of the three stated reasons.
   */
  lemma PassAccounted(w: World, o: string, input: Input, released: set<Addr>)
    requires Tame(w) && o != "" && Accounted(w, o, released)
    ensures Accounted(Pass(w, o, input).world, o, released + Released(w, o, input))
  {
    if Delivers(w, o, input) {
      DeliveryAccounted(w, o, input, released);
    } else if Deletes(w, o, input) {
      DeletionAccounted(w, o, input, released);
    } else if o in w.crs && !input.readFails {
      var cr := w.crs[o];
      if !cr.finalizer {
        hide SaveFinalizer;
        SaveFinalizerFacts(w, o, true);
        SavesLose(w, o, cr.status, true, o);
      } else {
        hide SaveStatus;
        var st := cr.status.(ready := Some(Condition(false, PlanOf(input).reason)));
        SaveStatusFacts(w, o, st);
        SavesLose(w, o, st, true, o);
        TrackedAlike(w, SaveStatus(w, o, st).world, o);
      }
    }
  }

  lemma DeliveryAccounted(w: World, o: string, input: Input, released: set<Addr>)
    requires Tame(w) && o != "" && Accounted(w, o, released) && Delivers(w, o, input)
    ensures Accounted(Pass(w, o, input).world, o, released + Released(w, o, input))
  {
    hide Settle;
    hide SaveStatus;
    hide PlanOf;
    hide Addrs;
    hide KeptCrds;
    hide SideSettled;
    hide KnownBefore;
    hide TameOthers;
    var job := PassJob(w, o, input);
    var s := Settle(w, job, input.phase);
    var w' := Pass(w, o, input).world;
    AccountedIsKnown(w, job, released);
    SettleAccounted(w, job, input.phase, released);
    var st := job.cr.status.(seed := s.seed, shoot := s.shoot, ready := Some(s.ready));
    SaveStatusFacts(s.draft.world, o, st);
    SavesLose(s.draft.world, o, st, true, o);
    forall c | c != Seed && c != Shoot(job.cr.shootId) ensures LosesOn(w, s.draft.world, o, c) {
      SettleStaysOn(w, job, input.phase, c);
    }
    if Recorded(w', o) {
      RecordedDelivery(w, w', job, s, released, KeptBy(w, o, input));
    } else {
      TrackedAlike(w, w', o);
      forall a | w'.OwnedAt(a, o) ensures a in released + Released(w, o, input) || a in Tracked(w', o) {
        if !w.OwnedAt(a, o) { assert a in NewlyOwned(w, w', o); }
      }
    }
  }

  lemma DeletionAccounted(w: World, o: string, input: Input, released: set<Addr>)
    requires Tame(w) && o != "" && Accounted(w, o, released) && Deletes(w, o, input)
    ensures Accounted(Pass(w, o, input).world, o, released + Released(w, o, input))
  {
    hide DeletePass;
    hide TameOthers;
    hide TearDown;
    var cr, w' := w.crs[o], Pass(w, o, input).world;
    DeletePassResource(w, o, cr, input.phase == Ready);
    DeletePassLoses(w, o, cr, input.phase == Ready, o);
    if cr.finalizer == w'.crs[o].finalizer {
      TrackedAlike(w, w', o);
    } else {
      assert Unguards(w, o, input);
      forall a | w'.OwnedAt(a, o) ensures a in released + Released(w, o, input) {
        assert w.OwnedAt(a, o);
        if a !in released { UnguardedEntry(w, o, input, a); }
      }
    }
  }

  /** When the finalizer goes, a tracked object that is still there was a kept CRD or given up by force. */
  lemma UnguardedEntry(w: World, o: string, input: Input, a: Addr)
    requires Tame(w) && o != "" && Unguards(w, o, input) && a in Tracked(w, o)
    requires Pass(w, o, input).world.OwnedAt(a, o)
    ensures a in KeptBy(w, o, input) + ForcedBy(w, o, input)
  {
    hide DeletePass;
    hide TameOthers;
    hide TearDown;
    hide StatusIdentity;
    hide StatusIdentityKey;
    hide Acceptable;
    hide Settle;
    hide OnlyLoses;
    var cr, w' := w.crs[o], Pass(w, o, input).world;
    DeletePassResource(w, o, cr, input.phase == Ready);
    DeletePassLoses(w, o, cr, input.phase == Ready, o);
    if a in Addrs(w, Seed, cr.status.seed) {
      var rs :| rs in cr.status.seed && Acceptable(StatusIdentity(rs)) && w.StatusAddr(Seed, rs) == a;
      assert rs in Inventory(cr, SeedSide) && w'.StatusAddr(Seed, rs) == a;
      assert a in KeptCrds(w, cr, SeedSide, {});
    } else if ShootFinished(w, o, input) {
      var c := Shoot(cr.shootId);
      var rs :| rs in cr.status.shoot && Acceptable(StatusIdentity(rs)) && w.StatusAddr(c, rs) == a;
      assert rs in Inventory(cr, ShootSide) && w'.StatusAddr(c, rs) == a;
      assert a in KeptCrds(w, cr, ShootSide, {});
    }
  }

  // ----------------------------------------------------------- The footprint

  /** A delivery changes nothing but rendered manifests put in place and orphans taken away. */
  lemma DeliveryFootprint(w: LoneWorld, o: string, input: Input)
    requires Delivers(w, o, input)
    ensures Footprint(w, Pass(w, o, input).world, PassJob(w, o, input), PassKeys(w, o, input))
  {
    hide Settle;
    hide SaveStatus;
    hide PlanOf;
    hide Lawful;
    var job := PassJob(w, o, input);
    var s := Settle(w, job, input.phase);
    SettleMoves(w, job, input.phase);
    SavesAlone(s.draft.world, o, job.cr.status.(seed := s.seed, shoot := s.shoot, ready := Some(s.ready)), true);
    var w', keys := Pass(w, o, input).world, s.draft.AllKeys();
    forall a ensures Explained(w, w', job, keys, a) {
      assert Explained(w, s.draft.world, job, keys, a);
      if side, m :| PlacedBy(w, s.draft.world, job, side, m, a) {
        assert PlacedBy(w, w', job, side, m, a);
      }
    }
  }

  /** What a lost status write loses are manifests of that very pass. */
  lemma LostAreRendered(w: LoneWorld, o: string, input: Input, a: Addr)
    requires a in LostBy(w, o, input)
    ensures Delivers(w, o, input)
    ensures exists side, m :: PlacedBy(w, Pass(w, o, input).world, PassJob(w, o, input), side, m, a)
  {
    hide Pass;
    DeliveryFootprint(w, o, input);
    assert Explained(w, Pass(w, o, input).world, PassJob(w, o, input), PassKeys(w, o, input), a);
  }

  // --------------------------------------------------------------- Retention

  lemma ShrunkCrd(w: World, o: string, cr: CR, side: Side, rs: ResourceStatus, a: Addr)
    requires cr.crdPolicy != "Delete" && a == w.StatusAddr(ClusterOf(cr, side), rs) && !KeepsCrd(cr, rs)
    ensures a.id.kind != "CustomResourceDefinition"
  {
  }

  /** Unless the policy says Delete, a delivery takes no CRD away. */
  lemma DeliveryKeepsCrds(w: LoneWorld, o: string, input: Input, a: Addr)
    requires Delivers(w, o, input) && w.crs[o].crdPolicy != "Delete"
    requires a in w.live && a.id.kind == "CustomResourceDefinition"
    ensures a in Pass(w, o, input).world.live
  {
    hide Pass;
    hide PlanOf;
    var job, w' := PassJob(w, o, input), Pass(w, o, input).world;
    DeliveryFootprint(w, o, input);
    assert Explained(w, w', job, PassKeys(w, o, input), a);
    if side, rs :| OrphanedAt(w, job, PassKeys(w, o, input), side, rs, a) { ShrunkCrd(w, o, job.cr, side, rs, a); }
  }

  /** Under the policy Delete no CRD is released: each one that leaves the inventory is gone. */
  lemma DeletePolicyKeepsNothing(w: World, o: string, input: Input)
    requires o in w.crs && w.crs[o].crdPolicy == "Delete"
    ensures KeptBy(w, o, input) == {}
  {
    hide Pass;
    hide Settle;
    hide PlanOf;
    forall side, keys ensures KeptCrds(w, w.crs[o], side, keys) == {} { }
  }
}

/** Progress of deletion: what each deletion pass achieves, and what can hold it up. */
module Teardown {
  import opened Trees
  import opened Manifests
  import opened Ordering
  import opened Api
  import opened Deliver
  import opened Controller
  import opened Effects
  import opened Retention
  import opened Accounting
  import opened Passes
  import opened Trace

  // ---------------------------------------------------------------- Counting

  /** How many deletes in `log`, from position `lo` on, took effect. */
  ghost function Drops(log: seq<Event>, lo: nat): nat {
    if |log| <= lo then 0
    else Drops(Init(log), lo) + if Last(log).Deleted? && Last(log).effect then 1 else 0
  }

  lemma {:induction false} DropsSplit(log: seq<Event>, mid: nat, lo: nat)
    requires lo <= mid <= |log|
    ensures Drops(log, lo) == Drops(log[..mid], lo) + Drops(log, mid)
  {
    if |log| == mid {
      assert log[..mid] == log;
    } else {
      assert Init(log)[..mid] == log[..mid];
      DropsSplit(Init(log), mid, lo);
    }
  }

  /** The live objects shrink by exactly the deletes that took effect. */
  ghost predicate Balanced(w: World, w': World) {
    && w.log <= w'.log && Shrinks(w, w')
    && |w.live| == |w'.live| + Drops(w'.log, |w.log|)
  }

  lemma BalancedTransitive(w: World, w1: World, w2: World)
    requires Balanced(w, w1) && Balanced(w1, w2)
    ensures Balanced(w, w2)
  {
    DropsSplit(w2.log, |w1.log|, |w.log|);
    assert w2.log[..|w1.log|] == w1.log;
  }

  lemma SavesBalanced(w: LoneWorld, o: string, st: CrStatus, present: bool)
    ensures Balanced(w, w)
    ensures Balanced(w, SaveStatus(w, o, st).world)
    ensures Balanced(w, SaveFinalizer(w, o, present).world)
  {
    var w1, w2 := SaveStatus(w, o, st).world, SaveFinalizer(w, o, present).world;
    assert Init(w1.log) == w.log && Init(w2.log) == w.log;
  }

  lemma GetBalanced(w: LoneWorld, a: Addr)
    ensures Balanced(w, Get(w, a).world)
  {
    assert Init(Get(w, a).world.log) == w.log;
  }

  lemma DeleteBalanced(w: LoneWorld, a: Addr, o: string)
    ensures Balanced(w, Delete(w, a, o).world)
  {
    hide NobodyElse;
    MetAlone(w);
    var w' := Delete(w, a, o).world;
    assert Init(w'.log) == w.log;
    assert w'.live == w.live || (a in w.live && w'.live == w.live - {a} && Last(w'.log).effect);
    assert Drops(w'.log, |w.log|) == Drops(w.log, |w.log|) + if Last(w'.log).effect then 1 else 0;
    assert a in w.live ==> (w.live - {a}).Keys == w.live.Keys - {a};
  }

  lemma DeleteOwnedBalanced(w: LoneWorld, c: Cluster, m: Manifest, o: string)
    ensures Balanced(w, DeleteOwned(w, c, m, o).world)
  {
    hide Balanced;
    hide Delete;
    var a := w.AddrOf(c, m);
    var g := Get(w, a);
    GetBalanced(w, a);
    DeleteBalanced(g.world, a, o);
    BalancedTransitive(w, g.world, Delete(g.world, a, o).world);
  }

  lemma {:induction false} DeleteAllBalanced(w: LoneWorld, c: Cluster, es: seq<ResourceStatus>, cr: CR, o: string)
    ensures Balanced(w, DeleteAll(w, c, es, cr, o).world)
  {
    hide DeleteOwned;
    if es != [] {
      DeleteAllBalanced(w, c, Init(es), cr, o);
      var before := DeleteAll(w, c, Init(es), cr, o).world;
      if !KeepsCrd(cr, Last(es)) {
        DeleteOwnedBalanced(before, c, ManifestFromStatus(Last(es)), o);
        BalancedTransitive(w, before, DeleteAll(w, c, es, cr, o).world);
      }
    }
  }

  lemma TearDownBalanced(w: LoneWorld, o: string, cr: CR, reachable: bool)
    ensures Balanced(w, TearDown(w, o, cr, reachable).world)
  {
    hide DeleteAll;
    hide Balanced;
    var seed := StatusForDelete(cr.status.seed);
    var shoot := StatusForDelete(cr.status.shoot);
    var c := Shoot(cr.shootId);
    DeleteAllBalanced(w, Seed, seed, cr, o);
    DeleteAllBalanced(w, c, shoot, cr, o);
    var w1, w2 := DeleteAll(w, Seed, seed, cr, o).world, DeleteAll(w, c, shoot, cr, o).world;
    DeleteAllBalanced(w1, c, shoot, cr, o);
    DeleteAllBalanced(w2, Seed, seed, cr, o);
    BalancedTransitive(w, w1, DeleteAll(w1, c, shoot, cr, o).world);
    BalancedTransitive(w, w2, DeleteAll(w2, Seed, seed, cr, o).world);
  }

  lemma DeletePassBalanced(w: LoneWorld, o: string, cr: CR, reachable: bool)
    ensures Balanced(w, DeletePass(w, o, cr, reachable).world)
  {
    hide SaveStatus;
    hide SaveFinalizer;
    hide TearDown;
    hide Balanced;
    var first := SaveStatus(w, o, MarkDeleting(cr)).world;
    SavesBalanced(w, o, MarkDeleting(cr), false);
    var t := TearDown(first, o, cr, reachable).world;
    TearDownBalanced(first, o, cr, reachable);
    BalancedTransitive(w, first, t);
    var end := DeletePass(w, o, cr, reachable).world;
    ConcludeBalanced(TearDown(first, o, cr, reachable), o, cr, reachable, MarkDeleting(cr));
    ConcludeBalanced(TearDown(first, o, cr, reachable), o, cr, reachable,
                     cr.status.(ready := Some(Condition(false, "ShootUnreachable"))));
    if !SaveStatus(w, o, MarkDeleting(cr)).outcome.Refused? { BalancedTransitive(w, t, end); }
  }

  lemma ConcludeBalanced(t: TornDown, o: string, cr: CR, reachable: bool, status: CrStatus)
    requires NobodyElse(t.world.answers)
    ensures Balanced(t.world, Conclude(t, o, cr, reachable, status).world)
  {
    hide SaveStatus;
    hide SaveFinalizer;
    hide Balanced;
    var forced := status.(cleanup := Some("ForceDeleted"));
    SavesBalanced(t.world, o, forced, false);
    SavesBalanced(t.world, o, status.(cleanup := Some("Blocked")), false);
    var w1 := SaveStatus(t.world, o, forced).world;
    SavesBalanced(w1, o, status, false);
    BalancedTransitive(t.world, w1, SaveFinalizer(w1, o, false).world);
  }

  // ------------------------------------------------------ The progress measure

  ghost predicate Deletable(w: World, cr: CR, a: Addr) {
    exists side, rs :: rs in Inventory(cr, side) && !KeepsCrd(cr, rs) && a == w.StatusAddr(ClusterOf(cr, side), rs)
  }

  /** What is left to delete: live, owned, and in the inventory as a deletable entry. */
  ghost function Remaining(w: World, o: string, cr: CR): set<Addr> {
    set a | a in w.live && Owner(w.live[a]) == o && Deletable(w, cr, a)
  }

  lemma DeleteSideRemoves(w: LoneWorld, o: string, cr: CR, side: Side, a: Addr)
    requires a in w.live && a !in DeleteSide(w, o, cr, side).world.live
    ensures w.OwnedAt(a, o) && Deletable(w, cr, a)
  {
    hide DeleteAll;
    var c, es := ClusterOf(cr, side), StatusForDelete(Inventory(cr, side));
    DeleteAllEffect(w, c, es, cr, o);
    OrderFacts([], Inventory(cr, side));
    var rs :| rs in es && !KeepsCrd(cr, rs) && a == w.StatusAddr(c, rs);
    assert rs in Inventory(cr, side);
  }

  /** Teardown removes nothing but what was left to delete. */
  lemma TearDownRemoves(w: LoneWorld, o: string, cr: CR, reachable: bool, a: Addr)
    requires a in w.live && a !in TearDown(w, o, cr, reachable).world.live
    ensures a in Remaining(w, o, cr)
  {
    hide DeleteSide;
    hide Lawful;
    hide SideGone;
    if Pending(cr) && reachable {
      var first := if ShootFirst(cr) then SeedSide else ShootSide;
      var w1 := DeleteSide(w, o, cr, first).world;
      DeleteSideFacts(w, o, cr, first);
      LawfulScope(w, w1, cr, o);
      if a in w1.live {
        DeleteSideRemoves(w1, o, cr, Other(first), a);
        DeletableAlike(w1, w, cr, a);
      } else {
        DeleteSideRemoves(w, o, cr, first, a);
      }
    } else {
      DeleteSideRemoves(w, o, cr, SeedSide, a);
    }
  }

  lemma DeletableAlike(w: World, w': World, cr: CR, a: Addr)
    requires w.scope == w'.scope && Deletable(w, cr, a)
    ensures Deletable(w', cr, a)
  {
    var side, rs :| rs in Inventory(cr, side) && !KeepsCrd(cr, rs) && a == w.StatusAddr(ClusterOf(cr, side), rs);
    assert a == w'.StatusAddr(ClusterOf(cr, side), rs);
  }

  /** The measure never rises, and drops by exactly the deletes that took effect in the pass. */
  lemma DeletePassProgress(w: LoneWorld, o: string, cr: CR, reachable: bool)
    requires o in w.crs && w.crs[o] == cr
    ensures var w' := DeletePass(w, o, cr, reachable).world;
            && Remaining(w', o, cr) <= Remaining(w, o, cr)
            && |Remaining(w, o, cr)| == |Remaining(w', o, cr)| + Drops(w'.log, |w.log|)
  {
    hide DeletePass;
    hide Deletable;
    hide Remaining;
    var w' := DeletePass(w, o, cr, reachable).world;
    DeletePassBalanced(w, o, cr, reachable);
    DeletePassResource(w, o, cr, reachable);
    var gone := w.live.Keys - w'.live.Keys;
    forall a | a in gone ensures a in Remaining(w, o, cr) { DeletePassRemoves(w, o, cr, reachable, a); }
    RemainingLess(w, w', o, cr);
    assert w'.live.Keys <= w.live.Keys;
    assert |w.live.Keys| == |w'.live.Keys| + |gone|;
  }

  /** What remains after objects were only taken away is what remained before and was not taken. */
  lemma RemainingLess(w: World, w': World, o: string, cr: CR)
    requires Shrinks(w, w') && w'.scope == w.scope
    ensures Remaining(w', o, cr) == Remaining(w, o, cr) - (w.live.Keys - w'.live.Keys)
  {
    hide Deletable;
    forall a | a in w'.live ensures Deletable(w, cr, a) <==> Deletable(w', cr, a) {
      if Deletable(w, cr, a) { DeletableAlike(w, w', cr, a); }
      if Deletable(w', cr, a) { DeletableAlike(w', w, cr, a); }
    }
  }

  lemma DeletePassRemoves(w: LoneWorld, o: string, cr: CR, reachable: bool, a: Addr)
    requires o in w.crs && w.crs[o] == cr
    requires a in w.live && a !in DeletePass(w, o, cr, reachable).world.live
    ensures a in Remaining(w, o, cr)
  {
    hide SaveStatus;
    hide TearDown;
    hide Conclude;
    var first := SaveStatus(w, o, MarkDeleting(cr));
    SavesAlone(w, o, MarkDeleting(cr), false);
    var t := TearDown(first.world, o, cr, reachable);
    TearDownFacts(first.world, o, cr, reachable);
    ConcludeAlone(t, o, cr, reachable, MarkDeleting(cr));
    ConcludeAlone(t, o, cr, reachable, cr.status.(ready := Some(Condition(false, "ShootUnreachable"))));
    TearDownRemoves(first.world, o, cr, reachable, a);
    DeletableAlike(first.world, w, cr, a);
  }

  // ----------------------------------------------------- Attempts despite errors

  /** The pass goes on to delete: its first status write is served, or finds the resource gone. */
  predicate Starts(w: World) { w.Next().fault.Fine? || w.Next().fault.NoMatch? }

  /** The seed is always walked, the shoot only if something is pending there and it can be reached. */
  ghost predicate Walks(cr: CR, reachable: bool, side: Side) { side == SeedSide || (Pending(cr) && reachable) }

  /** The world in which a deletion pass starts on the inventory of `side`; the side applied first goes last. */
  ghost function SideStart(w: World, o: string, cr: CR, reachable: bool, side: Side): (start: World)
    ensures start.answers == w.answers
  {
    var first := Marked(w, o, cr);
    if Walks(cr, reachable, Other(side)) && side == FirstSide(cr) then DeleteSide(first, o, cr, Other(side)).world else first
  }

  /** Some entry of `side` cannot be read, or is owned and cannot be deleted. */
  ghost predicate SideFails(w: World, o: string, cr: CR, reachable: bool, side: Side) {
    exists k: nat :: FailsAt(SideStart(w, o, cr, reachable, side), ClusterOf(cr, side),
                             StatusForDelete(Inventory(cr, side)), cr, o, k)
  }

  lemma DeleteSideRequests(w: LoneWorld, o: string, cr: CR, side: Side)
    ensures var w' := DeleteSide(w, o, cr, side).world;
            && w.log <= w'.log && (forall i :: |w.log| <= i < |w'.log| ==> OnCluster(w'.log[i], ClusterOf(cr, side)))
            && NoDeletesOn(w, w', ClusterOf(cr, Other(side)))
            && w'.answers == w.answers && w'.scope == w.scope && w'.crs == w.crs
  {
    hide DeleteAll;
    OrderFacts([], Inventory(cr, side));
    DeleteAllActs(w, ClusterOf(cr, side), StatusForDelete(Inventory(cr, side)), cr, o);
    DeleteAllEffect(w, ClusterOf(cr, side), StatusForDelete(Inventory(cr, side)), cr, o);
  }

  /** The two walks of a teardown, each from where it starts. */
  lemma TearDownSides(w: World, o: string, cr: CR, reachable: bool)
    ensures var t := TearDown(Marked(w, o, cr), o, cr, reachable);
            var seed := DeleteSide(SideStart(w, o, cr, reachable, SeedSide), o, cr, SeedSide);
            var shoot := DeleteSide(SideStart(w, o, cr, reachable, ShootSide), o, cr, ShootSide);
            && t.seedErr == seed.err
            && t.shootErr == (Walks(cr, reachable, ShootSide) && shoot.err)
            && t.world == if Walks(cr, reachable, ShootSide) && ShootFirst(cr) then shoot.world else seed.world
  {
    hide DeleteSide;
    hide SaveStatus;
    hide Pending;
  }

  lemma TearDownErrsIff(w: LoneWorld, o: string, cr: CR, reachable: bool)
    ensures var t := TearDown(Marked(w, o, cr), o, cr, reachable);
            && (t.seedErr <==> SideFails(w, o, cr, reachable, SeedSide))
            && (t.shootErr <==> Walks(cr, reachable, ShootSide) && SideFails(w, o, cr, reachable, ShootSide))
  {
    hide DeleteAll;
    hide SideStart;
    hide Marked;
    hide TearDown;
    hide FailsAt;
    hide Pending;
    TearDownSides(w, o, cr, reachable);
    forall side {
      DeleteAllErrsIff(SideStart(w, o, cr, reachable, side), ClusterOf(cr, side), StatusForDelete(Inventory(cr, side)), cr, o);
    }
  }

  /** The end of a deletion pass sends nothing to the clusters. */
  lemma ConcludeRequests(t: TornDown, o: string, cr: CR, reachable: bool, status: CrStatus)
    ensures var w' := Conclude(t, o, cr, reachable, status).world;
            t.world.log <= w'.log && forall i :: |t.world.log| <= i < |w'.log| ==> w'.log[i].WroteStatus? || w'.log[i].WroteFinalizer?
  {
  }

  /** Where the walk of a side lies in the log of its pass. */
  lemma WalkInPass(w: LoneWorld, o: string, cr: CR, reachable: bool, side: Side)
    requires o in w.crs && w.crs[o] == cr && Starts(w) && Walks(cr, reachable, side)
    ensures var start := SideStart(w, o, cr, reachable, side); var c := ClusterOf(cr, side);
            var end, w' := DeleteSide(start, o, cr, side).world, DeletePass(w, o, cr, reachable).world;
            NoDeletesOn(w, start, c) && start.log <= end.log && NoDeletesOn(end, w', c)
  {
    hide SaveStatus;
    hide DeleteSide;
    hide Conclude;
    hide TearDown;
    hide Pending;
    var first := Marked(w, o, cr);
    var start, c := SideStart(w, o, cr, reachable, side), ClusterOf(cr, side);
    var end := DeleteSide(start, o, cr, side).world;
    var t := TearDown(first, o, cr, reachable);
    assert first.log == w.log + [Last(first.log)] && Last(first.log).WroteStatus? && Starts(w) by {
      MarkedLog(w, o, cr);
    }
    DeleteSideRequests(start, o, cr, side);
    DeleteSideRequests(first, o, cr, Other(side));
    DeleteSideRequests(end, o, cr, Other(side));
    TearDownSides(w, o, cr, reachable);
    assert NoDeletesOn(w, start, c);
    assert t.world == end || (t.world == DeleteSide(end, o, cr, Other(side)).world && end.log <= t.world.log);
    assert NoDeletesOn(end, t.world, c);
    MarkedOutcome(w, o, cr);
    ConcludeRequests(t, o, cr, reachable, MarkDeleting(cr));
    ConcludeRequests(t, o, cr, reachable, cr.status.(ready := Some(Condition(false, "ShootUnreachable"))));
    var w' := DeletePass(w, o, cr, reachable).world;
    assert NoDeletesOn(t.world, w', c);
    NoDeletesTransitive(end, t.world, w', c);
  }

  lemma MarkedLog(w: LoneWorld, o: string, cr: CR)
    ensures var first := Marked(w, o, cr); first.log == w.log + [Last(first.log)] && Last(first.log).WroteStatus?
    ensures Marked(w, o, cr).answers == w.answers && Marked(w, o, cr).scope == w.scope && Marked(w, o, cr).live == w.live
  {
  }

  lemma MarkedOutcome(w: World, o: string, cr: CR)
    requires o in w.crs
    ensures Starts(w) <==> !SaveStatus(w, o, MarkDeleting(cr)).outcome.Refused?
  {
  }

  /**
    Every deletable entry of a walked side is asked for, whatever happened to the entries before it,
    and the deletes sent to that side are exactly those of the entries that read back live and
    owned. A side that is not walked sees no request.
   */
  lemma DeletePassAttempts(w: LoneWorld, o: string, cr: CR, reachable: bool, side: Side)
    requires o in w.crs && w.crs[o] == cr && Starts(w)
    ensures var log := DeletePass(w, o, cr, reachable).world.log;
            var c, es := ClusterOf(cr, side), StatusForDelete(Inventory(cr, side));
            var start := SideStart(w, o, cr, reachable, side);
            if Walks(cr, reachable, side)
            then ReadsAll(|w.log|, log, start, c, es, cr, o) && DropsExactly(|w.log|, log, start, c, es, cr, o)
            else forall i :: |w.log| <= i < |log| ==> !OnCluster(log[i], c)
  {
    hide DeletePass;
    hide DeleteAll;
    hide SideStart;
    hide ReadsAt;
    hide DropsAt;
    hide Pending;
    var start, c, es := SideStart(w, o, cr, reachable, side), ClusterOf(cr, side), StatusForDelete(Inventory(cr, side));
    var w' := DeletePass(w, o, cr, reachable).world;
    if Walks(cr, reachable, side) {
      var end := DeleteAll(start, c, es, cr, o).world;
      WalkInPass(w, o, cr, reachable, side);
      DeleteAllReads(start, c, es, cr, o);
      DeleteAllDrops(start, c, es, cr, o);
      DeletesWithin(w, start, end, w', c);
    } else {
      SeedOnly(w, o, cr, reachable);
    }
  }

  lemma SeedOnly(w: LoneWorld, o: string, cr: CR, reachable: bool)
    requires o in w.crs && w.crs[o] == cr && Starts(w) && !Walks(cr, reachable, ShootSide)
    ensures var log := DeletePass(w, o, cr, reachable).world.log;
            forall i :: |w.log| <= i < |log| ==> !OnCluster(log[i], Shoot(cr.shootId))
  {
    hide SaveStatus;
    hide DeleteSide;
    hide Conclude;
    hide Pending;
    var first := Marked(w, o, cr);
    MarkedLog(w, o, cr);
    MarkedOutcome(w, o, cr);
    DeleteSideRequests(first, o, cr, SeedSide);
    var t := TearDown(first, o, cr, reachable);
    ConcludeRequests(t, o, cr, reachable, MarkDeleting(cr));
    ConcludeRequests(t, o, cr, reachable, cr.status.(ready := Some(Condition(false, "ShootUnreachable"))));
  }

  // ------------------------------------------------------- Completion, blocking

  predicate TakesEffect(f: Fault) { f.Fine? || f.FailedAfterEffect? }

  /** What of the shoot would keep the finalizer on: something is pending, and not all of it could be deleted. */
  ghost predicate ShootBlocks(w: World, o: string, cr: CR, reachable: bool) {
    Pending(cr) && !(reachable && !SideFails(w, o, cr, reachable, ShootSide))
  }

  /** The world in which a deletion pass comes to write the finalizer list. */
  ghost function Concluding(w: World, o: string, cr: CR, reachable: bool): World {
    TearDown(Marked(w, o, cr), o, cr, reachable).world
  }

  /**
    Exactly when a deletion pass takes the finalizer off: the first status write is not refused, no
    seed entry fails, nothing of the shoot blocks or the deletion is forced, and the finalizer write
    takes effect. And exactly when it returns an error: blocked by the shoot alone it does not.
   */
  lemma FinalizerGoesIff(w: LoneWorld, o: string, cr: CR, reachable: bool)
    requires o in w.crs && w.crs[o] == cr
    ensures var w' := DeletePass(w, o, cr, reachable).world; var end := Concluding(w, o, cr, reachable);
            var blocks := ShootBlocks(w, o, cr, reachable);
            && (DeletePass(w, o, cr, reachable).err <==>
                  || !Starts(w) || SideFails(w, o, cr, reachable, SeedSide)
                  || !Ahead(end, if blocks && cr.forceDelete then 1 else 0).Fine?)
            && o in w'.crs
            && (w'.crs[o].finalizer <==>
                  && cr.finalizer
                  && !(&& Starts(w) && !SideFails(w, o, cr, reachable, SeedSide) && (blocks ==> cr.forceDelete)
                       && TakesEffect(Ahead(end, if blocks then 1 else 0))))
  {
    hide TearDown;
    hide SideFails;
    hide Pending;
    hide Lawful;
    hide SideGone;
    var first := Marked(w, o, cr);
    SaveStatusFacts(w, o, MarkDeleting(cr));
    MarkedOutcome(w, o, cr);
    MarkedLog(w, o, cr);
    var t := TearDown(first, o, cr, reachable);
    TearDownFacts(first, o, cr, reachable);
    LawfulScope(first, t.world, cr, o);
    TearDownErrsIff(w, o, cr, reachable);
    ConcludeFinalizer(t, o, cr, reachable, MarkDeleting(cr));
    ConcludeFinalizer(t, o, cr, reachable, cr.status.(ready := Some(Condition(false, "ShootUnreachable"))));
  }

  lemma ConcludeFinalizer(t: TornDown, o: string, cr: CR, reachable: bool, status: CrStatus)
    requires o in t.world.crs
    ensures var w' := Conclude(t, o, cr, reachable, status).world; var done := ShootDone(cr, reachable, t.shootErr);
            && (Conclude(t, o, cr, reachable, status).err <==>
                  t.seedErr || !Ahead(t.world, if !done && cr.forceDelete then 1 else 0).Fine?)
            && o in w'.crs
            && (w'.crs[o].finalizer <==>
                  && t.world.crs[o].finalizer
                  && !(!t.seedErr && (done || cr.forceDelete) && TakesEffect(Ahead(t.world, if done then 0 else 1))))
  {
    hide Pending;
  }

  /** A pass whose deletes all succeed removes the finalizer as soon as its writes take effect, and leaves nothing behind. */
  lemma ErrorFreeDeletionCompletes(w: LoneWorld, o: string, cr: CR)
    requires o in w.crs && w.crs[o] == cr && Starts(w)
    requires forall side :: !SideFails(w, o, cr, true, side)
    requires TakesEffect(Ahead(Concluding(w, o, cr, true), 0))
    ensures var w' := DeletePass(w, o, cr, true).world;
            o in w'.crs && !w'.crs[o].finalizer && Remaining(w', o, cr) == {}
  {
    hide TearDown;
    hide Conclude;
    hide SaveStatus;
    hide SideFails;
    hide Lawful;
    hide SideGone;
    hide Pending;
    FinalizerGoesIff(w, o, cr, true);
    TearDownErrsIff(w, o, cr, true);
    MarkedOutcome(w, o, cr);
    SaveStatusFacts(w, o, MarkDeleting(cr));
    var first, w' := Marked(w, o, cr), DeletePass(w, o, cr, true).world;
    var t := TearDown(first, o, cr, true);
    TearDownFacts(first, o, cr, true);
    LawfulScope(first, t.world, cr, o);
    ConcludeFacts(t, o, cr, true, MarkDeleting(cr));
    ConcludeAlone(t, o, cr, true, MarkDeleting(cr));
    SideGoneAlike(t.world, w', o, cr);
    NothingRemains(w', o, cr);
  }

  /** From here on the servers answer every request. */
  ghost predicate Calm(w: World) { forall i: nat :: i >= |w.log| ==> w.answers(i).fault.Fine? }

  lemma CalmSaves(w: World, o: string, st: CrStatus, present: bool)
    requires Calm(w) && o in w.crs
    ensures SaveStatus(w, o, st).outcome.Done? && Calm(SaveStatus(w, o, st).world)
    ensures SaveFinalizer(w, o, present).outcome.Done? && Calm(SaveFinalizer(w, o, present).world)
  {
  }

  /** In particular an undisturbed pass that can build the shoot client does, and returns no error. */
  lemma CalmDeletionCompletes(w: LoneWorld, o: string, cr: CR)
    requires o in w.crs && w.crs[o] == cr && Calm(w)
    ensures var r := DeletePass(w, o, cr, true);
            !r.err && o in r.world.crs && !r.world.crs[o].finalizer && Remaining(r.world, o, cr) == {}
  {
    hide DeletePass;
    hide DeleteAll;
    hide Lawful;
    hide SideGone;
    hide Pending;
    MarkedLog(w, o, cr);
    var t := TearDown(Marked(w, o, cr), o, cr, true);
    TearDownFacts(Marked(w, o, cr), o, cr, true);
    LawfulScope(Marked(w, o, cr), t.world, cr, o);
    forall side ensures !SideFails(w, o, cr, true, side) { CalmSide(w, o, cr, side); }
    FinalizerGoesIff(w, o, cr, true);
    ErrorFreeDeletionCompletes(w, o, cr);
  }

  lemma CalmSide(w: LoneWorld, o: string, cr: CR, side: Side)
    requires Calm(w)
    ensures !SideFails(w, o, cr, true, side)
  {
    hide DeleteSide;
    hide Marked;
    hide Pending;
    hide StatusIdentity;
    hide DeleteAll;
    MarkedLog(w, o, cr);
    var first, c, es := Marked(w, o, cr), ClusterOf(cr, side), StatusForDelete(Inventory(cr, side));
    DeleteSideRequests(first, o, cr, Other(side));
    var start := SideStart(w, o, cr, true, side);
    assert w.log <= start.log && start.answers == w.answers;
    forall k: nat | k < |es| ensures !FailsAt(start, c, es, cr, o, k) {
      DeleteAllEffect(start, c, es[..k], cr, o);
      assert |DeleteAt(start, c, es, cr, o, k).log| >= |w.log|;
    }
  }

  lemma NothingRemains(w: World, o: string, cr: CR)
    requires SideGone(w, o, cr, SeedSide) && SideGone(w, o, cr, ShootSide)
    ensures Remaining(w, o, cr) == {}
  {
    forall a | a in w.live && Deletable(w, cr, a) ensures Owner(w.live[a]) != o {
      var side, rs :| rs in Inventory(cr, side) && !KeepsCrd(cr, rs) && a == w.StatusAddr(ClusterOf(cr, side), rs);
      assert SideGone(w, o, cr, side);
    }
  }

  /** A kind that the server does not know: a prune counts the entry as gone, a deletion as an error. */
  lemma NoMatchDisagreement(w: World, c: Cluster, rs: ResourceStatus, o: string)
    requires Get(w, w.StatusAddr(c, rs)).result.NoSuchKind?
    ensures !PruneOne(w, c, rs, o).err && DeleteOwned(w, c, ManifestFromStatus(rs), o).err
  {
    RebuiltAddr(w, c, rs);
  }

  /** The pass finds the server ignorant of the kind of the deletable seed entry `rs`. */
  ghost predicate MeetsNoMatch(w: World, o: string, cr: CR, reachable: bool, rs: ResourceStatus) {
    var start, es := SideStart(w, o, cr, reachable, SeedSide), StatusForDelete(cr.status.seed);
    exists k: nat :: k < |es| && es[k] == rs && !KeepsCrd(cr, rs) && Ahead(DeleteAt(start, Seed, es, cr, o, k), 0).NoMatch?
  }

  /** One seed entry of an unknown kind keeps the finalizer on, even under a forced deletion. */
  lemma NoMatchBlocksDeletion(w: LoneWorld, o: string, cr: CR, reachable: bool, rs: ResourceStatus)
    requires o in w.crs && w.crs[o] == cr && MeetsNoMatch(w, o, cr, reachable, rs)
    ensures var r := DeletePass(w, o, cr, reachable); r.err && o in r.world.crs && r.world.crs[o].finalizer == cr.finalizer
  {
    hide DeletePass;
    hide TearDown;
    hide SideStart;
    hide KeepsCrd;
    var start, es := SideStart(w, o, cr, reachable, SeedSide), StatusForDelete(cr.status.seed);
    var k: nat :| k < |es| && es[k] == rs && !KeepsCrd(cr, rs) && Ahead(DeleteAt(start, Seed, es, cr, o, k), 0).NoMatch?;
    assert ClusterOf(cr, SeedSide) == Seed && Inventory(cr, SeedSide) == cr.status.seed;
    assert FailsAt(start, ClusterOf(cr, SeedSide), StatusForDelete(Inventory(cr, SeedSide)), cr, o, k);
    TearDownErrsIff(w, o, cr, reachable);
    SeedErrKeepsFinalizer(w, o, cr, reachable);
  }

  /** Any seed error keeps the finalizer, forced or not. */
  lemma SeedErrKeepsFinalizer(w: LoneWorld, o: string, cr: CR, reachable: bool)
    requires o in w.crs && w.crs[o] == cr
    requires TearDown(Marked(w, o, cr), o, cr, reachable).seedErr
    ensures var r := DeletePass(w, o, cr, reachable); r.err && o in r.world.crs && r.world.crs[o].finalizer == cr.finalizer
  {
    hide SaveStatus;
    hide TearDown;
    hide Lawful;
    hide SideGone;
    SaveStatusFacts(w, o, MarkDeleting(cr));
    var t := TearDown(Marked(w, o, cr), o, cr, reachable);
    TearDownFacts(Marked(w, o, cr), o, cr, reachable);
    LawfulScope(Marked(w, o, cr), t.world, cr, o);
  }

  /** Unless the policy says Delete, a deletion pass takes no CRD away either. */
  lemma DeletionKeepsCrds(w: LoneWorld, o: string, cr: CR, reachable: bool, a: Addr)
    requires o in w.crs && w.crs[o] == cr && cr.crdPolicy != "Delete"
    requires a in w.live && a.id.kind == "CustomResourceDefinition"
    ensures a in DeletePass(w, o, cr, reachable).world.live
  {
    hide DeletePass;
    if a !in DeletePass(w, o, cr, reachable).world.live {
      DeletePassRemoves(w, o, cr, reachable, a);
    }
  }
}

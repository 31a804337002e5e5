/**
  Inventory accounting for one pass: every live object that carries an owner's label is in that
  owner's recorded inventory, or has left it for one of a few stated reasons.
 */
module Accounting {
  import opened Manifests
  import opened Ordering
  import opened Api
  import opened Deliver
  import opened Controller
  import opened Effects

  // ------------------------------------------------------------- Vocabulary

  /** The addresses that well-formed entries stand for on one cluster. */
  ghost function Addrs(w: World, c: Cluster, es: seq<ResourceStatus>): set<Addr> {
    set rs | rs in es && Acceptable(StatusIdentity(rs)) :: w.StatusAddr(c, rs)
  }

  /** CRD entries that are no longer rendered and that the retention policy leaves in place. */
  ghost function KeptCrds(w: World, cr: CR, side: Side, keys: set<string>): set<Addr> {
    set rs | rs in Inventory(cr, side) && KeepsCrd(cr, rs) && StatusIdentityKey(rs) !in keys ::
      w.StatusAddr(ClusterOf(cr, side), rs)
  }

  /** Everything owned on one cluster is in `s`. */
  ghost predicate Covered(w: World, o: string, c: Cluster, s: set<Addr>) {
    forall a :: w.OwnedAt(a, o) && a.cluster == c ==> a in s
  }

  /** What the recorded inventory stands for, while the finalizer guards it. */
  ghost function Tracked(w: World, o: string): set<Addr> {
    if o in w.crs && w.crs[o].finalizer
    then Addrs(w, Seed, w.crs[o].status.seed) + Addrs(w, Shoot(w.crs[o].shootId), w.crs[o].status.shoot)
    else {}
  }

  ghost predicate Accounted(w: World, o: string, released: set<Addr>) {
    forall a :: w.OwnedAt(a, o) ==> a in released || a in Tracked(w, o)
  }

  ghost function NewlyOwned(w: World, w': World, o: string): set<Addr> {
    set a | a in w'.live && Owner(w'.live[a]) == o && !w.OwnedAt(a, o)
  }

  // ------------------------------------------------ The three stages of a side

  lemma EntryOfPlaced(w: World, c: Cluster, ms: seq<Manifest>, ss: seq<ResourceStatus>, i: nat)
    requires |ss| == |ms| && i < |ms| && ss[i] == StatusOf(ms[i], ss[i].health)
    requires Acceptable(ManifestIdentity(ms[i]))
    ensures w.AddrOf(c, ms[i]) in Addrs(w, c, ss)
  {
    IdentityRoundTrip(ms[i], ss[i].health);
    assert ss[i] in ss;
  }

  ghost predicate EntriesOf(ss: seq<ResourceStatus>, ms: seq<Manifest>) {
    |ss| == |ms| && forall i :: 0 <= i < |ms| ==> ss[i] == StatusOf(ms[i], ss[i].health)
  }

  /** What the applies of a render leave behind: its entries, and its manifests as the server returned them. */
  ghost predicate Leaves(w: World, c: Cluster, ms: seq<Manifest>, o: string, ss: seq<ResourceStatus>, left: seq<Manifest>) {
    && EntriesOf(ss, ms) && |left| == |ms|
    && forall i :: 0 <= i < |ms| ==>
         && left[i] == LeftBy(w, c, ms[i], ss[i].health, o)
         && (ss[i].health != Degraded ==> Acceptable(ManifestIdentity(ms[i])))
  }

  /** After the applies, whoever else acted meanwhile, the new entries cover what was put in place. */
  lemma ApplyCovers(w: World, c: Cluster, ms: seq<Manifest>, o: string, s: set<Addr>)
    requires Tame(w) && o != "" && Covered(w, o, c, s)
    ensures var r := ApplyAll(w, c, ms, o);
            Covered(r.world, o, c, s + Addrs(w, c, r.statuses)) && Leaves(w, c, ms, o, r.statuses, r.left)
  {
    hide ApplyAll;
    hide TameOthers;
    var r := ApplyAll(w, c, ms, o);
    ApplyAllEntries(w, c, ms, o);
    ApplyAllLeft(w, c, ms, o);
    forall a | r.world.OwnedAt(a, o) && a.cluster == c
      ensures a in s + Addrs(w, c, r.statuses)
    {
      ApplyAllOwns(w, c, ms, o, o, a);
      if !w.OwnedAt(a, o) {
        var i :| 0 <= i < |ms| && a == w.AddrOf(c, ms[i]) && Acceptable(ManifestIdentity(ms[i]));
        EntryOfPlaced(w, c, ms, r.statuses, i);
      }
    }
  }

  lemma LeftIdentity(w: World, c: Cluster, m: Manifest, health: Health, o: string)
    ensures ManifestIdentity(LeftBy(w, c, m, health, o))
            == if health == Degraded then ManifestIdentity(m) else w.AddrOf(c, m).id
  {
    ReturnedIdentity(w, c, Stamp(m, o));
  }

  /** An entry whose key is among those left behind is covered by the render's own entries. */
  lemma RenderedCovers(w: World, c: Cluster, ms: seq<Manifest>, o: string, ss: seq<ResourceStatus>, left: seq<Manifest>, rs: ResourceStatus)
    requires Leaves(w, c, ms, o, ss, left)
    requires Acceptable(StatusIdentity(rs)) && StatusIdentityKey(rs) in RenderKeys(left)
    ensures w.StatusAddr(c, rs) in Addrs(w, c, ss)
  {
    hide ManifestIdentity;
    hide StatusIdentity;
    hide LeftBy;
    var m :| m in left && ManifestIdentityKey(m) == StatusIdentityKey(rs);
    var i :| 0 <= i < |left| && left[i] == m;
    KeyIsIdentity(StatusIdentity(rs), ManifestIdentity(m));
    LeftIdentity(w, c, ms[i], ss[i].health, o);
    EntryOfPlaced(w, c, ms, ss, i);
  }

  /** After the prune, whoever else acted meanwhile, an old entry is rendered, retained, a kept CRD, or gone. */
  lemma PruneCovers(w: World, cr: CR, side: Side, ms: seq<Manifest>, o: string, ss: seq<ResourceStatus>, left: seq<Manifest>, s: set<Addr>)
    requires Tame(w) && o != "" && Leaves(w, ClusterOf(cr, side), ms, o, ss, left)
    requires var c := ClusterOf(cr, side);
             Covered(w, o, c, s + Addrs(w, c, Inventory(cr, side)) + Addrs(w, c, ss))
    ensures var c := ClusterOf(cr, side); var keys := RenderKeys(left);
            var r := Prune(w, c, StatusForDelete(Inventory(cr, side)), keys, cr, o);
            Covered(r.world, o, c, s + Addrs(w, c, ss + r.retained) + KeptCrds(w, cr, side, keys))
  {
    hide Prune;
    var c, prev, keys := ClusterOf(cr, side), Inventory(cr, side), RenderKeys(left);
    var es := StatusForDelete(prev);
    OrderFacts([], prev);
    var r := Prune(w, c, es, keys, cr, o);
    PruneLoses(w, c, es, keys, cr, o, o);
    forall a | r.world.OwnedAt(a, o) && a.cluster == c
      ensures a in s + Addrs(w, c, ss + r.retained) + KeptCrds(w, cr, side, keys)
    {
      assert w.OwnedAt(a, o);
      if a in Addrs(w, c, ss) {
        var rs :| rs in ss && Acceptable(StatusIdentity(rs)) && w.StatusAddr(c, rs) == a;
        assert rs in ss + r.retained;
      } else if a in Addrs(w, c, prev) {
        var rs :| rs in prev && Acceptable(StatusIdentity(rs)) && w.StatusAddr(c, rs) == a;
        if StatusIdentityKey(rs) in keys {
          RenderedCovers(w, c, ms, o, ss, left, rs);
        } else if !KeepsCrd(cr, rs) {
          assert rs in es;
          if rs !in r.retained { PruneFrees(w, c, es, keys, cr, o, rs); }
          assert rs in ss + r.retained;
        }
      }
    }
  }

  // ------------------------------------------------------ Delivery, per side

  datatype Stage = Untouched | AppliedOnly | Delivered

  /** The manifest `m` of `side` put the object at `a`. */
  ghost predicate PlacedBy(w: World, w': World, job: Job, side: Side, m: Manifest, a: Addr) {
    m in job.Render(side) && Placed(w, w', ClusterOf(job.cr, side), m, job.owner, a)
  }

  /** The entry `rs` of `side` is an orphan that stands for `a`. */
  ghost predicate OrphanedAt(w: World, job: Job, keys: KeyPair, side: Side, rs: ResourceStatus, a: Addr) {
    && rs in Inventory(job.cr, side) && Orphan(job.cr, keys.Of(side), rs)
    && a == w.StatusAddr(ClusterOf(job.cr, side), rs)
  }

  /** The object at `a` is as before, or a rendered manifest was put there, or an orphan was taken away. */
  ghost predicate Explained(w: World, w': World, job: Job, keys: KeyPair, a: Addr) {
    || SameAt(w, w', a)
    || (exists side, m :: PlacedBy(w, w', job, side, m, a))
    || (a !in w'.live && exists side, rs :: OrphanedAt(w, job, keys, side, rs, a))
  }

  ghost predicate Footprint(w: World, w': World, job: Job, keys: KeyPair) {
    forall a :: Explained(w, w', job, keys, a)
  }

  ghost predicate Moves(w: World, w': World, job: Job, keys: KeyPair) {
    Lawful(w, w', job.cr, job.owner) && Footprint(w, w', job, keys)
  }

  lemma ExplainedTransitive(w: World, w1: World, w2: World, job: Job, keys: KeyPair, a: Addr)
    requires w1.scope == w.scope
    requires Explained(w, w1, job, keys, a) && Explained(w1, w2, job, keys, a)
    ensures Explained(w, w2, job, keys, a)
  {
    hide Orphan;
    hide RenderKeys;
    hide Acceptable;
    if SameAt(w1, w2, a) {
      if side, m :| PlacedBy(w, w1, job, side, m, a) {
        assert PlacedBy(w, w2, job, side, m, a);
      }
    } else if side, m :| PlacedBy(w1, w2, job, side, m, a) {
      assert PlacedBy(w, w2, job, side, m, a);
    } else {
      var side, rs :| OrphanedAt(w1, job, keys, side, rs, a);
      assert OrphanedAt(w, job, keys, side, rs, a);
    }
  }

  lemma MovesTransitive(w: World, w1: World, w2: World, job: Job, keys: KeyPair)
    requires Moves(w, w1, job, keys) && Moves(w1, w2, job, keys)
    ensures Moves(w, w2, job, keys)
  {
    hide Explained;
    LawfulTransitive(w, w1, w2, job.cr, job.owner);
    forall a ensures Explained(w, w2, job, keys, a) { ExplainedTransitive(w, w1, w2, job, keys, a); }
  }

  lemma ApplyMoves(w: LoneWorld, job: Job, keys: KeyPair, side: Side)
    ensures Moves(w, ApplyAll(w, ClusterOf(job.cr, side), job.Render(side), job.owner).world, job, keys)
  {
    hide ApplyAll;
    var c, ms, o := ClusterOf(job.cr, side), job.Render(side), job.owner;
    ApplyAllLawful(w, job.cr, c, ms, o);
    ApplyAllEffect(w, c, ms, o);
    var w' := ApplyAll(w, c, ms, o).world;
    forall a | !SameAt(w, w', a) ensures exists side, m :: PlacedBy(w, w', job, side, m, a) {
      var m :| m in ms && Placed(w, w', c, m, o, a);
      assert PlacedBy(w, w', job, side, m, a);
    }
  }

  lemma PruneMoves(w: LoneWorld, job: Job, keys: KeyPair, side: Side)
    ensures Moves(w, Prune(w, ClusterOf(job.cr, side), StatusForDelete(Inventory(job.cr, side)),
                           keys.Of(side), job.cr, job.owner).world, job, keys)
  {
    hide Prune;
    var c, es := ClusterOf(job.cr, side), StatusForDelete(Inventory(job.cr, side));
    OrderFacts([], Inventory(job.cr, side));
    PruneLawful(w, c, es, keys.Of(side), job.cr, job.owner);
    PruneEffect(w, c, es, keys.Of(side), job.cr, job.owner);
    var w' := Prune(w, c, es, keys.Of(side), job.cr, job.owner).world;
    forall a | !SameAt(w, w', a) ensures a !in w'.live && exists side, rs :: OrphanedAt(w, job, keys, side, rs, a) {
      var rs :| rs in es && Orphan(job.cr, keys.Of(side), rs) && a == w.StatusAddr(c, rs);
      assert OrphanedAt(w, job, keys, side, rs, a);
    }
  }

  /** On cluster `c`, what `o` owns it owned before. */
  ghost predicate LosesOn(w: World, w': World, o: string, c: Cluster) {
    forall a: Addr :: a.cluster == c && w'.OwnedAt(a, o) ==> w.OwnedAt(a, o)
  }

  /** How far a side has come in a delivery that began in world `w`. */
  ghost predicate Reached(w: World, d: Draft, job: Job, side: Side, stage: Stage, s: set<Addr>) {
    var c := ClusterOf(job.cr, side);
    && Continues(w, d.world)
    && match stage
       case Untouched => LosesOn(w, d.world, job.owner, c)
       case AppliedOnly =>
         && Leaves(w, c, job.Render(side), job.owner, d.Statuses(side), d.Left(side))
         && Covered(d.world, job.owner, c, s + Addrs(w, c, Inventory(job.cr, side)) + Addrs(w, c, d.Statuses(side)))
       case Delivered =>
         Covered(d.world, job.owner, c,
                 s + Addrs(w, c, d.Statuses(side)) + KeptCrds(w, job.cr, side, d.Keys(side)))
  }

  function Other(side: Side): Side { if side == SeedSide then ShootSide else SeedSide }

  lemma AddrsSameScope(w: World, w': World, c: Cluster, es: seq<ResourceStatus>)
    requires w.scope == w'.scope
    ensures Addrs(w, c, es) == Addrs(w', c, es)
  {
    assert forall rs :: w.StatusAddr(c, rs) == w'.StatusAddr(c, rs);
  }

  lemma KeptSameScope(w: World, w': World, cr: CR, side: Side, keys: set<string>)
    requires w.scope == w'.scope
    ensures KeptCrds(w, cr, side, keys) == KeptCrds(w', cr, side, keys)
  {
    assert forall c, rs :: w.StatusAddr(c, rs) == w'.StatusAddr(c, rs);
  }

  lemma LeavesSameScope(w: World, w': World, c: Cluster, ms: seq<Manifest>, o: string, ss: seq<ResourceStatus>, left: seq<Manifest>)
    requires w.scope == w'.scope && Leaves(w, c, ms, o, ss, left)
    ensures Leaves(w', c, ms, o, ss, left)
  {
    assert forall m, h :: LeftBy(w, c, m, h, o) == LeftBy(w', c, m, h, o);
  }

  /** Applying a side advances it and leaves the other where it was. */
  lemma ApplyStage(w: World, d: Draft, job: Job, side: Side, s: set<Addr>, other: Stage, t: set<Addr>)
    requires Tame(w) && job.owner != ""
    requires Covered(w, job.owner, ClusterOf(job.cr, side), s + Addrs(w, ClusterOf(job.cr, side), Inventory(job.cr, side)))
    requires Reached(w, d, job, side, Untouched, s)
    requires Reached(w, d, job, Other(side), other, t)
    ensures var d' := ApplySide(d, job, side);
            Reached(w, d', job, side, AppliedOnly, s) && Reached(w, d', job, Other(side), other, t)
  {
    hide ApplyAll;
    hide Addrs;
    hide KeptCrds;
    hide TameOthers;
    var c, prev := ClusterOf(job.cr, side), Inventory(job.cr, side);
    var ms, o := job.Render(side), job.owner;
    var r := ApplyAll(d.world, c, ms, o);
    ApplyCovers(d.world, c, ms, o, s + Addrs(w, c, prev));
    AddrsSameScope(w, d.world, c, r.statuses);
    LeavesSameScope(d.world, w, c, ms, o, r.statuses, r.left);
    AppliesElsewhere(d.world, c, ms, o, ClusterOf(job.cr, Other(side)));
    StageElsewhere(w, d, ApplySide(d, job, side), job, Other(side), other, t);
  }

  lemma AppliesElsewhere(w: World, c: Cluster, ms: seq<Manifest>, o: string, b: Cluster)
    requires Tame(w) && o != "" && b != c
    ensures LosesOn(w, ApplyAll(w, c, ms, o).world, o, b)
  {
    hide ApplyAll;
    hide ManifestIdentity;
    hide TameOthers;
    forall a: Addr | a.cluster == b && ApplyAll(w, c, ms, o).world.OwnedAt(a, o) ensures w.OwnedAt(a, o) {
      ApplyAllOwns(w, c, ms, o, o, a);
    }
  }

  lemma ApplyElsewhere(w: LoneWorld, c: Cluster, ms: seq<Manifest>, o: string)
    ensures SameOutside(w, ApplyAll(w, c, ms, o).world, c)
  {
    hide ApplyAll;
    ApplyAllEffect(w, c, ms, o);
    var w' := ApplyAll(w, c, ms, o).world;
    forall a: Addr | a.cluster != c ensures SameAt(w, w', a) {
      assert forall m :: w.AddrOf(c, m).cluster == c;
    }
  }

  lemma PruneElsewhere(w: LoneWorld, c: Cluster, es: seq<ResourceStatus>, keys: set<string>, cr: CR, o: string)
    ensures SameOutside(w, Prune(w, c, es, keys, cr, o).world, c)
  {
    hide Prune;
    PruneEffect(w, c, es, keys, cr, o);
    var w' := Prune(w, c, es, keys, cr, o).world;
    forall a: Addr | a.cluster != c ensures SameAt(w, w', a) {
      assert forall rs :: w.StatusAddr(c, rs).cluster == c;
    }
  }

  /** A side keeps its stage while only other clusters get anything. */
  lemma StageElsewhere(w: World, d: Draft, d': Draft, job: Job, side: Side, stage: Stage, s: set<Addr>)
    requires Reached(w, d, job, side, stage, s) && Continues(d.world, d'.world)
    requires d'.Statuses(side) == d.Statuses(side) && d'.Left(side) == d.Left(side)
    requires LosesOn(d.world, d'.world, job.owner, ClusterOf(job.cr, side))
    ensures Reached(w, d', job, side, stage, s)
  {
    hide Addrs;
    hide KeptCrds;
    hide Leaves;
  }

  /** Pruning an applied side completes its delivery. */
  lemma PruneStage(w: World, d: Draft, job: Job, side: Side, s: set<Addr>, other: Stage, t: set<Addr>)
    requires Tame(w) && job.owner != ""
    requires Reached(w, d, job, side, AppliedOnly, s)
    requires Reached(w, d, job, Other(side), other, t)
    ensures var d' := PruneSide(d, job, side);
            Reached(w, d', job, side, Delivered, s) && Reached(w, d', job, Other(side), other, t)
  {
    hide Prune;
    hide Addrs;
    hide KeptCrds;
    hide TameOthers;
    var c, prev := ClusterOf(job.cr, side), Inventory(job.cr, side);
    var ks, ss := d.Keys(side), d.Statuses(side);
    var r := Prune(d.world, c, StatusForDelete(prev), ks, job.cr, job.owner);
    AddrsSameScope(w, d.world, c, prev);
    AddrsSameScope(w, d.world, c, ss);
    AddrsSameScope(w, d.world, c, ss + r.retained);
    KeptSameScope(w, d.world, job.cr, side, ks);
    LeavesSameScope(w, d.world, c, job.Render(side), job.owner, ss, d.Left(side));
    PruneCovers(d.world, job.cr, side, job.Render(side), job.owner, ss, d.Left(side), s);
    PruneLoses(d.world, c, StatusForDelete(prev), ks, job.cr, job.owner, job.owner);
    StageElsewhere(w, d, PruneSide(d, job, side), job, Other(side), other, t);
  }

  function Written(s: Settled, side: Side): seq<ResourceStatus> { if side == SeedSide then s.seed else s.shoot }

  /**
    How a delivery ends on one side, whoever else acted meanwhile: an applied side is covered by what
    it writes, up to kept CRDs; a side that was not applied got nothing and keeps its inventory.
   */
  ghost predicate SideSettled(w: World, s: Settled, job: Job, side: Side, known: set<Addr>) {
    var c := ClusterOf(job.cr, side);
    if side in s.applied then
      Covered(s.draft.world, job.owner, c,
              known + Addrs(w, c, Written(s, side)) + KeptCrds(w, job.cr, side, s.draft.Keys(side)))
    else
      Written(s, side) == Inventory(job.cr, side) && LosesOn(w, s.draft.world, job.owner, c)
  }

  ghost predicate KnownBefore(w: World, job: Job, side: Side, known: set<Addr>) {
    var c := ClusterOf(job.cr, side);
    Covered(w, job.owner, c, known + Addrs(w, c, Inventory(job.cr, side)))
  }

  lemma SettleAccounted(w: World, job: Job, phase: Phase, known: set<Addr>)
    requires Tame(w) && job.owner != ""
    requires KnownBefore(w, job, SeedSide, known) && KnownBefore(w, job, ShootSide, known)
    ensures var s := Settle(w, job, phase);
            SideSettled(w, s, job, SeedSide, known) && SideSettled(w, s, job, ShootSide, known)
  {
    hide ApplySide;
    hide PruneSide;
    hide Addrs;
    hide KeptCrds;
    hide Covered;
    hide RenderKeys;
    hide AnyFailed;
    hide AllFailed;
    hide Leaves;
    hide TameOthers;
    var d := StartDraft(w, job);
    assert Reached(w, d, job, SeedSide, Untouched, known) && Reached(w, d, job, ShootSide, Untouched, known);
    if phase == Ready {
      var first := if ShootFirst(job.cr) then ShootSide else SeedSide;
      var d1 := ApplySide(d, job, first);
      ApplyStage(w, d, job, first, known, Untouched, known);
      if first == ShootSide && AnyFailed(d1.shoot) {
        PruneStage(w, d1, job, ShootSide, known, Untouched, known);
      } else {
        var d2 := ApplySide(d1, job, Other(first));
        var d3 := PruneSide(d2, job, Other(first));
        ApplyStage(w, d1, job, Other(first), known, AppliedOnly, known);
        PruneStage(w, d2, job, Other(first), known, AppliedOnly, known);
        PruneStage(w, d3, job, first, known, Delivered, known);
      }
    } else if !ShootFirst(job.cr) {
      var d1 := ApplySide(d, job, SeedSide);
      ApplyStage(w, d, job, SeedSide, known, Untouched, known);
      PruneStage(w, d1, job, SeedSide, known, Untouched, known);
      UntouchedShoot(d, job);
    }
  }

  lemma UntouchedShoot(d: Draft, job: Job)
    ensures PruneSide(ApplySide(d, job, SeedSide), job, SeedSide).shoot == d.shoot
  {
    hide ApplyAll;
    hide Prune;
  }

  /** Only the apply of a side rewrites its manifests. */
  lemma SidesKeepLeft(d: Draft, job: Job, side: Side)
    ensures ApplySide(d, job, side).Left(Other(side)) == d.Left(Other(side))
    ensures PruneSide(d, job, side).AllKeys() == d.AllKeys()
    ensures forall s :: PruneSide(d, job, side).Left(s) == d.Left(s)
  {
    hide ApplyAll;
    hide Prune;
  }

  // ---------------------------------------------------------- Where deliveries end

  /** The cluster that the apply order names first, and the other one. */
  function FirstSide(cr: CR): Side { if cr.applyOrder == "SeedFirst" then SeedSide else ShootSide }

  /** The worlds in which a delivery can end. */
  lemma SettleWorlds(w: World, job: Job, phase: Phase)
    ensures var first := FirstSide(job.cr);
            var d1 := ApplySide(StartDraft(w, job), job, first);
            var d2 := ApplySide(d1, job, Other(first));
            var end := Settle(w, job, phase).draft;
            || end == StartDraft(w, job)
            || end == PruneSide(d1, job, first)
            || end == PruneSide(PruneSide(d2, job, Other(first)), job, first)
  {
    hide ApplySide;
    hide PruneSide;
    hide AnyFailed;
    hide AllFailed;
  }

  /** Whoever else acts, a delivery makes no other owner own anything. */
  lemma SettleLoses(w: World, job: Job, phase: Phase, p: string)
    requires Tame(w) && p != "" && p != job.owner
    ensures OnlyLoses(w, Settle(w, job, phase).draft.world, p)
  {
    hide ApplySide;
    hide PruneSide;
    hide Settle;
    hide TameOthers;
    var first, d := FirstSide(job.cr), StartDraft(w, job);
    var d1 := ApplySide(d, job, first);
    var d2 := ApplySide(d1, job, Other(first));
    var d3 := PruneSide(d2, job, Other(first));
    ApplySideLoses(d, job, first, p);
    ApplySideLoses(d1, job, Other(first), p);
    PruneSideLoses(d1, job, first, p);
    PruneSideLoses(d2, job, Other(first), p);
    PruneSideLoses(d3, job, first, p);
    SettleWorlds(w, job, phase);
  }

  lemma ApplySideLoses(d: Draft, job: Job, side: Side, p: string)
    requires Tame(d.world) && p != "" && p != job.owner
    ensures OnlyLoses(d.world, ApplySide(d, job, side).world, p)
  {
    hide ApplyAll;
    hide TameOthers;
    var c, ms, o := ClusterOf(job.cr, side), job.Render(side), job.owner;
    forall a | ApplyAll(d.world, c, ms, o).world.OwnedAt(a, p) ensures d.world.OwnedAt(a, p) {
      ApplyAllOwns(d.world, c, ms, o, p, a);
    }
  }

  lemma PruneSideLoses(d: Draft, job: Job, side: Side, p: string)
    requires Tame(d.world) && p != ""
    ensures OnlyLoses(d.world, PruneSide(d, job, side).world, p)
  {
    hide Prune;
    PruneLoses(d.world, ClusterOf(job.cr, side), StatusForDelete(Inventory(job.cr, side)), d.Keys(side), job.cr, job.owner, p);
  }

  /** Whoever else acts, a delivery gets its owner nothing on any other cluster than its two. */
  lemma SettleStaysOn(w: World, job: Job, phase: Phase, c: Cluster)
    requires Tame(w) && job.owner != "" && c != Seed && c != Shoot(job.cr.shootId)
    ensures LosesOn(w, Settle(w, job, phase).draft.world, job.owner, c)
  {
    hide ApplySide;
    hide PruneSide;
    hide Settle;
    hide TameOthers;
    var first, d := FirstSide(job.cr), StartDraft(w, job);
    var d1 := ApplySide(d, job, first);
    var d2 := ApplySide(d1, job, Other(first));
    var d3 := PruneSide(d2, job, Other(first));
    ApplySideStaysOn(d, job, first, c);
    ApplySideStaysOn(d1, job, Other(first), c);
    PruneSideLoses(d1, job, first, job.owner);
    PruneSideLoses(d2, job, Other(first), job.owner);
    PruneSideLoses(d3, job, first, job.owner);
    SettleWorlds(w, job, phase);
  }

  lemma ApplySideStaysOn(d: Draft, job: Job, side: Side, c: Cluster)
    requires Tame(d.world) && job.owner != "" && c != ClusterOf(job.cr, side)
    ensures LosesOn(d.world, ApplySide(d, job, side).world, job.owner, c)
  {
    hide ApplyAll;
    hide TameOthers;
    AppliesElsewhere(d.world, ClusterOf(job.cr, side), job.Render(side), job.owner, c);
  }

  // ------------------------------------------------------ What a delivery changes

  lemma ApplySideMoves(d: Draft, job: Job, keys: KeyPair, side: Side)
    requires NobodyElse(d.world.answers)
    ensures Moves(d.world, ApplySide(d, job, side).world, job, keys)
  {
    hide ApplyAll;
    hide Moves;
    ApplyMoves(d.world, job, keys, side);
  }

  lemma PruneSideMoves(d: Draft, job: Job, keys: KeyPair, side: Side)
    requires NobodyElse(d.world.answers) && keys.Of(side) == d.Keys(side)
    ensures Moves(d.world, PruneSide(d, job, side).world, job, keys)
  {
    hide Prune;
    hide Moves;
    PruneMoves(d.world, job, keys, side);
  }

  /** Alone, a delivery changes nothing but rendered manifests put in place and orphans taken away, and lawfully. */
  lemma SettleMoves(w: LoneWorld, job: Job, phase: Phase)
    ensures var s := Settle(w, job, phase); Moves(w, s.draft.world, job, s.draft.AllKeys())
  {
    hide ApplySide;
    hide PruneSide;
    hide Settle;
    hide RenderKeys;
    var first, d, keys := FirstSide(job.cr), StartDraft(w, job), Settle(w, job, phase).draft.AllKeys();
    LawfulRefl(w, job.cr, job.owner);
    assert Moves(w, w, job, keys);
    hide Moves;
    var d1 := ApplySide(d, job, first);
    var p1 := PruneSide(d1, job, first);
    var d2 := ApplySide(d1, job, Other(first));
    var d3 := PruneSide(d2, job, Other(first));
    var d4 := PruneSide(d3, job, first);
    SettleWorlds(w, job, phase);
    SidesKeepLeft(d1, job, first);
    SidesKeepLeft(d1, job, Other(first));
    SidesKeepLeft(d2, job, Other(first));
    SidesKeepLeft(d3, job, first);
    ApplySideMoves(d, job, keys, first);
    var end := Settle(w, job, phase).draft;
    if end == p1 {
      PruneSideMoves(d1, job, keys, first);
      MovesTransitive(w, d1.world, p1.world, job, keys);
    } else if end == d4 {
      ApplySideMoves(d1, job, keys, Other(first));
      MovesTransitive(w, d1.world, d2.world, job, keys);
      PruneSideMoves(d2, job, keys, Other(first));
      MovesTransitive(w, d2.world, d3.world, job, keys);
      PruneSideMoves(d3, job, keys, first);
      MovesTransitive(w, d3.world, d4.world, job, keys);
    }
  }

  /** Alone, a side that was not applied keeps its inventory verbatim and its cluster as it was. */
  lemma SettleAlike(w: LoneWorld, job: Job, phase: Phase, side: Side)
    requires side !in Settle(w, job, phase).applied
    ensures var s := Settle(w, job, phase);
            && Written(s, side) == Inventory(job.cr, side)
            && forall a: Addr :: a.cluster == ClusterOf(job.cr, side) ==> SameAt(w, s.draft.world, a)
  {
    hide ApplyAll;
    hide Prune;
    hide AnyFailed;
    hide AllFailed;
    var d := StartDraft(w, job);
    var other := Other(side);
    var d1 := ApplySide(d, job, other);
    ApplyElsewhere(w, ClusterOf(job.cr, other), job.Render(other), job.owner);
    PruneElsewhere(d1.world, ClusterOf(job.cr, other), StatusForDelete(Inventory(job.cr, other)), d1.Keys(other), job.cr, job.owner);
    var d2 := PruneSide(d1, job, other);
    forall a: Addr | a.cluster == ClusterOf(job.cr, side) ensures SameAt(w, d2.world, a) {
      assert SameAt(w, d1.world, a) && SameAt(d1.world, d2.world, a);
    }
  }
}

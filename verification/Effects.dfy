/** What the three walks of a pass do to the clusters: apply all, prune, delete all. */
module Effects {
  import opened Manifests
  import opened Ordering
  import opened Api
  import opened Deliver
  import opened Controller

  // ------------------------------------------------------------- Vocabulary

  /** Objects are only taken away: what is left is as it was. */
  ghost predicate Shrinks(w: World, w': World) {
    forall a :: a in w'.live ==> a in w.live && w'.live[a] == w.live[a]
  }

  ghost predicate SameOutside(w: World, w': World, c: Cluster) {
    forall a: Addr :: a.cluster != c ==> SameAt(w, w', a)
  }

  /** `m` put the object at `a`. */
  ghost predicate Placed(w: World, w': World, c: Cluster, m: Manifest, o: string, a: Addr) {
    a == w.AddrOf(c, m) && a in w'.live && w'.live[a] == Stored(w, c, m, o) && Acceptable(ManifestIdentity(m))
  }

  lemma RebuiltAddr(w: World, c: Cluster, rs: ResourceStatus)
    ensures w.AddrOf(c, ManifestFromStatus(rs)) == w.StatusAddr(c, rs)
  {
    RebuildKeepsIdentity(rs);
  }

  // -------------------------------------------------------------- Apply all

  /** A manifest after its apply: moved to the server's namespace, unless the entry is Degraded. */
  function LeftBy(w: World, c: Cluster, m: Manifest, health: Health, o: string): Manifest {
    if health == Degraded then Stamp(m, o) else Stored(w, c, m, o)
  }

  /** One entry per manifest, in order, with that manifest's identity. */
  lemma {:induction false} ApplyAllEntries(w: World, c: Cluster, ms: seq<Manifest>, o: string)
    ensures var r := ApplyAll(w, c, ms, o);
            && Continues(w, r.world)
            && |r.statuses| == |ms|
            && (forall i :: 0 <= i < |ms| ==> r.statuses[i] == StatusOf(ms[i], r.statuses[i].health))
            && (r.err <==> AnyFailed(r.statuses))
  {
    hide Apply;
    hide ManifestIdentity;
    hide Stamp;
    hide Acceptable;
    if ms != [] {
      ApplyAllEntries(w, c, Init(ms), o);
      var before := ApplyAll(w, c, Init(ms), o);
      var r := Apply(before.world, c, Last(ms), o);
      ApplyStatus(before.world, c, Last(ms), o);
      assert forall rs :: rs in before.statuses + [r.status] <==> rs in before.statuses || rs == r.status;
    }
  }

  /** One manifest left per manifest, and the identities of those that went through were well formed. */
  lemma {:induction false} ApplyAllLeft(w: World, c: Cluster, ms: seq<Manifest>, o: string)
    requires |ApplyAll(w, c, ms, o).statuses| == |ms|
    ensures var r := ApplyAll(w, c, ms, o);
            && |r.left| == |ms|
            && forall i :: 0 <= i < |ms| ==>
                 && r.left[i] == LeftBy(w, c, ms[i], r.statuses[i].health, o)
                 && (r.statuses[i].health != Degraded ==> Acceptable(ManifestIdentity(ms[i])))
  {
    hide Apply;
    hide ManifestIdentity;
    hide Stamp;
    hide Acceptable;
    if ms != [] {
      ApplyAllEntries(w, c, Init(ms), o);
      ApplyAllLeft(w, c, Init(ms), o);
      var before := ApplyAll(w, c, Init(ms), o);
      ApplyStatus(before.world, c, Last(ms), o);
      assert Stored(before.world, c, Last(ms), o) == Stored(w, c, Last(ms), o);
      hide LeftBy;
      hide Stored;
      var r := ApplyAll(w, c, ms, o);
      forall i | 0 <= i < |ms|
        ensures && r.left[i] == LeftBy(w, c, ms[i], r.statuses[i].health, o)
                && (r.statuses[i].health != Degraded ==> Acceptable(ManifestIdentity(ms[i])))
      {
        if i < |ms| - 1 {
          assert ms[i] == Init(ms)[i] && r.left[i] == before.left[i] && r.statuses[i] == before.statuses[i];
        } else {
          LeftLast(w, c, ms[i], r.statuses[i].health, o);
        }
      }
    }
  }

  lemma LeftLast(w: World, c: Cluster, m: Manifest, health: Health, o: string)
    ensures LeftBy(w, c, m, health, o) == if health == Degraded then Stamp(m, o) else Stored(w, c, m, o)
  {
  }

  /** Nothing is removed, and every change is some manifest of the render being put in place. */
  lemma {:induction false} ApplyAllEffect(w: LoneWorld, c: Cluster, ms: seq<Manifest>, o: string)
    ensures var w' := ApplyAll(w, c, ms, o).world;
            && w.live.Keys <= w'.live.Keys
            && forall a :: SameAt(w, w', a) || exists m :: m in ms && Placed(w, w', c, m, o, a)
  {
    hide Apply;
    hide ManifestIdentity;
    hide Stamp;
    hide Acceptable;
    if ms != [] {
      var before := ApplyAll(w, c, Init(ms), o).world;
      var w' := ApplyAll(w, c, ms, o).world;
      ApplyAllEffect(w, c, Init(ms), o);
      ApplyAllEntries(w, c, Init(ms), o);
      ApplyFacts(before, c, Last(ms), o);
      ApplyEffect(before, c, Last(ms), o);
      forall a ensures SameAt(w, w', a) || exists m :: m in ms && Placed(w, w', c, m, o, a) {
        if !SameAt(before, w', a) {
          assert Placed(w, w', c, Last(ms), o, a);
        } else if !SameAt(w, before, a) {
          var m :| m in Init(ms) && Placed(w, before, c, m, o, a);
          assert m in ms && Placed(w, w', c, m, o, a);
        }
      }
    }
  }

  /** A manifest whose entry is not Degraded is live and owned once all are applied. */
  lemma {:induction false} ApplyAllLive(w: LoneWorld, c: Cluster, ms: seq<Manifest>, o: string, i: nat)
    requires i < |ms|
    requires |ApplyAll(w, c, ms, o).statuses| == |ms|
    requires ApplyAll(w, c, ms, o).statuses[i].health != Degraded
    ensures ApplyAll(w, c, ms, o).world.OwnedAt(w.AddrOf(c, ms[i]), o)
    ensures Acceptable(ManifestIdentity(ms[i]))
  {
    hide Apply;
    hide ManifestIdentity;
    hide Stamp;
    hide Acceptable;
    var before := ApplyAll(w, c, Init(ms), o);
    ApplyAllEntries(w, c, Init(ms), o);
    ApplyFacts(before.world, c, Last(ms), o);
    assert before.world.AddrOf(c, Last(ms)) == w.AddrOf(c, Last(ms));
    if i < |ms| - 1 {
      assert Init(ms)[i] == ms[i];
      ApplyAllLive(w, c, Init(ms), o, i);
      var a := w.AddrOf(c, ms[i]);
      assert before.world.OwnedAt(a, o);
      assert a != before.world.AddrOf(c, Last(ms)) ==> SameAt(before.world, ApplyAll(w, c, ms, o).world, a);
    }
  }

  /** The last manifest of a render at an address decides what stands there. */
  lemma {:induction false} ApplyAllHolds(w: LoneWorld, c: Cluster, ms: seq<Manifest>, o: string, i: nat)
    requires i < |ms| && forall j :: i < j < |ms| ==> w.AddrOf(c, ms[j]) != w.AddrOf(c, ms[i])
    requires |ApplyAll(w, c, ms, o).statuses| == |ms|
    requires ApplyAll(w, c, ms, o).statuses[i].health != Degraded
    ensures var w', a := ApplyAll(w, c, ms, o).world, w.AddrOf(c, ms[i]);
            a in w'.live && w'.live[a] == Stored(w, c, ms[i], o)
  {
    hide Apply;
    hide ManifestIdentity;
    hide Stamp;
    hide Acceptable;
    var before := ApplyAll(w, c, Init(ms), o);
    ApplyAllEntries(w, c, Init(ms), o);
    ApplyFacts(before.world, c, Last(ms), o);
    assert before.world.AddrOf(c, Last(ms)) == w.AddrOf(c, Last(ms));
    if i < |ms| - 1 {
      forall j | i < j < |Init(ms)| ensures w.AddrOf(c, Init(ms)[j]) != w.AddrOf(c, Init(ms)[i]) {
        assert Init(ms)[j] == ms[j];
      }
      assert Init(ms)[i] == ms[i];
      ApplyAllHolds(w, c, Init(ms), o, i);
      assert SameAt(before.world, ApplyAll(w, c, ms, o).world, w.AddrOf(c, ms[i]));
    }
  }

  /** Whoever else acts, what its owner comes to own by the applies is named by an entry. */
  lemma {:induction false} ApplyAllOwns(w: World, c: Cluster, ms: seq<Manifest>, o: string, p: string, a: Addr)
    requires Tame(w) && p != "" && ApplyAll(w, c, ms, o).world.OwnedAt(a, p)
    ensures w.OwnedAt(a, p) || (p == o && exists i :: 0 <= i < |ms| && a == w.AddrOf(c, ms[i]) && Acceptable(ManifestIdentity(ms[i])))
  {
    hide Apply;
    hide ManifestIdentity;
    hide Acceptable;
    hide TameOthers;
    if ms != [] {
      var before := ApplyAll(w, c, Init(ms), o).world;
      ApplyOwns(before, c, Last(ms), o, p, a);
      if before.OwnedAt(a, p) {
        ApplyAllOwns(w, c, Init(ms), o, p, a);
        if !w.OwnedAt(a, p) {
          var i :| 0 <= i < |Init(ms)| && a == w.AddrOf(c, Init(ms)[i]) && Acceptable(ManifestIdentity(Init(ms)[i]));
          assert ms[i] == Init(ms)[i];
        }
      } else {
        assert ms[|ms| - 1] == Last(ms) && a == w.AddrOf(c, Last(ms));
      }
    }
  }

  // ------------------------------------------------------------------ Prune

  lemma PruneOneFacts(w: LoneWorld, c: Cluster, rs: ResourceStatus, o: string)
    ensures var r := PruneOne(w, c, rs, o); var a := w.StatusAddr(c, rs);
            && Continues(w, r.world)
            && (r.world.live == w.live || (w.OwnedAt(a, o) && r.world.live == w.live - {a}))
            && (!r.err ==> !r.world.OwnedAt(a, o))
  {
    hide ManifestIdentity;
    hide StatusIdentity;
    hide ManifestFromStatus;
    hide DeleteOwned;
    RebuiltAddr(w, c, rs);
    var m := ManifestFromStatus(rs);
    var g := Get(w, w.AddrOf(c, m));
    DeleteFacts(g.world, c, m, o);
  }

  /** Only owned orphans of the walked entries are removed. */
  lemma {:induction false} PruneEffect(w: LoneWorld, c: Cluster, es: seq<ResourceStatus>, keys: set<string>, cr: CR, o: string)
    ensures var w' := Prune(w, c, es, keys, cr, o).world;
            && Continues(w, w')
            && Shrinks(w, w')
            && forall a :: a in w.live && a !in w'.live ==>
                 w.OwnedAt(a, o) && exists rs :: rs in es && Orphan(cr, keys, rs) && a == w.StatusAddr(c, rs)
  {
    hide PruneOne;
    hide StatusIdentity;
    hide Orphan;
    if es != [] {
      var before := Prune(w, c, Init(es), keys, cr, o).world;
      var w' := Prune(w, c, es, keys, cr, o).world;
      PruneEffect(w, c, Init(es), keys, cr, o);
      if Orphan(cr, keys, Last(es)) {
        PruneOneFacts(before, c, Last(es), o);
        forall a | a in w.live && a !in w'.live
          ensures w.OwnedAt(a, o) && exists rs :: rs in es && Orphan(cr, keys, rs) && a == w.StatusAddr(c, rs)
        {
          if a in before.live {
            assert Last(es) in es && a == w.StatusAddr(c, Last(es));
          } else {
            var rs :| rs in Init(es) && Orphan(cr, keys, rs) && a == w.StatusAddr(c, rs);
            assert rs in es;
          }
        }
      }
    }
  }

  /** The retained entries are walked orphans, and there is an error exactly when there is one. */
  lemma {:induction false} PruneRetained(w: World, c: Cluster, es: seq<ResourceStatus>, keys: set<string>, cr: CR, o: string)
    ensures var r := Prune(w, c, es, keys, cr, o);
            && (r.err <==> r.retained != [])
            && forall rs :: rs in r.retained ==> rs in es && Orphan(cr, keys, rs)
  {
    if es != [] {
      PruneRetained(w, c, Init(es), keys, cr, o);
    }
  }

  /** An orphan that is not retained is no longer live and owned. */
  lemma {:induction false} PruneGone(w: LoneWorld, c: Cluster, es: seq<ResourceStatus>, keys: set<string>, cr: CR,
                                     o: string, rs: ResourceStatus)
    requires rs in es && Orphan(cr, keys, rs)
    requires rs !in Prune(w, c, es, keys, cr, o).retained
    ensures !Prune(w, c, es, keys, cr, o).world.OwnedAt(w.StatusAddr(c, rs), o)
  {
    var before := Prune(w, c, Init(es), keys, cr, o);
    PruneEffect(w, c, Init(es), keys, cr, o);
    if Orphan(cr, keys, Last(es)) {
      PruneOneFacts(before.world, c, Last(es), o);
      var r := PruneOne(before.world, c, Last(es), o);
      if rs == Last(es) {
        assert Prune(w, c, es, keys, cr, o).retained == before.retained + if r.err then [rs] else [];
      } else {
        assert rs in Init(es);
        PruneGone(w, c, Init(es), keys, cr, o, rs);
      }
    } else {
      assert rs in Init(es);
      PruneGone(w, c, Init(es), keys, cr, o, rs);
    }
  }

  /** Whoever else acts, a prune makes nobody own anything. */
  lemma PruneOneLoses(w: World, c: Cluster, rs: ResourceStatus, o: string, p: string)
    requires Tame(w) && p != ""
    ensures var r := PruneOne(w, c, rs, o);
            OnlyLoses(w, r.world, p) && (p == o && !r.err ==> !r.world.OwnedAt(w.StatusAddr(c, rs), o))
  {
    hide ManifestIdentity;
    hide StatusIdentity;
    hide ManifestFromStatus;
    hide DeleteOwned;
    hide TameOthers;
    RebuiltAddr(w, c, rs);
    var m := ManifestFromStatus(rs);
    var g := Get(w, w.AddrOf(c, m));
    MetLoses(w, p);
    DeleteLoses(g.world, c, m, o, p);
  }

  lemma {:induction false} PruneLoses(w: World, c: Cluster, es: seq<ResourceStatus>, keys: set<string>, cr: CR, o: string, p: string)
    requires Tame(w) && p != ""
    ensures OnlyLoses(w, Prune(w, c, es, keys, cr, o).world, p)
  {
    hide PruneOne;
    hide TameOthers;
    if es != [] {
      PruneLoses(w, c, Init(es), keys, cr, o, p);
      PruneOneLoses(Prune(w, c, Init(es), keys, cr, o).world, c, Last(es), o, p);
    }
  }

  /** Whoever else acts, an orphan that is not retained is no longer owned. */
  lemma {:induction false} PruneFrees(w: World, c: Cluster, es: seq<ResourceStatus>, keys: set<string>, cr: CR,
                                      o: string, rs: ResourceStatus)
    requires Tame(w) && o != "" && rs in es && Orphan(cr, keys, rs)
    requires rs !in Prune(w, c, es, keys, cr, o).retained
    ensures !Prune(w, c, es, keys, cr, o).world.OwnedAt(w.StatusAddr(c, rs), o)
  {
    hide PruneOne;
    hide StatusIdentity;
    hide TameOthers;
    hide Orphan;
    var before := Prune(w, c, Init(es), keys, cr, o);
    var r := PruneOne(before.world, c, Last(es), o);
    PruneOneLoses(before.world, c, Last(es), o, o);
    if rs == Last(es) {
      assert Prune(w, c, es, keys, cr, o).retained == before.retained + if r.err then [rs] else [];
    } else {
      assert rs in Init(es);
      PruneFrees(w, c, Init(es), keys, cr, o, rs);
    }
  }

  // ------------------------------------------------------------- Delete all

  lemma DeleteEntryLoses(w: World, c: Cluster, rs: ResourceStatus, o: string, p: string)
    requires Tame(w) && p != ""
    ensures var r := DeleteOwned(w, c, ManifestFromStatus(rs), o);
            OnlyLoses(w, r.world, p) && (p == o && !r.err ==> !r.world.OwnedAt(w.StatusAddr(c, rs), o))
  {
    hide ManifestIdentity;
    hide StatusIdentity;
    hide ManifestFromStatus;
    hide DeleteOwned;
    RebuiltAddr(w, c, rs);
    DeleteLoses(w, c, ManifestFromStatus(rs), o, p);
  }

  lemma {:induction false} DeleteAllLoses(w: World, c: Cluster, es: seq<ResourceStatus>, cr: CR, o: string, p: string)
    requires Tame(w) && p != ""
    ensures OnlyLoses(w, DeleteAll(w, c, es, cr, o).world, p)
  {
    hide DeleteOwned;
    hide TameOthers;
    if es != [] {
      DeleteAllLoses(w, c, Init(es), cr, o, p);
      DeleteEntryLoses(DeleteAll(w, c, Init(es), cr, o).world, c, Last(es), o, p);
    }
  }

  /** Whoever else acts, without an error no deletable entry is owned any more. */
  lemma {:induction false} DeleteAllFrees(w: World, c: Cluster, es: seq<ResourceStatus>, cr: CR, o: string, rs: ResourceStatus)
    requires Tame(w) && o != "" && rs in es && !KeepsCrd(cr, rs)
    requires !DeleteAll(w, c, es, cr, o).err
    ensures !DeleteAll(w, c, es, cr, o).world.OwnedAt(w.StatusAddr(c, rs), o)
  {
    hide DeleteOwned;
    hide StatusIdentity;
    hide TameOthers;
    hide KeepsCrd;
    var before := DeleteAll(w, c, Init(es), cr, o);
    DeleteEntryLoses(before.world, c, Last(es), o, o);
    if rs != Last(es) {
      assert rs in Init(es);
      DeleteAllFrees(w, c, Init(es), cr, o, rs);
    }
  }


  lemma {:induction false} DeleteAllEffect(w: LoneWorld, c: Cluster, es: seq<ResourceStatus>, cr: CR, o: string)
    ensures var w' := DeleteAll(w, c, es, cr, o).world;
            && Continues(w, w')
            && Shrinks(w, w')
            && forall a :: a in w.live && a !in w'.live ==>
                 w.OwnedAt(a, o) && exists rs :: rs in es && !KeepsCrd(cr, rs) && a == w.StatusAddr(c, rs)
  {
    hide DeleteOwned;
    hide StatusIdentity;
    hide ManifestIdentity;
    hide ManifestFromStatus;
    hide KeepsCrd;
    if es != [] {
      var before := DeleteAll(w, c, Init(es), cr, o).world;
      var w' := DeleteAll(w, c, es, cr, o).world;
      DeleteAllEffect(w, c, Init(es), cr, o);
      if !KeepsCrd(cr, Last(es)) {
        RebuiltAddr(w, c, Last(es));
        DeleteFacts(before, c, ManifestFromStatus(Last(es)), o);
        forall a | a in w.live && a !in w'.live
          ensures w.OwnedAt(a, o) && exists rs :: rs in es && !KeepsCrd(cr, rs) && a == w.StatusAddr(c, rs)
        {
          if a in before.live {
            assert Last(es) in es && a == w.StatusAddr(c, Last(es));
          } else {
            var rs :| rs in Init(es) && !KeepsCrd(cr, rs) && a == w.StatusAddr(c, rs);
            assert rs in es;
          }
        }
      }
    }
  }

  /** Without an error, no deletable entry is live and owned any more. */
  lemma {:induction false} DeleteAllGone(w: LoneWorld, c: Cluster, es: seq<ResourceStatus>, cr: CR, o: string, rs: ResourceStatus)
    requires rs in es && !KeepsCrd(cr, rs)
    requires !DeleteAll(w, c, es, cr, o).err
    ensures !DeleteAll(w, c, es, cr, o).world.OwnedAt(w.StatusAddr(c, rs), o)
  {
    var before := DeleteAll(w, c, Init(es), cr, o);
    DeleteAllEffect(w, c, Init(es), cr, o);
    if rs != Last(es) {
      assert rs in Init(es);
      DeleteAllGone(w, c, Init(es), cr, o, rs);
    }
    if !KeepsCrd(cr, Last(es)) {
      RebuiltAddr(w, c, Last(es));
      DeleteFacts(before.world, c, ManifestFromStatus(Last(es)), o);
    }
  }

  // -------------------------------------------------------- What any walk keeps

  /** A cluster-scoped object that another owner's label protects. */
  ghost predicate Foreign(w: World, a: Addr, o: string) {
    a in w.live && Owner(w.live[a]) != "" && Owner(w.live[a]) != o && IsClusterScoped(a.id.kind)
  }

  /**
    What a pass of `o` on behalf of `cr` may do to the clusters: it stays on its two clusters,
    whatever it changes ends up carrying its own label or gone, and it leaves the protected
    objects of other owners alone.
   */
  ghost predicate Lawful(w: World, w': World, cr: CR, o: string) {
    && Continues(w, w')
    && (forall a: Addr :: a.cluster != Seed && a.cluster != Shoot(cr.shootId) ==> SameAt(w, w', a))
    && (forall a :: a in w'.live ==> SameAt(w, w', a) || Owner(w'.live[a]) == o)
    && (forall a :: Foreign(w, a, o) ==> SameAt(w, w', a))
  }

  lemma LawfulTransitive(w: World, w1: World, w2: World, cr: CR, o: string)
    requires Lawful(w, w1, cr, o) && Lawful(w1, w2, cr, o)
    ensures Lawful(w, w2, cr, o)
  {
    forall a: Addr | SameAt(w, w1, a) && SameAt(w1, w2, a) ensures SameAt(w, w2, a) { }
    forall a | a in w2.live ensures SameAt(w, w2, a) || Owner(w2.live[a]) == o {
      if Owner(w2.live[a]) != o {
        assert SameAt(w1, w2, a);
        assert SameAt(w, w1, a);
      }
    }
    forall a | Foreign(w, a, o) ensures SameAt(w, w2, a) {
      assert SameAt(w, w1, a);
      assert Foreign(w1, a, o);
    }
  }

  lemma LawfulRefl(w: World, cr: CR, o: string)
    ensures Lawful(w, w, cr, o)
  {
  }

  lemma ApplyLawful(w: LoneWorld, cr: CR, c: Cluster, m: Manifest, o: string)
    requires c == Seed || c == Shoot(cr.shootId)
    ensures Lawful(w, Apply(w, c, m, o).world, cr, o)
  {
    ApplyFacts(w, c, m, o);
    var a, w' := w.AddrOf(c, m), Apply(w, c, m, o).world;
    if Foreign(w, a, o) && !SameAt(w, w', a) {
      assert a.id.kind == KindOf(m).kind == m.kind;
      ApplyRespectsForeign(w, c, m, o);
    }
  }

  lemma {:induction false} ApplyAllLawful(w: LoneWorld, cr: CR, c: Cluster, ms: seq<Manifest>, o: string)
    requires c == Seed || c == Shoot(cr.shootId)
    ensures Lawful(w, ApplyAll(w, c, ms, o).world, cr, o)
  {
    hide Apply;
    hide Lawful;
    if ms == [] {
      LawfulRefl(w, cr, o);
    } else {
      var before := ApplyAll(w, c, Init(ms), o).world;
      ApplyAllLawful(w, cr, c, Init(ms), o);
      ApplyLawful(before, cr, c, Last(ms), o);
      LawfulTransitive(w, before, ApplyAll(w, c, ms, o).world, cr, o);
    }
  }

  /** Taking away owned objects of one of the two clusters is lawful. */
  lemma ShrinkLawful(w: LoneWorld, w': World, cr: CR, c: Cluster, o: string)
    requires c == Seed || c == Shoot(cr.shootId)
    requires Continues(w, w') && Shrinks(w, w')
    requires forall a :: a in w.live && a !in w'.live ==> w.OwnedAt(a, o) && a.cluster == c
    ensures Lawful(w, w', cr, o)
  {
  }

  lemma PruneLawful(w: LoneWorld, c: Cluster, es: seq<ResourceStatus>, keys: set<string>, cr: CR, o: string)
    requires c == Seed || c == Shoot(cr.shootId)
    ensures Lawful(w, Prune(w, c, es, keys, cr, o).world, cr, o)
  {
    hide Prune;
    PruneEffect(w, c, es, keys, cr, o);
    ShrinkLawful(w, Prune(w, c, es, keys, cr, o).world, cr, c, o);
  }

  lemma DeleteAllLawful(w: LoneWorld, c: Cluster, es: seq<ResourceStatus>, cr: CR, o: string)
    requires c == Seed || c == Shoot(cr.shootId)
    ensures Lawful(w, DeleteAll(w, c, es, cr, o).world, cr, o)
  {
    hide DeleteAll;
    DeleteAllEffect(w, c, es, cr, o);
    ShrinkLawful(w, DeleteAll(w, c, es, cr, o).world, cr, c, o);
  }
}

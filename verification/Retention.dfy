/** Exactly which entries a walk retains, which it asks the server to delete, and when it errs. */
module Retention {
  import opened Ordering
  import opened Manifests
  import opened Api
  import opened Deliver
  import opened Controller
  import opened Effects

  /** The fault that the request `k` places ahead will meet. */
  function Ahead(w: World, k: nat): Fault { w.answers(|w.log| + k).fault }

  ghost predicate NoDeletesOn(w: World, w': World, c: Cluster) {
    w.log <= w'.log && forall i :: |w.log| <= i < |w'.log| && w'.log[i].Deleted? ==> w'.log[i].addr.cluster != c
  }

  lemma NoDeletesTransitive(w: World, w1: World, w2: World, c: Cluster)
    requires NoDeletesOn(w, w1, c) && NoDeletesOn(w1, w2, c)
    ensures NoDeletesOn(w, w2, c)
  {
  }

  /** Deletes on `c` from `w` to `w'` all lie between `from` and `to`. */
  lemma DeletesWithin(w: World, from: World, to: World, w': World, c: Cluster)
    requires NoDeletesOn(w, from, c) && from.log <= to.log && NoDeletesOn(to, w', c)
    ensures forall i :: |w.log| <= i < |w'.log| && w'.log[i].Deleted? && w'.log[i].addr.cluster == c ==>
              |from.log| <= i < |to.log|
  {
    assert from.log <= w'.log;
    forall i | |w.log| <= i < |from.log| ensures w'.log[i] == from.log[i] { }
  }

  // --------------------------------------------------------------- One removal

  /** A prune of the object at `a` fails: it cannot be read, or it is owned and its second read or its delete fails. */
  predicate PruneFails(w: World, a: Addr, o: string) {
    if a !in w.live then Ahead(w, 0).Failed? || Ahead(w, 0).FailedAfterEffect?
    else !Ahead(w, 0).Fine? || (Owner(w.live[a]) == o && !(Ahead(w, 1).Fine? && Ahead(w, 2).Fine?))
  }

  /** A prune asks for the delete: the object reads back live and owned, twice. */
  predicate PruneTargets(w: World, a: Addr, o: string) {
    w.OwnedAt(a, o) && Ahead(w, 0).Fine? && Ahead(w, 1).Fine?
  }

  /** A deletion of the object at `a` fails; unlike a prune it takes an unknown kind for an error. */
  predicate DeleteFails(w: World, a: Addr, o: string) {
    !Ahead(w, 0).Fine? || (w.OwnedAt(a, o) && !Ahead(w, 1).Fine?)
  }

  predicate DeleteTargets(w: World, a: Addr, o: string) { w.OwnedAt(a, o) && Ahead(w, 0).Fine? }

  /** The requests from `w` to `w'` hold one delete, of `a` and at position `i`, if `asked`, and none otherwise. */
  ghost predicate OneDelete(w: World, w': World, a: Addr, o: string, asked: bool, i: nat) {
    && w.log <= w'.log
    && (forall j :: |w.log| <= j < |w'.log| ==> (w'.log[j].Deleted? <==> asked && j == i))
    && (asked ==> i < |w'.log| && w'.log[i].Deleted? && w'.log[i].addr == a && w'.log[i].owner == o)
  }

  lemma DeleteOwnedExact(w: LoneWorld, c: Cluster, m: Manifest, o: string)
    ensures var r := DeleteOwned(w, c, m, o); var a := w.AddrOf(c, m);
            && r.err == DeleteFails(w, a, o)
            && OneDelete(w, r.world, a, o, DeleteTargets(w, a, o), |w.log| + 1)
  {
    hide ManifestIdentity;
  }

  lemma PruneOneExact(w: LoneWorld, c: Cluster, rs: ResourceStatus, o: string)
    ensures var r := PruneOne(w, c, rs, o); var a := w.StatusAddr(c, rs);
            && r.err == PruneFails(w, a, o)
            && OneDelete(w, r.world, a, o, PruneTargets(w, a, o), |w.log| + 2)
  {
    hide ManifestIdentity;
    hide StatusIdentity;
    hide ManifestFromStatus;
    hide DeleteOwned;
    RebuiltAddr(w, c, rs);
    var m := ManifestFromStatus(rs);
    var g := Get(w, w.AddrOf(c, m));
    DeleteOwnedExact(g.world, c, m, o);
  }

  // ------------------------------------------------------------- A whole prune

  /** The world in which a prune reaches entry `k`. */
  ghost function PruneAt(w: World, c: Cluster, es: seq<ResourceStatus>, keys: set<string>, cr: CR, o: string, k: nat): World
    requires k <= |es|
  {
    Prune(w, c, es[..k], keys, cr, o).world
  }

  ghost predicate RetainsAt(w: World, c: Cluster, es: seq<ResourceStatus>, keys: set<string>, cr: CR, o: string, k: nat) {
    && k < |es| && Orphan(cr, keys, es[k])
    && PruneFails(PruneAt(w, c, es, keys, cr, o, k), w.StatusAddr(c, es[k]), o)
  }

  /** Request `i` is the delete that entry `k` asks for. */
  ghost predicate TargetsAt(w: World, c: Cluster, es: seq<ResourceStatus>, keys: set<string>, cr: CR, o: string, k: nat, i: nat) {
    && k < |es| && Orphan(cr, keys, es[k])
    && var at := PruneAt(w, c, es, keys, cr, o, k);
       PruneTargets(at, w.StatusAddr(c, es[k]), o) && i == |at.log| + 2
  }

  /** `idx` lists in order the positions of `es` at which `kept` was taken. */
  ghost predicate Picked(kept: seq<ResourceStatus>, es: seq<ResourceStatus>, idx: seq<nat>) {
    && |idx| == |kept|
    && (forall j :: 0 <= j < |idx| ==> idx[j] < |es| && kept[j] == es[idx[j]])
    && (forall j, k :: 0 <= j < k < |idx| ==> idx[j] < idx[k])
  }

  /** The retained entries are, in order, exactly the orphans whose read or delete fails. */
  ghost predicate RetainedExactly(w: World, c: Cluster, es: seq<ResourceStatus>, keys: set<string>, cr: CR, o: string,
                                  kept: seq<ResourceStatus>, idx: seq<nat>) {
    Picked(kept, es, idx) && forall k: nat :: k in idx <==> RetainsAt(w, c, es, keys, cr, o, k)
  }

  /**
    The deletes on `c` that `log` holds from `lo` on are exactly those of the orphans that read back
    live and owned in a prune that starts from `w`.
   */
  ghost predicate TargetedExactly(lo: nat, log: seq<Event>, w: World, c: Cluster, es: seq<ResourceStatus>,
                                  keys: set<string>, cr: CR, o: string) {
    && (forall i :: lo <= i < |log| && log[i].Deleted? && log[i].addr.cluster == c ==>
          exists k: nat :: TargetsAt(w, c, es, keys, cr, o, k, i))
    && (forall k: nat, i: nat :: TargetsAt(w, c, es, keys, cr, o, k, i) ==>
          lo <= i < |log| && log[i].Deleted? && log[i].addr == w.StatusAddr(c, es[k]) && log[i].owner == o)
  }

  lemma PrefixAt(w: World, c: Cluster, es: seq<ResourceStatus>, keys: set<string>, cr: CR, o: string, k: nat)
    requires k < |es|
    ensures PruneAt(w, c, Init(es), keys, cr, o, k) == PruneAt(w, c, es, keys, cr, o, k)
  {
    assert Init(es)[..k] == es[..k];
  }

  lemma RetainsPrefix(w: World, c: Cluster, es: seq<ResourceStatus>, keys: set<string>, cr: CR, o: string, k: nat)
    requires es != [] && k < |es| - 1
    ensures RetainsAt(w, c, Init(es), keys, cr, o, k) <==> RetainsAt(w, c, es, keys, cr, o, k)
    ensures forall i :: TargetsAt(w, c, Init(es), keys, cr, o, k, i) <==> TargetsAt(w, c, es, keys, cr, o, k, i)
  {
    PrefixAt(w, c, es, keys, cr, o, k);
  }

  lemma PruneLast(w: LoneWorld, c: Cluster, es: seq<ResourceStatus>, keys: set<string>, cr: CR, o: string)
    requires es != []
    ensures Prune(w, c, es, keys, cr, o).retained ==
            Prune(w, c, Init(es), keys, cr, o).retained
            + if RetainsAt(w, c, es, keys, cr, o, |es| - 1) then [Last(es)] else []
  {
    hide PruneOne;
    hide PruneFails;
    hide Orphan;
    hide StatusIdentity;
    var n, before := |es| - 1, Prune(w, c, Init(es), keys, cr, o);
    PruneOneExact(before.world, c, es[n], o);
    assert es[..n] == Init(es) && PruneAt(w, c, es, keys, cr, o, n) == before.world;
  }

  lemma {:induction false} PruneExact(w: LoneWorld, c: Cluster, es: seq<ResourceStatus>, keys: set<string>, cr: CR, o: string)
    returns (idx: seq<nat>)
    ensures RetainedExactly(w, c, es, keys, cr, o, Prune(w, c, es, keys, cr, o).retained, idx)
  {
    hide PruneOne;
    hide PruneFails;
    hide PruneAt;
    hide Orphan;
    hide StatusIdentity;
    idx := [];
    if es != [] {
      var n := |es| - 1;
      var rest := PruneExact(w, c, Init(es), keys, cr, o);
      PruneLast(w, c, es, keys, cr, o);
      hide Prune;
      idx := if RetainsAt(w, c, es, keys, cr, o, n) then rest + [n] else rest;
      forall k: nat ensures k in idx <==> RetainsAt(w, c, es, keys, cr, o, k) {
        if k < n { RetainsPrefix(w, c, es, keys, cr, o, k); }
        assert k in rest ==> k < n;
      }
    }
  }

  lemma {:induction false} PruneTargeted(w: LoneWorld, c: Cluster, es: seq<ResourceStatus>, keys: set<string>, cr: CR, o: string)
    ensures TargetedExactly(|w.log|, Prune(w, c, es, keys, cr, o).world.log, w, c, es, keys, cr, o)
  {
    hide PruneOne;
    hide PruneTargets;
    hide Orphan;
    hide StatusIdentity;
    if es != [] {
      var n := |es| - 1;
      var w1, w2 := Prune(w, c, Init(es), keys, cr, o).world, Prune(w, c, es, keys, cr, o).world;
      PruneTargeted(w, c, Init(es), keys, cr, o);
      PruneEffect(w, c, Init(es), keys, cr, o);
      PruneOneExact(w1, c, es[n], o);
      assert es[..n] == Init(es) && PruneAt(w, c, es, keys, cr, o, n) == w1;
      hide PruneAt;
      forall k: nat, i: nat | k < n
        ensures TargetsAt(w, c, Init(es), keys, cr, o, k, i) <==> TargetsAt(w, c, es, keys, cr, o, k, i)
      {
        RetainsPrefix(w, c, es, keys, cr, o, k);
      }
      assert w1.log <= w2.log;
      forall i | |w.log| <= i < |w2.log| && w2.log[i].Deleted? && w2.log[i].addr.cluster == c
        ensures exists k: nat :: TargetsAt(w, c, es, keys, cr, o, k, i)
      {
        if i < |w1.log| {
          assert w1.log[i].Deleted?;
          var k: nat :| TargetsAt(w, c, Init(es), keys, cr, o, k, i);
          assert TargetsAt(w, c, es, keys, cr, o, k, i);
        } else {
          assert TargetsAt(w, c, es, keys, cr, o, n, i);
        }
      }
      forall k: nat, i: nat | TargetsAt(w, c, es, keys, cr, o, k, i)
        ensures |w.log| <= i < |w2.log| && w2.log[i].Deleted? && w2.log[i].addr == w.StatusAddr(c, es[k]) && w2.log[i].owner == o
      {
        if k < n {
          assert TargetsAt(w, c, Init(es), keys, cr, o, k, i);
          assert w2.log[i] == w1.log[i];
        }
      }
    }
  }

  /** The log from `lo` on holds a delete at `a`. */
  ghost predicate DeletedIn(log: seq<Event>, lo: nat, a: Addr) {
    exists i :: lo <= i < |log| && log[i].Deleted? && log[i].addr == a
  }

  lemma PruneOneDeletes(w: LoneWorld, c: Cluster, rs: ResourceStatus, o: string, a: Addr)
    requires a in w.live && a !in PruneOne(w, c, rs, o).world.live
    ensures DeletedIn(PruneOne(w, c, rs, o).world.log, |w.log|, a)
  {
    hide ManifestIdentity;
    hide StatusIdentity;
    var log := PruneOne(w, c, rs, o).world.log;
    PruneOneFacts(w, c, rs, o);
    PruneOneExact(w, c, rs, o);
    assert PruneTargets(w, w.StatusAddr(c, rs), o);
    assert log[|w.log| + 2].Deleted? && log[|w.log| + 2].addr == a;
  }

  /** A prune takes an object away only by a delete that the log shows. */
  lemma {:induction false} PruneDeletes(w: LoneWorld, c: Cluster, es: seq<ResourceStatus>, keys: set<string>, cr: CR, o: string, a: Addr)
    requires a in w.live && a !in Prune(w, c, es, keys, cr, o).world.live
    ensures DeletedIn(Prune(w, c, es, keys, cr, o).world.log, |w.log|, a)
  {
    hide PruneOne;
    hide Orphan;
    var before, log := Prune(w, c, Init(es), keys, cr, o).world, Prune(w, c, es, keys, cr, o).world.log;
    PruneEffect(w, c, Init(es), keys, cr, o);
    if Orphan(cr, keys, Last(es)) { PruneOneExact(before, c, Last(es), o); }
    if a in before.live {
      PruneOneDeletes(before, c, Last(es), o, a);
    } else {
      PruneDeletes(w, c, Init(es), keys, cr, o, a);
      var i :| |w.log| <= i < |before.log| && before.log[i].Deleted? && before.log[i].addr == a;
      assert log[i] == before.log[i];
    }
  }

  // ---------------------------------------------------------- A whole deletion

  /** The world in which a deletion reaches entry `k`. */
  ghost function DeleteAt(w: World, c: Cluster, es: seq<ResourceStatus>, cr: CR, o: string, k: nat): World
    requires k <= |es|
  {
    DeleteAll(w, c, es[..k], cr, o).world
  }

  ghost predicate FailsAt(w: World, c: Cluster, es: seq<ResourceStatus>, cr: CR, o: string, k: nat) {
    && k < |es| && !KeepsCrd(cr, es[k])
    && DeleteFails(DeleteAt(w, c, es, cr, o, k), w.StatusAddr(c, es[k]), o)
  }

  /** Request `i` is the delete that entry `k` asks for. */
  ghost predicate DropsAt(w: World, c: Cluster, es: seq<ResourceStatus>, cr: CR, o: string, k: nat, i: nat) {
    && k < |es| && !KeepsCrd(cr, es[k])
    && var at := DeleteAt(w, c, es, cr, o, k);
       DeleteTargets(at, w.StatusAddr(c, es[k]), o) && i == |at.log| + 1
  }

  /** Request `i` is the read of entry `k`. */
  ghost predicate ReadsAt(w: World, c: Cluster, es: seq<ResourceStatus>, cr: CR, o: string, k: nat, i: nat) {
    k < |es| && !KeepsCrd(cr, es[k]) && i == |DeleteAt(w, c, es, cr, o, k).log|
  }

  /** In `log` from `lo` on, a deletion that starts from `w` reads every deletable entry. */
  ghost predicate ReadsAll(lo: nat, log: seq<Event>, w: World, c: Cluster, es: seq<ResourceStatus>, cr: CR, o: string) {
    forall k: nat, i: nat :: ReadsAt(w, c, es, cr, o, k, i) ==> lo <= i < |log| && log[i] == Read(w.StatusAddr(c, es[k]))
  }

  /** And its deletes on `c` are exactly those of the entries that read back live and owned. */
  ghost predicate DropsExactly(lo: nat, log: seq<Event>, w: World, c: Cluster, es: seq<ResourceStatus>, cr: CR, o: string) {
    && (forall i :: lo <= i < |log| && log[i].Deleted? && log[i].addr.cluster == c ==>
          exists k: nat :: DropsAt(w, c, es, cr, o, k, i))
    && (forall k: nat, i: nat :: DropsAt(w, c, es, cr, o, k, i) ==>
          lo <= i < |log| && log[i].Deleted? && log[i].addr == w.StatusAddr(c, es[k]) && log[i].owner == o)
  }

  lemma DropsPrefix(w: World, c: Cluster, es: seq<ResourceStatus>, cr: CR, o: string, k: nat)
    requires es != [] && k < |es| - 1
    ensures FailsAt(w, c, Init(es), cr, o, k) <==> FailsAt(w, c, es, cr, o, k)
    ensures forall i :: DropsAt(w, c, Init(es), cr, o, k, i) <==> DropsAt(w, c, es, cr, o, k, i)
    ensures forall i :: ReadsAt(w, c, Init(es), cr, o, k, i) <==> ReadsAt(w, c, es, cr, o, k, i)
  {
    assert Init(es)[..k] == es[..k];
  }

  lemma DeleteOneExact(w: LoneWorld, c: Cluster, rs: ResourceStatus, o: string)
    ensures var r := DeleteOwned(w, c, ManifestFromStatus(rs), o); var a := w.StatusAddr(c, rs);
            && r.err == DeleteFails(w, a, o)
            && OneDelete(w, r.world, a, o, DeleteTargets(w, a, o), |w.log| + 1)
            && w.log < r.world.log && r.world.log[|w.log|] == Read(a)
  {
    hide ManifestIdentity;
    hide StatusIdentity;
    hide ManifestFromStatus;
    RebuiltAddr(w, c, rs);
    DeleteOwnedExact(w, c, ManifestFromStatus(rs), o);
  }

  /** A deletion errs exactly if one of its entries does. */
  lemma {:induction false} DeleteAllErrsIff(w: LoneWorld, c: Cluster, es: seq<ResourceStatus>, cr: CR, o: string)
    ensures DeleteAll(w, c, es, cr, o).err <==> exists k: nat :: FailsAt(w, c, es, cr, o, k)
  {
    hide DeleteOwned;
    hide DeleteFails;
    hide KeepsCrd;
    hide ManifestFromStatus;
    hide StatusIdentity;
    if es != [] {
      var n := |es| - 1;
      var before := DeleteAll(w, c, Init(es), cr, o);
      DeleteAllErrsIff(w, c, Init(es), cr, o);
      DeleteAllEffect(w, c, Init(es), cr, o);
      DeleteOneExact(before.world, c, es[n], o);
      assert es[..n] == Init(es) && DeleteAt(w, c, es, cr, o, n) == before.world;
      hide DeleteAt;
      forall k: nat | k < n ensures FailsAt(w, c, Init(es), cr, o, k) <==> FailsAt(w, c, es, cr, o, k) {
        DropsPrefix(w, c, es, cr, o, k);
      }
      if DeleteAll(w, c, es, cr, o).err {
        if before.err {
          var k: nat :| FailsAt(w, c, Init(es), cr, o, k);
          assert FailsAt(w, c, es, cr, o, k);
        } else {
          assert FailsAt(w, c, es, cr, o, n);
        }
      }
      if k: nat :| FailsAt(w, c, es, cr, o, k) {
        if k < n { assert FailsAt(w, c, Init(es), cr, o, k); }
      }
    }
  }

  lemma {:induction false} DeleteAllDrops(w: LoneWorld, c: Cluster, es: seq<ResourceStatus>, cr: CR, o: string)
    ensures DropsExactly(|w.log|, DeleteAll(w, c, es, cr, o).world.log, w, c, es, cr, o)
  {
    hide DeleteOwned;
    hide DeleteTargets;
    hide KeepsCrd;
    hide ManifestFromStatus;
    hide StatusIdentity;
    if es != [] {
      var n := |es| - 1;
      var w1, w2 := DeleteAll(w, c, Init(es), cr, o).world, DeleteAll(w, c, es, cr, o).world;
      DeleteAllDrops(w, c, Init(es), cr, o);
      DeleteAllEffect(w, c, Init(es), cr, o);
      DeleteOneExact(w1, c, es[n], o);
      assert es[..n] == Init(es) && DeleteAt(w, c, es, cr, o, n) == w1;
      hide DeleteAt;
      forall k: nat, i: nat | k < n
        ensures DropsAt(w, c, Init(es), cr, o, k, i) <==> DropsAt(w, c, es, cr, o, k, i)
      {
        DropsPrefix(w, c, es, cr, o, k);
      }
      assert w1.log <= w2.log;
      forall i | |w.log| <= i < |w2.log| && w2.log[i].Deleted? && w2.log[i].addr.cluster == c
        ensures exists k: nat :: DropsAt(w, c, es, cr, o, k, i)
      {
        if i < |w1.log| {
          assert w1.log[i].Deleted?;
          var k: nat :| DropsAt(w, c, Init(es), cr, o, k, i);
          assert DropsAt(w, c, es, cr, o, k, i);
        } else {
          assert DropsAt(w, c, es, cr, o, n, i);
        }
      }
      forall k: nat, i: nat | DropsAt(w, c, es, cr, o, k, i)
        ensures |w.log| <= i < |w2.log| && w2.log[i].Deleted? && w2.log[i].addr == w.StatusAddr(c, es[k]) && w2.log[i].owner == o
      {
        if k < n { assert DropsAt(w, c, Init(es), cr, o, k, i) && w2.log[i] == w1.log[i]; }
      }
    }
  }

  lemma {:induction false} DeleteAllReads(w: LoneWorld, c: Cluster, es: seq<ResourceStatus>, cr: CR, o: string)
    ensures ReadsAll(|w.log|, DeleteAll(w, c, es, cr, o).world.log, w, c, es, cr, o)
  {
    hide DeleteOwned;
    hide StatusIdentity;
    if es != [] {
      var n := |es| - 1;
      var w1, w2 := DeleteAll(w, c, Init(es), cr, o).world, DeleteAll(w, c, es, cr, o).world;
      DeleteAllReads(w, c, Init(es), cr, o);
      DeleteAllEffect(w, c, Init(es), cr, o);
      DeleteOneExact(w1, c, es[n], o);
      assert es[..n] == Init(es) && DeleteAt(w, c, es, cr, o, n) == w1;
      hide DeleteAt;
      forall k: nat, i: nat | ReadsAt(w, c, es, cr, o, k, i)
        ensures |w.log| <= i < |w2.log| && w2.log[i] == Read(w.StatusAddr(c, es[k]))
      {
        if k < n {
          DropsPrefix(w, c, es, cr, o, k);
          assert ReadsAt(w, c, Init(es), cr, o, k, i) && w2.log[i] == w1.log[i];
        }
      }
    }
  }
}

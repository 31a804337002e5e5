/** `SSAApplier`: server-side apply, ownership-checked delete, and read of one object. */
module Deliver {
  import opened Manifests
  import opened Api
  import opened Grading
  import Webhooks

  /** The outcome of an apply; `left` is the manifest as the apply leaves it in the caller's memory. */
  datatype Applied = Applied(world: World, status: ResourceStatus, err: bool, left: Manifest)

  datatype Verdict = Clear | Conflict | CheckFailed
  datatype Guarded = Guarded(world: World, verdict: Verdict)

  /** The conflict pre-check, done for statically known cluster-scoped kinds only. */
  function ForeignOwner(w: World, a: Addr, ownedBy: string): (r: Guarded)
    ensures Continues(w, r.world)
  {
    var g := Get(w, a);
    Guarded(g.world,
            match g.result
            case Found(o, _) => if Owner(o) != "" && Owner(o) != ownedBy then Conflict else Clear
            case NotFound => Clear
            case _ => CheckFailed)
  }

  /** The object that a successful apply of `m` puts in place. */
  function Stored(w: World, c: Cluster, m: Manifest, ownedBy: string): Manifest { w.Returned(c, Stamp(m, ownedBy)) }

  /** The status is taken from the manifest before the patch, which then rewrites the manifest. */
  function Apply(w: World, c: Cluster, m: Manifest, ownedBy: string): (r: Applied)
    ensures Continues(w, r.world)
  {
    var a := w.AddrOf(c, m);
    var g := if IsClusterScoped(m.kind) then ForeignOwner(w, a, ownedBy) else Guarded(w, Clear);
    if !g.verdict.Clear? then Applied(g.world, StatusOf(m, Degraded), true, Stamp(m, ownedBy))
    else
      var p := Patch(g.world, c, Stamp(m, ownedBy));
      if p.err then Applied(p.world, StatusOf(m, Degraded), true, p.obj)
      else
        var back := Get(p.world, a);
        var health := if back.result.Found? then ComputeHealth(m.kind, back.result.view) else Unknown;
        Applied(back.world, StatusOf(m, health), false, p.obj)
  }

  /** Deletes the object only if it carries the caller's label. */
  function DeleteOwned(w: World, c: Cluster, m: Manifest, ownedBy: string): (r: Wrote)
    ensures Continues(w, r.world)
  {
    var g := Get(w, w.AddrOf(c, m));
    match g.result
    case NotFound => Wrote(g.world, false)
    case Found(o, _) =>
      if Owner(o) != ownedBy then Wrote(g.world, false)
      else Delete(g.world, w.AddrOf(c, m), ownedBy)
    case _ => Wrote(g.world, true)
  }

  // ------------------------------------------------------------- Apply facts

  /** Nothing at `a` differs between the two worlds. */
  ghost predicate SameAt(w: World, w': World, a: Addr) {
    (a in w'.live <==> a in w.live) && (a in w.live ==> w'.live[a] == w.live[a])
  }

  /** What `p` owns, if anything, it owned before. */
  ghost predicate OnlyLoses(w: World, w': World, p: string) {
    forall a :: w'.OwnedAt(a, p) ==> w.OwnedAt(a, p)
  }

  lemma MetLoses(w: World, p: string)
    requires Tame(w) && p != ""
    ensures OnlyLoses(w, w.Met(), p)
  {
  }

  /** Whoever else acts: the status, the error and the manifest left are those of the patch. */
  lemma ApplyStatus(w: World, c: Cluster, m: Manifest, o: string)
    ensures var r := Apply(w, c, m, o);
            && r.status == StatusOf(m, r.status.health)
            && (r.err <==> r.status.health == Degraded)
            && r.left == (if r.err then Stamp(m, o) else Stored(w, c, m, o))
            && (!r.err ==> Acceptable(ManifestIdentity(m)))
  {
    hide IsClusterScoped;
    hide ManifestIdentity;
    hide Stamp;
    hide Acceptable;
  }

  /** Whoever else acts: an apply makes its owner own its own address at most, and nobody else anything. */
  lemma ApplyOwns(w: World, c: Cluster, m: Manifest, o: string, p: string, a: Addr)
    requires Tame(w) && p != "" && Apply(w, c, m, o).world.OwnedAt(a, p)
    ensures w.OwnedAt(a, p) || (p == o && a == w.AddrOf(c, m) && Acceptable(ManifestIdentity(m)))
  {
    hide IsClusterScoped;
    hide ManifestIdentity;
    hide ComputeHealth;
    hide Stamp;
    hide Acceptable;
    hide TameOthers;
    var b := w.AddrOf(c, m);
    var g := if IsClusterScoped(m.kind) then ForeignOwner(w, b, o) else Guarded(w, Clear);
    MetLoses(w, p);
    assert g.world.OwnedAt(a, p) ==> w.OwnedAt(a, p);
    if g.verdict.Clear? {
      var q := Patch(g.world, c, Stamp(m, o));
      MetLoses(g.world, p);
      assert q.world.OwnedAt(a, p) ==> g.world.OwnedAt(a, p) || (p == o && a == b && Acceptable(ManifestIdentity(m)));
      MetLoses(q.world, p);
    }
  }

  /** Whoever else acts: a delete makes nobody own anything, and without an error its owner does not own the address. */
  lemma DeleteLoses(w: World, c: Cluster, m: Manifest, o: string, p: string)
    requires Tame(w) && p != ""
    ensures var r := DeleteOwned(w, c, m, o);
            OnlyLoses(w, r.world, p) && (p == o && !r.err ==> !r.world.OwnedAt(w.AddrOf(c, m), o))
  {
    hide ManifestIdentity;
    hide TameOthers;
    var g := Get(w, w.AddrOf(c, m));
    MetLoses(w, p);
    MetLoses(g.world, p);
    var d := Delete(g.world, w.AddrOf(c, m), o);
    assert forall a :: g.world.OwnedAt(a, p) ==> w.OwnedAt(a, p);
    assert forall a :: d.world.OwnedAt(a, p) ==> g.world.Met().OwnedAt(a, p);
    assert forall a :: d.world.OwnedAt(a, p) ==> g.world.OwnedAt(a, p);
  }

  lemma PatchFacts(w: LoneWorld, c: Cluster, sent: Manifest)
    ensures var p := Patch(w, c, sent); var a := w.AddrOf(c, sent);
            && Continues(w, p.world)
            && (p.world.live == w.live || (p.world.live == w.live[a := w.Returned(c, sent)] && Acceptable(ManifestIdentity(sent))))
            && (!p.err ==> p.world.live == w.live[a := w.Returned(c, sent)] && Acceptable(ManifestIdentity(sent)))
            && p.obj == if p.err then sent else w.Returned(c, sent)
  {
  }

  /** An apply changes no live object but its own address, which gets the stamped manifest or stays. */
  lemma ApplyEffect(w: LoneWorld, c: Cluster, m: Manifest, o: string)
    ensures var r := Apply(w, c, m, o); var a := w.AddrOf(c, m);
            && Continues(w, r.world)
            && (r.world.live == w.live || (r.world.live == w.live[a := Stored(w, c, m, o)] && Acceptable(ManifestIdentity(m))))
            && (!r.err ==> r.world.live == w.live[a := Stored(w, c, m, o)] && Acceptable(ManifestIdentity(m)))
            && r.left == (if r.err then Stamp(m, o) else Stored(w, c, m, o))
  {
    hide IsClusterScoped;
    hide ManifestIdentity;
    hide ComputeHealth;
    hide Stamp;
    var a := w.AddrOf(c, m);
    var g := if IsClusterScoped(m.kind) then ForeignOwner(w, a, o) else Guarded(w, Clear);
    assert Continues(w, g.world) && g.world.live == w.live;
    PatchFacts(g.world, c, Stamp(m, o));
  }

  /**
    An apply touches its own address only, and there either leaves the object alone or writes
    the stamped manifest. It reports an error exactly when it grades the entry Degraded; without
    an error the object is live and owned, and the manifest has moved to the server's namespace.
   */
  lemma ApplyFacts(w: LoneWorld, c: Cluster, m: Manifest, o: string)
    ensures var r := Apply(w, c, m, o); var a := w.AddrOf(c, m);
            && Continues(w, r.world)
            && (forall b :: b != a ==> SameAt(w, r.world, b))
            && (SameAt(w, r.world, a) || (a in r.world.live && r.world.live[a] == Stored(w, c, m, o) && Acceptable(ManifestIdentity(m))))
            && r.status == StatusOf(m, r.status.health)
            && (r.err <==> r.status.health == Degraded)
            && r.left == (if r.err then Stamp(m, o) else Stored(w, c, m, o))
            && (!r.err ==> a in r.world.live && r.world.live[a] == Stored(w, c, m, o) && Acceptable(ManifestIdentity(m)))
  {
    hide IsClusterScoped;
    hide ManifestIdentity;
    hide Stamp;
    hide Patch;
    hide Acceptable;
    ApplyEffect(w, c, m, o);
  }

  /** What an error-free apply puts in place is the manifest itself, as the servers get it. */
  lemma ApplyContent(w: LoneWorld, c: Cluster, m: Manifest, o: string)
    requires !Apply(w, c, m, o).err
    ensures var w', a := Apply(w, c, m, o).world, w.AddrOf(c, m);
            && a in w'.live && Sent(m, o, w'.live[a])
            && (m.kind !in {"ValidatingWebhookConfiguration", "MutatingWebhookConfiguration", "CustomResourceDefinition"} ==>
                  w'.live[a].body == m.body)
  {
    hide Apply;
    hide ManifestIdentity;
    hide Acceptable;
    ApplyFacts(w, c, m, o);
    StoredSent(w, c, m, o);
  }

  lemma StoredSent(w: World, c: Cluster, m: Manifest, o: string)
    ensures Sent(m, o, Stored(w, c, m, o))
    ensures m.kind !in {"ValidatingWebhookConfiguration", "MutatingWebhookConfiguration", "CustomResourceDefinition"} ==>
              Stored(w, c, m, o).body == m.body
  {
    hide Stamp;
    hide ManifestIdentity;
    hide Webhooks.OnlyBundlesGone;
    StampSent(m, o);
  }

  /** The grade of an error-free apply: Unknown exactly if the object does not read back, else by what the read shows. */
  lemma ApplyGrade(w: LoneWorld, c: Cluster, m: Manifest, o: string)
    requires !Apply(w, c, m, o).err
    ensures var r := Apply(w, c, m, o);
            && |r.world.log| > |w.log| && r.world.log[|r.world.log| - 1] == Read(w.AddrOf(c, m))
            && var back := w.answers(|r.world.log| - 1);
               r.status.health == if back.fault.Fine? then ComputeHealth(m.kind, back.view) else Unknown
  {
    hide IsClusterScoped;
    hide ManifestIdentity;
    hide ComputeHealth;
    hide Stamp;
    hide Acceptable;
  }

  /** The guard: a cluster-scoped object labelled by another owner is never overwritten. */
  lemma ApplyRespectsForeign(w: LoneWorld, c: Cluster, m: Manifest, o: string)
    requires IsClusterScoped(m.kind)
    requires var a := w.AddrOf(c, m); a in w.live && Owner(w.live[a]) != "" && Owner(w.live[a]) != o
    ensures Apply(w, c, m, o).world.live == w.live && Apply(w, c, m, o).err
  {
  }

  /** A delete removes at most its own address, only if owned; without an error nothing owned is left there. */
  lemma DeleteFacts(w: LoneWorld, c: Cluster, m: Manifest, o: string)
    ensures var r := DeleteOwned(w, c, m, o); var a := w.AddrOf(c, m);
            && Continues(w, r.world)
            && (r.world.live == w.live || (w.OwnedAt(a, o) && r.world.live == w.live - {a}))
            && (!r.err ==> !r.world.OwnedAt(a, o))
  {
    hide ManifestIdentity;
  }

  /** The applier as an object bound to one cluster. */
  class SSAApplier {
    const api: ApiServer
    const cluster: Cluster

    constructor (api: ApiServer, cluster: Cluster)
      ensures this.api == api && this.cluster == cluster
    {
      this.api := api;
      this.cluster := cluster;
    }

    method CheckForeignOwner(a: Addr, ownedBy: string) returns (v: Verdict)
      modifies api
      ensures Guarded(api.View(), v) == ForeignOwner(old(api.View()), a, ownedBy)
    {
      var r := api.GetObject(a);
      match r {
        case Found(o, _) => v := if Owner(o) != "" && Owner(o) != ownedBy then Conflict else Clear;
        case NotFound => v := Clear;
        case _ => v := CheckFailed;
      }
    }

    method ApplyOne(m: Manifest, ownedBy: string) returns (status: ResourceStatus, err: bool, left: Manifest)
      modifies api
      ensures Applied(api.View(), status, err, left) == Apply(old(api.View()), cluster, m, ownedBy)
    {
      var sent := Stamp(m, ownedBy);
      status := StatusOf(sent, Degraded);
      var a := api.Locate(cluster, ManifestIdentity(m));
      if IsClusterScoped(m.kind) {
        var v := CheckForeignOwner(a, ownedBy);
        if !v.Clear? { return status, true, sent; }
      }
      var failed, obj := api.PatchObject(cluster, sent);
      if failed { return status, true, obj; }
      var back := api.GetObject(a);
      if !back.Found? { return status.(health := Unknown), false, obj; }
      status := status.(health := ComputeHealth(m.kind, back.view));
      err, left := false, obj;
    }

    method DeleteOne(m: Manifest, ownedBy: string) returns (err: bool)
      modifies api
      ensures Wrote(api.View(), err) == DeleteOwned(old(api.View()), cluster, m, ownedBy)
    {
      var a := api.Locate(cluster, ManifestIdentity(m));
      var r := api.GetObject(a);
      if r.NotFound? { return false; }
      if !r.Found? { return true; }
      if Owner(r.obj) != ownedBy { return false; }
      err := api.DeleteObject(a, ownedBy);
    }

    method GetOne(m: Manifest) returns (r: GetResult)
      modifies api
      ensures Got(api.View(), r) == Get(old(api.View()), old(api.View()).AddrOf(cluster, m))
    {
      var a := api.Locate(cluster, ManifestIdentity(m));
      r := api.GetObject(a);
    }
  }
}

/**
  The API servers as the operator sees them. Every request takes its outcome from an
  adversary: it may be served, fail without effect, or take effect and still report an error.
  Before each request other actors may change the live objects.
 */
module Api {
  import opened Trees
  import opened Manifests

  /** The seed cluster, and shoot clusters told apart by an id; seed and shoot are never one cluster. */
  datatype Cluster = Seed | Shoot(id: string)

  /** Where an object lives: identities carry no version. */
  datatype Addr = At(cluster: Cluster, id: Identity)

  datatype Fault = Fine | NoMatch | Failed | FailedAfterEffect

  type Live = map<Addr, Manifest>

  /** The adversary's choice for one request: a fault, what a served read shows, and what others did just before. */
  datatype Answer = Answer(fault: Fault, view: Fields, others: Live -> Live)

  /** One request. A delete records the owner label that the removed object had at that moment. */
  datatype Event =
    | Read(addr: Addr)
    | Patched(addr: Addr, owner: string, effect: bool, ok: bool)
    | Deleted(addr: Addr, owner: string, effect: bool, ok: bool, had: string)
    | WroteStatus(owner: string, effect: bool)
    | WroteFinalizer(owner: string, effect: bool)

  datatype Condition = Condition(status: bool, reason: string)

  /** The status subresource: the two inventories, the Ready condition, the ShootCleanup reason. */
  datatype CrStatus = CrStatus(
    seed: seq<ResourceStatus>, shoot: seq<ResourceStatus>,
    ready: Option<Condition>, cleanup: Option<string>)

  datatype CR = CR(
    finalizer: bool, deleting: bool, forceDelete: bool,
    applyOrder: string, crdPolicy: string, shootId: string,
    status: CrStatus)

  /**
    `crs` is keyed by the owner label value, so distinct custom resources have distinct values.
    `scope` holds the (cluster, group, kind) triples for which the server of that cluster treats
    the kind as cluster-scoped although the operator's static list does not know it.
   */
  datatype World = World(
    live: Live, crs: map<string, CR>,
    scope: set<(Cluster, string, string)>,
    answers: nat -> Answer, log: seq<Event>)
  {
    function Next(): Answer { answers(|log|) }

    /** The world as the next request finds it. */
    function Met(): World { this.(live := Next().others(live)) }

    /** The server ignores the namespace of a cluster-scoped kind. */
    function Locate(c: Cluster, id: Identity): Addr {
      At(c, if (c, id.group, id.kind) in scope then id.(ns := "") else id)
    }

    function AddrOf(c: Cluster, m: Manifest): Addr { Locate(c, ManifestIdentity(m)) }

    function StatusAddr(c: Cluster, rs: ResourceStatus): Addr { Locate(c, StatusIdentity(rs)) }

    /** An object as the server keeps and returns it: in the namespace of its address. */
    function Returned(c: Cluster, m: Manifest): Manifest { m.(ns := AddrOf(c, m).id.ns) }

    function Tick(e: Event): World { this.(log := log + [e]) }

    predicate OwnedAt(a: Addr, owner: string) { a in live && Owner(live[a]) == owner }
  }

  ghost predicate NobodyElse(answers: nat -> Answer) {
    forall i: nat, live: Live :: answers(i).others(live) == live
  }

  function NoOne(live: Live): Live { live }

  /** A world in which nobody else acts between the requests of a pass. */
  type LoneWorld = w: World | NobodyElse(w.answers)
    ghost witness World(map[], map[], {}, i => Answer(Fine, map[], NoOne), [])

  /** Other actors never stamp an owner label: what carries one after them carried it before. */
  ghost predicate TameOthers(answers: nat -> Answer) {
    forall i: nat, live: Live, a ::
      a in answers(i).others(live) && Owner(answers(i).others(live)[a]) != "" ==>
        a in live && Owner(live[a]) == Owner(answers(i).others(live)[a])
  }

  ghost predicate Tame(w: World) { TameOthers(w.answers) }

  lemma LoneIsTame(w: LoneWorld)
    ensures Tame(w)
  {
  }

  lemma MetAlone(w: LoneWorld)
    ensures w.Met() == w
  {
  }

  /** `w'` continues `w`: same custom resources, same adversary, a longer log. */
  ghost predicate Continues(w: World, w': World) {
    w'.crs == w.crs && w'.scope == w.scope && w'.answers == w.answers && w.log <= w'.log
  }

  /** A server only accepts objects whose identity is well formed. */
  predicate Acceptable(id: Identity) { id.SlashFree() && id.kind != "" }

  datatype GetResult = Found(obj: Manifest, view: Fields) | NotFound | NoSuchKind | Unavailable
  datatype Got = Got(world: World, result: GetResult)
  datatype Wrote = Wrote(world: World, err: bool)
  datatype PatchResult = PatchResult(world: World, err: bool, obj: Manifest)
  datatype Saved = Saved(world: World, outcome: SaveOutcome)
  datatype SaveOutcome = Done | Gone | Refused

  /** NoMatch is only ever answered for an object that does not exist. */
  function Get(w: World, a: Addr): (r: Got)
    ensures Continues(w, r.world)
  {
    var met := w.Met();
    Got(met.Tick(Read(a)),
        match w.Next().fault
        case Fine => if a in met.live then Found(met.live[a], w.Next().view) else NotFound
        case NoMatch => if a in met.live then Unavailable else NoSuchKind
        case _ => Unavailable)
  }

  /** A served patch leaves the caller's object as the server returned it. */
  function Patch(w: World, c: Cluster, sent: Manifest): (r: PatchResult)
    ensures Continues(w, r.world)
  {
    var met := w.Met();
    var a := w.AddrOf(c, sent);
    var fault := if Acceptable(ManifestIdentity(sent)) then w.Next().fault else Failed;
    var effect := fault.Fine? || fault.FailedAfterEffect?;
    var w' := met.Tick(Patched(a, Owner(sent), effect, fault.Fine?));
    PatchResult(if effect then w'.(live := met.live[a := w.Returned(c, sent)]) else w',
                !fault.Fine?, if fault.Fine? then w.Returned(c, sent) else sent)
  }

  /** The identity of a returned object is its address. */
  lemma ReturnedIdentity(w: World, c: Cluster, m: Manifest)
    ensures ManifestIdentity(w.Returned(c, m)) == w.AddrOf(c, m).id
  {
  }

  /** A successful delete removes the object, and nothing else. Deleting an absent object is no error. */
  function Delete(w: World, a: Addr, owner: string): (r: Wrote)
    ensures Continues(w, r.world)
  {
    var met, fault := w.Met(), w.Next().fault;
    var effect := a in met.live && (fault.Fine? || fault.FailedAfterEffect?);
    var w' := met.Tick(Deleted(a, owner, effect, fault.Fine?, if effect then Owner(met.live[a]) else ""));
    Wrote(if effect then w'.(live := met.live - {a}) else w', !fault.Fine?)
  }

  /** Writes the whole status subresource. NoMatch stands for a custom resource found gone. */
  function SaveStatus(w: World, owner: string, status: CrStatus): (r: Saved)
    ensures r.world.answers == w.answers && r.world.scope == w.scope && w.log < r.world.log
  {
    var fault := if owner in w.crs then w.Next().fault else NoMatch;
    var effect := fault.Fine? || fault.FailedAfterEffect?;
    var w' := w.Met().Tick(WroteStatus(owner, effect));
    Saved(if effect && owner in w.crs then w'.(crs := w.crs[owner := w.crs[owner].(status := status)]) else w',
          match fault case Fine => Done case NoMatch => Gone case _ => Refused)
  }

  /** Writes the finalizer list; the status subresource is not touched by this write. */
  function SaveFinalizer(w: World, owner: string, present: bool): (r: Saved)
    ensures r.world.answers == w.answers && r.world.scope == w.scope && w.log < r.world.log
  {
    var fault := if owner in w.crs then w.Next().fault else NoMatch;
    var effect := fault.Fine? || fault.FailedAfterEffect?;
    var w' := w.Met().Tick(WroteFinalizer(owner, effect));
    Saved(if effect && owner in w.crs then w'.(crs := w.crs[owner := w.crs[owner].(finalizer := present)]) else w',
          match fault case Fine => Done case NoMatch => Gone case _ => Refused)
  }

  /** The clusters as mutable state; each request changes it as the function above says. */
  class ApiServer {
    var live: Live
    var crs: map<string, CR>
    const scope: set<(Cluster, string, string)>
    const answers: nat -> Answer
    var log: seq<Event>

    ghost function View(): World
      reads this
    {
      World(live, crs, scope, answers, log)
    }

    method Locate(c: Cluster, id: Identity) returns (a: Addr)
      ensures a == View().Locate(c, id) && unchanged(this)
    {
      a := At(c, if (c, id.group, id.kind) in scope then id.(ns := "") else id);
    }

    /** What other actors do before the next request. */
    method OthersAct()
      modifies this`live
      ensures View() == old(View()).Met()
    {
      live := answers(|log|).others(live);
    }

    method GetObject(a: Addr) returns (r: GetResult)
      modifies this
      ensures Got(View(), r) == Get(old(View()), a)
    {
      OthersAct();
      var ans := answers(|log|);
      log := log + [Read(a)];
      match ans.fault {
        case Fine => r := if a in live then Found(live[a], ans.view) else NotFound;
        case NoMatch => r := if a in live then Unavailable else NoSuchKind;
        case _ => r := Unavailable;
      }
    }

    method PatchObject(c: Cluster, sent: Manifest) returns (err: bool, obj: Manifest)
      modifies this
      ensures PatchResult(View(), err, obj) == Patch(old(View()), c, sent)
    {
      OthersAct();
      var a := Locate(c, ManifestIdentity(sent));
      var fault := if Acceptable(ManifestIdentity(sent)) then answers(|log|).fault else Failed;
      var effect := fault.Fine? || fault.FailedAfterEffect?;
      log := log + [Patched(a, Owner(sent), effect, fault.Fine?)];
      var kept := sent.(ns := a.id.ns);
      if effect { live := live[a := kept]; }
      err := !fault.Fine?;
      obj := if err then sent else kept;
    }

    method DeleteObject(a: Addr, owner: string) returns (err: bool)
      modifies this
      ensures Wrote(View(), err) == Delete(old(View()), a, owner)
    {
      OthersAct();
      var fault := answers(|log|).fault;
      var effect := a in live && (fault.Fine? || fault.FailedAfterEffect?);
      log := log + [Deleted(a, owner, effect, fault.Fine?, if effect then Owner(live[a]) else "")];
      if effect { live := live - {a}; }
      err := !fault.Fine?;
    }

    method UpdateStatus(owner: string, status: CrStatus) returns (outcome: SaveOutcome)
      modifies this
      ensures Saved(View(), outcome) == SaveStatus(old(View()), owner, status)
    {
      OthersAct();
      var fault := if owner in crs then answers(|log|).fault else NoMatch;
      var effect := fault.Fine? || fault.FailedAfterEffect?;
      log := log + [WroteStatus(owner, effect)];
      if effect { crs := crs[owner := crs[owner].(status := status)]; }
      outcome := match fault case Fine => Done case NoMatch => Gone case _ => Refused;
    }

    method UpdateFinalizer(owner: string, present: bool) returns (outcome: SaveOutcome)
      modifies this
      ensures Saved(View(), outcome) == SaveFinalizer(old(View()), owner, present)
    {
      OthersAct();
      var fault := if owner in crs then answers(|log|).fault else NoMatch;
      var effect := fault.Fine? || fault.FailedAfterEffect?;
      log := log + [WroteFinalizer(owner, effect)];
      if effect { crs := crs[owner := crs[owner].(finalizer := present)]; }
      outcome := match fault case Fine => Done case NoMatch => Gone case _ => Refused;
    }
  }
}

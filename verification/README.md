# Dual deployment operator: a verified model

The operator drives one custom resource (CR) onto two clusters. Each reconcile pass renders the
CR's source once for the *seed* and once for the *shoot* cluster, transforms both renders, applies
them, prunes what left the render, and records in the CR's status an *inventory* of what it applied.
That inventory is its only memory. A finalizer keeps a deleted CR until the recorded objects are
gone. This project models those passes, the teardown, the render cache and the tree algorithms
around them, and proves what they keep over every run.

## How it is built

`World` (`ApiServer.dfy`) is the state of the API servers: the live objects of every cluster, the
CRs, and a log of all requests. Every request takes its outcome from an adversary, the function
`answers`, indexed by the position in the log: it is served, answered NoMatch, fails without effect,
or takes effect and still reports an error. The same function says what other actors do to the live
objects just before the request. A pass is a function `Pass` from a world, an owner and
the pass's inputs to a world (`Controller.dfy`). The classes `ApiServer`, `SSAApplier`, `Delivery`
and `Reconciler` carry the same pass out step by step and are proved to do exactly what it says.
Everything else is proved about `Pass` and then about runs, which are sequences of passes of any
number of CRs, in any order, mixed with actions of users and other actors (`Runs.dfy`).

What others may do inside a pass is said by the type or the precondition of each statement. A
statement about a `World` holds whatever they do, a `Tame` world is one where they stamp no owner
labels, and in a `LoneWorld`, which is tame (`Api.LoneIsTame`), they act between passes only. The accounting holds in every tame world,
the order of the requests in every world; statements about the exact outcome of a pass are about
lone worlds.

| file | content |
|---|---|
| `Trees.dfy`, `Strings.dfy` | JSON trees with nested reads and writes; join and split |
| `Manifests.dfy`, `Ordering.dfy`, `Health.dfy` | identities, stamping, apply and delete order, health grades |
| `Webhooks.dfy`, `Transforms.dfy` | webhook rewriting, caBundle stripping, the transformation pipeline |
| `HeapTrees.dfy`, `TransformHeap.dfy` | manifests as trees of mutable nodes; the pipeline on such trees |
| `ApiServer.dfy`, `Applier.dfy` | the servers and the applier |
| `Controller.dfy`, `Reconciler.dfy` | the pass as a function, and as the program runs it |
| `Effects.dfy`, `Retention.dfy`, `Accounting.dfy`, `Passes.dfy`, `Trace.dfy` | what the walks, the deliveries and a whole pass do |
| `Outcomes.dfy` | what each pass returns and writes |
| `Teardown.dfy`, `Convergence.dfy`, `Liveness.dfy`, `Ownership.dfy`, `Runs.dfy`, `Losses.dfy` | deletion, convergence, steady state, other owners, whole runs, what is lost for good |
| `RenderCache.dfy`, `CacheKey.dfy` | the render cache on the heap, and its keys |
| `Normalize.dfy`, `Compare.dfy`, `Report.dfy`, `Scope.dfy` | canonical forms, structural comparison, the report and its scope |

`dafny verify dfyconfig.toml` checks the whole project.

## Assumptions about the environment

These are visible in the definitions; none of them is an axiom.

- NoMatch is answered only for an object that does not exist (`Api.Get`).
- The seed and a shoot are never the same cluster (`Cluster`).
- A delete that takes effect removes that one object: no cascade, no finalizers on target objects
  (`Api.Delete`).
- CRs have distinct owner label values: `World.crs` is keyed by that value. Nobody but the operator
  stamps an owner label, neither between passes (`Runs.Enabled`) nor inside one (`Api.Tame`).
- A patch that is served leaves the caller's manifest as the server returned it, as the client
  library documents. Only its namespace matters here: the server keeps none for a cluster-scoped
  kind (`Api.Patch`, `World.Returned`).
- Servers refuse an object whose group, kind, namespace or name contains a slash or whose kind is
  empty (`Api.Acceptable`). Kinds in the operator's static list are cluster-scoped on the servers;
  each cluster's server may know further cluster-scoped kinds (`World.scope`).
- Passes are not interleaved with each other: the controller runs with one worker. The CR that a
  pass reads is current.
- Users leave the finalizer and the status of a CR alone.
- For the cache: a fetch that succeeds yields what scope and resolved id name, and the hash has no
  collisions (`CacheKeys.Sound`). References may move between renders; that they do not move while
  one render resolves and fetches is asked of a session (`CacheKeys.Unmoved`).

## What turned out false

- *Error-free passes over the same render settle.* They do not for a kind that is cluster-scoped on
  the server and missing from the static list, rendered with a namespace (a *stray* manifest, which
  rendering into a namespace makes of every manifest of such a kind, `Liveness.NamespacedStrays`).
  The inventory entry is taken before the patch and keeps the namespace, the patch then clears it in
  the manifest, and the prune compares the two: from the second pass on every pass deletes what it
  has just applied and says Ready=True. `Liveness.Flapping` is such a run,
  `Convergence.Converges` says exactly when one pass leaves a rendered object live, and
  `Convergence.Fixpoint` and `Liveness.SteadyState` say exactly which objects are live from the
  second pass on.
- *A labelled object of one CR is safe from the others.* Only for the listed kinds. Any other is
  taken over without an error by a pass that renders it (`Liveness.TakeOver`). By what is rendered:
  an error-free delivery takes an object exactly if its render names the address
  (`Ownership.TakenIffRendered`, over any stretch of such passes `Runs.OwnedUnlessRendered`, and for
  an undisturbed pass over appliable renders `Liveness.CalmTakenIffRendered`). Whatever the servers
  answer, it changes hands exactly if a patch there takes effect (`Ownership.ForeignChangeIff`,
  `Runs.OwnedUnlessHit`).
- *Only objects that carry the CR's label are deleted.* The label check and the delete are two
  requests. If somebody takes the label off in between, the object goes without it
  (`Runs.UnlabelledRemoved`). `Runs.RemovalsAreOwn` proves that nothing worse happens: never is
  another owner's object removed, and if nobody acts inside passes only the CR's own.
- *A deletion ends once everything is gone.* A kind that the server no longer knows counts as gone
  for a prune but as an error for a deletion (`Teardown.NoMatchDisagreement`). With one such seed
  entry, say of a rule whose CRD was uninstalled, no number of passes completes even a forced deletion
  of nothing, although every write is served (`Runs.StuckDeletion`, `Runs.NoMatchForEver`). `Teardown.FinalizerGoesIff` says exactly when the finalizer goes.
- *Everything the operator applied is in an inventory.* Not after a status write that was lost, a CRD
  kept by policy, a forced deletion, or an edit of the shoot reference, until it is recorded again.
  Each happens: `Losses.LostWrite`, `Losses.KeptCrd`, `Losses.ForcedAway`, `Losses.StrandedShoot`.
  What no inventory names is never cleaned up while its owner does not render it
  (`Losses.AbandonedForGood`, at an input `Losses.LostForGood`). `Runs.NothingUnaccounted` proves that
  these are all the ways out.
- *Ready=True means the pass succeeded.* It can come with an error (`Liveness.ReadyWithError`),
  exactly when the read or the delete of some orphan fails (`Convergence.ReadyErrsIff`).
- *The manifest rebuilt from an inventory entry has the recorded apiVersion.* Exactly if that is well
  formed and does not begin with a slash (`Manifests.RebuildKeepsVersion`).
- *The status order is the reverse of the apply order.* Only if every tier reads the same both ways
  (`Ordering.StatusForDeleteExactReverseIff`).
- *A listed divergence is always suppressed.* Exactly if the printed key of the object can be parsed
  back; `Reporting.ParseExact` says which keys can.
- *The render cache is invisible.* It can make good a failed fetch: a repository that lacks a commit
  is served what one on the same host that has it rendered (`CacheKeys.LackingCommitServed`). And a
  reference that moves while it is rendered fills the slot of its old id with the new content
  (`CacheKeys.MovedMeanwhile`). `CacheKeys.CachedSession` proves that this is all.
- *A transformation returns fresh manifests.* The input is never changed, but a manifest that a
  filter keeps or a patch does not match is returned as the very object that came in, so that an edit
  of the output edits the input (`HeapTransforms.AliasedOutput`). `HeapTransforms.Run` says exactly
  which outputs are shared.
- *Moving all objects to one namespace hides no drift.* Objects that differ in their namespace only
  fall together, and a missing one is not reported (`Scoping.HiddenDrift`). `Scoping.NothingLostIff`
  says exactly when none is lost.

## Model

| member | source | states |
|---|---|---|
| Runs.NothingUnaccounted | internal/controller/dualdeploymentoperator_controller.go:94-298 | At any point of any run, a live object with an owner's label is in the inventory of a CR that still has its finalizer, or one earlier step released it (a delivery whose status write was lost, a CRD kept by policy, a forced deletion, or an edit pointing at another shoot) and it has been owned and untracked at every moment since |
| Runs.RunAccounted | internal/controller/dualdeploymentoperator_controller.go:173-298 | The accounting of every owner is an invariant of every run, under every API failure and whatever others who stamp no labels do between any two requests; a released address is exempt only until it is recorded again or gone |
| Runs.StepAccounted | internal/controller/dualdeploymentoperator_controller.go:94-111 | Each kind of step keeps each owner's accounting up to what that step releases |
| Runs.ForeignPassAccounted | internal/deliver/applier.go:42-101 | A pass of one CR cannot disturb the accounting of another |
| Runs.GoneResourceLeavesNothing | internal/controller/dualdeploymentoperator_controller.go:322-409 | Once a CR is gone nothing carries its label but what an earlier step released |
| Runs.ReleasedHasCause | internal/controller/dualdeploymentoperator_controller.go:284-298 | Every exempt address was released by one particular step, and was owned and untracked ever since |
| Runs.ForeignPassesKeepOwned | internal/deliver/applier.go:54-67 | Through any stretch of passes of other CRs and user actions a labelled object of a listed kind keeps owner and content |
| Runs.OwnedUnlessHit | internal/deliver/applier.go:54-75 | Through any such stretch a labelled object of any kind keeps its owner if and only if no effective patch hits its address, and then its content too |
| Ownership.ForeignChangeIff | internal/deliver/applier.go:54-75 | A pass of another CR changes a labelled object if and only if one of its patches there takes effect; then it rendered a manifest of an unlisted kind at that address, and the owner is lost |
| Ownership.HitIsRendered | internal/controller/dualdeploymentoperator_controller.go:451-471 | Every patch of a pass is of a manifest that the pass rendered |
| Ownership.CleanHitIff | internal/controller/dualdeploymentoperator_controller.go:451-471 | An error-free delivery patches an address exactly if its render names it |
| Ownership.TakenIffRendered | internal/deliver/applier.go:54-75 | An error-free delivery of another CR leaves a labelled object its owner and content exactly if it renders nothing at that address |
| Runs.OwnedUnlessRendered | internal/deliver/applier.go:54-75 | Through any stretch of error-free passes of other CRs and user actions an object keeps owner and content if and only if none of them renders something at its address |
| Liveness.CalmTakenIffRendered | internal/deliver/applier.go:42-84 | The same for an undisturbed pass over appliable renders, so from the state before the pass alone |
| Runs.RemovalsAreOwn | internal/deliver/applier.go:86-101 | In every run each delete that took effect was sent by a pass of the CR it was sent for; alone the object carried that CR's label at that moment, beside others who stamp no labels that label or none |
| Runs.UnlabelledRemoved | internal/deliver/applier.go:86-101 | An object that loses its label between the check and the delete is removed without one |
| Losses.AbandonedForGood | internal/controller/dualdeploymentoperator_controller.go:184-204 | Through any run in which its owner's passes do not render it and nobody else touches it, an object that no inventory of its owner names stays as it is, the owner's deletion included |
| Losses.LostForGood | internal/controller/dualdeploymentoperator_controller.go:290-292 | A lost status write after which no number of passes with empty renders takes the object away |
| Losses.LostWrite | internal/controller/dualdeploymentoperator_controller.go:290-292 | A delivery whose only failure is the status write leaves a live object that no inventory names |
| Losses.KeptCrd | internal/controller/dualdeploymentoperator_controller.go:658-660 | An error-free pass leaves a CRD that left the render live and in no inventory |
| Losses.ForcedAway | internal/controller/dualdeploymentoperator_controller.go:374-401 | A forced deletion with the shoot out of reach drops the finalizer, and once the CR is collected nothing names the shoot object |
| Losses.StrandedShoot | internal/controller/dualdeploymentoperator_controller.go:154-204 | An edit that points at another shoot leaves what is recorded on the old one untracked |
| Losses.RecordedEntries | internal/controller/dualdeploymentoperator_controller.go:206-282 | What a delivery records on a side are entries of its render and entries it had |
| Liveness.TakeOver | internal/deliver/applier.go:54-55 | An object of an unlisted cluster-scoped kind that belongs to another CR is overwritten without an error, and the pass says Ready |
| Runs.NoMatchForEver | internal/controller/dualdeploymentoperator_controller.go:345-372 | In every run a seed entry whose kind the server does not know in any deletion pass keeps the finalizer, forced or not |
| Runs.StuckDeletion | internal/controller/dualdeploymentoperator_controller.go:345-372 | A forced deletion of a CR with nothing live that no number of passes completes, although every status write is served and only the kind of one recorded custom object is unknown |
| Runs.PatchesAreGuarded | internal/controller/dualdeploymentoperator_controller.go:102-111 | In every run each patch was sent by a pass of its own CR while that CR had the finalizer and was not being deleted |
| Runs.ReadyHasCause | internal/controller/dualdeploymentoperator_controller.go:283-292 | In every run a CR that says Ready had that very status written by a delivery |
| Runs.ReadyAfterPass | internal/controller/dualdeploymentoperator_controller.go:475-483 | A pass leaves Ready=True only by leaving the status alone or by a recorded delivery |
| Runs.DeletePassReady | internal/controller/dualdeploymentoperator_controller.go:309-320 | No deletion pass writes Ready=True |
| Passes.PassAccounted | internal/controller/dualdeploymentoperator_controller.go:94-298 | In every tame world a pass keeps its owner's accounting: what it stops tracking is gone or released for a stated reason |
| Passes.DeliveryAccounted | internal/controller/dualdeploymentoperator_controller.go:206-292 | The same for a delivery on every path, with the status write recorded or lost |
| Passes.DeletionAccounted | internal/controller/dualdeploymentoperator_controller.go:305-409 | The same for a deletion pass |
| Passes.UnguardedEntry | internal/controller/dualdeploymentoperator_controller.go:374-401 | When the finalizer goes, a tracked object that is still there was a kept CRD or given up by force |
| Passes.PassResource | internal/controller/dualdeploymentoperator_controller.go:94-298 | Whoever else acts, a pass writes no other CR, and of its own only status and finalizer |
| Passes.PassLoses | internal/deliver/applier.go:42-101 | In every tame world a pass of one CR makes no other own anything |
| Passes.PassLawful | internal/controller/dualdeploymentoperator_controller.go:94-298 | A pass writes no other CR, stays on its two clusters, leaves only its own label on what it changes, and leaves protected objects of other owners alone |
| Passes.DeliveryFootprint | internal/controller/dualdeploymentoperator_controller.go:184-204 | Every change of a delivery is a rendered manifest put in place or an orphan of the inventory taken away |
| Passes.LostAreRendered | internal/controller/dualdeploymentoperator_controller.go:290-292 | What a lost status write loses are manifests of that pass |
| Passes.DeletePassLoses | internal/controller/dualdeploymentoperator_controller.go:361-401 | In every tame world, when a deletion pass drops the finalizer its CR owns nothing deletable on the seed, nor on the shoot unless the deletion was forced |
| Passes.DeletePassClusters | internal/controller/dualdeploymentoperator_controller.go:361-401 | A deletion pass only removes; when it drops the finalizer nothing deletable is left on the seed, nor on the shoot unless the deletion was forced |
| Passes.DeletePassResource | internal/controller/dualdeploymentoperator_controller.go:305-320 | A deletion pass keeps both inventories and never adds the finalizer |
| Passes.ConcludeFacts | internal/controller/dualdeploymentoperator_controller.go:370-409 | The finalizer goes only without a seed error and with the shoot finished or the deletion forced |
| Passes.TearDownFacts | internal/controller/dualdeploymentoperator_controller.go:333-368 | An error-free seed, and a finished shoot, hold nothing deletable any more |
| Passes.DeliveryKeepsCrds | internal/controller/dualdeploymentoperator_controller.go:658-660 | Unless the policy says Delete, a delivery takes no CRD away |
| Passes.DeletePolicyKeepsNothing | internal/controller/dualdeploymentoperator_controller.go:322-331 | Under the policy Delete no CRD is ever released |
| Accounting.SettleAccounted | internal/controller/dualdeploymentoperator_controller.go:206-282 | In every tame world, on every path, an applied side is covered by what it writes up to kept CRDs, and a side that was not applied gets nothing and keeps its inventory verbatim |
| Accounting.SettleAlike | internal/controller/dualdeploymentoperator_controller.go:206-282 | Alone, a side that was not applied is left untouched |
| Accounting.SettleMoves | internal/controller/dualdeploymentoperator_controller.go:184-204 | Alone, on every path, each change of a delivery is a rendered manifest put in place or an orphan taken away |
| Accounting.ApplyCovers | internal/controller/dualdeploymentoperator_controller.go:451-471 | After the applies the new entries stand for everything that was put in place, including applies that reported an error |
| Accounting.PruneCovers | internal/controller/dualdeploymentoperator_controller.go:638-685 | After a prune an old entry is rendered, retained, a kept CRD, or gone |
| Accounting.RenderedCovers | internal/controller/dualdeploymentoperator_controller.go:647-657 | An entry whose key string is in the render stands for the same object as one of the render's own entries |
| Convergence.DeliveryContract | internal/controller/dualdeploymentoperator_controller.go:206-288 | Per path and side: one entry per manifest in order, then in order exactly the orphans whose read or delete fails; the deletes sent are exactly those of the orphans that read back live and owned; every other orphan is gone. Or untouched and verbatim |
| Convergence.AppliedSideRan | internal/controller/dualdeploymentoperator_controller.go:272-282 | An applied side was applied once and then pruned once, by the keys of the manifests as the applies left them, with nothing else on its cluster |
| Convergence.Converges | internal/controller/dualdeploymentoperator_controller.go:234-297 | After an error-free pass with a ready shoot the inventories name exactly the renders, and a rendered object is live and owned if and only if no stray inventory entry stands at its address; otherwise the pass deleted it |
| Convergence.Fixpoint | internal/controller/dualdeploymentoperator_controller.go:638-685 | A further pass over the same renders deletes nothing whatever the servers answer if no rendered manifest is stray; error-free, it leaves live exactly the objects without a stray manifest at their address and deletes the others |
| Convergence.ConvergesTo | internal/controller/dualdeploymentoperator_controller.go:234-297 | After an error-free pass with a ready shoot a rendered object that is live and owned is the last manifest rendered at its address: labelled, without its origin and caBundles, and otherwise itself, the body of any kind but webhook configurations and CRDs unchanged |
| Convergence.OrphanIffStray | internal/controller/dualdeploymentoperator_controller.go:647-657 | Once a render is applied, an entry at the address of a rendered manifest is an orphan exactly if it is stray |
| Convergence.ReadyIsTrue | internal/controller/dualdeploymentoperator_controller.go:589-614 | Ready=True is written only with a ready shoot, when the log proves every manifest patched, read back and graded Healthy; without an error the inventories are exactly the renders |
| Convergence.ReadyErrsIff | internal/controller/dualdeploymentoperator_controller.go:663-684 | A delivery that settles on Ready errs exactly when the read or the delete of some orphan fails |
| Outcomes.PlanFailsIff | internal/controller/dualdeploymentoperator_controller.go:115-152 | A pass can plan exactly if the source is valid, both renders are there, every transformation entry has exactly one member set and both renders get through; otherwise the reason is that of the first of these that fails |
| Outcomes.TransformReason | internal/controller/dualdeploymentoperator_controller.go:142-152 | A failing transformation is reported for the seed exactly if the seed fails at it before the shoot has failed, for the shoot exactly if the seed still gets through it |
| Outcomes.FailedPlanPass | internal/controller/dualdeploymentoperator_controller.go:537-544 | A pass that cannot plan returns an error whatever becomes of its one request, a status write, which sets Ready=False with that reason; live objects and inventories stay |
| Outcomes.UnreadPass | internal/controller/dualdeploymentoperator_controller.go:97-100 | A pass of a CR that is gone does nothing without an error; one that cannot read its CR fails |
| Outcomes.FirstPass | internal/controller/dualdeploymentoperator_controller.go:107-111 | A pass without the finalizer only adds it, and errs exactly if that write is not served |
| Outcomes.ShootlessPass | internal/controller/dualdeploymentoperator_controller.go:206-232 | Without a shoot client a pass errs exactly if the client could not be built or the status write is not served, says which, keeps the shoot inventory, and unless the order is SeedFirst sends nothing but that write |
| Outcomes.ReadyPassErrsIff | internal/controller/dualdeploymentoperator_controller.go:234-297 | With a shoot client a pass errs exactly if an applied entry is Degraded, an orphan is retained, or the status write is not served |
| Outcomes.DeletionSays | internal/controller/dualdeploymentoperator_controller.go:309-409 | What a deletion pass leaves in the status: Deleting; and only if the shoot keeps the finalizer on, Blocked or ForceDeleted, with ShootUnreachable if there was no client |
| Outcomes.UnreachableBlocksIff | internal/controller/dualdeploymentoperator_controller.go:322-343 | An unreachable shoot holds a deletion up exactly if some recorded object there is no CRD or the policy is Delete |
| Liveness.ReadyWithError | internal/controller/dualdeploymentoperator_controller.go:663-684 | A pass that returns an error and records Ready=True |
| Convergence.ConditionMeaning | internal/controller/dualdeploymentoperator_controller.go:589-623 | Ready, Degraded and Progressing in terms of all entries of both sides |
| Convergence.DegradedReason | internal/controller/dualdeploymentoperator_controller.go:241-261 | A delivery stopped at the shoot errs, and its reason tells a total failure from a partial one |
| Convergence.ShootFirstWaits | internal/controller/dualdeploymentoperator_controller.go:206-262 | Unless the order is SeedFirst the seed is delivered exactly when the shoot is ready and was applied without error |
| Convergence.SeedFirstNeverWaits | internal/controller/dualdeploymentoperator_controller.go:209-215 | A SeedFirst seed is delivered in every phase |
| Liveness.OnePassMayNotConverge | internal/controller/dualdeploymentoperator_controller.go:654-683 | One error-free pass can delete what it has just applied and still record Ready=True |
| Liveness.CalmPassReady | internal/controller/dualdeploymentoperator_controller.go:283-297 | An undisturbed pass over appliable renders that read back Healthy records Ready=True |
| Liveness.ShadowedIff | internal/deliver/order.go:97-127 | Exactly when a rendered object is shadowed: an entry with its group, kind and name has a namespace, and the kind is cluster-scoped on the server and unlisted |
| Liveness.UndisturbedPasses | internal/controller/dualdeploymentoperator_controller.go:234-297 | Two or more undisturbed passes over appliable renders are all error-free and leave live exactly the objects without a stray manifest at their address |
| Liveness.SteadyState | internal/controller/dualdeploymentoperator_controller.go:638-685 | From the second of any error-free passes over the same renders on, the stray objects are deleted by every pass and exactly the others are live |
| Liveness.Flapping | internal/deliver/applier.go:47-76 | A run in which every pass applies an object, finds it Healthy and says Ready, and every pass but the first deletes it again |
| Liveness.NamespacedStrays | internal/manifest/namespace.go:39-63 | Rendering into a namespace makes a stray of every manifest of an unlisted cluster-scoped kind, and of no other |
| Manifests.NamespacedExact | internal/manifest/namespace.go:39-63 | A listed kind loses its namespace, a declared namespace is kept, any other manifest gets the given one; nothing else changes |
| Manifests.ApplyNamespace | internal/manifest/namespace.go:46-63 | The loop does so to every manifest |
| Liveness.CalmPass | internal/controller/dualdeploymentoperator_controller.go:234-297 | An undisturbed pass over appliable renders is error-free |
| Liveness.CalmApply | internal/deliver/applier.go:42-84 | Undisturbed, an apply fails exactly on an ill-formed identity or another owner's cluster-scoped object |
| Teardown.DeletePassProgress | internal/controller/dualdeploymentoperator_controller.go:345-368 | What is left to delete never grows and drops by exactly the deletes that took effect |
| Teardown.DeletePassAttempts | internal/controller/dualdeploymentoperator_controller.go:345-368 | Whatever fails before it, every deletable entry of a walked side is read, the deletes sent to that side are exactly those of the entries that read back live and owned, and a side that is not walked sees no request |
| Teardown.FinalizerGoesIff | internal/controller/dualdeploymentoperator_controller.go:316-409 | A deletion pass takes the finalizer off exactly if its first write is not refused, no seed entry fails, nothing of the shoot blocks or the deletion is forced, and the finalizer write takes effect; and exactly when it returns an error |
| Teardown.ErrorFreeDeletionCompletes | internal/controller/dualdeploymentoperator_controller.go:374-394 | A pass with a shoot client whose deletes all succeed removes the finalizer as soon as its writes take effect, and leaves nothing to delete |
| Teardown.CalmDeletionCompletes | internal/controller/dualdeploymentoperator_controller.go:374-394 | An undisturbed pass with a shoot client does so without an error |
| Teardown.NoMatchDisagreement | internal/deliver/applier.go:86-93 | An unknown kind counts as gone for a prune and as an error for a deletion |
| Teardown.NoMatchBlocksDeletion | internal/controller/dualdeploymentoperator_controller.go:370-372 | One seed entry of an unknown kind keeps the finalizer on, forced or not |
| Teardown.SeedErrKeepsFinalizer | internal/controller/dualdeploymentoperator_controller.go:370-372 | Any seed error keeps the finalizer and is returned |
| Teardown.DeletionKeepsCrds | internal/controller/dualdeploymentoperator_controller.go:350-353 | Unless the policy says Delete, a deletion takes no CRD away |
| Trace.PassActs | internal/controller/dualdeploymentoperator_controller.go:166-168 | In every pass, per cluster, patch requests never step down a tier and deletes never step up, whatever becomes of them and whoever else acts; alone only objects carrying the owner's label at that moment are removed, in a tame world never another owner's; a pass that does not deliver patches nothing |
| Trace.PatchesByKind | internal/deliver/order.go:37-50 | On one cluster patches come in the order namespaces, CRDs, RBAC kinds, all other kinds, webhook configurations |
| Trace.DeletesByKind | internal/deliver/order.go:61-80 | And deletes in the reverse order |
| Trace.PrecedesIff | internal/deliver/order.go:37-50 | The tiers order two kinds exactly as the five named groups do |
| Trace.PassCrossed | internal/controller/dualdeploymentoperator_controller.go:272-280 | Applies go to the two clusters in the order of applyOrder, deletes in the reverse order |
| Trace.TearDownCrossed | internal/controller/dualdeploymentoperator_controller.go:361-368 | A deletion deletes in the reverse of the apply order |
| Trace.PassShootFirst | internal/controller/dualdeploymentoperator_controller.go:234-262 | Unless the order is SeedFirst, any request to the seed comes after a successful patch of every shoot manifest |
| Trace.ApplyAllPatched | internal/deliver/applier.go:69-83 | A manifest whose entry is not Degraded was patched successfully |
| Effects.ApplyAllEntries | internal/controller/dualdeploymentoperator_controller.go:451-471 | One entry per manifest in order, and an error exactly when an entry is Degraded |
| Effects.ApplyAllEffect | internal/controller/dualdeploymentoperator_controller.go:451-471 | Nothing is removed, and every change is a rendered manifest put in place |
| Effects.ApplyAllLive | internal/deliver/applier.go:69-83 | What is not Degraded is live and owned once all are applied |
| Effects.ApplyAllHolds | internal/controller/dualdeploymentoperator_controller.go:451-471 | The last manifest of a render at an address decides what stands there |
| Effects.ApplyAllLeft | internal/deliver/applier.go:47-74 | Each manifest that goes through is left with the namespace the server keeps, each other one with its own |
| Effects.ApplyAllLawful | internal/deliver/applier.go:54-67 | No apply of a render overwrites another owner's cluster-scoped object |
| Effects.PruneEffect | internal/controller/dualdeploymentoperator_controller.go:654-683 | A prune removes only owned orphans of the inventory it walks |
| Effects.PruneRetained | internal/controller/dualdeploymentoperator_controller.go:672-684 | Retained entries are orphans, and there is an error exactly when there is one |
| Retention.PruneExact | internal/controller/dualdeploymentoperator_controller.go:654-684 | The retained entries are, in order, exactly the orphans that cannot be read, or that are owned and whose second read or delete fails |
| Retention.PruneTargeted | internal/controller/dualdeploymentoperator_controller.go:663-683 | The deletes of a prune are exactly those of the orphans that read back live and owned |
| Retention.PruneOneExact | internal/controller/dualdeploymentoperator_controller.go:662-683 | Exactly when pruning one orphan fails, and exactly when it asks for the delete |
| Retention.DeleteAllErrsIff | internal/controller/dualdeploymentoperator_controller.go:345-359 | A deletion errs exactly if some deletable entry cannot be read, or is owned and cannot be deleted |
| Retention.DeleteAllDrops | internal/controller/dualdeploymentoperator_controller.go:345-359 | The deletes of a deletion are exactly those of the entries that read back live and owned |
| Retention.DeleteOwnedExact | internal/deliver/applier.go:86-101 | Exactly when a delete fails, and exactly when it is sent |
| Effects.PruneGone | internal/controller/dualdeploymentoperator_controller.go:663-683 | An orphan that is not retained is no longer live and owned |
| Effects.DeleteAllEffect | internal/controller/dualdeploymentoperator_controller.go:345-359 | A deletion removes only owned, deletable entries |
| Effects.DeleteAllGone | internal/controller/dualdeploymentoperator_controller.go:345-359 | Without an error no deletable entry is live and owned |
| Deliver.ApplyFacts | internal/deliver/applier.go:42-84 | An apply touches its own address only; error exactly when Degraded; without error live and owned, and the manifest has moved to the server's namespace |
| Deliver.ApplyContent | internal/deliver/applier.go:42-84 | What an error-free apply puts in place is the manifest with the owner label and without origin and caBundles, its body unchanged for every kind but the three that carry bundles |
| Deliver.ApplyGrade | internal/deliver/applier.go:76-84 | An error-free apply is graded Unknown exactly if the object does not read back, and otherwise by what the read shows |
| Deliver.ApplyRespectsForeign | internal/deliver/applier.go:115-130 | A cluster-scoped object of another owner is refused and left as it is |
| Deliver.DeleteFacts | internal/deliver/applier.go:86-101 | A delete removes at most its own address, only if owned, and without error leaves nothing owned there |
| Deliver.SSAApplier.ApplyOne | internal/deliver/applier.go:42-84 | The step-by-step apply does what the apply function says, to the servers and to the manifest |
| Deliver.SSAApplier.DeleteOne | internal/deliver/applier.go:86-101 | The step-by-step delete does what the delete function says |
| Deliver.SSAApplier.GetOne | internal/deliver/applier.go:103-113 | A read at the address of the manifest |
| Deliver.SSAApplier.CheckForeignOwner | internal/deliver/applier.go:115-130 | The conflict pre-check, failing safe on any read error but NotFound |
| Reconciling.Reconciler.Reconcile | internal/controller/dualdeploymentoperator_controller.go:94-298 | The program's pass changes the servers and returns an error exactly as `Pass` says |
| Reconciling.Reconciler.ReconcileDelete | internal/controller/dualdeploymentoperator_controller.go:305-409 | The program's deletion pass does what `DeletePass` says |
| Reconciling.Reconciler.DeleteBoth | internal/controller/dualdeploymentoperator_controller.go:333-368 | Both renders' deletes, in order, the shoot's only with a client and something pending |
| Reconciling.Reconciler.DeliverReady | internal/controller/dualdeploymentoperator_controller.go:234-297 | The delivery with a ready shoot |
| Reconciling.Reconciler.DeliverWithoutShoot | internal/controller/dualdeploymentoperator_controller.go:206-232 | The delivery without a shoot client |
| Reconciling.Reconciler.FinishPass | internal/controller/dualdeploymentoperator_controller.go:550-563 | The status write that ends a delivery, and what is returned |
| Reconciling.Reconciler.ErrStatus | internal/controller/dualdeploymentoperator_controller.go:537-544 | The error is returned whatever the status write does |
| Reconciling.Reconciler.MakePlan | internal/controller/dualdeploymentoperator_controller.go:115-152 | Renders, builds the transformations and runs both pipelines, with the reason of the first failure |
| Reconciling.Delivery.ApplyOn | internal/controller/dualdeploymentoperator_controller.go:184-190 | The apply closure over the shared variables |
| Reconciling.Delivery.PruneOn | internal/controller/dualdeploymentoperator_controller.go:192-204 | The prune closures over the shared variables |
| Reconciling.ApplyRender | internal/controller/dualdeploymentoperator_controller.go:451-471 | The apply loop goes on after errors and collects every status |
| Reconciling.PruneRender | internal/controller/dualdeploymentoperator_controller.go:638-685 | The prune loop over the sorted inventory |
| Reconciling.DeleteRender | internal/controller/dualdeploymentoperator_controller.go:345-359 | The delete loop over the sorted inventory |
| Reconciling.HasFailed | internal/controller/dualdeploymentoperator_controller.go:566-573 | True exactly if some entry is Degraded |
| Reconciling.HasOnlyFailed | internal/controller/dualdeploymentoperator_controller.go:577-587 | True exactly if there are entries and all are Degraded |
| Reconciling.HasProgressing | internal/controller/dualdeploymentoperator_controller.go:616-623 | True exactly if some entry is Progressing or Unknown |
| Reconciling.ReadyCondition | internal/controller/dualdeploymentoperator_controller.go:589-614 | The computed Ready condition |
| Reconciling.CountDeletable | internal/controller/dualdeploymentoperator_controller.go:322-331 | Positive exactly if some entry has to be deleted |
| Grading.ComputeHealth | internal/deliver/health.go:12-33 | A graded object is Healthy or Progressing, never Degraded or Unknown |
| Grading.GradeMeaning | internal/deliver/health.go:12-62 | A Deployment or StatefulSet is Healthy exactly if its asked and available replicas both count, a missing one as zero, and the available reach the asked; a CRD exactly if its conditions are a list with an item of type Established and status True; any other kind by existing |
| Grading.GradeCrd | internal/deliver/health.go:47-62 | The loop finds an Established condition if there is one |
| Ordering.StableSortCorrect | internal/deliver/order.go:53-59 | The sort is a permutation, in tier order, and stable |
| Ordering.StableSortUnique | internal/deliver/order.go:53-59 | There is only one stable sort |
| Ordering.SortForDelete | internal/deliver/order.go:61-69 | Exactly the reverse of the apply order |
| Ordering.StatusForDeleteIsReverse | internal/deliver/order.go:71-80 | The status order is the reverse of the apply order of the reversed inventory |
| Ordering.StatusForDeleteExactReverseIff | internal/deliver/order.go:71-80 | It is the exact reverse of the apply order only if every tier reads the same both ways |
| Ordering.OrderFacts | internal/deliver/order.go:53-80 | Members and tier order of the two walked sequences |
| Manifests.IdentityRoundTrip | internal/deliver/order.go:85-127 | A manifest, the entry recorded from it and the manifest rebuilt from that entry share one key |
| Manifests.RebuildKeepsIdentity | internal/deliver/order.go:82-99 | Rebuilding keeps the identity of every entry, also with a malformed apiVersion |
| Manifests.RebuildKeepsVersion | internal/deliver/order.go:82-99 | Rebuilding keeps kind and name, and the recorded apiVersion exactly if it is well formed and does not begin with a slash |
| Manifests.MalformedVersionSplitsIdentity | internal/deliver/order.go:115-127 | With a malformed apiVersion manifest and entry agree only on an empty kind |
| Manifests.KeyIsIdentity | internal/deliver/order.go:112-127 | Key strings agree exactly when the identities do, as soon as one side is free of slashes |
| Manifests.KeyIgnoresVersion | internal/deliver/order.go:112-127 | Two keys agree exactly on group, kind, scope-normalised namespace and name |
| Manifests.Stamp | internal/manifest/manifest.go:59-83 | What is sent carries the owner label, no origin annotation, and otherwise the same labels, annotations and identity |
| Manifests.StampSent | internal/deliver/cabundle.go:8-16 | What is sent differs from the manifest in the owner label, the origin annotation and the caBundles only; of any kind but the two webhook configurations and CRDs the body is sent as it is |
| Webhooks.StripExact | internal/deliver/cabundle.go:8-41 | Stripping takes the caBundles of the entries of the two webhook configurations and that of a CRD conversion; every other read is unchanged, and so is any other kind |
| Manifests.StampLeavesNoBundle | internal/deliver/cabundle.go:8-41 | No configuration that is sent carries a caBundle in a webhook or conversion client configuration |
| Webhooks.RewriteCommutesWithStrip | internal/transform/rewrite_webhook_url.go:28-106 | Rewriting and caBundle stripping commute on every tree, with the same errors |
| Webhooks.RewriteIdempotent | internal/transform/rewrite_webhook_url.go:47-106 | A rewritten body is a fixed point of the rewrite |
| Webhooks.RewriteConfigExact | internal/transform/rewrite_webhook_url.go:92-106 | A configuration changes exactly if it has a service map and no url; then the url is the prefix and the path of the service, the service goes, and all else stays |
| Webhooks.RewriteFailsIff | internal/transform/rewrite_webhook_url.go:28-90 | The rewrite fails exactly on a webhook list, a conversion strategy or the configuration of a conversion by webhook of the wrong type, and changes no other kind |
| Webhooks.WebhookFrame | internal/deliver/cabundle.go:18-36 | Stripping takes every caBundle of the list and nothing else, rewriting moves url and service only |
| Webhooks.ConversionFrame | internal/transform/rewrite_webhook_url.go:74-106 | The CRD rewrite changes the body exactly if the conversion is by webhook and service-based, then moves url and service only, and leaves every other branch alone |
| Webhooks.StripCABundleFromWebhooks | internal/deliver/cabundle.go:18-36 | The loop strips every entry of the list |
| Webhooks.RewriteWebhookList | internal/transform/rewrite_webhook_url.go:47-72 | The loop with its changed flag computes the rewrite, errors included |
| Trees.RemoveNestedExact | internal/deliver/cabundle.go:38-41 | Removing a nested field takes exactly that subtree |
| Transforms.TransformBoth | internal/controller/dualdeploymentoperator_controller.go:142-152 | The interleaved loop succeeds exactly when both independent folds do, with their results and the reason of the earlier failure |
| Transforms.PipelinePointwise | internal/transform/transform.go:18-24 | The pipeline succeeds exactly if every transformation is usable and no manifest fails on its own; its output is, in input order, what each manifest alone becomes, with exactly the dropped ones missing |
| HeapTransforms.Run | internal/transform/transform.go:18-24 | The pipeline on mutable trees leaves every input tree as it was; its outputs are, in input order, what becomes of the manifests that are not dropped, each one the very input object exactly if no transformation rewrote it, and otherwise in new nodes only |
| HeapTransforms.Apply | internal/transform/patch.go:34-54 | The same for one transformation over a list, which stops at the first failure |
| HeapTransforms.RewriteOne | internal/transform/rewrite_webhook_url.go:28-45 | A deep copy is edited, never the manifest itself |
| HeapTransforms.PatchOne | internal/transform/patch.go:41-53 | A manifest that does not match is returned as it is, any other is built anew |
| HeapTransforms.HeapComputes | internal/transform/transform.go:18-24 | What the pipeline on mutable trees returns are the values that the pipeline on values computes |
| HeapTransforms.HeapFails | internal/transform/transform.go:18-24 | And it fails exactly where that one does |
| HeapTransforms.DecodeEncode | internal/manifest/manifest.go:59-83 | Reading identity, labels and annotations off the tree that holds them gives the manifest back |
| HeapTransforms.AliasedOutput | internal/transform/filter_kinds.go:34 | A filter that keeps everything returns the input objects, and editing one of its outputs changes the input |
| Transforms.FateKeepsOrigin | internal/transform/patch.go:34-54 | No transformation changes the origin of a manifest |
| Transforms.BuiltExactly | internal/transform/transform.go:26-57 | The list is built exactly if every entry has one member set and no other; then the k-th transformation is the whole member of the k-th entry |
| Transforms.Build | internal/transform/transform.go:26-57 | The loop that counts the members builds that list |
| Transforms.FateMeaning | internal/transform/patch.go:34-54 | What each transformation makes of one manifest: dropped exactly if listed and of the given or any origin; patched, with its origin kept, exactly if selected; rewritten in its body only |
| Transforms.FusedReason | internal/controller/dualdeploymentoperator_controller.go:142-152 | Which of two failing renders is reported |
| Transforms.ApplyTransformation | internal/transform/filter_kinds.go:22-37 | The loops of the three transformations compute their specification |
| Transforms.ApplyEach | internal/transform/patch.go:34-54 | Element by element, failing if any element does |
| Transforms.KeptExactly | internal/transform/filter_kinds.go:19-37 | A filter keeps exactly the positions whose manifest is not of a listed kind, or not of the origin that is given |
| RenderCaching.Session | internal/source/cache.go:33-68 | After any session of cached renders at any moments, with any in-place edits of handed-out maps and lists at any depth (values set, dropped, appended, truncated, shared between objects, tied into cycles), the objects that answer a request hold what the inner source renders, or what the key names where the inner source fails |
| RenderCaching.Render | internal/source/cache.go:33-68 | A hit gives what the slot stands for, a miss what the inner source renders, which fills the slot; in nodes of the caller's own |
| RenderCaching.TwoAsks | internal/source/cache.go:56-67 | Of two requests to one slot of an empty cache the second gets what the first one rendered |
| RenderCaching.RenderCache.Get | internal/source/rendercache.go:43-49 | A hit hands out deep copies and makes the key the most recent |
| RenderCaching.RenderCache.Put | internal/source/rendercache.go:51-53 | Stores deep copies and makes the key the most recent; only a full cache loses an entry, and that is the last of the recency list |
| RenderCaching.LeastRecentlyUsedLast | internal/source/rendercache.go:32-53 | After any uses the recency list is ordered by last use, latest first, so that its last key is the least recently used one |
| RenderCaching.WithoutExact | internal/source/rendercache.go:43-53 | Making a key the most recent leaves the order of all others |
| RenderCaching.RenderCache.constructor | internal/source/rendercache.go:32-41 | An empty cache with the given or the default bound |
| HeapTrees.CloneManifests | internal/source/rendercache.go:55-70 | The same trees and origins in new nodes, nested maps and lists included |
| HeapTrees.Copy | internal/source/rendercache.go:62-67 | The deep copy of one tree: equal in value, and no node shared at any depth |
| HeapTrees.ShowsUnique | internal/source/rendercache.go:55-70 | An object on the heap stands for one tree only |
| RenderCaching.InnerRender | internal/source/helm.go:28-61 | The inner source allocates what it renders |
| CacheKeys.KeyDeterminesRender | internal/source/cachekey.go:18-46 | Two sources reach one slot, whatever moved between their moments, only if their renders agree where both fetches succeed, failures included |
| CacheKeys.KeyDeterminesNamed | internal/source/cachekey.go:18-46 | Two sources reach one slot, at whatever moments, only if their ids name the same render |
| CacheKeys.LackingCommitServed | internal/source/gitresolver.go:157-176 | A repository that lacks a commit is served, on its own request, what one on the same host that has it rendered before |
| CacheKeys.CachedSession | internal/source/cache.go:22-68 | The same over backends whose references move between renders: a render that succeeds is handed out as it is, a failure is made good only after a failed fetch, with what the resolved id names |
| CacheKeys.MovedMeanwhile | internal/source/cache.go:36-67 | A reference that moves between resolving and fetching fills the slot of its old id with the new content |
| CacheKeys.ModeValuesExact | internal/source/helm.go:63-87 | Seed and shoot renders have their own values over the common ones; those of the other mode do not matter; an absent or empty document changes nothing and one that does not parse fails |
| CacheKeys.RenderUses | internal/source/helm.go:28-61 | A render installs the chart with the values of its mode, which must not set the mode themselves, or builds the path of its mode |
| CacheKeys.HelmInputs | internal/source/cache.go:78-98 | Equal hash inputs mean the same chart name and version and, per mode, the same values or the same parse failure |
| CacheKeys.KustomizeInputs | internal/source/cache.go:120-133 | Equal hash inputs mean the same root and paths |
| CacheKeys.SourcesShareSoundly | internal/source/cache.go:22-31 | Any sources may share a cache while references move |
| Normalizing.PruneDecidesEquiv | internal/equivalence/normalize.go:18-49 | Pruned forms agree exactly on trees equal up to entries that vanish |
| Normalizing.PruneVanishes | internal/equivalence/normalize.go:40-49 | A value prunes to nothing exactly if it is nil or a map of such values |
| Normalizing.CanonicalShape | internal/equivalence/allowlist.go:23-45 | A canonical form holds no nil and no empty map under a map, and no allowlisted label or annotation |
| Normalizing.CanonicalIdempotent | internal/equivalence/normalize.go:10-16 | Canonicalising twice is canonicalising once |
| Normalizing.CanonicalDecides | internal/equivalence/compare.go:114-118 | Canonical forms agree exactly if the objects, the allowlisted labels and annotations taken out and nothing else, are equal up to vanishing entries |
| Normalizing.AllowlistReads | internal/equivalence/allowlist.go:23-45 | Stripping takes exactly the allowlisted labels and annotations: every other read finds what it found before |
| Normalizing.DriftSeen | internal/equivalence/allowlist.go:23-28 | Two objects that differ in a value anywhere but in an allowlisted label or annotation have different canonical forms |
| Comparing.DiffsExact | internal/equivalence/compare.go:48-109 | The reported positions are exactly those where the trees part |
| Comparing.DiffsEmptyIff | internal/equivalence/compare.go:48-109 | No difference is reported exactly when the trees are equal |
| Reporting.Compare | internal/equivalence/compare.go:111-143 | Each list of the report holds exactly the objects of its kind of finding |
| Reporting.EqualIff | internal/equivalence/compare.go:24-27 | The report is clean exactly if the key sets agree and the canonical forms agree key by key |
| Reporting.MismatchHasDiffs | internal/equivalence/compare.go:127-130 | Every reported mismatch has a position where the forms part |
| Reporting.CompareScoped | internal/equivalence/scope.go:66-78 | The scoped report holds exactly the single-sided findings that are not known divergences, and every mismatch |
| Reporting.DropKnownDivergent | internal/equivalence/scope.go:80-91 | The filter loop |
| Reporting.ParseExact | internal/equivalence/scope.go:93-107 | Re-parsing a printed key recovers kind and name exactly if both are free of slashes and so is the namespace, or its second part from the end is the kind |
| Reporting.DisplayKeyExact | internal/equivalence/compare.go:44-46 | The printed key of slash-free kind, namespace and name tells objects apart by these and the apiVersion |
| Reporting.FilterExact | internal/equivalence/scope.go:93-107 | An object is filtered exactly by its own kind and name if its key is recoverable, and otherwise not even by its own entry |
| Reporting.DisplayKeyParses | internal/equivalence/scope.go:93-107 | In particular an object of slash-free parts is filtered exactly if it is listed |
| Reporting.ScopedDropsExactly | internal/equivalence/scope.go:66-107 | For objects with recoverable keys exactly the single-sided findings of listed ones are dropped, and no field mismatch ever is |
| Scoping.Apply | internal/equivalence/scope.go:53-64 | Each object of the result is an object in scope with the labels stripped and the namespace moved, under its own key, and each such key is there |
| Scoping.ScopedReads | internal/equivalence/scope.go:109-169 | Subjects apart, scoping takes the ignored labels, moves a namespace to the given one, and leaves every other value as it was |
| Scoping.ScopedSubjects | internal/equivalence/scope.go:119-146 | Each subject that names a namespace is moved to the given one, and nothing else about the subjects changes |
| Scoping.NarrowsKinds | internal/equivalence/scope.go:36-64 | Only objects of the compared kinds are left, and none of them is overlooked |
| Scoping.KeyAgrees | internal/equivalence/set.go:22-25 | Two objects share a key exactly if group, kind, namespace and name agree |
| Scoping.ScopedKey | internal/equivalence/scope.go:53-64 | The key of a scoped object is its key with the namespace moved if it had one |
| Scoping.CollideIff | internal/equivalence/scope.go:53-64 | Two objects fall together exactly if a namespace is set and they differ in a non-empty namespace only |
| Scoping.NothingLostIff | internal/equivalence/scope.go:53-64 | The result has as many objects as are in scope exactly if no two of them fall together |
| Scoping.HiddenDrift | internal/equivalence/scope.go:26-32 | A set that lacks one of two expected objects compares clean once both are moved to one namespace |
| Reporting.SlashDefeatsFilter | internal/equivalence/scope.go:93-107 | A slash in the name hides a listed object from the filter, whatever its other parts are |

## Left out

- Helm, kustomize, git and OCI fetching and rendering: functions of the backend, arbitrary up to the cache assumptions above.
- Patch bodies and the target selector: arbitrary functions of `PatchSpec`.
- YAML and base64 decoding, fixtures, golden rendering.
- Manager wiring, the shoot REST configuration and its credentials: a pass is told the shoot phase.
- Logs, events, timestamps and condition messages; only condition status and reason are kept.
- What a patch returns besides the namespace, the merge semantics of server-side apply, cascade deletion and finalizers of target objects.
- Users, and passes of other CRs, between the requests of one pass: they act between passes. Other actors may act before every request, but statements over a `LoneWorld` ask that they do not.
- Stale reads of the CR: a pass reads its current state, and a conflicting write is a refused write.
- Concurrent use of the render cache: a session is a sequence of calls.
- The hash behind the owner label: distinct CRs are assumed to have distinct values.
- The text of difference paths and the sorting of the report's lists: positions are structured and membership is what is stated.
- The library's stable sort: the comparator and the resulting order are modelled, its merge steps are not.

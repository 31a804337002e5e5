/**
  Rendered objects, the status entries recorded for them, and the
  version-independent identity that links the two.
 */
module Manifests {
  import opened Trees
  import opened Strings
  import Webhooks

  const OWNED_BY := "dual-deployment-operator.cc.sap/owned-by"
  const ORIGIN := "dual-deployment-operator.cc.sap/origin"
  const CRD := Webhooks.CRD

  datatype Health = Healthy | Progressing | Degraded | Unknown

  /** A rendered object: its identity, labels and annotations, and the rest of its tree. */
  datatype Manifest = Manifest(
    apiVersion: string, kind: string, ns: string, name: string,
    labels: map<string, string>, annotations: map<string, string>,
    origin: string, body: Fields)

  /** One inventory entry of the custom resource's status. */
  datatype ResourceStatus = ResourceStatus(
    apiVersion: string, kind: string, ns: string, name: string, health: Health)

  datatype GroupVersion = GroupVersion(group: string, version: string)
  datatype GVK = GVK(group: string, version: string, kind: string)

  predicate IsClusterScoped(kind: string) {
    kind in {
      "CustomResourceDefinition", "ClusterRole", "ClusterRoleBinding", "Namespace",
      "PriorityClass", "StorageClass", "ClusterIssuer", "APIService",
      "ValidatingWebhookConfiguration", "MutatingWebhookConfiguration",
      "PersistentVolume", "IngressClass", "RuntimeClass",
      "PriorityLevelConfiguration", "FlowSchema", "CSIDriver", "CSINode",
      "VolumeAttachment", "NodeClass"
    }
  }

  /** "group/version" or "version"; anything with two or more slashes is malformed. */
  function ParseGroupVersion(s: string): Option<GroupVersion> {
    var parts := Split(s, '/');
    if |parts| == 1 then Some(GroupVersion("", s))
    else if |parts| == 2 then Some(GroupVersion(parts[0], parts[1]))
    else None
  }

  function FormatGroupVersion(gv: GroupVersion): string {
    if gv.group == "" then gv.version else gv.group + "/" + gv.version
  }

  /** A malformed apiVersion hides the kind as well. */
  function KindOf(m: Manifest): GVK {
    match ParseGroupVersion(m.apiVersion)
    case Some(gv) => GVK(gv.group, gv.version, m.kind)
    case None => GVK("", "", "")
  }

  function StatusGroup(rs: ResourceStatus): GroupVersion {
    match ParseGroupVersion(rs.apiVersion)
    case Some(gv) => gv
    case None => GroupVersion("", "")
  }

  function IdentityNamespace(kind: string, ns: string): string {
    if IsClusterScoped(kind) then "" else ns
  }

  /** The components that the two identity keys join with slashes. */
  datatype Identity = Identity(group: string, kind: string, ns: string, name: string) {
    function Parts(): seq<string> { [group, kind, ns, name] }
    predicate SlashFree() { AllFree(Parts(), '/') }
  }

  function ManifestIdentity(m: Manifest): Identity {
    var k := KindOf(m);
    Identity(k.group, k.kind, IdentityNamespace(k.kind, m.ns), m.name)
  }

  function StatusIdentity(rs: ResourceStatus): Identity {
    Identity(StatusGroup(rs).group, rs.kind, IdentityNamespace(rs.kind, rs.ns), rs.name)
  }

  function ManifestIdentityKey(m: Manifest): string { Join(ManifestIdentity(m).Parts(), '/') }

  function StatusIdentityKey(rs: ResourceStatus): string { Join(StatusIdentity(rs).Parts(), '/') }

  /** The status entry that an apply records, whatever its outcome. */
  function StatusOf(m: Manifest, health: Health): ResourceStatus {
    ResourceStatus(m.apiVersion, m.kind, m.ns, m.name, health)
  }

  /** The minimal manifest rebuilt from an inventory entry for a Get or a Delete. */
  function ManifestFromStatus(rs: ResourceStatus): Manifest {
    Manifest(FormatGroupVersion(StatusGroup(rs)), rs.kind, IdentityNamespace(rs.kind, rs.ns), rs.name, map[], map[], "", map[])
  }

  // ------------------------------------------------------------- Namespaces

  /** The namespace a render gets: none for a listed kind, else its own if it declares one. */
  function Namespaced(m: Manifest, ns: string): Manifest {
    if IsClusterScoped(m.kind) then m.(ns := "") else if m.ns == "" then m.(ns := ns) else m
  }

  /** A listed kind loses its namespace, a declared one is kept, the others get `ns`; nothing else changes. */
  lemma NamespacedExact(m: Manifest, ns: string)
    ensures var r := Namespaced(m, ns);
            && (IsClusterScoped(m.kind) ==> r.ns == "")
            && (!IsClusterScoped(m.kind) && m.ns != "" ==> r.ns == m.ns)
            && (!IsClusterScoped(m.kind) && m.ns == "" ==> r.ns == ns)
            && r.(ns := m.ns) == m
  {
  }

  method ApplyNamespace(ms: seq<Manifest>, ns: string) returns (out: seq<Manifest>)
    ensures |out| == |ms| && forall k :: 0 <= k < |ms| ==> out[k] == Namespaced(ms[k], ns)
  {
    out := ms;
    for i := 0 to |ms|
      invariant |out| == |ms|
      invariant forall k :: 0 <= k < |ms| ==> out[k] == if k < i then Namespaced(ms[k], ns) else ms[k]
    {
      if IsClusterScoped(out[i].kind) {
        if out[i].ns != "" { out := out[i := out[i].(ns := "")]; }
        continue;
      }
      if ns == "" { continue; }
      if out[i].ns != "" { continue; }
      out := out[i := out[i].(ns := ns)];
    }
  }

  // ------------------------------------------------------- Stamping for apply

  function Owner(m: Manifest): string {
    if OWNED_BY in m.labels then m.labels[OWNED_BY] else ""
  }

  /** What is sent: no origin annotation, the owner label set, no caBundle. */
  function Stamp(m: Manifest, ownedBy: string): (r: Manifest)
    ensures Owner(r) == ownedBy && ORIGIN !in r.annotations
    ensures ManifestIdentity(r) == ManifestIdentity(m)
    ensures r.annotations - {ORIGIN} == m.annotations - {ORIGIN} && r.labels - {OWNED_BY} == m.labels - {OWNED_BY}
  {
    m.(annotations := m.annotations - {ORIGIN},
       labels := m.labels[OWNED_BY := ownedBy],
       body := Webhooks.Strip(m.kind, m.body))
  }

  /** `r` is `m` as the servers get it for `ownedBy`: labelled, without its origin and its caBundles, and otherwise itself. */
  ghost predicate Sent(m: Manifest, ownedBy: string, r: Manifest) {
    && r.apiVersion == m.apiVersion && r.kind == m.kind && r.name == m.name && r.origin == m.origin
    && r.labels == m.labels["dual-deployment-operator.cc.sap/owned-by" := ownedBy]
    && r.annotations == m.annotations - {"dual-deployment-operator.cc.sap/origin"}
    && Webhooks.OnlyBundlesGone(m.kind, m.body, r.body)
  }

  /** In particular the body of a workload, and of any kind but the three that carry bundles, goes out as it is. */
  lemma StampSent(m: Manifest, ownedBy: string)
    ensures Sent(m, ownedBy, Stamp(m, ownedBy)) && Stamp(m, ownedBy).ns == m.ns
    ensures m.kind !in {"ValidatingWebhookConfiguration", "MutatingWebhookConfiguration", "CustomResourceDefinition"} ==>
              Stamp(m, ownedBy).body == m.body
  {
    hide Webhooks.Strip;
    Webhooks.StripExact(m.kind, m.body);
  }

  // ------------------------------------------------------------ Identity laws

  predicate WellFormed(apiVersion: string) { ParseGroupVersion(apiVersion).Some? }

  lemma FormatParses(gv: GroupVersion)
    requires Free(gv.group, '/') && Free(gv.version, '/')
    ensures ParseGroupVersion(FormatGroupVersion(gv)) == Some(gv)
  {
    SplitFree(gv.group, '/');
    SplitFree(gv.version, '/');
    SplitAt(gv.group, gv.version, '/');
  }

  lemma ParsedIsSlashFree(s: string)
    requires WellFormed(s)
    ensures var gv := ParseGroupVersion(s).value; Free(gv.group, '/') && Free(gv.version, '/')
  {
    SplitPartsFree(s, '/');
    SplitFree(s, '/');
  }

  /** A manifest, the entry recorded from it and the manifest rebuilt from that entry share one key. */
  lemma IdentityRoundTrip(m: Manifest, health: Health)
    requires WellFormed(m.apiVersion)
    ensures ManifestIdentity(m) == StatusIdentity(StatusOf(m, health))
    ensures ManifestIdentity(ManifestFromStatus(StatusOf(m, health))) == ManifestIdentity(m)
    ensures ManifestIdentityKey(m) == StatusIdentityKey(StatusOf(m, health))
            == ManifestIdentityKey(ManifestFromStatus(StatusOf(m, health)))
  {
    RebuildKeepsIdentity(StatusOf(m, health));
  }

  /** Rebuilding keeps the identity of every entry, even of one with a malformed apiVersion. */
  lemma RebuildKeepsIdentity(rs: ResourceStatus)
    ensures ManifestIdentity(ManifestFromStatus(rs)) == StatusIdentity(rs)
    ensures IsClusterScoped(rs.kind) ==> ManifestFromStatus(rs).ns == ""
  {
    var gv := StatusGroup(rs);
    if WellFormed(rs.apiVersion) {
      ParsedIsSlashFree(rs.apiVersion);
      FormatParses(gv);
    }
    SplitFree("", '/');
  }

  /**
    Rebuilding keeps kind and name, and the recorded apiVersion exactly if that is well formed and
    does not begin with a slash.
   */
  lemma RebuildKeepsVersion(rs: ResourceStatus)
    ensures var m, v := ManifestFromStatus(rs), rs.apiVersion;
            && m.kind == rs.kind && m.name == rs.name
            && (m.apiVersion == v <==> WellFormed(v) && (v == "" || v[0] != '/'))
  {
    var v := rs.apiVersion;
    var parts := Split(v, '/');
    JoinSplit(v, '/');
    SplitFree(v, '/');
    if |parts| == 2 {
      assert parts[1..] == [parts[1]];
      assert v == parts[0] + "/" + parts[1];
      assert parts[0] == "" <==> v[0] == '/' by {
        SplitPartsFree(v, '/');
        if parts[0] != "" { assert v[0] == parts[0][0]; }
      }
    } else if |parts| > 2 {
      SplitFree("", '/');
    }
  }

  /** Well-formedness is needed: a malformed apiVersion gives the manifest and its entry different keys. */
  lemma MalformedVersionSplitsIdentity(m: Manifest, health: Health)
    requires !WellFormed(m.apiVersion)
    ensures ManifestIdentity(m) == StatusIdentity(StatusOf(m, health)) <==> m.kind == ""
  {
  }

  /** Key strings agree exactly when the identities do; one slash-free side is enough. */
  lemma KeyIsIdentity(a: Identity, b: Identity)
    requires a.SlashFree()
    ensures Join(a.Parts(), '/') == Join(b.Parts(), '/') <==> a == b
  {
    JoinInjective(a.Parts(), b.Parts(), '/');
    if a.Parts() == b.Parts() {
      assert a.Parts()[0] == b.Parts()[0] && a.Parts()[1] == b.Parts()[1];
      assert a.Parts()[2] == b.Parts()[2] && a.Parts()[3] == b.Parts()[3];
    }
  }

  /** A version bump keeps the key; so does a stray namespace on a cluster-scoped kind. */
  lemma KeyIgnoresVersion(m: Manifest, n: Manifest)
    requires WellFormed(m.apiVersion) && WellFormed(n.apiVersion)
    requires ManifestIdentity(m).SlashFree()
    ensures ManifestIdentityKey(m) == ManifestIdentityKey(n)
            <==> && KindOf(m).group == KindOf(n).group && m.kind == n.kind && m.name == n.name
                 && (IsClusterScoped(m.kind) || m.ns == n.ns)
  {
    KeyIsIdentity(ManifestIdentity(m), ManifestIdentity(n));
  }

  /** No configuration that is sent carries a caBundle where the servers would read one. */
  lemma StampLeavesNoBundle(m: Manifest, ownedBy: string)
    ensures var body := Stamp(m, ownedBy).body;
            && (Webhooks.IsWebhookKind(m.kind) ==>
                  var r := NestedSlice(body, Webhooks.WEBHOOKS);
                  r.Present? ==> forall i :: 0 <= i < |r.value.items| && Webhooks.HasConfig(r.value.items[i]) ==>
                    Webhooks.CA_BUNDLE !in r.value.items[i].fields["clientConfig"].fields)
            && (m.kind == CRD ==>
                  var r := NestedMap(body, Webhooks.CONVERSION);
                  r.Present? ==> Webhooks.CA_BUNDLE !in r.value.fields)
  {
    if Webhooks.IsWebhookKind(m.kind) {
      if NestedSlice(m.body, Webhooks.WEBHOOKS).Present? { BundlesGone(m); }
    } else if m.kind == CRD {
      ConversionBundleGone(m.body, Webhooks.CONVERSION);
    }
  }

  lemma BundlesGone(m: Manifest)
    requires Webhooks.IsWebhookKind(m.kind) && NestedSlice(m.body, Webhooks.WEBHOOKS).Present?
    ensures var r := NestedSlice(Webhooks.Strip(m.kind, m.body), Webhooks.WEBHOOKS);
            r.Present? && forall i :: 0 <= i < |r.value.items| && Webhooks.HasConfig(r.value.items[i]) ==>
              Webhooks.CA_BUNDLE !in r.value.items[i].fields["clientConfig"].fields
  {
    hide Webhooks.Strip;
    hide Webhooks.Rewrite;
    hide Webhooks.StripEntry;
    Webhooks.WebhookFrame(m.kind, m.body, "");
    var whs := NestedSlice(m.body, Webhooks.WEBHOOKS).value.items;
    forall i | 0 <= i < |whs| && Webhooks.HasConfig(Webhooks.StripAll(whs)[i]) ensures Webhooks.HasConfig(whs[i]) {
      assert Webhooks.SameBut(whs[i], Webhooks.StripAll(whs)[i], {Webhooks.CA_BUNDLE});
    }
  }

  lemma ConversionBundleGone(body: Fields, path: seq<string>)
    requires path != []
    ensures var r := NestedMap(RemoveNested(body, path + [Webhooks.CA_BUNDLE]), path);
            r.Present? ==> Webhooks.CA_BUNDLE !in r.value.fields
  {
    RemoveNestedIsSet(body, path, Webhooks.CA_BUNDLE);
    var m := NestedMap(body, path);
    if m.Present? { SetNestedExact(body, path, Map(m.value.fields - {Webhooks.CA_BUNDLE}), []); }
  }
}

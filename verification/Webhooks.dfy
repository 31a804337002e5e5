/**
  Webhook client configurations: the `rewriteWebhookURL` transformation and the
  caBundle stripping done just before an apply.
 */
module Webhooks {
  import opened Trees

  const CRD := "CustomResourceDefinition"
  const WEBHOOKS := ["webhooks"]
  const STRATEGY := ["spec", "conversion", "strategy"]
  const CONVERSION := ["spec", "conversion", "webhook", "clientConfig"]
  const CA_BUNDLE := "caBundle"

  predicate IsWebhookKind(kind: string) {
    kind == "ValidatingWebhookConfiguration" || kind == "MutatingWebhookConfiguration"
  }

  // ------------------------------------------------------------ Stripping

  function StripEntry(wh: Json): Json {
    if wh.Map? then Map(RemoveNested(wh.fields, ["clientConfig", CA_BUNDLE])) else wh
  }

  function StripAll(whs: seq<Json>): seq<Json> {
    seq(|whs|, i requires 0 <= i < |whs| => StripEntry(whs[i]))
  }

  /** The configuration sent to the server: `body` without its caBundle leaves. */
  function Strip(kind: string, body: Fields): Fields {
    if IsWebhookKind(kind) then
      var r := NestedSlice(body, WEBHOOKS);
      if r.Present? then body["webhooks" := List(StripAll(r.value.items))] else body
    else if kind == CRD then RemoveNested(body, CONVERSION + [CA_BUNDLE])
    else body
  }

  // ------------------------------------------------------------ Rewriting

  /** A client configuration the rewrite acts on: service-based and without a url. */
  predicate ServiceBased(cc: Fields) {
    "url" !in cc && "service" in cc && cc["service"].Map?
  }

  function ServicePath(cc: Fields): string
    requires ServiceBased(cc)
  {
    var svc := cc["service"].fields;
    if "path" in svc && svc["path"].Str? then svc["path"].s else ""
  }

  function RewriteConfig(cc: Fields, prefix: string): Fields {
    if ServiceBased(cc) then cc["url" := Str(prefix + ServicePath(cc))] - {"service"} else cc
  }

  predicate HasConfig(wh: Json) {
    wh.Map? && "clientConfig" in wh.fields && wh.fields["clientConfig"].Map?
  }

  function RewriteEntry(wh: Json, prefix: string): Json {
    if HasConfig(wh) then
      Map(wh.fields["clientConfig" := Map(RewriteConfig(wh.fields["clientConfig"].fields, prefix))])
    else wh
  }

  function RewriteAll(whs: seq<Json>, prefix: string): seq<Json> {
    seq(|whs|, i requires 0 <= i < |whs| => RewriteEntry(whs[i], prefix))
  }

  /** The rewritten body, or None when a field on the way has the wrong type. */
  function Rewrite(kind: string, body: Fields, prefix: string): Option<Fields> {
    if IsWebhookKind(kind) then
      match NestedSlice(body, WEBHOOKS)
      case BadPath => None
      case Missing => Some(body)
      case Present(v) => Some(body["webhooks" := List(RewriteAll(v.items, prefix))])
    else if kind == CRD then
      RewriteConversion(body, STRATEGY, CONVERSION, prefix)
    else Some(body)
  }

  /** `rewriteConversion`, for the strategy and client configuration at given paths. */
  function RewriteConversion(body: Fields, strategy: seq<string>, config: seq<string>, prefix: string): Option<Fields>
    requires config != []
  {
    match NestedString(body, strategy)
    case BadPath => None
    case Missing => Some(body)
    case Present(s) =>
      if s.s != "Webhook" then Some(body)
      else match NestedMap(body, config)
        case BadPath => None
        case Missing => Some(body)
        case Present(cc) =>
          if ServiceBased(cc.fields)
          then SetNested(body, config, Map(RewriteConfig(cc.fields, prefix)))
          else Some(body)
  }

  // ------------------------------------------- Stripping and rewriting in place

  /** `stripCABundleFromWebhooks`: edits every entry of the list in turn. */
  method StripCABundleFromWebhooks(kind: string, body: Fields) returns (out: Fields)
    requires IsWebhookKind(kind)
    ensures out == Strip(kind, body)
  {
    out := body;
    var r := NestedSlice(body, WEBHOOKS);
    if !r.Present? { return; }
    var whs := r.value.items;
    for i := 0 to |whs|
      invariant |whs| == |r.value.items|
      invariant forall k :: 0 <= k < i ==> whs[k] == StripEntry(r.value.items[k])
      invariant forall k :: i <= k < |whs| ==> whs[k] == r.value.items[k]
    {
      if whs[i].Map? {
        whs := whs[i := Map(RemoveNested(whs[i].fields, ["clientConfig", CA_BUNDLE]))];
      }
    }
    assert whs == StripAll(r.value.items);
    out := body["webhooks" := List(whs)];
  }

  /** `rewriteWebhookList`: writes the list back only when some entry changed. */
  method RewriteWebhookList(kind: string, body: Fields, prefix: string) returns (out: Option<Fields>)
    requires IsWebhookKind(kind)
    ensures out == Rewrite(kind, body, prefix)
  {
    out := Some(body);
    var r := NestedSlice(body, WEBHOOKS);
    if r.BadPath? { return None; }
    if r.Missing? { return; }
    var whs := r.value.items;
    var changed := false;
    for i := 0 to |whs|
      invariant |whs| == |r.value.items|
      invariant forall k :: 0 <= k < i ==> whs[k] == RewriteEntry(r.value.items[k], prefix)
      invariant forall k :: i <= k < |whs| ==> whs[k] == r.value.items[k]
      invariant !changed ==> whs == r.value.items
    {
      if HasConfig(whs[i]) {
        var cc := whs[i].fields["clientConfig"].fields;
        if ServiceBased(cc) {
          whs := whs[i := Map(whs[i].fields["clientConfig" := Map(RewriteConfig(cc, prefix))])];
          changed := true;
        } else {
          assert whs[i].fields["clientConfig" := Map(cc)] == whs[i].fields;
        }
      }
    }
    assert whs == RewriteAll(r.value.items, prefix);
    assert Nested(Map(body), WEBHOOKS) == Nested(body["webhooks"], []);
    if changed {
      out := Some(body["webhooks" := List(whs)]);
    } else {
      assert body["webhooks" := List(whs)] == body;
    }
  }

  // ------------------------------------------------------------------ Laws

  /**
    A configuration changes exactly if it has a service and no url. Then the url is the prefix and the
    service's path, the service goes, and all else stays, the caBundle included.
   */
  lemma RewriteConfigExact(cc: Fields, prefix: string)
    ensures var out := RewriteConfig(cc, prefix);
            && out - {"url", "service"} == cc - {"url", "service"}
            && !ServiceBased(out)
            && (ServiceBased(cc) <==> out != cc)
            && (out != cc <==> "url" !in cc && "service" in cc && cc["service"].Map?)
            && (out != cc ==>
                  && "service" !in out && "url" in out
                  && var path := Nested(cc["service"], ["path"]);
                     out["url"] == Str(if path.Present? && path.value.Str? then prefix + path.value.s else prefix))
  {
    var out := RewriteConfig(cc, prefix);
    if ServiceBased(cc) {
      assert "url" in out && "url" !in cc;
      ReadOne(cc["service"].fields, "path");
      assert prefix + "" == prefix;
    }
  }

  lemma RewriteConfigWithoutBundle(cc: Fields, prefix: string)
    ensures RewriteConfig(cc - {CA_BUNDLE}, prefix) == RewriteConfig(cc, prefix) - {CA_BUNDLE}
  {
  }

  /** An entry whose client configuration is a map, written with `cc` in its place. */
  function WithConfig(f: Fields, cc: Fields): Json { Map(f["clientConfig" := Map(cc)]) }

  lemma EntryReads(wh: Json, prefix: string)
    requires HasConfig(wh)
    ensures var cc := wh.fields["clientConfig"].fields;
            && StripEntry(wh) == WithConfig(wh.fields, cc - {CA_BUNDLE})
            && RewriteEntry(wh, prefix) == WithConfig(wh.fields, RewriteConfig(cc, prefix))
  {
    var cc := wh.fields["clientConfig"].fields;
    assert ["clientConfig", CA_BUNDLE][1..] == [CA_BUNDLE];
    assert RemoveNested(cc, [CA_BUNDLE]) == cc - {CA_BUNDLE};
  }

  lemma EntryReadsBack(f: Fields, cc: Fields, prefix: string)
    ensures StripEntry(WithConfig(f, cc)) == WithConfig(f, cc - {CA_BUNDLE})
    ensures RewriteEntry(WithConfig(f, cc), prefix) == WithConfig(f, RewriteConfig(cc, prefix))
  {
    EntryReads(WithConfig(f, cc), prefix);
    Overwrite(f, "clientConfig", Map(cc), Map(cc - {CA_BUNDLE}));
    Overwrite(f, "clientConfig", Map(cc), Map(RewriteConfig(cc, prefix)));
  }

  lemma EntryLaws(wh: Json, prefix: string)
    ensures RewriteEntry(StripEntry(wh), prefix) == StripEntry(RewriteEntry(wh, prefix))
    ensures RewriteEntry(RewriteEntry(wh, prefix), prefix) == RewriteEntry(wh, prefix)
  {
    if HasConfig(wh) {
      var cc := wh.fields["clientConfig"].fields;
      EntryReads(wh, prefix);
      EntryReadsBack(wh.fields, cc - {CA_BUNDLE}, prefix);
      EntryReadsBack(wh.fields, RewriteConfig(cc, prefix), prefix);
      RewriteConfigWithoutBundle(cc, prefix);
      RewriteConfigExact(cc, prefix);
    } else if wh.Map? {
      assert ["clientConfig", CA_BUNDLE][1..] == [CA_BUNDLE];
    }
  }

  lemma ConversionPaths()
    ensures !(STRATEGY <= CONVERSION) && !(CONVERSION <= STRATEGY)
  {
    assert STRATEGY[2] != CONVERSION[2];
    assert |CONVERSION| > |STRATEGY|;
  }

  lemma ListReads(body: Fields, whs: seq<Json>)
    ensures NestedSlice(body["webhooks" := List(whs)], WEBHOOKS) == Present(List(whs))
  {
    var b := body["webhooks" := List(whs)];
    assert Nested(Map(b), WEBHOOKS) == Nested(b["webhooks"], []);
  }

  /** Rewriting and stripping commute on every tree, with the same errors. */
  lemma RewriteCommutesWithStrip(kind: string, body: Fields, prefix: string)
    ensures Rewrite(kind, Strip(kind, body), prefix)
            == match Rewrite(kind, body, prefix)
               case Some(b) => Some(Strip(kind, b))
               case None => None
  {
    if IsWebhookKind(kind) {
      var r := NestedSlice(body, WEBHOOKS);
      if r.Present? {
        var whs := r.value.items;
        var stripped, rewritten := StripAll(whs), RewriteAll(whs, prefix);
        ListReads(body, stripped);
        ListReads(body, rewritten);
        forall i | 0 <= i < |whs| { EntryLaws(whs[i], prefix); }
        assert RewriteAll(stripped, prefix) == StripAll(rewritten);
        Overwrite(body, "webhooks", List(stripped), List(RewriteAll(stripped, prefix)));
        Overwrite(body, "webhooks", List(rewritten), List(StripAll(rewritten)));
      }
    } else if kind == CRD {
      ConversionPaths();
      ConversionCommutes(body, STRATEGY, CONVERSION, prefix);
    }
  }

  lemma ConversionCommutes(body: Fields, strategy: seq<string>, config: seq<string>, prefix: string)
    requires config != [] && !(strategy <= config) && !(config <= strategy)
    ensures RewriteConversion(RemoveNested(body, config + [CA_BUNDLE]), strategy, config, prefix)
            == match RewriteConversion(body, strategy, config, prefix)
               case Some(b) => Some(RemoveNested(b, config + [CA_BUNDLE]))
               case None => None
  {
    RemoveNestedIsSet(body, config, CA_BUNDLE);
    var m := NestedMap(body, config);
    if m.Present? {
      var cc := m.value.fields;
      var bare := cc - {CA_BUNDLE};
      var out := RewriteConfig(cc, prefix);
      SetNestedExact(body, config, Map(bare), strategy);
      RewriteConfigWithoutBundle(cc, prefix);
      if ServiceBased(cc) {
        SetNestedExact(body, config, Map(out), strategy);
        RemoveNestedIsSet(SetNested(body, config, Map(out)).value, config, CA_BUNDLE);
        SetNestedTwice(body, config, Map(bare), Map(out - {CA_BUNDLE}));
        SetNestedTwice(body, config, Map(out), Map(out - {CA_BUNDLE}));
      }
    }
  }

  /** A rewritten body is a fixed point of the rewrite. */
  lemma RewriteIdempotent(kind: string, body: Fields, prefix: string)
    requires Rewrite(kind, body, prefix).Some?
    ensures var out := Rewrite(kind, body, prefix).value;
            Rewrite(kind, out, prefix) == Some(out)
  {
    if IsWebhookKind(kind) {
      var r := NestedSlice(body, WEBHOOKS);
      if r.Present? {
        var whs := r.value.items;
        var once := RewriteAll(whs, prefix);
        ListReads(body, once);
        forall i | 0 <= i < |whs| { EntryLaws(whs[i], prefix); }
        assert RewriteAll(once, prefix) == once;
        Overwrite(body, "webhooks", List(once), List(once));
      }
    } else if kind == CRD {
      ConversionPaths();
      ConversionIdempotent(body, STRATEGY, CONVERSION, prefix);
    }
  }

  lemma ConversionIdempotent(body: Fields, strategy: seq<string>, config: seq<string>, prefix: string)
    requires config != [] && !(strategy <= config) && !(config <= strategy)
    requires RewriteConversion(body, strategy, config, prefix).Some?
    ensures var out := RewriteConversion(body, strategy, config, prefix).value;
            RewriteConversion(out, strategy, config, prefix) == Some(out)
  {
    var m := NestedMap(body, config);
    if m.Present? && ServiceBased(m.value.fields) {
      var out := RewriteConfig(m.value.fields, prefix);
      RewriteConfigExact(m.value.fields, prefix);
      SetNestedExact(body, config, Map(out), strategy);
    }
  }

  /** What may differ between two webhook entries when only `keys` of their client configuration may. */
  ghost predicate SameBut(a: Json, b: Json, keys: set<string>) {
    if HasConfig(a) then
      && HasConfig(b)
      && a.fields - {"clientConfig"} == b.fields - {"clientConfig"}
      && a.fields["clientConfig"].fields - keys == b.fields["clientConfig"].fields - keys
    else a == b
  }

  /**
    Both operations leave everything alone except the listed keys of client configurations:
    stripping takes every caBundle and nothing else, rewriting moves `url` and `service` only.
   */
  lemma WebhookFrame(kind: string, body: Fields, prefix: string)
    requires kind == "ValidatingWebhookConfiguration" || kind == "MutatingWebhookConfiguration"
    requires NestedSlice(body, WEBHOOKS).Present?
    ensures var whs := NestedSlice(body, WEBHOOKS).value.items;
            var stripped, rewritten := Strip(kind, body), Rewrite(kind, body, prefix).value;
            && stripped - {"webhooks"} == body - {"webhooks"} == rewritten - {"webhooks"}
            && NestedSlice(stripped, WEBHOOKS) == Present(List(StripAll(whs)))
            && NestedSlice(rewritten, WEBHOOKS) == Present(List(RewriteAll(whs, prefix)))
            && (forall i :: 0 <= i < |whs| ==>
                  && SameBut(whs[i], StripAll(whs)[i], {CA_BUNDLE})
                  && SameBut(whs[i], RewriteAll(whs, prefix)[i], {"url", "service"}))
            && (forall i :: 0 <= i < |whs| && HasConfig(whs[i]) ==>
                  && CA_BUNDLE !in StripAll(whs)[i].fields["clientConfig"].fields
                  && !ServiceBased(RewriteAll(whs, prefix)[i].fields["clientConfig"].fields))
  {
    var whs := NestedSlice(body, WEBHOOKS).value.items;
    ListReads(body, StripAll(whs));
    ListReads(body, RewriteAll(whs, prefix));
    forall i | 0 <= i < |whs|
      ensures && SameBut(whs[i], StripAll(whs)[i], {CA_BUNDLE})
              && SameBut(whs[i], RewriteAll(whs, prefix)[i], {"url", "service"})
              && (HasConfig(whs[i]) ==>
                    && CA_BUNDLE !in StripAll(whs)[i].fields["clientConfig"].fields
                    && !ServiceBased(RewriteAll(whs, prefix)[i].fields["clientConfig"].fields))
    {
      EntryFrame(whs[i], prefix);
    }
  }

  /** The entries of `b` are those of `a` without the caBundles of their client configurations. */
  ghost predicate EntriesBare(a: seq<Json>, b: seq<Json>) {
    |a| == |b| && forall i :: 0 <= i < |a| ==>
      SameBut(a[i], b[i], {"caBundle"}) && (HasConfig(a[i]) ==> "caBundle" !in b[i].fields["clientConfig"].fields)
  }

  /**
    What stripping makes of a body: the two webhook configurations lose the caBundles of their entries,
    a CRD loses that of its conversion webhook, and nothing else changes, least of all any other kind.
   */
  ghost predicate OnlyBundlesGone(kind: string, body: Fields, out: Fields) {
    if kind == "ValidatingWebhookConfiguration" || kind == "MutatingWebhookConfiguration" then
      var r := NestedSlice(body, ["webhooks"]);
      if r.Present? then
        && out - {"webhooks"} == body - {"webhooks"}
        && NestedSlice(out, ["webhooks"]).Present?
        && EntriesBare(r.value.items, NestedSlice(out, ["webhooks"]).value.items)
      else out == body
    else if kind == "CustomResourceDefinition" then
      BundleGone(body, out, ["spec", "conversion", "webhook", "clientConfig"])
    else out == body
  }

  /** Every read off the path is as it was, and the map at `config` has lost its caBundle, if it is one. */
  ghost predicate BundleGone(body: Fields, out: Fields, config: seq<string>) {
    var r := NestedMap(body, config);
    && (!r.Present? ==> out == body)
    && (r.Present? ==> NestedMap(out, config) == Present(Map(r.value.fields - {"caBundle"})))
    && (forall q: seq<string> :: !(q <= config) && !(config <= q) ==> Nested(Map(out), q) == Nested(Map(body), q))
  }

  lemma RemovedBundle(body: Fields, config: seq<string>)
    requires config != []
    ensures BundleGone(body, RemoveNested(body, config + ["caBundle"]), config)
  {
    RemoveNestedIsSet(body, config, "caBundle");
    var r := NestedMap(body, config);
    if r.Present? {
      var v := Map(r.value.fields - {"caBundle"});
      forall q: seq<string> | !(q <= config) && !(config <= q)
        ensures Nested(Map(SetNested(body, config, v).value), q) == Nested(Map(body), q)
      {
        SetNestedExact(body, config, v, q);
      }
      SetNestedExact(body, config, v, []);
    }
  }

  lemma StripExact(kind: string, body: Fields)
    ensures OnlyBundlesGone(kind, body, Strip(kind, body))
  {
    hide RemoveNested;
    hide SetNested;
    if kind == "ValidatingWebhookConfiguration" || kind == "MutatingWebhookConfiguration" {
      if NestedSlice(body, WEBHOOKS).Present? {
        WebhookFrame(kind, body, "");
      }
    } else if kind == "CustomResourceDefinition" {
      RemovedBundle(body, CONVERSION);
    }
  }

  /**
    Where the rewrite fails, exactly: a list of webhooks, a conversion strategy or the configuration of a
    conversion by webhook that is not of its type. And where it has nothing to do: no other kind changes.
   */
  lemma RewriteFailsIff(kind: string, body: Fields, prefix: string)
    ensures kind !in {"ValidatingWebhookConfiguration", "MutatingWebhookConfiguration", "CustomResourceDefinition"} ==>
              Rewrite(kind, body, prefix) == Some(body)
    ensures kind in {"ValidatingWebhookConfiguration", "MutatingWebhookConfiguration"} ==>
              && (Rewrite(kind, body, prefix).None? <==> NestedSlice(body, ["webhooks"]).BadPath?)
              && (NestedSlice(body, ["webhooks"]).Missing? ==> Rewrite(kind, body, prefix) == Some(body))
    ensures kind == "CustomResourceDefinition" ==>
              (Rewrite(kind, body, prefix).None? <==>
                 || NestedString(body, ["spec", "conversion", "strategy"]).BadPath?
                 || (&& NestedString(body, ["spec", "conversion", "strategy"]) == Present(Str("Webhook"))
                     && NestedMap(body, ["spec", "conversion", "webhook", "clientConfig"]).BadPath?))
  {
    hide Nested;
    hide SetNested;
    if kind == "CustomResourceDefinition" {
      RewriteIsConversion(body, prefix);
      var r := NestedMap(body, CONVERSION);
      if r.Present? { SetNestedExact(body, CONVERSION, Map(RewriteConfig(r.value.fields, prefix)), []); }
    }
  }

  /** A conversion that the rewrite acts on: by webhook, with a service-based client configuration. */
  predicate Converts(body: Fields, strategy: seq<string>, config: seq<string>) {
    && NestedString(body, strategy) == Present(Str("Webhook"))
    && NestedMap(body, config).Present? && ServiceBased(NestedMap(body, config).value.fields)
  }

  /**
    The frame of the CRD rewrite: it changes the body exactly if the conversion is by webhook and
    service-based, then moves only `url` and `service` of that client configuration, and leaves
    every branch alone that is not on the way to it or below it.
   */
  lemma ConversionFrame(body: Fields, prefix: string, q: seq<string>)
    requires Rewrite(CRD, body, prefix).Some?
    ensures var out := Rewrite(CRD, body, prefix).value;
            && (out != body <==> Converts(body, STRATEGY, CONVERSION))
            && (Converts(body, STRATEGY, CONVERSION) ==>
                  var cc := NestedMap(body, CONVERSION).value.fields;
                  && NestedMap(out, CONVERSION) == Present(Map(RewriteConfig(cc, prefix)))
                  && RewriteConfig(cc, prefix) - {"url", "service"} == cc - {"url", "service"})
            && (!(q <= CONVERSION) && !(CONVERSION <= q) ==> Nested(Map(out), q) == Nested(Map(body), q))
  {
    RewriteIsConversion(body, prefix);
    ConversionFrameAt(body, STRATEGY, CONVERSION, prefix, q);
  }

  lemma RewriteIsConversion(body: Fields, prefix: string)
    ensures Rewrite(CRD, body, prefix) == RewriteConversion(body, STRATEGY, CONVERSION, prefix)
  {
    assert CRD[0] == 'C';
  }

  lemma ConversionFrameAt(body: Fields, strategy: seq<string>, config: seq<string>, prefix: string, q: seq<string>)
    requires config != [] && RewriteConversion(body, strategy, config, prefix).Some?
    ensures var out := RewriteConversion(body, strategy, config, prefix).value;
            && (out != body <==> Converts(body, strategy, config))
            && (Converts(body, strategy, config) ==>
                  var cc := NestedMap(body, config).value.fields;
                  && NestedMap(out, config) == Present(Map(RewriteConfig(cc, prefix)))
                  && RewriteConfig(cc, prefix) - {"url", "service"} == cc - {"url", "service"})
            && (!(q <= config) && !(config <= q) ==> Nested(Map(out), q) == Nested(Map(body), q))
  {
    if Converts(body, strategy, config) {
      var cc := NestedMap(body, config).value.fields;
      RewriteConfigExact(cc, prefix);
      SetNestedExact(body, config, Map(RewriteConfig(cc, prefix)), q);
    }
  }

  lemma EntryFrame(wh: Json, prefix: string)
    ensures SameBut(wh, StripEntry(wh), {CA_BUNDLE})
    ensures SameBut(wh, RewriteEntry(wh, prefix), {"url", "service"})
    ensures HasConfig(wh) ==>
              && CA_BUNDLE !in StripEntry(wh).fields["clientConfig"].fields
              && !ServiceBased(RewriteEntry(wh, prefix).fields["clientConfig"].fields)
  {
    if HasConfig(wh) {
      var cc := wh.fields["clientConfig"].fields;
      EntryReads(wh, prefix);
      RewriteConfigExact(cc, prefix);
      assert (cc - {CA_BUNDLE}) - {CA_BUNDLE} == cc - {CA_BUNDLE};
      OtherKeys(wh.fields, Map(cc - {CA_BUNDLE}));
      OtherKeys(wh.fields, Map(RewriteConfig(cc, prefix)));
    } else if wh.Map? {
      assert ["clientConfig", CA_BUNDLE][1..] == [CA_BUNDLE];
    }
  }

  lemma OtherKeys(f: Fields, v: Json)
    ensures f["clientConfig" := v] - {"clientConfig"} == f - {"clientConfig"}
  {
  }
}

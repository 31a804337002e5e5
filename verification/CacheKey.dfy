/** Cache keys: what they are made of, and that sources sharing a key render alike. */
module CacheKeys {
  import opened Trees
  import opened Strings
  import opened HeapTrees
  import opened RenderCaching

  /**
    The libraries and the network behind the sources, as functions: parsing and merging of values
    documents, the content hash, resolving a reference to an immutable id, fetching, rendering.
   */
  datatype Backend = Backend(
    parse: string -> Option<Fields>,
    coalesce: (Fields, Fields) -> Fields,
    hash: Fields -> string,
    helmScope: string -> Option<string>,
    digest: (string, string, string) -> Option<string>,
    pull: (string, string, string) -> Option<Json>,
    install: (Json, string, Fields, string) -> Option<Views>,
    splitRef: string -> Option<(string, string, string)>,
    gitScope: string -> string,
    commit: (string, string) -> Option<string>,
    checkout: (string, string) -> Option<Json>,
    kustomize: (Json, string, string, string) -> Option<Views>,
    content: (string, string) -> Option<Json>)

  /**
    The facts the design relies on at one moment: a fetch that succeeds yields what scope and
    resolved id name, so the reference does not move between resolving and fetching; the hash has no
    collisions; no scope, id or hash contains the separator. A fetch may fail although its id
    resolves: a bare commit id resolves without asking the repository.
   */
  ghost predicate Sound(b: Backend) {
    && (forall repo, name, version ::
          b.helmScope(repo).Some? && b.digest(repo, name, version).Some? && b.pull(repo, name, version).Some? ==>
            b.pull(repo, name, version) == b.content(b.helmScope(repo).value, b.digest(repo, name, version).value))
    && (forall base, r :: b.commit(base, r).Some? && b.checkout(base, r).Some? ==>
          b.checkout(base, r) == b.content(b.gitScope(base), b.commit(base, r).value))
    && (forall x, y :: b.hash(x) == b.hash(y) ==> x == y)
    && (forall x :: Free(b.hash(x), '|'))
    && (forall repo :: b.helmScope(repo).Some? ==> Free(b.helmScope(repo).value, '|'))
    && (forall repo, name, version :: b.digest(repo, name, version).Some? ==> Free(b.digest(repo, name, version).value, '|'))
    && (forall base :: Free(b.gitScope(base), '|'))
    && (forall base, r :: b.commit(base, r).Some? ==> Free(b.commit(base, r).value, '|'))
  }

  /** Two moments: references and what can be fetched may have moved, the rest is the same. */
  ghost predicate Agree(b: Backend, c: Backend) {
    && b.parse == c.parse && b.coalesce == c.coalesce && b.hash == c.hash && b.helmScope == c.helmScope
    && b.install == c.install && b.splitRef == c.splitRef && b.gitScope == c.gitScope
    && b.kustomize == c.kustomize && b.content == c.content
  }

  datatype Spec =
    | Helm(repo: string, name: string, version: string,
           values: Option<string>, seedValues: Option<string>, shootValues: Option<string>)
    | Kustomize(url: string, seedPath: string, shootPath: string)

  function ModeName(mode: Mode): string { if mode == Seed then "seed" else "shoot" }

  // ------------------------------------------------------------------ Values

  /** One document over the values so far; an absent or empty one changes nothing. */
  function MergeOne(b: Backend, base: Fields, doc: Option<string>): Option<Fields> {
    if doc.None? || doc.value == "" then Some(base)
    else match b.parse(doc.value)
      case Some(m) => Some(b.coalesce(m, base))
      case None => None
  }

  function MergeValues(b: Backend, common: Option<string>, specific: Option<string>): Option<Fields> {
    match MergeOne(b, map[], common)
    case Some(base) => MergeOne(b, base, specific)
    case None => None
  }

  function ModeValues(b: Backend, s: Spec, mode: Mode): Option<Fields>
    requires s.Helm?
  {
    MergeValues(b, s.values, if mode == Seed then s.seedValues else s.shootValues)
  }

  /**
    Each mode has its own values: those of the other mode do not matter, the common ones are the base
    and the mode's own go on top. An absent or empty document changes nothing, one that does not parse
    fails the render.
   */
  lemma ModeValuesExact(b: Backend, s: Spec, other: Option<string>)
    requires s.Helm?
    ensures ModeValues(b, s.(shootValues := other), Seed) == ModeValues(b, s, Seed)
    ensures ModeValues(b, s.(seedValues := other), Shoot) == ModeValues(b, s, Shoot)
    ensures ModeValues(b, s.(seedValues := s.shootValues), Seed) == ModeValues(b, s, Shoot)
    ensures s.values in {None, Some("")} ==> ModeValues(b, s, Seed) == Parsed(b, s.seedValues, map[])
    ensures s.seedValues in {None, Some("")} ==> ModeValues(b, s, Seed) == Parsed(b, s.values, map[])
    ensures Parsed(b, s.values, map[]).None? ==> ModeValues(b, s, Seed).None?
    ensures Parsed(b, s.values, map[]).Some? ==>
              ModeValues(b, s, Seed) == Parsed(b, s.seedValues, Parsed(b, s.values, map[]).value)
  {
  }

  /** A document laid over `base`. */
  ghost function Parsed(b: Backend, doc: Option<string>, base: Fields): Option<Fields> {
    match doc
    case None => Some(base)
    case Some(text) =>
      if text == "" then Some(base)
      else if b.parse(text).None? then None else Some(b.coalesce(b.parse(text).value, base))
  }

  // -------------------------------------------------------------------- Keys

  /** What the input hash covers; values that do not parse, and the root of a bad URL, are left out. */
  function HashInput(b: Backend, s: Spec): Fields {
    match s
    case Helm(_, name, version, _, _, _) =>
      var seed, shoot := ModeValues(b, s, Seed), ModeValues(b, s, Shoot);
      var base := map["name" := Str(name), "version" := Str(version)];
      var base' := if seed.Some? then base["seedValues" := Map(seed.value)] else base;
      if shoot.Some? then base'["shootValues" := Map(shoot.value)] else base'
    case Kustomize(url, seedPath, shootPath) =>
      var root := match b.splitRef(url) case Some(t) => t.1 case None => "";
      map["rootSubPath" := Str(root), "seedPath" := Str(seedPath), "shootPath" := Str(shootPath)]
  }

  /** The scope and id that the source resolves to, or None: then the render is not cached. */
  function Resolve(b: Backend, s: Spec): Option<(string, string)> {
    match s
    case Helm(repo, name, version, _, _, _) =>
      (match (b.helmScope(repo), b.digest(repo, name, version))
       case (Some(scope), Some(id)) => Some((scope, id))
       case _ => None)
    case Kustomize(url, _, _) =>
      match b.splitRef(url)
      case None => None
      case Some(t) =>
        match b.commit(t.0, t.2)
        case Some(id) => Some((b.gitScope(t.0), id))
        case None => None
  }

  function KindName(s: Spec): string { if s.Helm? then "helm" else "kustomize" }

  function KeyHead(b: Backend, s: Spec, at: (string, string), mode: Mode): seq<string> {
    [KindName(s), at.0, at.1, ModeName(mode), b.hash(HashInput(b, s))]
  }

  function Key(b: Backend, s: Spec, mode: Mode, ns: string): Option<string> {
    match Resolve(b, s)
    case None => None
    case Some(at) => Some(Join(KeyHead(b, s, at, mode) + [ns], '|'))
  }

  // ------------------------------------------------------------------ Renders

  /** The chart or the repository, as far as it can be fetched now. */
  function Fetch(b: Backend, s: Spec): Option<Json> {
    match s
    case Helm(repo, name, version, _, _, _) => b.pull(repo, name, version)
    case Kustomize(url, _, _) =>
      match b.splitRef(url)
      case None => None
      case Some(t) => b.checkout(t.0, t.2)
  }

  /** The render from what was fetched. */
  function RenderFrom(b: Backend, s: Spec, fetched: Option<Json>, mode: Mode, ns: string): Option<Views> {
    if fetched.None? then None
    else match s
      case Helm(_, name, _, _, _, _) =>
        (match ModeValues(b, s, mode)
         case None => None
         case Some(vals) =>
           if "mode" in vals then None
           else b.install(fetched.value, name, vals["mode" := Str(ModeName(mode))], ns))
      case Kustomize(url, seedPath, shootPath) =>
        match b.splitRef(url)
        case None => None
        case Some(t) => b.kustomize(fetched.value, t.1, if mode == Seed then seedPath else shootPath, ns)
  }

  function RenderOf(b: Backend, s: Spec, mode: Mode, ns: string): Option<Views> { RenderFrom(b, s, Fetch(b, s), mode, ns) }

  /** What a render is made of: the chart with the values of its mode, told which mode it is, or the path of its mode. */
  lemma RenderUses(b: Backend, s: Spec, ns: string)
    ensures s.Helm? && RenderOf(b, s, Seed, ns).Some? ==>
              var chart, vals := b.pull(s.repo, s.name, s.version), ModeValues(b, s, Seed);
              && chart.Some? && vals.Some? && "mode" !in vals.value
              && RenderOf(b, s, Seed, ns) == b.install(chart.value, s.name, vals.value["mode" := Str("seed")], ns)
    ensures s.Helm? && RenderOf(b, s, Shoot, ns).Some? ==>
              var chart, vals := b.pull(s.repo, s.name, s.version), ModeValues(b, s, Shoot);
              && chart.Some? && vals.Some? && "mode" !in vals.value
              && RenderOf(b, s, Shoot, ns) == b.install(chart.value, s.name, vals.value["mode" := Str("shoot")], ns)
    ensures s.Kustomize? && b.splitRef(s.url).Some? && b.checkout(b.splitRef(s.url).value.0, b.splitRef(s.url).value.2).Some? ==>
              var t := b.splitRef(s.url).value; var tree := b.checkout(t.0, t.2).value;
              && RenderOf(b, s, Seed, ns) == b.kustomize(tree, t.1, s.seedPath, ns)
              && RenderOf(b, s, Shoot, ns) == b.kustomize(tree, t.1, s.shootPath, ns)
  {
  }

  /** The render of what the resolved id names, wherever it is kept. */
  function NamedRender(b: Backend, s: Spec, mode: Mode, ns: string): Option<Views> {
    match Resolve(b, s)
    case None => None
    case Some(at) => RenderFrom(b, s, b.content(at.0, at.1), mode, ns)
  }

  // ---------------------------------------------------------------- Soundness

  /** A join determines its leading parts when they are free of the separator, whatever the last one holds. */
  lemma {:induction false} JoinHead(a: seq<string>, x: string, c: seq<string>, y: string, sep: char)
    requires |a| == |c| && AllFree(a, sep) && AllFree(c, sep)
    requires Join(a + [x], sep) == Join(c + [y], sep)
    ensures a == c && x == y
  {
    if a != [] {
      var l, r := Join(a[1..] + [x], sep), Join(c[1..] + [y], sep);
      assert (a + [x])[1..] == a[1..] + [x] && (c + [y])[1..] == c[1..] + [y];
      assert a[0] + [sep] + l == c[0] + [sep] + r;
      SplitAt(a[0], l, sep);
      SplitAt(c[0], r, sep);
      SplitFree(a[0], sep);
      SplitFree(c[0], sep);
      assert a[0] == Split(a[0] + [sep] + l, sep)[0] == c[0];
      assert l == (a[0] + [sep] + l)[|a[0]| + 1..] == r;
      forall i | 0 <= i < |a| - 1 ensures Free(a[1..][i], sep) && Free(c[1..][i], sep) {
        assert a[1..][i] == a[i + 1] && c[1..][i] == c[i + 1];
      }
      JoinHead(a[1..], x, c[1..], y, sep);
      assert a == [a[0]] + a[1..] && c == [c[0]] + c[1..];
    }
  }

  lemma HeadIsFree(b: Backend, s: Spec, at: (string, string), mode: Mode)
    requires Sound(b) && Resolve(b, s) == Some(at)
    ensures AllFree(KeyHead(b, s, at, mode), '|')
  {
  }

  /** Equal hash inputs of two Helm sources: same chart name, and per mode the same values or the same failure. */
  lemma HelmInputs(b: Backend, s: Spec, t: Spec, mode: Mode)
    requires s.Helm? && t.Helm? && HashInput(b, s) == HashInput(b, t)
    ensures s.name == t.name && s.version == t.version && ModeValues(b, s, mode) == ModeValues(b, t, mode)
  {
    var x, y := HashInput(b, s), HashInput(b, t);
    assert x["name"] == y["name"] && x["version"] == y["version"];
    var k := if mode == Seed then "seedValues" else "shootValues";
    assert k in x <==> k in y;
    assert k in x ==> x[k] == y[k];
    assert k in x <==> ModeValues(b, s, mode).Some?;
    assert k in y <==> ModeValues(b, t, mode).Some?;
  }

  lemma KustomizeInputs(b: Backend, s: Spec, t: Spec)
    requires s.Kustomize? && t.Kustomize? && HashInput(b, s) == HashInput(b, t)
    requires b.splitRef(s.url).Some? && b.splitRef(t.url).Some?
    ensures b.splitRef(s.url).value.1 == b.splitRef(t.url).value.1
    ensures s.seedPath == t.seedPath && s.shootPath == t.shootPath
  {
    var x, y := HashInput(b, s), HashInput(b, t);
    assert x["rootSubPath"] == y["rootSubPath"] && x["seedPath"] == y["seedPath"] && x["shootPath"] == y["shootPath"];
  }

  /** A keyed render is what its id names, unless the fetch fails. */
  lemma RenderIsNamed(b: Backend, s: Spec, mode: Mode, ns: string)
    requires Sound(b) && Resolve(b, s).Some?
    ensures RenderOf(b, s, mode, ns) == if Fetch(b, s).None? then None else NamedRender(b, s, mode, ns)
  {
  }

  /** Two sources reach the same slot, at whatever moments, only if their ids name the same render there. */
  lemma KeyDeterminesNamed(b: Backend, c: Backend, s: Spec, t: Spec, m: Mode, n: Mode, ns: string, ns': string)
    requires Sound(b) && Sound(c) && Agree(b, c)
    requires Key(b, s, m, ns).Some? && Key(b, s, m, ns) == Key(c, t, n, ns')
    ensures NamedRender(b, s, m, ns) == NamedRender(c, t, n, ns')
  {
    var at, at' := Resolve(b, s).value, Resolve(c, t).value;
    var x, y := KeyHead(b, s, at, m), KeyHead(c, t, at', n);
    HeadIsFree(b, s, at, m);
    HeadIsFree(c, t, at', n);
    JoinHead(x, ns, y, ns', '|');
    assert x[0] == y[0] && x[1] == y[1] && x[2] == y[2] && x[3] == y[3] && x[4] == y[4];
    SameKind(s, t);
    SameMode(m, n);
    InputsAgree(b, c, t, m);
    assert HashInput(b, s) == HashInput(b, t);
    if s.Helm? {
      HelmInputs(b, s, t, m);
    } else {
      KustomizeInputs(b, s, t);
    }
  }

  lemma InputsAgree(b: Backend, c: Backend, s: Spec, mode: Mode)
    requires Agree(b, c)
    ensures HashInput(b, s) == HashInput(c, s)
    ensures s.Helm? ==> ModeValues(b, s, mode) == ModeValues(c, s, mode)
  {
  }

  /**
    The same for the renders themselves: whatever moved between the two moments, where both fetches
    succeed the renders agree, failures included. So a render whose values do not parse, or whose
    URL is bad, never meets a stored entry.
   */
  lemma KeyDeterminesRender(b: Backend, c: Backend, s: Spec, t: Spec, m: Mode, n: Mode, ns: string, ns': string)
    requires Sound(b) && Sound(c) && Agree(b, c)
    requires Key(b, s, m, ns).Some? && Key(b, s, m, ns) == Key(c, t, n, ns')
    ensures Fetch(b, s).Some? && Fetch(c, t).Some? ==> RenderOf(b, s, m, ns) == RenderOf(c, t, n, ns')
    ensures RenderOf(b, s, m, ns).Some? && RenderOf(c, t, n, ns').Some? ==> RenderOf(b, s, m, ns) == RenderOf(c, t, n, ns')
  {
    hide NamedRender;
    hide RenderFrom;
    KeyDeterminesNamed(b, c, s, t, m, n, ns, ns');
    RenderIsNamed(b, s, m, ns);
    RenderIsNamed(c, t, n, ns');
  }

  lemma SameKind(s: Spec, t: Spec)
    requires KindName(s) == KindName(t)
    ensures s.Helm? <==> t.Helm?
  {
    assert |"helm"| != |"kustomize"|;
  }

  lemma SameMode(m: Mode, n: Mode)
    requires ModeName(m) == ModeName(n)
    ensures m == n
  {
    assert |"seed"| != |"shoot"|;
  }

  function AsSource(b: Backend, s: Spec): Source {
    Source((m, ns) => RenderOf(b, s, m, ns), (m, ns) => Key(b, s, m, ns), (m, ns) => NamedRender(b, s, m, ns))
  }

  /** The sources of `specs` as they are at each moment. */
  function HistoryOf(bs: seq<Backend>, specs: seq<Spec>): History {
    seq(|bs|, t requires 0 <= t < |bs| => seq(|specs|, i requires 0 <= i < |specs| => AsSource(bs[t], specs[i])))
  }

  ghost predicate Moving(bs: seq<Backend>) {
    && (forall t :: 0 <= t < |bs| ==> Sound(bs[t]))
    && (forall t, u :: 0 <= t < |bs| && 0 <= u < |bs| ==> Agree(bs[t], bs[u]))
  }

  lemma Occurrence(bs: seq<Backend>, specs: seq<Spec>, a: Source) returns (t: nat, i: nat)
    requires Occurs(HistoryOf(bs, specs), a)
    ensures t < |bs| && i < |specs| && a == AsSource(bs[t], specs[i])
  {
    hide AsSource;
    var h := HistoryOf(bs, specs);
    t, i :| 0 <= t < |h| && 0 <= i < |h[t]| && h[t][i] == a;
  }

  /** Any sources over a backend may share a cache while references move. */
  lemma SourcesShareSoundly(bs: seq<Backend>, specs: seq<Spec>)
    requires Moving(bs)
    ensures KeySound(HistoryOf(bs, specs))
  {
    hide RenderFrom;
    hide NamedRender;
    hide Key;
    hide Sound;
    hide Agree;
    hide HistoryOf;
    var h := HistoryOf(bs, specs);
    forall a, b, m, n, ns, ns' | Occurs(h, a) && Occurs(h, b) && a.key(m, ns).Some? && a.key(m, ns) == b.key(n, ns')
      ensures a.named(m, ns) == b.named(n, ns')
    {
      var t, i := Occurrence(bs, specs, a);
      var u, j := Occurrence(bs, specs, b);
      KeyDeterminesNamed(bs[t], bs[u], specs[i], specs[j], m, n, ns, ns');
    }
  }

  lemma KeyResolves(b: Backend, s: Spec, mode: Mode, ns: string)
    ensures Key(b, s, mode, ns).Some? <==> Resolve(b, s).Some?
  {
  }

  /** No source of the script resolves to something else between being resolved and being fetched. */
  ghost predicate Unmoved(bs: seq<Backend>, specs: seq<Spec>, script: seq<Action>) {
    forall k :: 0 <= k < |script| && Answerable(HistoryOf(bs, specs), script[k]) && script[k].resolves ==>
      Resolve(bs[script[k].resolved], specs[script[k].src]) == Resolve(bs[script[k].fetched], specs[script[k].src])
  }

  /** Resolving at `b` and fetching at `c` renders what the resolved id names, or nothing, if the reference did not move. */
  lemma UnmovedRender(b: Backend, c: Backend, s: Spec, mode: Mode, ns: string)
    requires Sound(c) && Agree(b, c) && Resolve(b, s).Some? && Resolve(b, s) == Resolve(c, s)
    ensures RenderOf(c, s, mode, ns) == if Fetch(c, s).None? then None else NamedRender(b, s, mode, ns)
  {
    hide HashInput;
    RenderIsNamed(c, s, mode, ns);
    if s.Helm? { InputsAgree(b, c, s, mode); }
  }

  lemma MetSource(bs: seq<Backend>, specs: seq<Spec>, act: Action)
    requires Answerable(HistoryOf(bs, specs), act)
    ensures act.resolved < |bs| && act.fetched < |bs| && act.src < |specs|
    ensures var src, b, c, s := Met(HistoryOf(bs, specs), act), bs[act.resolved], bs[act.fetched], specs[act.src];
            && (forall m, ns :: src.render(m, ns) == RenderOf(c, s, m, ns))
            && (forall m, ns :: src.key(m, ns) == Key(b, s, m, ns))
            && (forall m, ns :: src.named(m, ns) == NamedRender(b, s, m, ns))
  {
    hide RenderOf;
    hide Key;
    hide NamedRender;
  }

  lemma UnmovedIsHeld(bs: seq<Backend>, specs: seq<Spec>, script: seq<Action>)
    requires Moving(bs) && Unmoved(bs, specs, script)
    ensures HeldStill(HistoryOf(bs, specs), script)
  {
    hide RenderOf;
    hide Key;
    hide NamedRender;
    hide Sound;
    hide Agree;
    hide Met;
    hide HistoryOf;
    var h := HistoryOf(bs, specs);
    forall k | 0 <= k < |script| && Answerable(h, script[k]) && script[k].resolves
      ensures Held(Met(h, script[k]), script[k].mode, script[k].ns)
    {
      var act := script[k];
      MetSource(bs, specs, act);
      KeyResolves(bs[act.resolved], specs[act.src], act.mode, act.ns);
      if Resolve(bs[act.resolved], specs[act.src]).Some? {
        UnmovedRender(bs[act.resolved], bs[act.fetched], specs[act.src], act.mode, act.ns);
      }
    }
  }

  /**
    Any session of cached renders over moving references, with edits of whatever was handed out: a
    request is answered with what the source renders at that moment, or makes good a failed fetch
    with what the resolved id names. So if the fetch does not fail, the cache is invisible.
   */
  method CachedSession(size: int, bs: seq<Backend>, specs: seq<Spec>, script: seq<Action>, last: Action)
    returns (r: Option<seq<Manifest>>, ghost s: set<Node>)
    requires Moving(bs) && Unmoved(bs, specs, script + [last])
    requires last.Ask? && last.resolved < |bs| && last.fetched < |bs| && last.src < |specs|
    ensures fresh(s)
    ensures var b, c, spec := bs[last.resolved], bs[last.fetched], specs[last.src];
            var rendered, named := RenderOf(c, spec, last.mode, last.ns), NamedRender(b, spec, last.mode, last.ns);
            && (rendered.Some? ==> r.Some? && Lists(r.value, rendered.value, s))
            && (rendered.None? && r.Some? ==>
                  Resolve(b, spec).Some? && named.Some? && Lists(r.value, named.value, s))
            && (rendered.None? && Fetch(c, spec).Some? && last.resolves ==> r.None?)
  {
    hide RenderOf;
    hide Key;
    hide NamedRender;
    hide Moving;
    hide Unmoved;
    hide Resolve;
    hide Fetch;
    var h := HistoryOf(bs, specs);
    SourcesShareSoundly(bs, specs);
    UnmovedIsHeld(bs, specs, script + [last]);
    assert Answerable(h, last) by { HistoryShape(bs, specs); }
    MetSource(bs, specs, last);
    hide HistoryOf;
    hide Met;
    ghost var answer;
    r, answer, s := Session(size, h, script, last);
    KeyResolves(bs[last.resolved], specs[last.src], last.mode, last.ns);
    LastExact(bs, specs, script, last);
  }

  lemma HistoryShape(bs: seq<Backend>, specs: seq<Spec>)
    ensures |HistoryOf(bs, specs)| == |bs| && forall t :: 0 <= t < |bs| ==> |HistoryOf(bs, specs)[t]| == |specs|
  {
  }

  /** A request that could fetch and still failed has nothing to be made good with. */
  lemma LastExact(bs: seq<Backend>, specs: seq<Spec>, script: seq<Action>, last: Action)
    requires Moving(bs) && Unmoved(bs, specs, script + [last])
    requires Answerable(HistoryOf(bs, specs), last) && last.resolved < |bs| && last.fetched < |bs| && last.src < |specs|
    ensures var b, c, spec := bs[last.resolved], bs[last.fetched], specs[last.src];
            last.resolves && Resolve(b, spec).Some? && Fetch(c, spec).Some? ==>
              RenderOf(c, spec, last.mode, last.ns) == NamedRender(b, spec, last.mode, last.ns)
  {
    hide RenderOf;
    hide NamedRender;
    hide Sound;
    hide Agree;
    hide HistoryOf;
    assert (script + [last])[|script|] == last;
    var b, c, spec := bs[last.resolved], bs[last.fetched], specs[last.src];
    if last.resolves && Resolve(b, spec).Some? { UnmovedRender(b, c, spec, last.mode, last.ns); }
  }

  /** Two kustomizations of one commit on one host, where only the first repository has the commit. */
  ghost predicate Lacking(b: Backend, s: Spec, t: Spec) {
    && s.Kustomize? && t.Kustomize? && s.seedPath == t.seedPath && s.shootPath == t.shootPath
    && b.splitRef(s.url).Some? && b.splitRef(t.url).Some?
    && var x, y := b.splitRef(s.url).value, b.splitRef(t.url).value;
       && x.1 == y.1 && b.gitScope(x.0) == b.gitScope(y.0)
       && b.commit(x.0, x.2).Some? && b.commit(x.0, x.2) == b.commit(y.0, y.2) && b.checkout(y.0, y.2).None?
  }

  /**
    Fetches do matter: the repository that lacks the commit shares its slot with the one that has it,
    and is served from there although it renders nothing itself.
   */
  method LackingCommitServed(b: Backend, s: Spec, t: Spec, m: Mode, ns: string)
    returns (second: Option<seq<Manifest>>, ghost nodes: set<Node>)
    requires Lacking(b, s, t) && RenderOf(b, s, m, ns).Some?
    ensures RenderOf(b, t, m, ns).None?
    ensures fresh(nodes) && second.Some? && Lists(second.value, RenderOf(b, s, m, ns).value, nodes)
  {
    second, nodes := TwoAsks(AsSource(b, s), AsSource(b, t), m, m, ns, ns);
  }

  /**
    Moving in between does matter: a source that is resolved, then moves and is fetched, fills the
    slot of its old id, and whoever reaches that slot is given the new content.
   */
  method MovedMeanwhile(b: Backend, c: Backend, s: Spec, t: Spec, m: Mode, ns: string)
    returns (second: Option<seq<Manifest>>, ghost nodes: set<Node>)
    requires Key(b, s, m, ns).Some? && Key(b, s, m, ns) == Key(c, t, m, ns) && RenderOf(c, s, m, ns).Some?
    ensures fresh(nodes) && second.Some? && Lists(second.value, RenderOf(c, s, m, ns).value, nodes)
    ensures RenderOf(c, t, m, ns).Some? ==>
              (Lists(second.value, RenderOf(c, t, m, ns).value, nodes) <==> RenderOf(c, s, m, ns) == RenderOf(c, t, m, ns))
  {
    hide RenderOf;
    hide Key;
    hide NamedRender;
    second, nodes := TwoAsks(AsSource(b, s).(render := AsSource(c, s).render), AsSource(c, t), m, m, ns, ns);
  }
}

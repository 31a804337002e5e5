/**
  The render cache on the heap. Callers mutate the manifests they are given in place, down to any
  nested map or list, so the cache deep-copies at both boundaries; the proofs are that this keeps it
  transparent.
 */
module RenderCaching {
  import opened Trees
  import opened HeapTrees

  // ------------------------------------------------------------------ The cache

  /** Removes one key from a recency list. */
  function Without(order: seq<string>, key: string): (r: seq<string>)
    ensures forall k :: k in r <==> k in order && k != key
    ensures |r| <= |order| && (key in order ==> |r| < |order|)
  {
    if order == [] then []
    else if order[0] == key then Without(order[1..], key)
    else [order[0]] + Without(order[1..], key)
  }

  predicate Distinct(order: seq<string>) {
    forall i, j :: 0 <= i < j < |order| ==> order[i] != order[j]
  }

  lemma {:induction false} WithoutDistinct(order: seq<string>, key: string)
    requires Distinct(order)
    ensures Distinct([key] + Without(order, key))
  {
    if order != [] {
      var rest := Without(order[1..], key);
      WithoutDistinct(order[1..], key);
      assert Distinct(rest) by {
        forall i, j | 0 <= i < j < |rest| ensures rest[i] != rest[j] {
          assert ([key] + rest)[i + 1] == rest[i] && ([key] + rest)[j + 1] == rest[j];
        }
      }
      forall i | 0 <= i < |rest| ensures rest[i] != order[0] && rest[i] != key {
        assert rest[i] in rest;
        var j :| 0 <= j < |order[1..]| && order[1..][j] == rest[i];
      }
    }
  }

  lemma {:induction false} WithoutAbsent(order: seq<string>, key: string)
    requires key !in order
    ensures Without(order, key) == order
  {
    if order != [] {
      WithoutAbsent(order[1..], key);
      assert order == [order[0]] + order[1..];
    }
  }

  /** Exactly the one key goes and the others keep their order. */
  lemma {:induction false} WithoutExact(order: seq<string>, key: string, i: nat)
    requires Distinct(order) && i < |order| && order[i] == key
    ensures Without(order, key) == order[..i] + order[i + 1..]
  {
    var rest := order[1..];
    if i == 0 {
      forall j | 0 <= j < |rest| ensures rest[j] != key { assert order[j + 1] != order[0]; }
      WithoutAbsent(rest, key);
    } else {
      TailDistinct(order);
      WithoutExact(rest, key, i - 1);
      assert order[..i] == [order[0]] + rest[..i - 1] && order[i + 1..] == rest[i..];
    }
  }

  lemma TailDistinct(order: seq<string>)
    requires Distinct(order) && order != []
    ensures Distinct(order[1..])
  {
    var rest := order[1..];
    forall i, j | 0 <= i < j < |rest| ensures rest[i] != rest[j] { assert order[i + 1] != order[j + 1]; }
  }

  /** The recency list after a key is used, in a cache of the given size. */
  ghost function Touched(order: seq<string>, key: string, size: nat): seq<string> {
    var full := [key] + Without(order, key);
    if |full| > size then full[..size] else full
  }

  /** Only a full list loses a key, and then its last one. */
  lemma OnlyLastGoes(order: seq<string>, key: string, size: nat)
    requires Distinct(order) && |order| <= size && size > 0
    ensures forall k :: k in order && k !in Touched(order, key, size) ==> |order| == size && k == order[size - 1]
  {
    var full := [key] + Without(order, key);
    forall k | k in order && k !in Touched(order, key, size) ensures |order| == size && k == order[size - 1] {
      assert k in full;
      if key !in order {
        WithoutAbsent(order, key);
        var i :| 0 <= i < |order| && order[i] == k;
        assert full[i + 1] == k;
        assert i + 1 >= size;
      }
    }
  }

  /** The recency list of a cache in which the keys of `uses` were used in turn. */
  ghost function Recent(uses: seq<string>, size: nat): seq<string> {
    if uses == [] then [] else Touched(Recent(uses[..|uses| - 1], size), uses[|uses| - 1], size)
  }

  /** When a key was last used, counted from one; zero if never. */
  ghost function LastUse(uses: seq<string>, key: string): nat {
    if uses == [] then 0
    else if uses[|uses| - 1] == key then |uses| else LastUse(uses[..|uses| - 1], key)
  }

  lemma {:induction false} LastUseBound(uses: seq<string>, key: string)
    ensures LastUse(uses, key) <= |uses|
  {
    if uses != [] && uses[|uses| - 1] != key { LastUseBound(uses[..|uses| - 1], key); }
  }

  /** In order of last use, latest first. */
  ghost predicate ByUse(order: seq<string>, uses: seq<string>) {
    forall i, j :: 0 <= i < j < |order| ==> LastUse(uses, order[i]) > LastUse(uses, order[j])
  }

  lemma {:induction false} WithoutByUse(order: seq<string>, key: string, uses: seq<string>)
    requires ByUse(order, uses)
    ensures ByUse(Without(order, key), uses)
  {
    hide LastUse;
    if order != [] {
      var rest := order[1..];
      forall i, j | 0 <= i < j < |rest| ensures LastUse(uses, rest[i]) > LastUse(uses, rest[j]) {
        assert LastUse(uses, order[i + 1]) > LastUse(uses, order[j + 1]);
      }
      WithoutByUse(rest, key, uses);
      var left := Without(rest, key);
      forall j | 0 <= j < |left| ensures LastUse(uses, order[0]) > LastUse(uses, left[j]) {
        assert left[j] in rest;
        var k :| 0 <= k < |rest| && rest[k] == left[j];
        assert order[k + 1] == left[j];
      }
    }
  }

  /** A key used now comes before all others. */
  lemma UsedNow(order: seq<string>, uses: seq<string>, key: string)
    requires ByUse(order, uses) && key !in order
    ensures ByUse([key] + order, uses + [key])
  {
    var now, full := uses + [key], [key] + order;
    assert now[..|uses|] == uses;
    forall i, j | 0 <= i < j < |full| ensures LastUse(now, full[i]) > LastUse(now, full[j]) {
      assert full[j] == order[j - 1] && order[j - 1] in order;
      LastUseBound(uses, full[j]);
      if i > 0 { assert full[i] == order[i - 1] && order[i - 1] in order; }
    }
  }

  /**
    The list is in order of last use, latest first, without repetitions. So the key at its end, the
    one that goes, is the one whose last use is longest ago.
   */
  lemma {:induction false} LeastRecentlyUsedLast(uses: seq<string>, size: nat)
    ensures var order := Recent(uses, size); |order| <= size && Distinct(order) && ByUse(order, uses)
  {
    hide LastUse;
    if uses != [] {
      var before, key := uses[..|uses| - 1], uses[|uses| - 1];
      LeastRecentlyUsedLast(before, size);
      var was := Recent(before, size);
      WithoutDistinct(was, key);
      WithoutByUse(was, key, before);
      UsedNow(Without(was, key), before, key);
      assert before + [key] == uses;
    }
  }

  /**
    The bounded cache, most recently used key first. `meaning` says what each key stands for;
    `repr` holds every node the cache has ever made for itself.
   */
  class RenderCache {
    var entries: map<string, seq<Manifest>>
    var order: seq<string>
    const size: nat
    ghost const meaning: string -> Option<Views>
    ghost var repr: set<Node>

    ghost predicate Valid()
      reads this, repr
    {
      0 < size && |order| <= size && Faithful()
    }

    /** Every entry is filed under its key, in nodes of the cache's own, with the key's meaning. */
    ghost predicate Faithful()
      reads this, repr
    {
      && Distinct(order)
      && (forall k :: k in entries <==> k in order)
      && (forall k :: k in entries ==> meaning(k).Some? && Lists(entries[k], meaning(k).value, repr))
    }

    constructor (size: int, ghost meaning: string -> Option<Views>)
      ensures Valid() && fresh(this) && repr == {} && entries == map[] && this.meaning == meaning
      ensures this.size == if size <= 0 then 32 else size
    {
      this.size := if size <= 0 then 32 else size;
      this.meaning := meaning;
      this.entries := map[];
      this.order := [];
      this.repr := {};
    }

    /** A hit hands out deep copies of what the key stands for, and makes the key the most recent. */
    method Get(key: string) returns (r: Option<seq<Manifest>>, ghost s: set<Node>)
      requires Valid()
      modifies this`order
      ensures Valid() && fresh(s) && Closed(s)
      ensures r.Some? <==> key in entries
      ensures r.Some? ==> meaning(key).Some? && Lists(r.value, meaning(key).value, s)
      ensures order == if r.Some? then Touched(old(order), key, size) else old(order)
    {
      if key !in entries { return None, {}; }
      var copy, t := CloneManifests(entries[key], meaning(key).value, repr);
      WithoutDistinct(order, key);
      order := [key] + Without(order, key);
      r, s := Some(copy), t;
    }

    method Store(key: string, ms: seq<Manifest>, ghost v: Views, ghost r: set<Node>)
      requires Faithful() && Lists(ms, v, r) && meaning(key) == Some(v)
      modifies this`entries, this`order, this`repr
      ensures Faithful() && fresh(repr - old(repr)) && old(repr) <= repr
      ensures order == [key] + Without(old(order), key)
      ensures key in entries
      ensures forall k :: k in entries && k != key ==> k in old(entries) && entries[k] == old(entries)[k]
    {
      var copy, t := CloneManifests(ms, v, r);
      WithoutDistinct(order, key);
      ghost var all := repr + t;
      forall k | k in entries ensures Lists(entries[k], meaning(k).value, all) {
        ListsMore(entries[k], meaning(k).value, repr, all);
      }
      ListsMore(copy, v, t, all);
      repr := all;
      entries := entries[key := copy];
      order := [key] + Without(order, key);
    }

    method DropOldest()
      requires Faithful() && order != []
      modifies this`entries, this`order
      ensures Faithful() && order == old(order)[..|old(order)| - 1]
      ensures forall k :: k in entries ==> k in old(entries) && entries[k] == old(entries)[k]
    {
      var n := |order| - 1;
      var oldest := order[n];
      assert forall k :: k in order <==> k in order[..n] || k == oldest;
      entries := entries - {oldest};
      order := order[..n];
    }

    /** Stores deep copies; beyond the bound the least recently used key goes. */
    method Put(key: string, ms: seq<Manifest>, ghost v: Views, ghost r: set<Node>)
      requires Valid() && Lists(ms, v, r) && meaning(key) == Some(v)
      modifies this`entries, this`order, this`repr
      ensures Valid() && fresh(repr - old(repr)) && old(repr) <= repr
      ensures key in entries && order[0] == key
      ensures forall k :: k in entries && k != key ==> k in old(entries) && entries[k] == old(entries)[k]
      ensures order == Touched(old(order), key, size)
      ensures forall k :: k in old(entries) && k !in entries ==> |old(order)| == size && k == old(order)[size - 1]
    {
      hide Lists;
      OnlyLastGoes(order, key, size);
      Store(key, ms, v, r);
      if |order| > size { DropOldest(); }
      assert order[0] == key;
      hide Without;
      assert order == Touched(old(order), key, size);
      hide Touched;
    }
  }

  // ----------------------------------------------------------- Cached sources

  datatype Mode = Seed | Shoot

  /**
    A source at one moment: what it renders, the cache key it resolves to if it can be keyed, and
    what it renders as far as the key says. The two renders differ if what the key names cannot be
    fetched from this place, or if the reference moves between resolving and fetching.
   */
  datatype Source = Source(
    render: (Mode, string) -> Option<Views>,
    key: (Mode, string) -> Option<string>,
    named: (Mode, string) -> Option<Views>)

  /** The sources at a series of moments; references may move in between. */
  type History = seq<seq<Source>>

  ghost predicate Occurs(h: History, src: Source) {
    exists t, i :: 0 <= t < |h| && 0 <= i < |h[t]| && h[t][i] == src
  }

  /** The inner source allocates the manifests it renders. */
  method InnerRender(src: Source, mode: Mode, ns: string) returns (r: Option<seq<Manifest>>, ghost s: set<Node>)
    ensures fresh(s) && Closed(s)
    ensures r.Some? <==> src.render(mode, ns).Some?
    ensures r.Some? ==> Lists(r.value, src.render(mode, ns).value, s)
  {
    var v := src.render(mode, ns);
    if v.None? { return None, {}; }
    var ms, t := BuildManifests(v.value);
    r, s := Some(ms), t;
  }

  /** Sources that share a slot, at any moments, mean the same there. */
  ghost predicate KeySound(h: History) {
    forall a, b, m, n, ns, ns' ::
      (Occurs(h, a) && Occurs(h, b) && a.key(m, ns).Some? && a.key(m, ns) == b.key(n, ns')) ==>
        a.named(m, ns) == b.named(n, ns')
  }

  ghost predicate Names(h: History, k: string, a: Source, m: Mode, ns: string) {
    Occurs(h, a) && a.key(m, ns) == Some(k)
  }

  ghost function Namer(h: History, k: string): (r: (Source, Mode, string))
    requires exists a, m, ns :: Names(h, k, a, m, ns)
    ensures Names(h, k, r.0, r.1, r.2)
  {
    var a, m, ns :| Names(h, k, a, m, ns);
    (a, m, ns)
  }

  /** What each key stands for, given sources that agree. */
  ghost function Meaning(h: History): string -> Option<Views> {
    k => if exists a, m, ns :: Names(h, k, a, m, ns)
         then var n := Namer(h, k); n.0.named(n.1, n.2)
         else None
  }

  lemma MeaningOf(h: History, src: Source, mode: Mode, ns: string)
    requires KeySound(h) && Occurs(h, src) && src.key(mode, ns).Some?
    ensures Meaning(h)(src.key(mode, ns).value) == src.named(mode, ns)
  {
    var k := src.key(mode, ns).value;
    assert Names(h, k, src, mode, ns);
    var n := Namer(h, k);
    assert n.0.key(n.1, n.2) == src.key(mode, ns);
  }

  /** An answer is what the inner source renders, or it makes good a failure with what the key names. */
  ghost predicate Serves(src: Source, mode: Mode, ns: string, answer: Option<Views>) {
    || answer == src.render(mode, ns)
    || (src.render(mode, ns).None? && src.key(mode, ns).Some? && answer == src.named(mode, ns))
  }

  /** A keyed render that succeeds is what its key names. */
  ghost predicate Held(src: Source, mode: Mode, ns: string) {
    src.key(mode, ns).Some? && src.render(mode, ns).Some? ==> src.render(mode, ns) == src.named(mode, ns)
  }

  /**
    `cachingSource.Render`: on a hit the caller gets what the slot stands for, otherwise what the
    inner source renders, which then fills the slot; in either case in nodes of its own. What is
    stored must be what the slot stands for.
   */
  method Render(cache: RenderCache, src: Source, resolves: bool, mode: Mode, ns: string)
    returns (r: Option<seq<Manifest>>, ghost answer: Option<Views>, ghost s: set<Node>)
    requires cache.Valid()
    requires var k := src.key(mode, ns);
             resolves && k.Some? && k.value !in cache.entries && src.render(mode, ns).Some? ==>
               cache.meaning(k.value) == src.render(mode, ns)
    modifies cache
    ensures cache.Valid() && fresh(cache.repr - old(cache.repr)) && old(cache.repr) <= cache.repr
    ensures fresh(s) && Closed(s) && s !! cache.repr
    ensures r.Some? <==> answer.Some?
    ensures r.Some? ==> Lists(r.value, answer.value, s)
    ensures var k := src.key(mode, ns);
            && (if resolves && k.Some? && k.value in old(cache.entries)
                then answer == cache.meaning(k.value) else answer == src.render(mode, ns))
            && (resolves && k.Some? && answer.Some? ==> k.value in cache.entries)
  {
    answer := src.render(mode, ns);
    var key := src.key(mode, ns);
    if !resolves || key.None? {
      r, s := InnerRender(src, mode, ns);
      return;
    }
    r, s := cache.Get(key.value);
    if r.Some? {
      answer := cache.meaning(key.value);
      return;
    }
    r, s := InnerRender(src, mode, ns);
    if r.None? { return; }
    cache.Put(key.value, r.value, answer.value, s);
  }

  /**
    The slot decides: of two requests that reach one slot of an empty cache, the second is answered
    with what the first one rendered. So the second answer is right exactly if the two renders agree.
   */
  method TwoAsks(a: Source, b: Source, m: Mode, n: Mode, ns: string, ns': string)
    returns (second: Option<seq<Manifest>>, ghost s: set<Node>)
    requires a.key(m, ns).Some? && a.key(m, ns) == b.key(n, ns') && a.render(m, ns).Some?
    ensures fresh(s) && second.Some? && Lists(second.value, a.render(m, ns).value, s)
    ensures b.render(n, ns').Some? ==>
              (Lists(second.value, b.render(n, ns').value, s) <==> a.render(m, ns) == b.render(n, ns'))
  {
    var v := a.render(m, ns);
    var cache := new RenderCache(0, k => v);
    var _, _, _ := Render(cache, a, true, m, ns);
    var r, _, t := Render(cache, b, true, n, ns');
    second, s := r, t;
    if b.render(n, ns').Some? && Lists(second.value, b.render(n, ns').value, s) {
      ListsUnique(second.value, v.value, b.render(n, ns').value, s, s);
    }
  }

  // ------------------------------------------------------------ Every session

  /** A request resolves its source at one moment and fetches it at another. */
  datatype Action =
    | Ask(resolved: nat, fetched: nat, src: nat, resolves: bool, mode: Mode, ns: string)
    | Mutate(place: Place, edit: Edit)

  predicate Answerable(h: History, act: Action) {
    && act.Ask? && act.resolved < |h| && act.fetched < |h|
    && act.src < |h[act.resolved]| && act.src < |h[act.fetched]|
  }

  /** The source as a request meets it. */
  function Met(h: History, act: Action): Source
    requires Answerable(h, act)
  {
    h[act.resolved][act.src].(render := h[act.fetched][act.src].render)
  }

  /** No reference moved to something else while it was being rendered. */
  ghost predicate HeldStill(h: History, script: seq<Action>) {
    forall k :: 0 <= k < |script| && Answerable(h, script[k]) && script[k].resolves ==>
      Held(Met(h, script[k]), script[k].mode, script[k].ns)
  }

  /**
    Cache transparency: after any session of cached renders, through any sources that share the cache
    at any moments, with any in-place edits of the maps and lists of objects handed out before, at
    any depth, aliasing and cycles included, the objects that a request is answered with serve it.
   */
  method Session(size: int, h: History, script: seq<Action>, last: Action)
    returns (r: Option<seq<Manifest>>, ghost answer: Option<Views>, ghost s: set<Node>)
    requires KeySound(h) && HeldStill(h, script + [last]) && Answerable(h, last)
    ensures fresh(s) && Closed(s) && (r.Some? <==> answer.Some?)
    ensures r.Some? ==> Lists(r.value, answer.value, s)
    ensures Serves(Met(h, last), last.mode, last.ns, answer)
  {
    hide KeySound;
    hide Serves;
    hide Held;
    var cache := new RenderCache(size, Meaning(h));
    var roots: seq<Node> := [];
    ghost var held: set<Node> := {};
    for i := 0 to |script|
      invariant cache.Valid() && fresh(cache) && fresh(cache.repr) && cache.meaning == Meaning(h)
      invariant fresh(held) && Closed(held) && held !! cache.repr
      invariant forall k :: 0 <= k < |roots| ==> roots[k] in held
    {
      assert script[i] == (script + [last])[i];
      match script[i] {
        case Ask(_, _, _, _, _, _) =>
          if Answerable(h, script[i]) {
            var given, _, t := Answer(cache, h, script[i]);
            if given.Some? {
              held := held + t;
              var objs := seq(|given.value|, k requires 0 <= k < |given.value| => given.value[k].obj);
              roots := roots + objs;
            }
          }
        case Mutate(place, edit) =>
          if place.root < |roots| { held := Change(place, edit, roots, held); }
      }
    }
    assert last == (script + [last])[|script|];
    r, answer, s := Answer(cache, h, last);
  }

  /** One request of a session. */
  method Answer(cache: RenderCache, h: History, act: Action)
    returns (r: Option<seq<Manifest>>, ghost answer: Option<Views>, ghost s: set<Node>)
    requires cache.Valid() && cache.meaning == Meaning(h) && KeySound(h) && Answerable(h, act)
    requires act.resolves ==> Held(Met(h, act), act.mode, act.ns)
    modifies cache
    ensures cache.Valid() && fresh(cache.repr - old(cache.repr)) && old(cache.repr) <= cache.repr
    ensures fresh(s) && Closed(s) && s !! cache.repr && (r.Some? <==> answer.Some?)
    ensures r.Some? ==> Lists(r.value, answer.value, s)
    ensures Serves(Met(h, act), act.mode, act.ns, answer)
  {
    hide KeySound;
    var source := Met(h, act);
    assert Occurs(h, h[act.resolved][act.src]);
    if source.key(act.mode, act.ns).Some? { MeaningOf(h, h[act.resolved][act.src], act.mode, act.ns); }
    r, answer, s := Render(cache, source, act.resolves, act.mode, act.ns);
  }
}

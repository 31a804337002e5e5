/** The fixed apply order by kind, and the delete orders derived from it. */
module Ordering {
  import opened Manifests

  const TOP_TIER := 4

  /** Namespaces, then CRDs, RBAC, everything else, and webhook configurations last. */
  function Tier(kind: string): (t: nat)
    ensures t <= TOP_TIER
  {
    if kind == "Namespace" then 0
    else if kind == "CustomResourceDefinition" then 1
    else if kind in {"ClusterRole", "ClusterRoleBinding", "Role", "RoleBinding", "ServiceAccount"} then 2
    else if kind in {"ValidatingWebhookConfiguration", "MutatingWebhookConfiguration"} then 4
    else 3
  }

  function Last<T>(xs: seq<T>): T
    requires xs != []
  {
    xs[|xs| - 1]
  }

  function Init<T>(xs: seq<T>): seq<T>
    requires xs != []
  {
    xs[..|xs| - 1]
  }

  function Reverse<T>(xs: seq<T>): (r: seq<T>)
    ensures |r| == |xs|
    ensures forall i :: 0 <= i < |xs| ==> r[i] == xs[|xs| - 1 - i]
  {
    if xs == [] then [] else [Last(xs)] + Reverse(Init(xs))
  }

  // ------------------------------------------------------ What a stable sort is

  ghost predicate SortedBy<T(!new)>(xs: seq<T>, tier: T -> nat) {
    forall i, j :: 0 <= i < j < |xs| ==> tier(xs[i]) <= tier(xs[j])
  }

  /** The elements of one tier, in order. */
  ghost function AtTier<T>(xs: seq<T>, tier: T -> nat, t: nat): seq<T> {
    if xs == [] then []
    else AtTier(Init(xs), tier, t) + if tier(Last(xs)) == t then [Last(xs)] else []
  }

  /** `ys` is in tier order and every tier keeps its elements and their order. */
  ghost predicate IsStableSortOf<T(!new)>(ys: seq<T>, xs: seq<T>, tier: T -> nat) {
    SortedBy(ys, tier) && forall t :: AtTier(ys, tier, t) == AtTier(xs, tier, t)
  }

  // --------------------------------------------------------------- The sort

  function Insert<T>(ys: seq<T>, x: T, tier: T -> nat): seq<T> {
    if ys == [] || tier(Last(ys)) <= tier(x) then ys + [x]
    else Insert(Init(ys), x, tier) + [Last(ys)]
  }

  function StableSort<T>(xs: seq<T>, tier: T -> nat): seq<T> {
    if xs == [] then [] else Insert(StableSort(Init(xs), tier), Last(xs), tier)
  }

  lemma {:induction false} InsertKeeps<T>(ys: seq<T>, x: T, tier: T -> nat)
    ensures multiset(Insert(ys, x, tier)) == multiset(ys) + multiset{x}
  {
    if ys != [] && tier(Last(ys)) > tier(x) {
      assert ys == Init(ys) + [Last(ys)];
      InsertKeeps(Init(ys), x, tier);
    }
  }

  lemma {:induction false} InsertSorted<T(!new)>(ys: seq<T>, x: T, tier: T -> nat)
    requires SortedBy(ys, tier)
    ensures SortedBy(Insert(ys, x, tier), tier)
  {
    if ys != [] && tier(Last(ys)) > tier(x) {
      var zs := Insert(Init(ys), x, tier);
      InsertSorted(Init(ys), x, tier);
      InsertKeeps(Init(ys), x, tier);
      forall i | 0 <= i < |zs| ensures tier(zs[i]) <= tier(Last(ys)) {
        assert zs[i] in multiset(zs);
        assert zs[i] in Init(ys) || zs[i] == x;
      }
    }
  }

  lemma {:induction false} InsertAtTier<T(!new)>(ys: seq<T>, x: T, tier: T -> nat, t: nat)
    ensures AtTier(Insert(ys, x, tier), tier, t)
            == AtTier(ys, tier, t) + if tier(x) == t then [x] else []
  {
    if ys == [] || tier(Last(ys)) <= tier(x) {
      assert Init(ys + [x]) == ys;
    } else {
      InsertAtTier(Init(ys), x, tier, t);
      var zs := Insert(Init(ys), x, tier);
      assert Init(zs + [Last(ys)]) == zs;
    }
  }

  lemma {:induction false} SortAtTier<T(!new)>(xs: seq<T>, tier: T -> nat, t: nat)
    ensures AtTier(StableSort(xs, tier), tier, t) == AtTier(xs, tier, t)
  {
    if xs != [] {
      SortAtTier(Init(xs), tier, t);
      InsertAtTier(StableSort(Init(xs), tier), Last(xs), tier, t);
    }
  }

  lemma {:induction false} SortSorted<T(!new)>(xs: seq<T>, tier: T -> nat)
    ensures SortedBy(StableSort(xs, tier), tier)
    ensures multiset(StableSort(xs, tier)) == multiset(xs)
  {
    if xs != [] {
      assert xs == Init(xs) + [Last(xs)];
      SortSorted(Init(xs), tier);
      InsertSorted(StableSort(Init(xs), tier), Last(xs), tier);
      InsertKeeps(StableSort(Init(xs), tier), Last(xs), tier);
    }
  }

  /** The sort is a permutation, in tier order, and stable. */
  lemma StableSortCorrect<T(!new)>(xs: seq<T>, tier: T -> nat)
    ensures IsStableSortOf(StableSort(xs, tier), xs, tier)
    ensures multiset(StableSort(xs, tier)) == multiset(xs)
  {
    SortSorted(xs, tier);
    forall t: nat { SortAtTier(xs, tier, t); }
  }

  /** Sorted sequences that agree tier by tier end alike. */
  lemma SameEnd<T(!new)>(a: seq<T>, b: seq<T>, tier: T -> nat)
    requires SortedBy(a, tier) && SortedBy(b, tier)
    requires forall t :: AtTier(a, tier, t) == AtTier(b, tier, t)
    requires a != []
    ensures b != [] && Last(a) == Last(b)
  {
    var t := tier(Last(a));
    LastAtTier(a, tier);
    AtTierMember(b, tier, t);
    assert b != [];
    var s := tier(Last(b));
    LastAtTier(b, tier);
    AtTierMember(a, tier, s);
    assert s == t;
  }

  lemma LastAtTier<T>(xs: seq<T>, tier: T -> nat)
    requires xs != []
    ensures var at := AtTier(xs, tier, tier(Last(xs))); at != [] && Last(at) == Last(xs)
  {
  }

  lemma InitAtTier<T>(xs: seq<T>, tier: T -> nat, t: nat)
    requires xs != []
    ensures var at := AtTier(xs, tier, t);
            if tier(Last(xs)) == t then at != [] && AtTier(Init(xs), tier, t) == Init(at)
            else AtTier(Init(xs), tier, t) == at
  {
  }

  /** There is only one stable sort. */
  lemma {:induction false} StableSortUnique<T(!new)>(a: seq<T>, b: seq<T>, tier: T -> nat)
    requires SortedBy(a, tier) && SortedBy(b, tier)
    requires forall t :: AtTier(a, tier, t) == AtTier(b, tier, t)
    ensures a == b
    decreases |a|
  {
    if a != [] {
      SameEnd(a, b, tier);
      forall t: nat ensures AtTier(Init(a), tier, t) == AtTier(Init(b), tier, t) {
        InitAtTier(a, tier, t);
        InitAtTier(b, tier, t);
        assert AtTier(a, tier, t) == AtTier(b, tier, t);
      }
      StableSortUnique(Init(a), Init(b), tier);
      assert a == Init(a) + [Last(a)] && b == Init(b) + [Last(b)];
    } else if b != [] {
      SameEnd(b, a, tier);
    }
  }

  lemma {:induction false} AtTierMember<T(!new)>(xs: seq<T>, tier: T -> nat, t: nat)
    ensures AtTier(xs, tier, t) != [] <==> exists x :: x in xs && tier(x) == t
  {
    if xs != [] {
      assert xs == Init(xs) + [Last(xs)];
      AtTierMember(Init(xs), tier, t);
    }
  }

  // ------------------------------------------------- The operator's orders

  function ApplyTier(m: Manifest): nat { Tier(m.kind) }

  function StatusTier(rs: ResourceStatus): nat { Tier(rs.kind) }

  function DeleteTier(rs: ResourceStatus): nat { TOP_TIER - Tier(rs.kind) }

  /** `SortForApply`: stable, ascending. */
  function ForApply(ms: seq<Manifest>): seq<Manifest> { StableSort(ms, ApplyTier) }

  /** `SortStatusForDelete`: stable, descending. */
  function StatusForDelete(prev: seq<ResourceStatus>): seq<ResourceStatus> { StableSort(prev, DeleteTier) }

  /** `SortForDelete` fills a new slice from the back. */
  method SortForDelete(ms: seq<Manifest>) returns (out: seq<Manifest>)
    ensures out == Reverse(ForApply(ms))
  {
    var applied := ForApply(ms);
    out := applied;
    for i := 0 to |applied|
      invariant |out| == |applied|
      invariant forall k :: 0 <= k < i ==> out[|applied| - 1 - k] == applied[k]
    {
      out := out[|applied| - 1 - i := applied[i]];
    }
    assert forall k :: 0 <= k < |out| ==> out[k] == applied[|applied| - 1 - k] by {
      forall k | 0 <= k < |out| ensures out[k] == applied[|applied| - 1 - k] {
        var j := |applied| - 1 - k;
        assert out[|applied| - 1 - j] == applied[j];
      }
    }
  }

  lemma {:induction false} AtTierReverse<T(!new)>(xs: seq<T>, tier: T -> nat, t: nat)
    ensures AtTier(Reverse(xs), tier, t) == Reverse(AtTier(xs, tier, t))
  {
    if xs != [] {
      AtTierReverse(Init(xs), tier, t);
      AtTierPrepend(Last(xs), Reverse(Init(xs)), tier, t);
      var tail := if tier(Last(xs)) == t then [Last(xs)] else [];
      assert AtTier(xs, tier, t) == AtTier(Init(xs), tier, t) + tail;
      if tail != [] { assert Init(AtTier(xs, tier, t)) == AtTier(Init(xs), tier, t); }
    }
  }

  lemma {:induction false} AtTierPrepend<T(!new)>(x: T, xs: seq<T>, tier: T -> nat, t: nat)
    ensures AtTier([x] + xs, tier, t) == (if tier(x) == t then [x] else []) + AtTier(xs, tier, t)
  {
    var all := [x] + xs;
    if xs == [] {
      assert Init(all) == [] && Last(all) == x;
    } else {
      assert Init(all) == [x] + Init(xs) && Last(all) == Last(xs);
      AtTierPrepend(x, Init(xs), tier, t);
    }
  }

  lemma {:induction false} AtDeleteTier(xs: seq<ResourceStatus>, t: nat)
    ensures AtTier(xs, DeleteTier, t) == if t <= TOP_TIER then AtTier(xs, StatusTier, TOP_TIER - t) else []
  {
    if xs != [] { AtDeleteTier(Init(xs), t); }
  }

  lemma ReverseTwice<T>(xs: seq<T>)
    ensures Reverse(Reverse(xs)) == xs
  {
  }

  /** The status order is the reverse of the apply order of the reversed inventory. */
  lemma StatusForDeleteIsReverse(xs: seq<ResourceStatus>)
    ensures StatusForDelete(xs) == Reverse(StableSort(Reverse(xs), StatusTier))
  {
    var up := StableSort(Reverse(xs), StatusTier);
    SortSorted(Reverse(xs), StatusTier);
    SortSorted(xs, DeleteTier);
    DescendingReverse(up);
    forall t: nat ensures AtTier(StatusForDelete(xs), DeleteTier, t) == AtTier(Reverse(up), DeleteTier, t) {
      SortAtTier(xs, DeleteTier, t);
      ReversedTier(xs, t);
    }
    StableSortUnique(StatusForDelete(xs), Reverse(up), DeleteTier);
  }

  lemma DescendingReverse(up: seq<ResourceStatus>)
    requires SortedBy(up, StatusTier)
    ensures SortedBy(Reverse(up), DeleteTier)
  {
    var down := Reverse(up);
    forall i, j | 0 <= i < j < |down| ensures DeleteTier(down[i]) <= DeleteTier(down[j]) {
      assert StatusTier(up[|up| - 1 - j]) <= StatusTier(up[|up| - 1 - i]);
    }
  }

  lemma ReversedTier(xs: seq<ResourceStatus>, t: nat)
    ensures AtTier(Reverse(StableSort(Reverse(xs), StatusTier)), DeleteTier, t) == AtTier(xs, DeleteTier, t)
  {
    var up := StableSort(Reverse(xs), StatusTier);
    AtDeleteTier(Reverse(up), t);
    AtDeleteTier(xs, t);
    if t <= TOP_TIER {
      var u := TOP_TIER - t;
      calc {
        AtTier(Reverse(up), StatusTier, u);
        { AtTierReverse(up, StatusTier, u); }
        Reverse(AtTier(up, StatusTier, u));
        { SortAtTier(Reverse(xs), StatusTier, u); }
        Reverse(AtTier(Reverse(xs), StatusTier, u));
        { AtTierReverse(xs, StatusTier, u); }
        Reverse(Reverse(AtTier(xs, StatusTier, u)));
        { ReverseTwice(AtTier(xs, StatusTier, u)); }
        AtTier(xs, StatusTier, u);
      }
    }
  }

  ghost predicate TierReadsBothWays(xs: seq<ResourceStatus>, t: nat) {
    AtTier(xs, StatusTier, t) == Reverse(AtTier(xs, StatusTier, t))
  }

  /** It is the exact reverse of the apply order only when every tier reads the same both ways. */
  lemma StatusForDeleteExactReverseIff(xs: seq<ResourceStatus>)
    ensures StatusForDelete(xs) == Reverse(StableSort(xs, StatusTier))
            <==> forall t :: TierReadsBothWays(xs, t)
  {
    StatusForDeleteIsReverse(xs);
    var up, down := StableSort(xs, StatusTier), StableSort(Reverse(xs), StatusTier);
    forall t: nat
      ensures AtTier(down, StatusTier, t) == Reverse(AtTier(xs, StatusTier, t))
      ensures AtTier(up, StatusTier, t) == AtTier(xs, StatusTier, t)
    {
      SortAtTier(xs, StatusTier, t);
      SortAtTier(Reverse(xs), StatusTier, t);
      AtTierReverse(xs, StatusTier, t);
    }
    if forall t :: TierReadsBothWays(xs, t) {
      SortSorted(xs, StatusTier);
      SortSorted(Reverse(xs), StatusTier);
      forall t: nat ensures AtTier(up, StatusTier, t) == AtTier(down, StatusTier, t) {
        assert TierReadsBothWays(xs, t);
      }
      StableSortUnique(up, down, StatusTier);
    } else if Reverse(down) == Reverse(up) {
      ReverseTwice(down);
      ReverseTwice(up);
    }
  }

  /** Members and tier order of the two sequences that a pass walks. */
  lemma OrderFacts(ms: seq<Manifest>, prev: seq<ResourceStatus>)
    ensures forall m :: m in ForApply(ms) <==> m in ms
    ensures forall rs :: rs in StatusForDelete(prev) <==> rs in prev
    ensures |ForApply(ms)| == |ms| && |StatusForDelete(prev)| == |prev|
    ensures forall i, j :: 0 <= i < j < |ForApply(ms)| ==>
              Tier(ForApply(ms)[i].kind) <= Tier(ForApply(ms)[j].kind)
    ensures forall i, j :: 0 <= i < j < |prev| ==>
              Tier(StatusForDelete(prev)[i].kind) >= Tier(StatusForDelete(prev)[j].kind)
  {
    StableSortCorrect(ms, ApplyTier);
    StableSortCorrect(prev, DeleteTier);
    var a, d := ForApply(ms), StatusForDelete(prev);
    assert |multiset(a)| == |multiset(ms)| && |multiset(d)| == |multiset(prev)|;
    forall m ensures m in a <==> m in ms { assert m in multiset(a) <==> m in multiset(ms); }
    forall rs ensures rs in d <==> rs in prev { assert rs in multiset(d) <==> rs in multiset(prev); }
    forall i, j | 0 <= i < j < |a| ensures Tier(a[i].kind) <= Tier(a[j].kind) {
      assert ApplyTier(a[i]) <= ApplyTier(a[j]);
    }
    forall i, j | 0 <= i < j < |prev| ensures Tier(d[i].kind) >= Tier(d[j].kind) {
      assert DeleteTier(d[i]) <= DeleteTier(d[j]);
    }
  }
}

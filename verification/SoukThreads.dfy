/** Whole threads: what getOfferChain is meant to return. */
module SoukThreads {
  import opened Basics
  import opened Paths
  import opened SoukModel
  import opened SoukInvariant
  import opened SoukGuarantees

  /** Each element is the parent of the next. */
  ghost predicate Descending(offers: Offers, chain: seq<Id>) {
    && (forall k | 0 <= k < |chain| :: chain[k] in offers)
    && forall k {:trigger chain[k]} | 0 < k < |chain| :: IsChild(offers, chain[k], chain[k - 1])
  }

  predicate NoRepeats(chain: seq<Id>) {
    forall j, k | 0 <= j < k < |chain| :: chain[j] != chain[k]
  }

  /** A thread from its root to its leaf. */
  ghost predicate WholeThread(offers: Offers, chain: seq<Id>) {
    && chain != []
    && Descending(offers, chain)
    && offers[chain[0]].parentOfferId == None
    && !HasChild(offers, chain[|chain| - 1])
  }

  /** A member of the thread with k ancestors sits at position k, below exactly those ancestors. */
  lemma {:induction false} MemberPosition(offers: Offers, chain: seq<Id>, id: Id, path: seq<Id>)
    requires Threads(offers) && WholeThread(offers, chain)
    requires IsPath(ParentsOf(offers), id, path) && RootOf(id, path) == chain[0]
    ensures |path| < |chain| && chain[..|path|] == path && chain[|path|] == id
    decreases |path|
  {
    if path != [] {
      var up, above := path[|path| - 1], path[..|path| - 1];
      MemberPosition(offers, chain, up, above);
      assert IsChild(offers, id, up);
      assert HasChild(offers, up);
      var k := |path|;
      assert IsChild(offers, chain[k], chain[k - 1]);
    }
  }

  /** Conversely the element at position k has the elements before it as its path. */
  lemma {:induction false} PositionPath(offers: Offers, chain: seq<Id>, k: nat)
    requires WholeThread(offers, chain) && k < |chain|
    ensures IsPath(ParentsOf(offers), chain[k], chain[..k])
  {
    if k > 0 {
      PositionPath(offers, chain, k - 1);
      assert IsChild(offers, chain[k], chain[k - 1]);
      assert chain[..k][..k - 1] == chain[..k - 1];
    }
  }

  /** A whole thread holds its root's descendants, all of them, once each; and it is the only such list. */
  lemma {:induction false} WholeThreadExact(offers: Offers, chain: seq<Id>)
    requires Threads(offers) && WholeThread(offers, chain)
    ensures NoRepeats(chain) && |chain| <= 3
    ensures forall id, path | IsPath(ParentsOf(offers), id, path) :: id in chain <==> RootOf(id, path) == chain[0]
    ensures forall other | WholeThread(offers, other) && other[0] == chain[0] :: other == chain
  {
    var parents := ParentsOf(offers);
    forall j, k | 0 <= j < k < |chain| ensures chain[j] != chain[k] {
      PositionPath(offers, chain, k);
      PathAcyclic(parents, chain[k], chain[..k]);
      assert chain[..k][j] == chain[j];
    }
    var last := |chain| - 1;
    PositionPath(offers, chain, last);
    var short := ThreadPath(offers, chain[last]);
    PathUnique(parents, chain[last], chain[..last], short);
    forall id, path | IsPath(parents, id, path) ensures id in chain <==> RootOf(id, path) == chain[0] {
      if RootOf(id, path) == chain[0] { MemberPosition(offers, chain, id, path); }
      if id in chain {
        var k :| 0 <= k < |chain| && chain[k] == id;
        PositionPath(offers, chain, k);
        PathUnique(parents, id, path, chain[..k]);
      }
    }
    forall other | WholeThread(offers, other) && other[0] == chain[0] ensures other == chain {
      SameThreadList(offers, chain, other);
    }
  }

  lemma SameThreadList(offers: Offers, a: seq<Id>, b: seq<Id>)
    requires Threads(offers) && WholeThread(offers, a) && WholeThread(offers, b) && a[0] == b[0]
    ensures a == b
  {
  }

  /** On threads a descent from a root that could only be stopped by its own elements was not stopped. */
  lemma DescentIsWhole(offers: Offers, chain: seq<Id>)
    requires Threads(offers) && chain != [] && Descending(offers, chain) && NoRepeats(chain)
    requires offers[chain[0]].parentOfferId == None
    requires var last := chain[|chain| - 1];
      HasChild(offers, last) ==> exists c :: IsChild(offers, c, last) && c in chain
    ensures WholeThread(offers, chain)
  {
  }
}

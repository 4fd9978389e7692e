/** The hierarchy of a store that may contain cycles: what the traversal lists there, and when it ends. */
module LifeCycles {
  import opened Basics
  import opened Paths
  import opened LifeModel
  import opened LifeTrees

  /** The node is one of its own ancestors. */
  ghost predicate OnCycle(parents: Parents, node: Id) {
    exists n: nat :: n > 0 && Climb(parents, node, n) == Some(node)
  }

  /** The nodes that lie under some root, which form a forest. */
  ghost function RootedPart(parents: Parents): Parents {
    map i | i in parents && Rooted(parents, i) :: parents[i]
  }

  lemma {:induction false} PathInRootedPart(parents: Parents, node: Id, path: seq<Id>)
    requires IsPath(parents, node, path)
    ensures IsPath(RootedPart(parents), node, path)
    decreases |path|
  {
    assert Rooted(parents, node);
    if path != [] { PathInRootedPart(parents, path[|path| - 1], path[..|path| - 1]); }
  }

  lemma {:induction false} RootedPartIsForest(parents: Parents)
    ensures Forest(RootedPart(parents))
  {
    forall i | i in RootedPart(parents) ensures Rooted(RootedPart(parents), i) {
      var path :| IsPath(parents, i, path);
      PathInRootedPart(parents, i, path);
    }
  }

  /**
   * The forest a traversal from this parent moves in: everything under the roots, or, from a parent that lies under no
   * root, everything under that parent, taken as a root.
   */
  ghost function Under(parents: Parents, parentId: Option<Id>): Parents {
    if parentId.None? || Rooted(parents, parentId.value) then RootedPart(parents)
    else RootedPart(parents[parentId.value := None])
  }

  /** `forest` is the store as far as a traversal from this parent can see. */
  ghost predicate Shows(parents: Parents, forest: Parents, parentId: Option<Id>) {
    && Forest(forest)
    && Children(parents, parentId) == Children(forest, parentId)
    && forall v {:trigger Children(forest, Some(v))} | v in Below(forest, parentId) ::
         Children(parents, Some(v)) == Children(forest, Some(v))
  }

  lemma {:induction false} ChildRooted(parents: Parents, c: Id)
    requires c in parents && (parents[c].Some? ==> Rooted(parents, parents[c].value))
    ensures Rooted(parents, c)
  {
    match parents[c]
    case None => assert IsPath(parents, c, []);
    case Some(p) =>
      var path :| IsPath(parents, p, path);
      assert (path + [p])[..|path|] == path;
      assert IsPath(parents, c, path + [p]);
  }

  lemma {:induction false} ChildrenInRootedPart(parents: Parents, parentId: Option<Id>)
    requires parentId.Some? ==> Rooted(parents, parentId.value)
    ensures Children(parents, parentId) == Children(RootedPart(parents), parentId)
  {
    forall c | c in Children(parents, parentId) ensures c in RootedPart(parents) { ChildRooted(parents, c); }
  }

  /** Cutting a node off from its parent changes no climb that ends at the node. */
  lemma {:induction false} ClimbOutOfCut(parents: Parents, top: Id, node: Id, n: nat)
    requires Climb(parents[top := None], node, n) == Some(top)
    ensures Climb(parents, node, n) == Some(top)
    decreases n
  {
    if n > 0 { ClimbOutOfCut(parents, top, parents[node].value, n - 1); }
  }

  lemma {:induction false} ClimbIntoCut(parents: Parents, top: Id, node: Id, n: nat)
    requires Climb(parents, node, n) == Some(top) && !OnCycle(parents, top)
    ensures Climb(parents[top := None], node, n) == Some(top)
    decreases n
  {
    if n > 0 { ClimbIntoCut(parents, top, parents[node].value, n - 1); }
  }

  /** The children of a node under the cut are its children in the store, because the cut node is not among them. */
  lemma {:induction false} ChildrenInCut(parents: Parents, top: Id, v: Id)
    requires !OnCycle(parents, top)
    requires Rooted(parents[top := None], v) && InSubtree(parents[top := None], v, top)
    ensures Children(parents, Some(v)) == Children(RootedPart(parents[top := None]), Some(v))
  {
    var cut := parents[top := None];
    ChildrenInRootedPart(cut, Some(v));
    var n: nat :| Climb(cut, v, n) == Some(top);
    ClimbOutOfCut(parents, top, v, n);
    assert top in Children(parents, Some(v)) ==> Climb(parents, top, n + 1) == Some(top);
    assert Children(parents, Some(v)) == Children(cut, Some(v));
  }

  lemma {:induction false} UnderShows(parents: Parents, parentId: Option<Id>)
    requires parentId.Some? ==> !OnCycle(parents, parentId.value)
    ensures Shows(parents, Under(parents, parentId), parentId)
  {
    var forest := Under(parents, parentId);
    if parentId.None? || Rooted(parents, parentId.value) {
      RootedPartIsForest(parents);
      ChildrenInRootedPart(parents, parentId);
      forall v | v in Below(forest, parentId) ensures Children(parents, Some(v)) == Children(forest, Some(v)) {
        ChildrenInRootedPart(parents, Some(v));
      }
    } else {
      var top := parentId.value;
      var cut := parents[top := None];
      RootedPartIsForest(cut);
      assert IsPath(cut, top, []) && Climb(cut, top, 0) == Some(top);
      ChildrenInCut(parents, top, top);
      forall v | v in Below(forest, parentId) ensures Children(parents, Some(v)) == Children(forest, Some(v)) {
        assert Rooted(forest, v);
        var path :| IsPath(forest, v, path);
        SubtreeIsPath(forest, v, path, top);
        PathExtends(forest, cut, v, path);
        SubtreeIsPath(cut, v, path, top);
        ChildrenInCut(parents, top, v);
      }
    }
  }

  /** The same forest shows what lies under each child. */
  lemma {:induction false} ShowsChild(parents: Parents, forest: Parents, parentId: Option<Id>, c: Id)
    requires Shows(parents, forest, parentId) && c in Children(forest, parentId)
    ensures Shows(parents, forest, Some(c))
  {
    BelowShrinks(forest, parentId, c);
    ChildIsBelow(forest, parentId, c);
    assert Children(parents, Some(c)) == Children(forest, Some(c));
  }

  // ---------- What the traversal lists ----------

  lemma {:induction false} BelowUnder(parents: Parents, parentId: Option<Id>, i: Id)
    requires parentId.Some? ==> !OnCycle(parents, parentId.value)
    ensures i in Below(Under(parents, parentId), parentId) <==>
      && i in parents
      && match parentId
         case None => Rooted(parents, i)
         case Some(p) => i != p && InSubtree(parents, i, p)
  {
    if parentId.Some? {
      var p := parentId.value;
      var whole := if Rooted(parents, p) then parents else parents[p := None];
      assert IsPath(parents[p := None], p, []);
      if i in parents && i != p && InSubtree(parents, i, p) {
        var n: nat :| Climb(parents, i, n) == Some(p);
        ClimbIntoCut(parents, p, i, n);
        ClimbsRooted(whole, i, n, p);
        SameSubtreeInPart(whole, i, p);
      }
      if i in Below(Under(parents, parentId), parentId) {
        SameSubtreeInPart(whole, i, p);
        var n: nat :| Climb(whole, i, n) == Some(p);
        if whole != parents { ClimbOutOfCut(parents, p, i, n); }
      }
    }
  }

  lemma SameSubtreeInPart(parents: Parents, i: Id, top: Id)
    requires Rooted(parents, i)
    ensures InSubtree(RootedPart(parents), i, top) <==> InSubtree(parents, i, top)
  {
    var path :| IsPath(parents, i, path);
    PathInRootedPart(parents, i, path);
    SubtreeIsPath(parents, i, path, top);
    SubtreeIsPath(RootedPart(parents), i, path, top);
  }

  /**
   * On every store the tree of a parent that is not on a cycle holds exactly the locations below it, each once, and the
   * whole hierarchy exactly those with a root above them: a cycle is left out of it without a sign.
   */
  lemma {:induction false} ListedExactly(parents: Parents, parentId: Option<Id>, tree: seq<Tree>, i: Id)
    requires parentId.Some? ==> !OnCycle(parents, parentId.value)
    requires Lists(Under(parents, parentId), parentId, tree)
    ensures var expected := i in parents
      && match parentId
         case None => Rooted(parents, i)
         case Some(p) => i != p && InSubtree(parents, i, p);
      multiset(Ids(tree))[i] == if expected then 1 else 0
  {
    BelowUnder(parents, parentId, i);
  }

  /** On every store the chain enclosing a location of the whole hierarchy is its breadcrumb path. */
  lemma {:induction false} EnclosedByBreadcrumbs(parents: Parents, tree: seq<Tree>, i: Id, path: seq<Id>)
    requires Lists(Under(parents, None), None, tree)
    ensures LeadsTo(tree, path, i) <==> i in parents && IsPath(parents, i, path)
  {
    var forest := RootedPart(parents);
    RootedPartIsForest(parents);
    HierarchyAgrees(forest, tree, i);
    if LeadsTo(tree, path, i) { PathExtends(forest, parents, i, path); }
    if i in parents && IsPath(parents, i, path) {
      PathInRootedPart(parents, i, path);
      var q :| LeadsTo(tree, q, i);
      PathUnique(forest, i, path, q);
    }
  }

  // ---------- When the traversal ends ----------

  /** The recursion from this parent ends within n levels. */
  ghost predicate Ends(parents: Parents, parentId: Option<Id>, n: nat)
    decreases n
  {
    forall c | c in Children(parents, parentId) :: n > 0 && Ends(parents, Some(c), n - 1)
  }

  lemma {:induction false} ForestEnds(parents: Parents, forest: Parents, parentId: Option<Id>)
    requires Shows(parents, forest, parentId)
    ensures exists n: nat :: Ends(parents, parentId, n)
    decreases Below(forest, parentId)
  {
    EndsWithin(parents, forest, parentId, |Below(forest, parentId)|);
  }

  lemma {:induction false} EndsWithin(parents: Parents, forest: Parents, parentId: Option<Id>, n: nat)
    requires Shows(parents, forest, parentId) && |Below(forest, parentId)| <= n
    ensures Ends(parents, parentId, n)
    decreases n
  {
    forall c | c in Children(parents, parentId) ensures n > 0 && Ends(parents, Some(c), n - 1) {
      BelowShrinks(forest, parentId, c);
      ProperSubsetSmaller(Below(forest, Some(c)), Below(forest, parentId));
      ShowsChild(parents, forest, parentId, c);
      EndsWithin(parents, forest, Some(c), n - 1);
    }
  }

  lemma {:induction false} ProperSubsetSmaller(a: set<Id>, b: set<Id>)
    requires a < b
    ensures |a| < |b|
  {
    assert b == a + (b - a);
    assert b - a != {};
  }

  /** From every node that climbs to the parent the recursion has that much less to go. */
  lemma {:induction false} EndsBelow(parents: Parents, p: Id, n: nat, x: Id, m: nat)
    requires Ends(parents, Some(p), n) && Climb(parents, x, m) == Some(p)
    ensures m <= n && Ends(parents, Some(x), n - m)
    decreases m
  {
    if m > 0 {
      EndsBelow(parents, p, n, parents[x].value, m - 1);
      assert x in Children(parents, parents[x]);
    }
  }

  lemma {:induction false} CycleNeverEnds(parents: Parents, p: Id, m: nat, n: nat)
    requires m > 0 && Climb(parents, p, m) == Some(p)
    ensures !Ends(parents, Some(p), n)
    decreases n
  {
    if Ends(parents, Some(p), n) {
      EndsBelow(parents, p, n, p, m);
      CycleNeverEnds(parents, p, m, n - m);
    }
  }

  /** The traversal ends exactly when it does not start on a cycle: from the top always, wherever the cycles are. */
  lemma {:induction false} TraversalEndsIff(parents: Parents, parentId: Option<Id>)
    ensures (exists n: nat :: Ends(parents, parentId, n)) <==> (parentId.Some? ==> !OnCycle(parents, parentId.value))
  {
    if parentId.Some? && OnCycle(parents, parentId.value) {
      var p := parentId.value;
      var m: nat :| m > 0 && Climb(parents, p, m) == Some(p);
      forall n: nat ensures !Ends(parents, parentId, n) { CycleNeverEnds(parents, p, m, n); }
    } else {
      UnderShows(parents, parentId);
      ForestEnds(parents, Under(parents, parentId), parentId);
    }
  }
}

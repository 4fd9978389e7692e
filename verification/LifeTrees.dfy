/** The nested form of the location hierarchy, and how it agrees with the breadcrumbs. */
module LifeTrees {
  import opened Basics
  import opened Paths
  import opened LifeModel

  datatype Tree = Node(id: Id, children: seq<Tree>)

  ghost function IdsOf(t: Tree): seq<Id>
    decreases t, 0
  {
    [t.id] + Ids(t.children)
  }

  /** Every location in a list of trees, in the order of a walk. */
  ghost function Ids(ts: seq<Tree>): seq<Id>
    decreases ts, 1
  {
    if ts == [] then [] else Ids(ts[..|ts| - 1]) + IdsOf(ts[|ts| - 1])
  }

  /** Every node of the trees has the chain of its enclosing nodes, below `prefix`, as its path. */
  ghost predicate Placed(parents: Parents, ts: seq<Tree>, prefix: seq<Id>)
    decreases ts
  {
    forall k | 0 <= k < |ts| ::
      IsPath(parents, ts[k].id, prefix) && Placed(parents, ts[k].children, prefix + [ts[k].id])
  }

  /** `path` is the chain of nodes enclosing `id` in the trees. */
  ghost predicate LeadsTo(ts: seq<Tree>, path: seq<Id>, id: Id)
    decreases ts
  {
    if path == [] then exists k :: 0 <= k < |ts| && ts[k].id == id
    else exists k :: 0 <= k < |ts| && ts[k].id == path[0] && LeadsTo(ts[k].children, path[1..], id)
  }

  /** In placed trees the chain of nodes that encloses a location is its breadcrumb path. */
  lemma {:induction false} BreadcrumbsLead(parents: Parents, ts: seq<Tree>, prefix: seq<Id>, path: seq<Id>, id: Id)
    requires Placed(parents, ts, prefix) && LeadsTo(ts, path, id)
    ensures IsPath(parents, id, prefix + path)
    decreases ts
  {
    if path == [] {
      assert prefix + path == prefix;
    } else {
      var k :| 0 <= k < |ts| && ts[k].id == path[0] && LeadsTo(ts[k].children, path[1..], id);
      BreadcrumbsLead(parents, ts[k].children, prefix + [path[0]], path[1..], id);
      assert prefix + [path[0]] + path[1..] == prefix + path;
    }
  }

  /** Every location of the trees is led to. */
  lemma {:induction false} ListedIsLedTo(ts: seq<Tree>, id: Id) returns (path: seq<Id>)
    requires id in Ids(ts)
    ensures LeadsTo(ts, path, id)
    decreases ts, |ts|
  {
    var k := ListedUnder(ts, id);
    if ts[k].id == id {
      path := [];
    } else {
      var rest := ListedIsLedTo(ts[k].children, id);
      path := [ts[k].id] + rest;
      assert path[1..] == rest;
    }
  }

  lemma {:induction false} ListedUnder(ts: seq<Tree>, id: Id) returns (k: nat)
    requires id in Ids(ts)
    ensures k < |ts| && (ts[k].id == id || id in Ids(ts[k].children))
    decreases |ts|
  {
    k := |ts| - 1;
    if id !in IdsOf(ts[k]) {
      var front := ts[..|ts| - 1];
      k := ListedUnder(front, id);
      assert front[k] == ts[k];
    }
  }

  // ---------- The part of the hierarchy under a parent ----------

  /** The locations properly below a parent; with no parent, all of them. */
  ghost function Below(parents: Parents, parentId: Option<Id>): set<Id> {
    match parentId
    case None => set i | i in parents
    case Some(p) => set i | i in parents && i != p && InSubtree(parents, i, p)
  }

  ghost function Children(parents: Parents, parentId: Option<Id>): set<Id> {
    set i | i in parents && parents[i] == parentId
  }

  /** The locations in the subtree of one of the given tops. */
  ghost function Covered(parents: Parents, tops: set<Id>): set<Id> {
    set i | i in parents && exists c :: c in tops && InSubtree(parents, i, c)
  }

  ghost function PathOf(parents: Parents, node: Id): seq<Id>
    requires Rooted(parents, node)
  {
    var path :| IsPath(parents, node, path); path
  }

  lemma SubtreeByPath(parents: Parents, node: Id, top: Id)
    requires Rooted(parents, node)
    ensures InSubtree(parents, node, top) <==> node == top || top in PathOf(parents, node)
  {
    SubtreeIsPath(parents, node, PathOf(parents, node), top);
  }

  /** The subtree of c is c itself and everything properly below it. */
  lemma CoveredOne(parents: Parents, c: Id)
    requires Forest(parents) && c in parents
    ensures Covered(parents, {c}) == {c} + Below(parents, Some(c)) && c !in Below(parents, Some(c))
  {
    assert Climb(parents, c, 0) == Some(c);
  }

  /** What is below a child is below the parent, and the child is not below itself: the traversal gets smaller. */
  lemma {:induction false} BelowShrinks(parents: Parents, parentId: Option<Id>, c: Id)
    requires Forest(parents) && c in Children(parents, parentId)
    ensures Below(parents, Some(c)) < Below(parents, parentId)
  {
    assert Rooted(parents, c);
    if parentId.Some? {
      var p := parentId.value;
      var pc := PathOf(parents, c);
      assert pc[|pc| - 1] == p;
      PathAcyclic(parents, c, pc);
      forall i | i in Below(parents, Some(c)) ensures i in Below(parents, parentId) {
        SubtreeByPath(parents, i, c);
        SubtreeByPath(parents, i, p);
        PathThrough(parents, i, PathOf(parents, i), c);
        PathAcyclic(parents, i, PathOf(parents, i));
      }
      SubtreeByPath(parents, c, p);
    }
    assert c in Below(parents, parentId) && c !in Below(parents, Some(c));
  }

  /** A path through c also contains c's parent. */
  lemma {:induction false} PathThrough(parents: Parents, node: Id, path: seq<Id>, c: Id)
    requires IsPath(parents, node, path) && c in path && c in parents && parents[c].Some?
    ensures parents[c].value in path
  {
    var j :| 0 <= j < |path| && path[j] == c;
    PathPrefix(parents, node, path, j);
    assert path[..j][j - 1] == path[j - 1];
  }

  /** Two different children of one parent have disjoint subtrees. */
  lemma {:induction false} SiblingsDisjoint(parents: Parents, parentId: Option<Id>, c: Id, d: Id, i: Id)
    requires Forest(parents) && i in parents
    requires c in Children(parents, parentId) && d in Children(parents, parentId)
    requires InSubtree(parents, i, c) && InSubtree(parents, i, d)
    ensures c == d
  {
    assert Rooted(parents, i);
    var path := PathOf(parents, i);
    SubtreeByPath(parents, i, c);
    SubtreeByPath(parents, i, d);
    var full := path + [i];
    var j := IndexIn(full, c);
    var k := IndexIn(full, d);
    FullPrefix(parents, i, path, j);
    FullPrefix(parents, i, path, k);
    SameParentSamePath(parents, parentId, c, full[..j], d, full[..k]);
    assert |full[..j]| == j && |full[..k]| == k;
  }

  lemma IndexIn(s: seq<Id>, x: Id) returns (j: nat)
    requires x in s
    ensures j < |s| && s[j] == x
  {
    j :| j < |s| && s[j] == x;
  }

  lemma FullPrefix(parents: Parents, i: Id, path: seq<Id>, j: nat)
    requires IsPath(parents, i, path) && j <= |path|
    ensures IsPath(parents, (path + [i])[j], (path + [i])[..j])
  {
    if j < |path| { PathPrefix(parents, i, path, j); }
    assert (path + [i])[..j] == path[..j];
    assert path[..|path|] == path;
  }

  lemma SameParentSamePath(parents: Parents, parentId: Option<Id>, c: Id, p: seq<Id>, d: Id, q: seq<Id>)
    requires c in Children(parents, parentId) && d in Children(parents, parentId)
    requires IsPath(parents, c, p) && IsPath(parents, d, q)
    ensures p == q
  {
    if parentId.Some? {
      PathUnique(parents, parentId.value, p[..|p| - 1], q[..|q| - 1]);
      assert p == p[..|p| - 1] + [parentId.value] && q == q[..|q| - 1] + [parentId.value];
    }
  }

  /** Everything below a parent is in the subtree of one of its children. */
  lemma {:induction false} ChildrenCover(parents: Parents, parentId: Option<Id>)
    requires Forest(parents)
    ensures Covered(parents, Children(parents, parentId)) == Below(parents, parentId)
  {
    var kids := Children(parents, parentId);
    forall i | i in parents ensures i in Covered(parents, kids) <==> i in Below(parents, parentId) {
      assert Rooted(parents, i);
      var path := PathOf(parents, i);
      if i in Below(parents, parentId) {
        var c := ChildAbove(parents, parentId, i, path);
        SubtreeByPath(parents, i, c);
      }
      if i in Covered(parents, kids) {
        var c :| c in kids && InSubtree(parents, i, c);
        BelowShrinks(parents, parentId, c);
        CoveredOne(parents, c);
        assert i in Covered(parents, {c});
        SubtreeByPath(parents, c, c);
        assert c in Below(parents, parentId) by { ChildIsBelow(parents, parentId, c); }
      }
    }
  }

  lemma ChildIsBelow(parents: Parents, parentId: Option<Id>, c: Id)
    requires Forest(parents) && c in Children(parents, parentId)
    ensures c in Below(parents, parentId)
  {
    if parentId.Some? {
      assert Rooted(parents, c);
      var pc := PathOf(parents, c);
      assert pc[|pc| - 1] == parentId.value;
      SubtreeByPath(parents, c, parentId.value);
      PathAcyclic(parents, c, pc);
    }
  }

  lemma {:induction false} ChildAbove(parents: Parents, parentId: Option<Id>, i: Id, path: seq<Id>) returns (c: Id)
    requires Forest(parents) && IsPath(parents, i, path) && i in Below(parents, parentId)
    ensures c in Children(parents, parentId) && (c == i || c in path)
  {
    var full := path + [i];
    match parentId
    case None =>
      c := full[0];
      FullPrefix(parents, i, path, 0);
    case Some(p) =>
      SubtreeIsPath(parents, i, path, p);
      var j := IndexIn(path, p);
      c := full[j + 1];
      FullPrefix(parents, i, path, j + 1);
      assert full[..j + 1][j] == p;
  }

  // ---------- Building the list of trees ----------

  /** The path shared by the children of a parent. */
  ghost function PrefixOf(parents: Parents, parentId: Option<Id>): seq<Id> {
    match parentId
    case None => []
    case Some(p) => if Rooted(parents, p) then PathOf(parents, p) + [p] else []
  }

  lemma ChildPath(parents: Parents, parentId: Option<Id>, c: Id)
    requires Forest(parents) && c in Children(parents, parentId)
    ensures IsPath(parents, c, PrefixOf(parents, parentId))
    ensures PrefixOf(parents, Some(c)) == PrefixOf(parents, parentId) + [c]
  {
    assert Rooted(parents, c);
    var path := PathOf(parents, c);
    if parentId.Some? {
      var p := parentId.value;
      assert IsPath(parents, p, path[..|path| - 1]);
      PathUnique(parents, p, path[..|path| - 1], PathOf(parents, p));
      assert path == path[..|path| - 1] + [p];
    }
  }

  /** Adding the tree of one more child lists its subtree once more and nothing twice. */
  lemma {:induction false} ListedOnce(
      parents: Parents, parentId: Option<Id>, visited: set<Id>, c: Id, tree: seq<Tree>, children: seq<Tree>)
    requires Forest(parents) && visited <= Children(parents, parentId)
    requires c in Children(parents, parentId) && c !in visited
    requires multiset(Ids(tree)) == multiset(Covered(parents, visited))
    requires multiset(Ids(children)) == multiset(Below(parents, Some(c)))
    ensures multiset(Ids(tree + [Node(c, children)])) == multiset(Covered(parents, visited + {c}))
  {
    CoveredMore(parents, parentId, visited, c);
    UnionOnce(Covered(parents, visited), c, Below(parents, Some(c)));
    IdsAppend(tree, c, children);
  }

  lemma IdsAppend(tree: seq<Tree>, c: Id, children: seq<Tree>)
    ensures multiset(Ids(tree + [Node(c, children)])) == multiset(Ids(tree)) + multiset{c} + multiset(Ids(children))
  {
  }

  lemma UnionOnce(a: set<Id>, c: Id, b: set<Id>)
    requires a !! {c} + b && c !in b
    ensures multiset(a + ({c} + b)) == multiset(a) + multiset{c} + multiset(b)
  {
  }

  /** One more child brings itself and what is below it, disjoint from what was covered before. */
  lemma {:induction false} CoveredMore(parents: Parents, parentId: Option<Id>, visited: set<Id>, c: Id)
    requires Forest(parents) && visited <= Children(parents, parentId)
    requires c in Children(parents, parentId) && c !in visited
    ensures Covered(parents, visited + {c}) == Covered(parents, visited) + ({c} + Below(parents, Some(c)))
    ensures Covered(parents, visited) !! {c} + Below(parents, Some(c))
    ensures c !in Below(parents, Some(c))
  {
    CoveredOne(parents, c);
    CoveredUnion(parents, visited, {c});
    forall i | i in Covered(parents, visited) && i in Covered(parents, {c}) ensures false {
      NotCoveredTwice(parents, parentId, visited, c, i);
    }
  }

  lemma {:induction false} NotCoveredTwice(parents: Parents, parentId: Option<Id>, visited: set<Id>, c: Id, i: Id)
    requires Forest(parents) && visited <= Children(parents, parentId)
    requires c in Children(parents, parentId) && i in Covered(parents, visited) && i in Covered(parents, {c})
    ensures c in visited
  {
    var d :| d in visited && InSubtree(parents, i, d);
    SiblingsDisjoint(parents, parentId, c, d, i);
  }

  lemma CoveredUnion(parents: Parents, s: set<Id>, t: set<Id>)
    ensures Covered(parents, s + t) == Covered(parents, s) + Covered(parents, t)
  {
  }

  lemma PlacedAppend(parents: Parents, tree: seq<Tree>, prefix: seq<Id>, c: Id, children: seq<Tree>)
    requires Placed(parents, tree, prefix) && IsPath(parents, c, prefix) && Placed(parents, children, prefix + [c])
    ensures Placed(parents, tree + [Node(c, children)], prefix)
  {
  }

  /** The trees list everything below the parent once, each location under its path. */
  ghost predicate Lists(parents: Parents, parentId: Option<Id>, tree: seq<Tree>) {
    && multiset(Ids(tree)) == multiset(Below(parents, parentId))
    && Placed(parents, tree, PrefixOf(parents, parentId))
  }

  /** The same for the subtrees of the children visited so far. */
  ghost predicate ListsSome(parents: Parents, parentId: Option<Id>, visited: set<Id>, tree: seq<Tree>) {
    && visited <= Children(parents, parentId)
    && multiset(Ids(tree)) == multiset(Covered(parents, visited))
    && Placed(parents, tree, PrefixOf(parents, parentId))
  }

  lemma ListsNone(parents: Parents, parentId: Option<Id>)
    ensures ListsSome(parents, parentId, {}, [])
  {
  }

  lemma {:induction false} ListsOneMore(
      parents: Parents, parentId: Option<Id>, visited: set<Id>, tree: seq<Tree>, c: Id, children: seq<Tree>)
    requires Forest(parents) && ListsSome(parents, parentId, visited, tree)
    requires c in Children(parents, parentId) && c !in visited && Lists(parents, Some(c), children)
    ensures ListsSome(parents, parentId, visited + {c}, tree + [Node(c, children)])
  {
    ChildPath(parents, parentId, c);
    ListedOnce(parents, parentId, visited, c, tree, children);
    PlacedAppend(parents, tree, PrefixOf(parents, parentId), c, children);
  }

  lemma {:induction false} ListsAll(parents: Parents, parentId: Option<Id>, tree: seq<Tree>)
    requires Forest(parents) && ListsSome(parents, parentId, Children(parents, parentId), tree)
    ensures Lists(parents, parentId, tree)
  {
    ChildrenCover(parents, parentId);
  }

  /**
   * The whole hierarchy lists every location exactly once, and the chain of nodes enclosing a location in it is
   * exactly its breadcrumb path.
   */
  lemma {:induction false} HierarchyAgrees(parents: Parents, tree: seq<Tree>, id: Id)
    requires Forest(parents) && Lists(parents, None, tree)
    ensures multiset(Ids(tree))[id] == if id in parents then 1 else 0
    ensures id in parents ==> exists path :: LeadsTo(tree, path, id)
    ensures forall path | LeadsTo(tree, path, id) :: IsPath(parents, id, path)
  {
    if id in parents {
      assert id in multiset(Ids(tree));
      var path := ListedIsLedTo(tree, id);
    }
    forall path | LeadsTo(tree, path, id) ensures IsPath(parents, id, path) {
      BreadcrumbsLead(parents, tree, [], path, id);
      assert [] + path == path;
    }
  }
}

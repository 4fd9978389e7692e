/**
 * Parent pointers. A `Parents` map sends each node to its parent, or to None for a root; the path of a node lists
 * its proper ancestors, root first. A node has a (finite) path exactly when following parents from it ends at a root.
 */
module Paths {
  import opened Basics

  type Parents = map<Id, Option<Id>>

  ghost predicate IsPath(parents: Parents, node: Id, path: seq<Id>)
    decreases |path|
  {
    && node in parents
    && match parents[node]
       case None => path == []
       case Some(p) => path != [] && path[|path| - 1] == p && IsPath(parents, p, path[..|path| - 1])
  }

  ghost predicate Rooted(parents: Parents, node: Id) {
    exists path :: IsPath(parents, node, path)
  }

  /** Every parent exists and no node is its own ancestor. */
  ghost predicate Forest(parents: Parents) {
    forall node | node in parents :: Rooted(parents, node)
  }

  lemma {:induction false} PathUnique(parents: Parents, node: Id, p: seq<Id>, q: seq<Id>)
    requires IsPath(parents, node, p) && IsPath(parents, node, q)
    ensures p == q
    decreases |p|
  {
    match parents[node]
    case None =>
    case Some(up) =>
      PathUnique(parents, up, p[..|p| - 1], q[..|q| - 1]);
      assert p == p[..|p| - 1] + [up] && q == q[..|q| - 1] + [up];
  }

  /** The path of an ancestor is the part of the path above it. */
  lemma {:induction false} PathPrefix(parents: Parents, node: Id, path: seq<Id>, j: nat)
    requires IsPath(parents, node, path) && j < |path|
    ensures IsPath(parents, path[j], path[..j])
    decreases |path|
  {
    var up := path[..|path| - 1];
    if j < |path| - 1 {
      PathPrefix(parents, path[|path| - 1], up, j);
      assert up[..j] == path[..j];
    }
  }

  /** No node is its own proper ancestor. */
  lemma {:induction false} PathAcyclic(parents: Parents, node: Id, path: seq<Id>)
    requires IsPath(parents, node, path)
    ensures node !in path
  {
    if node in path {
      var j :| 0 <= j < |path| && path[j] == node;
      PathPrefix(parents, node, path, j);
      PathUnique(parents, node, path, path[..j]);
    }
  }
}

/** The Madinaty Life location service: rows updated in place. */
module LifeServices {
  import opened Basics
  import opened Paths
  import M = LifeModel
  import opened LifeTrees
  import opened LifeCycles

  class LifeService {
    var locations: M.Locations

    ghost function Parents(): Parents
      reads this
    {
      M.ParentsOf(locations)
    }

    constructor ()
      ensures locations == map[]
    {
      locations := map[];
    }

    method CreateLocation(newId: Id, name: string, parentId: Option<Id>) returns (r: Result<M.Location, M.LifeError>)
      modifies this
      ensures match M.CreateLocation(old(locations), newId, name, parentId)
              case Ok(l) => locations == l && newId in l && r == Ok(l[newId])
              case Err(e) => locations == old(locations) && r == Err(e)
    {
      if parentId.Some? && parentId.value !in locations { return Err(M.ParentNotFound); }
      if newId in locations { return Err(M.UniqueViolation); }
      locations := locations[newId := M.Location(name, parentId)];
      return Ok(locations[newId]);
    }

    method UpdateLocation(id: Id, name: Option<string>, edit: M.ParentEdit) returns (r: Result<M.Location, M.LifeError>)
      modifies this
      ensures match M.UpdateLocation(old(locations), id, name, edit)
              case Ok(l) => locations == l && id in l && r == Ok(l[id])
              case Err(e) => locations == old(locations) && r == Err(e)
    {
      if id !in locations { return Err(M.LocationNotFound); }
      var row := locations[id];
      if edit == M.MoveTo(id) { return Err(M.OwnParent); }
      if edit.MoveTo? && edit.parentId !in locations { return Err(M.ParentNotFound); }
      if name.Some? { row := row.(name := name.value); }
      if edit.MoveTo? { row := row.(parentId := Some(edit.parentId)); }
      if edit.Detach? { row := row.(parentId := None); }
      locations := locations[id := row];
      return Ok(row);
    }

    /** The database removes children whose parent row is gone until none is left, around a cycle too. */
    method DeleteLocation(id: Id) returns (r: Result<M.Location, M.LifeError>)
      modifies this
      ensures id !in old(locations) ==> r == Err(M.LocationNotFound) && locations == old(locations)
      ensures id in old(locations) ==> r == Ok(old(locations)[id])
      ensures id in old(locations) && M.Closed(old(Parents())) ==> locations == M.WithoutSubtree(old(locations), id)
    {
      if id !in locations { return Err(M.LocationNotFound); }
      ghost var was := locations;
      ghost var parents := M.ParentsOf(was);
      r := Ok(locations[id]);
      locations := locations - {id};
      assert M.Climb(parents, id, 0) == Some(id);
      while exists x | x in locations :: locations[x].parentId.Some? && locations[x].parentId.value !in locations
        invariant locations.Keys <= was.Keys && id !in locations
        invariant forall x | x in locations :: locations[x] == was[x]
        invariant M.Closed(parents) ==> forall x | x in was && x !in locations :: M.InSubtree(parents, x, id)
        decreases locations.Keys
      {
        var x :| x in locations && locations[x].parentId.Some? && locations[x].parentId.value !in locations;
        assert x in parents;
        M.SubtreeOneUp(parents, x, id);
        ghost var keys := locations.Keys;
        locations := locations - {x};
        assert x in keys && locations.Keys == keys - {x};
      }
      forall x | x in locations ensures !M.InSubtree(parents, x, id) {
        M.KeptAbove(parents, locations.Keys, x, id);
      }
      if M.Closed(parents) { assert locations == M.WithoutSubtree(was, id); }
    }

    /**
     * The location and the breadcrumbs of its ancestors, outermost first. The loop ends exactly when climbing from the
     * location reaches a root (`LifeModel.ClimbEndsIffRooted`), so that is what the caller must know.
     */
    method GetLocation(id: Id) returns (r: Result<(M.Location, seq<Id>), M.LifeError>)
      requires id in locations ==> Rooted(M.ParentsOf(locations), id)
      ensures id !in locations ==> r == Err(M.LocationNotFound)
      ensures id in locations ==>
        r.Ok? && r.value.0 == locations[id] && IsPath(M.ParentsOf(locations), id, r.value.1)
    {
      if id !in locations { return Err(M.LocationNotFound); }
      var breadcrumbs := [];
      var current := id;
      ghost var above := PathOf(M.ParentsOf(locations), id);
      ghost var whole := above;
      while locations[current].parentId.Some?
        invariant current in locations && IsPath(M.ParentsOf(locations), current, above)
        invariant whole == above + breadcrumbs
        decreases |above|
      {
        var parent := locations[current].parentId.value;
        assert IsPath(M.ParentsOf(locations), parent, above[..|above| - 1]);
        if parent !in locations { break; }
        breadcrumbs := [parent] + breadcrumbs;
        above := above[..|above| - 1];
        current := parent;
      }
      assert above == [] && whole == breadcrumbs;
      return Ok((locations[id], breadcrumbs));
    }

    /**
     * The hierarchy under a parent, siblings in any order, on every store. The recursion ends exactly when the parent is
     * not on a cycle (`LifeCycles.TraversalEndsIff`), so that is what the caller must know; from the top it always ends.
     */
    method GetSubtreeHierarchy(parentId: Option<Id>) returns (tree: seq<Tree>)
      requires parentId.Some? ==> !OnCycle(M.ParentsOf(locations), parentId.value)
      ensures Lists(Under(M.ParentsOf(locations), parentId), parentId, tree)
    {
      UnderShows(M.ParentsOf(locations), parentId);
      tree := SubtreeWithin(parentId, Under(M.ParentsOf(locations), parentId));
    }

    /** The recursion itself; `forest` only says where it moves. */
    method SubtreeWithin(parentId: Option<Id>, ghost forest: Parents) returns (tree: seq<Tree>)
      requires Shows(M.ParentsOf(locations), forest, parentId)
      ensures Lists(forest, parentId, tree)
      decreases Below(forest, parentId)
    {
      var remaining := set i | i in locations && locations[i].parentId == parentId;
      ghost var kids := Children(forest, parentId);
      assert remaining == Children(M.ParentsOf(locations), parentId);
      tree := [];
      ListsNone(forest, parentId);
      while remaining != {}
        invariant remaining <= kids && ListsSome(forest, parentId, kids - remaining, tree)
        decreases remaining
      {
        var c := Pick(remaining);
        BelowShrinks(forest, parentId, c);
        ShowsChild(M.ParentsOf(locations), forest, parentId, c);
        var children := SubtreeWithin(Some(c), forest);
        ListsOneMore(forest, parentId, kids - remaining, tree, c, children);
        assert kids - (remaining - {c}) == kids - remaining + {c};
        tree := tree + [Node(c, children)];
        remaining := remaining - {c};
      }
      assert kids - remaining == kids;
      ListsAll(forest, parentId, tree);
    }
  }
}

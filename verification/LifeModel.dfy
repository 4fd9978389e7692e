/** The Madinaty Life location hierarchy: places nested in places, as values. */
module LifeModel {
  import opened Basics
  import opened Paths

  datatype Location = Location(name: string, parentId: Option<Id>)

  type Locations = map<Id, Location>

  datatype LifeError = LocationNotFound | ParentNotFound | OwnParent | UniqueViolation

  function ParentsOf(locations: Locations): Parents {
    map i | i in locations :: locations[i].parentId
  }

  /** An update may leave the parent alone, detach the location (an empty parent id), or move it. */
  datatype ParentEdit = Keep | Detach | MoveTo(parentId: Id)

  function CreateLocation(locations: Locations, newId: Id, name: string, parentId: Option<Id>): Result<Locations, LifeError> {
    if parentId.Some? && parentId.value !in locations then Err(ParentNotFound)
    else if newId in locations then Err(UniqueViolation)
    else Ok(locations[newId := Location(name, parentId)])
  }

  /** The only guard against cycles is that a location is not its own parent. */
  function UpdateLocation(locations: Locations, id: Id, name: Option<string>, edit: ParentEdit): Result<Locations, LifeError> {
    if id !in locations then Err(LocationNotFound)
    else if edit == MoveTo(id) then Err(OwnParent)
    else if edit.MoveTo? && edit.parentId !in locations then Err(ParentNotFound)
    else
      var row := locations[id];
      var parentId := match edit case Keep => row.parentId case Detach => None case MoveTo(p) => Some(p);
      Ok(locations[id := Location(if name.Some? then name.value else row.name, parentId)])
  }

  /** The ancestor n steps above a node, if there is one; it exists for every n above a node that leads into a cycle. */
  function Climb(parents: Parents, node: Id, n: nat): Option<Id>
    decreases n
  {
    if n == 0 then Some(node)
    else if node in parents && parents[node].Some? then Climb(parents, parents[node].value, n - 1)
    else None
  }

  /** `node` is `top` or lies below it. */
  ghost predicate InSubtree(parents: Parents, node: Id, top: Id) {
    exists n: nat :: Climb(parents, node, n) == Some(top)
  }

  /** Deleting a location takes its whole subtree with it, by the cascading foreign key of the parent column. */
  ghost function WithoutSubtree(locations: Locations, top: Id): Locations {
    map i | i in locations && !InSubtree(ParentsOf(locations), i, top) :: locations[i]
  }

  /** The foreign key of the parent column: every parent is there. */
  ghost predicate Closed(parents: Parents) {
    forall i | i in parents && parents[i].Some? :: parents[i].value in parents
  }

  // ---------- Subtrees and paths ----------

  /** The ancestors met while climbing are the node itself and those on its path. */
  lemma {:induction false} SubtreeIsPath(parents: Parents, node: Id, path: seq<Id>, top: Id)
    requires IsPath(parents, node, path)
    ensures InSubtree(parents, node, top) <==> node == top || top in path
    decreases |path|
  {
    assert Climb(parents, node, 0) == Some(node);
    if path != [] {
      var p, up := path[|path| - 1], path[..|path| - 1];
      SubtreeIsPath(parents, p, up, top);
      assert path == up + [p];
      if node != top { SubtreeOneUp(parents, node, top); }
    } else if InSubtree(parents, node, top) {
      var n: nat :| Climb(parents, node, n) == Some(top);
    }
  }

  /** A node below its parent is in the same subtrees as the parent, and in its own. */
  lemma {:induction false} SubtreeOneUp(parents: Parents, node: Id, top: Id)
    requires node in parents && parents[node].Some?
    ensures InSubtree(parents, node, top) <==> node == top || InSubtree(parents, parents[node].value, top)
  {
    assert Climb(parents, node, 0) == Some(node);
    if InSubtree(parents, node, top) && node != top {
      var n: nat :| Climb(parents, node, n) == Some(top);
      assert Climb(parents, parents[node].value, n - 1) == Some(top);
    }
    if InSubtree(parents, parents[node].value, top) {
      var n: nat :| Climb(parents, parents[node].value, n) == Some(top);
      assert Climb(parents, node, n + 1) == Some(top);
    }
  }

  // ---------- Creation ----------

  /** Paths survive in any larger map that agrees on the old nodes. */
  lemma {:induction false} PathExtends(a: Parents, b: Parents, node: Id, path: seq<Id>)
    requires IsPath(a, node, path) && forall i | i in a :: i in b && b[i] == a[i]
    ensures IsPath(b, node, path)
    decreases |path|
  {
    if path != [] { PathExtends(a, b, path[|path| - 1], path[..|path| - 1]); }
  }

  lemma {:induction false} CreateKeepsForest(locations: Locations, newId: Id, name: string, parentId: Option<Id>)
    requires Forest(ParentsOf(locations)) && CreateLocation(locations, newId, name, parentId).Ok?
    ensures Forest(ParentsOf(CreateLocation(locations, newId, name, parentId).value))
  {
    var a, b := ParentsOf(locations), ParentsOf(CreateLocation(locations, newId, name, parentId).value);
    forall i | i in a ensures Rooted(b, i) {
      assert Rooted(a, i);
      var path :| IsPath(a, i, path);
      PathExtends(a, b, i, path);
    }
    match parentId
    case None => assert IsPath(b, newId, []);
    case Some(p) =>
      assert p in a && Rooted(b, p);
      var path :| IsPath(b, p, path);
      assert (path + [p])[..|path|] == path;
      assert IsPath(b, newId, path + [p]);
  }

  // ---------- Moves ----------

  /** A path that avoids the moved node is still a path after the move. */
  lemma {:induction false} PathAvoids(parents: Parents, id: Id, to: Option<Id>, node: Id, path: seq<Id>)
    requires IsPath(parents, node, path) && node != id && id !in path
    ensures IsPath(parents[id := to], node, path)
    decreases |path|
  {
    if path != [] { PathAvoids(parents, id, to, path[|path| - 1], path[..|path| - 1]); }
  }

  /** Once the moved node itself has a path again, so has every node that had one. */
  lemma {:induction false} RootedAgain(parents: Parents, id: Id, to: Option<Id>, node: Id, path: seq<Id>)
    requires id in parents && IsPath(parents, node, path) && Rooted(parents[id := to], id)
    ensures Rooted(parents[id := to], node)
    decreases |path|
  {
    if node != id {
      if path == [] {
        assert IsPath(parents[id := to], node, []);
      } else {
        var p := path[|path| - 1];
        RootedAgain(parents, id, to, p, path[..|path| - 1]);
        var q :| IsPath(parents[id := to], p, q);
        assert (q + [p])[..|q|] == q;
        assert IsPath(parents[id := to], node, q + [p]);
      }
    }
  }

  /** From a node of the moved subtree every new path goes through the moved node. */
  lemma {:induction false} ThroughMoved(parents: Parents, id: Id, to: Option<Id>, node: Id, path: seq<Id>, after: seq<Id>)
    requires IsPath(parents, node, path) && id in path && node != id
    requires IsPath(parents[id := to], node, after)
    ensures id in after
    decreases |path|
  {
    var p := path[|path| - 1];
    if p != id {
      assert id in path[..|path| - 1];
      ThroughMoved(parents, id, to, p, path[..|path| - 1], after[..|after| - 1]);
    }
  }

  /** Moving a node of a forest under `to` keeps the forest exactly when `to` is not in the moved subtree. */
  lemma {:induction false} MoveKeepsForestIff(parents: Parents, id: Id, to: Id)
    requires Forest(parents) && id in parents && to in parents
    ensures Forest(parents[id := Some(to)]) <==> !InSubtree(parents, to, id)
  {
    var b := parents[id := Some(to)];
    assert Rooted(parents, to);
    var path :| IsPath(parents, to, path);
    SubtreeIsPath(parents, to, path, id);
    if InSubtree(parents, to, id) {
      if Forest(b) {
        assert Rooted(b, id);
        var loop :| IsPath(b, id, loop);
        PathAcyclic(b, id, loop);
        if to != id { ThroughMoved(parents, id, Some(to), to, path, loop[..|loop| - 1]); }
        assert false;
      }
    } else {
      PathAvoids(parents, id, Some(to), to, path);
      assert (path + [to])[..|path|] == path;
      assert IsPath(b, id, path + [to]);
      forall i | i in b ensures Rooted(b, i) {
        assert Rooted(parents, i);
        var p :| IsPath(parents, i, p);
        RootedAgain(parents, id, Some(to), i, p);
      }
    }
  }

  lemma {:induction false} DetachKeepsForest(parents: Parents, id: Id)
    requires Forest(parents) && id in parents
    ensures Forest(parents[id := None])
  {
    var b := parents[id := None];
    assert IsPath(b, id, []);
    forall i | i in b ensures Rooted(b, i) {
      assert Rooted(parents, i);
      var p :| IsPath(parents, i, p);
      RootedAgain(parents, id, None, i, p);
    }
  }

  /** An update that goes through keeps the forest exactly when it does not move a location into its own subtree. */
  lemma {:induction false} UpdateKeepsForestIff(locations: Locations, id: Id, name: Option<string>, edit: ParentEdit)
    requires Forest(ParentsOf(locations)) && UpdateLocation(locations, id, name, edit).Ok?
    ensures Forest(ParentsOf(UpdateLocation(locations, id, name, edit).value)) <==>
            (edit.MoveTo? ==> !InSubtree(ParentsOf(locations), edit.parentId, id))
  {
    var a, b := ParentsOf(locations), ParentsOf(UpdateLocation(locations, id, name, edit).value);
    match edit
    case Keep => assert a == b;
    case Detach => assert b == a[id := None]; DetachKeepsForest(a, id);
    case MoveTo(p) => assert b == a[id := Some(p)]; MoveKeepsForestIff(a, id, p);
  }

  /** The guard of the code is strictly weaker: moving a root under its own child passes it and makes a cycle. */
  lemma {:induction false} GuardTooWeak()
    ensures var locations := map[1 := Location("district", None), 2 := Location("block", Some(1))];
      && Forest(ParentsOf(locations))
      && UpdateLocation(locations, 1, None, MoveTo(2)).Ok?
      && !Forest(ParentsOf(UpdateLocation(locations, 1, None, MoveTo(2)).value))
  {
    var root := map[1 := Location("district", None)];
    assert IsPath(ParentsOf(root), 1, []);
    CreateKeepsForest(root, 2, "block", Some(1));
    var locations := root[2 := Location("block", Some(1))];
    assert locations == map[1 := Location("district", None), 2 := Location("block", Some(1))];
    var parents := ParentsOf(locations);
    assert Climb(parents, 2, 1) == Some(1);
    assert InSubtree(parents, 2, 1);
    UpdateKeepsForestIff(locations, 1, None, MoveTo(2));
  }

  // ---------- Deletion ----------

  lemma {:induction false} PathRestricted(locations: Locations, top: Id, node: Id, path: seq<Id>)
    requires IsPath(ParentsOf(locations), node, path) && node in WithoutSubtree(locations, top)
    ensures IsPath(ParentsOf(WithoutSubtree(locations, top)), node, path)
    decreases |path|
  {
    if path != [] {
      SubtreeOneUp(ParentsOf(locations), node, top);
      PathRestricted(locations, top, path[|path| - 1], path[..|path| - 1]);
    }
  }

  lemma {:induction false} DeleteKeepsForest(locations: Locations, top: Id)
    requires Forest(ParentsOf(locations))
    ensures Forest(ParentsOf(WithoutSubtree(locations, top)))
  {
    var b := ParentsOf(WithoutSubtree(locations, top));
    forall i | i in b ensures Rooted(b, i) {
      assert Rooted(ParentsOf(locations), i);
      var path :| IsPath(ParentsOf(locations), i, path);
      PathRestricted(locations, top, i, path);
    }
  }

  lemma {:induction false} DeleteKeepsClosed(locations: Locations, top: Id)
    requires Closed(ParentsOf(locations))
    ensures Closed(ParentsOf(WithoutSubtree(locations, top)))
  {
    var a, b := ParentsOf(locations), ParentsOf(WithoutSubtree(locations, top));
    forall i | i in b && b[i].Some? ensures b[i].value in b { SubtreeOneUp(a, i, top); }
  }

  /** A set of locations that holds the parents of its members is not below anything it lacks. */
  lemma {:induction false} KeptAbove(parents: Parents, kept: set<Id>, x: Id, top: Id)
    requires x in kept && top !in kept
    requires forall y | y in kept :: y in parents && (parents[y].Some? ==> parents[y].value in kept)
    ensures !InSubtree(parents, x, top)
  {
    forall n: nat ensures Climb(parents, x, n) != Some(top) { KeptClimb(parents, kept, x, n); }
  }

  lemma {:induction false} KeptClimb(parents: Parents, kept: set<Id>, x: Id, n: nat)
    requires x in kept
    requires forall y | y in kept :: y in parents && (parents[y].Some? ==> parents[y].value in kept)
    ensures Climb(parents, x, n).Some? ==> Climb(parents, x, n).value in kept
    decreases n
  {
    if n > 0 && parents[x].Some? { KeptClimb(parents, kept, parents[x].value, n - 1); }
  }

  // ---------- Runs ----------

  datatype LifeCall =
    | CreateCall(newId: Id, name: string, parentId: Option<Id>)
    | UpdateCall(id: Id, newName: Option<string>, edit: ParentEdit)
    | DeleteCall(id: Id)

  ghost function Next(locations: Locations, c: LifeCall): Locations {
    match c
    case CreateCall(newId, name, parentId) =>
      (match CreateLocation(locations, newId, name, parentId) case Ok(l) => l case Err(_) => locations)
    case UpdateCall(id, name, edit) =>
      (match UpdateLocation(locations, id, name, edit) case Ok(l) => l case Err(_) => locations)
    case DeleteCall(id) => if id in locations then WithoutSubtree(locations, id) else locations
  }

  ghost function Run(calls: seq<LifeCall>): Locations {
    if calls == [] then map[] else Next(Run(calls[..|calls| - 1]), calls[|calls| - 1])
  }

  /** A call that is carried out does not move a location into its own subtree. */
  ghost predicate Sound(locations: Locations, c: LifeCall) {
    c.UpdateCall? && c.edit.MoveTo? && UpdateLocation(locations, c.id, c.newName, c.edit).Ok? ==>
      !InSubtree(ParentsOf(locations), c.edit.parentId, c.id)
  }

  /** One call takes a forest to a forest exactly when it is sound. */
  lemma {:induction false} StepKeepsForestIff(locations: Locations, c: LifeCall)
    requires Forest(ParentsOf(locations))
    ensures Forest(ParentsOf(Next(locations, c))) <==> Sound(locations, c)
  {
    match c
    case CreateCall(newId, name, parentId) =>
      if CreateLocation(locations, newId, name, parentId).Ok? { CreateKeepsForest(locations, newId, name, parentId); }
    case UpdateCall(id, name, edit) =>
      if UpdateLocation(locations, id, name, edit).Ok? { UpdateKeepsForestIff(locations, id, name, edit); }
    case DeleteCall(id) => DeleteKeepsForest(locations, id);
  }

  ghost predicate ForestAt(calls: seq<LifeCall>, i: nat)
    requires i <= |calls|
  {
    Forest(ParentsOf(Run(calls[..i])))
  }

  ghost predicate SoundAt(calls: seq<LifeCall>, i: nat)
    requires i < |calls|
  {
    Sound(Run(calls[..i]), calls[i])
  }

  lemma RunPrefix(calls: seq<LifeCall>, i: nat)
    requires i < |calls|
    ensures Run(calls[..i + 1]) == Next(Run(calls[..i]), calls[i])
  {
    assert calls[..i + 1][..i] == calls[..i];
  }

  /** Over a run the hierarchy is a forest all along exactly when no carried-out move enters the moved subtree. */
  lemma {:induction false} ForestThroughoutIff(calls: seq<LifeCall>)
    ensures (forall i | 0 <= i <= |calls| :: ForestAt(calls, i)) <==> (forall i | 0 <= i < |calls| :: SoundAt(calls, i))
  {
    if forall i | 0 <= i <= |calls| :: ForestAt(calls, i) {
      forall i | 0 <= i < |calls| ensures SoundAt(calls, i) {
        assert ForestAt(calls, i) && ForestAt(calls, i + 1);
        RunPrefix(calls, i);
        StepKeepsForestIff(Run(calls[..i]), calls[i]);
      }
    }
    if forall i | 0 <= i < |calls| :: SoundAt(calls, i) {
      forall i | 0 <= i <= |calls| ensures ForestAt(calls, i) { SoundSoFar(calls, i); }
    }
  }

  lemma {:induction false} SoundSoFar(calls: seq<LifeCall>, i: nat)
    requires i <= |calls| && forall j | 0 <= j < |calls| :: SoundAt(calls, j)
    ensures ForestAt(calls, i)
    decreases i
  {
    if i > 0 {
      SoundSoFar(calls, i - 1);
      assert SoundAt(calls, i - 1);
      RunPrefix(calls, i - 1);
      StepKeepsForestIff(Run(calls[..i - 1]), calls[i - 1]);
    }
  }

  lemma {:induction false} StepKeepsClosed(locations: Locations, c: LifeCall)
    requires Closed(ParentsOf(locations))
    ensures Closed(ParentsOf(Next(locations, c)))
  {
    var a, b := ParentsOf(locations), ParentsOf(Next(locations, c));
    if c.DeleteCall? {
      DeleteKeepsClosed(locations, c.id);
    } else {
      forall i | i in b && b[i].Some? ensures b[i].value in b { assert i in a && a[i] == b[i] ==> a[i].value in a; }
    }
  }

  /** Whatever the calls do, cycles included, every parent is there. */
  lemma {:induction false} ReachableClosed(calls: seq<LifeCall>)
    ensures Closed(ParentsOf(Run(calls)))
  {
    if calls != [] {
      ReachableClosed(calls[..|calls| - 1]);
      var l, c := Run(calls[..|calls| - 1]), calls[|calls| - 1];
      StepKeepsClosed(l, c);
    }
  }

  // ---------- When climbing ends ----------

  predicate AtRoot(parents: Parents, node: Id) {
    node in parents && parents[node].None?
  }

  predicate ReachesRoot(parents: Parents, node: Id, n: nat) {
    Climb(parents, node, n).Some? && AtRoot(parents, Climb(parents, node, n).value)
  }

  /** Climbing reaches a root after some number of steps from exactly the rooted nodes: elsewhere it never does. */
  lemma {:induction false} ClimbEndsIffRooted(parents: Parents, node: Id)
    ensures Rooted(parents, node) <==> exists n: nat :: ReachesRoot(parents, node, n)
  {
    if Rooted(parents, node) {
      var path :| IsPath(parents, node, path);
      RootedClimbs(parents, node, path);
      assert ReachesRoot(parents, node, |path|);
    }
    if exists n: nat :: ReachesRoot(parents, node, n) {
      var n: nat :| ReachesRoot(parents, node, n);
      ClimbsRooted(parents, node, n, Climb(parents, node, n).value);
    }
  }

  lemma {:induction false} RootedClimbs(parents: Parents, node: Id, path: seq<Id>)
    requires IsPath(parents, node, path)
    ensures ReachesRoot(parents, node, |path|)
    decreases |path|
  {
    if path != [] { RootedClimbs(parents, path[|path| - 1], path[..|path| - 1]); }
  }

  /** What climbs to a rooted node is rooted. */
  lemma {:induction false} ClimbsRooted(parents: Parents, node: Id, n: nat, top: Id)
    requires Climb(parents, node, n) == Some(top) && (AtRoot(parents, top) || Rooted(parents, top))
    ensures Rooted(parents, node)
    decreases n
  {
    if n == 0 {
      if AtRoot(parents, node) { assert IsPath(parents, node, []); }
    } else {
      var p := parents[node].value;
      ClimbsRooted(parents, p, n - 1, top);
      var path :| IsPath(parents, p, path);
      assert (path + [p])[..|path|] == path;
      assert IsPath(parents, node, path + [p]);
    }
  }
}

/** Which calls on the hierarchy are carried out, what refusals mean, and that locations are as the calls left them. */
module LifeHistory {
  import opened Basics
  import opened Paths
  import opened LifeModel

  /** A location goes under an existing one or under none; never directly under itself. */
  lemma AdmissionIff(locations: Locations, newId: Id, name: string, parentId: Option<Id>, id: Id, newName: Option<string>, edit: ParentEdit)
    ensures CreateLocation(locations, newId, name, parentId).Ok? <==>
      newId !in locations && (parentId.None? || parentId.value in locations)
    ensures UpdateLocation(locations, id, newName, edit).Ok? <==>
      id in locations && (edit.MoveTo? ==> edit.parentId in locations && edit.parentId != id)
  {
  }

  /** What a refusal reports is the case. */
  lemma RefusalsTruthful(locations: Locations, newId: Id, name: string, parentId: Option<Id>, id: Id, newName: Option<string>, edit: ParentEdit)
    ensures match CreateLocation(locations, newId, name, parentId)
      case Ok(_) => true
      case Err(ParentNotFound) => parentId.Some? && parentId.value !in locations
      case Err(UniqueViolation) => newId in locations
      case Err(_) => false
    ensures match UpdateLocation(locations, id, newName, edit)
      case Ok(_) => true
      case Err(LocationNotFound) => id !in locations
      case Err(OwnParent) => edit == MoveTo(id)
      case Err(ParentNotFound) => edit.MoveTo? && edit.parentId !in locations
      case Err(_) => false
  {
  }

  /** The location as the calls that were carried out left it: made with name and parent, then edited field by field. */
  ghost function LastLeft(calls: seq<LifeCall>, id: Id): Option<Location> {
    if calls == [] then None
    else
      var before, c := calls[..|calls| - 1], calls[|calls| - 1];
      var l, was := Run(before), LastLeft(before, id);
      match c
      case CreateCall(newId, name, parentId) =>
        if newId == id && CreateLocation(l, newId, name, parentId).Ok? then Some(Location(name, parentId)) else was
      case UpdateCall(edited, newName, edit) =>
        if edited != id || UpdateLocation(l, edited, newName, edit).Err? || was.None? then was
        else
          var name := match newName case None => was.value.name case Some(n) => n;
          var parentId := match edit case Keep => was.value.parentId case Detach => None case MoveTo(p) => Some(p);
          Some(Location(name, parentId))
      case DeleteCall(gone) => if gone in l && InSubtree(ParentsOf(l), id, gone) then None else was
  }

  /** In every run the table holds exactly the locations the calls left, as they left them. */
  lemma {:induction false} AsLastLeft(calls: seq<LifeCall>, id: Id)
    ensures (if id in Run(calls) then Some(Run(calls)[id]) else None) == LastLeft(calls, id)
  {
    if calls != [] { AsLastLeft(calls[..|calls| - 1], id); }
  }
}

/** The server's walkers over parent links, with the loops of the source. */
module PathResolvers {
  import opened Common
  import opened Forest
  import opened LocationModel

  lemma ChainCoversTrail(parents: Parents, containers: map<ContainerId, Container>, area: AreaId, c: ContainerId,
                         trail: seq<ContainerId>, path: seq<ContainerId>)
    requires Trail(parents, c, trail) && Chain(parents, containers, area, c, path)
    ensures forall i | 0 <= i < |trail| :: Usable(containers, area, trail[i])
  {
    TrailFollowsClimb(parents, c, trail, path);
  }

  // Where a climb breaks off, no chain exists.
  lemma BrokenTrail(parents: Parents, containers: map<ContainerId, Container>, area: AreaId, c: ContainerId, trail: seq<ContainerId>)
    requires Trail(parents, c, trail)
    requires !Usable(containers, area, trail[|trail| - 1]) || !Climbs(parents, c)
    ensures !HasChain(parents, containers, area, c)
  {
    if HasChain(parents, containers, area, c) {
      ChainCoversTrail(parents, containers, area, c, trail, ChainOf(parents, containers, area, c));
    }
  }

  lemma EndedTrail(parents: Parents, containers: map<ContainerId, Container>, area: AreaId, c: ContainerId, trail: seq<ContainerId>)
    requires Trail(parents, c, trail) && trail[|trail| - 1] !in parents
    requires forall i | 0 <= i < |trail| :: Usable(containers, area, trail[i])
    ensures HasChain(parents, containers, area, c) && ChainOf(parents, containers, area, c) == trail
  {
    ClimbIsEndedTrail(parents, c, trail);
    ChainIsUnique(parents, containers, area, c, trail);
  }

  // resolve_item_location
  method ResolveItemLocation(db: Db, access: set<Workspace>, item: ItemId, p: Destination) returns (r: Result<string, Error>)
    ensures r == ResolveOne(db, access, item, p)
    ensures r == Err(NotFound) <==> item !in db.items || db.items[item].archived
    ensures r == Err(AccessDenied) <==> item in db.items && !db.items[item].archived && db.items[item].workspace !in access
    ensures item in db.items && !db.items[item].archived && db.items[item].workspace in access ==>
              forall text :: r == Ok(text) <==> ShownAs(db, db.items[item].workspace, p, text)
  {
    forall workspace, text ensures PlacementPath(db, workspace, p) == Ok(text) <==> ShownAs(db, workspace, p, text) {
      PlacementPathMeans(db, workspace, p, text);
    }
    if item !in db.items || db.items[item].archived {
      return Err(NotFound);
    }
    var workspace := db.items[item].workspace;
    if workspace !in access {
      return Err(AccessDenied);
    }
    if p.area.Some? {
      var area := Get(db.areas, p.area);
      if area.None? || area.value.workspace != workspace {
        return Err(Invalid);
      }
      return Ok(area.value.name);
    }
    if p.zone.Some? {
      var zone := Get(db.zones, p.zone);
      var area := if zone.Some? then Get(db.areas, Some(zone.value.area)) else None;
      if zone.None? || area.None? || area.value.workspace != workspace {
        return Err(Invalid);
      }
      return Ok(area.value.name + " > " + zone.value.name);
    }
    var container := Get(db.containers, p.container);
    if container.None? || container.value.archived {
      return Err(Invalid);
    }
    var start, areaId := p.container.value, container.value.area;
    var area := Get(db.areas, Some(areaId));
    if area.None? || area.value.workspace != workspace {
      return Err(Invalid);
    }
    var zone := Get(db.zones, container.value.zone);
    if zone.Some? && zone.value.area != areaId {
      return Err(Invalid);
    }
    var names, visited, cursor := [container.value.name], {start}, start;
    ghost var trail := [start];
    while cursor in db.nesting
      invariant Trail(db.nesting, start, trail) && Distinct(trail) && trail[|trail| - 1] == cursor
      invariant forall x :: x in visited <==> x in trail
      invariant forall i | 0 <= i < |trail| :: Usable(db.containers, areaId, trail[i])
      invariant names == NamesOf(db.containers, trail)
      decreases |db.nesting| + 1 - |trail|
    {
      var parentId := db.nesting[cursor];
      if parentId in visited {
        RepeatMeansNoClimb(db.nesting, start, trail);
        BrokenTrail(db.nesting, db.containers, areaId, start, trail);
        return Err(Invalid);
      }
      visited := visited + {parentId};
      ExtendTrail(db.nesting, start, trail);
      trail := trail + [parentId];
      TrailIsShort(db.nesting, start, trail);
      var parent := Get(db.containers, Some(parentId));
      if parent.None? || parent.value.archived || parent.value.area != areaId {
        BrokenTrail(db.nesting, db.containers, areaId, start, trail);
        return Err(Invalid);
      }
      names := names + [parent.value.name];
      cursor := parentId;
    }
    EndedTrail(db.nesting, db.containers, areaId, start, trail);
    return Ok(PathText(area.value, zone, names));
  }

  // container_path inside resolve_item_locations
  method LoadedContainerWalk(l: Loaded, id: ContainerId) returns (r: Result<string, Error>)
    requires forall c | c in l.containers :: !l.containers[c].archived
    ensures r == LoadedContainerPath(l, id)
  {
    if id !in l.containers || l.containers[id].area !in l.areas {
      return Err(Invalid);
    }
    var areaId := l.containers[id].area;
    var zone := Get(l.zones, l.containers[id].zone);
    if zone.Some? && zone.value.area != areaId {
      return Err(Invalid);
    }
    var names: seq<string>, visited: set<ContainerId>, cursor := [], {}, Some(id);
    ghost var trail: seq<ContainerId> := [];
    while cursor.Some?
      invariant trail == [] ==> cursor == Some(id)
      invariant trail != [] ==> Trail(l.parents, id, trail) && cursor == Get(l.parents, Some(trail[|trail| - 1]))
      invariant Distinct(trail)
      invariant forall x :: x in visited <==> x in trail
      invariant forall i | 0 <= i < |trail| :: Usable(l.containers, areaId, trail[i])
      invariant names == NamesOf(l.containers, trail)
      decreases |l.parents| + 1 - |trail|, cursor.Some?
    {
      if cursor.value in visited {
        RepeatMeansNoClimb(l.parents, id, trail);
        BrokenTrail(l.parents, l.containers, areaId, id, trail);
        return Err(Invalid);
      }
      visited := visited + {cursor.value};
      if trail != [] {
        ExtendTrail(l.parents, id, trail);
      }
      trail := trail + [cursor.value];
      TrailIsShort(l.parents, id, trail);
      var current := Get(l.containers, cursor);
      if current.None? || current.value.area != areaId {
        BrokenTrail(l.parents, l.containers, areaId, id, trail);
        return Err(Invalid);
      }
      names := names + [current.value.name];
      cursor := Get(l.parents, cursor);
    }
    EndedTrail(l.parents, l.containers, areaId, id, trail);
    return Ok(PathText(l.areas[areaId], zone, names));
  }

  // All placements in turn; a later entry for the same id replaces an earlier one.
  ghost function ResolveMany(l: Loaded, ps: seq<(nat, Destination)>): Result<map<nat, string>, Error> {
    if ps == [] then Ok(map[])
    else
      var before := ResolveMany(l, ps[..|ps| - 1]);
      var (id, p) := ps[|ps| - 1];
      var path := LoadedPath(l, p);
      if before.Err? || path.Err? then Err(Invalid) else Ok(before.value[id := path.value])
  }

  // The list resolves exactly when each placement does, and then every id has
  // the path of its last entry.
  lemma {:induction false} ResolveManyMeans(l: Loaded, ps: seq<(nat, Destination)>)
    ensures ResolveMany(l, ps).Ok? <==> forall i | 0 <= i < |ps| :: LoadedPath(l, ps[i].1).Ok?
    ensures ResolveMany(l, ps).Ok? ==>
      forall i | 0 <= i < |ps| && LastEntry(ps, i) ::
        ps[i].0 in ResolveMany(l, ps).value && LoadedPath(l, ps[i].1) == Ok(ResolveMany(l, ps).value[ps[i].0])
  {
    if ps != [] {
      var n := |ps| - 1;
      ResolveManyMeans(l, ps[..n]);
      assert forall i | 0 <= i < n :: ps[..n][i] == ps[i];
      if ResolveMany(l, ps).Ok? {
        forall i | 0 <= i < n && LastEntry(ps, i) ensures LastEntry(ps[..n], i) && ps[i].0 != ps[n].0 {
        }
      }
    }
  }

  predicate LastEntry(ps: seq<(nat, Destination)>, i: int)
    requires 0 <= i < |ps|
  {
    forall j | i < j < |ps| :: ps[j].0 != ps[i].0
  }

  lemma {:induction false} OneFailureFailsAll(l: Loaded, ps: seq<(nat, Destination)>, n: nat)
    requires n < |ps| && LoadedPath(l, ps[n].1).Err?
    ensures ResolveMany(l, ps) == Err(Invalid)
  {
    if n < |ps| - 1 {
      OneFailureFailsAll(l, ps[..|ps| - 1], n);
    }
  }

  // resolve_item_locations
  method ResolveItemLocations(db: Db, access: set<Workspace>, workspace: Workspace, ps: seq<(nat, Destination)>)
    returns (r: Result<map<nat, string>, Error>)
    ensures r == if workspace !in access then Err(AccessDenied) else ResolveMany(Load(db, workspace), ps)
  {
    if workspace !in access {
      return Err(AccessDenied);
    }
    var l := Load(db, workspace);
    var paths: map<nat, string> := map[];
    for n := 0 to |ps|
      invariant ResolveMany(l, ps[..n]) == Ok(paths)
    {
      var (id, p) := ps[n];
      var path := ResolveLoaded(l, p);
      if path.Err? {
        OneFailureFailsAll(l, ps, n);
        return Err(Invalid);
      }
      assert ps[..n + 1][..n] == ps[..n];
      paths := paths[id := path.value];
    }
    assert ps[..|ps|] == ps;
    return Ok(paths);
  }

  // The body of the loop over placements.
  method ResolveLoaded(l: Loaded, p: Destination) returns (path: Result<string, Error>)
    requires forall c | c in l.containers :: !l.containers[c].archived
    ensures path == LoadedPath(l, p)
  {
    if p.area.Some? {
      path := if p.area.value in l.areas then Ok(l.areas[p.area.value].name) else Err(Invalid);
    } else if p.zone.Some? {
      var zone := Get(l.zones, p.zone);
      var area := if zone.Some? then Get(l.areas, Some(zone.value.area)) else None;
      path := if zone.None? || area.None? then Err(Invalid) else Ok(area.value.name + " > " + zone.value.name);
    } else if p.container.Some? {
      path := LoadedContainerWalk(l, p.container.value);
    } else {
      path := Err(Invalid);
    }
  }

  ghost predicate WithinClimb(l: Loaded, id: ContainerId, path: seq<ContainerId>) {
    Climb(l.parents, id, path) && forall i | 0 <= i < |path| :: path[i] in l.containers
  }

  ghost predicate ClimbsWithin(l: Loaded, id: ContainerId) {
    exists path :: WithinClimb(l, id, path)
  }

  // path_for inside search_containers: no check of areas, and a zone of
  // another area is shown as it is.
  method PathFor(l: Loaded, id: ContainerId) returns (r: Result<string, Error>)
    requires id in l.containers && l.containers[id].area in l.areas
    ensures r == Err(Invalid) <==> !ClimbsWithin(l, id)
    ensures forall path | WithinClimb(l, id, path) ::
              var zone := l.containers[id].zone;
              var names := seq(|path|, i requires 0 <= i < |path| && path[i] in l.containers => l.containers[path[i]].name);
              r == Ok(PathText(l.areas[l.containers[id].area],
                               if zone.Some? && zone.value in l.zones then Some(l.zones[zone.value]) else None, names))
  {
    var names: seq<string>, visited: set<ContainerId>, cursor := [], {}, Some(id);
    ghost var trail: seq<ContainerId> := [];
    while cursor.Some?
      invariant trail == [] ==> cursor == Some(id)
      invariant trail != [] ==> Trail(l.parents, id, trail) && cursor == Get(l.parents, Some(trail[|trail| - 1]))
      invariant Distinct(trail)
      invariant forall x :: x in visited <==> x in trail
      invariant forall i | 0 <= i < |trail| :: trail[i] in l.containers
      invariant names == NamesOf(l.containers, trail)
      decreases |l.parents| + 1 - |trail|, cursor.Some?
    {
      if cursor.value in visited || cursor.value !in l.containers {
        SearchBreaks(l, id, trail, cursor.value);
        return Err(Invalid);
      }
      if trail != [] {
        ExtendTrail(l.parents, id, trail);
      }
      visited := visited + {cursor.value};
      trail := trail + [cursor.value];
      TrailIsShort(l.parents, id, trail);
      names := names + [l.containers[cursor.value].name];
      cursor := Get(l.parents, cursor);
    }
    ClimbIsEndedTrail(l.parents, id, trail);
    assert WithinClimb(l, id, trail);
    forall path | WithinClimb(l, id, path)
      ensures path == trail && names == seq(|path|, i requires 0 <= i < |path| && path[i] in l.containers => l.containers[path[i]].name)
    {
      ClimbUnique(l.parents, id, path, trail);
    }
    return Ok(PathText(l.areas[l.containers[id].area], Get(l.zones, l.containers[id].zone), names));
  }

  lemma SearchBreaks(l: Loaded, id: ContainerId, trail: seq<ContainerId>, next: ContainerId)
    requires trail != [] ==> Trail(l.parents, id, trail) && Get(l.parents, Some(trail[|trail| - 1])) == Some(next)
    requires trail == [] ==> next == id
    requires Distinct(trail)
    requires next in trail || next !in l.containers
    ensures !ClimbsWithin(l, id)
  {
    if next in trail {
      RepeatMeansNoClimb(l.parents, id, trail);
    } else if ClimbsWithin(l, id) {
      var path :| WithinClimb(l, id, path);
      var longer := trail + [next];
      assert longer[|trail|] == next && Trail(l.parents, id, longer);
      TrailFollowsClimb(l.parents, id, longer, path);
    }
  }
}

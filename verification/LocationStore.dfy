/** The requests that change locations and item placements, served one after
    the other.  access is the set of workspaces the caller may use; new row ids
    are chosen by the caller of the method, as the database default would. */
module LocationStore {
  import opened Common
  import opened Forest
  import opened LocationModel
  import opened LocationInvariant
  import opened PathResolvers

  datatype Walk = Clear | WouldClose | AlreadyCyclic

  // The ancestor walk of place_container, on any stored links.
  method CheckAncestors(parents: Parents, child: ContainerId, parent: ContainerId) returns (r: Walk)
    ensures r == Clear <==> exists up :: Climb(parents, parent, up) && child !in up
    ensures r == WouldClose <==> exists trail :: Trail(parents, parent, trail) && trail[|trail| - 1] == child
  {
    var ancestor, visited := Some(parent), {};
    ghost var trail: seq<ContainerId> := [];
    while ancestor.Some?
      invariant trail == [] ==> ancestor == Some(parent)
      invariant trail != [] ==> Trail(parents, parent, trail) && ancestor == Get(parents, Some(trail[|trail| - 1]))
      invariant Distinct(trail) && child !in trail
      invariant forall x :: x in visited <==> x in trail
      decreases |parents| + 1 - |trail|, ancestor.Some?
    {
      var next := trail + [ancestor.value];
      assert Trail(parents, parent, next);
      if ancestor.value == child {
        assert next[|next| - 1] == child;
        forall up | Climb(parents, parent, up) ensures child in up {
          TrailFollowsClimb(parents, parent, next, up);
          assert up[|trail|] == child;
        }
        return WouldClose;
      }
      if ancestor.value in visited {
        RepeatMeansNoClimb(parents, parent, trail);
        LoopNeverLeaves(parents, parent, trail);
        return AlreadyCyclic;
      }
      visited := visited + {ancestor.value};
      trail := next;
      TrailIsShort(parents, parent, trail);
      ancestor := Get(parents, ancestor);
    }
    ClimbIsEndedTrail(parents, parent, trail);
    forall other | Trail(parents, parent, other) ensures other[|other| - 1] != child {
      TrailFollowsClimb(parents, parent, other, trail);
    }
    return Clear;
  }

  // Once a walk has come back to its own trail it only sees that trail again.
  lemma LoopNeverLeaves(parents: Parents, start: ContainerId, trail: seq<ContainerId>)
    requires Trail(parents, start, trail)
    requires trail[|trail| - 1] in parents && parents[trail[|trail| - 1]] in trail
    ensures forall other | Trail(parents, start, other) :: other[|other| - 1] in trail
  {
    forall other | Trail(parents, start, other) ensures other[|other| - 1] in trail {
      StaysOnLoop(parents, start, trail, other);
    }
  }

  lemma {:induction false} StaysOnLoop(parents: Parents, start: ContainerId, trail: seq<ContainerId>, other: seq<ContainerId>)
    requires Trail(parents, start, trail) && Trail(parents, start, other)
    requires trail[|trail| - 1] in parents && parents[trail[|trail| - 1]] in trail
    ensures other[|other| - 1] in trail
    decreases |other|
  {
    if |other| > 1 {
      var shorter := other[..|other| - 1];
      assert Trail(parents, start, shorter);
      StaysOnLoop(parents, start, trail, shorter);
      var i :| 0 <= i < |trail| && trail[i] == shorter[|shorter| - 1];
      assert parents[other[|other| - 2]] == other[|other| - 1];
      if i < |trail| - 1 {
        assert trail[i + 1] == other[|other| - 1];
      }
    }
  }

  // The destination is stored and lies in the workspace: the area itself, the
  // area of the zone, or the area of the container.
  ghost predicate LiesIn(db: Db, p: Destination, workspace: Workspace) {
    && (p.area.Some? ==> p.area.value in db.areas && db.areas[p.area.value].workspace == workspace)
    && (p.zone.Some? ==>
          && p.zone.value in db.zones && db.zones[p.zone.value].area in db.areas
          && db.areas[db.zones[p.zone.value].area].workspace == workspace)
    && (p.container.Some? ==>
          && p.container.value in db.containers && db.containers[p.container.value].area in db.areas
          && db.areas[db.containers[p.container.value].area].workspace == workspace)
  }

  ghost predicate LiesSomewhere(db: Db, p: Destination) {
    exists workspace :: LiesIn(db, p, workspace)
  }

  lemma DestinationLies(db: Db, p: Destination)
    requires OneTarget(p)
    ensures DestinationWorkspace(db, p).Ok? <==> LiesSomewhere(db, p)
    ensures forall workspace: Workspace :: LiesIn(db, p, workspace) <==> DestinationWorkspace(db, p) == Ok(workspace)
  {
    if DestinationWorkspace(db, p).Ok? {
      assert LiesIn(db, p, DestinationWorkspace(db, p).value);
    }
  }

  // after has the rows of before with the keys in kept, as they were.
  ghost predicate Left<V>(before: map<nat, V>, after: map<nat, V>, kept: set<nat>) {
    after.Keys == kept && forall k | k in after :: k in before && after[k] == before[k]
  }

  // The container is gone, with its links and what was placed in it.
  ghost predicate ContainerGone(before: Db, after: Db, id: ContainerId) {
    && after.areas == before.areas && after.zones == before.zones && after.items == before.items
    && Left(before.containers, after.containers, before.containers.Keys - {id})
    && Left(before.nesting, after.nesting, set c | c in before.nesting && c != id && before.nesting[c] != id)
    && Left(before.placements, after.placements, set i | i in before.placements && before.placements[i].container != Some(id))
  }

  // The destination is the area, or a zone or container of it.
  ghost predicate LiesInArea(db: Db, p: Destination, area: AreaId) {
    || p.area == Some(area)
    || (p.zone.Some? && p.zone.value in db.zones && db.zones[p.zone.value].area == area)
    || (p.container.Some? && p.container.value in db.containers && db.containers[p.container.value].area == area)
  }

  // The area is gone with its zones, its containers, and what was placed in any of them.
  ghost predicate AreaGone(before: Db, after: Db, id: AreaId) {
    && after.items == before.items
    && Left(before.areas, after.areas, before.areas.Keys - {id})
    && Left(before.zones, after.zones, set z | z in before.zones && before.zones[z].area != id)
    && Left(before.containers, after.containers, set c | c in before.containers && before.containers[c].area != id)
    && Left(before.nesting, after.nesting, set c | c in before.nesting && c in before.containers && before.containers[c].area != id)
    && Left(before.placements, after.placements, set i | i in before.placements && !LiesInArea(before, before.placements[i], id))
  }

  lemma ContainerIsGone(db: Db, id: ContainerId)
    ensures ContainerGone(db, WithoutContainer(db, id), id)
  {
  }

  lemma AreaIsGone(db: Db, id: AreaId)
    requires Sound(db)
    ensures AreaGone(db, WithoutArea(db, id), id)
  {
    forall i | i in db.placements
      ensures LiesInArea(db, db.placements[i], id) <==> Targets(db.placements[i], {id}, ZonesOf(db, id), ContainersOf(db, id))
    {
    }
  }

  class Store {
    var areas: map<AreaId, Area>
    var zones: map<ZoneId, Zone>
    var containers: map<ContainerId, Container>
    var nesting: Parents
    var items: map<ItemId, Item>
    var placements: map<ItemId, Destination>

    function Rows(): Db
      reads this
    {
      Db(areas, zones, containers, nesting, items, placements)
    }

    constructor ()
      ensures Rows() == Db(map[], map[], map[], map[], map[], map[]) && Sound(Rows())
    {
      areas, zones, containers, nesting, items, placements := map[], map[], map[], map[], map[], map[];
      new;
      forall c: ContainerId ensures Climbs(nesting, c) {
        assert Climb(nesting, c, [c]);
      }
    }

    method CreateArea(access: set<Workspace>, id: AreaId, workspace: Workspace, name: string) returns (r: Result<(), Error>)
      requires Sound(Rows()) && id !in areas
      modifies this
      ensures Sound(Rows()) && (r.Ok? <==> workspace in access) && (r.Err? ==> r.error == AccessDenied)
      ensures Rows() == if r.Ok? then old(Rows()).(areas := old(areas)[id := Area(workspace, name)]) else old(Rows())
    {
      if workspace !in access {
        return Err(AccessDenied);
      }
      areas := areas[id := Area(workspace, name)];
      return Ok(());
    }

    method CreateZone(access: set<Workspace>, id: ZoneId, area: AreaId, name: string) returns (r: Result<(), Error>)
      requires Sound(Rows()) && id !in zones
      modifies this
      ensures Sound(Rows()) && (r.Ok? <==> area in areas && areas[area].workspace in access)
      ensures r.Err? ==> r.error == (if area in areas then AccessDenied else NotFound)
      ensures Rows() == if r.Ok? then old(Rows()).(zones := old(zones)[id := Zone(area, name)]) else old(Rows())
    {
      if area !in areas {
        return Err(NotFound);
      }
      if areas[area].workspace !in access {
        return Err(AccessDenied);
      }
      zones := zones[id := Zone(area, name)];
      return Ok(());
    }

    predicate ZoneInArea(zone: Option<ZoneId>, area: AreaId)
      reads this
    {
      zone.Some? ==> zone.value in zones && zones[zone.value].area == area
    }

    method CreateContainer(access: set<Workspace>, id: ContainerId, area: AreaId, zone: Option<ZoneId>, name: string, code: string)
      returns (r: Result<(), Error>)
      requires Sound(Rows()) && id !in containers
      modifies this
      ensures Sound(Rows())
      ensures r.Ok? <==> area in areas && areas[area].workspace in access && old(ZoneInArea(zone, area))
      ensures r.Err? ==>
        r.error == (if area !in areas then NotFound
                    else if areas[area].workspace !in access then AccessDenied
                    else if zone.value !in zones then NotFound else Invalid)
      ensures Rows() == if r.Ok? then old(Rows()).(containers := old(containers)[id := Container(area, zone, name, code, false)])
                        else old(Rows())
    {
      if area !in areas {
        return Err(NotFound);
      }
      if areas[area].workspace !in access {
        return Err(AccessDenied);
      }
      if zone.Some? {
        if zone.value !in zones {
          return Err(NotFound);
        }
        if zones[zone.value].area != area {
          return Err(Invalid);
        }
      }
      containers := containers[id := Container(area, zone, name, code, false)];
      return Ok(());
    }

    // The zone may change without the containers inside following.
    method UpdateContainer(access: set<Workspace>, id: ContainerId, zone: Option<ZoneId>, name: string) returns (r: Result<(), Error>)
      requires Sound(Rows())
      modifies this
      ensures Sound(Rows())
      ensures r.Ok? <==>
        && id in old(containers)
        && old(areas[containers[id].area].workspace) in access
        && old(ZoneInArea(zone, containers[id].area))
      ensures r.Err? ==>
        r.error == old(if id !in containers then NotFound
                       else if areas[containers[id].area].workspace !in access then AccessDenied
                       else if zone.Some? && zone.value in zones then Invalid else NotFound)
      ensures Rows() == if r.Ok? then old(Rows()).(containers := old(containers)[id := old(containers)[id].(zone := zone, name := name)])
                        else old(Rows())
    {
      if id !in containers {
        return Err(NotFound);
      }
      var container := containers[id];
      if areas[container.area].workspace !in access {
        return Err(AccessDenied);
      }
      if zone.Some? {
        if zone.value !in zones {
          return Err(NotFound);
        }
        if zones[zone.value].area != container.area {
          return Err(Invalid);
        }
      }
      containers := containers[id := container.(zone := zone, name := name)];
      return Ok(());
    }

    // Accepts exactly the moves within one area and zone that keep the nesting
    // free of cycles.
    method PlaceContainer(access: set<Workspace>, child: ContainerId, parent: ContainerId) returns (r: Result<(), Error>)
      requires Sound(Rows())
      modifies this
      ensures Sound(Rows())
      ensures r.Ok? <==>
        && child in containers && parent in containers
        && areas[containers[child].area].workspace in access
        && containers[parent].area == containers[child].area && containers[parent].zone == containers[child].zone
        && Acyclic(old(nesting)[child := parent])
      ensures r == Err(NotFound) <==> child !in containers || parent !in containers
      ensures r == Err(AccessDenied) <==>
        child in containers && parent in containers && areas[containers[child].area].workspace !in access
      ensures Rows() == if r.Ok? then old(Rows()).(nesting := old(nesting)[child := parent]) else old(Rows())
    {
      if child !in containers || containers[child].archived || parent !in containers || containers[parent].archived {
        return Err(NotFound);
      }
      var area, parentArea := areas[containers[child].area], areas[containers[parent].area];
      if area.workspace !in access {
        return Err(AccessDenied);
      }
      if parentArea.workspace != area.workspace || containers[parent].area != containers[child].area {
        return Err(Invalid);
      }
      if containers[parent].zone != containers[child].zone {
        return Err(Invalid);
      }
      var walk := CheckAncestors(nesting, child, parent);
      assert Climbs(nesting, parent);
      ghost var up :| Climb(nesting, parent, up);
      LinkAcyclic(nesting, child, parent, up);
      if walk != Clear {
        return Err(Invalid);
      }
      ghost var clear :| Climb(nesting, parent, clear) && child !in clear;
      ClimbUnique(nesting, parent, up, clear);
      LinkKeepsSound(Rows(), child, parent);
      nesting := nesting[child := parent];
      return Ok(());
    }

    method RemovePlacement(access: set<Workspace>, child: ContainerId) returns (r: Result<(), Error>)
      requires Sound(Rows())
      modifies this
      ensures Sound(Rows()) && (r.Ok? <==> child in containers && areas[containers[child].area].workspace in access)
      ensures r.Err? ==> r.error == (if child in containers then AccessDenied else NotFound)
      ensures Rows() == if r.Ok? then old(Rows()).(nesting := old(nesting) - {child}) else old(Rows())
    {
      if child !in containers {
        return Err(NotFound);
      }
      if areas[containers[child].area].workspace !in access {
        return Err(AccessDenied);
      }
      UnlinkKeepsSound(Rows(), nesting - {child});
      nesting := nesting - {child};
      return Ok(());
    }

    method Replace(db: Db)
      modifies this
      ensures Rows() == db
    {
      areas, zones, containers, nesting, items, placements := db.areas, db.zones, db.containers, db.nesting, db.items, db.placements;
    }

    method DeleteContainer(access: set<Workspace>, id: ContainerId) returns (r: Result<(), Error>)
      requires Sound(Rows())
      modifies this
      ensures Sound(Rows()) && (r.Ok? <==> id in old(containers) && old(areas[containers[id].area].workspace in access))
      ensures r.Err? ==> r.error == (if id in containers then AccessDenied else NotFound)
      ensures Rows() == if r.Ok? then WithoutContainer(old(Rows()), id) else old(Rows())
      ensures r.Ok? ==> ContainerGone(old(Rows()), Rows(), id)
    {
      if id !in containers {
        return Err(NotFound);
      }
      if areas[containers[id].area].workspace !in access {
        return Err(AccessDenied);
      }
      DeleteContainerKeepsSound(Rows(), id);
      ContainerIsGone(Rows(), id);
      Replace(WithoutContainer(Rows(), id));
      return Ok(());
    }

    method DeleteArea(access: set<Workspace>, id: AreaId) returns (r: Result<(), Error>)
      requires Sound(Rows())
      modifies this
      ensures Sound(Rows()) && (r.Ok? <==> id in old(areas) && old(areas[id].workspace in access))
      ensures r.Err? ==> r.error == (if id in areas then AccessDenied else NotFound)
      ensures Rows() == if r.Ok? then WithoutArea(old(Rows()), id) else old(Rows())
      ensures r.Ok? ==> AreaGone(old(Rows()), Rows(), id)
    {
      if id !in areas {
        return Err(NotFound);
      }
      if areas[id].workspace !in access {
        return Err(AccessDenied);
      }
      DeleteAreaKeepsSound(Rows(), id);
      AreaIsGone(Rows(), id);
      Replace(WithoutArea(Rows(), id));
      return Ok(());
    }

    // The placement half of create_item.
    method CreateItem(access: set<Workspace>, id: ItemId, workspace: Workspace, p: Option<Destination>) returns (r: Result<(), Error>)
      requires Sound(Rows()) && id !in items
      requires p.Some? ==> OneTarget(p.value)
      modifies this
      ensures Sound(Rows())
      ensures r.Ok? <==> workspace in access && (p.Some? ==> LiesIn(old(Rows()), p.value, workspace))
      ensures r == Err(AccessDenied) <==> workspace !in access
      ensures r == Err(NotFound) <==> workspace in access && p.Some? && !LiesSomewhere(old(Rows()), p.value)
      ensures r.Err? ==> r.error in {AccessDenied, NotFound, Invalid}
      ensures Rows() == if r.Err? then old(Rows())
                        else old(Rows()).(items := old(items)[id := Item(workspace, false)],
                                          placements := if p.Some? then old(placements)[id := p.value] else old(placements))
    {
      if workspace !in access {
        return Err(AccessDenied);
      }
      if p.Some? {
        var destination := DestinationWorkspace(Rows(), p.value);
        DestinationLies(Rows(), p.value);
        if destination.Err? {
          return Err(NotFound);
        }
        if destination.value != workspace {
          return Err(Invalid);
        }
      }
      items := items[id := Item(workspace, false)];
      if p.Some? {
        placements := placements[id := p.value];
      }
      return Ok(());
    }

    // update_item refuses archived items, move_item does not.
    method PlaceItem(access: set<Workspace>, id: ItemId, p: Destination, update: bool) returns (r: Result<(), Error>)
      requires Sound(Rows()) && OneTarget(p)
      modifies this
      ensures Sound(Rows())
      ensures r.Ok? <==>
        && id in old(items)
        && (update ==> !old(items)[id].archived)
        && old(items)[id].workspace in access
        && LiesIn(old(Rows()), p, old(items)[id].workspace)
      ensures r == Err(AccessDenied) <==>
        id in old(items) && (update ==> !old(items)[id].archived) && old(items)[id].workspace !in access
      ensures r == Err(NotFound) <==>
        || id !in old(items) || (update && old(items)[id].archived)
        || (old(items)[id].workspace in access && !LiesSomewhere(old(Rows()), p))
      ensures Rows() == if r.Ok? then old(Rows()).(placements := old(placements)[id := p]) else old(Rows())
    {
      if id !in items || (update && items[id].archived) {
        return Err(NotFound);
      }
      if items[id].workspace !in access {
        return Err(AccessDenied);
      }
      var destination := DestinationWorkspace(Rows(), p);
      DestinationLies(Rows(), p);
      if destination.Err? {
        return Err(NotFound);
      }
      if destination.value != items[id].workspace {
        return Err(Invalid);
      }
      placements := placements[id := p];
      return Ok(());
    }

    method DeleteItem(access: set<Workspace>, id: ItemId) returns (r: Result<(), Error>)
      requires Sound(Rows())
      modifies this
      ensures Sound(Rows())
      ensures r.Ok? <==> id in old(items) && !old(items)[id].archived && old(items)[id].workspace in access
      ensures r.Err? ==> r.error == (if id in items && !items[id].archived then AccessDenied else NotFound)
      ensures Rows() == if r.Ok? then old(Rows()).(items := old(items)[id := old(items)[id].(archived := true)]) else old(Rows())
    {
      if id !in items || items[id].archived {
        return Err(NotFound);
      }
      if items[id].workspace !in access {
        return Err(AccessDenied);
      }
      items := items[id := items[id].(archived := true)];
      return Ok(());
    }

    // The list of all placements of a workspace never fails.
    method ResolveWorkspace(access: set<Workspace>, workspace: Workspace, ids: seq<ItemId>) returns (r: Result<map<nat, string>, Error>)
      requires Sound(Rows()) && workspace in access
      requires forall i | 0 <= i < |ids| :: ids[i] in placements && items[ids[i]].workspace == workspace
      ensures r.Ok?
      ensures forall i | 0 <= i < |ids| :: ids[i] in r.value && PlacementPath(Rows(), workspace, placements[ids[i]]) == Ok(r.value[ids[i]])
    {
      var stored := placements;
      var ps := seq(|ids|, i requires 0 <= i < |ids| && ids[i] in stored => (ids[i], stored[ids[i]]));
      r := ResolveItemLocations(Rows(), access, workspace, ps);
      WorkspaceResolves(Rows(), workspace, ids, ps);
    }
  }

  lemma {:induction false} WorkspaceResolves(db: Db, workspace: Workspace, ids: seq<ItemId>, ps: seq<(nat, Destination)>)
    requires Sound(db) && |ps| == |ids|
    requires forall i | 0 <= i < |ids| :: ids[i] in db.placements && db.items[ids[i]].workspace == workspace
    requires forall i | 0 <= i < |ids| :: ps[i] == (ids[i], db.placements[ids[i]])
    ensures
      var r := ResolveMany(Load(db, workspace), ps);
      && r.Ok?
      && forall i | 0 <= i < |ids| :: ids[i] in r.value && PlacementPath(db, workspace, db.placements[ids[i]]) == Ok(r.value[ids[i]])
  {
    if ids != [] {
      var n := |ids| - 1;
      WorkspaceResolves(db, workspace, ids[..n], ps[..n]);
      SoundPlacementsResolve(db, ids[n]);
      var r := ResolveMany(Load(db, workspace), ps[..n]);
      forall i | 0 <= i < n ensures ids[i] in r.value && PlacementPath(db, workspace, db.placements[ids[i]]) == Ok(r.value[ids[i]]) {
        assert ids[..n][i] == ids[i];
      }
    }
  }

  // place_container takes no lock.  When two requests both check before either
  // writes, each accepted on its own, the links they leave have a cycle exactly
  // when each child lies on the other parent's climb.
  lemma InterleavedPlacementsClose(parents: Parents, c1: ContainerId, p1: ContainerId, up1: seq<ContainerId>,
                                   c2: ContainerId, p2: ContainerId, up2: seq<ContainerId>)
    requires Acyclic(parents)
    requires Climb(parents, p1, up1) && c1 !in up1 // the first walk is clear
    requires Climb(parents, p2, up2) && c2 !in up2 // and so is the second
    ensures !Acyclic(parents[c1 := p1][c2 := p2]) <==> c1 in up2 && c2 in up1
  {
    if c1 == c2 {
      LinkAcyclic(parents, c2, p2, up2);
      assert parents[c1 := p1][c2 := p2] == parents[c2 := p2];
    } else {
      var linked := ClimbAfterLink(parents, c1, p1, up1, p2, up2);
      LinkAcyclic(parents, c1, p1, up1);
      LinkAcyclic(parents[c1 := p1], c2, p2, linked);
    }
  }

  // Two containers without parents, each placed into the other.
  lemma PlacedIntoEachOther(a: ContainerId, b: ContainerId)
    requires a != b
    ensures !Acyclic(map[][a := b][b := a])
  {
    var none: Parents := map[];
    forall c: ContainerId ensures Climbs(none, c) {
      assert Climb(none, c, [c]);
    }
    InterleavedPlacementsClose(none, a, b, [b], b, a, [a]);
  }
}

/** The stored location rows, and the server's two ways to turn an item
    placement into a path. */
module LocationModel {
  import opened Common
  import opened Forest

  type Workspace = nat
  type AreaId = nat
  type ZoneId = nat
  type ItemId = nat

  datatype Area = Area(workspace: Workspace, name: string)
  datatype Zone = Zone(area: AreaId, name: string)
  datatype Container = Container(area: AreaId, zone: Option<ZoneId>, name: string, code: string, archived: bool)
  datatype Item = Item(workspace: Workspace, archived: bool)

  // A row of item_placements, or the destination part of a request.
  datatype Destination = Destination(area: Option<AreaId>, zone: Option<ZoneId>, container: Option<ContainerId>)

  datatype Db = Db(
    areas: map<AreaId, Area>,
    zones: map<ZoneId, Zone>,
    containers: map<ContainerId, Container>,
    nesting: Parents,
    items: map<ItemId, Item>,
    placements: map<ItemId, Destination>)

  datatype Error = NotFound | AccessDenied | Invalid

  function Get<T>(rows: map<nat, T>, id: Option<nat>): Option<T> {
    if id.Some? && id.value in rows then Some(rows[id.value]) else None
  }

  function Join(segments: seq<string>, separator: string): string {
    if segments == [] then ""
    else if |segments| == 1 then segments[0]
    else segments[0] + separator + Join(segments[1..], separator)
  }

  function Reversed<T>(s: seq<T>): (r: seq<T>)
    ensures |r| == |s|
    ensures forall i | 0 <= i < |s| :: r[i] == s[|s| - 1 - i]
  {
    seq(|s|, i requires 0 <= i < |s| => s[|s| - 1 - i])
  }

  function NamesOf(containers: map<ContainerId, Container>, path: seq<ContainerId>): (names: seq<string>)
    requires forall i | 0 <= i < |path| :: path[i] in containers
    ensures |names| == |path|
    ensures forall i | 0 <= i < |path| :: names[i] == containers[path[i]].name
  {
    seq(|path|, i requires 0 <= i < |path| => containers[path[i]].name)
  }

  // Area, zone if any, then the containers from the outermost to the innermost.
  function Segments(area: Area, zone: Option<Zone>, namesUp: seq<string>): seq<string> {
    [area.name] + (if zone.Some? then [zone.value.name] else []) + Reversed(namesUp)
  }

  function PathText(area: Area, zone: Option<Zone>, namesUp: seq<string>): string {
    Join(Segments(area, zone, namesUp), " > ")
  }

  // The whole climb from c stays among usable containers of one area.
  ghost predicate Chain(parents: Parents, containers: map<ContainerId, Container>, area: AreaId, c: ContainerId, path: seq<ContainerId>) {
    && Climb(parents, c, path)
    && forall i | 0 <= i < |path| :: Usable(containers, area, path[i])
  }

  predicate Usable(containers: map<ContainerId, Container>, area: AreaId, c: ContainerId) {
    c in containers && !containers[c].archived && containers[c].area == area
  }

  ghost predicate HasChain(parents: Parents, containers: map<ContainerId, Container>, area: AreaId, c: ContainerId) {
    exists path :: Chain(parents, containers, area, c, path)
  }

  ghost function ChainOf(parents: Parents, containers: map<ContainerId, Container>, area: AreaId, c: ContainerId): (path: seq<ContainerId>)
    requires HasChain(parents, containers, area, c)
    ensures Chain(parents, containers, area, c, path)
  {
    var path :| Chain(parents, containers, area, c, path);
    path
  }

  lemma ChainIsUnique(parents: Parents, containers: map<ContainerId, Container>, area: AreaId, c: ContainerId, path: seq<ContainerId>)
    requires Chain(parents, containers, area, c, path)
    ensures HasChain(parents, containers, area, c) && ChainOf(parents, containers, area, c) == path
  {
    ClimbUnique(parents, c, path, ChainOf(parents, containers, area, c));
  }

  // --- the path of one placement, row by row ------------------------------------

  ghost function ContainerPath(db: Db, workspace: Workspace, id: Option<ContainerId>): Result<string, Error> {
    var container := Get(db.containers, id);
    if container.None? || container.value.archived then Err(Invalid)
    else
      var area := Get(db.areas, Some(container.value.area));
      var zone := Get(db.zones, container.value.zone);
      if area.None? || area.value.workspace != workspace then Err(Invalid)
      else if zone.Some? && zone.value.area != container.value.area then Err(Invalid)
      else if !HasChain(db.nesting, db.containers, container.value.area, id.value) then Err(Invalid)
      else
        var path := ChainOf(db.nesting, db.containers, container.value.area, id.value);
        Ok(PathText(area.value, zone, NamesOf(db.containers, path)))
  }

  ghost function AreaPath(db: Db, workspace: Workspace, id: AreaId): Result<string, Error> {
    if id in db.areas && db.areas[id].workspace == workspace then Ok(db.areas[id].name) else Err(Invalid)
  }

  ghost function ZonePath(db: Db, workspace: Workspace, id: ZoneId): Result<string, Error> {
    if id in db.zones && db.zones[id].area in db.areas && db.areas[db.zones[id].area].workspace == workspace
    then Ok(db.areas[db.zones[id].area].name + " > " + db.zones[id].name)
    else Err(Invalid)
  }

  ghost function PlacementPath(db: Db, workspace: Workspace, p: Destination): Result<string, Error> {
    if p.area.Some? then AreaPath(db, workspace, p.area.value)
    else if p.zone.Some? then ZonePath(db, workspace, p.zone.value)
    else ContainerPath(db, workspace, p.container)
  }

  // --- the same, over the rows -----------------------------------------------------

  // The text of a path, step by step: area and zone, and each container after
  // the one that holds it.
  lemma PathTextSteps(area: Area, zone: Option<Zone>, name: string, holders: seq<string>)
    ensures PathText(area, None, []) == area.name
    ensures zone.Some? ==> PathText(area, zone, []) == area.name + " > " + zone.value.name
    ensures PathText(area, zone, [name] + holders) == PathText(area, zone, holders) + " > " + name
  {
    assert Segments(area, zone, [name] + holders) == Segments(area, zone, holders) + [name];
    JoinOneMore(Segments(area, zone, holders), name, " > ");
    if zone.Some? {
      assert Segments(area, zone, []) == [area.name] + [zone.value.name];
      JoinOneMore([area.name], zone.value.name, " > ");
    }
    assert Segments(area, None, []) == [area.name];
  }

  lemma {:induction false} JoinOneMore(segments: seq<string>, last: string, separator: string)
    requires segments != []
    ensures Join(segments + [last], separator) == Join(segments, separator) + separator + last
  {
    if |segments| == 1 {
      assert (segments + [last])[1..] == [last];
    } else {
      JoinOneMore(segments[1..], last, separator);
      assert (segments + [last])[1..] == segments[1..] + [last];
    }
  }

  // The containers from c outwards, all stored, in use and in the area.
  ghost predicate InArea(db: Db, area: AreaId, c: ContainerId, path: seq<ContainerId>) {
    && Climb(db.nesting, c, path)
    && forall i | 0 <= i < |path| ::
         path[i] in db.containers && !db.containers[path[i]].archived && db.containers[path[i]].area == area
  }

  // The destination is shown under this text: it lies in the workspace, and a
  // container with everything it is nested in lies in one area of it, a zone it
  // names and that exists being a zone of that area.
  ghost predicate ShownAs(db: Db, workspace: Workspace, p: Destination, text: string) {
    if p.area.Some? then
      p.area.value in db.areas && db.areas[p.area.value].workspace == workspace && text == db.areas[p.area.value].name
    else if p.zone.Some? then
      && p.zone.value in db.zones && db.zones[p.zone.value].area in db.areas
      && db.areas[db.zones[p.zone.value].area].workspace == workspace
      && text == db.areas[db.zones[p.zone.value].area].name + " > " + db.zones[p.zone.value].name
    else
      && p.container.Some? && p.container.value in db.containers
      && var container := db.containers[p.container.value];
         var zone := if container.zone.Some? && container.zone.value in db.zones then Some(db.zones[container.zone.value]) else None;
         && container.area in db.areas && db.areas[container.area].workspace == workspace
         && (zone.Some? ==> zone.value.area == container.area)
         && exists path ::
              InArea(db, container.area, p.container.value, path)
              && text == PathText(db.areas[container.area], zone, seq(|path|, i requires 0 <= i < |path| && path[i] in db.containers => db.containers[path[i]].name))
  }

  lemma PlacementPathMeans(db: Db, workspace: Workspace, p: Destination, text: string)
    ensures PlacementPath(db, workspace, p) == Ok(text) <==> ShownAs(db, workspace, p, text)
    ensures PlacementPath(db, workspace, p).Err? ==> PlacementPath(db, workspace, p) == Err(Invalid)
  {
    if p.area.None? && p.zone.None? && p.container.Some? && p.container.value in db.containers {
      ContainerPathMeans(db, workspace, p, text);
    }
  }

  lemma ContainerPathMeans(db: Db, workspace: Workspace, p: Destination, text: string)
    requires p.area.None? && p.zone.None? && p.container.Some? && p.container.value in db.containers
    ensures ContainerPath(db, workspace, p.container) == Ok(text) <==> ShownAs(db, workspace, p, text)
  {
    var c, area := p.container.value, db.containers[p.container.value].area;
    forall path | InArea(db, area, c, path) ensures HasChain(db.nesting, db.containers, area, c) && ChainOf(db.nesting, db.containers, area, c) == path
        && NamesOf(db.containers, path) == seq(|path|, i requires 0 <= i < |path| && path[i] in db.containers => db.containers[path[i]].name)
    {
      ChainIsUnique(db.nesting, db.containers, area, c, path);
    }
    if HasChain(db.nesting, db.containers, area, c) {
      var path := ChainOf(db.nesting, db.containers, area, c);
      assert InArea(db, area, c, path) && path[0] == c;
    }
  }

  // What the one-at-a-time resolver answers.
  ghost function ResolveOne(db: Db, access: set<Workspace>, item: ItemId, p: Destination): Result<string, Error> {
    if item !in db.items || db.items[item].archived then Err(NotFound)
    else if db.items[item].workspace !in access then Err(AccessDenied)
    else PlacementPath(db, db.items[item].workspace, p)
  }

  // --- the same from rows preloaded for a workspace -----------------------------

  datatype Loaded = Loaded(areas: map<AreaId, Area>, zones: map<ZoneId, Zone>, containers: map<ContainerId, Container>, parents: Parents)

  function Load(db: Db, workspace: Workspace): Loaded {
    var areas := map a | a in db.areas && db.areas[a].workspace == workspace :: db.areas[a];
    var zones := map z | z in db.zones && db.zones[z].area in areas :: db.zones[z];
    var containers := map c | c in db.containers && db.containers[c].area in areas && !db.containers[c].archived :: db.containers[c];
    var parents := map c | c in db.nesting && c in containers :: db.nesting[c];
    Loaded(areas, zones, containers, parents)
  }

  ghost function LoadedContainerPath(l: Loaded, id: ContainerId): Result<string, Error> {
    if id !in l.containers || l.containers[id].area !in l.areas then Err(Invalid)
    else
      var area := l.containers[id].area;
      var zone := Get(l.zones, l.containers[id].zone);
      if zone.Some? && zone.value.area != area then Err(Invalid)
      else if !HasChain(l.parents, l.containers, area, id) then Err(Invalid)
      else Ok(PathText(l.areas[area], zone, NamesOf(l.containers, ChainOf(l.parents, l.containers, area, id))))
  }

  ghost function LoadedPath(l: Loaded, p: Destination): Result<string, Error> {
    if p.area.Some? then
      if p.area.value in l.areas then Ok(l.areas[p.area.value].name) else Err(Invalid)
    else if p.zone.Some? then
      if p.zone.value in l.zones && l.zones[p.zone.value].area in l.areas
      then Ok(l.areas[l.zones[p.zone.value].area].name + " > " + l.zones[p.zone.value].name)
      else Err(Invalid)
    else if p.container.Some? then LoadedContainerPath(l, p.container.value)
    else Err(Invalid)
  }

  // --- the two agree ---------------------------------------------------------------

  // A climb over the preloaded links that meets only preloaded containers is
  // the climb over all links, and the other way round.
  lemma {:induction false} LoadedClimb(db: Db, workspace: Workspace, c: ContainerId, path: seq<ContainerId>)
    requires forall i | 0 <= i < |path| :: path[i] in Load(db, workspace).containers
    ensures Climb(Load(db, workspace).parents, c, path) <==> Climb(db.nesting, c, path)
    decreases |path|
  {
    var l := Load(db, workspace);
    if path != [] && path[0] == c && c in db.nesting {
      LoadedClimb(db, workspace, db.nesting[c], path[1..]);
    }
  }

  lemma LoadedChain(db: Db, workspace: Workspace, area: AreaId, c: ContainerId)
    requires area in db.areas && db.areas[area].workspace == workspace
    ensures
      var l := Load(db, workspace);
      && (HasChain(l.parents, l.containers, area, c) <==> HasChain(db.nesting, db.containers, area, c))
      && (HasChain(db.nesting, db.containers, area, c) ==>
            ChainOf(l.parents, l.containers, area, c) == ChainOf(db.nesting, db.containers, area, c))
  {
    var l := Load(db, workspace);
    if HasChain(l.parents, l.containers, area, c) {
      var path := ChainOf(l.parents, l.containers, area, c);
      LoadedClimb(db, workspace, c, path);
      assert Chain(db.nesting, db.containers, area, c, path);
    }
    if HasChain(db.nesting, db.containers, area, c) {
      var path := ChainOf(db.nesting, db.containers, area, c);
      assert forall i | 0 <= i < |path| :: path[i] in l.containers;
      LoadedClimb(db, workspace, c, path);
      ChainIsUnique(l.parents, l.containers, area, c, path);
    }
  }

  // The container is usable in its workspace and its whole chain is, but its
  // zone row belongs to an area of another workspace.
  ghost predicate ForeignZone(db: Db, workspace: Workspace, p: Destination) {
    && p.area.None? && p.zone.None? && p.container.Some? && p.container.value in db.containers
    && var container := db.containers[p.container.value];
       && !container.archived
       && container.area in db.areas && db.areas[container.area].workspace == workspace
       && container.zone.Some? && container.zone.value in db.zones
       && var home := db.zones[container.zone.value].area;
          && !(home in db.areas && db.areas[home].workspace == workspace)
          && HasChain(db.nesting, db.containers, container.area, p.container.value)
  }

  // On any stored graph, cyclic and malformed ones included, both resolvers
  // fail or both give the same path, except exactly for a foreign zone.
  lemma ResolversAgree(db: Db, access: set<Workspace>, item: ItemId, p: Destination)
    requires item in db.items && !db.items[item].archived && db.items[item].workspace in access
    ensures
      var workspace := db.items[item].workspace;
      var one, batch := ResolveOne(db, access, item, p), LoadedPath(Load(db, workspace), p);
      one == batch <==> !ForeignZone(db, workspace, p)
  {
    var workspace := db.items[item].workspace;
    if p.area.None? && p.zone.None? && p.container.Some? && p.container.value in db.containers {
      var area := db.containers[p.container.value].area;
      if area in db.areas && db.areas[area].workspace == workspace {
        LoadedChain(db, workspace, area, p.container.value);
        if HasChain(db.nesting, db.containers, area, p.container.value) {
          var path := ChainOf(db.nesting, db.containers, area, p.container.value);
          assert NamesOf(db.containers, path) == NamesOf(Load(db, workspace).containers, path);
        }
      }
    }
  }
}

/** What the serial location and item requests keep true of the stored rows:
    nesting is a forest inside single areas, and every stored placement lies in
    its item's workspace.  Every placement then resolves. */
module LocationInvariant {
  import opened Common
  import opened Forest
  import opened LocationModel

  predicate ZoneFits(db: Db, container: Container) {
    container.zone.Some? ==> container.zone.value in db.zones && db.zones[container.zone.value].area == container.area
  }

  ghost predicate SoundContainers(db: Db) {
    && (forall z | z in db.zones :: db.zones[z].area in db.areas)
    && (forall c | c in db.containers ::
          db.containers[c].area in db.areas && !db.containers[c].archived && ZoneFits(db, db.containers[c]))
  }

  ghost predicate SoundNesting(db: Db) {
    && Acyclic(db.nesting)
    && forall c | c in db.nesting ::
         && c in db.containers && db.nesting[c] in db.containers
         && db.containers[c].area == db.containers[db.nesting[c]].area
  }

  predicate OneTarget(p: Destination) {
    (if p.area.Some? then 1 else 0) + (if p.zone.Some? then 1 else 0) + (if p.container.Some? then 1 else 0) == 1
  }

  // _destination_workspace
  function DestinationWorkspace(db: Db, p: Destination): Result<Workspace, Error> {
    if p.area.Some? then
      if p.area.value in db.areas then Ok(db.areas[p.area.value].workspace) else Err(NotFound)
    else if p.zone.Some? then
      if p.zone.value in db.zones && db.zones[p.zone.value].area in db.areas
      then Ok(db.areas[db.zones[p.zone.value].area].workspace) else Err(NotFound)
    else
      var container := Get(db.containers, p.container);
      if container.Some? && container.value.area in db.areas then Ok(db.areas[container.value.area].workspace) else Err(NotFound)
  }

  ghost predicate SoundPlacements(db: Db) {
    forall i | i in db.placements ::
      i in db.items && OneTarget(db.placements[i]) && DestinationWorkspace(db, db.placements[i]) == Ok(db.items[i].workspace)
  }

  ghost predicate Sound(db: Db) {
    SoundContainers(db) && SoundNesting(db) && SoundPlacements(db)
  }

  // --- deletion as the schema's ON DELETE rules state it ----------------------------

  // Rows left when these areas, zones and containers are gone.
  function Cascade(db: Db, areas: set<AreaId>, zones: set<ZoneId>, containers: set<ContainerId>): Db {
    Db(
      map a | a in db.areas && a !in areas :: db.areas[a],
      map z | z in db.zones && z !in zones :: db.zones[z],
      map c | c in db.containers && c !in containers ::
        if db.containers[c].zone.Some? && db.containers[c].zone.value in zones then db.containers[c].(zone := None) else db.containers[c],
      map c | c in db.nesting && c !in containers && db.nesting[c] !in containers :: db.nesting[c],
      db.items,
      map i | i in db.placements && !Targets(db.placements[i], areas, zones, containers) :: db.placements[i])
  }

  predicate Targets(p: Destination, areas: set<AreaId>, zones: set<ZoneId>, containers: set<ContainerId>) {
    || (p.area.Some? && p.area.value in areas)
    || (p.zone.Some? && p.zone.value in zones)
    || (p.container.Some? && p.container.value in containers)
  }

  function ZonesOf(db: Db, area: AreaId): set<ZoneId> {
    set z | z in db.zones && db.zones[z].area == area
  }

  function ContainersOf(db: Db, area: AreaId): set<ContainerId> {
    set c | c in db.containers && db.containers[c].area == area
  }

  function WithoutArea(db: Db, area: AreaId): Db {
    Cascade(db, {area}, ZonesOf(db, area), ContainersOf(db, area))
  }

  function WithoutContainer(db: Db, c: ContainerId): Db {
    Cascade(db, {}, {}, {c})
  }

  lemma CascadeKeepsNesting(db: Db, areas: set<AreaId>, zones: set<ZoneId>, containers: set<ContainerId>)
    requires SoundNesting(db)
    ensures SoundNesting(Cascade(db, areas, zones, containers))
  {
    UnlinkAcyclic(db.nesting, Cascade(db, areas, zones, containers).nesting);
  }

  lemma DeleteAreaKeepsSound(db: Db, area: AreaId)
    requires Sound(db)
    ensures Sound(WithoutArea(db, area))
  {
    CascadeKeepsNesting(db, {area}, ZonesOf(db, area), ContainersOf(db, area));
  }

  lemma DeleteContainerKeepsSound(db: Db, c: ContainerId)
    requires Sound(db)
    ensures Sound(WithoutContainer(db, c))
  {
    CascadeKeepsNesting(db, {}, {}, {c});
  }

  lemma UnlinkKeepsSound(db: Db, fewer: Parents)
    requires Sound(db)
    requires forall x | x in fewer :: x in db.nesting && fewer[x] == db.nesting[x]
    ensures Sound(db.(nesting := fewer))
  {
    UnlinkAcyclic(db.nesting, fewer);
    assert forall i | i in db.placements :: DestinationWorkspace(db.(nesting := fewer), db.placements[i]) == DestinationWorkspace(db, db.placements[i]);
  }

  lemma LinkKeepsSound(db: Db, child: ContainerId, parent: ContainerId)
    requires Sound(db) && child in db.containers && parent in db.containers
    requires db.containers[child].area == db.containers[parent].area
    requires Acyclic(db.nesting[child := parent])
    ensures Sound(db.(nesting := db.nesting[child := parent]))
  {
  }

  // --- resolving ---------------------------------------------------------------------

  lemma {:induction false} ClimbStaysInArea(db: Db, c: ContainerId, path: seq<ContainerId>)
    requires SoundContainers(db) && SoundNesting(db) && c in db.containers && Climb(db.nesting, c, path)
    ensures forall i | 0 <= i < |path| :: Usable(db.containers, db.containers[c].area, path[i])
    decreases |path|
  {
    if c in db.nesting {
      ClimbStaysInArea(db, db.nesting[c], path[1..]);
      assert forall i | 0 < i < |path| :: path[i] == path[1..][i - 1];
    }
  }

  lemma EveryContainerHasChain(db: Db, c: ContainerId)
    requires SoundContainers(db) && SoundNesting(db) && c in db.containers
    ensures HasChain(db.nesting, db.containers, db.containers[c].area, c)
  {
    assert Climbs(db.nesting, c);
    var path :| Climb(db.nesting, c, path);
    ClimbStaysInArea(db, c, path);
    assert Chain(db.nesting, db.containers, db.containers[c].area, c, path);
  }

  // In a sound store no placement of a workspace fails to resolve, whichever
  // of the two resolvers is asked.
  lemma SoundPlacementsResolve(db: Db, item: ItemId)
    requires Sound(db) && item in db.placements
    ensures
      var workspace := db.items[item].workspace;
      && PlacementPath(db, workspace, db.placements[item]).Ok?
      && LoadedPath(Load(db, workspace), db.placements[item]) == PlacementPath(db, workspace, db.placements[item])
  {
    var workspace, p := db.items[item].workspace, db.placements[item];
    if p.container.Some? {
      EveryContainerHasChain(db, p.container.value);
    }
    var live := db.(items := db.items[item := Item(workspace, false)]);
    ResolversAgree(live, {workspace}, item, p);
  }
}

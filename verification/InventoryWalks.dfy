/** How the phone and the web page walk the inventory lists they downloaded, and
    why both show the path that the server resolves. */
module InventoryWalks {
  import opened Common
  import opened Forest
  import opened LocationModel
  import opened LocationInvariant

  type Table<T> = seq<(nat, T)>

  // Array.find: the first row with the id.
  function Find<T>(rows: Table<T>, id: nat): Option<T> {
    if rows == [] then None
    else if rows[0].0 == id then Some(rows[0].1)
    else Find(rows[1..], id)
  }

  // new Map(rows): a later row for the same id replaces an earlier one.
  function AsMap<T>(rows: Table<T>): map<nat, T> {
    if rows == [] then map[] else AsMap(rows[..|rows| - 1])[rows[|rows| - 1].0 := rows[|rows| - 1].1]
  }

  datatype Inventory = Inventory(
    areas: Table<Area>,
    zones: Table<Zone>,
    containers: Table<Container>,
    placements: Table<ContainerId>) // child to parent

  // The rows are those of m, each id once, in any order.
  ghost predicate Lists<T>(rows: Table<T>, m: map<nat, T>) {
    && (forall i, j | 0 <= i < j < |rows| :: rows[i].0 != rows[j].0)
    && (forall i | 0 <= i < |rows| :: rows[i].0 in m && m[rows[i].0] == rows[i].1)
    && (forall id | id in m :: exists i :: 0 <= i < |rows| && rows[i].0 == id)
  }

  lemma {:induction false} FindInRows<T>(rows: Table<T>, i: nat)
    requires forall i, j | 0 <= i < j < |rows| :: rows[i].0 != rows[j].0
    requires i < |rows|
    ensures Find(rows, rows[i].0) == Some(rows[i].1)
  {
    if i > 0 {
      FindInRows(rows[1..], i - 1);
    }
  }

  lemma {:induction false} FindMissing<T>(rows: Table<T>, id: nat)
    requires forall i | 0 <= i < |rows| :: rows[i].0 != id
    ensures Find(rows, id) == None
  {
    if rows != [] {
      FindMissing(rows[1..], id);
    }
  }

  lemma {:induction false} AsMapEntries<T>(rows: Table<T>)
    requires forall i, j | 0 <= i < j < |rows| :: rows[i].0 != rows[j].0
    ensures forall i | 0 <= i < |rows| :: rows[i].0 in AsMap(rows) && AsMap(rows)[rows[i].0] == rows[i].1
    ensures forall id | id in AsMap(rows) :: exists i :: 0 <= i < |rows| && rows[i].0 == id
  {
    if rows != [] {
      var n := |rows| - 1;
      AsMapEntries(rows[..n]);
      assert forall i | 0 <= i < n :: rows[..n][i] == rows[i];
      forall id | id in AsMap(rows) ensures exists i :: 0 <= i < |rows| && rows[i].0 == id {
        if id == rows[n].0 {
          assert rows[n].0 == id;
        } else {
          assert id in AsMap(rows[..n]);
          assert exists i :: 0 <= i < |rows[..n]| && rows[..n][i].0 == id;
          var i :| 0 <= i < |rows[..n]| && rows[..n][i].0 == id;
          assert rows[i].0 == id;
        }
      }
    }
  }

  // On rows with unique ids, find and Map both read the listed map.
  lemma Lookup<T>(rows: Table<T>, m: map<nat, T>)
    requires Lists(rows, m)
    ensures AsMap(rows) == m
    ensures forall id: nat :: Find(rows, id) == Get(m, Some(id))
  {
    AsMapEntries(rows);
    forall id: nat ensures Find(rows, id) == Get(m, Some(id)) {
      if id in m {
        var i :| 0 <= i < |rows| && rows[i].0 == id;
        FindInRows(rows, i);
      } else {
        FindMissing(rows, id);
      }
    }
  }

  function FindOpt<T>(rows: Table<T>, id: Option<nat>): Option<T> {
    if id.None? then None else Find(rows, id.value)
  }

  // --- where a walk over any links stops --------------------------------------------

  // The walk has taken trail and goes no further: no parent, a parent that is
  // not in the list, or a parent it has already seen.
  ghost predicate Stops(parents: Parents, known: set<ContainerId>, c: ContainerId, trail: seq<ContainerId>) {
    && Trail(parents, c, trail) && Distinct(trail)
    && (forall i | 0 < i < |trail| :: trail[i] in known)
    && var last := trail[|trail| - 1]; last !in parents || parents[last] !in known || parents[last] in trail
  }

  lemma {:induction false} TrailsAgree(parents: Parents, c: ContainerId, s: seq<ContainerId>, t: seq<ContainerId>)
    requires Trail(parents, c, s) && Trail(parents, c, t) && |s| <= |t|
    ensures s <= t
    ensures |s| < |t| ==> s[|s| - 1] in parents && parents[s[|s| - 1]] == t[|s|]
  {
    assert |s| < |t| ==> t[|s| - 1] in parents && parents[t[|s| - 1]] == t[|s|];
    if |s| > 1 {
      TrailsAgree(parents, c, s[..|s| - 1], t);
      assert parents[s[|s| - 2]] == s[|s| - 1];
    }
  }

  // There is only one place to stop.
  lemma {:induction false} StopsOnce(parents: Parents, known: set<ContainerId>, c: ContainerId, s: seq<ContainerId>, t: seq<ContainerId>)
    requires Stops(parents, known, c, s) && Stops(parents, known, c, t)
    ensures s == t
  {
    if |s| <= |t| {
      TrailsAgree(parents, c, s, t);
    } else {
      TrailsAgree(parents, c, t, s);
    }
  }

  // A climb inside the list is where the walk stops.
  lemma ClimbStops(parents: Parents, known: set<ContainerId>, c: ContainerId, path: seq<ContainerId>)
    requires Climb(parents, c, path) && forall i | 0 <= i < |path| :: path[i] in known
    ensures Stops(parents, known, c, path)
  {
    ClimbIsEndedTrail(parents, c, path);
    ClimbDistinct(parents, c, path);
  }

  // filter(Boolean)
  function NonEmpty(segments: seq<string>): seq<string> {
    if segments == [] then []
    else (if segments[0] == "" then [] else [segments[0]]) + NonEmpty(segments[1..])
  }

  function NameOf(area: Option<Area>): string { if area.Some? then area.value.name else "" }

  function ZoneNameOf(zone: Option<Zone>): string { if zone.Some? then zone.value.name else "" }

  // containerLocationChoice: the segments joined into the detail text.
  method ContainerDetail(id: ContainerId, container: Container, inv: Inventory) returns (detail: seq<string>)
    ensures exists trail ::
      && Stops(AsMap(inv.placements), AsMap(inv.containers).Keys, id, trail)
      && detail == NonEmpty([NameOf(Find(inv.areas, container.area)), ZoneNameOf(FindOpt(inv.zones, container.zone))]
                            + Reversed(UpNames(AsMap(inv.containers), container, trail)) + [container.code])
  {
    var area := Find(inv.areas, container.area);
    var zone := FindOpt(inv.zones, container.zone);
    var parentByChild := AsMap(inv.placements);
    var containerById := AsMap(inv.containers);
    var names, visited := [container.name], {id};
    var parentId := Get(parentByChild, Some(id));
    ghost var trail := [id];
    while parentId.Some? && parentId.value !in visited
      invariant Trail(parentByChild, id, trail) && Distinct(trail)
      invariant parentId == Get(parentByChild, Some(trail[|trail| - 1]))
      invariant forall x :: x in visited <==> x in trail
      invariant forall i | 0 < i < |trail| :: trail[i] in containerById
      invariant names == Reversed(UpNames(containerById, container, trail))
      decreases |parentByChild| + 1 - |trail|
    {
      visited := visited + {parentId.value};
      if parentId.value !in containerById {
        break;
      }
      ExtendTrail(parentByChild, id, trail);
      var before := names;
      names := [containerById[parentId.value].name] + names;
      trail := trail + [parentId.value];
      TrailIsShort(parentByChild, id, trail);
      parentId := Get(parentByChild, parentId);
    }
    assert Stops(parentByChild, containerById.Keys, id, trail);
    return NonEmpty([NameOf(area), ZoneNameOf(zone)] + names + [container.code]);
  }

  // The start's own name, then the names of the containers above it.
  function UpNames(containers: map<ContainerId, Container>, start: Container, trail: seq<ContainerId>): (names: seq<string>)
    requires forall i | 0 < i < |trail| :: trail[i] in containers
    ensures |names| == |trail|
    ensures trail != [] ==> names[0] == start.name
    ensures forall i | 0 < i < |trail| :: names[i] == containers[trail[i]].name
  {
    seq(|trail|, i requires 0 <= i < |trail| => if i == 0 then start.name else containers[trail[i]].name)
  }

  datatype Segment = Segment(id: nat, text: string)

  // locationSegmentsForTarget for a container.
  method WebSegments(id: ContainerId, inv: Inventory) returns (segments: seq<Segment>)
    ensures Find(inv.containers, id).None? ==> segments == []
    ensures Find(inv.containers, id).Some? ==>
      exists trail ::
        && Stops(FirstParents(inv), FirstContainers(inv).Keys, id, trail)
        && trail[0] in FirstContainers(inv)
        && segments == WebPath(inv, FirstContainers(inv)[id], trail)
  {
    FirstMeaning(inv);
    var leaf := Find(inv.containers, id);
    if leaf.None? {
      return [];
    }
    var area := Find(inv.areas, leaf.value.area);
    var zone := FindOpt(inv.zones, leaf.value.zone);
    var up: seq<Segment>, visited: set<ContainerId> := [], {};
    var cursor, at := leaf, id;
    ghost var trail: seq<ContainerId> := [];
    while cursor.Some? && at !in visited
      invariant trail == [] ==> cursor == leaf && at == id && up == []
      invariant trail != [] ==> Trail(FirstParents(inv), id, trail)
      invariant cursor.Some? && trail != [] ==> Get(FirstParents(inv), Some(trail[|trail| - 1])) == Some(at)
      invariant cursor.Some? ==> cursor == Find(inv.containers, at)
      invariant cursor.None? ==>
        trail != [] && var next := Get(FirstParents(inv), Some(trail[|trail| - 1])); next.None? || next.value !in FirstContainers(inv)
      invariant Distinct(trail)
      invariant forall x :: x in visited <==> x in trail
      invariant forall i | 0 <= i < |trail| :: trail[i] in FirstContainers(inv)
      invariant up == Reversed(UpSegments(FirstContainers(inv), trail))
      decreases |FirstParents(inv)| + 2 - |trail|
    {
      visited := visited + {at};
      if trail != [] {
        ExtendTrail(FirstParents(inv), id, trail);
      }
      trail := trail + [at];
      TrailIsShort(FirstParents(inv), id, trail);
      up := [Segment(at, cursor.value.name)] + up;
      var parentId := Find(inv.placements, at);
      cursor := FindOpt(inv.containers, parentId);
      at := if parentId.Some? then parentId.value else at;
    }
    assert Stops(FirstParents(inv), FirstContainers(inv).Keys, id, trail);
    return (if area.Some? then [Segment(leaf.value.area, area.value.name)] else [])
      + (if zone.Some? then [Segment(leaf.value.zone.value, zone.value.name)] else [])
      + up;
  }

  // find as a map: the first row for each id.
  function Firsts<T>(rows: Table<T>): (m: map<nat, T>)
  {
    if rows == [] then map[] else Firsts(rows[1..])[rows[0].0 := rows[0].1]
  }

  lemma {:induction false} FirstsMeaning<T>(rows: Table<T>)
    ensures forall id: nat :: Find(rows, id) == Get(Firsts(rows), Some(id))
  {
    if rows != [] {
      FirstsMeaning(rows[1..]);
    }
  }

  function FirstParents(inv: Inventory): Parents { Firsts(inv.placements) }

  function FirstContainers(inv: Inventory): map<ContainerId, Container> { Firsts(inv.containers) }

  lemma FirstMeaning(inv: Inventory)
    ensures forall id: nat :: Find(inv.placements, id) == Get(FirstParents(inv), Some(id))
    ensures forall id: nat :: Find(inv.containers, id) == Get(FirstContainers(inv), Some(id))
  {
    FirstsMeaning(inv.placements);
    FirstsMeaning(inv.containers);
  }

  function UpSegments(containers: map<ContainerId, Container>, trail: seq<ContainerId>): (s: seq<Segment>)
    requires forall i | 0 <= i < |trail| :: trail[i] in containers
    ensures |s| == |trail|
    ensures forall i | 0 <= i < |trail| :: s[i] == Segment(trail[i], containers[trail[i]].name)
  {
    seq(|trail|, i requires 0 <= i < |trail| => Segment(trail[i], containers[trail[i]].name))
  }

  function WebPath(inv: Inventory, leaf: Container, trail: seq<ContainerId>): seq<Segment>
    requires forall i | 0 <= i < |trail| :: trail[i] in FirstContainers(inv)
  {
    var area, zone := Find(inv.areas, leaf.area), FindOpt(inv.zones, leaf.zone);
    (if area.Some? then [Segment(leaf.area, area.value.name)] else [])
    + (if zone.Some? then [Segment(leaf.zone.value, zone.value.name)] else [])
    + Reversed(UpSegments(FirstContainers(inv), trail))
  }

  // --- agreement with the server -------------------------------------------------------

  // inv holds exactly the rows that the list endpoints return for a workspace.
  ghost predicate Downloaded(inv: Inventory, db: Db, workspace: Workspace) {
    var l := Load(db, workspace);
    && Lists(inv.areas, l.areas) && Lists(inv.zones, l.zones)
    && Lists(inv.containers, l.containers) && Lists(inv.placements, l.parents)
  }

  // The request schemas ask for at least one character.
  ghost predicate Named(db: Db) {
    && (forall a | a in db.areas :: db.areas[a].name != "")
    && (forall z | z in db.zones :: db.zones[z].name != "")
    && (forall c | c in db.containers :: db.containers[c].name != "" && db.containers[c].code != "")
  }

  // The segments of the path that the server resolves for a container.
  ghost function ServerSegments(db: Db, id: ContainerId): seq<string>
    requires id in db.containers && db.containers[id].area in db.areas
    requires HasChain(db.nesting, db.containers, db.containers[id].area, id)
  {
    var container := db.containers[id];
    Segments(db.areas[container.area], Get(db.zones, container.zone),
             NamesOf(db.containers, ChainOf(db.nesting, db.containers, container.area, id)))
  }

  lemma {:induction false} NonEmptyKeeps(a: seq<string>, b: seq<string>)
    ensures NonEmpty(a + b) == NonEmpty(a) + NonEmpty(b)
  {
    if a == [] {
      assert a + b == b;
    } else {
      var rest, head := a[1..], if a[0] == "" then [] else [a[0]];
      NonEmptyKeeps(rest, b);
      assert (a + b)[0] == a[0] && (a + b)[1..] == rest + b;
      assert head + (NonEmpty(rest) + NonEmpty(b)) == (head + NonEmpty(rest)) + NonEmpty(b);
    }
  }

  lemma NonEmptyOne(s: string)
    ensures NonEmpty([s]) == if s == "" then [] else [s]
  {
    assert [s][1..] == [];
  }

  lemma {:induction false} NonEmptyAll(a: seq<string>)
    requires forall i | 0 <= i < |a| :: a[i] != ""
    ensures NonEmpty(a) == a
  {
    if a != [] {
      NonEmptyAll(a[1..]);
      assert [a[0]] + a[1..] == a;
    }
  }

  lemma DownloadedWalk(db: Db, workspace: Workspace, inv: Inventory, id: ContainerId)
    requires Sound(db) && Downloaded(inv, db, workspace) && id in Load(db, workspace).containers
    ensures
      var l := Load(db, workspace);
      var area := db.containers[id].area;
      && l.containers[id] == db.containers[id]
      && HasChain(db.nesting, db.containers, area, id)
      && Find(inv.areas, area) == Some(db.areas[area])
      && FindOpt(inv.zones, db.containers[id].zone) == Get(db.zones, db.containers[id].zone)
      && Stops(l.parents, l.containers.Keys, id, ChainOf(db.nesting, db.containers, area, id))
      && NamesOf(l.containers, ChainOf(db.nesting, db.containers, area, id)) == NamesOf(db.containers, ChainOf(db.nesting, db.containers, area, id))
  {
    var l := Load(db, workspace);
    var area := db.containers[id].area;
    EveryContainerHasChain(db, id);
    LoadedChain(db, workspace, area, id);
    var path := ChainOf(db.nesting, db.containers, area, id);
    ClimbStops(l.parents, l.containers.Keys, id, path);
    Lookup(inv.areas, l.areas);
    Lookup(inv.zones, l.zones);
  }

  // Dropping empty segments drops only a missing zone.
  lemma DetailSegments(area: Area, zone: Option<Zone>, namesUp: seq<string>, code: string)
    requires area.name != "" && (zone.Some? ==> zone.value.name != "") && code != ""
    requires forall i | 0 <= i < |namesUp| :: namesUp[i] != ""
    ensures NonEmpty([area.name, ZoneNameOf(zone)] + Reversed(namesUp) + [code]) == Segments(area, zone, namesUp) + [code]
  {
    var name, zoneName, rest := [area.name], [ZoneNameOf(zone)], Reversed(namesUp) + [code];
    assert [area.name, ZoneNameOf(zone)] + Reversed(namesUp) + [code] == name + (zoneName + rest);
    NonEmptyKeeps(name, zoneName + rest);
    NonEmptyKeeps(zoneName, rest);
    NonEmptyOne(area.name);
    NonEmptyOne(ZoneNameOf(zone));
    NonEmptyAll(rest);
    var named := if zone.Some? then [zone.value.name] else [];
    assert name + (named + rest) == (name + named + Reversed(namesUp)) + [code];
  }

  // The phone's walk stops where the server's chain ends, with the same names.
  lemma WalkIsChain(db: Db, workspace: Workspace, inv: Inventory, id: ContainerId, trail: seq<ContainerId>)
    requires Sound(db) && Downloaded(inv, db, workspace) && id in Load(db, workspace).containers
    requires Stops(AsMap(inv.placements), AsMap(inv.containers).Keys, id, trail)
    ensures HasChain(db.nesting, db.containers, db.containers[id].area, id)
    ensures
      var path := ChainOf(db.nesting, db.containers, db.containers[id].area, id);
      trail == path && UpNames(AsMap(inv.containers), db.containers[id], trail) == NamesOf(db.containers, path)
  {
    DownloadedWalk(db, workspace, inv, id);
    var l := Load(db, workspace);
    Lookup(inv.placements, l.parents);
    Lookup(inv.containers, l.containers);
    StopsOnce(l.parents, l.containers.Keys, id, trail, ChainOf(db.nesting, db.containers, db.containers[id].area, id));
  }

  lemma ServerDetail(db: Db, id: ContainerId)
    requires Named(db) && id in db.containers && db.containers[id].area in db.areas
    requires HasChain(db.nesting, db.containers, db.containers[id].area, id)
    ensures
      var container := db.containers[id];
      var names := NamesOf(db.containers, ChainOf(db.nesting, db.containers, container.area, id));
      NonEmpty([db.areas[container.area].name, ZoneNameOf(Get(db.zones, container.zone))] + Reversed(names) + [container.code])
        == ServerSegments(db, id) + [container.code]
  {
    var container := db.containers[id];
    var names := NamesOf(db.containers, ChainOf(db.nesting, db.containers, container.area, id));
    DetailSegments(db.areas[container.area], Get(db.zones, container.zone), names, container.code);
  }

  // The phone shows the server's path followed by the container's code.
  lemma PhoneShowsServerPath(db: Db, workspace: Workspace, inv: Inventory, id: ContainerId, trail: seq<ContainerId>)
    requires Sound(db) && Named(db) && Downloaded(inv, db, workspace) && id in Load(db, workspace).containers
    requires Stops(AsMap(inv.placements), AsMap(inv.containers).Keys, id, trail)
    ensures
      var container := db.containers[id];
      && HasChain(db.nesting, db.containers, container.area, id)
      && NonEmpty([NameOf(Find(inv.areas, container.area)), ZoneNameOf(FindOpt(inv.zones, container.zone))]
                  + Reversed(UpNames(AsMap(inv.containers), container, trail)) + [container.code])
         == ServerSegments(db, id) + [container.code]
  {
    DownloadedWalk(db, workspace, inv, id);
    WalkIsChain(db, workspace, inv, id, trail);
    ServerDetail(db, id);
  }

  lemma {:induction false} FirstsOfUnique<T>(rows: Table<T>, m: map<nat, T>)
    requires Lists(rows, m)
    ensures Firsts(rows) == m
  {
    Lookup(rows, m);
    FirstsMeaning(rows);
    forall id: nat ensures Get(Firsts(rows), Some(id)) == Get(m, Some(id)) {
      assert Find(rows, id) == Get(m, Some(id));
    }
    assert forall id | id in Firsts(rows) :: Get(Firsts(rows), Some(id)).Some? && Get(m, Some(id)).Some?;
    assert forall id | id in m :: Get(m, Some(id)).Some? && Get(Firsts(rows), Some(id)).Some?;
  }

  function Texts(segments: seq<Segment>): (texts: seq<string>)
    ensures |texts| == |segments|
    ensures forall i | 0 <= i < |segments| :: texts[i] == segments[i].text
  {
    seq(|segments|, i requires 0 <= i < |segments| => segments[i].text)
  }

  lemma WebTexts(area: Segment, zone: Option<Segment>, up: seq<Segment>)
    ensures Texts([area] + (if zone.Some? then [zone.value] else []) + up)
         == [area.text] + (if zone.Some? then [zone.value.text] else []) + Texts(up)
  {
  }

  // The rows the page finds are those that were loaded, and so is its walk.
  lemma WebTrail(db: Db, workspace: Workspace, inv: Inventory, id: ContainerId, trail: seq<ContainerId>, path: seq<ContainerId>)
    requires Downloaded(inv, db, workspace)
    requires Stops(FirstParents(inv), FirstContainers(inv).Keys, id, trail)
    requires Stops(Load(db, workspace).parents, Load(db, workspace).containers.Keys, id, path)
    ensures trail == path && FirstContainers(inv) == Load(db, workspace).containers
  {
    var l := Load(db, workspace);
    FirstsOfUnique(inv.placements, l.parents);
    FirstsOfUnique(inv.containers, l.containers);
    StopsOnce(l.parents, l.containers.Keys, id, trail, path);
  }

  lemma UpTexts(stored: map<ContainerId, Container>, found: map<ContainerId, Container>, trail: seq<ContainerId>)
    requires forall i | 0 <= i < |trail| :: trail[i] in stored && trail[i] in found && found[trail[i]] == stored[trail[i]]
    ensures Texts(Reversed(UpSegments(found, trail))) == Reversed(NamesOf(stored, trail))
  {
  }

  // The web page shows the server's segments.
  lemma WebShowsServerPath(db: Db, workspace: Workspace, inv: Inventory, id: ContainerId, trail: seq<ContainerId>)
    requires Sound(db) && Downloaded(inv, db, workspace) && id in Load(db, workspace).containers
    requires Stops(FirstParents(inv), FirstContainers(inv).Keys, id, trail)
    requires trail[0] in FirstContainers(inv)
    ensures HasChain(db.nesting, db.containers, db.containers[id].area, id)
    ensures Texts(WebPath(inv, FirstContainers(inv)[id], trail)) == ServerSegments(db, id)
  {
    var container := db.containers[id];
    DownloadedWalk(db, workspace, inv, id);
    var path := ChainOf(db.nesting, db.containers, container.area, id);
    WebTrail(db, workspace, inv, id, trail, path);
    var up, zone := UpSegments(FirstContainers(inv), trail), Get(db.zones, container.zone);
    assert Texts(Reversed(up)) == Reversed(NamesOf(db.containers, path)) by {
      UpTexts(db.containers, FirstContainers(inv), trail);
    }
    WebTexts(Segment(container.area, db.areas[container.area].name),
             if zone.Some? then Some(Segment(container.zone.value, zone.value.name)) else None, Reversed(up));
  }

  // --- browsing up and down ------------------------------------------------------------

  datatype Location = AtArea(area: AreaId) | AtZone(zone: ZoneId) | AtContainer(container: ContainerId)

  // getParentLocation
  function ParentLocation(location: Location, inv: Inventory): Option<Location> {
    match location
    case AtArea(_) => None
    case AtZone(z) =>
      var zone := Find(inv.zones, z);
      if zone.Some? && Find(inv.areas, zone.value.area).Some? then Some(AtArea(zone.value.area)) else None
    case AtContainer(c) =>
      var container := Find(inv.containers, c);
      if container.None? then None
      else
        var parentId := Find(inv.placements, c);
        if parentId.Some? then
          if Find(inv.containers, parentId.value).Some? then Some(AtContainer(parentId.value)) else None
        else if container.value.zone.Some? then
          if Find(inv.zones, container.value.zone.value).Some? then Some(AtZone(container.value.zone.value)) else None
        else if Find(inv.areas, container.value.area).Some? then Some(AtArea(container.value.area)) else None
  }

  ghost predicate HasRow<T>(rows: Table<T>, id: nat) {
    exists i :: 0 <= i < |rows| && rows[i].0 == id
  }

  // On any lists, malformed ones included, going up leads only to rows that were
  // downloaded, and not past an area.
  lemma ParentIsKnown(location: Location, inv: Inventory)
    requires ParentLocation(location, inv).Some?
    ensures
      && !location.AtArea?
      && match ParentLocation(location, inv).value
         case AtArea(a) => HasRow(inv.areas, a)
         case AtZone(z) => HasRow(inv.zones, z)
         case AtContainer(c) => HasRow(inv.containers, c)
  {
    match ParentLocation(location, inv).value
    case AtArea(a) => KnownMeansRow(inv.areas, a);
    case AtZone(z) => KnownMeansRow(inv.zones, z);
    case AtContainer(c) => KnownMeansRow(inv.containers, c);
  }

  lemma KnownMeansRow<T>(rows: Table<T>, id: nat)
    requires Find(rows, id).Some?
    ensures HasRow(rows, id)
  {
    if !HasRow(rows, id) {
      FindMissing(rows, id);
    }
  }

  // Whether getLocationContents lists this container row at the location.
  predicate ListedAt(location: Location, id: ContainerId, container: Container, inv: Inventory) {
    var parentId := Get(AsMap(inv.placements), Some(id));
    if location.AtContainer? then parentId == Some(location.container)
    else if parentId.Some? then false
    else if location.AtZone? then container.zone == Some(location.zone)
    else container.area == location.area
  }

  // Going up n times.
  function Up(location: Location, inv: Inventory, n: nat): Option<Location>
    decreases n
  {
    if n == 0 then Some(location)
    else
      var parent := ParentLocation(location, inv);
      if parent.None? then None else Up(parent.value, inv, n - 1)
  }

  // What was loaded around one container of a sound store.
  lemma LoadedAround(db: Db, workspace: Workspace, id: ContainerId)
    requires Sound(db) && id in Load(db, workspace).containers
    ensures
      var l := Load(db, workspace);
      && l.containers[id] == db.containers[id] && db.containers[id].area in l.areas
      && Get(l.parents, Some(id)) == Get(db.nesting, Some(id))
      && (id in db.nesting ==> db.nesting[id] in l.containers)
      && (db.containers[id].zone.Some? ==>
            && db.containers[id].zone.value in db.zones
            && db.zones[db.containers[id].zone.value].area == db.containers[id].area
            && Get(l.zones, db.containers[id].zone) == Some(db.zones[db.containers[id].zone.value]))
  {
  }

  // What the downloaded lists say about one container.
  lemma DownloadedRow(db: Db, workspace: Workspace, inv: Inventory, id: ContainerId)
    requires Sound(db) && Downloaded(inv, db, workspace) && id in Load(db, workspace).containers
    ensures Find(inv.containers, id) == Some(db.containers[id])
    ensures Find(inv.placements, id) == Get(db.nesting, Some(id)) == Get(AsMap(inv.placements), Some(id))
    ensures id in db.nesting ==> db.nesting[id] in Load(db, workspace).containers && Find(inv.containers, db.nesting[id]).Some?
    ensures db.containers[id].zone.Some? ==>
              var z := db.containers[id].zone.value;
              z in db.zones && db.zones[z].area == db.containers[id].area && Find(inv.zones, z) == Some(db.zones[z])
    ensures Find(inv.areas, db.containers[id].area).Some?
  {
    var l := Load(db, workspace);
    LoadedAround(db, workspace, id);
    LookupAt(inv.containers, l.containers, id);
    LookupAt(inv.placements, l.parents, id);
    LookupAt(inv.areas, l.areas, db.containers[id].area);
    if id in db.nesting {
      LookupAt(inv.containers, l.containers, db.nesting[id]);
    }
    if db.containers[id].zone.Some? {
      LookupAt(inv.zones, l.zones, db.containers[id].zone.value);
    }
  }

  lemma LookupAt<T>(rows: Table<T>, m: map<nat, T>, id: nat)
    requires Lists(rows, m)
    ensures Find(rows, id) == Get(m, Some(id)) == Get(AsMap(rows), Some(id))
  {
    Lookup(rows, m);
  }

  // The location directly around a container, from the stored rows.
  function Around(db: Db, id: ContainerId): Location
    requires id in db.containers
  {
    if id in db.nesting then AtContainer(db.nesting[id])
    else if db.containers[id].zone.Some? then AtZone(db.containers[id].zone.value)
    else AtArea(db.containers[id].area)
  }

  // Each container's parent location is the one around it, and lists it.
  lemma ListedAtParent(db: Db, workspace: Workspace, inv: Inventory, id: ContainerId)
    requires Sound(db) && Downloaded(inv, db, workspace) && id in Load(db, workspace).containers
    ensures ParentLocation(AtContainer(id), inv) == Some(Around(db, id))
    ensures ListedAt(Around(db, id), id, db.containers[id], inv)
    ensures Around(db, id).AtZone? ==> ParentLocation(Around(db, id), inv) == Some(AtArea(db.containers[id].area))
    ensures Around(db, id).AtContainer? ==> Around(db, id).container in Load(db, workspace).containers
  {
    DownloadedRow(db, workspace, inv, id);
  }

  lemma {:induction false} UpAlong(db: Db, inv: Inventory, path: seq<ContainerId>, n: nat)
    requires path != [] && Climb(db.nesting, path[0], path)
    requires forall i | 0 <= i < |path| :: path[i] in db.containers && ParentLocation(AtContainer(path[i]), inv) == Some(Around(db, path[i]))
    ensures Up(AtContainer(path[0]), inv, |path| + n) == Up(Around(db, path[|path| - 1]), inv, n)
    decreases |path|
  {
    if path[0] in db.nesting {
      UpAlong(db, inv, path[1..], n);
      assert path[1] == db.nesting[path[0]];
    }
  }

  // Going up from a container ends at the area, after the containers above it
  // and the zone of the outermost one.
  lemma ClimbingReachesArea(db: Db, workspace: Workspace, inv: Inventory, id: ContainerId, path: seq<ContainerId>)
    requires Sound(db) && Downloaded(inv, db, workspace) && id in Load(db, workspace).containers
    requires Climb(db.nesting, id, path)
    ensures
      var root := path[|path| - 1];
      && root in db.containers
      && Up(AtContainer(id), inv, |path| + (if db.containers[root].zone.Some? then 1 else 0)) == Some(AtArea(db.containers[id].area))
  {
    ClimbStaysInArea(db, id, path);
    forall i | 0 <= i < |path|
      ensures path[i] in db.containers && ParentLocation(AtContainer(path[i]), inv) == Some(Around(db, path[i]))
    {
      assert Usable(db.containers, db.containers[id].area, path[i]);
      ListedAtParent(db, workspace, inv, path[i]);
    }
    UpAlong(db, inv, path, if db.containers[path[|path| - 1]].zone.Some? then 1 else 0);
    ClimbIsEndedTrail(db.nesting, id, path);
    var root := path[|path| - 1];
    assert Usable(db.containers, db.containers[id].area, root);
    ListedAtParent(db, workspace, inv, root);
    assert Up(Around(db, root), inv, 1) == ParentLocation(Around(db, root), inv) || Around(db, root).AtArea?;
  }
}

/** The phone's cache of a workspace: refilled from the server in one transaction,
    keeping the optimistic rows of operations that are still queued. */
module InventoryCache {
  import opened Common

  type Workspace = string
  type EntityId = string
  type OperationId = string

  datatype Kind = Area | Zone | Container | Placement | Item | Identifier | ItemPlacement

  // A cached entity; body stands for every other field of its JSON text.
  datatype Entry = Entry(id: EntityId, body: string)

  datatype Key = Key(workspace: Workspace, kind: Kind, id: EntityId)

  type Cache = map<Key, Entry>

  datatype Inventory = Inventory(
    areas: seq<Entry>,
    zones: seq<Entry>,
    containers: seq<Entry>,
    placements: seq<Entry>,
    items: seq<Entry>,
    identifiers: seq<Entry>,
    itemPlacements: seq<Entry>,
    syncedAt: Option<string>)

  const KINDS := [Area, Zone, Container, Placement, Item, Identifier, ItemPlacement]

  const LOCAL_PLACEMENT := "local-placement-"

  function ListOf(inventory: Inventory, kind: Kind): seq<Entry> {
    match kind
    case Area => inventory.areas
    case Zone => inventory.zones
    case Container => inventory.containers
    case Placement => inventory.placements
    case Item => inventory.items
    case Identifier => inventory.identifiers
    case ItemPlacement => inventory.itemPlacements
  }

  ghost predicate DistinctIds(entries: seq<Entry>) {
    forall i, j | 0 <= i < j < |entries| :: entries[i].id != entries[j].id
  }

  // What the primary key of the cache asks of an inventory.
  ghost predicate Storable(inventory: Inventory) {
    forall kind :: DistinctIds(ListOf(inventory, kind))
  }

  predicate HasId(entries: seq<Entry>, id: EntityId) {
    exists i :: 0 <= i < |entries| && entries[i].id == id
  }

  // Rows are stored under the id of the entity they hold.
  predicate KeyedById(cache: Cache) {
    forall key | key in cache :: cache[key].id == key.id
  }

  // after holds exactly the inventory for the workspace, and what before holds
  // for every other one.
  ghost predicate Refilled(before: Cache, after: Cache, workspace: Workspace, inventory: Inventory) {
    && (forall key: Key | key.workspace != workspace :: key in after <==> key in before)
    && (forall key: Key | key.workspace != workspace && key in after :: after[key] == before[key])
    && (forall key: Key | key.workspace == workspace :: key in after <==> HasId(ListOf(inventory, key.kind), key.id))
    && (forall key: Key | key.workspace == workspace && key in after :: after[key] in ListOf(inventory, key.kind) && after[key].id == key.id)
  }

  // --- optimistic rows ------------------------------------------------------------------

  // The operation owns the entity id: its draft's item, or its placement.
  predicate Owns(operation: OperationId, id: EntityId) {
    id == operation || id == LOCAL_PLACEMENT + operation
  }

  // The join condition between a cached row and a queued operation.
  predicate Belongs(key: Key, operation: OperationId) {
    Owns(operation, key.id)
  }

  function LocalPairs(cache: Cache, operations: map<OperationId, Workspace>, workspace: Workspace): set<(Key, OperationId)> {
    set key, operation | key in cache && operation in operations && operations[operation] == workspace && Belongs(key, operation) ::
      (key, operation)
  }

  predicate OfKind(pair: (Key, OperationId), kind: Kind) {
    pair.0.kind == kind
  }

  // The entity is cached for a queued operation of the workspace.
  predicate Optimistic(cache: Cache, operations: map<OperationId, Workspace>, workspace: Workspace, kind: Kind, e: Entry) {
    && kind in {Item, ItemPlacement}
    && exists key, operation :: key in cache && cache[key] == e && key.kind == kind
                                && operation in operations && operations[operation] == workspace && Belongs(key, operation)
  }

  function FilterKind(cache: Cache, rows: seq<(Key, OperationId)>, kind: Kind): seq<Entry>
    requires forall i | 0 <= i < |rows| :: rows[i].0 in cache
  {
    if rows == [] then [] else
      FilterKind(cache, rows[..|rows| - 1], kind)
      + (if OfKind(rows[|rows| - 1], kind) then [cache[rows[|rows| - 1].0]] else [])
  }

  lemma {:induction false} FilterKindHas(cache: Cache, rows: seq<(Key, OperationId)>, kind: Kind, e: Entry)
    requires forall i | 0 <= i < |rows| :: rows[i].0 in cache
    ensures e in FilterKind(cache, rows, kind) <==> exists i :: 0 <= i < |rows| && OfKind(rows[i], kind) && cache[rows[i].0] == e
  {
    if rows != [] {
      var last := |rows| - 1;
      FilterKindHas(cache, rows[..last], kind, e);
      if i :| 0 <= i < |rows| && OfKind(rows[i], kind) && cache[rows[i].0] == e {
        assert i < last ==> rows[..last][i] == rows[i];
      }
    }
  }

  function Combined(server: Inventory, cache: Cache, rows: seq<(Key, OperationId)>, now: string): Inventory
    requires forall i | 0 <= i < |rows| :: rows[i].0 in cache
  {
    server.(items := server.items + FilterKind(cache, rows, Item),
            itemPlacements := server.itemPlacements + FilterKind(cache, rows, ItemPlacement),
            syncedAt := Some(now))
  }

  // rows lists every pair of the join once, in any order.
  ghost predicate ListsPairs(rows: seq<(Key, OperationId)>, pairs: set<(Key, OperationId)>) {
    Distinct(rows) && forall pair :: pair in pairs <==> pair in rows
  }

  lemma HasIdConcat(a: seq<Entry>, b: seq<Entry>, id: EntityId)
    ensures HasId(a + b, id) <==> HasId(a, id) || HasId(b, id)
  {
    if i :| 0 <= i < |a| && a[i].id == id {
      assert (a + b)[i] == a[i];
    }
    if i :| 0 <= i < |b| && b[i].id == id {
      assert (a + b)[|a| + i] == b[i];
    }
  }

  // The combined inventory has the server's entities and the optimistic items
  // and item placements, each as it was listed or cached, and nothing else.
  lemma CombinedHas(server: Inventory, cache: Cache, operations: map<OperationId, Workspace>, workspace: Workspace,
                    rows: seq<(Key, OperationId)>, now: string, kind: Kind, e: Entry)
    requires ListsPairs(rows, LocalPairs(cache, operations, workspace))
    requires forall i | 0 <= i < |rows| :: rows[i].0 in cache
    ensures e in ListOf(Combined(server, cache, rows, now), kind)
      <==> e in ListOf(server, kind) || Optimistic(cache, operations, workspace, kind, e)
  {
    FilterKindHas(cache, rows, kind, e);
    if kind in {Item, ItemPlacement} {
      if i :| 0 <= i < |rows| && OfKind(rows[i], kind) && cache[rows[i].0] == e {
        assert rows[i] in LocalPairs(cache, operations, workspace);
      }
      if Optimistic(cache, operations, workspace, kind, e) {
        var key, operation :| key in cache && cache[key] == e && key.kind == kind
          && operation in operations && operations[operation] == workspace && Belongs(key, operation);
        assert (key, operation) in LocalPairs(cache, operations, workspace);
        var i :| 0 <= i < |rows| && rows[i] == (key, operation);
        assert OfKind(rows[i], kind);
      }
    }
  }

  // --- what the cache holds ------------------------------------------------------------

  predicate Caches(cache: Cache, workspace: Workspace, kind: Kind, e: Entry) {
    Key(workspace, kind, e.id) in cache && cache[Key(workspace, kind, e.id)] == e
  }

  lemma SameIdSameEntry(entries: seq<Entry>, a: Entry, b: Entry)
    requires DistinctIds(entries) && a in entries && b in entries && a.id == b.id
    ensures a == b
  {
  }

  // A refilled cache holds the inventory's entries themselves.
  lemma RefilledCaches(before: Cache, after: Cache, workspace: Workspace, inventory: Inventory, kind: Kind, e: Entry)
    requires Refilled(before, after, workspace, inventory) && Storable(inventory)
    ensures Caches(after, workspace, kind, e) <==> e in ListOf(inventory, kind)
  {
    var stored := ListOf(inventory, kind);
    if e in stored {
      assert HasId(stored, e.id);
      SameIdSameEntry(stored, e, after[Key(workspace, kind, e.id)]);
    }
  }

  function WithEntry(cache: Cache, workspace: Workspace, kind: Kind, entry: Option<Entry>): Cache {
    if entry.Some? then cache[Key(workspace, kind, entry.value.id) := entry.value] else cache
  }

  // The rows of the draft leave the cache, whatever their kind.
  function WithoutDraft(cache: Cache, workspace: Workspace, operation: OperationId): Cache {
    map key | key in cache && !(key.workspace == workspace && Belongs(key, operation)) :: cache[key]
  }

  // --- reading back -----------------------------------------------------------------------

  predicate SameEntries(a: seq<Entry>, b: seq<Entry>) {
    multiset(a) == multiset(b)
  }

  lemma {:induction false} DistinctCount(s: seq<Entry>, e: Entry)
    requires DistinctIds(s)
    ensures multiset(s)[e] == if e in s then 1 else 0
  {
    if s != [] {
      var front, last := s[..|s| - 1], s[|s| - 1];
      DistinctCount(front, e);
      assert s == front + [last];
      assert forall i | 0 <= i < |front| :: front[i] == s[i];
    }
  }

  // Two lists without repeated ids and with the same members are permutations.
  lemma SameMembersSameEntries(a: seq<Entry>, b: seq<Entry>)
    requires DistinctIds(a) && DistinctIds(b) && forall e :: e in a <==> e in b
    ensures SameEntries(a, b)
  {
    forall e ensures multiset(a)[e] == multiset(b)[e] {
      DistinctCount(a, e);
      DistinctCount(b, e);
    }
  }

  // The rows of one kind, in any order.
  ghost predicate ReadsKind(cache: Cache, workspace: Workspace, kind: Kind, entries: seq<Entry>) {
    DistinctIds(entries) && forall e :: e in entries <==> Caches(cache, workspace, kind, e)
  }

  // Reading a refilled cache gives the inventory up to order.
  lemma ReadBackGivesInventory(before: Cache, after: Cache, workspace: Workspace, inventory: Inventory, kind: Kind, entries: seq<Entry>)
    requires Refilled(before, after, workspace, inventory) && Storable(inventory) && ReadsKind(after, workspace, kind, entries)
    ensures SameEntries(entries, ListOf(inventory, kind))
  {
    forall e ensures e in entries <==> e in ListOf(inventory, kind) {
      RefilledCaches(before, after, workspace, inventory, kind, e);
    }
    SameMembersSameEntries(entries, ListOf(inventory, kind));
  }
}

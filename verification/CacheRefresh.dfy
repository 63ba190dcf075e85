/** The phone's cache table with the operations that write to it: queueing and
    removing a draft, refreshing a workspace, reading it back, and clearing it. */
module CacheRefresh {
  import opened Common
  import opened InventoryCache

  class LocalStore {
    var cache: Cache
    var operations: map<OperationId, Workspace>
    var syncedAt: map<Workspace, string>

    ghost predicate Valid()
      reads this
    {
      KeyedById(cache)
    }

    constructor ()
      ensures Valid() && cache == map[] && operations == map[] && syncedAt == map[]
    {
      cache, operations, syncedAt := map[], map[], map[];
    }

    // item and placement are the optimistic entities of the draft.  A draft that
    // is queued already keeps its operation; its entities are cached anew.
    method QueueItem(workspace: Workspace, item: Entry, placement: Option<Entry>)
      requires Valid()
      modifies this`cache, this`operations
      ensures Valid()
      ensures forall operation :: operation in operations <==> operation in old(operations) || operation == item.id
      ensures forall operation | operation in operations ::
                operations[operation] == if operation in old(operations) then old(operations)[operation] else workspace
      ensures Caches(cache, workspace, Item, item) && (placement.Some? ==> Caches(cache, workspace, ItemPlacement, placement.value))
      ensures forall key | key != Key(workspace, Item, item.id) && !(placement.Some? && key == Key(workspace, ItemPlacement, placement.value.id)) ::
                (key in cache <==> key in old(cache)) && (key in cache ==> cache[key] == old(cache)[key])
    {
      if item.id !in operations {
        operations := operations[item.id := workspace];
      }
      cache := cache[Key(workspace, Item, item.id) := item];
      if placement.Some? {
        cache := cache[Key(workspace, ItemPlacement, placement.value.id) := placement.value];
      }
    }

    // The operation was accepted by the server and leaves the queue: the rows
    // under its id and its placement's id are gone from the workspace, every
    // other row and operation is as it was, and no row joins it any more.
    method RemoveSynced(workspace: Workspace, operation: OperationId)
      requires Valid()
      modifies this`cache, this`operations
      ensures Valid()
      ensures operation !in operations
      ensures forall other | other != operation ::
                (other in operations <==> other in old(operations)) && (other in operations ==> operations[other] == old(operations)[other])
      ensures forall key: Key | key.workspace == workspace && (key.id == operation || key.id == "local-placement-" + operation) :: key !in cache
      ensures forall key: Key | !(key.workspace == workspace && (key.id == operation || key.id == "local-placement-" + operation)) ::
                (key in cache <==> key in old(cache)) && (key in cache ==> cache[key] == old(cache)[key])
      ensures forall other: Workspace, pair | pair in LocalPairs(cache, operations, other) :: pair.1 != operation
    {
      operations := operations - {operation};
      cache := WithoutDraft(cache, workspace, operation);
    }

    // The join of the cache with the queued operations, in any order.
    method ReadLocalRows(workspace: Workspace) returns (rows: seq<(Key, OperationId)>)
      ensures ListsPairs(rows, LocalPairs(cache, operations, workspace))
      ensures forall i | 0 <= i < |rows| :: rows[i].0 in cache
    {
      rows := [];
      var pairs := LocalPairs(cache, operations, workspace);
      var rest := pairs;
      while rest != {}
        invariant rest <= pairs && Distinct(rows)
        invariant forall pair :: pair in rows <==> pair in pairs && pair !in rest
      {
        var pair :| pair in rest;
        rows := rows + [pair];
        rest := rest - {pair};
      }
      forall i | 0 <= i < |rows| ensures rows[i].0 in cache {
        assert rows[i] in pairs;
      }
    }

    // The transaction: the workspace is emptied and filled again; a repeated id
    // violates the primary key and rolls everything back.
    method Refill(workspace: Workspace, inventory: Inventory) returns (ok: bool)
      requires inventory.syncedAt.Some?
      modifies this`cache, this`syncedAt
      ensures ok <==> Storable(inventory)
      ensures ok ==> Refilled(old(cache), cache, workspace, inventory)
      ensures ok ==> syncedAt == old(syncedAt)[workspace := inventory.syncedAt.value]
      ensures !ok ==> cache == old(cache) && syncedAt == old(syncedAt)
    {
      var next: Cache := map key | key in cache && key.workspace != workspace :: cache[key];
      for k := 0 to |KINDS|
        invariant cache == old(cache) && syncedAt == old(syncedAt)
        invariant forall kind | kind in KINDS[..k] :: DistinctIds(ListOf(inventory, kind))
        invariant FilledFor(cache, next, workspace, inventory, KINDS[..k])
      {
        var inserted := InsertAll(next, workspace, KINDS[k], ListOf(inventory, KINDS[k]));
        if inserted == None {
          return false;
        }
        KindsDiffer(k);
        assert KINDS[..k + 1] == KINDS[..k] + [KINDS[k]];
        next := inserted.value;
      }
      AllKinds();
      assert KINDS[..|KINDS|] == KINDS;
      cache := next;
      syncedAt := syncedAt[workspace := inventory.syncedAt.value];
      return true;
    }

    // server is what the listings returned.  Nothing is queued or removed
    // between the local read and the transaction.
    method SyncInventoryOnce(workspace: Workspace, server: Inventory, now: string) returns (r: Option<Inventory>)
      requires Valid()
      modifies this`cache, this`syncedAt
      ensures Valid()
      ensures r == None ==> cache == old(cache) && syncedAt == old(syncedAt)
      ensures r.Some? ==> Storable(r.value) && Refilled(old(cache), cache, workspace, r.value)
      ensures r.Some? ==> r.value.syncedAt == Some(now) && syncedAt == old(syncedAt)[workspace := now]
      ensures r.Some? ==> forall kind, e ::
                e in ListOf(r.value, kind) <==> e in ListOf(server, kind) || Optimistic(old(cache), operations, workspace, kind, e)
      ensures r.Some? ==> forall kind, e ::
                Caches(cache, workspace, kind, e) <==> e in ListOf(server, kind) || Optimistic(old(cache), operations, workspace, kind, e)
    {
      var rows := ReadLocalRows(workspace);
      var inventory := Combined(server, cache, rows, now);
      forall kind, e ensures e in ListOf(inventory, kind) <==> e in ListOf(server, kind) || Optimistic(cache, operations, workspace, kind, e) {
        CombinedHas(server, cache, operations, workspace, rows, now, kind, e);
      }
      ghost var before := cache;
      var ok := Refill(workspace, inventory);
      if !ok {
        return None;
      }
      RefilledIsKeyed(before, cache, workspace, inventory);
      forall kind, e ensures Caches(cache, workspace, kind, e) <==> e in ListOf(inventory, kind) {
        RefilledCaches(before, cache, workspace, inventory, kind, e);
      }
      return Some(inventory);
    }

    method ReadKind(workspace: Workspace, kind: Kind) returns (entries: seq<Entry>)
      requires Valid()
      ensures ReadsKind(cache, workspace, kind, entries)
    {
      entries := [];
      var keys := set key | key in cache && key.workspace == workspace && key.kind == kind;
      var rest := keys;
      while rest != {}
        invariant rest <= keys && DistinctIds(entries)
        invariant forall e :: e in entries <==>
                    Key(workspace, kind, e.id) in keys && Key(workspace, kind, e.id) !in rest && cache[Key(workspace, kind, e.id)] == e
      {
        var key :| key in rest;
        entries := entries + [cache[key]];
        rest := rest - {key};
      }
    }

    method LoadCachedInventory(workspace: Workspace) returns (inventory: Inventory)
      requires Valid()
      ensures forall kind :: ReadsKind(cache, workspace, kind, ListOf(inventory, kind))
      ensures inventory.syncedAt == if workspace in syncedAt then Some(syncedAt[workspace]) else None
    {
      var areas := ReadKind(workspace, Area);
      var zones := ReadKind(workspace, Zone);
      var containers := ReadKind(workspace, Container);
      var placements := ReadKind(workspace, Placement);
      var items := ReadKind(workspace, Item);
      var identifiers := ReadKind(workspace, Identifier);
      var itemPlacements := ReadKind(workspace, ItemPlacement);
      inventory := Inventory(areas, zones, containers, placements, items, identifiers, itemPlacements,
                             if workspace in syncedAt then Some(syncedAt[workspace]) else None);
    }

    method ClearInventoryCache(workspace: Workspace)
      requires Valid()
      modifies this`cache, this`syncedAt
      ensures Valid() && syncedAt == old(syncedAt) - {workspace}
      ensures cache == map key | key in old(cache) && key.workspace != workspace :: old(cache)[key]
    {
      cache := map key | key in cache && key.workspace != workspace :: cache[key];
      syncedAt := syncedAt - {workspace};
    }
  }

  // next holds the inventory of these kinds, and other workspaces as before.
  ghost predicate FilledFor(before: Cache, next: Cache, workspace: Workspace, inventory: Inventory, kinds: seq<Kind>) {
    && (forall key: Key | key.workspace != workspace :: key in next <==> key in before)
    && (forall key: Key | key.workspace != workspace && key in next :: next[key] == before[key])
    && (forall key: Key | key.workspace == workspace :: key in next <==> key.kind in kinds && HasId(ListOf(inventory, key.kind), key.id))
    && (forall key: Key | key.workspace == workspace && key in next :: next[key] in ListOf(inventory, key.kind) && next[key].id == key.id)
  }

  lemma KindsDiffer(k: nat)
    requires k < |KINDS|
    ensures KINDS[k] !in KINDS[..k]
  {
  }

  lemma AllKinds()
    ensures forall kind: Kind :: kind in KINDS
  {
    forall kind: Kind ensures kind in KINDS {
      match kind
      case Area => assert KINDS[0] == kind;
      case Zone => assert KINDS[1] == kind;
      case Container => assert KINDS[2] == kind;
      case Placement => assert KINDS[3] == kind;
      case Item => assert KINDS[4] == kind;
      case Identifier => assert KINDS[5] == kind;
      case ItemPlacement => assert KINDS[6] == kind;
    }
  }

  lemma RefilledIsKeyed(before: Cache, after: Cache, workspace: Workspace, inventory: Inventory)
    requires KeyedById(before) && Refilled(before, after, workspace, inventory)
    ensures KeyedById(after)
  {
  }

  // Inserts the entries of one kind; None when an id is already there.
  method InsertAll(start: Cache, workspace: Workspace, kind: Kind, entries: seq<Entry>) returns (r: Option<Cache>)
    requires forall key | key in start && key.workspace == workspace :: key.kind != kind
    ensures r.Some? <==> DistinctIds(entries)
    ensures r.Some? ==>
              && (forall key: Key | key.workspace != workspace || key.kind != kind :: key in r.value <==> key in start)
              && (forall key: Key | (key.workspace != workspace || key.kind != kind) && key in r.value :: r.value[key] == start[key])
              && (forall key: Key | key.workspace == workspace && key.kind == kind :: key in r.value <==> HasId(entries, key.id))
              && (forall key: Key | key.workspace == workspace && key.kind == kind && key in r.value ::
                    r.value[key] in entries && r.value[key].id == key.id)
  {
    var next := start;
    for i := 0 to |entries|
      invariant DistinctIds(entries[..i])
      invariant forall key: Key | key.workspace != workspace || key.kind != kind :: key in next <==> key in start
      invariant forall key: Key | (key.workspace != workspace || key.kind != kind) && key in next :: next[key] == start[key]
      invariant forall key: Key | key.workspace == workspace && key.kind == kind :: key in next <==> HasId(entries[..i], key.id)
      invariant forall key: Key | key.workspace == workspace && key.kind == kind && key in next ::
                  next[key] in entries[..i] && next[key].id == key.id
    {
      var key := Key(workspace, kind, entries[i].id);
      if key in next {
        var j :| 0 <= j < i && entries[..i][j].id == entries[i].id;
        return None;
      }
      assert entries[..i + 1] == entries[..i] + [entries[i]];
      forall id ensures HasId(entries[..i + 1], id) <==> HasId(entries[..i], id) || id == entries[i].id {
        HasIdConcat(entries[..i], [entries[i]], id);
        assert HasId([entries[i]], id) <==> id == entries[i].id by {
          assert [entries[i]][0] == entries[i];
        }
      }
      forall a, b | 0 <= a < b < i + 1 ensures entries[a].id != entries[b].id {
        if b == i {
          assert entries[..i][a] == entries[a];
          assert HasId(entries[..i], entries[a].id);
        } else {
          assert entries[..i][a].id != entries[..i][b].id;
        }
      }
      next := next[key := entries[i]];
    }
    assert entries[..|entries|] == entries;
    return Some(next);
  }
}

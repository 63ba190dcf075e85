/** Drafts that are queued, or leave the queue, while a refresh of the cache is
    under way: after it has read the optimistic rows and before its transaction. */
module CacheRace {
  import opened Common
  import opened InventoryCache
  import opened CacheRefresh

  // The tables of the phone that matter here.
  datatype Local = Local(cache: Cache, operations: map<OperationId, Workspace>)

  datatype Change = Queue(item: Entry, placement: Option<Entry>) | Remove(operation: OperationId)

  function Changed(s: Local, workspace: Workspace, c: Change): Local {
    match c
    case Queue(item, placement) =>
      Local(WithEntry(WithEntry(s.cache, workspace, Item, Some(item)), workspace, ItemPlacement, placement),
            if item.id in s.operations then s.operations else s.operations[item.id := workspace])
    case Remove(operation) => Local(WithoutDraft(s.cache, workspace, operation), s.operations - {operation})
  }

  function ChangedAll(s: Local, workspace: Workspace, changes: seq<Change>): Local {
    if changes == [] then s else Changed(ChangedAll(s, workspace, changes[..|changes| - 1]), workspace, changes[|changes| - 1])
  }

  // The entity is cached for a queued draft.
  predicate Shows(s: Local, workspace: Workspace, kind: Kind, e: Entry) {
    Optimistic(s.cache, s.operations, workspace, kind, e)
  }

  // The cache is what a refresh promises: the server's entities and those of
  // the drafts that are queued now.
  ghost predicate Current(cache: Cache, workspace: Workspace, server: Inventory, s: Local) {
    forall kind, e :: Caches(cache, workspace, kind, e) <==> e in ListOf(server, kind) || Shows(s, workspace, kind, e)
  }

  // after is the cache when a refresh that read the phone at read has met these
  // changes before its transaction.
  ghost predicate RefreshedThrough(read: Local, workspace: Workspace, changes: seq<Change>, server: Inventory, after: Cache) {
    exists rows, now :: RefreshedWith(read, workspace, changes, server, after, rows, now)
  }

  ghost predicate RefreshedWith(read: Local, workspace: Workspace, changes: seq<Change>, server: Inventory, after: Cache,
                                rows: seq<(Key, OperationId)>, now: string)
  {
    && ListsPairs(rows, LocalPairs(read.cache, read.operations, workspace))
    && (forall i | 0 <= i < |rows| :: rows[i].0 in read.cache)
    && Storable(Combined(server, read.cache, rows, now))
    && Refilled(ChangedAll(read, workspace, changes).cache, after, workspace, Combined(server, read.cache, rows, now))
  }

  // Such a refresh caches what the server lists and what was optimistic at the read.
  lemma RefreshCachesRead(read: Local, workspace: Workspace, changes: seq<Change>, server: Inventory, after: Cache, kind: Kind, e: Entry)
    requires RefreshedThrough(read, workspace, changes, server, after)
    ensures Caches(after, workspace, kind, e) <==> e in ListOf(server, kind) || Shows(read, workspace, kind, e)
  {
    var rows, now :| RefreshedWith(read, workspace, changes, server, after, rows, now);
    var inventory := Combined(server, read.cache, rows, now);
    RefilledCaches(ChangedAll(read, workspace, changes).cache, after, workspace, inventory, kind, e);
    CombinedHas(server, read.cache, read.operations, workspace, rows, now, kind, e);
  }

  // --- one entity id at a time --------------------------------------------------------

  // What of the tables concerns one entity id.
  function Under(s: Local, id: EntityId): Local {
    Local(map key | key in s.cache && key.id == id :: s.cache[key],
          map operation | operation in s.operations && Owns(operation, id) :: s.operations[operation])
  }

  // The change writes or deletes rows of the id, or queues its operation.
  predicate Names(c: Change, id: EntityId) {
    match c
    case Queue(item, placement) => Owns(item.id, id) || (placement.Some? && placement.value.id == id)
    case Remove(operation) => Owns(operation, id)
  }

  ghost predicate AgreeOn(s: Local, t: Local, id: EntityId) {
    && (forall key: Key | key.id == id :: (key in s.cache <==> key in t.cache) && (key in s.cache ==> s.cache[key] == t.cache[key]))
    && (forall operation | Owns(operation, id) ::
          (operation in s.operations <==> operation in t.operations)
          && (operation in s.operations ==> s.operations[operation] == t.operations[operation]))
  }

  lemma UnderMeans(s: Local, t: Local, id: EntityId)
    ensures Under(s, id) == Under(t, id) <==> AgreeOn(s, t, id)
  {
    var a, b := Under(s, id), Under(t, id);
    if a == b {
      forall key: Key | key.id == id
        ensures (key in s.cache <==> key in t.cache) && (key in s.cache ==> s.cache[key] == t.cache[key])
      {
        assert key in a.cache <==> key in b.cache;
      }
      forall operation | Owns(operation, id)
        ensures (operation in s.operations <==> operation in t.operations)
        ensures operation in s.operations ==> s.operations[operation] == t.operations[operation]
      {
        assert operation in a.operations <==> operation in b.operations;
      }
    }
    if AgreeOn(s, t, id) {
      assert a.cache == b.cache;
      assert a.operations == b.operations;
    }
  }

  lemma AgreeAfter(s: Local, t: Local, workspace: Workspace, c: Change, id: EntityId)
    requires AgreeOn(s, t, id)
    ensures AgreeOn(Changed(s, workspace, c), Changed(t, workspace, c), id)
  {
  }

  lemma UnderChanged(s: Local, t: Local, workspace: Workspace, c: Change, id: EntityId)
    requires Under(s, id) == Under(t, id)
    ensures Under(Changed(s, workspace, c), id) == Under(Changed(t, workspace, c), id)
  {
    UnderMeans(s, t, id);
    AgreeAfter(s, t, workspace, c, id);
    UnderMeans(Changed(s, workspace, c), Changed(t, workspace, c), id);
  }

  lemma UnnamedStays(s: Local, workspace: Workspace, c: Change, id: EntityId)
    requires !Names(c, id)
    ensures Under(Changed(s, workspace, c), id) == Under(s, id)
  {
    var a, b := Under(Changed(s, workspace, c), id), Under(s, id);
    assert a.cache == b.cache;
    assert a.operations == b.operations;
  }

  // What becomes of an id depends on its own rows and operations alone.
  lemma {:induction false} UnderReplays(s: Local, workspace: Workspace, changes: seq<Change>, id: EntityId)
    ensures Under(ChangedAll(s, workspace, changes), id) == Under(ChangedAll(Under(s, id), workspace, changes), id)
  {
    if changes == [] {
      assert Under(Under(s, id), id).cache == Under(s, id).cache;
      assert Under(Under(s, id), id).operations == Under(s, id).operations;
    } else {
      var front := changes[..|changes| - 1];
      UnderReplays(s, workspace, front, id);
      UnderChanged(ChangedAll(s, workspace, front), ChangedAll(Under(s, id), workspace, front), workspace, changes[|changes| - 1], id);
    }
  }

  lemma {:induction false} UnnamedStaysAll(s: Local, workspace: Workspace, changes: seq<Change>, id: EntityId)
    requires forall i | 0 <= i < |changes| :: !Names(changes[i], id)
    ensures Under(ChangedAll(s, workspace, changes), id) == Under(s, id)
  {
    if changes != [] {
      var front := changes[..|changes| - 1];
      UnnamedStaysAll(s, workspace, front, id);
      UnnamedStays(ChangedAll(s, workspace, front), workspace, changes[|changes| - 1], id);
    }
  }

  lemma {:induction false} ChangesKeepKeys(s: Local, workspace: Workspace, changes: seq<Change>)
    requires KeyedById(s.cache)
    ensures KeyedById(ChangedAll(s, workspace, changes).cache)
  {
    if changes != [] {
      ChangesKeepKeys(s, workspace, changes[..|changes| - 1]);
    }
  }

  lemma ShowsUnder(s: Local, workspace: Workspace, kind: Kind, e: Entry)
    requires KeyedById(s.cache)
    ensures Shows(s, workspace, kind, e) <==> Shows(Under(s, e.id), workspace, kind, e)
  {
    var u := Under(s, e.id);
    if Shows(s, workspace, kind, e) {
      var key, operation :| key in s.cache && s.cache[key] == e && key.kind == kind
        && operation in s.operations && s.operations[operation] == workspace && Belongs(key, operation);
      assert key in u.cache && operation in u.operations;
    }
  }

  predicate NamedIn(changes: seq<Change>, id: EntityId) {
    exists i :: 0 <= i < |changes| && Names(changes[i], id)
  }

  // What the changes leave of an id, replayed on its own rows and operations.
  function Replayed(read: Local, workspace: Workspace, changes: seq<Change>, id: EntityId): Local {
    Under(ChangedAll(Under(read, id), workspace, changes), id)
  }

  // The refreshed cache is current exactly when, for every id that the changes
  // name, replaying them on that id's rows shows what was shown at the read,
  // entities aside that the server lists.  Changes that cancel do no harm.
  lemma CurrentExactly(read: Local, workspace: Workspace, changes: seq<Change>, server: Inventory, after: Cache)
    requires KeyedById(read.cache) && RefreshedThrough(read, workspace, changes, server, after)
    ensures Current(after, workspace, server, ChangedAll(read, workspace, changes))
      <==> forall kind, e: Entry | NamedIn(changes, e.id) && e !in ListOf(server, kind) ::
             Shows(read, workspace, kind, e) <==> Shows(Replayed(read, workspace, changes, e.id), workspace, kind, e)
  {
    var end := ChangedAll(read, workspace, changes);
    forall kind, e: Entry ensures Caches(after, workspace, kind, e) <==> e in ListOf(server, kind) || Shows(read, workspace, kind, e) {
      RefreshCachesRead(read, workspace, changes, server, after, kind, e);
    }
    forall kind, e: Entry
      ensures Shows(end, workspace, kind, e) <==> Shows(Replayed(read, workspace, changes, e.id), workspace, kind, e)
      ensures !NamedIn(changes, e.id) ==> (Shows(end, workspace, kind, e) <==> Shows(read, workspace, kind, e))
    {
      ChangesKeepKeys(read, workspace, changes);
      ShowsUnder(end, workspace, kind, e);
      ShowsUnder(read, workspace, kind, e);
      UnderReplays(read, workspace, changes, e.id);
      if !NamedIn(changes, e.id) {
        UnnamedStaysAll(read, workspace, changes, e.id);
      }
    }
  }

  // --- drafts that keep their content ---------------------------------------------------

  datatype Draft = Draft(item: Entry, placement: Option<Entry>)

  type Drafts = map<OperationId, Draft>

  function DraftRows(workspace: Workspace, d: Draft): Cache {
    WithEntry(WithEntry(map[], workspace, Item, Some(d.item)), workspace, ItemPlacement, d.placement)
  }

  function RowsOwned(s: Local, operation: OperationId): Cache {
    map key | key in s.cache && Belongs(key, operation) :: s.cache[key]
  }

  // Draft ids, unlike the ids of their placements, do not have the prefix.
  predicate Plain(operation: OperationId) {
    !(LOCAL_PLACEMENT <= operation)
  }

  predicate WellFormed(operation: OperationId, d: Draft) {
    Plain(operation) && d.item.id == operation && (d.placement.Some? ==> d.placement.value.id == LOCAL_PLACEMENT + operation)
  }

  predicate Steady(s: Local, workspace: Workspace, operation: OperationId, d: Draft) {
    if operation in s.operations then s.operations[operation] == workspace && RowsOwned(s, operation) == DraftRows(workspace, d)
    else RowsOwned(s, operation) == map[]
  }

  // Each draft is cached while it is queued, and not otherwise.
  ghost predicate AllSteady(s: Local, workspace: Workspace, drafts: Drafts) {
    && (forall operation | operation in s.operations :: Plain(operation))
    && (forall operation | operation in drafts :: WellFormed(operation, drafts[operation]) && Steady(s, workspace, operation, drafts[operation]))
  }

  // A draft is queued with the same content each time.
  predicate OfDrafts(c: Change, drafts: Drafts) {
    match c
    case Queue(item, placement) => item.id in drafts && drafts[item.id] == Draft(item, placement)
    case Remove(operation) => operation in drafts
  }

  function OperationOf(c: Change): OperationId {
    match c
    case Queue(item, _) => item.id
    case Remove(operation) => operation
  }

  // Whether the draft is queued after the changes: the last one about it decides.
  predicate QueuedAfter(changes: seq<Change>, operation: OperationId, before: bool) {
    if changes == [] then before
    else if OperationOf(changes[|changes| - 1]) == operation then changes[|changes| - 1].Queue?
    else QueuedAfter(changes[..|changes| - 1], operation, before)
  }

  lemma PlainOwnsOne(a: OperationId, b: OperationId, id: EntityId)
    requires Plain(a) && Plain(b) && Owns(a, id) && Owns(b, id)
    ensures a == b
  {
    if id == LOCAL_PLACEMENT + a {
      assert LOCAL_PLACEMENT <= id;
      assert id[|LOCAL_PLACEMENT|..] == a;
      assert (LOCAL_PLACEMENT + b)[|LOCAL_PLACEMENT|..] == b;
    } else {
      assert LOCAL_PLACEMENT <= LOCAL_PLACEMENT + b;
    }
  }

  lemma OwnRowsChange(s: Local, workspace: Workspace, c: Change, drafts: Drafts)
    requires AllSteady(s, workspace, drafts) && OfDrafts(c, drafts)
    ensures Steady(Changed(s, workspace, c), workspace, OperationOf(c), drafts[OperationOf(c)])
  {
    var operation := OperationOf(c);
    var t := Changed(s, workspace, c);
    assert Steady(s, workspace, operation, drafts[operation]);
    forall key | key in RowsOwned(s, operation) ensures key.workspace == workspace {
    }
    if c.Queue? {
      var rows := DraftRows(workspace, drafts[operation]);
      forall key ensures key in RowsOwned(t, operation) <==> key in rows {
        assert key in RowsOwned(s, operation) ==> key in rows;
      }
      assert RowsOwned(t, operation) == rows;
    } else {
      forall key ensures key !in RowsOwned(t, operation) {
        assert key in t.cache && Belongs(key, operation) ==> key in RowsOwned(s, operation);
      }
      assert RowsOwned(t, operation) == map[];
    }
  }

  lemma OtherRowsStay(s: Local, workspace: Workspace, c: Change, drafts: Drafts, other: OperationId)
    requires AllSteady(s, workspace, drafts) && OfDrafts(c, drafts) && other in drafts && other != OperationOf(c)
    ensures Steady(Changed(s, workspace, c), workspace, other, drafts[other])
  {
    var operation := OperationOf(c);
    var t := Changed(s, workspace, c);
    assert WellFormed(operation, drafts[operation]) && WellFormed(other, drafts[other]);
    forall id | Owns(other, id) ensures !Names(c, id) {
      if Owns(operation, id) {
        PlainOwnsOne(operation, other, id);
      }
    }
    assert RowsOwned(t, other) == RowsOwned(s, other);
    assert other in t.operations <==> other in s.operations;
  }

  lemma ChangeKeepsSteady(s: Local, workspace: Workspace, c: Change, drafts: Drafts)
    requires AllSteady(s, workspace, drafts) && OfDrafts(c, drafts)
    ensures AllSteady(Changed(s, workspace, c), workspace, drafts)
  {
    forall operation | operation in drafts ensures Steady(Changed(s, workspace, c), workspace, operation, drafts[operation]) {
      if operation == OperationOf(c) {
        OwnRowsChange(s, workspace, c, drafts);
      } else {
        OtherRowsStay(s, workspace, c, drafts, operation);
      }
    }
    assert WellFormed(OperationOf(c), drafts[OperationOf(c)]);
  }

  lemma {:induction false} ChangesKeepSteady(s: Local, workspace: Workspace, changes: seq<Change>, drafts: Drafts)
    requires AllSteady(s, workspace, drafts) && forall i | 0 <= i < |changes| :: OfDrafts(changes[i], drafts)
    ensures AllSteady(ChangedAll(s, workspace, changes), workspace, drafts)
    ensures forall operation | operation in drafts ::
      operation in ChangedAll(s, workspace, changes).operations <==> QueuedAfter(changes, operation, operation in s.operations)
  {
    if changes != [] {
      ChangesKeepSteady(s, workspace, changes[..|changes| - 1], drafts);
      ChangeKeepsSteady(ChangedAll(s, workspace, changes[..|changes| - 1]), workspace, changes[|changes| - 1], drafts);
    }
  }

  predicate HasEntry(d: Draft, kind: Kind, e: Entry) {
    (kind == Item && e == d.item) || (kind == ItemPlacement && d.placement == Some(e))
  }

  // Under a draft's ids only the draft itself shows, while it is queued.
  lemma ShowsDraft(s: Local, workspace: Workspace, drafts: Drafts, operation: OperationId, kind: Kind, e: Entry)
    requires KeyedById(s.cache) && AllSteady(s, workspace, drafts) && operation in drafts && Owns(operation, e.id)
    ensures Shows(s, workspace, kind, e) <==> operation in s.operations && HasEntry(drafts[operation], kind, e)
  {
    var d := drafts[operation];
    assert WellFormed(operation, d) && Steady(s, workspace, operation, d);
    if Shows(s, workspace, kind, e) {
      var key, other :| key in s.cache && s.cache[key] == e && key.kind == kind
        && other in s.operations && s.operations[other] == workspace && Belongs(key, other);
      PlainOwnsOne(operation, other, e.id);
      assert key in RowsOwned(s, operation);
    }
    if operation in s.operations && HasEntry(d, kind, e) {
      var key := Key(workspace, kind, e.id);
      assert key in DraftRows(workspace, d) && DraftRows(workspace, d)[key] == e;
      assert key in RowsOwned(s, operation) && s.cache[key] == e && Belongs(key, operation);
    }
  }

  predicate Listed(server: Inventory, d: Draft) {
    d.item in server.items && (d.placement.Some? ==> d.placement.value in server.itemPlacements)
  }

  // On balance the draft joined the queue or left it.
  predicate Moved(read: Local, changes: seq<Change>, operation: OperationId) {
    (operation in read.operations) != QueuedAfter(changes, operation, operation in read.operations)
  }

  predicate EntryMoved(read: Local, changes: seq<Change>, drafts: Drafts, operation: OperationId, kind: Kind, e: Entry) {
    operation in drafts && Moved(read, changes, operation) && HasEntry(drafts[operation], kind, e)
  }

  // The changes alter what shows for an entity exactly when its draft moved.
  lemma DifferenceIsMove(read: Local, workspace: Workspace, changes: seq<Change>, drafts: Drafts, kind: Kind, e: Entry)
    requires KeyedById(read.cache) && AllSteady(read, workspace, drafts)
    requires forall i | 0 <= i < |changes| :: OfDrafts(changes[i], drafts)
    ensures Shows(read, workspace, kind, e) != Shows(ChangedAll(read, workspace, changes), workspace, kind, e)
      <==> exists operation :: EntryMoved(read, changes, drafts, operation, kind, e)
  {
    var end := ChangedAll(read, workspace, changes);
    ChangesKeepKeys(read, workspace, changes);
    ChangesKeepSteady(read, workspace, changes, drafts);
    if operation :| EntryMoved(read, changes, drafts, operation, kind, e) {
      assert WellFormed(operation, drafts[operation]);
      ShowsDraft(read, workspace, drafts, operation, kind, e);
      ShowsDraft(end, workspace, drafts, operation, kind, e);
    }
    if Shows(read, workspace, kind, e) != Shows(end, workspace, kind, e) {
      var operation := DifferenceNamed(read, workspace, changes, drafts, kind, e);
      ShowsDraft(read, workspace, drafts, operation, kind, e);
      ShowsDraft(end, workspace, drafts, operation, kind, e);
      assert EntryMoved(read, changes, drafts, operation, kind, e);
    }
  }

  lemma DifferenceNamed(read: Local, workspace: Workspace, changes: seq<Change>, drafts: Drafts, kind: Kind, e: Entry)
    returns (operation: OperationId)
    requires KeyedById(read.cache) && forall i | 0 <= i < |changes| :: OfDrafts(changes[i], drafts)
    requires forall o | o in drafts :: WellFormed(o, drafts[o])
    requires Shows(read, workspace, kind, e) != Shows(ChangedAll(read, workspace, changes), workspace, kind, e)
    ensures operation in drafts && Owns(operation, e.id)
  {
    ChangesKeepKeys(read, workspace, changes);
    ShowsUnder(read, workspace, kind, e);
    ShowsUnder(ChangedAll(read, workspace, changes), workspace, kind, e);
    if forall i | 0 <= i < |changes| :: !Names(changes[i], e.id) {
      UnnamedStaysAll(read, workspace, changes, e.id);
    }
    var i :| 0 <= i < |changes| && Names(changes[i], e.id);
    operation := OperationOf(changes[i]);
    assert OfDrafts(changes[i], drafts) && WellFormed(operation, drafts[operation]);
  }

  lemma CurrentMeans(read: Local, workspace: Workspace, changes: seq<Change>, server: Inventory, after: Cache)
    requires RefreshedThrough(read, workspace, changes, server, after)
    ensures Current(after, workspace, server, ChangedAll(read, workspace, changes))
      <==> forall kind, e: Entry | e !in ListOf(server, kind) ::
             Shows(read, workspace, kind, e) == Shows(ChangedAll(read, workspace, changes), workspace, kind, e)
  {
    forall kind, e: Entry ensures Caches(after, workspace, kind, e) <==> e in ListOf(server, kind) || Shows(read, workspace, kind, e) {
      RefreshCachesRead(read, workspace, changes, server, after, kind, e);
    }
  }

  // Drafts that keep their content leave the refreshed cache current exactly
  // when the server lists the item and the placement of every draft that on
  // balance joined or left the queue.
  lemma CurrentUnlessDraftsMoved(read: Local, workspace: Workspace, changes: seq<Change>, server: Inventory, after: Cache, drafts: Drafts)
    requires KeyedById(read.cache) && RefreshedThrough(read, workspace, changes, server, after)
    requires AllSteady(read, workspace, drafts) && forall i | 0 <= i < |changes| :: OfDrafts(changes[i], drafts)
    ensures Current(after, workspace, server, ChangedAll(read, workspace, changes))
      <==> forall operation | operation in drafts && Moved(read, changes, operation) :: Listed(server, drafts[operation])
  {
    CurrentMeans(read, workspace, changes, server, after);
    var end := ChangedAll(read, workspace, changes);
    forall kind, e: Entry
      ensures Shows(read, workspace, kind, e) != Shows(end, workspace, kind, e)
        <==> exists operation :: EntryMoved(read, changes, drafts, operation, kind, e)
    {
      DifferenceIsMove(read, workspace, changes, drafts, kind, e);
    }
    ListedMeans(read, changes, server, drafts);
  }

  lemma ListedMeans(read: Local, changes: seq<Change>, server: Inventory, drafts: Drafts)
    ensures (forall operation | operation in drafts && Moved(read, changes, operation) :: Listed(server, drafts[operation]))
      <==> forall operation, kind, e | EntryMoved(read, changes, drafts, operation, kind, e) :: e in ListOf(server, kind)
  {
    if forall operation, kind, e | EntryMoved(read, changes, drafts, operation, kind, e) :: e in ListOf(server, kind) {
      forall operation | operation in drafts && Moved(read, changes, operation) ensures Listed(server, drafts[operation]) {
        var d := drafts[operation];
        assert EntryMoved(read, changes, drafts, operation, Item, d.item);
        assert d.placement.Some? ==> EntryMoved(read, changes, drafts, operation, ItemPlacement, d.placement.value);
      }
    }
  }

  // Queueing a draft that was not there and removing it again leaves no trace.
  lemma QueueThenRemove(s: Local, workspace: Workspace, operation: OperationId, d: Draft)
    requires WellFormed(operation, d) && operation !in s.operations && RowsOwned(s, operation) == map[]
    ensures ChangedAll(s, workspace, [Queue(d.item, d.placement), Remove(operation)]) == s
  {
    var changes := [Queue(d.item, d.placement), Remove(operation)];
    assert changes[..1] == [changes[0]] && changes[..1][..0] == [];
    assert ChangedAll(s, workspace, changes[..1]) == Changed(s, workspace, changes[0]);
    var t := Changed(Changed(s, workspace, changes[0]), workspace, changes[1]);
    forall key | key in s.cache ensures !Belongs(key, operation) {
      assert key !in RowsOwned(s, operation);
    }
    assert t.cache == s.cache && t.operations == s.operations;
  }

  // --- two runs -------------------------------------------------------------------------

  function NothingListed(): Inventory {
    Inventory([], [], [], [], [], [], [], None)
  }

  // A draft queued after the read is gone from the cache while it is queued.
  lemma DraftIsLost(workspace: Workspace, item: Entry)
    ensures
      var read := Local(map[], map[]);
      var end := ChangedAll(read, workspace, [Queue(item, None)]);
      && RefreshedThrough(read, workspace, [Queue(item, None)], NothingListed(), map[])
      && Shows(end, workspace, Item, item) && Caches(end.cache, workspace, Item, item) && !Caches(map[], workspace, Item, item)
  {
    var read := Local(map[], map[]);
    var changes := [Queue(item, None)];
    assert changes[..0] == [];
    var end := ChangedAll(read, workspace, changes);
    var rows: seq<(Key, OperationId)> := [];
    assert ListsPairs(rows, LocalPairs(read.cache, read.operations, workspace));
    assert RefreshedWith(read, workspace, changes, NothingListed(), map[], rows, "");
    assert Belongs(Key(workspace, Item, item.id), item.id);
  }

  lemma OneRemoved(workspace: Workspace, item: Entry)
    ensures ChangedAll(Local(map[Key(workspace, Item, item.id) := item], map[item.id := workspace]), workspace, [Remove(item.id)])
         == Local(map[], map[])
  {
    var read := Local(map[Key(workspace, Item, item.id) := item], map[item.id := workspace]);
    var changes := [Remove(item.id)];
    assert changes[..0] == [];
    assert Belongs(Key(workspace, Item, item.id), item.id);
    var end := Changed(read, workspace, Remove(item.id));
    assert end.cache == map[] && end.operations == map[];
  }

  lemma OneRow(cached: Cache, key: Key, operation: OperationId)
    requires key in cached && key.kind == Item
    ensures
      var inventory := Combined(NothingListed(), cached, [(key, operation)], "");
      inventory.items == [cached[key]] && inventory.itemPlacements == []
  {
    var rows := [(key, operation)];
    assert rows[..0] == [] && OfKind(rows[0], Item) && !OfKind(rows[0], ItemPlacement);
    assert FilterKind(cached, rows[..0], Item) == [] && FilterKind(cached, rows[..0], ItemPlacement) == [];
  }

  // A draft that was synced after the read is back in the cache, although
  // nothing is queued and the server does not list it under its local id.
  lemma DraftComesBack(workspace: Workspace, item: Entry)
    ensures
      var cached: Cache := map[Key(workspace, Item, item.id) := item];
      var read := Local(cached, map[item.id := workspace]);
      var end := ChangedAll(read, workspace, [Remove(item.id)]);
      && RefreshedThrough(read, workspace, [Remove(item.id)], NothingListed(), cached)
      && end == Local(map[], map[]) && Caches(cached, workspace, Item, item)
  {
    var key := Key(workspace, Item, item.id);
    var cached: Cache := map[key := item];
    var read := Local(cached, map[item.id := workspace]);
    var rows := [(key, item.id)];
    OneRemoved(workspace, item);
    OneRow(cached, key, item.id);
    assert Belongs(key, item.id);
    assert LocalPairs(cached, read.operations, workspace) == {(key, item.id)};
    assert rows[0] in rows;
    var inventory := Combined(NothingListed(), cached, rows, "");
    assert inventory.items[0] == item;
    assert Refilled(map[], cached, workspace, inventory);
    assert RefreshedWith(read, workspace, [Remove(item.id)], NothingListed(), cached, rows, "");
  }

  // --- the refresh with its two steps ------------------------------------------------------

  ghost function TablesOf(store: LocalStore): Local
    reads store
  {
    Local(store.cache, store.operations)
  }

  method Apply(store: LocalStore, workspace: Workspace, c: Change)
    requires store.Valid()
    modifies store`cache, store`operations
    ensures store.Valid() && TablesOf(store) == Changed(old(TablesOf(store)), workspace, c)
  {
    ghost var expected := Changed(TablesOf(store), workspace, c);
    match c {
      case Queue(item, placement) => store.QueueItem(workspace, item, placement);
      case Remove(operation) => store.RemoveSynced(workspace, operation);
    }
    assert store.cache == expected.cache;
    assert store.operations == expected.operations;
  }

  // syncInventoryOnce with other calls between its local read and its transaction.
  method SyncInventoryThrough(store: LocalStore, workspace: Workspace, server: Inventory, now: string, changes: seq<Change>)
    returns (ok: bool)
    requires store.Valid()
    modifies store
    ensures store.operations == ChangedAll(old(TablesOf(store)), workspace, changes).operations
    ensures !ok ==> TablesOf(store) == ChangedAll(old(TablesOf(store)), workspace, changes)
    ensures ok ==> RefreshedThrough(old(TablesOf(store)), workspace, changes, server, store.cache)
  {
    ghost var read := TablesOf(store);
    var rows := store.ReadLocalRows(workspace);
    var inventory := Combined(server, store.cache, rows, now);
    assert changes[..0] == [];
    for i := 0 to |changes|
      invariant store.Valid() && TablesOf(store) == ChangedAll(read, workspace, changes[..i])
    {
      assert changes[..i + 1][..i] == changes[..i];
      Apply(store, workspace, changes[i]);
    }
    assert changes[..|changes|] == changes;
    ok := store.Refill(workspace, inventory);
    assert ok ==> RefreshedWith(read, workspace, changes, server, store.cache, rows, now);
  }
}

/** The offline queue in imperative form: the app process with its tables and
    variables, the requests on the network, and the server's items.  Each method
    is the code between two awaits, or one server transaction; the recorded
    history is a run of the state machine, so its theorems hold at all times. */
module QueueService {
  import opened Common
  import opened QueueModel
  import opened QueueInvariant
  import opened QueueTheorems

  // A draft just queued: one create operation, not tried, not on the server, and
  // due at once.
  ghost predicate QueuedNow(row: Row, workspace: Workspace, draft: Draft) {
    && row.operationType == "item.create" && row.operationVersion == 1
    && row.workspace == workspace && row.draft == draft && row.remote == None
    && row.status == Pending && row.attempts == 0 && row.nextAttemptAt == None
  }

  // The rows a sync takes up: queued for its workspace, waiting, and due.
  ghost predicate Due(row: Row, workspace: Workspace, now: Time) {
    && row.workspace == workspace && (row.status == Pending || row.status == RetryableFailed)
    && (row.nextAttemptAt == None || row.nextAttemptAt.value <= now)
  }

  // The answer to an operation id already used: its item for what it was made
  // from, a conflict for anything else.
  ghost predicate AnsweredFromItem(items: Items, request: Request, reply: Reply) {
    exists id :: id in items && items[id].workspace == request.workspace && items[id].operation == Some(request.operation)
      && reply == (if items[id].createdFrom == request.body then Accepted(id) else Conflict)
  }

  // The list that was read, of exactly the due rows, is what the sync works through.
  ghost predicate ListTaken(order: seq<OperationId>, now: Time, rows: Rows, running: Syncs, syncs: Syncs, ws: Workspace) {
    && (forall op :: op in order <==> op in rows && Due(rows[op], ws, now))
    && syncs.Keys == running.Keys && (forall other | other in running && other != ws :: syncs[other] == running[other])
    && (ws in running ==>
          && syncs[ws].pc == Head && syncs[ws].startEpoch == running[ws].startEpoch && |syncs[ws].todo| == |order|
          && forall i | 0 <= i < |order| :: order[i] in rows && syncs[ws].todo[i] == Entry(order[i], rows[order[i]]))
  }

  ghost predicate FailureRecorded(before: Rows, rows: Rows, operation: OperationId, retry: bool, at: Option<Time>) {
    && rows.Keys == before.Keys && (forall op | op in rows && op != operation :: rows[op] == before[op])
    && (operation in rows ==>
          rows[operation] == before[operation].(status := if retry then RetryableFailed else PermanentlyFailed, nextAttemptAt := at))
  }

  // The sync whose failure was recorded ends if it is to pause, and otherwise
  // goes on with the next row; no other sync moves.
  ghost predicate SyncResumes(running: Syncs, syncs: Syncs, ws: Workspace) {
    && (forall other | other != ws :: (other in syncs <==> other in running) && (other in running ==> syncs[other] == running[other]))
    && (ws in syncs ==> ws in running)
    && (ws in running && running[ws].todo != [] && running[ws].pc == Failing(true) ==> ws !in syncs)
    && (ws in running && running[ws].todo != [] && running[ws].pc == Failing(false) ==>
          ws in syncs && syncs[ws] == Sync(running[ws].startEpoch, running[ws].todo[1..], Head))
  }

  // Every row is out of reach of a sync; nothing but its status and its retry time changed.
  ghost predicate AllGivenUp(before: Rows, rows: Rows) {
    && rows.Keys == before.Keys
    && forall op | op in rows ::
         rows[op] == (if before[op].status == PermanentlyFailed then before[op]
                      else before[op].(status := PermanentlyFailed, nextAttemptAt := None))
  }

  // One more attempt of the row is under way.
  ghost predicate OnlyMarked(before: Rows, rows: Rows, operation: OperationId) {
    && rows.Keys == before.Keys && (forall op | op in rows && op != operation :: rows[op] == before[op])
    && (operation in rows ==> rows[operation] == before[operation].(status := InProgress, attempts := before[operation].attempts + 1))
  }

  // What the callback did to the rows and to the running syncs.
  ghost predicate CallbackRan(callback: Continuation, now: Time, order: seq<OperationId>, before: Rows, running: Syncs, rows: Rows, syncs: Syncs) {
    rows.Keys == before.Keys &&
    match callback
    case Select(ws) => rows == before && ListTaken(order, now, rows, running, syncs, ws)
    case Record(ws, operation, retry, at) => FailureRecorded(before, rows, operation, retry, at) && SyncResumes(running, syncs, ws)
    case Quarantine(_) => syncs == running && AllGivenUp(before, rows)
  }

  // What the startup statements make of the queues: queued operations stay, old
  // drafts are pending creates, old updates are given up for review.
  ghost predicate Started(before: Rows, legacy: Legacy, updates: map<string, LegacyItem>, rows: Rows) {
    && (forall op | op in before :: op in rows
          && rows[op] == before[op].(status := if before[op].status == InProgress then RetryableFailed else before[op].status))
    && (forall op | op in legacy && op !in before :: op in rows
          && rows[op] == Row("item.create", 1, legacy[op].workspace, legacy[op].draft, legacy[op].remote, Pending, 0, None))
    && (forall item | item in updates && "legacy-item-update:" + item !in before && "legacy-item-update:" + item !in legacy ::
          "legacy-item-update:" + item in rows
          && rows["legacy-item-update:" + item] == Row("item.update", 0, updates[item].workspace, updates[item].draft, None, PermanentlyFailed, 0, None))
    && (forall op | op in rows ::
          op in before || op in legacy || exists item :: item in updates && op == "legacy-item-update:" + item)
  }

  class OfflineQueue {
    var rows: Rows
    var legacyItems: Legacy
    var legacyUpdates: map<string, LegacyItem>
    var boot: nat
    var revocationEpoch: nat
    var continuations: seq<Continuation>
    var syncs: Syncs
    var requests: Requests
    var items: Items
    ghost var states: seq<State>
    ghost var actions: seq<Action>

    ghost function Now(): State
      reads this
    {
      State(rows, legacyItems, legacyUpdates, boot, revocationEpoch, continuations, syncs, requests, items)
    }

    ghost predicate Valid()
      reads this
    {
      Run(states, actions) && states[|actions|] == Now()
    }

    // An installation with the queues an older app version may have left.
    constructor (legacyItems: Legacy, legacyUpdates: map<string, LegacyItem>, items: Items)
      requires UniqueKeys(items)
      requires forall op | op in legacyItems :: legacyItems[op].remote.Some? ==>
                 MadeFrom(items, legacyItems[op].remote.value, legacyItems[op].workspace, legacyItems[op].draft.body)
      ensures Valid() && actions == [] && rows == map[] && syncs == map[] && requests == map[] && this.items == items
    {
      rows, this.legacyItems, this.legacyUpdates := map[], legacyItems, legacyUpdates;
      boot, revocationEpoch, continuations, syncs, requests := 0, 0, [], map[], map[];
      this.items := items;
      actions := [];
      states := [State(map[], legacyItems, legacyUpdates, 0, 0, [], map[], map[], items)];
    }

    ghost method Log(a: Action)
      requires Run(states, actions) && Enabled(states[|actions|], a) && Now() == Apply(states[|actions|], a)
      modifies this`states, this`actions
      ensures Valid() && actions == old(actions) + [a] && states == old(states) + [Now()]
    {
      Extend(states, actions, a);
      states, actions := states + [Now()], actions + [a];
    }

    // --- the app process ------------------------------------------------------------

    method QueueItem(workspace: Workspace, draft: Draft) returns (ok: bool)
      requires Valid() && boot == BOOTED
      modifies this
      ensures Valid() && (ok <==> draft.schemaVersion == 1)
      ensures ok ==> Now() == ApplyProcess(old(Now()), ProcessAction.QueueItem(workspace, draft))
      ensures ok ==>
                && draft.localId in rows
                && (forall op | op in rows :: op in old(rows) || op == draft.localId)
                && (forall op | op in old(rows) :: op in rows && rows[op] == old(rows)[op])
      ensures ok && draft.localId !in old(rows) ==> QueuedNow(rows[draft.localId], workspace, draft)
      ensures ok && draft.localId !in old(rows) ==>
                forall now: Time, order | Lists(order, rows, workspace, now) :: draft.localId in order
      ensures !ok ==> Now() == old(Now()) && actions == old(actions)
    {
      if draft.schemaVersion != 1 {
        return false;
      }
      rows := InsertOrIgnore(rows, draft.localId, NewRow(workspace, draft, None));
      Log(Process(ProcessAction.QueueItem(workspace, draft)));
      return true;
    }

    method QuarantinePendingItemsAfterCredentialRemoval()
      requires Valid()
      modifies this
      ensures Valid() && Now() == ApplyProcess(old(Now()), CallQuarantine) && actions == old(actions) + [Process(CallQuarantine)]
      ensures revocationEpoch == old(revocationEpoch) + 1 && rows == old(rows) && syncs == old(syncs)
      ensures continuations == old(continuations) + [Quarantine(revocationEpoch)]
    {
      revocationEpoch := revocationEpoch + 1;
      continuations := continuations + [Quarantine(revocationEpoch)];
      Log(Process(CallQuarantine));
    }

    // A workspace has one running sync; another call joins it.
    method SyncPendingItems(workspace: Workspace)
      requires Valid()
      modifies this
      ensures Valid() && Now() == DoStartSync(old(Now()), workspace)
      ensures workspace in old(syncs) ==> Now() == old(Now())
      ensures workspace !in old(syncs) ==>
                && syncs == old(syncs)[workspace := Sync(revocationEpoch, [], Opening)]
                && continuations == old(continuations) + [Select(workspace)] && rows == old(rows)
    {
      if workspace !in syncs {
        syncs := syncs[workspace := Sync(revocationEpoch, [], Opening)];
        continuations := continuations + [Select(workspace)];
      }
      Log(Process(StartSync(workspace)));
    }

    // The row list arrives at the sync that asked for it.
    method TakeList(ws: Workspace, now: Time, order: seq<OperationId>)
      requires Valid() && boot == BOOTED && continuations != [] && continuations[0] == Select(ws) && Lists(order, rows, ws, now)
      modifies this
      ensures Valid() && Now() == DoContinuation(old(Now()), order) && continuations == old(continuations)[1..]
      ensures rows == old(rows) && ListTaken(order, now, rows, old(syncs), syncs, ws)
    {
      continuations := continuations[1..];
      if ws in syncs {
        syncs := syncs[ws := syncs[ws].(todo := Entries(order, rows), pc := Head)];
      }
      Log(Process(ProcessAction.RunContinuation(now, order)));
    }

    // The sync that waited for its failure to be recorded pauses or goes on.
    method LeaveRow(ws: Workspace)
      modifies this`syncs
      ensures syncs == AfterRecord(old(syncs), ws)
    {
      if ws in syncs && syncs[ws].pc.Failing? && syncs[ws].todo != [] {
        syncs := if syncs[ws].pc.pause then Without(syncs, ws) else syncs[ws := NextEntry(syncs[ws])];
      }
    }

    // The failure of a row is written, and its sync goes on or pauses.
    method RecordFailure(ws: Workspace, operation: OperationId, retry: bool, at: Option<Time>, now: Time)
      requires Valid() && boot == BOOTED && continuations != [] && continuations[0] == Continuation.Record(ws, operation, retry, at)
      modifies this
      ensures Valid() && Now() == DoContinuation(old(Now()), []) && continuations == old(continuations)[1..]
      ensures FailureRecorded(old(rows), rows, operation, retry, at) && SyncResumes(old(syncs), syncs, ws)
    {
      continuations := continuations[1..];
      rows := SetStatus(rows, operation, if retry then RetryableFailed else PermanentlyFailed, at);
      LeaveRow(ws);
      assert Now() == DoRecord(old(Now()), ws, operation, retry, at);
      Log(Process(ProcessAction.RunContinuation(now, [])));
    }

    method LandQuarantine(now: Time)
      requires Valid() && boot == BOOTED && continuations != [] && continuations[0].Quarantine?
      modifies this
      ensures Valid() && Now() == DoContinuation(old(Now()), []) && continuations == old(continuations)[1..]
      ensures syncs == old(syncs) && AllGivenUp(old(rows), rows)
    {
      continuations := continuations[1..];
      rows := QuarantineRows(rows);
      Log(Process(ProcessAction.RunContinuation(now, [])));
    }

    // The callback that registered first runs.
    method RunContinuation(now: Time, order: seq<OperationId>)
      requires Valid() && boot == BOOTED && continuations != []
      requires continuations[0].Select? ==> Lists(order, rows, continuations[0].workspace, now)
      modifies this
      ensures Valid() && Now() == DoContinuation(old(Now()), order)
      ensures continuations == old(continuations)[1..] && CallbackRan(old(continuations)[0], now, order, old(rows), old(syncs), rows, syncs)
    {
      match continuations[0] {
        case Select(ws) => TakeList(ws, now, order);
        case Record(ws, operation, retry, at) => RecordFailure(ws, operation, retry, at, now);
        case Quarantine(_) => LandQuarantine(now);
      }
    }

    method Crash()
      requires Valid()
      modifies this
      ensures Valid() && Now() == ApplyProcess(old(Now()), ProcessAction.Crash)
      ensures rows == old(rows) && legacyItems == old(legacyItems) && legacyUpdates == old(legacyUpdates)
      ensures syncs == map[] && continuations == [] && revocationEpoch == 0 && boot == 0
    {
      boot, revocationEpoch, continuations, syncs := 0, 0, [], map[];
      Log(Process(ProcessAction.Crash));
    }

    method MoveLegacyItems()
      requires Valid() && boot == 0
      modifies this
      ensures Valid() && Now() == old(Now()).(boot := 1, rows := CopyLegacyItems(old(rows), legacyItems))
    {
      rows, boot := CopyLegacyItems(rows, legacyItems), 1;
      Log(Process(BootStep));
    }

    method MoveLegacyUpdates()
      requires Valid() && boot == 1
      modifies this
      ensures Valid() && Now() == old(Now()).(boot := 2, rows := CopyLegacyUpdates(old(rows), legacyUpdates))
    {
      rows, boot := CopyLegacyUpdates(rows, legacyUpdates), 2;
      Log(Process(BootStep));
    }

    method RecoverInterrupted()
      requires Valid() && boot == 2
      modifies this
      ensures Valid() && Now() == old(Now()).(boot := BOOTED, rows := RecoverInProgress(old(rows)))
      ensures rows.Keys == old(rows.Keys) && forall operation | operation in rows :: rows[operation].status != InProgress
    {
      StartupRecovers(Now());
      rows, boot := RecoverInProgress(rows), 3;
      Log(Process(BootStep));
    }

    // The statements that move old queues over and recover interrupted rows.
    method InitializeDatabase()
      requires Valid() && boot == 0
      modifies this
      ensures Valid() && boot == BOOTED
      ensures rows == RecoverInProgress(CopyLegacyUpdates(CopyLegacyItems(old(rows), old(legacyItems)), old(legacyUpdates)))
      ensures forall operation | operation in rows :: rows[operation].status != InProgress
      ensures Started(old(rows), old(legacyItems), old(legacyUpdates), rows)
    {
      StartupMovesQueues(rows, legacyItems, legacyUpdates);
      MoveLegacyItems();
      MoveLegacyUpdates();
      RecoverInterrupted();
    }

    // --- one pass of the loop ------------------------------------------------------------

    // The revocation check and the marking of the row; false when the sync is over.
    method LoopHead(ws: Workspace) returns (working: bool)
      requires Valid() && LoopEnabled(Now(), ws, LoopAction.LoopHead)
      modifies this
      ensures Valid() && Now() == DoLoopHead(old(Now()), ws)
      ensures working <==> ws in syncs
      ensures working <==> old(syncs)[ws].todo != [] && old(syncs)[ws].startEpoch == revocationEpoch
      ensures working ==>
                var entry := old(syncs)[ws].todo[0];
                if entry.row.operationType == "item.create" && entry.row.operationVersion == 1 && entry.row.draft.schemaVersion == 1 then
                  && At(Now(), ws, Marked) && continuations == old(continuations)
                  && OnlyMarked(old(rows), rows, entry.operation)
                else
                  && At(Now(), ws, Failing(false)) && rows == old(rows)
                  && continuations == old(continuations) + [Continuation.Record(ws, entry.operation, false, None)]
    {
      var sync := syncs[ws];
      working := sync.todo != [] && sync.startEpoch == revocationEpoch;
      if !working {
        syncs := Without(syncs, ws);
      } else {
        var entry := sync.todo[0];
        if !Supported(entry.row) {
          syncs := syncs[ws := sync.(pc := Failing(false))];
          continuations := continuations + [Continuation.Record(ws, entry.operation, false, None)];
        } else {
          rows := MarkInProgress(rows, entry.operation);
          syncs := syncs[ws := sync.(pc := Marked)];
        }
      }
      Log(Loop(ws, LoopAction.LoopHead));
    }

    // Sends the create request, unless the item id is already known.
    method SendOrSkip(ws: Workspace, request: RequestId)
      requires Valid() && LoopEnabled(Now(), ws, LoopAction.SendOrSkip(request))
      modifies this
      ensures Valid() && Now() == DoSendOrSkip(old(Now()), ws, request)
      ensures
        var entry := old(syncs)[ws].todo[0];
        if entry.row.remote.Some? then requests == old(requests) && At(Now(), ws, Have(entry.row.remote.value))
        else
          && At(Now(), ws, Waiting(request)) && requests.Keys == old(requests.Keys) + {request}
          && Asks(requests[request], entry.operation, ws) && requests[request].body == entry.row.draft.body
    {
      var sync := syncs[ws];
      var entry := sync.todo[0];
      if entry.row.remote.Some? {
        syncs := syncs[ws := sync.(pc := Have(entry.row.remote.value))];
      } else {
        requests := requests[request := RequestFor(ws, entry)];
        syncs := syncs[ws := sync.(pc := Waiting(request))];
      }
      Log(Loop(ws, LoopAction.SendOrSkip(request)));
    }

    method TakeReply(ws: Workspace)
      requires Valid() && LoopEnabled(Now(), ws, LoopAction.TakeReply)
      modifies this
      ensures Valid() && Now() == DoTakeReply(old(Now()), ws)
      ensures syncs[ws].pc.Have? && requests == old(requests)
      ensures forall op | op in old(rows) && op != syncs[ws].todo[0].operation :: op in rows && rows[op] == old(rows)[op]
      ensures rows.Keys == old(rows.Keys) && old(requests)[old(syncs)[ws].pc.request].phase == Done(Accepted(syncs[ws].pc.item))
      ensures
        var operation := syncs[ws].todo[0].operation;
        operation in rows ==> rows[operation] == old(rows)[operation].(remote := Some(syncs[ws].pc.item))
    {
      var sync := syncs[ws];
      var item := requests[sync.pc.request].phase.reply.item;
      rows := Remember(rows, sync.todo[0].operation, item);
      syncs := syncs[ws := sync.(pc := Have(item))];
      Log(Loop(ws, LoopAction.TakeReply));
    }

    // The catch block.
    method Fail(ws: Workspace, failure: Option<nat>, now: Time)
      requires Valid() && LoopEnabled(Now(), ws, LoopAction.Fail(failure, now))
      modifies this
      ensures Valid() && Now() == DoFail(old(Now()), ws, failure, now) && rows == old(rows)
      ensures old(syncs)[ws].startEpoch != revocationEpoch ==> ws !in syncs && continuations == old(continuations)
      ensures old(syncs)[ws].startEpoch == revocationEpoch ==>
                && At(Now(), ws, Failing(failure in {Some(401), Some(403)}))
                && |continuations| == |old(continuations)| + 1 && continuations[|old(continuations)|].Record?
                && var record := continuations[|old(continuations)|];
                   && record.operation == old(syncs)[ws].todo[0].operation
                   && record.workspace == ws
                   && (record.retry <==> failure == None || failure.value >= 500 || failure.value in {401, 403, 408, 425, 429})
                   && (record.retry <==> record.nextAttemptAt.Some?)
                   && (record.retry ==>
                         var power := PowerOfTwo(old(syncs)[ws].todo[0].row.attempts + 1);
                         record.nextAttemptAt.value == now + 1000 * (if power < 300 then power else 300))
    {
      var sync := syncs[ws];
      if sync.startEpoch != revocationEpoch {
        syncs := Without(syncs, ws);
      } else {
        var policy := ClassifyQueueFailure(failure);
        var entry := sync.todo[0];
        var at := if policy.retry then Some(NextRetryAt(entry.row.attempts + 1, now)) else None;
        RetryDelay(entry.row.attempts + 1, now);
        GivenUpMeansRefused(failure);
        syncs := syncs[ws := sync.(pc := Failing(policy.pause))];
        continuations := continuations + [Continuation.Record(ws, entry.operation, policy.retry, at)];
      }
      Log(Loop(ws, LoopAction.Fail(failure, now)));
    }

    // A row leaves the queue; the server holds the item made from its draft.
    method DeleteRow(ws: Workspace)
      requires Valid() && LoopEnabled(Now(), ws, LoopAction.DeleteRow)
      modifies this
      ensures Valid() && Now() == DoDelete(old(Now()), ws)
      ensures
        var operation := old(syncs)[ws].todo[0].operation;
        && rows.Keys == old(rows.Keys) - {operation} && (forall op | op in rows :: rows[op] == old(rows)[op])
        && legacyItems.Keys == old(legacyItems.Keys) - {operation} && (forall op | op in legacyItems :: legacyItems[op] == old(legacyItems)[op])
        && (operation in old(rows) ==>
              && old(rows)[operation].remote.Some?
              && MadeFrom(items, old(rows)[operation].remote.value, old(rows)[operation].workspace, old(rows)[operation].draft.body))
    {
      var operation := syncs[ws].todo[0].operation;
      rows, legacyItems := Without(rows, operation), Without(legacyItems, operation);
      syncs := syncs[ws := syncs[ws].(pc := Gone)];
      Log(Loop(ws, LoopAction.DeleteRow));
      if operation in old(rows) {
        DeletedOnlyWhenCreated(states, actions, |actions| - 1, operation);
      }
    }

    method NextRow(ws: Workspace)
      requires Valid() && LoopEnabled(Now(), ws, LoopAction.NextRow)
      modifies this
      ensures Valid() && Now() == ApplyLoop(old(Now()), ws, LoopAction.NextRow)
      ensures At(Now(), ws, Head) && syncs[ws].todo == old(syncs)[ws].todo[1..] && rows == old(rows)
    {
      syncs := syncs[ws := NextEntry(syncs[ws])];
      Log(Loop(ws, LoopAction.NextRow));
    }

    // A local statement of the loop failed: the sync ends with an exception.
    method SyncThrows(ws: Workspace)
      requires Valid() && LoopEnabled(Now(), ws, LoopAction.SyncThrows)
      modifies this
      ensures Valid() && Now() == old(Now()).(syncs := syncs)
      ensures syncs.Keys == old(syncs.Keys) - {ws} && forall other | other in syncs :: syncs[other] == old(syncs)[other]
    {
      syncs := Without(syncs, ws);
      Log(Loop(ws, LoopAction.SyncThrows));
    }

    // The statement of a waiting callback failed; a sync that waited for it ends.
    method ContinuationThrows()
      requires Valid() && boot == BOOTED && continuations != []
      modifies this
      ensures Valid() && Now() == old(Now()).(continuations := old(continuations)[1..], syncs := syncs)
      ensures
        if old(continuations)[0].Quarantine? then syncs == old(syncs)
        else && syncs.Keys == old(syncs.Keys) - {old(continuations)[0].workspace}
             && forall other | other in syncs :: syncs[other] == old(syncs)[other]
    {
      if !continuations[0].Quarantine? {
        syncs := Without(syncs, continuations[0].workspace);
      }
      continuations := continuations[1..];
      Log(Process(ProcessAction.ContinuationThrows));
    }

    // --- the server ---------------------------------------------------------------------

    method Refuse(id: RequestId, status: nat)
      requires Valid() && ServerEnabled(Now(), ServerAction.Refuse(id, status))
      modifies this
      ensures Valid() && Now() == Answer(old(Now()), id, Refused(status))
    {
      requests := requests[id := requests[id].(phase := Done(Refused(status)))];
      Log(Server(ServerAction.Refuse(id, status)));
    }

    // The first half of create_item: an operation id already used is answered
    // from its item, by comparing what it was created from.
    method LookUp(id: RequestId)
      requires Valid() && ServerEnabled(Now(), ServerAction.LookUp(id))
      modifies this
      ensures Valid() && Now() == DoLookUp(old(Now()), id) && items == old(items)
      ensures requests.Keys == old(requests.Keys) && requests[id] == old(requests)[id].(phase := requests[id].phase)
      ensures
        var request := requests[id];
        match request.phase
        case NotFoundYet => !HoldsKey(items, request.workspace, request.operation)
        case Done(reply) => AnsweredFromItem(items, request, reply)
        case Arrived => false
    {
      RunKeepsInv(states, actions, |actions|);
      var request := requests[id];
      if existing :| existing in items && items[existing].workspace == request.workspace && items[existing].operation == Some(request.operation) {
        HolderIs(items, existing);
        var reply := if items[existing].createdFrom != request.body then Reply.Conflict else Accepted(existing);
        requests := requests[id := request.(phase := Done(reply))];
      } else {
        requests := requests[id := request.(phase := NotFoundYet)];
      }
      Log(Server(ServerAction.LookUp(id)));
    }

    // Flush and commit; a lost race ends in a second look-up.
    method Insert(id: RequestId, item: ItemId, publishFails: bool)
      requires Valid() && ServerEnabled(Now(), ServerAction.Insert(id, item, publishFails))
      modifies this
      ensures Valid() && Now() == DoInsert(old(Now()), id, item, publishFails)
      ensures requests.Keys == old(requests.Keys) && requests[id] == old(requests)[id].(phase := requests[id].phase)
      ensures
        var request := requests[id];
        && request.phase.Done?
        && if HoldsKey(old(items), request.workspace, request.operation) then
             items == old(items) && AnsweredFromItem(items, request, request.phase.reply)
           else
             && items == old(items)[item := items[item]] && item !in old(items)
             && MadeFrom(items, item, request.workspace, request.body) && items[item].operation == Some(request.operation)
             && request.phase.reply == (if publishFails then Refused(500) else Accepted(item))
    {
      RunKeepsInv(states, actions, |actions|);
      var request := requests[id];
      if existing :| existing in items && items[existing].workspace == request.workspace && items[existing].operation == Some(request.operation) {
        HolderIs(items, existing);
        var reply := if items[existing].createdFrom != request.body then Reply.Conflict else Accepted(existing);
        requests := requests[id := request.(phase := Done(reply))];
      } else {
        items := items[item := Item(request.workspace, Some(request.operation), request.body, false)];
        requests := requests[id := request.(phase := Done(if publishFails then Refused(500) else Accepted(item)))];
      }
      Log(Server(ServerAction.Insert(id, item, publishFails)));
    }

    // Another client stores an item, under an operation id of its own or none;
    // the unique key keeps one id from naming two items of a workspace.
    method OtherClientCreates(item: ItemId, workspace: Workspace, operation: Option<OperationId>, body: Body) returns (ok: bool)
      requires Valid() && item !in items
      modifies this
      ensures Valid() && Now() == old(Now()).(items := items)
      ensures ok <==> forall i | i in old(items) && old(items)[i].workspace == workspace && operation.Some? :: old(items)[i].operation != operation
      ensures items == if ok then old(items)[item := Item(workspace, operation, body, false)] else old(items)
    {
      if i :| i in items && items[i].workspace == workspace && operation.Some? && items[i].operation == operation {
        return false;
      }
      items := items[item := Item(workspace, operation, body, false)];
      Log(Server(ServerAction.OtherClientCreates(item, workspace, operation, body)));
      return true;
    }

    // delete_item keeps the row, and with it the operation id.
    method ArchiveItem(item: ItemId)
      requires Valid() && item in items
      modifies this
      ensures Valid() && Now() == old(Now()).(items := old(items)[item := old(items)[item].(archived := true)])
    {
      items := items[item := items[item].(archived := true)];
      Log(Server(ServerAction.Archive(item)));
    }
  }

  lemma Extend(states: seq<State>, actions: seq<Action>, a: Action)
    requires Run(states, actions) && Enabled(states[|actions|], a)
    ensures Run(states + [Apply(states[|actions|], a)], actions + [a])
  {
  }

  lemma StartupMovesQueues(before: Rows, legacy: Legacy, updates: map<string, LegacyItem>)
    ensures Started(before, legacy, updates, RecoverInProgress(CopyLegacyUpdates(CopyLegacyItems(before, legacy), updates)))
  {
    var copied := CopyLegacyItems(before, legacy);
    var rows := RecoverInProgress(CopyLegacyUpdates(copied, updates));
    forall item | item in updates && UpdatePrefix() + item !in copied
      ensures UpdatePrefix() + item in rows && rows[UpdatePrefix() + item] == LegacyUpdateRow(updates[item])
    {
      SamePrefix(UpdateKeys(updates)[UpdatePrefix() + item], item);
    }
  }

  lemma SamePrefix(a: string, b: string)
    requires UpdatePrefix() + a == UpdatePrefix() + b
    ensures a == b
  {
    assert a == (UpdatePrefix() + a)[|UpdatePrefix()|..];
    assert b == (UpdatePrefix() + b)[|UpdatePrefix()|..];
  }

  lemma HolderIs(items: Items, id: ItemId)
    requires UniqueKeys(items) && id in items && items[id].operation.Some?
    ensures HoldsKey(items, items[id].workspace, items[id].operation.value)
    ensures Holder(items, items[id].workspace, items[id].operation.value) == id
  {
  }
}

/** One sync of the queue from its row list to its result, with a fault chosen
    for every effect of every row and no other caller in between. */
module QueueSync {
  import opened Common
  import opened QueueModel
  import opened QueueInvariant
  import opened QueueTheorems
  import opened QueueService

  datatype SyncResult = SyncResult(failed: nat, itemIds: map<OperationId, ItemId>, needsAttention: nat, paused: bool, synced: nat)

  datatype CreateFault = Works | NeverArrives | ReplyLost | ServerRefuses(status: nat)

  // request and newItem are the ids the network and the server would use.
  datatype RowFault = RowFault(
    request: RequestId,
    newItem: ItemId,
    create: CreateFault,
    publishFails: bool,
    upload: Option<Option<nat>>, // Some(status) when uploading the photo fails
    fileRemains: bool)

  // How the sync of one row ends: a row of a kind the app does not know, no item
  // id to be had, an item id but a failure after it, the row gone but not its
  // photo file, or everything done.
  datatype Verdict = Unknown | CreateFails(failure: Option<nat>) | UploadFails(failure: Option<nat>) | FileStays | Synced

  ghost predicate HasItem(items: Items, ws: Workspace, operation: OperationId) {
    exists i :: i in items && items[i].workspace == ws && items[i].operation == Some(operation)
  }

  // Why the create call gives no item id, if it does not; an item known from
  // before needs no call.
  ghost function CreateFailure(row: Row, operation: OperationId, items: Items, ws: Workspace, f: RowFault): Option<Option<nat>> {
    if row.remote.Some? then None
    else match f.create
         case NeverArrives => Some(None)
         case ReplyLost => Some(None)
         case ServerRefuses(status) => Some(Some(status))
         case Works =>
           if HasItem(items, ws, operation) then (if CleanItems(items, operation, ws, row.draft.body) then None else Some(Some(409)))
           else if f.publishFails then Some(Some(500)) else None
  }

  function AfterCreate(f: RowFault): Verdict {
    if f.upload.Some? then UploadFails(f.upload.value) else if f.fileRemains then FileStays else Synced
  }

  ghost function VerdictOf(row: Row, operation: OperationId, items: Items, ws: Workspace, f: RowFault): Verdict {
    if row.operationType != "item.create" || row.operationVersion != 1 || row.draft.schemaVersion != 1 then Unknown
    else
      var failure := CreateFailure(row, operation, items, ws, f);
      if failure.Some? then CreateFails(failure.value) else AfterCreate(f)
  }

  // No answer, the server's own trouble, a time-out, too early, too many, or a
  // credential problem: the row is tried again later.
  predicate Retried(failure: Option<nat>) {
    failure == None || failure.value >= 500 || failure.value in {401, 403, 408, 425, 429}
  }

  predicate Pauses(verdict: Verdict) {
    (verdict.CreateFails? || verdict.UploadFails?) && (verdict.failure == Some(401) || verdict.failure == Some(403))
  }

  // The row will not be tried again.
  predicate GivesUp(verdict: Verdict) {
    verdict.Unknown? || ((verdict.CreateFails? || verdict.UploadFails?) && !Retried(verdict.failure))
  }

  function Delay(attempts: nat): nat {
    1000 * (if PowerOfTwo(attempts) < 300 then PowerOfTwo(attempts) else 300)
  }

  // The row with its failure written to it.
  function Failed(row: Row, failure: Option<nat>, attempts: nat, now: Time): Row {
    row.(status := if Retried(failure) then RetryableFailed else PermanentlyFailed,
         nextAttemptAt := if Retried(failure) then Some(now + Delay(attempts)) else None)
  }

  // What the verdict makes of the row.
  ghost predicate Ended(row: Row, operation: OperationId, verdict: Verdict, now: Time, rows: Rows, itemIds: map<OperationId, ItemId>) {
    match verdict
    case Unknown => operation in rows && rows[operation] == row.(status := PermanentlyFailed, nextAttemptAt := None)
    case CreateFails(failure) =>
      operation in rows && rows[operation] == Failed(row.(attempts := row.attempts + 1), failure, row.attempts + 1, now)
    case UploadFails(failure) =>
      && operation in itemIds && operation in rows
      && rows[operation] == Failed(row.(attempts := row.attempts + 1, remote := Some(itemIds[operation])), failure, row.attempts + 1, now)
    case FileStays => operation in itemIds && operation !in rows
    case Synced => operation in itemIds && operation !in rows
  }

  // What the verdict adds to the result.
  ghost predicate Tallied(operation: OperationId, verdict: Verdict, before: SyncResult, after: SyncResult) {
    && after.synced == before.synced + (if verdict.Synced? then 1 else 0)
    && after.failed == before.failed + (if verdict.Synced? then 0 else 1)
    && after.needsAttention == before.needsAttention + (if GivesUp(verdict) then 1 else 0)
    && after.paused == Pauses(verdict)
    && (if verdict.Unknown? || verdict.CreateFails? then after.itemIds == before.itemIds
        else operation in after.itemIds && after.itemIds == before.itemIds[operation := after.itemIds[operation]])
  }

  // --- what one row may change ------------------------------------------------------------

  ghost predicate OtherRowsSame(before: Rows, after: Rows, operation: OperationId) {
    forall op | op != operation :: (op in after <==> op in before) && (op in before ==> after[op] == before[op])
  }

  // The items stay, and at most newItem is added, under the operation id of the row.
  ghost predicate ItemsGrow(before: Items, after: Items, newItem: ItemId, ws: Workspace, operation: OperationId) {
    && after.Keys <= before.Keys + {newItem} && (forall i | i in before :: i in after && after[i] == before[i])
    && (newItem in after && newItem !in before ==> after[newItem].workspace == ws && after[newItem].operation == Some(operation))
  }

  // The sync is alone: nothing else waits, and no revocation came since it began.
  ghost predicate Alone(s: State, ws: Workspace) {
    s.boot == BOOTED && s.continuations == [] && ws in s.syncs && s.syncs[ws].startEpoch == s.epoch
  }

  // A step on todo[0] that stays within the row.
  ghost predicate Quiet(s: State, t: State, ws: Workspace, f: RowFault)
    requires ws in s.syncs && s.syncs[ws].todo != []
  {
    && Alone(t, ws) && t.epoch == s.epoch && t.syncs[ws].todo == s.syncs[ws].todo
    && OtherRowsSame(s.rows, t.rows, s.syncs[ws].todo[0].operation)
    && (forall op | op in s.rows :: op in t.rows && t.rows[op].workspace == s.rows[op].workspace && t.rows[op].draft == s.rows[op].draft)
    && ItemsGrow(s.items, t.items, f.newItem, ws, s.syncs[ws].todo[0].operation)
    && t.requests.Keys <= s.requests.Keys + {f.request}
  }

  // The item with this key decides the answer.
  lemma OneItemDecides(items: Items, request: Request, reply: Reply)
    requires UniqueKeys(items) && AnsweredFromItem(items, request, reply)
    ensures HasItem(items, request.workspace, request.operation)
    ensures reply.Accepted? <==> CleanItems(items, request.operation, request.workspace, request.body)
    ensures !reply.Accepted? ==> reply == Conflict
  {
  }

  // create_item on the server, from look-up to commit.
  method AnswerRequest(q: OfflineQueue, id: RequestId, newItem: ItemId, publishFails: bool)
    requires q.Valid() && id in q.requests && q.requests[id].phase.Arrived? && newItem !in q.items
    modifies q
    ensures q.Valid() && q.Now() == old(q.Now()).(items := q.items, requests := q.requests)
    ensures ItemsGrow(old(q.items), q.items, newItem, old(q.requests)[id].workspace, old(q.requests)[id].operation)
    ensures q.requests.Keys == old(q.requests.Keys) && q.requests[id].phase.Done?
    ensures
      var asked, reply := old(q.requests)[id], q.requests[id].phase.reply;
      if HasItem(old(q.items), asked.workspace, asked.operation) then
        if CleanItems(old(q.items), asked.operation, asked.workspace, asked.body) then reply.Accepted? else reply == Conflict
      else reply == (if publishFails then Refused(500) else Accepted(newItem))
  {
    RunKeepsInv(q.states, q.actions, |q.actions|);
    q.LookUp(id);
    if q.requests[id].phase.NotFoundYet? {
      q.Insert(id, newItem, publishFails);
    } else {
      OneItemDecides(q.items, q.requests[id], q.requests[id].phase.reply);
    }
  }

  // The item id is stored with the row in hand.
  ghost predicate ItemKnown(rows: Rows, before: Rows, sync: Sync) {
    && sync.pc.Have? && sync.todo != [] && sync.todo[0].operation in before && sync.todo[0].operation in rows
    && rows[sync.todo[0].operation] == before[sync.todo[0].operation].(remote := Some(sync.pc.item))
  }

  // The request arrives and is answered; the reply may still be lost.
  method AwaitAnswer(q: OfflineQueue, ws: Workspace, f: RowFault) returns (failure: Option<Option<nat>>)
    requires f.create == Works || f.create == ReplyLost
    requires q.Valid() && Alone(q.Now(), ws) && At(q.Now(), ws, Waiting(f.request)) && q.syncs[ws].todo != []
    requires f.request in q.requests && f.newItem !in q.items && f.create != ServerRefuses(409)
    requires q.requests[f.request] == RequestFor(ws, q.syncs[ws].todo[0]) && q.syncs[ws].todo[0].row.remote == None
    requires q.syncs[ws].todo[0].operation in q.rows
    modifies q
    ensures q.Valid() && Quiet(old(q.Now()), q.Now(), ws, f) && q.rows.Keys == old(q.rows.Keys)
    ensures failure == CreateFailure(old(q.syncs)[ws].todo[0].row, old(q.syncs)[ws].todo[0].operation, old(q.items), ws, f)
    ensures failure == None ==> ItemKnown(q.rows, old(q.rows), q.syncs[ws])
    ensures failure.Some? ==> Working(q.syncs[ws]) && MayFail(q.Now(), q.syncs[ws], failure.value) && q.rows == old(q.rows)
  {
    AnswerRequest(q, f.request, f.newItem, f.publishFails);
    if f.create == ReplyLost {
      return Some(None);
    }
    var reply := q.requests[f.request].phase.reply;
    if !reply.Accepted? {
      return Some(StatusOf(reply));
    }
    q.TakeReply(ws);
    return None;
  }

  // From the request on: it is lost, refused, or answered, and so may the reply be.
  method AwaitReply(q: OfflineQueue, ws: Workspace, f: RowFault) returns (failure: Option<Option<nat>>)
    requires q.Valid() && Alone(q.Now(), ws) && At(q.Now(), ws, Waiting(f.request)) && q.syncs[ws].todo != []
    requires f.request in q.requests && f.newItem !in q.items && f.create != ServerRefuses(409)
    requires q.requests[f.request] == RequestFor(ws, q.syncs[ws].todo[0]) && q.syncs[ws].todo[0].row.remote == None
    requires q.syncs[ws].todo[0].operation in q.rows
    modifies q
    ensures q.Valid() && Quiet(old(q.Now()), q.Now(), ws, f) && q.rows.Keys == old(q.rows.Keys)
    ensures failure == CreateFailure(old(q.syncs)[ws].todo[0].row, old(q.syncs)[ws].todo[0].operation, old(q.items), ws, f)
    ensures failure == None ==> ItemKnown(q.rows, old(q.rows), q.syncs[ws])
    ensures failure.Some? ==> Working(q.syncs[ws]) && MayFail(q.Now(), q.syncs[ws], failure.value) && q.rows == old(q.rows)
  {
    if f.create == NeverArrives {
      return Some(None);
    }
    if f.create.ServerRefuses? {
      q.Refuse(f.request, f.create.status);
      return Some(Some(f.create.status));
    }
    failure := AwaitAnswer(q, ws, f);
  }

  // The create call: the item id, or the status it failed with.
  method CreateRemote(q: OfflineQueue, ws: Workspace, f: RowFault) returns (failure: Option<Option<nat>>)
    requires q.Valid() && Alone(q.Now(), ws) && At(q.Now(), ws, Marked) && q.syncs[ws].todo != []
    requires f.request !in q.requests && f.newItem !in q.items && f.create != ServerRefuses(409)
    requires q.syncs[ws].todo[0].operation in q.rows
    modifies q
    ensures q.Valid() && Quiet(old(q.Now()), q.Now(), ws, f) && q.rows.Keys == old(q.rows.Keys)
    ensures failure == CreateFailure(old(q.syncs)[ws].todo[0].row, old(q.syncs)[ws].todo[0].operation, old(q.items), ws, f)
    ensures failure == None ==> ItemKnown(q.rows, old(q.rows), q.syncs[ws])
    ensures failure.Some? ==> Working(q.syncs[ws]) && MayFail(q.Now(), q.syncs[ws], failure.value) && q.rows == old(q.rows)
  {
    q.SendOrSkip(ws, f.request);
    if q.syncs[ws].pc.Have? {
      HaveMeansMade(q, ws);
      return None;
    }
    failure := AwaitReply(q, ws, f);
  }

  lemma HaveMeansMade(q: OfflineQueue, ws: Workspace)
    requires q.Valid() && ws in q.syncs && q.syncs[ws].todo != [] && q.syncs[ws].pc.Have?
    ensures
      var entry, item := q.syncs[ws].todo[0], q.syncs[ws].pc.item;
      && entry.operation in q.rows && q.rows[entry.operation].remote == Some(item)
      && MadeFrom(q.items, item, ws, entry.row.draft.body)
  {
    RunKeepsInv(q.states, q.actions, |q.actions|);
    assert SyncData(q.rows, q.requests, ws, q.syncs[ws]);
    var operation := q.syncs[ws].todo[0].operation;
    assert RemoteGood(q.requests, q.items, operation, q.rows[operation]);
  }

  // The row in hand has its failure written to it, if it is still there.
  ghost predicate FailureWritten(before: Rows, rows: Rows, entry: Entry, failure: Option<nat>, now: Time) {
    && OtherRowsSame(before, rows, entry.operation) && rows.Keys == before.Keys
    && (entry.operation in before ==> rows[entry.operation] == Failed(before[entry.operation], failure, entry.row.attempts + 1, now))
  }

  // Records a failure: the row waits for a retry or is given up.
  method FailRow(q: OfflineQueue, ws: Workspace, failure: Option<nat>, now: Time) returns (policy: Policy)
    requires q.Valid() && Alone(q.Now(), ws) && Working(q.syncs[ws]) && MayFail(q.Now(), q.syncs[ws], failure)
    modifies q
    ensures q.Valid() && q.Now() == old(q.Now()).(rows := q.rows, syncs := q.syncs)
    ensures policy.retry == Retried(failure) && policy.pause == (failure == Some(401) || failure == Some(403))
    ensures FailureWritten(old(q.rows), q.rows, old(q.syncs)[ws].todo[0], failure, now)
    ensures GoesOn(old(q.Now()), q.Now(), ws, policy.pause)
  {
    policy := ClassifyQueueFailure(failure);
    GivenUpMeansRefused(failure);
    ghost var entry := q.syncs[ws].todo[0];
    RetryDelay(entry.row.attempts + 1, now);
    q.Fail(ws, failure, now);
    assert q.continuations == [FailureRecord(ws, entry, failure, now)];
    assert q.continuations[1..] == [];
    var record := q.continuations[0];
    q.RecordFailure(record.workspace, record.operation, record.retry, record.nextAttemptAt, now);
  }

  // --- one row, start to end -----------------------------------------------------------------

  // The sync goes on with the next row, or paused.
  ghost predicate GoesOn(s: State, t: State, ws: Workspace, paused: bool)
    requires ws in s.syncs && s.syncs[ws].todo != []
  {
    && t.boot == BOOTED && t.continuations == [] && t.epoch == s.epoch
    && if paused then ws !in t.syncs
       else ws in t.syncs && t.syncs[ws] == s.syncs[ws].(todo := s.syncs[ws].todo[1..], pc := Head)
  }

  method CountFailure(result: SyncResult, policy: Policy) returns (next: SyncResult)
    ensures next == result.(failed := result.failed + 1,
                            needsAttention := result.needsAttention + (if policy.retry then 0 else 1),
                            paused := result.paused || policy.pause)
  {
    next := result.(failed := result.failed + 1);
    if !policy.retry {
      next := next.(needsAttention := next.needsAttention + 1);
    }
    if policy.pause {
      next := next.(paused := true);
    }
  }

  // What the verdict makes of the row in hand, the result and the sync.
  ghost predicate RowOutcome(s: State, t: State, ws: Workspace, entry: Entry, verdict: Verdict, now: Time, before: SyncResult, after: SyncResult)
    requires ws in s.syncs && s.syncs[ws].todo != []
  {
    && OtherRowsSame(s.rows, t.rows, entry.operation) && GoesOn(s, t, ws, after.paused)
    && Ended(entry.row, entry.operation, verdict, now, t.rows, after.itemIds)
    && Tallied(entry.operation, verdict, before, after)
    && (!verdict.Unknown? && !verdict.CreateFails? ==> MadeFrom(t.items, after.itemIds[entry.operation], ws, entry.row.draft.body))
  }

  // The mark was put on the row in hand.
  ghost predicate InHand(rows: Rows, entry: Entry, remote: Option<ItemId>) {
    && entry.operation in rows
    && rows[entry.operation] == entry.row.(status := InProgress, attempts := entry.row.attempts + 1, remote := remote)
  }

  // From a known item id on: photo, deletion of the row, deletion of the file.
  method DeliverRow(q: OfflineQueue, ws: Workspace, f: RowFault, now: Time, result: SyncResult) returns (next: SyncResult)
    requires q.Valid() && Alone(q.Now(), ws) && q.syncs[ws].todo != [] && q.syncs[ws].pc.Have? && !result.paused
    requires InHand(q.rows, q.syncs[ws].todo[0], Some(q.syncs[ws].pc.item))
    modifies q
    ensures q.Valid() && q.items == old(q.items) && q.requests == old(q.requests)
    ensures RowOutcome(old(q.Now()), q.Now(), ws, old(q.syncs)[ws].todo[0], AfterCreate(f), now, result, next)
  {
    var operation := q.syncs[ws].todo[0].operation;
    HaveMeansMade(q, ws);
    next := result.(itemIds := result.itemIds[operation := q.syncs[ws].pc.item]);
    if f.upload.Some? {
      var policy := FailRow(q, ws, f.upload.value, now);
      next := CountFailure(next, policy);
      return;
    }
    q.DeleteRow(ws);
    if f.fileRemains {
      var policy := FailRow(q, ws, None, now);
      next := CountFailure(next, policy);
      return;
    }
    q.NextRow(ws);
    next := next.(synced := next.synced + 1);
  }

  // What a row may add to the server and the network.
  ghost predicate Grown(s: State, t: State, f: RowFault, ws: Workspace, operation: OperationId) {
    ItemsGrow(s.items, t.items, f.newItem, ws, operation) && t.requests.Keys <= s.requests.Keys + {f.request}
  }

  // A row of an unknown kind is given up at once.
  method RejectRow(q: OfflineQueue, ws: Workspace, now: Time, result: SyncResult) returns (next: SyncResult)
    requires q.Valid() && q.boot == BOOTED && ws in q.syncs && q.syncs[ws].todo != [] && q.syncs[ws].pc == Failing(false)
    requires q.syncs[ws].todo[0].operation in q.rows && q.rows[q.syncs[ws].todo[0].operation] == q.syncs[ws].todo[0].row && !result.paused
    requires q.continuations == [Continuation.Record(ws, q.syncs[ws].todo[0].operation, false, None)]
    modifies q
    ensures q.Valid() && q.items == old(q.items) && q.requests == old(q.requests)
    ensures RowOutcome(old(q.Now()), q.Now(), ws, old(q.syncs)[ws].todo[0], Unknown, now, result, next)
  {
    assert q.continuations[1..] == [];
    q.RecordFailure(ws, q.syncs[ws].todo[0].operation, false, None, now);
    next := CountFailure(result, Policy(false, false));
  }

  // From the mark on: the create call and what follows.
  method UploadRow(q: OfflineQueue, ws: Workspace, f: RowFault, now: Time, result: SyncResult) returns (next: SyncResult)
    requires q.Valid() && Alone(q.Now(), ws) && At(q.Now(), ws, Marked) && q.syncs[ws].todo != [] && !result.paused
    requires InHand(q.rows, q.syncs[ws].todo[0], q.syncs[ws].todo[0].row.remote)
    requires f.request !in q.requests && f.newItem !in q.items && f.create != ServerRefuses(409)
    modifies q
    ensures q.Valid() && Grown(old(q.Now()), q.Now(), f, ws, old(q.syncs)[ws].todo[0].operation)
    ensures
      var entry := old(q.syncs)[ws].todo[0];
      var failure := CreateFailure(entry.row, entry.operation, old(q.items), ws, f);
      RowOutcome(old(q.Now()), q.Now(), ws, entry, if failure.Some? then CreateFails(failure.value) else AfterCreate(f), now, result, next)
  {
    var failure := CreateRemote(q, ws, f);
    if failure.Some? {
      var policy := FailRow(q, ws, failure.value, now);
      next := CountFailure(result, policy);
    } else {
      next := DeliverRow(q, ws, f, now, result);
    }
  }

  // What SyncRow did to the row in hand.
  ghost predicate RowSynced(s: State, t: State, ws: Workspace, entry: Entry, f: RowFault, now: Time, before: SyncResult, after: SyncResult)
    requires ws in s.syncs && s.syncs[ws].todo != []
  {
    && Grown(s, t, f, ws, entry.operation)
    && RowOutcome(s, t, ws, entry, VerdictOf(entry.row, entry.operation, s.items, ws, f), now, before, after)
  }

  // The loop head: the row is marked, or handed over as one of an unknown kind.
  method TakeUp(q: OfflineQueue, ws: Workspace) returns (known: bool)
    requires q.Valid() && Alone(q.Now(), ws) && q.syncs[ws].pc == Head && q.syncs[ws].todo != []
    requires q.syncs[ws].todo[0].operation in q.rows && q.rows[q.syncs[ws].todo[0].operation] == q.syncs[ws].todo[0].row
    modifies q
    ensures q.Valid() && q.items == old(q.items) && q.requests == old(q.requests)
    ensures q.boot == BOOTED && q.revocationEpoch == old(q.revocationEpoch) && ws in q.syncs
    ensures q.syncs[ws] == old(q.syncs)[ws].(pc := if known then Marked else Failing(false))
    ensures
      var entry := old(q.syncs)[ws].todo[0];
      && (known <==> entry.row.operationType == "item.create" && entry.row.operationVersion == 1 && entry.row.draft.schemaVersion == 1)
      && OtherRowsSame(old(q.rows), q.rows, entry.operation)
      && (if known then q.continuations == [] && InHand(q.rows, entry, entry.row.remote)
          else q.continuations == [Continuation.Record(ws, entry.operation, false, None)] && q.rows == old(q.rows))
  {
    var working := q.LoopHead(ws);
    known := q.syncs[ws].pc.Marked?;
  }

  method SyncRow(q: OfflineQueue, ws: Workspace, f: RowFault, now: Time, result: SyncResult) returns (next: SyncResult)
    requires q.Valid() && Alone(q.Now(), ws) && q.syncs[ws].pc == Head && q.syncs[ws].todo != [] && !result.paused
    requires q.syncs[ws].todo[0].operation in q.rows && q.rows[q.syncs[ws].todo[0].operation] == q.syncs[ws].todo[0].row
    requires f.request !in q.requests && f.newItem !in q.items && f.create != ServerRefuses(409)
    modifies q
    ensures q.Valid() && RowSynced(old(q.Now()), q.Now(), ws, old(q.syncs)[ws].todo[0], f, now, result, next)
  {
    var known := TakeUp(q, ws);
    if known {
      next := UploadRow(q, ws, f, now, result);
    } else {
      next := RejectRow(q, ws, now, result);
    }
  }

  // --- the whole sync --------------------------------------------------------------------------

  predicate FreshFault(s: State, f: RowFault) {
    f.request !in s.requests && f.newItem !in s.items && f.create != ServerRefuses(409)
  }

  // The faults from the n-th on use ids that nothing has used, each its own.
  ghost predicate FreshFaults(s: State, faults: seq<RowFault>, n: nat) {
    && (forall i | n <= i < |faults| :: FreshFault(s, faults[i]))
    && (forall i, j | n <= i < j < |faults| :: faults[i].request != faults[j].request && faults[i].newItem != faults[j].newItem)
  }

  // The verdict on each listed row, from the queue and the items the sync finds.
  ghost function Verdicts(rows: Rows, items: Items, ws: Workspace, order: seq<OperationId>, faults: seq<RowFault>): (verdicts: seq<Verdict>)
    requires |faults| == |order| && forall i | 0 <= i < |order| :: order[i] in rows
    ensures |verdicts| == |order|
    ensures forall i | 0 <= i < |order| :: verdicts[i] == VerdictOf(rows[order[i]], order[i], items, ws, faults[i])
  {
    seq(|order|, i requires 0 <= i < |order| => VerdictOf(rows[order[i]], order[i], items, ws, faults[i]))
  }

  function CountSynced(verdicts: seq<Verdict>): (n: nat)
    ensures n <= |verdicts|
    ensures (forall i | 0 <= i < |verdicts| :: verdicts[i].Synced?) ==> n == |verdicts|
  {
    if verdicts == [] then 0
    else CountSynced(verdicts[..|verdicts| - 1]) + (if verdicts[|verdicts| - 1].Synced? then 1 else 0)
  }

  function CountGivenUp(verdicts: seq<Verdict>): nat {
    if verdicts == [] then 0
    else CountGivenUp(verdicts[..|verdicts| - 1]) + (if GivesUp(verdicts[|verdicts| - 1]) then 1 else 0)
  }

  ghost predicate RestUntouched(rows0: Rows, rows: Rows, done: seq<OperationId>) {
    && (forall op :: op in rows ==> op in rows0)
    && (forall op | op in rows0 && op !in done :: op in rows && rows[op] == rows0[op])
  }

  // The row ended as its verdict says, and an item id reported for it is that of
  // the item made from its draft.
  ghost predicate RowDone(rows0: Rows, rows: Rows, items: Items, ws: Workspace, op: OperationId, verdict: Verdict, now: Time, result: SyncResult) {
    && op in rows0 && Ended(rows0[op], op, verdict, now, rows, result.itemIds)
    && (!verdict.Unknown? && !verdict.CreateFails? ==>
          op in result.itemIds && MadeFrom(items, result.itemIds[op], ws, rows0[op].draft.body))
  }

  // The counts of the first n verdicts; the last of them paused the sync if any did.
  ghost predicate Counted(verdicts: seq<Verdict>, n: nat, result: SyncResult)
    requires n <= |verdicts|
  {
    && result.synced + result.failed == n
    && result.synced == CountSynced(verdicts[..n]) && result.needsAttention == CountGivenUp(verdicts[..n])
    && (result.paused <==> n > 0 && Pauses(verdicts[n - 1]))
    && (forall k | 0 <= k < n - 1 :: !Pauses(verdicts[k]))
  }

  ghost predicate RowsDone(rows0: Rows, rows: Rows, items: Items, ws: Workspace, order: seq<OperationId>, verdicts: seq<Verdict>, now: Time,
                           n: nat, result: SyncResult)
    requires n <= |order| == |verdicts|
  {
    forall k | 0 <= k < n :: RowDone(rows0, rows, items, ws, order[k], verdicts[k], now, result)
  }

  // After the first n rows of the list: each ended as its verdict says, and the
  // others are as they were.
  ghost predicate Progress(rows0: Rows, rows: Rows, items: Items, ws: Workspace, order: seq<OperationId>, verdicts: seq<Verdict>, now: Time,
                           n: nat, result: SyncResult)
    requires n <= |order| == |verdicts|
  {
    && Counted(verdicts, n, result)
    && RestUntouched(rows0, rows, order[..n])
    && RowsDone(rows0, rows, items, ws, order, verdicts, now, n, result)
  }

  lemma RestStep(rows0: Rows, rows: Rows, after: Rows, done: seq<OperationId>, op: OperationId)
    requires RestUntouched(rows0, rows, done) && OtherRowsSame(rows, after, op) && op in rows0
    ensures RestUntouched(rows0, after, done + [op])
  {
    forall x | x in after ensures x in rows0 {
      assert x != op ==> x in rows;
    }
    forall x | x in rows0 && x !in done + [op] ensures x in after && after[x] == rows0[x] {
      assert x != op && x !in done;
    }
  }

  // A row that is done stays as it ended while another one is synced.
  lemma DoneStays(rows0: Rows, s: State, t: State, ws: Workspace, entry: Entry, f: RowFault, verdict: Verdict, now: Time,
                  before: SyncResult, after: SyncResult, done: OperationId, was: Verdict)
    requires RowDone(rows0, s.rows, s.items, ws, done, was, now, before) && done != entry.operation
    requires OtherRowsSame(s.rows, t.rows, entry.operation) && Tallied(entry.operation, verdict, before, after)
    requires Grown(s, t, f, ws, entry.operation)
    ensures RowDone(rows0, t.rows, t.items, ws, done, was, now, after)
  {
  }

  lemma RowsDoneStep(rows0: Rows, s: State, t: State, ws: Workspace, order: seq<OperationId>, verdicts: seq<Verdict>, now: Time, n: nat, f: RowFault,
                     before: SyncResult, after: SyncResult)
    requires n < |order| == |verdicts| && Distinct(order) && order[n] in rows0
    requires RowsDone(rows0, s.rows, s.items, ws, order, verdicts, now, n, before)
    requires ws in s.syncs && s.syncs[ws].todo != []
    requires Grown(s, t, f, ws, order[n]) && RowOutcome(s, t, ws, Entry(order[n], rows0[order[n]]), verdicts[n], now, before, after)
    ensures RowsDone(rows0, t.rows, t.items, ws, order, verdicts, now, n + 1, after)
  {
    forall k | 0 <= k < n + 1 ensures RowDone(rows0, t.rows, t.items, ws, order[k], verdicts[k], now, after) {
      if k < n {
        DoneStays(rows0, s, t, ws, Entry(order[n], rows0[order[n]]), f, verdicts[n], now, before, after, order[k], verdicts[k]);
      }
    }
  }

  lemma CountedStep(verdicts: seq<Verdict>, n: nat, operation: OperationId, before: SyncResult, after: SyncResult)
    requires n < |verdicts| && Counted(verdicts, n, before) && !before.paused && Tallied(operation, verdicts[n], before, after)
    ensures Counted(verdicts, n + 1, after)
  {
    assert verdicts[..n + 1][..n] == verdicts[..n];
    forall k | 0 <= k < n ensures !Pauses(verdicts[k]) {
      assert k < n - 1 || k == n - 1;
    }
  }

  lemma OneMore(order: seq<OperationId>, n: nat)
    requires n < |order|
    ensures order[..n + 1] == order[..n] + [order[n]]
  {
  }

  lemma ProgressStep(rows0: Rows, s: State, t: State, ws: Workspace, order: seq<OperationId>, verdicts: seq<Verdict>, now: Time, n: nat, f: RowFault,
                     before: SyncResult, after: SyncResult)
    requires n < |order| == |verdicts| && Distinct(order) && order[n] in rows0 && ws in s.syncs && s.syncs[ws].todo != []
    requires Progress(rows0, s.rows, s.items, ws, order, verdicts, now, n, before) && !before.paused
    requires Grown(s, t, f, ws, order[n]) && RowOutcome(s, t, ws, Entry(order[n], rows0[order[n]]), verdicts[n], now, before, after)
    ensures Progress(rows0, t.rows, t.items, ws, order, verdicts, now, n + 1, after)
  {
    OneMore(order, n);
    CountedStep(verdicts, n, order[n], before, after);
    RowsDoneStep(rows0, s, t, ws, order, verdicts, now, n, f, before, after);
    RestStep(rows0, s.rows, t.rows, order[..n], order[n]);
  }

  // Every queue has a list of its due rows.
  lemma {:induction false} SomeOrder(operations: set<OperationId>) returns (order: seq<OperationId>)
    ensures Distinct(order) && forall op :: op in order <==> op in operations
    decreases |operations|
  {
    if operations == {} {
      order := [];
    } else {
      var op :| op in operations;
      var rest := SomeOrder(operations - {op});
      order := rest + [op];
      assert forall i | 0 <= i < |rest| :: rest[i] in rest && rest[i] in operations - {op};
    }
  }

  lemma ListExists(rows: Rows, ws: Workspace, now: Time) returns (order: seq<OperationId>)
    ensures Lists(order, rows, ws, now)
  {
    var due := set op | op in rows && Due(rows[op], ws, now);
    order := SomeOrder(due);
    assert forall i | 0 <= i < |order| :: order[i] in order && order[i] in due;
  }

  // The row list is read and the loop begins.
  method BeginSync(q: OfflineQueue, ws: Workspace, now: Time, order: seq<OperationId>)
    requires q.Valid() && q.boot == BOOTED && q.continuations == [] && ws !in q.syncs && Lists(order, q.rows, ws, now)
    modifies q
    ensures q.Valid() && q.rows == old(q.rows) && q.items == old(q.items) && q.requests == old(q.requests)
    ensures Alone(q.Now(), ws) && q.syncs[ws].pc == Head && q.syncs[ws].todo == Entries(order, old(q.rows))
    ensures forall op :: op in order <==> op in old(q.rows) && Due(old(q.rows)[op], ws, now)
  {
    q.SyncPendingItems(ws);
    assert q.continuations[1..] == [];
    q.TakeList(ws, now, order);
  }

  // The loop finds no further row.
  method EndSync(q: OfflineQueue, ws: Workspace)
    requires q.Valid() && Alone(q.Now(), ws) && q.syncs[ws].pc == Head && q.syncs[ws].todo == []
    modifies q
    ensures q.Valid() && q.rows == old(q.rows) && q.items == old(q.items) && q.continuations == [] && ws !in q.syncs
  {
    var working := q.LoopHead(ws);
  }

  // Where the loop stands before its i-th row.
  ghost predicate AtRow(s: State, ws: Workspace, entries: seq<Entry>, i: nat, paused: bool)
    requires i <= |entries|
  {
    && s.boot == BOOTED && s.continuations == []
    && if paused then ws !in s.syncs else Alone(s, ws) && s.syncs[ws].pc == Head && s.syncs[ws].todo == entries[i..]
  }

  lemma NextAtRow(s: State, t: State, ws: Workspace, entries: seq<Entry>, i: nat, paused: bool)
    requires i < |entries| && AtRow(s, ws, entries, i, false) && GoesOn(s, t, ws, paused)
    ensures AtRow(t, ws, entries, i + 1, paused)
  {
  }

  lemma StillFresh(s: State, t: State, faults: seq<RowFault>, i: nat, ws: Workspace, operation: OperationId)
    requires i < |faults| && Grown(s, t, faults[i], ws, operation) && FreshFaults(s, faults, i)
    ensures FreshFaults(t, faults, i + 1)
  {
  }

  // Syncing one row changes no verdict on another: what it creates is under its
  // own operation id.
  lemma SameVerdict(s: State, t: State, f: RowFault, ws: Workspace, operation: OperationId, row: Row, other: OperationId, g: RowFault)
    requires Grown(s, t, f, ws, operation) && other != operation
    ensures VerdictOf(row, other, t.items, ws, g) == VerdictOf(row, other, s.items, ws, g)
  {
    assert HasItem(t.items, ws, other) <==> HasItem(s.items, ws, other) by {
      if i :| i in s.items && s.items[i].workspace == ws && s.items[i].operation == Some(other) {
        assert i in t.items && t.items[i] == s.items[i];
      }
    }
    assert CleanItems(t.items, other, ws, row.draft.body) <==> CleanItems(s.items, other, ws, row.draft.body);
  }

  // The verdicts on the rows from the n-th on are still those.
  ghost predicate StillJudged(rows0: Rows, verdicts: seq<Verdict>, items: Items, ws: Workspace, order: seq<OperationId>, faults: seq<RowFault>, n: nat)
    requires |order| == |verdicts| == |faults| && forall i | 0 <= i < |order| :: order[i] in rows0
  {
    forall k | n <= k < |order| :: verdicts[k] == VerdictOf(rows0[order[k]], order[k], items, ws, faults[k])
  }

  // Where the loop stands before its n-th row, and what it has done so far.
  ghost predicate Standing(rows0: Rows, verdicts: seq<Verdict>, s: State, ws: Workspace, order: seq<OperationId>, faults: seq<RowFault>, now: Time,
                           n: nat, result: SyncResult)
    requires n <= |order| == |verdicts| == |faults| && forall i | 0 <= i < |order| :: order[i] in rows0
  {
    && AtRow(s, ws, Entries(order, rows0), n, result.paused)
    && Progress(rows0, s.rows, s.items, ws, order, verdicts, now, n, result)
    && FreshFaults(s, faults, n)
    && StillJudged(rows0, verdicts, s.items, ws, order, faults, n)
  }

  lemma StandingStep(rows0: Rows, verdicts: seq<Verdict>, s: State, t: State, ws: Workspace, order: seq<OperationId>, faults: seq<RowFault>, now: Time,
                     n: nat, before: SyncResult, after: SyncResult)
    requires n < |order| == |verdicts| == |faults| && Distinct(order) && forall i | 0 <= i < |order| :: order[i] in rows0
    requires Standing(rows0, verdicts, s, ws, order, faults, now, n, before) && !before.paused
    requires RowSynced(s, t, ws, Entry(order[n], rows0[order[n]]), faults[n], now, before, after)
    ensures Standing(rows0, verdicts, t, ws, order, faults, now, n + 1, after)
  {
    ProgressStep(rows0, s, t, ws, order, verdicts, now, n, faults[n], before, after);
    NextAtRow(s, t, ws, Entries(order, rows0), n, after.paused);
    StillFresh(s, t, faults, n, ws, order[n]);
    forall k | n < k < |order| ensures verdicts[k] == VerdictOf(rows0[order[k]], order[k], t.items, ws, faults[k]) {
      SameVerdict(s, t, faults[n], ws, order[n], rows0[order[k]], order[k], faults[k]);
    }
  }

  lemma StandingAtStart(rows0: Rows, s: State, ws: Workspace, order: seq<OperationId>, faults: seq<RowFault>, now: Time, result: SyncResult)
    requires |order| == |faults| && forall i | 0 <= i < |order| :: order[i] in rows0
    requires s.rows == rows0 && Alone(s, ws) && s.syncs[ws].pc == Head && s.syncs[ws].todo == Entries(order, rows0)
    requires FreshFaults(s, faults, 0) && result == SyncResult(0, map[], 0, false, 0)
    ensures Standing(rows0, Verdicts(rows0, s.items, ws, order, faults), s, ws, order, faults, now, 0, result)
  {
    assert Entries(order, rows0)[0..] == Entries(order, rows0) && order[..0] == [];
  }

  // The n-th row is in the queue as it was listed.
  lemma NthIsListed(rows0: Rows, rows: Rows, order: seq<OperationId>, n: nat)
    requires n < |order| && Distinct(order) && order[n] in rows0 && RestUntouched(rows0, rows, order[..n])
    ensures order[n] in rows && rows[order[n]] == rows0[order[n]]
  {
    assert order[n] !in order[..n];
  }

  // One pass over the n-th listed row.
  method SyncNth(q: OfflineQueue, ws: Workspace, now: Time, order: seq<OperationId>, faults: seq<RowFault>, n: nat, before: SyncResult,
                 ghost rows0: Rows, ghost verdicts: seq<Verdict>)
    returns (result: SyncResult)
    requires q.Valid() && n < |order| == |verdicts| == |faults| && Distinct(order) && forall i | 0 <= i < |order| :: order[i] in rows0
    requires Standing(rows0, verdicts, q.Now(), ws, order, faults, now, n, before) && !before.paused
    modifies q
    ensures q.Valid() && Standing(rows0, verdicts, q.Now(), ws, order, faults, now, n + 1, result)
  {
    ghost var s := q.Now();
    assert Entries(order, rows0)[n..][0] == Entry(order[n], rows0[order[n]]) && FreshFault(s, faults[n]);
    NthIsListed(rows0, q.rows, order, n);
    result := SyncRow(q, ws, faults[n], now, before);
    StandingStep(rows0, verdicts, s, q.Now(), ws, order, faults, now, n, before, result);
  }

  // The loop over the listed rows; it ends early when the sync pauses.
  method SyncRows(q: OfflineQueue, ws: Workspace, now: Time, order: seq<OperationId>, faults: seq<RowFault>, ghost rows0: Rows, ghost verdicts: seq<Verdict>)
    returns (n: nat, result: SyncResult)
    requires q.Valid() && |order| == |verdicts| == |faults| && Distinct(order) && forall i | 0 <= i < |order| :: order[i] in rows0
    requires Standing(rows0, verdicts, q.Now(), ws, order, faults, now, 0, SyncResult(0, map[], 0, false, 0))
    modifies q
    ensures q.Valid() && n <= |order| && Standing(rows0, verdicts, q.Now(), ws, order, faults, now, n, result)
    ensures !result.paused ==> n == |order|
  {
    result := SyncResult(0, map[], 0, false, 0);
    n := 0;
    while n < |order| && !result.paused
      invariant q.Valid() && 0 <= n <= |order|
      invariant Standing(rows0, verdicts, q.Now(), ws, order, faults, now, n, result)
    {
      result := SyncNth(q, ws, now, order, faults, n, result, rows0, verdicts);
      n := n + 1;
    }
  }

  // What one sync of the due rows makes of the queue and the items.
  ghost predicate Outcome(rows0: Rows, items0: Items, rows: Rows, items: Items, ws: Workspace, order: seq<OperationId>,
                          faults: seq<RowFault>, now: Time, result: SyncResult)
    requires |faults| == |order| && forall i | 0 <= i < |order| :: order[i] in rows0
  {
    var n, verdicts := result.synced + result.failed, Verdicts(rows0, items0, ws, order, faults);
    n <= |order| && (!result.paused ==> n == |order|) && Progress(rows0, rows, items, ws, order, verdicts, now, n, result)
  }

  // A sync on whose rows every verdict is good leaves none of them and reports no failure.
  lemma AllGoodMeansEmpty(rows0: Rows, items0: Items, rows: Rows, items: Items, ws: Workspace, order: seq<OperationId>,
                          faults: seq<RowFault>, now: Time, result: SyncResult)
    requires |faults| == |order| && forall i | 0 <= i < |order| :: order[i] in rows0
    requires Outcome(rows0, items0, rows, items, ws, order, faults, now, result)
    requires forall i | 0 <= i < |order| :: VerdictOf(rows0[order[i]], order[i], items0, ws, faults[i]) == Synced
    ensures result.synced == |order| && result.failed == 0 && result.needsAttention == 0 && !result.paused
    ensures forall op | op in order :: op !in rows
  {
    var n, verdicts := result.synced + result.failed, Verdicts(rows0, items0, ws, order, faults);
    assert CountSynced(verdicts[..n]) == n;
    NoneGivenUp(verdicts[..n]);
    forall op | op in order ensures op !in rows {
      var k :| 0 <= k < |order| && order[k] == op;
      assert RowDone(rows0, rows, items, ws, order[k], verdicts[k], now, result);
    }
  }

  lemma {:induction false} NoneGivenUp(verdicts: seq<Verdict>)
    requires forall i | 0 <= i < |verdicts| :: verdicts[i].Synced?
    ensures CountGivenUp(verdicts) == 0
  {
    if verdicts != [] {
      NoneGivenUp(verdicts[..|verdicts| - 1]);
    }
  }

  lemma StandingMeans(rows0: Rows, verdicts: seq<Verdict>, s: State, ws: Workspace, order: seq<OperationId>, faults: seq<RowFault>, now: Time, n: nat,
                      result: SyncResult)
    requires n <= |order| == |verdicts| == |faults| && forall i | 0 <= i < |order| :: order[i] in rows0
    requires Standing(rows0, verdicts, s, ws, order, faults, now, n, result)
    ensures n == result.synced + result.failed && Progress(rows0, s.rows, s.items, ws, order, verdicts, now, n, result)
  {
  }

  lemma Conclude(rows0: Rows, items0: Items, s: State, ws: Workspace, order: seq<OperationId>, faults: seq<RowFault>, now: Time, n: nat,
                 verdicts: seq<Verdict>, result: SyncResult)
    requires n <= |order| == |verdicts| == |faults| && (forall i | 0 <= i < |order| :: order[i] in rows0)
    requires verdicts == Verdicts(rows0, items0, ws, order, faults) && (!result.paused ==> n == |order|)
    requires Standing(rows0, verdicts, s, ws, order, faults, now, n, result)
    ensures Outcome(rows0, items0, s.rows, s.items, ws, order, faults, now, result)
  {
    StandingMeans(rows0, verdicts, s, ws, order, faults, now, n, result);
  }

  // Syncs the rows that are due, in the order given.  Each row that was handled
  // ended as its fault, its kind and the items on the server say: gone with its
  // item made, or waiting for the retry its failure calls for, or given up.  The
  // sync stops after the first row whose failure is one of the credential, and
  // otherwise handles them all.
  method SyncPendingItemsOnce(q: OfflineQueue, ws: Workspace, now: Time, order: seq<OperationId>, faults: seq<RowFault>)
    returns (result: SyncResult)
    requires q.Valid() && q.boot == BOOTED && q.continuations == [] && ws !in q.syncs
    requires Lists(order, q.rows, ws, now) && |faults| == |order| && FreshFaults(q.Now(), faults, 0)
    modifies q
    ensures q.Valid() && q.continuations == [] && ws !in q.syncs
    ensures forall op :: op in order <==> op in old(q.rows) && Due(old(q.rows)[op], ws, now)
    ensures Outcome(old(q.rows), old(q.items), q.rows, q.items, ws, order, faults, now, result)
  {
    ghost var verdicts := Verdicts(q.rows, q.items, ws, order, faults);
    ghost var rows0 := q.rows;
    BeginSync(q, ws, now, order);
    StandingAtStart(rows0, q.Now(), ws, order, faults, now, SyncResult(0, map[], 0, false, 0));
    var n;
    n, result := SyncRows(q, ws, now, order, faults, rows0, verdicts);
    Conclude(rows0, old(q.items), q.Now(), ws, order, faults, now, n, verdicts, result);
    if !result.paused {
      EndSync(q, ws);
    }
  }
}

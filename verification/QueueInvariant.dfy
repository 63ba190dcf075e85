/** What every step of the offline create queue keeps.  The invariant has a
    control half (epochs, running syncs, the order of waiting continuations) and
    a data half (rows, requests and server items agree). */
module QueueInvariant {
  import opened Common
  import opened QueueModel

  type Rows = map<OperationId, Row>
  type Legacy = map<OperationId, LegacyItem>
  type Syncs = map<Workspace, Sync>
  type Requests = map<RequestId, Request>
  type Items = map<ItemId, Item>

  // --- control ----------------------------------------------------------------

  predicate SyncShape(sync: Sync) {
    && (sync.pc.Opening? ==> sync.todo == [])
    && (!sync.pc.Opening? && !sync.pc.Head? ==> sync.todo != [])
  }

  predicate Settled(sync: Sync) {
    !sync.pc.Opening? && !sync.pc.Failing?
  }

  ghost predicate SyncsControl(epoch: nat, syncs: Syncs) {
    forall ws | ws in syncs :: syncs[ws].startEpoch <= epoch && SyncShape(syncs[ws])
  }

  ghost predicate ContinuationGood(epoch: nat, syncs: Syncs, c: Continuation) {
    match c
    case Select(ws) => ws in syncs && syncs[ws].pc.Opening?
    case Record(ws, operation, _, _) =>
      ws in syncs && syncs[ws].pc.Failing? && syncs[ws].todo != [] && syncs[ws].todo[0].operation == operation
    case Quarantine(e) => e <= epoch
  }

  predicate SameSync(c: Continuation, d: Continuation) {
    !c.Quarantine? && !d.Quarantine? && c.workspace == d.workspace
  }

  ghost predicate ContinuationsInv(epoch: nat, cs: seq<Continuation>, syncs: Syncs) {
    && (forall i | 0 <= i < |cs| :: ContinuationGood(epoch, syncs, cs[i]))
    && (forall i, j | 0 <= i < j < |cs| :: !SameSync(cs[i], cs[j]))
  }

  // A sync that counts the revocation with number e as past has not read rows.
  ghost predicate LateSyncsWait(e: nat, syncs: Syncs) {
    forall ws | ws in syncs && e <= syncs[ws].startEpoch :: syncs[ws].pc.Opening?
  }

  // What waits before and after the quarantine statement at position i.
  ghost predicate InOrder(cs: seq<Continuation>, syncs: Syncs, i: int)
    requires 0 <= i < |cs| && cs[i].Quarantine?
  {
    && LateSyncsWait(cs[i].epoch, syncs)
    && (forall j | 0 <= j < i && cs[j].Select? && cs[j].workspace in syncs :: syncs[cs[j].workspace].startEpoch < cs[i].epoch)
    && (forall j | i < j < |cs| :: !cs[j].Record?)
  }

  ghost predicate FifoInv(cs: seq<Continuation>, syncs: Syncs) {
    forall i | 0 <= i < |cs| && cs[i].Quarantine? :: InOrder(cs, syncs, i)
  }

  ghost predicate Control(epoch: nat, cs: seq<Continuation>, syncs: Syncs) {
    SyncsControl(epoch, syncs) && ContinuationsInv(epoch, cs, syncs) && FifoInv(cs, syncs)
  }

  ghost predicate ControlInv(s: State) {
    Control(s.epoch, s.continuations, s.syncs)
  }

  lemma ReplaceSync(epoch: nat, cs: seq<Continuation>, syncs: Syncs, ws: Workspace, sync: Sync)
    requires Control(epoch, cs, syncs) && ws in syncs && Settled(syncs[ws])
    requires sync.startEpoch == syncs[ws].startEpoch && Settled(sync) && SyncShape(sync)
    ensures Control(epoch, cs, syncs[ws := sync])
  {
  }

  lemma DropSync(epoch: nat, cs: seq<Continuation>, syncs: Syncs, ws: Workspace)
    requires Control(epoch, cs, syncs) && (ws in syncs ==> Settled(syncs[ws]))
    ensures Control(epoch, cs, Without(syncs, ws))
  {
  }

  lemma BeginSync(epoch: nat, cs: seq<Continuation>, syncs: Syncs, ws: Workspace)
    requires Control(epoch, cs, syncs) && ws !in syncs
    ensures Control(epoch, cs + [Select(ws)], syncs[ws := Sync(epoch, [], Opening)])
  {
  }

  lemma BeginQuarantine(epoch: nat, cs: seq<Continuation>, syncs: Syncs)
    requires Control(epoch, cs, syncs)
    ensures Control(epoch + 1, cs + [Quarantine(epoch + 1)], syncs)
  {
  }

  lemma EnterFailing(epoch: nat, cs: seq<Continuation>, syncs: Syncs, ws: Workspace, pause: bool, retry: bool, at: Option<Time>)
    requires Control(epoch, cs, syncs) && ws in syncs && Settled(syncs[ws])
    requires syncs[ws].startEpoch == epoch && syncs[ws].todo != []
    ensures Control(epoch, cs + [Record(ws, syncs[ws].todo[0].operation, retry, at)], syncs[ws := syncs[ws].(pc := Failing(pause))])
  {
  }

  // Popping the head: its sync, if any, settles or ends.
  lemma PopHead(epoch: nat, cs: seq<Continuation>, syncs: Syncs, next: Option<Sync>)
    requires Control(epoch, cs, syncs) && cs != []
    requires next.Some? && !cs[0].Quarantine? ==>
      && next.value.startEpoch == syncs[cs[0].workspace].startEpoch
      && Settled(next.value) && SyncShape(next.value)
    ensures Control(epoch, cs[1..],
              if cs[0].Quarantine? then syncs
              else if next.None? then Without(syncs, cs[0].workspace)
              else syncs[cs[0].workspace := next.value])
  {
  }

  // --- data -------------------------------------------------------------------

  ghost predicate NoRequestFor(requests: Requests, operation: OperationId) {
    forall id | id in requests :: requests[id].operation != operation
  }

  // A remembered remote id names the item made from this very row, by this
  // operation or, when no request was ever sent for it, by the older app.
  ghost predicate RemoteGood(requests: Requests, items: Items, operation: OperationId, row: Row) {
    row.remote.Some? ==>
      && MadeFrom(items, row.remote.value, row.workspace, row.draft.body)
      && (items[row.remote.value].operation == Some(operation) || NoRequestFor(requests, operation))
  }

  ghost predicate RowsInv(rows: Rows, requests: Requests, items: Items) {
    forall operation | operation in rows :: RemoteGood(requests, items, operation, rows[operation])
  }

  ghost predicate LegacyInv(legacy: Legacy, rows: Rows, requests: Requests, items: Items) {
    forall operation | operation in legacy ::
      && (legacy[operation].remote.Some? ==> MadeFrom(items, legacy[operation].remote.value, legacy[operation].workspace, legacy[operation].draft.body))
      && (operation !in rows ==> NoRequestFor(requests, operation))
  }

  ghost predicate RowBacks(rows: Rows, request: Request) {
    && request.operation in rows
    && rows[request.operation].workspace == request.workspace
    && rows[request.operation].draft.body == request.body
  }

  ghost predicate RequestGood(rows: Rows, items: Items, request: Request) {
    match request.phase
    case Done(reply) =>
      (match reply
       case Accepted(id) => MadeFrom(items, id, request.workspace, request.body) && items[id].operation == Some(request.operation)
       case Conflict => HoldsKey(items, request.workspace, request.operation)
       case Refused(_) => true)
    case _ => HoldsKey(items, request.workspace, request.operation) || RowBacks(rows, request)
  }

  ghost predicate RequestsInv(rows: Rows, requests: Requests, items: Items) {
    forall id | id in requests :: RequestGood(rows, items, requests[id])
  }

  // The entry read into memory still describes the row on disk.
  ghost predicate Mirrors(rows: Rows, ws: Workspace, entry: Entry, remote: Option<ItemId>) {
    && entry.operation in rows
    && rows[entry.operation].workspace == ws
    && rows[entry.operation].draft == entry.row.draft
    && rows[entry.operation].remote == remote
  }

  ghost predicate Awaits(requests: Requests, ws: Workspace, entry: Entry, id: RequestId) {
    && id in requests
    && requests[id].workspace == ws
    && requests[id].operation == entry.operation
    && requests[id].body == entry.row.draft.body
  }

  ghost predicate FirstEntry(rows: Rows, requests: Requests, ws: Workspace, entry: Entry, pc: Pc) {
    match pc
    case Head => Mirrors(rows, ws, entry, entry.row.remote)
    case Marked => Mirrors(rows, ws, entry, entry.row.remote)
    case Waiting(id) => Mirrors(rows, ws, entry, None) && Awaits(requests, ws, entry, id)
    case Have(item) => Mirrors(rows, ws, entry, Some(item))
    case _ => true
  }

  ghost predicate SyncData(rows: Rows, requests: Requests, ws: Workspace, sync: Sync) {
    && (forall i, j | 0 <= i < j < |sync.todo| :: sync.todo[i].operation != sync.todo[j].operation)
    && (forall i | 0 < i < |sync.todo| :: Mirrors(rows, ws, sync.todo[i], sync.todo[i].row.remote))
    && (sync.todo != [] ==> FirstEntry(rows, requests, ws, sync.todo[0], sync.pc))
  }

  ghost predicate SyncsData(rows: Rows, requests: Requests, syncs: Syncs) {
    forall ws | ws in syncs :: SyncData(rows, requests, ws, syncs[ws])
  }

  ghost predicate Data(rows: Rows, legacy: Legacy, requests: Requests, items: Items, syncs: Syncs) {
    && UniqueKeys(items)
    && RowsInv(rows, requests, items)
    && LegacyInv(legacy, rows, requests, items)
    && RequestsInv(rows, requests, items)
    && SyncsData(rows, requests, syncs)
  }

  ghost predicate DataInv(s: State) {
    Data(s.rows, s.legacyItems, s.requests, s.items, s.syncs)
  }

  // Rows keep everything but their status, counters and retry times.
  ghost predicate SameContent(rows: Rows, after: Rows) {
    && after.Keys == rows.Keys
    && forall operation | operation in rows ::
         && after[operation].workspace == rows[operation].workspace
         && after[operation].draft == rows[operation].draft
         && after[operation].remote == rows[operation].remote
  }

  lemma TouchRows(rows: Rows, after: Rows, legacy: Legacy, requests: Requests, items: Items, syncs: Syncs)
    requires Data(rows, legacy, requests, items, syncs) && SameContent(rows, after)
    ensures Data(after, legacy, requests, items, syncs)
  {
    forall ws | ws in syncs ensures SyncData(after, requests, ws, syncs[ws]) {
      assert SyncData(rows, requests, ws, syncs[ws]);
    }
  }

  // New rows come with a good remote id; existing rows are kept.
  lemma AddRows(rows: Rows, after: Rows, legacy: Legacy, requests: Requests, items: Items, syncs: Syncs)
    requires Data(rows, legacy, requests, items, syncs)
    requires forall operation | operation in rows :: operation in after && after[operation] == rows[operation]
    requires forall operation | operation in after && operation !in rows :: RemoteGood(requests, items, operation, after[operation])
    ensures Data(after, legacy, requests, items, syncs)
  {
    forall ws | ws in syncs ensures SyncData(after, requests, ws, syncs[ws]) {
      assert SyncData(rows, requests, ws, syncs[ws]);
    }
  }

  lemma PutSync(rows: Rows, legacy: Legacy, requests: Requests, items: Items, syncs: Syncs, ws: Workspace, sync: Sync)
    requires Data(rows, legacy, requests, items, syncs) && SyncData(rows, requests, ws, sync)
    ensures Data(rows, legacy, requests, items, syncs[ws := sync])
  {
  }

  lemma EndSync(rows: Rows, legacy: Legacy, requests: Requests, items: Items, syncs: Syncs, ws: Workspace)
    requires Data(rows, legacy, requests, items, syncs)
    ensures Data(rows, legacy, requests, items, Without(syncs, ws))
  {
  }

  ghost predicate ItemsKept(items: Items, after: Items) {
    forall id | id in items ::
      id in after && after[id].workspace == items[id].workspace && after[id].operation == items[id].operation
        && after[id].createdFrom == items[id].createdFrom
  }

  lemma KeptHoldsKey(items: Items, after: Items, ws: Workspace, operation: OperationId)
    requires ItemsKept(items, after)
    ensures HoldsKey(items, ws, operation) ==> HoldsKey(after, ws, operation)
  {
  }

  lemma KeepItems(rows: Rows, legacy: Legacy, requests: Requests, items: Items, after: Items, syncs: Syncs)
    requires Data(rows, legacy, requests, items, syncs) && ItemsKept(items, after) && UniqueKeys(after)
    ensures Data(rows, legacy, requests, after, syncs)
  {
  }

  // A request moves on: only its phase changes.
  lemma MoveRequest(rows: Rows, legacy: Legacy, requests: Requests, items: Items, syncs: Syncs, id: RequestId, phase: Phase)
    requires Data(rows, legacy, requests, items, syncs) && id in requests
    requires RequestGood(rows, items, requests[id].(phase := phase))
    ensures Data(rows, legacy, requests[id := requests[id].(phase := phase)], items, syncs)
  {
    var after := requests[id := requests[id].(phase := phase)];
    forall operation | NoRequestFor(requests, operation) ensures NoRequestFor(after, operation) {
    }
    forall operation | operation in rows ensures RemoteGood(after, items, operation, rows[operation]) {
      assert RemoteGood(requests, items, operation, rows[operation]);
    }
    forall ws | ws in syncs ensures SyncData(rows, after, ws, syncs[ws]) {
      assert SyncData(rows, requests, ws, syncs[ws]);
    }
  }

  // A fresh request for a row that remembers no remote item.
  lemma AddRequest(rows: Rows, legacy: Legacy, requests: Requests, items: Items, syncs: Syncs, id: RequestId, request: Request)
    requires Data(rows, legacy, requests, items, syncs) && id !in requests
    requires RowBacks(rows, request) && request.phase.Arrived? && rows[request.operation].remote == None
    ensures Data(rows, legacy, requests[id := request], items, syncs)
  {
  }

  // --- single steps -------------------------------------------------------------

  lemma TakeReplyData(s: State, ws: Workspace)
    requires Inv(s) && LoopEnabled(s, ws, TakeReply)
    ensures DataInv(DoTakeReply(s, ws))
  {
    var sync := s.syncs[ws];
    var operation := sync.todo[0].operation;
    var t := DoTakeReply(s, ws);
    assert SyncData(s.rows, s.requests, ws, sync);
    assert RequestGood(s.rows, s.items, s.requests[sync.pc.request]);
    forall w | w in t.syncs ensures SyncData(t.rows, t.requests, w, t.syncs[w]) {
      assert SyncData(s.rows, s.requests, w, s.syncs[w]);
    }
    forall o | o in t.rows ensures RemoteGood(t.requests, t.items, o, t.rows[o]) {
      assert RemoteGood(s.requests, s.items, o, s.rows[o]);
    }
  }

  lemma DeleteRowData(s: State, ws: Workspace)
    requires Inv(s) && LoopEnabled(s, ws, DeleteRow)
    ensures DataInv(DoDelete(s, ws))
  {
    var sync := s.syncs[ws];
    var operation := sync.todo[0].operation;
    var t := DoDelete(s, ws);
    assert SyncData(s.rows, s.requests, ws, sync);
    assert RemoteGood(s.requests, s.items, operation, s.rows[operation]);
    forall w | w in t.syncs ensures SyncData(t.rows, t.requests, w, t.syncs[w]) {
      assert SyncData(s.rows, s.requests, w, s.syncs[w]);
    }
    forall id | id in s.requests ensures RequestGood(t.rows, t.items, s.requests[id]) {
      assert RequestGood(s.rows, s.items, s.requests[id]);
      if s.requests[id].operation == operation && RowBacks(s.rows, s.requests[id]) {
        assert s.items[s.rows[operation].remote.value].operation == Some(operation);
      }
    }
  }

  lemma ServerKeepsData(s: State, id: RequestId, item: ItemId, publishFails: bool)
    requires DataInv(s) && id in s.requests && !s.requests[id].phase.Done?
    ensures s.requests[id].phase.Arrived? ==> DataInv(DoLookUp(s, id))
    ensures HoldsKey(s.items, s.requests[id].workspace, s.requests[id].operation) || item !in s.items ==>
              DataInv(DoInsert(s, id, item, publishFails))
    ensures forall status :: DataInv(Answer(s, id, Refused(status)))
  {
    var request := s.requests[id];
    assert RequestGood(s.rows, s.items, request);
    forall status: nat ensures DataInv(Answer(s, id, Refused(status))) {
      MoveRequest(s.rows, s.legacyItems, s.requests, s.items, s.syncs, id, Done(Refused(status)));
    }
    if HoldsKey(s.items, request.workspace, request.operation) {
      MoveRequest(s.rows, s.legacyItems, s.requests, s.items, s.syncs, id, Done(AnswerExisting(s.items, request)));
    } else {
      if request.phase.Arrived? {
        MoveRequest(s.rows, s.legacyItems, s.requests, s.items, s.syncs, id, NotFoundYet);
      }
      if item !in s.items {
        var items := s.items[item := Item(request.workspace, Some(request.operation), request.body, false)];
        FreshKeyUnique(s.items, item, items[item]);
        KeepItems(s.rows, s.legacyItems, s.requests, s.items, items, s.syncs);
        MoveRequest(s.rows, s.legacyItems, s.requests, items, s.syncs, id, Done(if publishFails then Refused(500) else Accepted(item)));
      }
    }
  }

  lemma FreshKeyUnique(items: Items, id: ItemId, item: Item)
    requires UniqueKeys(items) && id !in items
    requires item.operation.Some? ==> !HoldsKey(items, item.workspace, item.operation.value)
    ensures UniqueKeys(items[id := item])
  {
  }

  lemma ContinuationControl(s: State, order: seq<OperationId>)
    requires Inv(s) && s.continuations != []
    requires s.continuations[0].Select? ==> forall i | 0 <= i < |order| :: order[i] in s.rows
    ensures ControlInv(DoContinuation(s, order))
  {
    var c := s.continuations[0];
    assert ContinuationGood(s.epoch, s.syncs, c);
    if c.Quarantine? {
      PopHead(s.epoch, s.continuations, s.syncs, None);
    } else {
      var syncs := DoContinuation(s, order).syncs;
      PopHead(s.epoch, s.continuations, s.syncs, if c.workspace in syncs then Some(syncs[c.workspace]) else None);
    }
  }

  // Moving on within the list, or stopping at its head, keeps the mirror.
  lemma ChangePc(rows: Rows, requests: Requests, ws: Workspace, sync: Sync, pc: Pc)
    requires SyncData(rows, requests, ws, sync) && sync.todo != []
    requires FirstEntry(rows, requests, ws, sync.todo[0], pc)
    ensures SyncData(rows, requests, ws, sync.(pc := pc))
  {
  }

  lemma Advance(rows: Rows, requests: Requests, ws: Workspace, sync: Sync)
    requires SyncData(rows, requests, ws, sync) && sync.todo != []
    ensures SyncData(rows, requests, ws, NextEntry(sync))
  {
  }

  lemma LoopHeadStep(s: State, ws: Workspace)
    requires Inv(s) && ws in s.syncs && s.syncs[ws].pc == Head
    ensures Inv(DoLoopHead(s, ws))
  {
    var sync := s.syncs[ws];
    assert SyncData(s.rows, s.requests, ws, sync);
    if sync.todo == [] || sync.startEpoch != s.epoch {
      DropSync(s.epoch, s.continuations, s.syncs, ws);
      EndSync(s.rows, s.legacyItems, s.requests, s.items, s.syncs, ws);
    } else {
      var row := sync.todo[0].row;
      var pc := if Supported(row) then Marked else Failing(false);
      ChangePc(s.rows, s.requests, ws, sync, pc);
      PutSync(s.rows, s.legacyItems, s.requests, s.items, s.syncs, ws, sync.(pc := pc));
      if pc.Failing? {
        EnterFailing(s.epoch, s.continuations, s.syncs, ws, false, false, None);
      } else {
        TouchRows(s.rows, MarkInProgress(s.rows, sync.todo[0].operation), s.legacyItems, s.requests, s.items, s.syncs[ws := sync.(pc := pc)]);
        ReplaceSync(s.epoch, s.continuations, s.syncs, ws, sync.(pc := pc));
      }
    }
  }

  lemma SendOrSkipStep(s: State, ws: Workspace, id: RequestId)
    requires Inv(s) && LoopEnabled(s, ws, SendOrSkip(id))
    ensures Inv(DoSendOrSkip(s, ws, id))
  {
    var sync := s.syncs[ws];
    var t := DoSendOrSkip(s, ws, id);
    assert SyncData(s.rows, s.requests, ws, sync);
    ReplaceSync(s.epoch, s.continuations, s.syncs, ws, t.syncs[ws]);
    if sync.todo[0].row.remote == None {
      AddRequest(s.rows, s.legacyItems, s.requests, s.items, s.syncs, id, t.requests[id]);
      assert SyncData(s.rows, t.requests, ws, sync);
    }
    PutSync(s.rows, s.legacyItems, t.requests, s.items, s.syncs, ws, t.syncs[ws]);
  }

  lemma FailStep(s: State, ws: Workspace, failure: Option<nat>, now: Time)
    requires Inv(s) && ws in s.syncs && Working(s.syncs[ws]) && MayFail(s, s.syncs[ws], failure)
    ensures Inv(DoFail(s, ws, failure, now))
  {
    var t := DoFail(s, ws, failure, now);
    assert SyncData(s.rows, s.requests, ws, s.syncs[ws]);
    if ws !in t.syncs {
      DropSync(s.epoch, s.continuations, s.syncs, ws);
      EndSync(s.rows, s.legacyItems, s.requests, s.items, s.syncs, ws);
    } else {
      var policy := ClassifyQueueFailure(failure);
      var sync := s.syncs[ws].(pc := Failing(policy.pause));
      assert t.syncs == s.syncs[ws := sync];
      var at := if policy.retry then Some(NextRetryAt(s.syncs[ws].todo[0].row.attempts + 1, now)) else None;
      EnterFailing(s.epoch, s.continuations, s.syncs, ws, policy.pause, policy.retry, at);
      ChangePc(s.rows, s.requests, ws, s.syncs[ws], sync.pc);
      PutSync(s.rows, s.legacyItems, s.requests, s.items, s.syncs, ws, sync);
    }
  }

  lemma NextRowStep(s: State, ws: Workspace)
    requires Inv(s) && LoopEnabled(s, ws, NextRow)
    ensures Inv(s.(syncs := s.syncs[ws := NextEntry(s.syncs[ws])]))
  {
    var sync := s.syncs[ws];
    assert SyncData(s.rows, s.requests, ws, sync);
    Advance(s.rows, s.requests, ws, sync);
    ReplaceSync(s.epoch, s.continuations, s.syncs, ws, NextEntry(sync));
    PutSync(s.rows, s.legacyItems, s.requests, s.items, s.syncs, ws, NextEntry(sync));
  }

  lemma SelectData(s: State, ws: Workspace, order: seq<OperationId>)
    requires Inv(s) && s.continuations != [] && s.continuations[0] == Select(ws)
    requires exists now :: Lists(order, s.rows, ws, now)
    ensures DataInv(DoSelect(s, ws, order))
  {
    if ws in s.syncs {
      var sync := s.syncs[ws].(todo := Entries(order, s.rows), pc := Head);
      assert SyncData(s.rows, s.requests, ws, sync);
      PutSync(s.rows, s.legacyItems, s.requests, s.items, s.syncs, ws, sync);
    }
  }

  lemma RecordData(s: State, ws: Workspace, operation: OperationId, retry: bool, at: Option<Time>)
    requires Inv(s) && s.continuations != [] && s.continuations[0] == Record(ws, operation, retry, at)
    ensures DataInv(DoRecord(s, ws, operation, retry, at))
  {
    var sync := s.syncs[ws];
    var rows := SetStatus(s.rows, operation, if retry then RetryableFailed else PermanentlyFailed, at);
    assert ContinuationGood(s.epoch, s.syncs, s.continuations[0]);
    assert SyncData(s.rows, s.requests, ws, sync);
    TouchRows(s.rows, rows, s.legacyItems, s.requests, s.items, s.syncs);
    if sync.pc.pause {
      EndSync(rows, s.legacyItems, s.requests, s.items, s.syncs, ws);
    } else {
      Advance(rows, s.requests, ws, sync);
      PutSync(rows, s.legacyItems, s.requests, s.items, s.syncs, ws, NextEntry(sync));
    }
  }

  lemma QuarantineData(s: State)
    requires Inv(s)
    ensures DataInv(s.(rows := QuarantineRows(s.rows), continuations := s.continuations[if s.continuations == [] then 0 else 1..]))
  {
    TouchRows(s.rows, QuarantineRows(s.rows), s.legacyItems, s.requests, s.items, s.syncs);
  }

  lemma ContinuationStep(s: State, now: Time, order: seq<OperationId>)
    requires Inv(s) && ProcessEnabled(s, RunContinuation(now, order))
    ensures Inv(DoContinuation(s, order))
  {
    ContinuationControl(s, order);
    match s.continuations[0]
    case Select(ws) => SelectData(s, ws, order);
    case Record(ws, operation, retry, at) => RecordData(s, ws, operation, retry, at);
    case Quarantine(_) => QuarantineData(s);
  }

  lemma ThrowStep(s: State)
    requires Inv(s) && s.continuations != []
    ensures Inv(DoContinuationThrows(s))
  {
    PopHead(s.epoch, s.continuations, s.syncs, None);
    if !s.continuations[0].Quarantine? {
      EndSync(s.rows, s.legacyItems, s.requests, s.items, s.syncs, s.continuations[0].workspace);
    }
  }

  lemma BootStepData(s: State)
    requires Inv(s) && s.boot < BOOTED
    ensures Inv(DoBootStep(s))
  {
    if s.boot == 2 {
      TouchRows(s.rows, RecoverInProgress(s.rows), s.legacyItems, s.requests, s.items, s.syncs);
    } else {
      AddRows(s.rows, DoBootStep(s).rows, s.legacyItems, s.requests, s.items, s.syncs);
    }
  }

  lemma ProcessStep(s: State, a: ProcessAction)
    requires Inv(s) && ProcessEnabled(s, a)
    ensures Inv(ApplyProcess(s, a))
  {
    match a
    case QueueItem(ws, draft) => AddRows(s.rows, ApplyProcess(s, a).rows, s.legacyItems, s.requests, s.items, s.syncs);
    case StartSync(ws) =>
      if ws !in s.syncs {
        BeginSync(s.epoch, s.continuations, s.syncs, ws);
        PutSync(s.rows, s.legacyItems, s.requests, s.items, s.syncs, ws, Sync(s.epoch, [], Opening));
      }
    case CallQuarantine => BeginQuarantine(s.epoch, s.continuations, s.syncs);
    case RunContinuation(now, order) => ContinuationStep(s, now, order);
    case ContinuationThrows => ThrowStep(s);
    case Crash =>
    case BootStep => BootStepData(s);
  }

  lemma LoopStep(s: State, ws: Workspace, a: LoopAction)
    requires Inv(s) && LoopEnabled(s, ws, a)
    ensures Inv(ApplyLoop(s, ws, a))
  {
    match a
    case LoopHead => LoopHeadStep(s, ws);
    case SendOrSkip(id) => SendOrSkipStep(s, ws, id);
    case TakeReply =>
      TakeReplyData(s, ws);
      ReplaceSync(s.epoch, s.continuations, s.syncs, ws, DoTakeReply(s, ws).syncs[ws]);
    case Fail(failure, now) => FailStep(s, ws, failure, now);
    case DeleteRow =>
      DeleteRowData(s, ws);
      ReplaceSync(s.epoch, s.continuations, s.syncs, ws, s.syncs[ws].(pc := Gone));
    case NextRow => NextRowStep(s, ws);
    case SyncThrows =>
      DropSync(s.epoch, s.continuations, s.syncs, ws);
      EndSync(s.rows, s.legacyItems, s.requests, s.items, s.syncs, ws);
  }

  lemma ServerStep(s: State, a: ServerAction)
    requires Inv(s) && ServerEnabled(s, a)
    ensures Inv(ApplyServer(s, a))
  {
    match a
    case Refuse(id, status) => ServerKeepsData(s, id, 0, false);
    case LookUp(id) => ServerKeepsData(s, id, 0, false);
    case Insert(id, item, publishFails) => ServerKeepsData(s, id, item, publishFails);
    case OtherClientCreates(item, ws, operation, body) =>
      FreshKeyUnique(s.items, item, Item(ws, operation, body, false));
      KeepItems(s.rows, s.legacyItems, s.requests, s.items, ApplyServer(s, a).items, s.syncs);
    case Archive(item) => KeepItems(s.rows, s.legacyItems, s.requests, s.items, ApplyServer(s, a).items, s.syncs);
  }

  ghost predicate Inv(s: State) {
    ControlInv(s) && DataInv(s)
  }

  lemma StepKeepsInv(s: State, a: Action, t: State)
    requires Inv(s) && Step(s, a, t)
    ensures Inv(t)
  {
    match a
    case Process(p) => ProcessStep(s, p);
    case Loop(ws, l) => LoopStep(s, ws, l);
    case Server(x) => ServerStep(s, x);
  }

  lemma {:induction false} RunKeepsInv(states: seq<State>, actions: seq<Action>, n: nat)
    requires Run(states, actions) && n < |states|
    ensures Inv(states[n])
  {
    if n > 0 {
      RunKeepsInv(states, actions, n - 1);
      assert Step(states[n - 1], actions[n - 1], states[n]);
      StepKeepsInv(states[n - 1], actions[n - 1], states[n]);
    }
  }
}

/** What the offline create queue promises over whole runs: with crashes, lost
    replies, restarts, drafts queued again and credential removal. */
module QueueTheorems {
  import opened Common
  import opened QueueModel
  import opened QueueInvariant

  // --- what one step can do to the rows ---------------------------------------------

  ghost predicate RowStays(rows: Rows, after: Rows, operation: OperationId) {
    && operation in rows && operation in after
    && after[operation].workspace == rows[operation].workspace
    && after[operation].draft == rows[operation].draft
  }

  predicate Deletes(s: State, a: Action, operation: OperationId) {
    && a.Loop? && a.loop.DeleteRow? && a.workspace in s.syncs && s.syncs[a.workspace].todo != []
    && s.syncs[a.workspace].todo[0].operation == operation
  }

  ghost predicate Stores(s: State, a: Action, operation: OperationId) {
    a.Process? &&
    (|| (a.process.QueueItem? && a.process.draft.localId == operation)
     || (a.process.BootStep? && s.boot == 0 && operation in s.legacyItems)
     || (a.process.BootStep? && s.boot == 1 && IsLegacyUpdate(s, operation)))
  }

  lemma BootRows(s: State, operation: OperationId)
    requires s.boot < BOOTED
    ensures operation in s.rows ==> RowStays(s.rows, DoBootStep(s).rows, operation)
    ensures operation !in s.rows && operation in DoBootStep(s).rows ==> Stores(s, Process(BootStep), operation)
  {
  }

  lemma QuarantineKeepsRows(rows: Rows)
    ensures QuarantineRows(rows).Keys == rows.Keys
    ensures forall operation | operation in rows :: RowStays(rows, QuarantineRows(rows), operation)
  {
  }

  // A callback that runs changes no key of the rows, no draft, and nothing else
  // that is stored.
  ghost predicate OnlyStatusMoves(s: State, t: State) {
    && t.rows.Keys == s.rows.Keys && (forall operation | operation in s.rows :: RowStays(s.rows, t.rows, operation))
    && t.items == s.items && t.requests == s.requests && t.legacyItems == s.legacyItems && t.legacyUpdates == s.legacyUpdates
  }

  lemma SelectMoves(s: State, ws: Workspace, order: seq<OperationId>)
    requires s.continuations != [] && forall i | 0 <= i < |order| :: order[i] in s.rows
    ensures OnlyStatusMoves(s, DoSelect(s, ws, order))
  {
  }

  lemma RecordMoves(s: State, ws: Workspace, operation: OperationId, retry: bool, at: Option<Time>)
    requires s.continuations != []
    ensures OnlyStatusMoves(s, DoRecord(s, ws, operation, retry, at))
  {
    var t := DoRecord(s, ws, operation, retry, at);
    assert t.rows == SetStatus(s.rows, operation, if retry then RetryableFailed else PermanentlyFailed, at);
  }

  lemma ContinuationMoves(s: State, order: seq<OperationId>)
    requires s.continuations != []
    requires s.continuations[0].Select? ==> forall i | 0 <= i < |order| :: order[i] in s.rows
    ensures OnlyStatusMoves(s, DoContinuation(s, order))
  {
    match s.continuations[0]
    case Select(ws) => SelectMoves(s, ws, order);
    case Record(ws, operation, retry, at) => RecordMoves(s, ws, operation, retry, at);
    case Quarantine(_) => QuarantineKeepsRows(s.rows);
  }

  lemma ProcessRows(s: State, a: ProcessAction, operation: OperationId)
    requires ProcessEnabled(s, a)
    ensures operation in s.rows ==> RowStays(s.rows, ApplyProcess(s, a).rows, operation)
    ensures operation !in s.rows && operation in ApplyProcess(s, a).rows ==> Stores(s, Process(a), operation)
  {
    match a
    case RunContinuation(_, order) => ContinuationMoves(s, order);
    case BootStep => BootRows(s, operation);
    case _ =>
  }

  lemma LoopRows(s: State, ws: Workspace, a: LoopAction, operation: OperationId)
    requires LoopEnabled(s, ws, a)
    ensures operation in ApplyLoop(s, ws, a).rows ==> RowStays(s.rows, ApplyLoop(s, ws, a).rows, operation)
    ensures operation in s.rows && operation !in ApplyLoop(s, ws, a).rows ==> Deletes(s, Loop(ws, a), operation)
  {
    match a
    case LoopHead =>
    case TakeReply =>
    case DeleteRow =>
    case _ =>
  }

  lemma ServerLeavesPhone(s: State, a: ServerAction)
    requires ServerEnabled(s, a)
    ensures
      var t := ApplyServer(s, a);
      && t.rows == s.rows && t.syncs == s.syncs && t.continuations == s.continuations && t.epoch == s.epoch
      && t.legacyItems == s.legacyItems && t.legacyUpdates == s.legacyUpdates && t.boot == s.boot
  {
  }

  lemma StepRows(s: State, a: Action, t: State, operation: OperationId)
    requires Step(s, a, t)
    ensures operation in s.rows && operation in t.rows ==> RowStays(s.rows, t.rows, operation)
    ensures operation in s.rows && operation !in t.rows ==> Deletes(s, a, operation)
    ensures operation !in s.rows && operation in t.rows ==> Stores(s, a, operation)
  {
    match a
    case Process(p) => ProcessRows(s, p, operation);
    case Loop(ws, l) => LoopRows(s, ws, l, operation);
    case Server(x) => ServerLeavesPhone(s, x);
  }

  // --- creation -----------------------------------------------------------------

  // In no reachable state do two items share a workspace and operation id.
  lemma AtMostOneItemPerOperation(states: seq<State>, actions: seq<Action>, n: nat, i: ItemId, j: ItemId)
    requires Run(states, actions) && n < |states|
    requires i in states[n].items && j in states[n].items
    requires states[n].items[i].workspace == states[n].items[j].workspace
    requires states[n].items[i].operation.Some? && states[n].items[i].operation == states[n].items[j].operation
    ensures i == j
  {
    RunKeepsInv(states, actions, n);
  }

  // A row leaves the queue only when the server holds the item made from it.
  lemma DeletedOnlyWhenCreated(states: seq<State>, actions: seq<Action>, n: nat, operation: OperationId)
    requires Run(states, actions) && n < |actions|
    requires operation in states[n].rows && operation !in states[n + 1].rows
    ensures
      var row := states[n].rows[operation];
      && row.remote.Some?
      && MadeFrom(states[n].items, row.remote.value, row.workspace, row.draft.body)
      && (|| states[n].items[row.remote.value].operation == Some(operation)
          || NoRequestFor(states[n].requests, operation))
  {
    var s, a := states[n], actions[n];
    RunKeepsInv(states, actions, n);
    assert Step(s, a, states[n + 1]);
    StepRows(s, a, states[n + 1], operation);
    assert SyncData(s.rows, s.requests, a.workspace, s.syncs[a.workspace]);
    assert RemoteGood(s.requests, s.items, operation, s.rows[operation]);
  }

  // The server has nothing under the operation id but what the draft says.
  ghost predicate CleanItems(items: Items, operation: OperationId, ws: Workspace, body: Body) {
    forall id | id in items && items[id].workspace == ws && items[id].operation == Some(operation) ::
      items[id].createdFrom == body
  }

  predicate Asks(request: Request, operation: OperationId, ws: Workspace) {
    request.workspace == ws && request.operation == operation
  }

  // Not answered with a conflict, and nothing that could be.
  ghost predicate NotRefuted(request: Request, body: Body) {
    match request.phase
    case Done(reply) => reply != Conflict
    case _ => request.body == body
  }

  // A request made earlier for the same operation id creates nothing else.
  ghost predicate Harmless(items: Items, request: Request, body: Body) {
    request.phase.Done? || request.body == body || HoldsKey(items, request.workspace, request.operation)
  }

  ghost predicate CleanRequests(items: Items, requests: Requests, earlier: set<RequestId>, operation: OperationId, ws: Workspace, body: Body) {
    forall id | id in requests && Asks(requests[id], operation, ws) ::
      if id in earlier then Harmless(items, requests[id], body) else NotRefuted(requests[id], body)
  }

  predicate Queued(s: State, operation: OperationId, ws: Workspace, body: Body) {
    operation in s.rows && s.rows[operation].workspace == ws && s.rows[operation].draft.body == body
  }

  // The row is queued and no request but the earlier ones is or can be refuted.
  ghost predicate Clean(s: State, earlier: set<RequestId>, operation: OperationId, ws: Workspace, body: Body) {
    && Queued(s, operation, ws, body)
    && CleanItems(s.items, operation, ws, body)
    && CleanRequests(s.items, s.requests, earlier, operation, ws, body)
  }

  // Another client uses the operation id for something else.
  predicate ForeignUse(a: Action, operation: OperationId, ws: Workspace, body: Body) {
    && a.Server? && a.server.OtherClientCreates?
    && a.server.workspace == ws && a.server.operation == Some(operation) && a.server.body != body
  }

  lemma CleanMoves(items: Items, after: Items, requests: Requests, id: RequestId, phase: Phase, earlier: set<RequestId>,
                   operation: OperationId, ws: Workspace, body: Body)
    requires CleanRequests(items, requests, earlier, operation, ws, body) && id in requests && ItemsKept(items, after)
    requires Asks(requests[id], operation, ws) ==>
               if id in earlier then Harmless(after, requests[id].(phase := phase), body) else NotRefuted(requests[id].(phase := phase), body)
    ensures CleanRequests(after, requests[id := requests[id].(phase := phase)], earlier, operation, ws, body)
  {
    KeptHoldsKey(items, after, ws, operation);
  }

  lemma CleanLookUp(s: State, id: RequestId, earlier: set<RequestId>, operation: OperationId, ws: Workspace, body: Body)
    requires ServerEnabled(s, LookUp(id)) && Clean(s, earlier, operation, ws, body)
    ensures CleanRequests(s.items, DoLookUp(s, id).requests, earlier, operation, ws, body)
  {
    CleanMoves(s.items, s.items, s.requests, id, DoLookUp(s, id).requests[id].phase, earlier, operation, ws, body);
  }

  lemma CleanInsert(s: State, id: RequestId, item: ItemId, fails: bool, earlier: set<RequestId>, operation: OperationId, ws: Workspace, body: Body)
    requires ServerEnabled(s, Insert(id, item, fails)) && Clean(s, earlier, operation, ws, body)
    ensures CleanItems(DoInsert(s, id, item, fails).items, operation, ws, body)
    ensures CleanRequests(DoInsert(s, id, item, fails).items, DoInsert(s, id, item, fails).requests, earlier, operation, ws, body)
  {
    var t := DoInsert(s, id, item, fails);
    CleanMoves(s.items, t.items, s.requests, id, t.requests[id].phase, earlier, operation, ws, body);
  }

  lemma CleanServer(s: State, a: ServerAction, earlier: set<RequestId>, operation: OperationId, ws: Workspace, body: Body)
    requires ServerEnabled(s, a) && Clean(s, earlier, operation, ws, body) && !ForeignUse(Server(a), operation, ws, body)
    ensures CleanItems(ApplyServer(s, a).items, operation, ws, body)
    ensures CleanRequests(ApplyServer(s, a).items, ApplyServer(s, a).requests, earlier, operation, ws, body)
  {
    match a
    case Refuse(id, status) => CleanMoves(s.items, s.items, s.requests, id, Done(Refused(status)), earlier, operation, ws, body);
    case LookUp(id) => CleanLookUp(s, id, earlier, operation, ws, body);
    case Insert(id, item, fails) => CleanInsert(s, id, item, fails, earlier, operation, ws, body);
    case OtherClientCreates(_, _, _, _) => KeptHoldsKey(s.items, ApplyServer(s, a).items, ws, operation);
    case Archive(_) => KeptHoldsKey(s.items, ApplyServer(s, a).items, ws, operation);
  }

  // Only sending adds a request, and it says what the row says.
  lemma LoopRequests(s: State, ws: Workspace, a: LoopAction)
    requires LoopEnabled(s, ws, a)
    ensures ApplyLoop(s, ws, a).items == s.items
    ensures ApplyLoop(s, ws, a).requests == s.requests
      || (&& a.SendOrSkip? && s.syncs[ws].todo[0].row.remote == None
          && ApplyLoop(s, ws, a).requests == s.requests[a.request := RequestFor(ws, s.syncs[ws].todo[0])])
  {
    match a
    case LoopHead => assert DoLoopHead(s, ws).items == s.items && DoLoopHead(s, ws).requests == s.requests;
    case Fail(failure, now) =>
      assert DoFail(s, ws, failure, now).items == s.items && DoFail(s, ws, failure, now).requests == s.requests;
    case _ =>
  }

  // A request for a queued row says what the row says.
  lemma SentForRow(s: State, w: Workspace, a: LoopAction, operation: OperationId, ws: Workspace, body: Body)
    requires DataInv(s) && LoopEnabled(s, w, a) && Queued(s, operation, ws, body)
    ensures ApplyLoop(s, w, a).items == s.items
    ensures ApplyLoop(s, w, a).requests == s.requests
      || (&& a.SendOrSkip? && ApplyLoop(s, w, a).requests == s.requests[a.request := ApplyLoop(s, w, a).requests[a.request]]
          && a.request !in s.requests && a.request in ApplyLoop(s, w, a).requests
          && var request := ApplyLoop(s, w, a).requests[a.request];
             request.phase.Arrived? && (Asks(request, operation, ws) ==> request.body == body))
  {
    LoopRequests(s, w, a);
    if a.SendOrSkip? {
      assert SyncData(s.rows, s.requests, w, s.syncs[w]);
    }
  }

  lemma ProcessLeavesServer(s: State, a: ProcessAction)
    requires ProcessEnabled(s, a)
    ensures ApplyProcess(s, a).items == s.items && ApplyProcess(s, a).requests == s.requests
  {
    if a.RunContinuation? {
      ContinuationMoves(s, a.order);
    }
  }

  lemma CleanStep(s: State, a: Action, t: State, earlier: set<RequestId>, operation: OperationId, ws: Workspace, body: Body)
    requires Inv(s) && Step(s, a, t) && Clean(s, earlier, operation, ws, body)
    requires operation in t.rows && !ForeignUse(a, operation, ws, body)
    ensures Clean(t, earlier, operation, ws, body)
  {
    StepRows(s, a, t, operation);
    match a
    case Process(p) => ProcessLeavesServer(s, p);
    case Loop(w, l) => SentForRow(s, w, l, operation, ws, body);
    case Server(x) => CleanServer(s, x, earlier, operation, ws, body);
  }

  // Storing a row sends nothing, and what is still unanswered for its operation
  // id was made for an item the server already holds.
  lemma StoredUnasked(s: State, a: Action, t: State, operation: OperationId, ws: Workspace)
    requires Inv(s) && Step(s, a, t) && operation !in s.rows && operation in t.rows
    ensures t.items == s.items && t.requests == s.requests
    ensures forall id | id in s.requests && Asks(s.requests[id], operation, ws) && !HoldsKey(s.items, ws, operation) ::
      s.requests[id].phase.Done? && s.requests[id].phase.reply != Conflict
    ensures forall id, body | id in s.requests && Asks(s.requests[id], operation, ws) :: Harmless(s.items, s.requests[id], body)
  {
    StepRows(s, a, t, operation);
    ProcessLeavesServer(s, a.process);
    forall id | id in s.requests && Asks(s.requests[id], operation, ws)
      ensures RequestGood(s.rows, s.items, s.requests[id]) && Harmless(s.items, s.requests[id], s.requests[id].body)
    {
    }
  }

  lemma CleanAt(states: seq<State>, actions: seq<Action>, k: nat, earlier: set<RequestId>, operation: OperationId, ws: Workspace, body: Body)
    requires Run(states, actions) && k < |actions| && Clean(states[k], earlier, operation, ws, body)
    requires operation in states[k + 1].rows && !ForeignUse(actions[k], operation, ws, body)
    ensures Clean(states[k + 1], earlier, operation, ws, body)
  {
    RunKeepsInv(states, actions, k);
    CleanStep(states[k], actions[k], states[k + 1], earlier, operation, ws, body);
  }

  lemma StaysClean(states: seq<State>, actions: seq<Action>, born: nat, n: nat, earlier: set<RequestId>,
                   operation: OperationId, ws: Workspace, body: Body)
    requires Run(states, actions) && born <= n < |states| && Clean(states[born], earlier, operation, ws, body)
    requires forall k | born <= k <= n :: operation in states[k].rows
    requires forall k | born <= k < n :: !ForeignUse(actions[k], operation, ws, body)
    ensures Clean(states[n], earlier, operation, ws, body)
  {
    var clean := seq(|states|, k requires 0 <= k < |states| => Clean(states[k], earlier, operation, ws, body));
    forall k | born <= k < n && clean[k] ensures clean[k + 1] {
      CleanAt(states, actions, k, earlier, operation, ws, body);
    }
    Along(clean, born, n);
  }

  // The row of this operation id was stored in step born and is still queued.
  ghost predicate StoredAt(states: seq<State>, actions: seq<Action>, born: nat, n: nat, operation: OperationId, ws: Workspace, body: Body) {
    && Run(states, actions) && born < n < |states|
    && operation !in states[born].rows && Queued(states[born + 1], operation, ws, body)
    && forall k | born < k <= n :: operation in states[k].rows
  }

  // A row stored while the server has nothing else under its operation id, the
  // item made from the very same draft included, is never answered with an
  // idempotency conflict, however often it is retried.
  lemma UnchangedRowNeverConflicts(
      states: seq<State>, actions: seq<Action>, born: nat, n: nat, operation: OperationId, ws: Workspace, body: Body)
    requires StoredAt(states, actions, born, n, operation, ws, body)
    requires CleanItems(states[born].items, operation, ws, body)
    requires forall k | born <= k < n :: !ForeignUse(actions[k], operation, ws, body)
    ensures Clean(states[n], states[born].requests.Keys, operation, ws, body)
  {
    RunKeepsInv(states, actions, born);
    StoredUnasked(states[born], actions[born], states[born + 1], operation, ws);
    StaysClean(states, actions, born + 1, n, states[born].requests.Keys, operation, ws, body);
  }

  // If the operation id was unused, that includes requests made before.
  lemma UnusedOperationNeverConflicts(
      states: seq<State>, actions: seq<Action>, born: nat, n: nat, operation: OperationId, ws: Workspace, body: Body)
    requires StoredAt(states, actions, born, n, operation, ws, body)
    requires !HoldsKey(states[born].items, ws, operation)
    requires forall k | born <= k < n :: !ForeignUse(actions[k], operation, ws, body)
    ensures Clean(states[n], {}, operation, ws, body)
  {
    RunKeepsInv(states, actions, born);
    StoredUnasked(states[born], actions[born], states[born + 1], operation, ws);
    StaysClean(states, actions, born + 1, n, {}, operation, ws, body);
  }

  // --- and when it always does -----------------------------------------------------------

  ghost predicate Taken(items: Items, operation: OperationId, ws: Workspace, body: Body) {
    HoldsKey(items, ws, operation) && !CleanItems(items, operation, ws, body)
  }

  predicate Doomed(request: Request, body: Body) {
    request.body == body && (request.phase.Done? ==> !request.phase.reply.Accepted?)
  }

  // The row is queued, its operation id is taken by another item, and no
  // request but the earlier ones was or can be accepted.
  ghost predicate Refuted(s: State, earlier: set<RequestId>, operation: OperationId, ws: Workspace, body: Body) {
    && Queued(s, operation, ws, body) && Taken(s.items, operation, ws, body)
    && forall id | id in s.requests && id !in earlier && Asks(s.requests[id], operation, ws) :: Doomed(s.requests[id], body)
  }

  lemma TakenStays(items: Items, after: Items, operation: OperationId, ws: Workspace, body: Body)
    requires Taken(items, operation, ws, body) && ItemsKept(items, after)
    ensures Taken(after, operation, ws, body)
  {
    var id :| id in items && items[id].workspace == ws && items[id].operation == Some(operation) && items[id].createdFrom != body;
    assert after[id].createdFrom != body;
  }

  // Every look-up of a taken operation id ends in a conflict.
  lemma TakenAnswersConflict(items: Items, request: Request, operation: OperationId, ws: Workspace, body: Body)
    requires UniqueKeys(items) && Taken(items, operation, ws, body) && Asks(request, operation, ws) && request.body == body
    ensures HoldsKey(items, request.workspace, request.operation) && AnswerExisting(items, request) == Conflict
  {
    var id :| id in items && items[id].workspace == ws && items[id].operation == Some(operation) && items[id].createdFrom != body;
    assert Holder(items, ws, operation) == id;
  }

  lemma ServerItemsKept(s: State, a: ServerAction)
    requires ServerEnabled(s, a)
    ensures ItemsKept(s.items, ApplyServer(s, a).items)
  {
  }

  lemma RefutedServer(s: State, a: ServerAction, earlier: set<RequestId>, operation: OperationId, ws: Workspace, body: Body)
    requires UniqueKeys(s.items) && ServerEnabled(s, a) && Refuted(s, earlier, operation, ws, body)
    ensures Taken(ApplyServer(s, a).items, operation, ws, body)
    ensures forall id | id in ApplyServer(s, a).requests && id !in earlier && Asks(ApplyServer(s, a).requests[id], operation, ws) ::
      Doomed(ApplyServer(s, a).requests[id], body)
  {
    ServerItemsKept(s, a);
    TakenStays(s.items, ApplyServer(s, a).items, operation, ws, body);
    if (a.LookUp? || a.Insert?) && a.request !in earlier && Asks(s.requests[a.request], operation, ws) {
      TakenAnswersConflict(s.items, s.requests[a.request], operation, ws, body);
    }
  }

  lemma RefutedStep(s: State, a: Action, t: State, earlier: set<RequestId>, operation: OperationId, ws: Workspace, body: Body)
    requires Inv(s) && Step(s, a, t) && Refuted(s, earlier, operation, ws, body) && operation in t.rows
    ensures Refuted(t, earlier, operation, ws, body)
  {
    StepRows(s, a, t, operation);
    match a
    case Process(p) => ProcessLeavesServer(s, p);
    case Loop(w, l) => SentForRow(s, w, l, operation, ws, body);
    case Server(x) =>
      ServerLeavesPhone(s, x);
      RefutedServer(s, x, earlier, operation, ws, body);
  }

  lemma RefutedAt(states: seq<State>, actions: seq<Action>, k: nat, earlier: set<RequestId>, operation: OperationId, ws: Workspace, body: Body)
    requires Run(states, actions) && k < |actions| && Refuted(states[k], earlier, operation, ws, body) && operation in states[k + 1].rows
    ensures Refuted(states[k + 1], earlier, operation, ws, body)
  {
    RunKeepsInv(states, actions, k);
    RefutedStep(states[k], actions[k], states[k + 1], earlier, operation, ws, body);
  }

  lemma StaysRefuted(states: seq<State>, actions: seq<Action>, born: nat, n: nat, earlier: set<RequestId>,
                     operation: OperationId, ws: Workspace, body: Body)
    requires Run(states, actions) && born <= n < |states| && Refuted(states[born], earlier, operation, ws, body)
    requires forall k | born <= k <= n :: operation in states[k].rows
    ensures Refuted(states[n], earlier, operation, ws, body)
  {
    var refuted := seq(|states|, k requires 0 <= k < |states| => Refuted(states[k], earlier, operation, ws, body));
    forall k | born <= k < n && refuted[k] ensures refuted[k + 1] {
      RefutedAt(states, actions, k, earlier, operation, ws, body);
    }
    Along(refuted, born, n);
  }

  // A row stored under an operation id that holds another item is never
  // accepted: whatever look-up answers one of its requests, it is a conflict.
  lemma TakenRowAlwaysConflicts(
      states: seq<State>, actions: seq<Action>, born: nat, n: nat, operation: OperationId, ws: Workspace, body: Body)
    requires StoredAt(states, actions, born, n, operation, ws, body)
    requires !CleanItems(states[born].items, operation, ws, body)
    ensures Refuted(states[n], states[born].requests.Keys, operation, ws, body)
    ensures forall id | id in states[n].requests && id !in states[born].requests && Asks(states[n].requests[id], operation, ws) ::
      AnswerExisting(states[n].items, states[n].requests[id]) == Conflict
  {
    RunKeepsInv(states, actions, born);
    StoredUnasked(states[born], actions[born], states[born + 1], operation, ws);
    StaysRefuted(states, actions, born + 1, n, states[born].requests.Keys, operation, ws, body);
    RunKeepsInv(states, actions, n);
    forall id | id in states[n].requests && id !in states[born].requests && Asks(states[n].requests[id], operation, ws)
      ensures AnswerExisting(states[n].items, states[n].requests[id]) == Conflict
    {
      TakenAnswersConflict(states[n].items, states[n].requests[id], operation, ws, body);
    }
  }

  // So a request of the row that is accepted or refuted is refuted exactly when,
  // as the row was stored, the operation id held an item made from something else.
  lemma ConflictExactlyWhenTaken(
      states: seq<State>, actions: seq<Action>, born: nat, n: nat, operation: OperationId, ws: Workspace, body: Body, id: RequestId)
    requires StoredAt(states, actions, born, n, operation, ws, body)
    requires forall k | born <= k < n :: !ForeignUse(actions[k], operation, ws, body)
    requires id in states[n].requests && id !in states[born].requests && Asks(states[n].requests[id], operation, ws)
    requires states[n].requests[id].phase.Done? && !states[n].requests[id].phase.reply.Refused?
    ensures states[n].requests[id].phase.reply == Conflict <==> !CleanItems(states[born].items, operation, ws, body)
  {
    if CleanItems(states[born].items, operation, ws, body) {
      UnchangedRowNeverConflicts(states, actions, born, n, operation, ws, body);
    } else {
      TakenRowAlwaysConflicts(states, actions, born, n, operation, ws, body);
    }
  }

  // --- credential removal -----------------------------------------------------------

  // Rows K are permanently failed and no sync of the current epoch, and no
  // failure waiting to be recorded, is about to touch them.
  ghost predicate HeldRows(rows: Rows, K: set<OperationId>) {
    forall operation | operation in K :: operation in rows && rows[operation].status == PermanentlyFailed
  }

  ghost predicate HeldSyncs(epoch: nat, syncs: Syncs, K: set<OperationId>) {
    forall ws, i | ws in syncs && syncs[ws].startEpoch == epoch && 0 <= i < |syncs[ws].todo| ::
      syncs[ws].todo[i].operation !in K
  }

  ghost predicate HeldRecords(cs: seq<Continuation>, K: set<OperationId>) {
    forall i | 0 <= i < |cs| && cs[i].Record? :: cs[i].operation !in K
  }

  ghost predicate Held(s: State, K: set<OperationId>) {
    HeldRows(s.rows, K) && HeldSyncs(s.epoch, s.syncs, K) && HeldRecords(s.continuations, K)
  }

  lemma HeldThrows(s: State, K: set<OperationId>)
    requires s.continuations != [] && Held(s, K)
    ensures Held(DoContinuationThrows(s), K)
  {
    if !s.continuations[0].Quarantine? && s.continuations[0].workspace in s.syncs {
      HeldReplace(s.epoch, s.syncs, s.continuations[0].workspace, Gone, K);
    }
  }

  lemma HeldRestart(s: State, K: set<OperationId>)
    requires HeldRows(s.rows, K)
    ensures Held(s.(boot := 0, epoch := 0, continuations := [], syncs := map[]), K)
  {
  }

  lemma HeldProcess(s: State, a: ProcessAction, K: set<OperationId>)
    requires Inv(s) && ProcessEnabled(s, a) && Held(s, K) && !a.RunContinuation?
    ensures Held(ApplyProcess(s, a), K)
  {
    match a
    case BootStep => assert HeldRows(DoBootStep(s).rows, K);
    case StartSync(ws) => assert HeldSyncs(s.epoch, DoStartSync(s, ws).syncs, K);
    case ContinuationThrows => HeldThrows(s, K);
    case Crash => HeldRestart(s, K);
    case _ =>
  }

  lemma HeldReplace(epoch: nat, syncs: Syncs, ws: Workspace, pc: Pc, K: set<OperationId>)
    requires HeldSyncs(epoch, syncs, K) && ws in syncs
    ensures HeldSyncs(epoch, syncs[ws := syncs[ws].(pc := pc)], K)
    ensures HeldSyncs(epoch, Without(syncs, ws), K)
    ensures syncs[ws].todo != [] ==> HeldSyncs(epoch, syncs[ws := NextEntry(syncs[ws])], K)
  {
  }

  lemma HeldSelect(s: State, ws: Workspace, now: Time, order: seq<OperationId>, K: set<OperationId>)
    requires ProcessEnabled(s, RunContinuation(now, order)) && s.continuations[0] == Select(ws) && Held(s, K)
    ensures Held(DoSelect(s, ws, order), K)
  {
    if ws in s.syncs && s.syncs[ws].startEpoch == s.epoch {
      var entries := Entries(order, s.rows);
      assert forall i | 0 <= i < |entries| :: entries[i].operation !in K;
    }
  }

  lemma HeldRecord(s: State, order: seq<OperationId>, K: set<OperationId>)
    requires s.continuations != [] && s.continuations[0].Record? && Held(s, K)
    ensures Held(DoContinuation(s, order), K)
  {
    var ws := s.continuations[0].workspace;
    if ws in s.syncs {
      HeldReplace(s.epoch, s.syncs, ws, Gone, K);
    }
  }

  lemma HeldContinuation(s: State, now: Time, order: seq<OperationId>, K: set<OperationId>)
    requires ProcessEnabled(s, RunContinuation(now, order)) && Held(s, K)
    ensures Held(DoContinuation(s, order), K)
  {
    match s.continuations[0]
    case Select(ws) => HeldSelect(s, ws, now, order, K);
    case Record(_, _, _, _) => HeldRecord(s, order, K);
    case Quarantine(_) =>
  }

  lemma HeldLoopHead(s: State, ws: Workspace, K: set<OperationId>)
    requires LoopEnabled(s, ws, LoopHead) && Held(s, K)
    ensures Held(DoLoopHead(s, ws), K)
  {
    HeldReplace(s.epoch, s.syncs, ws, Marked, K);
    HeldReplace(s.epoch, s.syncs, ws, Failing(false), K);
  }

  lemma HeldFail(s: State, ws: Workspace, failure: Option<nat>, now: Time, K: set<OperationId>)
    requires ws in s.syncs && s.syncs[ws].todo != [] && Held(s, K)
    ensures Held(DoFail(s, ws, failure, now), K)
  {
  }

  lemma HeldSend(s: State, ws: Workspace, id: RequestId, K: set<OperationId>)
    requires At(s, ws, Marked) && s.syncs[ws].todo != [] && Held(s, K)
    ensures Held(DoSendOrSkip(s, ws, id), K)
  {
    HeldReplace(s.epoch, s.syncs, ws, DoSendOrSkip(s, ws, id).syncs[ws].pc, K);
  }

  lemma HeldReply(s: State, ws: Workspace, K: set<OperationId>)
    requires ws in s.syncs && s.syncs[ws].todo != [] && Answered(s, s.syncs[ws]) && Held(s, K)
    ensures Held(DoTakeReply(s, ws), K)
  {
    HeldReplace(s.epoch, s.syncs, ws, DoTakeReply(s, ws).syncs[ws].pc, K);
  }

  lemma HeldLoop(s: State, ws: Workspace, a: LoopAction, K: set<OperationId>)
    requires Inv(s) && LoopEnabled(s, ws, a) && Held(s, K)
    requires K <= ApplyLoop(s, ws, a).rows.Keys
    ensures Held(ApplyLoop(s, ws, a), K)
  {
    match a
    case LoopHead => HeldLoopHead(s, ws, K);
    case Fail(failure, now) => HeldFail(s, ws, failure, now, K);
    case SendOrSkip(id) => HeldSend(s, ws, id, K);
    case TakeReply => HeldReply(s, ws, K);
    case DeleteRow => HeldReplace(s.epoch, s.syncs, ws, Gone, K);
    case _ => HeldReplace(s.epoch, s.syncs, ws, Gone, K);
  }

  // While its rows stay in the queue, nothing releases them from quarantine.
  lemma HeldStep(s: State, a: Action, t: State, K: set<OperationId>)
    requires Inv(s) && Step(s, a, t) && Held(s, K) && K <= t.rows.Keys
    ensures Held(t, K)
  {
    match a
    case Process(p) =>
      if p.RunContinuation? { HeldContinuation(s, p.now, p.order, K); } else { HeldProcess(s, p, K); }
    case Loop(ws, l) => HeldLoop(s, ws, l, K);
    case Server(x) => ServerLeavesPhone(s, x);
  }

  predicate LandsQuarantine(s: State, a: Action) {
    a.Process? && a.process.RunContinuation? && s.continuations != [] && s.continuations[0].Quarantine?
  }

  // The moment the quarantine statement takes effect.
  lemma QuarantineHolds(s: State, a: Action, t: State)
    requires Inv(s) && Step(s, a, t) && LandsQuarantine(s, a)
    ensures t.rows.Keys == s.rows.Keys && Held(t, t.rows.Keys)
  {
    assert InOrder(s.continuations, s.syncs, 0);
    forall ws | ws in s.syncs && s.syncs[ws].startEpoch == s.epoch ensures s.syncs[ws].todo == [] {
      assert ContinuationGood(s.epoch, s.syncs, s.continuations[0]);
    }
  }

  lemma HeldAt(states: seq<State>, actions: seq<Action>, k: nat, K: set<OperationId>)
    requires Run(states, actions) && k < |actions| && Held(states[k], K) && K <= states[k + 1].rows.Keys
    ensures Held(states[k + 1], K)
  {
    RunKeepsInv(states, actions, k);
    HeldStep(states[k], actions[k], states[k + 1], K);
  }

  lemma HeldFewer(s: State, K: set<OperationId>, L: set<OperationId>)
    requires Held(s, K) && L <= K
    ensures Held(s, L)
  {
  }

  lemma LandedAt(states: seq<State>, actions: seq<Action>, k: nat, K: set<OperationId>)
    requires Run(states, actions) && k < |actions| && LandsQuarantine(states[k], actions[k]) && K <= states[k].rows.Keys
    ensures Held(states[k + 1], K)
  {
    RunKeepsInv(states, actions, k);
    QuarantineHolds(states[k], actions[k], states[k + 1]);
    HeldFewer(states[k + 1], states[k].rows.Keys, K);
  }

  // After the quarantine statement took effect, every row then queued stays
  // permanently failed for as long as it is in the queue: through later syncs,
  // crashes and restarts.
  lemma QuarantineIsPermanent(states: seq<State>, actions: seq<Action>, landed: nat, n: nat, K: set<OperationId>)
    requires Run(states, actions) && landed < n < |states|
    requires LandsQuarantine(states[landed], actions[landed])
    requires K <= states[landed].rows.Keys
    requires forall k | landed < k <= n :: K <= states[k].rows.Keys
    ensures Held(states[n], K)
  {
    LandedAt(states, actions, landed, K);
    var held := seq(|states|, k requires 0 <= k < |states| => Held(states[k], K));
    forall k | landed < k < n && held[k] ensures held[k + 1] {
      HeldAt(states, actions, k, K);
    }
    Along(held, landed + 1, n);
  }

  // --- rows that no sync had started on ------------------------------------------------

  // What the running syncs are working on: one row each, past the revocation
  // check of the loop.
  ghost function InHand(syncs: Syncs): set<OperationId> {
    set ws | ws in syncs && Working(syncs[ws]) :: syncs[ws].todo[0].operation
  }

  lemma {:induction false} AtMostOneInHandPerSync(syncs: Syncs)
    ensures |InHand(syncs)| <= |syncs|
    decreases |syncs|
  {
    if syncs == map[] {
      assert InHand(syncs) == {};
    } else {
      var ws :| ws in syncs;
      var rest := Without(syncs, ws);
      assert rest.Keys == syncs.Keys - {ws};
      AtMostOneInHandPerSync(rest);
      InHandAfter(rest, ws, syncs[ws]);
      assert rest[ws := syncs[ws]] == syncs;
      var here := if Working(syncs[ws]) then {syncs[ws].todo[0].operation} else {};
      SubsetFits(InHand(syncs), InHand(rest) + here);
    }
  }

  // K was not in hand when it was quarantined, so no sync can take it up.
  ghost predicate Sealed(s: State, K: set<OperationId>) {
    Held(s, K) && InHand(s.syncs) !! K
  }

  lemma InHandAfter(syncs: Syncs, ws: Workspace, sync: Sync)
    ensures InHand(syncs[ws := sync]) <= InHand(syncs) + (if Working(sync) then {sync.todo[0].operation} else {})
    ensures InHand(Without(syncs, ws)) <= InHand(syncs)
  {
  }

  // How one loop step changes the set of running syncs.
  ghost predicate OneSyncChanges(syncs: Syncs, after: Syncs, ws: Workspace, K: set<OperationId>) {
    || after == Without(syncs, ws)
    || (ws in after && after == syncs[ws := after[ws]] && (Working(after[ws]) ==> after[ws].todo[0].operation !in K))
  }

  lemma LoopHeadSyncs(s: State, ws: Workspace, K: set<OperationId>)
    requires LoopEnabled(s, ws, LoopHead) && HeldSyncs(s.epoch, s.syncs, K)
    ensures OneSyncChanges(s.syncs, DoLoopHead(s, ws).syncs, ws, K)
  {
    var sync, after := s.syncs[ws], DoLoopHead(s, ws).syncs;
    if sync.todo == [] || sync.startEpoch != s.epoch {
      assert after == Without(s.syncs, ws);
    } else {
      assert sync.todo[0].operation !in K;
      assert after == s.syncs[ws := sync.(pc := after[ws].pc)];
    }
  }

  lemma LoopKeepsSyncs(s: State, ws: Workspace, a: LoopAction, K: set<OperationId>)
    requires LoopEnabled(s, ws, a) && HeldSyncs(s.epoch, s.syncs, K) && InHand(s.syncs) !! K
    ensures OneSyncChanges(s.syncs, ApplyLoop(s, ws, a).syncs, ws, K)
  {
    assert Working(s.syncs[ws]) ==> s.syncs[ws].todo[0].operation in InHand(s.syncs);
    match a
    case LoopHead => LoopHeadSyncs(s, ws, K);
    case Fail(failure, now) => assert OneSyncChanges(s.syncs, DoFail(s, ws, failure, now).syncs, ws, K);
    case SendOrSkip(id) => assert OneSyncChanges(s.syncs, DoSendOrSkip(s, ws, id).syncs, ws, K);
    case _ =>
  }

  lemma SealedLoop(s: State, ws: Workspace, a: LoopAction, K: set<OperationId>)
    requires Inv(s) && LoopEnabled(s, ws, a) && Sealed(s, K)
    ensures Sealed(ApplyLoop(s, ws, a), K)
    ensures forall id | id in ApplyLoop(s, ws, a).requests && id !in s.requests :: ApplyLoop(s, ws, a).requests[id].operation !in K
  {
    LoopKeepsSyncs(s, ws, a, K);
    LoopRequests(s, ws, a);
    var after := ApplyLoop(s, ws, a).syncs;
    InHandAfter(s.syncs, ws, if ws in after then after[ws] else s.syncs[ws]);
    assert Working(s.syncs[ws]) ==> s.syncs[ws].todo[0].operation in InHand(s.syncs);
    forall operation | operation in K ensures operation in ApplyLoop(s, ws, a).rows {
      LoopRows(s, ws, a, operation);
    }
    HeldLoop(s, ws, a, K);
  }

  lemma SealedProcess(s: State, a: ProcessAction, K: set<OperationId>)
    requires Inv(s) && ProcessEnabled(s, a) && Sealed(s, K)
    ensures Sealed(ApplyProcess(s, a), K) && ApplyProcess(s, a).requests == s.requests
  {
    ProcessInHand(s, a);
    ProcessLeavesServer(s, a);
    forall operation | operation in K ensures operation in ApplyProcess(s, a).rows {
      ProcessRows(s, a, operation);
    }
    if a.RunContinuation? { HeldContinuation(s, a.now, a.order, K); } else { HeldProcess(s, a, K); }
  }

  lemma ContinuationInHand(s: State, order: seq<OperationId>)
    requires s.continuations != []
    requires s.continuations[0].Select? ==> forall i | 0 <= i < |order| :: order[i] in s.rows
    ensures InHand(DoContinuation(s, order).syncs) <= InHand(s.syncs)
  {
    var after := DoContinuation(s, order).syncs;
    if !s.continuations[0].Quarantine? {
      var ws := s.continuations[0].workspace;
      assert after == s.syncs || after == Without(s.syncs, ws) || (ws in after && after == s.syncs[ws := after[ws]] && !Working(after[ws]));
      InHandAfter(s.syncs, ws, if ws in after then after[ws] else Sync(0, [], Opening));
    }
  }

  lemma ProcessInHand(s: State, a: ProcessAction)
    requires ProcessEnabled(s, a)
    ensures InHand(ApplyProcess(s, a).syncs) <= InHand(s.syncs)
  {
    if a.RunContinuation? {
      ContinuationInHand(s, a.order);
    }
  }

  lemma SealedServer(s: State, a: ServerAction, K: set<OperationId>)
    requires ServerEnabled(s, a) && Sealed(s, K)
    ensures Sealed(ApplyServer(s, a), K)
  {
  }

  lemma SealedStep(s: State, a: Action, t: State, K: set<OperationId>)
    requires Inv(s) && Step(s, a, t) && Sealed(s, K)
    ensures Sealed(t, K)
    ensures forall id | id in t.requests && id !in s.requests :: t.requests[id].operation !in K
  {
    match a
    case Process(p) => SealedProcess(s, p, K);
    case Loop(ws, l) => SealedLoop(s, ws, l, K);
    case Server(x) =>
      SealedServer(s, x, K);
      ServerRequests(s, x);
  }

  lemma ServerRequests(s: State, a: ServerAction)
    requires ServerEnabled(s, a)
    ensures ApplyServer(s, a).requests.Keys == s.requests.Keys
    ensures forall id | id in s.requests :: ApplyServer(s, a).requests[id].operation == s.requests[id].operation
  {
  }

  // K is still sealed, and nothing was sent for it since s.
  ghost predicate Silent(s: State, t: State, K: set<OperationId>) {
    Sealed(t, K) && forall id | id in t.requests && t.requests[id].operation in K :: id in s.requests
  }

  lemma SilentAt(states: seq<State>, actions: seq<Action>, k: nat, s: State, K: set<OperationId>)
    requires Run(states, actions) && k < |actions| && Silent(s, states[k], K)
    ensures Silent(s, states[k + 1], K)
  {
    RunKeepsInv(states, actions, k);
    SealedStep(states[k], actions[k], states[k + 1], K);
    RequestsKeepOperation(states[k], actions[k], states[k + 1]);
  }

  lemma SealedAtLanding(states: seq<State>, actions: seq<Action>, k: nat, K: set<OperationId>)
    requires Run(states, actions) && k < |actions| && LandsQuarantine(states[k], actions[k])
    requires K == states[k].rows.Keys - InHand(states[k].syncs)
    ensures Silent(states[k], states[k + 1], K)
  {
    LandedAt(states, actions, k, K);
    assert Step(states[k], actions[k], states[k + 1]);
  }

  // Rows that no running sync had in hand when the quarantine took effect are
  // never deleted, never leave quarantine and are never sent again.
  lemma QuarantinedRowsAreNeverSent(
      states: seq<State>, actions: seq<Action>, landed: nat, n: nat, K: set<OperationId>)
    requires Run(states, actions) && landed < n < |states|
    requires LandsQuarantine(states[landed], actions[landed])
    requires K == states[landed].rows.Keys - InHand(states[landed].syncs)
    ensures Silent(states[landed], states[n], K)
  {
    SealedAtLanding(states, actions, landed, K);
    var silent := seq(|states|, k requires 0 <= k < |states| => Silent(states[landed], states[k], K));
    forall k | landed < k < n && silent[k] ensures silent[k + 1] {
      SilentAt(states, actions, k, states[landed], K);
    }
    Along(silent, landed + 1, n);
  }

  lemma RequestsKeepOperation(s: State, a: Action, t: State)
    requires Step(s, a, t)
    ensures forall id | id in s.requests :: id in t.requests && t.requests[id].operation == s.requests[id].operation
  {
    match a
    case Process(p) => ProcessLeavesServer(s, p);
    case Loop(ws, l) => LoopRequests(s, ws, l);
    case Server(x) => ServerRequests(s, x);
  }

  // --- startup -------------------------------------------------------------------------

  // When startup finishes no row is in progress, and rows already permanently
  // failed still are.
  lemma StartupRecovers(s: State)
    requires s.boot == BOOTED - 1
    ensures
      var t := ApplyProcess(s, BootStep);
      && t.boot == BOOTED && t.rows.Keys == s.rows.Keys
      && forall operation | operation in t.rows ::
           && t.rows[operation].status != InProgress
           && (s.rows[operation].status == InProgress ==> t.rows[operation] == s.rows[operation].(status := RetryableFailed))
           && (s.rows[operation].status != InProgress ==> t.rows[operation] == s.rows[operation])
  {
  }

  // A draft that was synced and deleted comes back only if it is queued anew:
  // the migration of old queues never stores it again.
  lemma {:induction false} SyncedDraftStaysGone(states: seq<State>, actions: seq<Action>, synced: nat, n: nat, operation: OperationId)
    requires Run(states, actions) && synced < n < |states|
    requires Deletes(states[synced], actions[synced], operation)
    requires !IsLegacyUpdate(states[synced], operation)
    requires forall k | synced < k < n ::
               !(actions[k].Process? && actions[k].process.QueueItem? && actions[k].process.draft.localId == operation)
    ensures operation !in states[n].rows && operation !in states[n].legacyItems
    ensures states[n].legacyUpdates == states[synced].legacyUpdates
  {
    if synced < n - 1 {
      SyncedDraftStaysGone(states, actions, synced, n - 1, operation);
      StepRows(states[n - 1], actions[n - 1], states[n], operation);
      LegacyShrinks(states[n - 1], actions[n - 1], states[n]);
    }
  }

  lemma LegacyShrinks(s: State, a: Action, t: State)
    requires Step(s, a, t)
    ensures t.legacyItems.Keys <= s.legacyItems.Keys && t.legacyUpdates == s.legacyUpdates
  {
    match a
    case Process(p) => ProcessLegacy(s, p);
    case Loop(ws, l) => LoopLegacy(s, ws, l);
    case Server(x) => ServerLeavesPhone(s, x);
  }

  lemma ProcessLegacy(s: State, a: ProcessAction)
    requires ProcessEnabled(s, a)
    ensures ApplyProcess(s, a).legacyItems == s.legacyItems && ApplyProcess(s, a).legacyUpdates == s.legacyUpdates
  {
    if a.RunContinuation? {
      ContinuationMoves(s, a.order);
    }
  }

  lemma LoopLegacy(s: State, ws: Workspace, a: LoopAction)
    requires LoopEnabled(s, ws, a)
    ensures ApplyLoop(s, ws, a).legacyItems.Keys <= s.legacyItems.Keys && ApplyLoop(s, ws, a).legacyUpdates == s.legacyUpdates
  {
    match a
    case LoopHead => assert DoLoopHead(s, ws).legacyItems == s.legacyItems;
    case Fail(failure, now) => assert DoFail(s, ws, failure, now).legacyItems == s.legacyItems;
    case _ =>
  }

  // --- backoff --------------------------------------------------------------------------

  // A row is given up only for an answer that a further attempt would get again,
  // and only a refused credential pauses the whole sync.
  lemma GivenUpMeansRefused(status: Option<nat>)
    ensures !ClassifyQueueFailure(status).retry <==> status.Some? && status.value < 500 && status.value !in {401, 403, 408, 425, 429}
    ensures ClassifyQueueFailure(status).pause <==> status == Some(401) || status == Some(403)
    ensures !ClassifyQueueFailure(StatusOf(Conflict)).retry && !ClassifyQueueFailure(StatusOf(Conflict)).pause
  {
  }

  lemma {:induction false} PowerGrows(n: nat, m: nat)
    requires n <= m
    ensures PowerOfTwo(n) <= PowerOfTwo(m)
    decreases m - n
  {
    if n < m {
      PowerGrows(n + 1, m);
    }
  }

  // The delay doubles from attempt to attempt up to five minutes; capping the
  // exponent never shows.
  lemma RetryDelay(attempt: nat, now: Time)
    ensures NextRetryAt(attempt, now) == now + 1000 * (if PowerOfTwo(attempt) < 300 then PowerOfTwo(attempt) else 300)
    ensures now + 1000 <= NextRetryAt(attempt, now) <= NextRetryAt(attempt + 1, now) <= now + 300000
  {
    assert PowerOfTwo(10) == 1024;
    PowerGrows(0, attempt);
    PowerGrows(attempt, attempt + 1);
    if attempt >= 10 {
      PowerGrows(10, attempt);
      PowerGrows(10, attempt + 1);
    }
  }
}

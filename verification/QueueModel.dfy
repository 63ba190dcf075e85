/** The offline create queue of the mobile app together with the server's
    idempotent item creation, as one state machine.

    A step is the code between two awaits, or one SQL statement or transaction,
    or one move of the network, of the server or of the operating system.  An
    SQL statement takes effect when it is issued.  Everything that first does
    `await database()` continues through `continuations`: the callbacks of one
    promise run in the order in which they were registered. */
module QueueModel {
  import opened Common

  type Workspace = string
  type OperationId = string
  type ItemId = nat
  type RequestId = nat
  type Time = nat
  type Body = string // every field of the create request that comes from the draft

  datatype Draft = Draft(localId: OperationId, schemaVersion: int, body: Body, hasPhoto: bool, createdAt: Time)

  datatype Status = Pending | InProgress | RetryableFailed | PermanentlyFailed

  // A row of pending_operations.
  datatype Row = Row(
    operationType: string,
    operationVersion: int,
    workspace: Workspace,
    draft: Draft,
    remote: Option<ItemId>,
    status: Status,
    attempts: nat,
    nextAttemptAt: Option<Time>)

  // A row of pending_items, the queue of an older app version.
  datatype LegacyItem = LegacyItem(workspace: Workspace, draft: Draft, remote: Option<ItemId>)

  datatype Entry = Entry(operation: OperationId, row: Row)

  datatype Pc =
    | Opening                     // waiting for the database, then for the row list
    | Head                        // at the top of the loop
    | Marked                      // todo[0] was marked in progress
    | Waiting(request: RequestId) // the create request is out
    | Have(item: ItemId)          // the remote item id is known and stored
    | Gone                        // the row was deleted, the photo file remains
    | Failing(pause: bool)        // waiting for the failure to be recorded

  // One running syncPendingItemsOnce; todo[0] is the row being worked on.
  datatype Sync = Sync(startEpoch: nat, todo: seq<Entry>, pc: Pc)

  datatype Continuation =
    | Select(workspace: Workspace)
    | Record(workspace: Workspace, operation: OperationId, retry: bool, nextAttemptAt: Option<Time>)
    | Quarantine(epoch: nat)

  datatype Reply = Accepted(item: ItemId) | Conflict | Refused(status: nat)

  datatype Phase = Arrived | NotFoundYet | Done(reply: Reply)

  datatype Request = Request(workspace: Workspace, operation: OperationId, body: Body, phase: Phase)

  // createdFrom is what the stored payload hash identifies.
  datatype Item = Item(workspace: Workspace, operation: Option<OperationId>, createdFrom: Body, archived: bool)

  datatype State = State(
    // phone, on disk
    rows: map<OperationId, Row>,
    legacyItems: map<OperationId, LegacyItem>,
    legacyUpdates: map<string, LegacyItem>,
    // phone, in memory
    boot: nat,
    epoch: nat,
    continuations: seq<Continuation>,
    syncs: map<Workspace, Sync>,
    // network and server
    requests: map<RequestId, Request>,
    items: map<ItemId, Item>)

  const BOOTED: nat := 3

  // The app process: calls into the queue, callbacks, and the process itself.
  datatype ProcessAction =
    | QueueItem(workspace: Workspace, draft: Draft)
    | StartSync(workspace: Workspace)
    | CallQuarantine
    | RunContinuation(now: Time, order: seq<OperationId>)
    | ContinuationThrows
    | Crash
    | BootStep

  // One running sync between two of its awaits.
  datatype LoopAction =
    | LoopHead
    | SendOrSkip(request: RequestId)
    | TakeReply
    | Fail(failure: Option<nat>, now: Time)
    | DeleteRow
    | NextRow
    | SyncThrows

  datatype ServerAction =
    | Refuse(request: RequestId, status: nat)
    | LookUp(request: RequestId)
    | Insert(request: RequestId, item: ItemId, publishFails: bool)
    | OtherClientCreates(item: ItemId, workspace: Workspace, operation: Option<OperationId>, body: Body)
    | Archive(item: ItemId)

  datatype Action =
    | Process(process: ProcessAction)
    | Loop(workspace: Workspace, loop: LoopAction)
    | Server(server: ServerAction)

  // --- queuePolicy.ts -------------------------------------------------------

  datatype Policy = Policy(pause: bool, retry: bool)

  function ClassifyQueueFailure(status: Option<nat>): Policy {
    match status
    case None => Policy(false, true)
    case Some(code) =>
      if code == 401 || code == 403 then Policy(true, true)
      else if code in {408, 425, 429} || code >= 500 then Policy(false, true)
      else Policy(false, false)
  }

  function PowerOfTwo(n: nat): nat {
    if n == 0 then 1 else 2 * PowerOfTwo(n - 1)
  }

  function NextRetryAt(attempt: nat, now: Time): Time {
    var exponent := if attempt < 10 then attempt else 10;
    var seconds := if PowerOfTwo(exponent) < 300 then PowerOfTwo(exponent) else 300;
    now + seconds * 1000
  }

  predicate SupportedItemCreate(operationType: string, version: int, draftVersion: int) {
    operationType == "item.create" && version == 1 && draftVersion == 1
  }

  // --- queue operations on the phone ---------------------------------------

  function NewRow(workspace: Workspace, draft: Draft, remote: Option<ItemId>): Row {
    Row("item.create", 1, workspace, draft, remote, Pending, 0, None)
  }

  function InsertOrIgnore(rows: map<OperationId, Row>, operation: OperationId, row: Row): map<OperationId, Row> {
    if operation in rows then rows else rows[operation := row]
  }

  predicate Eligible(row: Row, workspace: Workspace, now: Time) {
    && row.workspace == workspace
    && row.status in {Pending, RetryableFailed}
    && (row.nextAttemptAt == None || row.nextAttemptAt.value <= now)
  }

  // order lists exactly the eligible rows; the source sorts them by age.
  ghost predicate Lists(order: seq<OperationId>, rows: map<OperationId, Row>, workspace: Workspace, now: Time) {
    && Distinct(order)
    && (forall i | 0 <= i < |order| :: order[i] in rows && Eligible(rows[order[i]], workspace, now))
    && (forall operation | operation in rows && Eligible(rows[operation], workspace, now) :: operation in order)
  }

  function Entries(order: seq<OperationId>, rows: map<OperationId, Row>): (entries: seq<Entry>)
    requires forall i | 0 <= i < |order| :: order[i] in rows
    ensures |entries| == |order|
    ensures forall i | 0 <= i < |order| :: entries[i] == Entry(order[i], rows[order[i]])
  {
    seq(|order|, i requires 0 <= i < |order| => Entry(order[i], rows[order[i]]))
  }

  function SetStatus(rows: map<OperationId, Row>, operation: OperationId, status: Status, nextAttemptAt: Option<Time>): map<OperationId, Row> {
    if operation in rows then rows[operation := rows[operation].(status := status, nextAttemptAt := nextAttemptAt)] else rows
  }

  function MarkInProgress(rows: map<OperationId, Row>, operation: OperationId): map<OperationId, Row> {
    if operation in rows
    then rows[operation := rows[operation].(status := InProgress, attempts := rows[operation].attempts + 1)]
    else rows
  }

  function Remember(rows: map<OperationId, Row>, operation: OperationId, item: ItemId): map<OperationId, Row> {
    if operation in rows then rows[operation := rows[operation].(remote := Some(item))] else rows
  }

  function QuarantineRows(rows: map<OperationId, Row>): map<OperationId, Row> {
    map operation | operation in rows ::
      if rows[operation].status in {Pending, InProgress, RetryableFailed}
      then rows[operation].(status := PermanentlyFailed, nextAttemptAt := None)
      else rows[operation]
  }

  function RecoverInProgress(rows: map<OperationId, Row>): map<OperationId, Row> {
    map operation | operation in rows ::
      if rows[operation].status == InProgress then rows[operation].(status := RetryableFailed) else rows[operation]
  }

  function LegacyUpdateRow(update: LegacyItem): Row {
    Row("item.update", 0, update.workspace, update.draft, None, PermanentlyFailed, 0, None)
  }

  function UpdatePrefix(): string { "legacy-item-update:" }

  // The id under which the startup migration stores a legacy update.
  ghost predicate IsLegacyUpdate(s: State, operation: OperationId) {
    |UpdatePrefix()| <= |operation| && operation[..|UpdatePrefix()|] == UpdatePrefix()
      && operation[|UpdatePrefix()|..] in s.legacyUpdates
  }

  function CopyLegacyItems(rows: map<OperationId, Row>, legacy: map<OperationId, LegacyItem>): map<OperationId, Row> {
    map operation | operation in rows.Keys + legacy.Keys ::
      if operation in rows then rows[operation]
      else NewRow(legacy[operation].workspace, legacy[operation].draft, legacy[operation].remote)
  }

  function UpdateKeys(updates: map<string, LegacyItem>): (keys: map<OperationId, string>)
    ensures forall operation | operation in keys :: keys[operation] in updates && operation == UpdatePrefix() + keys[operation]
    ensures forall item | item in updates :: UpdatePrefix() + item in keys
  {
    var names := set item | item in updates :: UpdatePrefix() + item;
    map operation | operation in names :: operation[|UpdatePrefix()|..]
  }

  function CopyLegacyUpdates(rows: map<OperationId, Row>, updates: map<string, LegacyItem>): map<OperationId, Row> {
    var keys := UpdateKeys(updates);
    map operation | operation in rows.Keys + keys.Keys ::
      if operation in rows then rows[operation] else LegacyUpdateRow(updates[keys[operation]])
  }

  function Without<K, V>(m: map<K, V>, k: K): map<K, V> {
    map x | x in m && x != k :: m[x]
  }

  // --- server lookups -------------------------------------------------------

  ghost predicate HoldsKey(items: map<ItemId, Item>, workspace: Workspace, operation: OperationId) {
    exists id :: id in items && items[id].workspace == workspace && items[id].operation == Some(operation)
  }

  ghost function Holder(items: map<ItemId, Item>, workspace: Workspace, operation: OperationId): (id: ItemId)
    requires HoldsKey(items, workspace, operation)
    ensures id in items && items[id].workspace == workspace && items[id].operation == Some(operation)
  {
    var id :| id in items && items[id].workspace == workspace && items[id].operation == Some(operation);
    id
  }

  // The answer for an operation id that already has an item.
  ghost function AnswerExisting(items: map<ItemId, Item>, request: Request): Reply
    requires HoldsKey(items, request.workspace, request.operation)
  {
    var id := Holder(items, request.workspace, request.operation);
    if items[id].createdFrom != request.body then Conflict else Accepted(id)
  }

  // --- the machine ----------------------------------------------------------

  predicate At(s: State, workspace: Workspace, pc: Pc) {
    workspace in s.syncs && s.syncs[workspace].pc == pc
  }

  // Some sync works on todo[0].
  predicate Working(sync: Sync) {
    !sync.pc.Opening? && !sync.pc.Head? && sync.todo != []
  }

  function StatusOf(reply: Reply): Option<nat> {
    match reply
    case Accepted(_) => None
    case Conflict => Some(409)
    case Refused(status) => Some(status)
  }

  // The server accepted the request this sync waits for, and the reply came.
  predicate Answered(s: State, sync: Sync) {
    && sync.pc.Waiting?
    && sync.pc.request in s.requests
    && s.requests[sync.pc.request].phase.Done?
    && s.requests[sync.pc.request].phase.reply.Accepted?
  }

  ghost predicate MayFail(s: State, sync: Sync, failure: Option<nat>) {
    match sync.pc
    case Waiting(id) =>
      || failure == None // the connection broke, or the reply was lost
      || (id in s.requests && s.requests[id].phase.Done? && !s.requests[id].phase.reply.Accepted?
          && failure == StatusOf(s.requests[id].phase.reply))
    case Have(_) => true // uploading the photo, or a local statement, failed
    case Gone => failure == None
    case _ => false
  }

  ghost predicate ProcessEnabled(s: State, a: ProcessAction) {
    match a
    case QueueItem(_, draft) => s.boot == BOOTED && draft.schemaVersion == 1
    case StartSync(_) => true
    case CallQuarantine => true
    case RunContinuation(now, order) =>
      && s.boot == BOOTED && s.continuations != []
      && (s.continuations[0].Select? ==> Lists(order, s.rows, s.continuations[0].workspace, now))
    case ContinuationThrows => s.boot == BOOTED && s.continuations != []
    case Crash => true
    case BootStep => s.boot < BOOTED
  }

  ghost function ApplyProcess(s: State, a: ProcessAction): State
    requires ProcessEnabled(s, a)
  {
    match a
    case QueueItem(ws, draft) => s.(rows := InsertOrIgnore(s.rows, draft.localId, NewRow(ws, draft, None)))
    case StartSync(ws) => DoStartSync(s, ws)
    case CallQuarantine => s.(epoch := s.epoch + 1, continuations := s.continuations + [Quarantine(s.epoch + 1)])
    case RunContinuation(_, order) => DoContinuation(s, order)
    case ContinuationThrows => DoContinuationThrows(s)
    case Crash => s.(boot := 0, epoch := 0, continuations := [], syncs := map[])
    case BootStep => DoBootStep(s)
  }

  ghost predicate LoopEnabled(s: State, ws: Workspace, a: LoopAction) {
    && ws in s.syncs
    && var sync := s.syncs[ws];
       match a
       case LoopHead => sync.pc == Head
       case SendOrSkip(request) => sync.pc == Marked && sync.todo != [] && request !in s.requests
       case TakeReply => Working(sync) && Answered(s, sync)
       case Fail(failure, _) => Working(sync) && MayFail(s, sync, failure)
       case DeleteRow => Working(sync) && sync.pc.Have?
       case NextRow => Working(sync) && sync.pc == Gone
       case SyncThrows => !sync.pc.Opening? && !sync.pc.Failing?
  }

  ghost function ApplyLoop(s: State, ws: Workspace, a: LoopAction): State
    requires LoopEnabled(s, ws, a)
  {
    match a
    case LoopHead => DoLoopHead(s, ws)
    case SendOrSkip(request) => DoSendOrSkip(s, ws, request)
    case TakeReply => DoTakeReply(s, ws)
    case Fail(failure, now) => DoFail(s, ws, failure, now)
    case DeleteRow => DoDelete(s, ws)
    case NextRow => s.(syncs := s.syncs[ws := NextEntry(s.syncs[ws])])
    case SyncThrows => s.(syncs := Without(s.syncs, ws))
  }

  ghost predicate ServerEnabled(s: State, a: ServerAction) {
    match a
    case Refuse(id, status) => id in s.requests && !s.requests[id].phase.Done? && status != 409
    case LookUp(id) => id in s.requests && s.requests[id].phase.Arrived?
    case Insert(id, item, _) =>
      && id in s.requests && s.requests[id].phase.NotFoundYet?
      && (HoldsKey(s.items, s.requests[id].workspace, s.requests[id].operation) || item !in s.items)
    case OtherClientCreates(item, ws, operation, _) =>
      item !in s.items && (operation.Some? ==> !HoldsKey(s.items, ws, operation.value))
    case Archive(item) => item in s.items
  }

  ghost function ApplyServer(s: State, a: ServerAction): State
    requires ServerEnabled(s, a)
  {
    match a
    case Refuse(id, status) => Answer(s, id, Refused(status))
    case LookUp(id) => DoLookUp(s, id)
    case Insert(id, item, publishFails) => DoInsert(s, id, item, publishFails)
    case OtherClientCreates(item, ws, operation, body) => s.(items := s.items[item := Item(ws, operation, body, false)])
    case Archive(item) => s.(items := s.items[item := s.items[item].(archived := true)])
  }

  ghost predicate Enabled(s: State, a: Action) {
    match a
    case Process(p) => ProcessEnabled(s, p)
    case Loop(ws, l) => LoopEnabled(s, ws, l)
    case Server(x) => ServerEnabled(s, x)
  }

  ghost function Apply(s: State, a: Action): State
    requires Enabled(s, a)
  {
    match a
    case Process(p) => ApplyProcess(s, p)
    case Loop(ws, l) => ApplyLoop(s, ws, l)
    case Server(x) => ApplyServer(s, x)
  }

  function NextEntry(sync: Sync): Sync
    requires sync.todo != []
  {
    sync.(todo := sync.todo[1..], pc := Head)
  }

  ghost function DoContinuation(s: State, order: seq<OperationId>): State
    requires s.continuations != []
    requires s.continuations[0].Select? ==> forall i | 0 <= i < |order| :: order[i] in s.rows
  {
    match s.continuations[0]
    case Select(ws) => DoSelect(s, ws, order)
    case Record(ws, operation, retry, at) => DoRecord(s, ws, operation, retry, at)
    case Quarantine(_) => s.(rows := QuarantineRows(s.rows), continuations := s.continuations[1..])
  }

  ghost function DoStartSync(s: State, ws: Workspace): State {
    if ws in s.syncs then s
    else s.(syncs := s.syncs[ws := Sync(s.epoch, [], Opening)], continuations := s.continuations + [Select(ws)])
  }

  ghost function DoSelect(s: State, ws: Workspace, order: seq<OperationId>): State
    requires s.continuations != []
    requires forall i | 0 <= i < |order| :: order[i] in s.rows
  {
    s.(continuations := s.continuations[1..],
       syncs := if ws in s.syncs then s.syncs[ws := s.syncs[ws].(todo := Entries(order, s.rows), pc := Head)] else s.syncs)
  }

  // The sync that waits for its failure to be recorded pauses or goes on.
  function AfterRecord(syncs: map<Workspace, Sync>, ws: Workspace): map<Workspace, Sync> {
    if ws !in syncs || !syncs[ws].pc.Failing? || syncs[ws].todo == [] then syncs
    else if syncs[ws].pc.pause then Without(syncs, ws)
    else syncs[ws := NextEntry(syncs[ws])]
  }

  ghost function DoRecord(s: State, ws: Workspace, operation: OperationId, retry: bool, at: Option<Time>): State
    requires s.continuations != []
  {
    s.(rows := SetStatus(s.rows, operation, if retry then RetryableFailed else PermanentlyFailed, at),
       continuations := s.continuations[1..],
       syncs := AfterRecord(s.syncs, ws))
  }

  // The statement itself failed: the function that issued it throws.
  ghost function DoContinuationThrows(s: State): State
    requires s.continuations != []
  {
    s.(continuations := s.continuations[1..],
       syncs := if s.continuations[0].Quarantine? then s.syncs else Without(s.syncs, s.continuations[0].workspace))
  }

  predicate Supported(row: Row) {
    SupportedItemCreate(row.operationType, row.operationVersion, row.draft.schemaVersion)
  }

  // No row is left, or the credential was removed since the sync began.
  predicate Over(sync: Sync, epoch: nat) {
    sync.todo == [] || sync.startEpoch != epoch
  }

  ghost function DoLoopHead(s: State, ws: Workspace): State
    requires At(s, ws, Head)
  {
    var sync := s.syncs[ws];
    if Over(sync, s.epoch) then s.(syncs := Without(s.syncs, ws))
    else
      var entry := sync.todo[0];
      s.(rows := if Supported(entry.row) then MarkInProgress(s.rows, entry.operation) else s.rows,
         syncs := s.syncs[ws := sync.(pc := if Supported(entry.row) then Marked else Failing(false))],
         continuations :=
           if Supported(entry.row) then s.continuations else s.continuations + [Record(ws, entry.operation, false, None)])
  }

  function RequestFor(ws: Workspace, entry: Entry): Request {
    Request(ws, entry.operation, entry.row.draft.body, Arrived)
  }

  ghost function DoSendOrSkip(s: State, ws: Workspace, request: RequestId): State
    requires At(s, ws, Marked) && s.syncs[ws].todo != []
  {
    var sync := s.syncs[ws];
    var entry := sync.todo[0];
    s.(syncs := s.syncs[ws := sync.(pc := if entry.row.remote.Some? then Have(entry.row.remote.value) else Waiting(request))],
       requests := if entry.row.remote.Some? then s.requests else s.requests[request := RequestFor(ws, entry)])
  }

  ghost function DoTakeReply(s: State, ws: Workspace): State
    requires ws in s.syncs && s.syncs[ws].todo != [] && Answered(s, s.syncs[ws])
  {
    var sync := s.syncs[ws];
    var item := s.requests[sync.pc.request].phase.reply.item;
    s.(rows := Remember(s.rows, sync.todo[0].operation, item), syncs := s.syncs[ws := sync.(pc := Have(item))])
  }

  function FailureRecord(ws: Workspace, entry: Entry, failure: Option<nat>, now: Time): Continuation {
    var retry := ClassifyQueueFailure(failure).retry;
    Record(ws, entry.operation, retry, if retry then Some(NextRetryAt(entry.row.attempts + 1, now)) else None)
  }

  // The catch block.
  ghost function DoFail(s: State, ws: Workspace, failure: Option<nat>, now: Time): State
    requires ws in s.syncs && s.syncs[ws].todo != []
  {
    var sync := s.syncs[ws];
    var stale := sync.startEpoch != s.epoch;
    s.(syncs := if stale then Without(s.syncs, ws) else s.syncs[ws := sync.(pc := Failing(ClassifyQueueFailure(failure).pause))],
       continuations := if stale then s.continuations else s.continuations + [FailureRecord(ws, sync.todo[0], failure, now)])
  }

  ghost function DoDelete(s: State, ws: Workspace): State
    requires ws in s.syncs && s.syncs[ws].todo != []
  {
    var operation := s.syncs[ws].todo[0].operation;
    s.(rows := Without(s.rows, operation), legacyItems := Without(s.legacyItems, operation),
       syncs := s.syncs[ws := s.syncs[ws].(pc := Gone)])
  }

  ghost function DoBootStep(s: State): State {
    var rows :=
      if s.boot == 0 then CopyLegacyItems(s.rows, s.legacyItems)
      else if s.boot == 1 then CopyLegacyUpdates(s.rows, s.legacyUpdates)
      else RecoverInProgress(s.rows);
    s.(rows := rows, boot := s.boot + 1)
  }

  function Answer(s: State, id: RequestId, reply: Reply): State
    requires id in s.requests
  {
    s.(requests := s.requests[id := s.requests[id].(phase := Done(reply))])
  }

  // What the request's phase is after the look-up.
  ghost function Found(items: map<ItemId, Item>, request: Request): Phase {
    if HoldsKey(items, request.workspace, request.operation) then Done(AnswerExisting(items, request)) else NotFoundYet
  }

  ghost function DoLookUp(s: State, id: RequestId): State
    requires id in s.requests
  {
    s.(requests := s.requests[id := s.requests[id].(phase := Found(s.items, s.requests[id]))])
  }

  // Flush and commit; the unique key turns a lost race into a second lookup.
  ghost function DoInsert(s: State, id: RequestId, item: ItemId, publishFails: bool): State
    requires id in s.requests
  {
    var request := s.requests[id];
    var taken := HoldsKey(s.items, request.workspace, request.operation);
    var reply := if taken then AnswerExisting(s.items, request) else if publishFails then Refused(500) else Accepted(item);
    s.(items := if taken then s.items else s.items[item := Item(request.workspace, Some(request.operation), request.body, false)],
       requests := s.requests[id := request.(phase := Done(reply))])
  }

  // --- runs -----------------------------------------------------------------

  // A remote id kept by the older app names the item made from that draft.
  ghost predicate Init(s: State) {
    && s.boot == 0 && s.epoch == 0 && s.continuations == [] && s.syncs == map[]
    && s.rows == map[] && s.requests == map[]
    && (forall op | op in s.legacyItems :: s.legacyItems[op].remote.Some? ==>
          MadeFrom(s.items, s.legacyItems[op].remote.value, s.legacyItems[op].workspace, s.legacyItems[op].draft.body))
    && UniqueKeys(s.items)
  }

  ghost predicate MadeFrom(items: map<ItemId, Item>, id: ItemId, workspace: Workspace, body: Body) {
    id in items && items[id].workspace == workspace && items[id].createdFrom == body
  }

  ghost predicate UniqueKeys(items: map<ItemId, Item>) {
    forall i, j | i in items && j in items && i != j && items[i].workspace == items[j].workspace && items[i].operation.Some? ::
      items[i].operation != items[j].operation
  }

  ghost predicate Step(s: State, a: Action, t: State) {
    Enabled(s, a) && t == Apply(s, a)
  }

  ghost predicate Run(states: seq<State>, actions: seq<Action>) {
    && |states| == |actions| + 1
    && Init(states[0])
    && forall i | 0 <= i < |actions| :: Step(states[i], actions[i], states[i + 1])
  }
}

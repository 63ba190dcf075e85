/** Checkout sessions and checkouts as concurrent transactions over committed
    rows.  A request locks its session row, may then lock item rows one by one in
    ascending id order, and commits or aborts; between any two of its steps other
    requests run.  Partial unique indexes are enforced when a commit happens. */
module CheckoutModel {
  import opened Common

  type SessionId = nat
  type ItemId = nat
  type BorrowerId = nat
  type CheckoutId = nat
  type UserId = nat
  type Workspace = nat
  type TxId = nat

  datatype Role = Owner | Borrower

  datatype Status = Active | Completed | Abandoned

  // A row of checkout_sessions with its checkout_session_items.
  datatype Session = Session(
    workspace: Workspace,
    actor: UserId,
    borrower: Option<BorrowerId>,
    dueAt: Option<nat>,
    note: Option<string>,
    items: set<ItemId>,
    status: Status,
    revision: nat)

  datatype Item = Item(workspace: Workspace, archived: bool)

  datatype Profile = Profile(workspace: Workspace, linkedUser: Option<UserId>)

  datatype Checkout = Checkout(
    workspace: Workspace,
    item: ItemId,
    borrower: BorrowerId,
    dueAt: Option<nat>,
    note: Option<string>,
    checkedOutBy: UserId,
    returned: bool)

  datatype Request =
    | Update(actor: UserId, session: SessionId, borrower: Option<BorrowerId>, dueAt: Option<nat>, note: Option<string>, expected: int)
    | Add(actor: UserId, session: SessionId, item: ItemId)
    | Remove(actor: UserId, session: SessionId, item: ItemId)
    | Abandon(actor: UserId, session: SessionId)
    | Finalize(actor: UserId, session: SessionId, expected: int)

  // seen is the session row as read when its lock was granted.
  datatype Phase =
    | WantSession
    | HasSession(seen: Session)
    | Locking(seen: Session, rest: seq<ItemId>)
    | Ready(seen: Session, borrower: Option<BorrowerId>)

  datatype Tx = Tx(request: Request, phase: Phase)

  datatype Lock = OfSession(session: SessionId) | OfItem(item: ItemId)

  datatype State = State(
    sessions: map<SessionId, Session>,
    items: map<ItemId, Item>,
    profiles: map<BorrowerId, Profile>,
    checkouts: map<CheckoutId, Checkout>,
    locks: map<Lock, TxId>,
    txs: map<TxId, Tx>)

  datatype Action =
    | Begin(tx: TxId, request: Request)
    | TakeSession(tx: TxId)
    | Accept(tx: TxId, role: Role, order: seq<ItemId>)
    | TakeItem(tx: TxId)
    | CheckItems(tx: TxId)
    | Commit(tx: TxId, ids: map<ItemId, CheckoutId>)
    | Abort(tx: TxId)
    | OpenSession(session: SessionId, workspace: Workspace, actor: UserId, borrower: Option<BorrowerId>)
    | DirectCheckout(id: CheckoutId, checkout: Checkout)
    | ReturnCheckout(id: CheckoutId)
    | PutItem(item: ItemId, row: Item)
    | PutProfile(profile: BorrowerId, person: Profile)

  // --- rules of the requests ------------------------------------------------------

  // require_editable_session; the caller is a member of the workspace.
  predicate Editable(seen: Session, actor: UserId) {
    seen.status == Active && seen.actor == actor
  }

  // The borrower that update_active_session stores, if it accepts.
  function UpdatedBorrower(seen: Session, r: Request, role: Role, profiles: map<BorrowerId, Profile>): Option<Option<BorrowerId>>
    requires r.Update?
  {
    if role == Borrower then
      if && seen.borrower.Some? && seen.borrower.value in profiles
         && profiles[seen.borrower.value].linkedUser == Some(r.actor)
         && (r.borrower == None || r.borrower == seen.borrower)
      then Some(seen.borrower) else None
    else if r.borrower.Some? then
      if r.borrower.value in profiles && profiles[r.borrower.value].workspace == seen.workspace then Some(r.borrower) else None
    else Some(None)
  }

  predicate MayFinalize(seen: Session, r: Request, role: Role, profiles: map<BorrowerId, Profile>)
    requires r.Finalize?
  {
    && seen.revision == r.expected
    && seen.borrower.Some? && seen.borrower.value in profiles
    && profiles[seen.borrower.value].workspace == seen.workspace
    && (role == Borrower ==> profiles[seen.borrower.value].linkedUser == Some(r.actor))
    && seen.items != {}
  }

  predicate Available(items: map<ItemId, Item>, workspace: Workspace, item: ItemId) {
    item in items && items[item].workspace == workspace && !items[item].archived
  }

  predicate OpenFor(checkouts: map<CheckoutId, Checkout>, item: ItemId) {
    exists id :: id in checkouts && checkouts[id].item == item && !checkouts[id].returned
  }

  ghost predicate Ascending(order: seq<ItemId>) {
    forall i, j | 0 <= i < j < |order| :: order[i] < order[j]
  }

  // Validation after the session lock was granted.
  ghost predicate Accepts(s: State, tx: Tx, role: Role, order: seq<ItemId>)
    requires tx.phase.HasSession?
  {
    var seen, r := tx.phase.seen, tx.request;
    && Editable(seen, r.actor)
    && match r
       case Update(_, _, _, _, _, expected) => seen.revision == expected && UpdatedBorrower(seen, r, role, s.profiles).Some?
       case Add(_, _, item) => Available(s.items, seen.workspace, item) && !OpenFor(s.checkouts, item) && item !in seen.items
       case Remove(_, _, item) => item in seen.items
       case Abandon(_, _) => true
       case Finalize(_, _, _) =>
         MayFinalize(seen, r, role, s.profiles) && Ascending(order) && (forall i :: i in order <==> i in seen.items)
  }

  function AfterAccept(s: State, tx: Tx, role: Role, order: seq<ItemId>): Phase
    requires tx.phase.HasSession?
  {
    match tx.request
    case Finalize(_, _, _) => Locking(tx.phase.seen, order)
    case Update(_, _, _, _, _, _) =>
      var chosen := UpdatedBorrower(tx.phase.seen, tx.request, role, s.profiles);
      Ready(tx.phase.seen, if chosen.Some? then chosen.value else None)
    case _ => Ready(tx.phase.seen, None)
  }

  // The committed session row after the request; columns that the request does
  // not assign keep their committed value.
  function Committed(row: Session, r: Request, seen: Session, borrower: Option<BorrowerId>): Session {
    var next := row.(revision := seen.revision + 1);
    match r
    case Update(_, _, _, dueAt, note, _) => next.(borrower := borrower, dueAt := dueAt, note := note)
    case Add(_, _, item) => next.(items := row.items + {item})
    case Remove(_, _, item) => next.(items := row.items - {item})
    case Abandon(_, _) => next.(status := Abandoned)
    case Finalize(_, _, _) => next.(status := Completed)
  }

  function CheckoutOf(seen: Session, actor: UserId, item: ItemId): Checkout {
    Checkout(seen.workspace, item, if seen.borrower.Some? then seen.borrower.value else 0, seen.dueAt, seen.note, actor, false)
  }

  // ids are fresh and different for each item of the session.
  ghost predicate FreshIds(ids: map<ItemId, CheckoutId>, items: set<ItemId>, checkouts: map<CheckoutId, Checkout>) {
    && ids.Keys == items
    && (forall i | i in ids :: ids[i] !in checkouts)
    && (forall i, j | i in ids && j in ids && i != j :: ids[i] != ids[j])
  }

  ghost function NewCheckouts(seen: Session, actor: UserId, ids: map<ItemId, CheckoutId>): map<CheckoutId, Checkout>
  {
    map id | id in ids.Values :: CheckoutOf(seen, actor, ItemFor(ids, id))
  }

  ghost function ItemFor(ids: map<ItemId, CheckoutId>, id: CheckoutId): (item: ItemId)
    requires id in ids.Values
    ensures item in ids && ids[item] == id
  {
    var item :| item in ids && ids[item] == id;
    item
  }

  // --- locks ----------------------------------------------------------------------

  function Held(tx: Tx): set<Lock> {
    match tx.phase
    case WantSession => {}
    case HasSession(_) => {OfSession(tx.request.session)}
    case Locking(seen, rest) =>
      {OfSession(tx.request.session)} + ItemLocks(seen.items - Elements(rest))
    case Ready(seen, _) =>
      {OfSession(tx.request.session)} + (if tx.request.Finalize? then ItemLocks(seen.items) else {})
  }

  function ItemLocks(items: set<ItemId>): set<Lock> {
    set i | i in items :: OfItem(i)
  }

  function Elements(order: seq<ItemId>): set<ItemId> {
    set i | i in order
  }

  // The lock the transaction asks for next, if any.
  function Wanted(tx: Tx): Option<Lock> {
    match tx.phase
    case WantSession => Some(OfSession(tx.request.session))
    case Locking(_, rest) => if rest == [] then None else Some(OfItem(rest[0]))
    case _ => None
  }

  function Release(locks: map<Lock, TxId>, tx: TxId): map<Lock, TxId> {
    map l | l in locks && locks[l] != tx :: locks[l]
  }

  function Without(txs: map<TxId, Tx>, tx: TxId): map<TxId, Tx> {
    map t | t in txs && t != tx :: txs[t]
  }

  // --- the machine ----------------------------------------------------------------

  ghost predicate Enabled(s: State, a: Action) {
    match a
    case Begin(t, _) => t !in s.txs
    case TakeSession(t) =>
      && t in s.txs && s.txs[t].phase.WantSession?
      && s.txs[t].request.session in s.sessions && OfSession(s.txs[t].request.session) !in s.locks
    case Accept(t, role, order) => t in s.txs && s.txs[t].phase.HasSession? && Accepts(s, s.txs[t], role, order)
    case TakeItem(t) =>
      t in s.txs && s.txs[t].phase.Locking? && s.txs[t].phase.rest != [] && OfItem(s.txs[t].phase.rest[0]) !in s.locks
    case CheckItems(t) =>
      && t in s.txs && s.txs[t].phase.Locking? && s.txs[t].phase.rest == []
      && forall i | i in s.txs[t].phase.seen.items ::
           Available(s.items, s.txs[t].phase.seen.workspace, i) && !OpenFor(s.checkouts, i)
    case Commit(t, ids) =>
      && t in s.txs && s.txs[t].phase.Ready? && s.txs[t].request.session in s.sessions
      && (s.txs[t].request.Finalize? ==>
            && FreshIds(ids, s.txs[t].phase.seen.items, s.checkouts)
            && forall i | i in ids :: !OpenFor(s.checkouts, i)) // the unique index
    case Abort(t) => t in s.txs
    case OpenSession(id, ws, actor, _) =>
      id !in s.sessions && forall x | x in s.sessions && s.sessions[x].workspace == ws && s.sessions[x].actor == actor ::
        s.sessions[x].status != Active
    case DirectCheckout(id, checkout) =>
      id !in s.checkouts && !checkout.returned && !OpenFor(s.checkouts, checkout.item)
    case ReturnCheckout(id) => id in s.checkouts && !s.checkouts[id].returned
    case PutItem(i, _) => OfItem(i) !in s.locks
    case PutProfile(_, _) => true
  }

  ghost function Apply(s: State, a: Action): State
    requires Enabled(s, a)
  {
    match a
    case Begin(t, request) => s.(txs := s.txs[t := Tx(request, WantSession)])
    case TakeSession(t) =>
      var sid := s.txs[t].request.session;
      s.(locks := s.locks[OfSession(sid) := t], txs := s.txs[t := s.txs[t].(phase := HasSession(s.sessions[sid]))])
    case Accept(t, role, order) => s.(txs := s.txs[t := s.txs[t].(phase := AfterAccept(s, s.txs[t], role, order))])
    case TakeItem(t) =>
      var phase := s.txs[t].phase;
      s.(locks := s.locks[OfItem(phase.rest[0]) := t], txs := s.txs[t := s.txs[t].(phase := phase.(rest := phase.rest[1..]))])
    case CheckItems(t) => s.(txs := s.txs[t := s.txs[t].(phase := Ready(s.txs[t].phase.seen, None))])
    case Commit(t, ids) =>
      var tx := s.txs[t];
      var sid := tx.request.session;
      s.(sessions := s.sessions[sid := Committed(s.sessions[sid], tx.request, tx.phase.seen, tx.phase.borrower)],
         checkouts := if tx.request.Finalize? then s.checkouts + NewCheckouts(tx.phase.seen, tx.request.actor, ids) else s.checkouts,
         locks := Release(s.locks, t), txs := Without(s.txs, t))
    case Abort(t) => s.(locks := Release(s.locks, t), txs := Without(s.txs, t))
    case OpenSession(id, ws, actor, borrower) =>
      s.(sessions := s.sessions[id := Session(ws, actor, borrower, None, None, {}, Active, 1)])
    case DirectCheckout(id, checkout) => s.(checkouts := s.checkouts[id := checkout])
    case ReturnCheckout(id) => s.(checkouts := s.checkouts[id := s.checkouts[id].(returned := true)])
    case PutItem(i, row) => s.(items := s.items[i := row])
    case PutProfile(p, person) => s.(profiles := s.profiles[p := person])
  }

  ghost predicate Step(s: State, a: Action, t: State) {
    Enabled(s, a) && t == Apply(s, a)
  }

  ghost predicate Init(s: State) {
    s.sessions == map[] && s.checkouts == map[] && s.locks == map[] && s.txs == map[]
  }

  ghost predicate Run(states: seq<State>, actions: seq<Action>) {
    && |states| == |actions| + 1
    && Init(states[0])
    && forall i | 0 <= i < |actions| :: Step(states[i], actions[i], states[i + 1])
  }
}

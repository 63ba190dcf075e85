/** What every step of every transaction keeps: who holds which lock, that the
    session row read under the lock is still the committed one, and that no item
    has two open checkouts. */
module CheckoutInvariant {
  import opened Common
  import opened CheckoutModel

  type Locks = map<Lock, TxId>
  type Txs = map<TxId, Tx>
  type Sessions = map<SessionId, Session>
  type Checkouts = map<CheckoutId, Checkout>

  // The lock table holds exactly what the transactions hold.
  ghost predicate LocksInv(locks: Locks, txs: Txs) {
    && (forall l | l in locks :: locks[l] in txs && l in Held(txs[locks[l]]))
    && (forall t, l | t in txs && l in Held(txs[t]) :: l in locks && locks[l] == t)
  }

  ghost predicate PhaseGood(tx: Tx) {
    match tx.phase
    case Locking(seen, rest) => tx.request.Finalize? && Ascending(rest) && Elements(rest) <= seen.items && LowerHeld(seen, rest)
    case _ => true
  }

  // Items already locked come before those still to lock.
  ghost predicate LowerHeld(seen: Session, rest: seq<ItemId>) {
    forall i, k | i in seen.items && i !in rest && 0 <= k < |rest| :: i < rest[k]
  }

  ghost predicate PhasesInv(txs: Txs) {
    forall t | t in txs :: PhaseGood(txs[t])
  }

  // A request past validation still has what it validated.
  predicate AcceptedGood(tx: Tx) {
    tx.phase.Locking? || tx.phase.Ready? ==>
      && Editable(tx.phase.seen, tx.request.actor)
      && (tx.request.Update? || tx.request.Finalize? ==> tx.phase.seen.revision == tx.request.expected)
      && (tx.request.Add? ==> tx.request.item !in tx.phase.seen.items)
      && (tx.request.Remove? ==> tx.request.item in tx.phase.seen.items)
      && (tx.request.Finalize? ==> tx.phase.seen.borrower.Some? && tx.phase.seen.items != {})
  }

  // What was read under the session lock is still committed.
  ghost predicate SeenGood(sessions: Sessions, tx: Tx) {
    && (!tx.phase.WantSession? ==> tx.request.session in sessions && sessions[tx.request.session] == tx.phase.seen)
    && AcceptedGood(tx)
  }

  ghost predicate SeenInv(sessions: Sessions, txs: Txs) {
    forall t | t in txs :: SeenGood(sessions, txs[t])
  }

  ghost predicate OneOpenPerItem(checkouts: Checkouts) {
    forall c, d | c in checkouts && d in checkouts && c != d && checkouts[c].item == checkouts[d].item ::
      checkouts[c].returned || checkouts[d].returned
  }

  ghost predicate OneActivePerActor(sessions: Sessions) {
    forall x, y | x in sessions && y in sessions && x != y && sessions[x].workspace == sessions[y].workspace
                  && sessions[x].actor == sessions[y].actor ::
      sessions[x].status != Active || sessions[y].status != Active
  }

  // A finalization past its item check still finds each of its items stored in
  // its workspace and not archived: it holds their locks.
  ghost predicate StillThere(items: map<ItemId, Item>, tx: Tx) {
    tx.request.Finalize? && tx.phase.Ready? ==>
      forall i | i in tx.phase.seen.items :: i in items && items[i].workspace == tx.phase.seen.workspace && !items[i].archived
  }

  ghost predicate CheckedInv(items: map<ItemId, Item>, txs: Txs) {
    forall t | t in txs :: StillThere(items, txs[t])
  }

  ghost predicate Inv(s: State) {
    && LocksInv(s.locks, s.txs) && PhasesInv(s.txs) && SeenInv(s.sessions, s.txs) && CheckedInv(s.items, s.txs)
    && OneOpenPerItem(s.checkouts) && OneActivePerActor(s.sessions)
  }

  // --- locks ------------------------------------------------------------------------

  lemma GrantLock(locks: Locks, txs: Txs, t: TxId, l: Lock, tx: Tx)
    requires LocksInv(locks, txs) && t in txs && l !in locks
    requires Held(tx) == Held(txs[t]) + {l}
    ensures LocksInv(locks[l := t], txs[t := tx])
  {
  }

  lemma ChangePhase(locks: Locks, txs: Txs, t: TxId, tx: Tx)
    requires LocksInv(locks, txs) && t in txs && Held(tx) == Held(txs[t])
    ensures LocksInv(locks, txs[t := tx])
  {
  }

  lemma EndTx(locks: Locks, txs: Txs, t: TxId)
    requires LocksInv(locks, txs)
    ensures LocksInv(Release(locks, t), Without(txs, t))
  {
  }

  lemma NextItem(tx: Tx)
    requires tx.phase.Locking? && tx.phase.rest != [] && PhaseGood(tx)
    ensures
      var next := tx.(phase := tx.phase.(rest := tx.phase.rest[1..]));
      Held(next) == Held(tx) + {OfItem(tx.phase.rest[0])} && PhaseGood(next)
  {
  }

  lemma EnterLocking(s: State, tx: Tx, role: Role, order: seq<ItemId>)
    requires tx.phase.HasSession? && tx.request.Finalize? && Accepts(s, tx, role, order)
    ensures
      var next := tx.(phase := Locking(tx.phase.seen, order));
      Held(next) == Held(tx) && PhaseGood(next)
  {
  }

  // --- committed rows ---------------------------------------------------------------

  // Only one transaction holds a session, so only its own copy changes.
  lemma CommitKeepsSeen(s: State, t: TxId, row: Session)
    requires Inv(s) && t in s.txs && s.txs[t].phase.Ready?
    ensures SeenInv(s.sessions[s.txs[t].request.session := row], Without(s.txs, t))
  {
    var sid := s.txs[t].request.session;
    assert OfSession(sid) in Held(s.txs[t]) && s.locks[OfSession(sid)] == t;
    forall u | u in s.txs && u != t ensures SeenGood(s.sessions[sid := row], s.txs[u]) {
      assert SeenGood(s.sessions, s.txs[u]);
      if !s.txs[u].phase.WantSession? {
        assert OfSession(s.txs[u].request.session) in Held(s.txs[u]);
      }
    }
  }

  lemma NewCheckoutRow(seen: Session, actor: UserId, ids: map<ItemId, CheckoutId>, c: CheckoutId)
    requires c in NewCheckouts(seen, actor, ids)
    ensures
      var row := NewCheckouts(seen, actor, ids)[c];
      row.item in ids && ids[row.item] == c && row == CheckoutOf(seen, actor, row.item)
  {
  }

  lemma AddCheckouts(checkouts: Checkouts, seen: Session, actor: UserId, ids: map<ItemId, CheckoutId>)
    requires OneOpenPerItem(checkouts) && FreshIds(ids, seen.items, checkouts)
    requires forall i | i in ids :: !OpenFor(checkouts, i)
    ensures OneOpenPerItem(checkouts + NewCheckouts(seen, actor, ids))
  {
  }

  lemma CommitKeepsActive(sessions: Sessions, sid: SessionId, row: Session)
    requires OneActivePerActor(sessions) && sid in sessions
    requires row.workspace == sessions[sid].workspace && row.actor == sessions[sid].actor
    requires row.status == Active ==> sessions[sid].status == Active
    ensures OneActivePerActor(sessions[sid := row])
  {
  }

  lemma CommitKeepsInv(s: State, t: TxId, ids: map<ItemId, CheckoutId>)
    requires Inv(s) && Enabled(s, Commit(t, ids))
    ensures Inv(Apply(s, Commit(t, ids)))
  {
    var tx := s.txs[t];
    var sid := tx.request.session;
    var row := Committed(s.sessions[sid], tx.request, tx.phase.seen, tx.phase.borrower);
    EndTx(s.locks, s.txs, t);
    CommitKeepsSeen(s, t, row);
    CommitKeepsActive(s.sessions, sid, row);
    if tx.request.Finalize? {
      AddCheckouts(s.checkouts, tx.phase.seen, tx.request.actor, ids);
    }
  }

  predicate OfTx(a: Action) {
    a.TakeSession? || a.Accept? || a.TakeItem? || a.CheckItems?
  }

  // What the request has read and checked stays good.
  lemma TxStepKeepsRead(s: State, a: Action)
    requires Inv(s) && Enabled(s, a) && OfTx(a)
    ensures SeenInv(s.sessions, Apply(s, a).txs) && CheckedInv(s.items, Apply(s, a).txs)
  {
    assert SeenGood(s.sessions, s.txs[a.tx]);
  }

  lemma TxStepKeepsInv(s: State, a: Action)
    requires Inv(s) && Enabled(s, a) && OfTx(a)
    ensures Inv(Apply(s, a))
  {
    var tx := s.txs[a.tx];
    var next := Apply(s, a).txs[a.tx];
    TxStepKeepsRead(s, a);
    assert PhaseGood(tx);
    match a
    case TakeSession(x) => GrantLock(s.locks, s.txs, x, OfSession(tx.request.session), next);
    case Accept(x, role, order) =>
      if tx.request.Finalize? {
        EnterLocking(s, tx, role, order);
      }
      ChangePhase(s.locks, s.txs, x, next);
    case TakeItem(x) =>
      NextItem(tx);
      GrantLock(s.locks, s.txs, x, OfItem(tx.phase.rest[0]), next);
    case CheckItems(x) =>
      assert Elements(tx.phase.rest) == {};
      ChangePhase(s.locks, s.txs, x, next);
  }

  lemma OpenKeepsSessions(sessions: Sessions, txs: Txs, id: SessionId, row: Session)
    requires SeenInv(sessions, txs) && OneActivePerActor(sessions) && id !in sessions
    requires forall x | x in sessions && sessions[x].workspace == row.workspace && sessions[x].actor == row.actor :: sessions[x].status != Active
    ensures SeenInv(sessions[id := row], txs) && OneActivePerActor(sessions[id := row])
  {
  }

  lemma BeginTx(locks: Locks, txs: Txs, sessions: Sessions, t: TxId, request: Request)
    requires LocksInv(locks, txs) && PhasesInv(txs) && SeenInv(sessions, txs) && t !in txs
    ensures
      var after := txs[t := Tx(request, WantSession)];
      LocksInv(locks, after) && PhasesInv(after) && SeenInv(sessions, after)
  {
  }

  lemma AddOneCheckout(checkouts: Checkouts, id: CheckoutId, checkout: Checkout)
    requires OneOpenPerItem(checkouts) && id !in checkouts && !OpenFor(checkouts, checkout.item)
    ensures OneOpenPerItem(checkouts[id := checkout])
  {
  }

  lemma OtherStepKeepsInv(s: State, a: Action)
    requires Inv(s) && Enabled(s, a) && !OfTx(a) && !a.Commit?
    ensures Inv(Apply(s, a))
  {
    match a
    case Abort(t) => EndTx(s.locks, s.txs, t);
    case OpenSession(id, ws, actor, borrower) =>
      var row := Session(ws, actor, borrower, None, None, {}, Active, 1);
      OpenKeepsSessions(s.sessions, s.txs, id, row);
    case Begin(t, request) => BeginTx(s.locks, s.txs, s.sessions, t, request);
    case DirectCheckout(id, checkout) => AddOneCheckout(s.checkouts, id, checkout);
    case _ =>
  }

  lemma StepKeepsInv(s: State, a: Action, t: State)
    requires Inv(s) && Step(s, a, t)
    ensures Inv(t)
  {
    if OfTx(a) {
      TxStepKeepsInv(s, a);
    } else if a.Commit? {
      CommitKeepsInv(s, a.tx, a.ids);
    } else {
      OtherStepKeepsInv(s, a);
    }
  }

  lemma {:induction false} RunKeepsInv(states: seq<State>, actions: seq<Action>, n: nat)
    requires Run(states, actions) && n < |states|
    ensures Inv(states[n])
  {
    if n > 0 {
      RunKeepsInv(states, actions, n - 1);
      StepKeepsInv(states[n - 1], actions[n - 1], states[n]);
    }
  }
}

/** What holds in every interleaving of checkout requests: no deadlock, revisions
    that identify a session's content, and finalization as one indivisible step. */
module CheckoutTheorems {
  import opened Common
  import opened CheckoutModel
  import opened CheckoutInvariant

  // --- deadlock ---------------------------------------------------------------------

  // The transaction waits for a lock that a member of D holds.
  predicate WaitsFor(s: State, t: TxId, D: set<TxId>) {
    && t in s.txs && Wanted(s.txs[t]).Some? && Wanted(s.txs[t]).value in s.locks
    && s.locks[Wanted(s.txs[t]).value] in D
  }

  predicate Deadlocked(s: State, D: set<TxId>) {
    D != {} && forall t | t in D :: WaitsFor(s, t, D)
  }

  function Rank(l: Lock): nat {
    match l
    case OfSession(_) => 0
    case OfItem(i) => i + 1
  }

  // A transaction asks only for locks above those it holds.
  lemma AsksUpwards(tx: Tx, held: Lock)
    requires PhaseGood(tx) && Wanted(tx).Some? && held in Held(tx)
    ensures Rank(held) < Rank(Wanted(tx).value)
  {
  }

  lemma {:induction false} HighestWanted(s: State, D: set<TxId>) returns (top: TxId)
    requires D != {} && forall t | t in D :: t in s.txs && Wanted(s.txs[t]).Some?
    ensures top in D && forall t | t in D :: Rank(Wanted(s.txs[t]).value) <= Rank(Wanted(s.txs[top]).value)
    decreases |D|
  {
    top :| top in D;
    if D != {top} {
      assert D - {top} != {};
      var other := HighestWanted(s, D - {top});
      if Rank(Wanted(s.txs[top]).value) < Rank(Wanted(s.txs[other]).value) {
        top := other;
      }
    }
  }

  lemma InvExcludesDeadlock(s: State, D: set<TxId>)
    requires LocksInv(s.locks, s.txs) && PhasesInv(s.txs)
    ensures !Deadlocked(s, D)
  {
    if Deadlocked(s, D) {
      assert forall t | t in D :: WaitsFor(s, t, D);
      var top := HighestWanted(s, D);
      assert WaitsFor(s, top, D);
      AsksUpwards(s.txs[s.locks[Wanted(s.txs[top]).value]], Wanted(s.txs[top]).value);
    }
  }

  lemma SomeoneMoves(s: State) returns (mover: TxId)
    requires LocksInv(s.locks, s.txs) && PhasesInv(s.txs) && s.txs != map[]
    ensures mover in s.txs && !WaitsFor(s, mover, s.txs.Keys)
  {
    InvExcludesDeadlock(s, s.txs.Keys);
    assert s.txs.Keys != {};
    mover :| mover in s.txs && !WaitsFor(s, mover, s.txs.Keys);
  }

  // No reachable state contains a deadlock.
  lemma NoDeadlock(states: seq<State>, actions: seq<Action>, n: nat, D: set<TxId>)
    requires Run(states, actions) && n < |states|
    ensures !Deadlocked(states[n], D)
  {
    RunKeepsInv(states, actions, n);
    InvExcludesDeadlock(states[n], D);
  }

  // While requests are running, at least one of them is not waiting for a lock:
  // its session is free or gone, or the next item it has to lock is free.
  lemma SomeRequestCanMove(states: seq<State>, actions: seq<Action>, n: nat) returns (mover: TxId)
    requires Run(states, actions) && n < |states| && states[n].txs != map[]
    ensures mover in states[n].txs
    ensures
      var s, tx := states[n], states[n].txs[mover];
      && (tx.phase.WantSession? && tx.request.session in s.sessions ==> Enabled(s, TakeSession(mover)))
      && (tx.phase.Locking? && tx.phase.rest != [] ==> Enabled(s, TakeItem(mover)))
  {
    RunKeepsInv(states, actions, n);
    mover := SomeoneMoves(states[n]);
  }

  // --- revisions --------------------------------------------------------------------

  // A step of a request before its commit, or its end without one.
  predicate BeforeCommit(a: Action) {
    a.Begin? || a.TakeSession? || a.Accept? || a.TakeItem? || a.CheckItems? || a.Abort?
  }

  // Such a step leaves sessions and checkouts as they are.
  lemma OnlyCommitsWrite(s: State, a: Action, t: State)
    requires Step(s, a, t) && BeforeCommit(a)
    ensures t.sessions == s.sessions && t.checkouts == s.checkouts
  {
  }

  // A running request can be given up at any point; its locks are free again and
  // no row has changed.
  lemma AbortLeavesRows(s: State, t: TxId)
    requires LocksInv(s.locks, s.txs) && t in s.txs
    ensures Enabled(s, Abort(t))
    ensures
      var after := Apply(s, Abort(t));
      && after == s.(locks := after.locks, txs := after.txs) && after.txs.Keys == s.txs.Keys - {t}
      && (forall u | u in after.txs :: after.txs[u] == s.txs[u])
      && (forall l | l in Held(s.txs[t]) :: l !in after.locks)
      && (forall l | l in s.locks && l !in Held(s.txs[t]) :: l in after.locks && after.locks[l] == s.locks[l])
  {
    forall l | l in s.locks && l !in Held(s.txs[t]) ensures s.locks[l] != t {
      assert l in Held(s.txs[s.locks[l]]);
    }
  }

  lemma StepRevises(s: State, a: Action, t: State, sid: SessionId)
    requires Inv(s) && Step(s, a, t) && sid in s.sessions
    ensures sid in t.sessions
    ensures t.sessions[sid] == s.sessions[sid] || t.sessions[sid].revision == s.sessions[sid].revision + 1
    ensures t.sessions[sid] != s.sessions[sid] ==> a.Commit? && s.txs[a.tx].request.session == sid
  {
    if a.Commit? {
      assert SeenGood(s.sessions, s.txs[a.tx]);
    } else if BeforeCommit(a) {
      OnlyCommitsWrite(s, a, t);
    }
  }

  // The session keeps its content or moves to a higher revision.
  predicate Revised(before: Sessions, after: Sessions, sid: SessionId) {
    sid in before ==> sid in after && (after[sid] == before[sid] || after[sid].revision > before[sid].revision)
  }

  lemma RunRevises(states: seq<State>, actions: seq<Action>, sid: SessionId, k: nat)
    requires Run(states, actions) && k < |actions|
    ensures Revised(states[k].sessions, states[k + 1].sessions, sid)
  {
    RunKeepsInv(states, actions, k);
    if sid in states[k].sessions {
      StepRevises(states[k], actions[k], states[k + 1], sid);
    }
  }

  lemma {:induction false} RevisionsOnlyGrow(sessions: seq<Sessions>, i: nat, j: nat, sid: SessionId)
    requires forall k | 0 < k < |sessions| :: Revised(sessions[k - 1], sessions[k], sid)
    requires i <= j < |sessions| && sid in sessions[i]
    ensures Revised(sessions[i], sessions[j], sid)
  {
    if i < j {
      RevisionsOnlyGrow(sessions, i, j - 1, sid);
    }
  }

  // Along a run a session keeps its content or moves to a higher revision.
  lemma RevisionsGrow(states: seq<State>, actions: seq<Action>, i: nat, j: nat, sid: SessionId)
    requires Run(states, actions) && i <= j < |states| && sid in states[i].sessions
    ensures Revised(states[i].sessions, states[j].sessions, sid)
  {
    var sessions := seq(|states|, k requires 0 <= k < |states| => states[k].sessions);
    forall k | 0 < k < |sessions| ensures Revised(sessions[k - 1], sessions[k], sid) {
      RunRevises(states, actions, sid, k - 1);
    }
    RevisionsOnlyGrow(sessions, i, j, sid);
  }

  // Two committed states of a session with the same revision agree on the
  // borrower, due date, note, items and status.
  lemma SameRevisionSameContent(states: seq<State>, actions: seq<Action>, i: nat, j: nat, sid: SessionId)
    requires Run(states, actions) && i < |states| && j < |states|
    requires sid in states[i].sessions && sid in states[j].sessions
    requires states[i].sessions[sid].revision == states[j].sessions[sid].revision
    ensures states[i].sessions[sid] == states[j].sessions[sid]
  {
    if i <= j {
      RevisionsGrow(states, actions, i, j, sid);
    } else {
      RevisionsGrow(states, actions, j, i, sid);
    }
  }

  // A request that expects a revision commits on exactly that revision of an
  // active session of its caller.
  lemma CommitMatchesExpected(states: seq<State>, actions: seq<Action>, n: nat)
    requires Run(states, actions) && n < |actions| && actions[n].Commit? && actions[n].tx in states[n].txs
    ensures
      var r := states[n].txs[actions[n].tx].request;
      && r.session in states[n].sessions && Editable(states[n].sessions[r.session], r.actor)
      && (r.Update? || r.Finalize? ==> states[n].sessions[r.session].revision == r.expected)
      && r.session in states[n + 1].sessions
      && states[n + 1].sessions[r.session].revision == states[n].sessions[r.session].revision + 1
  {
    RunKeepsInv(states, actions, n);
    assert Step(states[n], actions[n], states[n + 1]);
    assert SeenGood(states[n].sessions, states[n].txs[actions[n].tx]);
  }

  // What a committed request did to the row it found: nothing else changed in
  // it, and no other session changed.
  lemma CommitChanges(states: seq<State>, actions: seq<Action>, n: nat)
    requires Run(states, actions) && n < |actions| && actions[n].Commit? && actions[n].tx in states[n].txs
    ensures
      var r := states[n].txs[actions[n].tx].request;
      && r.session in states[n].sessions && r.session in states[n + 1].sessions
      && var row, next := states[n].sessions[r.session], states[n + 1].sessions[r.session];
         && states[n + 1].sessions == states[n].sessions[r.session := next]
         && (r.Add? ==> r.item !in row.items && next == row.(items := row.items + {r.item}, revision := row.revision + 1))
         && (r.Remove? ==> r.item in row.items && next == row.(items := row.items - {r.item}, revision := row.revision + 1))
         && (r.Update? ==>
               && states[n].txs[actions[n].tx].phase.Ready?
               && next == row.(borrower := states[n].txs[actions[n].tx].phase.borrower, dueAt := r.dueAt, note := r.note, revision := row.revision + 1))
         && (r.Abandon? ==> next == row.(status := Abandoned, revision := row.revision + 1))
  {
    RunKeepsInv(states, actions, n);
    assert Step(states[n], actions[n], states[n + 1]);
    assert SeenGood(states[n].sessions, states[n].txs[actions[n].tx]);
  }

  function Expects(r: Request): Option<int> {
    if r.Update? || r.Finalize? then Some(r.expected) else None
  }

  // No update is lost: of two commits on a session that expect revisions, the
  // later one expected a higher revision than the earlier one.
  lemma NoLostUpdate(states: seq<State>, actions: seq<Action>, m: nat, n: nat)
    requires Run(states, actions) && m < n < |actions| && actions[m].Commit? && actions[n].Commit?
    requires actions[m].tx in states[m].txs && actions[n].tx in states[n].txs
    requires var first, second := states[m].txs[actions[m].tx].request, states[n].txs[actions[n].tx].request;
             first.session == second.session && Expects(first).Some? && Expects(second).Some?
    ensures states[m].txs[actions[m].tx].request.expected < states[n].txs[actions[n].tx].request.expected
  {
    CommitMatchesExpected(states, actions, m);
    CommitMatchesExpected(states, actions, n);
    RevisionsGrow(states, actions, m + 1, n, states[m].txs[actions[m].tx].request.session);
  }

  predicate EndedKept(before: Sessions, after: Sessions, sid: SessionId) {
    sid in before && before[sid].status != Active ==> sid in after && after[sid] == before[sid]
  }

  lemma EndedStep(s: State, a: Action, t: State, sid: SessionId)
    requires Inv(s) && Step(s, a, t)
    ensures EndedKept(s.sessions, t.sessions, sid)
  {
    if a.Commit? {
      assert SeenGood(s.sessions, s.txs[a.tx]);
    } else if BeforeCommit(a) {
      OnlyCommitsWrite(s, a, t);
    }
  }

  lemma RunKeepsEnded(states: seq<State>, actions: seq<Action>, sid: SessionId, k: nat)
    requires Run(states, actions) && k < |actions|
    ensures EndedKept(states[k].sessions, states[k + 1].sessions, sid)
  {
    RunKeepsInv(states, actions, k);
    EndedStep(states[k], actions[k], states[k + 1], sid);
  }

  lemma {:induction false} EndedAlong(sessions: seq<Sessions>, i: nat, j: nat, sid: SessionId)
    requires forall k | 0 < k < |sessions| :: EndedKept(sessions[k - 1], sessions[k], sid)
    requires i <= j < |sessions|
    ensures EndedKept(sessions[i], sessions[j], sid)
  {
    if i < j {
      EndedAlong(sessions, i, j - 1, sid);
    }
  }

  // A completed or abandoned session never changes again.
  lemma EndedIsFinal(states: seq<State>, actions: seq<Action>, i: nat, j: nat, sid: SessionId)
    requires Run(states, actions) && i <= j < |states| && sid in states[i].sessions && states[i].sessions[sid].status != Active
    ensures sid in states[j].sessions && states[j].sessions[sid] == states[i].sessions[sid]
  {
    var sessions := seq(|states|, k requires 0 <= k < |states| => states[k].sessions);
    forall k | 0 < k < |sessions| ensures EndedKept(sessions[k - 1], sessions[k], sid) {
      RunKeepsEnded(states, actions, sid, k - 1);
    }
    EndedAlong(sessions, i, j, sid);
  }

  // --- what a commit was allowed on -------------------------------------------------------

  // The item can be lent in the workspace: it is stored there, not archived, and
  // every checkout of it was returned.
  ghost predicate Lendable(items: map<ItemId, Item>, checkouts: Checkouts, workspace: Workspace, item: ItemId) {
    && item in items && items[item].workspace == workspace && !items[item].archived
    && forall c | c in checkouts && checkouts[c].item == item :: checkouts[c].returned
  }

  ghost predicate AllLendable(items: map<ItemId, Item>, checkouts: Checkouts, session: Session) {
    forall i | i in session.items :: Lendable(items, checkouts, session.workspace, i)
  }

  // The borrower an update may choose: a borrower keeps the session's, which is
  // linked to him; an owner takes any of the workspace, or none.
  ghost predicate MayChoose(seen: Session, r: Request, role: Role, profiles: map<BorrowerId, Profile>, chosen: Option<BorrowerId>)
    requires r.Update?
  {
    if role == Borrower then
      && chosen == seen.borrower && chosen.Some? && (r.borrower == None || r.borrower == chosen)
      && chosen.value in profiles && profiles[chosen.value].linkedUser == Some(r.actor)
    else
      && chosen == r.borrower
      && (chosen.Some? ==> chosen.value in profiles && profiles[chosen.value].workspace == seen.workspace)
  }

  // The session's borrower is one of its workspace, and for a borrower himself.
  ghost predicate MayLendTo(seen: Session, actor: UserId, role: Role, profiles: map<BorrowerId, Profile>) {
    && seen.borrower.Some? && seen.borrower.value in profiles
    && profiles[seen.borrower.value].workspace == seen.workspace
    && (role == Borrower ==> profiles[seen.borrower.value].linkedUser == Some(actor))
  }

  // The request was validated in s, against the session row it read.
  ghost predicate AcceptedAt(s: State, a: Action, t: TxId, tx: Tx)
    requires tx.phase.Locking? || tx.phase.Ready?
  {
    var seen, r := tx.phase.seen, tx.request;
    && a.Accept? && a.tx == t && t in s.txs && s.txs[t] == Tx(r, HasSession(seen))
    && seen.status == Active && seen.actor == r.actor
    && match r
       case Update(_, _, _, _, _, expected) =>
         tx.phase.Ready? && seen.revision == expected && MayChoose(seen, r, a.role, s.profiles, tx.phase.borrower)
       case Add(_, _, item) => item !in seen.items && Lendable(s.items, s.checkouts, seen.workspace, item)
       case Remove(_, _, item) => item in seen.items
       case Abandon(_, _) => true
       case Finalize(_, _, expected) =>
         seen.revision == expected && seen.items != {} && MayLendTo(seen, r.actor, a.role, s.profiles)
  }

  lemma AcceptMeansAccepted(s: State, a: Action, t: State)
    requires Step(s, a, t) && a.Accept?
    ensures a.tx in t.txs && (t.txs[a.tx].phase.Locking? || t.txs[a.tx].phase.Ready?) && AcceptedAt(s, a, a.tx, t.txs[a.tx])
  {
  }

  // Validation refuses nothing that the rows allow.
  lemma AllowedIsAccepted(s: State, t: TxId, role: Role, order: seq<ItemId>, tx: Tx)
    requires tx.phase.Locking? || tx.phase.Ready?
    requires AcceptedAt(s, Accept(t, role, order), t, tx)
    requires tx.request.Finalize? ==> Ascending(order) && forall i :: i in order <==> i in tx.phase.seen.items
    ensures Enabled(s, Accept(t, role, order))
    ensures tx.request.Update? ==> Apply(s, Accept(t, role, order)).txs[t] == tx
  {
  }

  // A request past validation was past it before, or was validated just now.
  lemma PastValidation(s: State, a: Action, t: State, tx: TxId)
    requires Inv(s) && Step(s, a, t) && tx in t.txs && (t.txs[tx].phase.Locking? || t.txs[tx].phase.Ready?)
    requires !(a.Accept? && a.tx == tx)
    ensures tx in s.txs && (s.txs[tx].phase.Locking? || s.txs[tx].phase.Ready?)
    ensures t.txs[tx].request == s.txs[tx].request && t.txs[tx].phase.seen == s.txs[tx].phase.seen
    ensures t.txs[tx] == s.txs[tx] || s.txs[tx].request.Finalize?
  {
    assert PhaseGood(s.txs[tx]);
  }

  lemma {:induction false} AcceptedBefore(states: seq<State>, actions: seq<Action>, n: nat, tx: TxId) returns (k: nat)
    requires Run(states, actions) && n < |states| && tx in states[n].txs
    requires states[n].txs[tx].phase.Locking? || states[n].txs[tx].phase.Ready?
    ensures k < n && AcceptedAt(states[k], actions[k], tx, states[n].txs[tx])
  {
    assert n > 0 && Step(states[n - 1], actions[n - 1], states[n]);
    if actions[n - 1].Accept? && actions[n - 1].tx == tx {
      AcceptMeansAccepted(states[n - 1], actions[n - 1], states[n]);
      k := n - 1;
    } else {
      RunKeepsInv(states, actions, n - 1);
      PastValidation(states[n - 1], actions[n - 1], states[n], tx);
      k := AcceptedBefore(states, actions, n - 1, tx);
    }
  }

  // Every committed request was validated earlier, against rows that allowed it,
  // and on the session row it commits to.
  lemma CommitWasAllowed(states: seq<State>, actions: seq<Action>, n: nat) returns (k: nat)
    requires Run(states, actions) && n < |actions| && actions[n].Commit? && actions[n].tx in states[n].txs
    ensures
      var tx := states[n].txs[actions[n].tx];
      && tx.phase.Ready? && k < n && AcceptedAt(states[k], actions[k], actions[n].tx, tx)
      && tx.request.session in states[n].sessions && states[n].sessions[tx.request.session] == tx.phase.seen
  {
    assert Step(states[n], actions[n], states[n + 1]);
    RunKeepsInv(states, actions, n);
    assert SeenGood(states[n].sessions, states[n].txs[actions[n].tx]);
    k := AcceptedBefore(states, actions, n, actions[n].tx);
  }

  // When a finalization commits, every item of the session is stored in its
  // workspace, not archived, and not out: no item it checks out was removed,
  // archived or lent by another request in between.
  lemma FinalizedItemsAreLendable(states: seq<State>, actions: seq<Action>, n: nat)
    requires Run(states, actions) && n < |actions| && actions[n].Commit? && actions[n].tx in states[n].txs
    requires states[n].txs[actions[n].tx].request.Finalize?
    ensures
      var sid := states[n].txs[actions[n].tx].request.session;
      && sid in states[n].sessions
      && forall i | i in states[n].sessions[sid].items :: Lendable(states[n].items, states[n].checkouts, states[n].sessions[sid].workspace, i)
  {
    RunKeepsInv(states, actions, n);
    var s, tx := states[n], states[n].txs[actions[n].tx];
    assert Step(s, actions[n], states[n + 1]);
    assert SeenGood(s.sessions, tx) && StillThere(s.items, tx);
    forall i | i in tx.phase.seen.items ensures Lendable(s.items, s.checkouts, tx.phase.seen.workspace, i) {
      assert i in actions[n].ids && !OpenFor(s.checkouts, i);
    }
  }

  // --- finalization ---------------------------------------------------------------------

  // An open checkout of one of the session's items, on its terms.
  predicate OpenedFor(checkout: Checkout, session: Session, actor: UserId) {
    && checkout.item in session.items && !checkout.returned
    && checkout.workspace == session.workspace && session.borrower == Some(checkout.borrower)
    && checkout.dueAt == session.dueAt && checkout.note == session.note && checkout.checkedOutBy == actor
  }

  // after has, for each item, exactly one open checkout that before has not,
  // with the session's borrower, due date and note, and is otherwise before.
  ghost predicate OpensEachOnce(before: Checkouts, after: Checkouts, session: Session, actor: UserId) {
    && (forall c | c in before :: c in after && after[c] == before[c])
    && (forall c | c in after && c !in before :: OpenedFor(after[c], session, actor))
    && (forall i | i in session.items :: !OpenFor(before, i) && OpenFor(after, i))
    && (forall c, d | c in after && d in after && c !in before && d !in before && after[c].item == after[d].item :: c == d)
  }

  lemma NewCheckoutsOpenEachOnce(before: Checkouts, seen: Session, actor: UserId, ids: map<ItemId, CheckoutId>)
    requires seen.borrower.Some? && FreshIds(ids, seen.items, before) && forall i | i in ids :: !OpenFor(before, i)
    ensures OpensEachOnce(before, before + NewCheckouts(seen, actor, ids), seen, actor)
  {
    var added := NewCheckouts(seen, actor, ids);
    var after := before + added;
    forall c | c in added
      ensures c !in before && added[c].item in seen.items && ids[added[c].item] == c && added[c] == CheckoutOf(seen, actor, added[c].item)
    {
      NewCheckoutRow(seen, actor, ids, c);
    }
    forall i | i in seen.items ensures OpenFor(after, i) {
      assert ids[i] in ids.Values;
      assert after[ids[i]].item == i && !after[ids[i]].returned;
    }
  }

  // What committing a finalization does to the session it has seen.
  lemma FinalizeStep(s: State, a: Action, t: State)
    requires Inv(s) && Step(s, a, t) && a.Commit? && s.txs[a.tx].request.Finalize?
    ensures
      var tx := s.txs[a.tx];
      var sid := tx.request.session;
      var seen := s.sessions[sid];
      && seen == tx.phase.seen && seen.revision == tx.request.expected && seen.actor == tx.request.actor
      && seen.status == Active && seen.borrower.Some? && seen.items != {}
      && t.sessions == s.sessions[sid := seen.(status := Completed, revision := seen.revision + 1)]
      && t.checkouts == s.checkouts + NewCheckouts(seen, tx.request.actor, a.ids)
      && FreshIds(a.ids, seen.items, s.checkouts) && forall i | i in a.ids :: !OpenFor(s.checkouts, i)
  {
    assert SeenGood(s.sessions, s.txs[a.tx]);
  }

  lemma FinalizeOpens(s: State, a: Action, t: State)
    requires Inv(s) && Step(s, a, t) && a.Commit? && s.txs[a.tx].request.Finalize?
    ensures
      var seen := s.sessions[s.txs[a.tx].request.session];
      && seen.revision == s.txs[a.tx].request.expected
      && seen.status == Active && seen.borrower.Some? && seen.items != {}
      && t.sessions == s.sessions[s.txs[a.tx].request.session := seen.(status := Completed, revision := seen.revision + 1)]
      && OpensEachOnce(s.checkouts, t.checkouts, seen, seen.actor)
  {
    FinalizeStep(s, a, t);
    NewCheckoutsOpenEachOnce(s.checkouts, s.sessions[s.txs[a.tx].request.session], s.txs[a.tx].request.actor, a.ids);
  }

  // Finalizing with revision r opens one checkout for each item the session
  // held at revision r, in whichever state that revision was seen, and
  // completes the session.
  lemma FinalizeTakesRevision(states: seq<State>, actions: seq<Action>, i: nat, n: nat, sid: SessionId)
    requires Run(states, actions) && i < |states| && n < |actions|
    requires actions[n].Commit? && actions[n].tx in states[n].txs
    requires var r := states[n].txs[actions[n].tx].request; r.Finalize? && r.session == sid
    requires sid in states[i].sessions
    requires states[i].sessions[sid].revision == states[n].txs[actions[n].tx].request.expected
    ensures
      var held := states[i].sessions[sid];
      && held.status == Active && held.borrower.Some? && held.items != {}
      && states[n + 1].sessions == states[n].sessions[sid := held.(status := Completed, revision := held.revision + 1)]
      && OpensEachOnce(states[n].checkouts, states[n + 1].checkouts, held, held.actor)
  {
    RunKeepsInv(states, actions, n);
    assert Step(states[n], actions[n], states[n + 1]);
    FinalizeOpens(states[n], actions[n], states[n + 1]);
    SameRevisionSameContent(states, actions, i, n, sid);
  }

  // In no reachable state are there two open checkouts for one item, nor two
  // active sessions of one actor in one workspace.
  lemma AtMostOneOpen(states: seq<State>, actions: seq<Action>, n: nat)
    requires Run(states, actions) && n < |states|
    ensures OneOpenPerItem(states[n].checkouts) && OneActivePerActor(states[n].sessions)
  {
    RunKeepsInv(states, actions, n);
  }

  // A finalization that has checked its items and still holds their locks.
  ghost predicate Finalizing(s: State, t: TxId) {
    t in s.txs && s.txs[t].request.Finalize? && s.txs[t].phase.Ready?
  }

  lemma ItemLockOwner(s: State, tx: TxId, item: ItemId)
    requires Inv(s) && Finalizing(s, tx) && item in s.txs[tx].phase.seen.items
    ensures OfItem(item) in s.locks && s.locks[OfItem(item)] == tx
  {
  }

  lemma OpenedByCommit(s: State, a: Action, t: State, item: ItemId)
    requires Step(s, a, t) && a.Commit? && !OpenFor(s.checkouts, item) && OpenFor(t.checkouts, item)
    ensures Finalizing(s, a.tx) && item in s.txs[a.tx].phase.seen.items
  {
  }

  lemma OpeningIsDirect(s: State, a: Action, t: State, tx: TxId, item: ItemId)
    requires Inv(s) && Step(s, a, t) && Finalizing(s, tx) && Finalizing(t, tx)
    requires item in s.txs[tx].phase.seen.items && !OpenFor(s.checkouts, item) && OpenFor(t.checkouts, item)
    ensures a.DirectCheckout? && a.checkout.item == item
  {
    if a.Commit? {
      OpenedByCommit(s, a, t, item);
      ItemLockOwner(s, a.tx, item);
      ItemLockOwner(s, tx, item);
    } else {
      var id :| id in t.checkouts && t.checkouts[id].item == item && !t.checkouts[id].returned;
    }
  }

  // Item locks keep other finalizations out: once a finalization has checked an
  // item, only a direct checkout of that item can get in before it commits.
  lemma {:induction false} FinalizeLosesOnlyToDirect(states: seq<State>, actions: seq<Action>, i: nat, n: nat, tx: TxId, item: ItemId)
    requires Run(states, actions) && i <= n < |states|
    requires forall k | i <= k <= n :: Finalizing(states[k], tx)
    requires Finalizing(states[i], tx)
    requires item in states[i].txs[tx].phase.seen.items && !OpenFor(states[i].checkouts, item) && OpenFor(states[n].checkouts, item)
    ensures exists k :: i <= k < n && actions[k].DirectCheckout? && actions[k].checkout.item == item
    decreases n - i
  {
    RunKeepsInv(states, actions, i);
    assert Step(states[i], actions[i], states[i + 1]);
    assert Finalizing(states[i], tx) && Finalizing(states[i + 1], tx);
    KeepsSeen(states[i], actions[i], states[i + 1], tx);
    if OpenFor(states[i + 1].checkouts, item) {
      OpeningIsDirect(states[i], actions[i], states[i + 1], tx, item);
    } else {
      FinalizeLosesOnlyToDirect(states, actions, i + 1, n, tx, item);
    }
  }

  lemma KeepsSeen(s: State, a: Action, t: State, tx: TxId)
    requires Inv(s) && Step(s, a, t) && Finalizing(s, tx) && Finalizing(t, tx)
    ensures t.txs[tx] == s.txs[tx]
  {
  }
}

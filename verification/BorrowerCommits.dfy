/** What stands behind every commit of the overlapping borrower requests: the rows
    it was let in on, the rows it read, and exactly what it writes. */
module BorrowerCommits {
  import opened Common
  import opened Borrowers
  import Serial = BorrowerDesk
  import opened BorrowerRaces

  // The row that a request past its first lock has locked first.
  function Locked(phase: Phase): Option<Resource> {
    match phase
    case Asked => None
    case Held(p) => Some(OfProfile(p))
    case Cleared(p) => Some(OfProfile(p))
    case Closing(p, _, _) => Some(OfProfile(p))
    case Closed(p, _, _) => Some(OfProfile(p))
    case Taken(i, _) => Some(OfInvitation(i))
    case Linking(i, _, _, _) => Some(OfInvitation(i))
    case Ready(i, _, _, _) => Some(OfInvitation(i))
    case Withdrawn(i) => Some(OfInvitation(i))
  }

  // The first row that the request locked, as it was then, lets the request in.
  ghost predicate LetIn(d: Desk, tx: Tx) {
    match tx.request
    case Edit(ws, p, _, email) =>
      Locked(tx.phase) == Some(OfProfile(p)) && Serial.OfWorkspace(d.profiles, p, ws)
      && (d.profiles[p].linkedUser.Some? ==> email == d.profiles[p].email)
    case Invite(ws, p, _, _) =>
      Locked(tx.phase) == Some(OfProfile(p)) && Serial.OfWorkspace(d.profiles, p, ws)
      && d.profiles[p].linkedUser == None && d.profiles[p].email.Some?
    case Revoke(ws, i) =>
      Locked(tx.phase) == Some(OfInvitation(i)) && i in d.invitations && d.invitations[i].workspace == ws
    case Claim(token, _, _, _) =>
      exists i :: i in d.invitations && Locked(tx.phase) == Some(OfInvitation(i))
                  && d.invitations[i].token == token && Serial.Live(d.invitations[i], tx.since)
  }

  // What an edit or a claim read afterwards lets it go on: no live invitation
  // against another email; an unlinked profile, and the invited account with a
  // password that fits, or no such account and a name for a new one.
  ghost predicate ReadGood(d: Desk, time: Time, tx: Tx) {
    match tx.phase
    case Cleared(p) =>
      tx.request.Edit? && p in d.profiles && (tx.request.email == d.profiles[p].email || !Serial.InvitedNow(d.invitations, p, time))
    case Linking(i, p, user, account) => AccountGood(d, tx.request, i, p, user, account)
    case Ready(i, p, user, account) => AccountGood(d, tx.request, i, p, user, account)
    case _ => true
  }

  ghost predicate AccountGood(d: Desk, request: Request, i: InvitationId, p: ProfileId, user: UserId, account: User) {
    && request.Claim? && i in d.invitations && p in d.profiles && d.profiles[p].linkedUser == None
    && if exists u :: u in d.users && d.users[u].address == d.invitations[i].email then
         && user in d.users && d.users[user] == account && account.address == d.invitations[i].email
         && account.hasPassword && request.passwordFits
       else
         request.named && user == request.newUser && account == User(d.invitations[i].email, true)
  }

  // What the commit writes, and that it writes nothing else.
  ghost predicate Writes(d: Desk, tx: Tx, after: Desk) {
    match tx.phase
    case Cleared(p) =>
      && tx.request.Edit? && p in d.profiles
      && after == Desk(d.profiles[p := d.profiles[p].(name := tx.request.name, email := tx.request.email)], d.invitations, d.users, d.members)
    case Closed(p, now, open) =>
      && tx.request.Invite? && p in d.profiles && d.profiles[p].email.Some? && tx.request.invitation !in d.invitations
      && after.profiles == d.profiles && after.users == d.users && after.members == d.members
      && after.invitations.Keys == d.invitations.Keys + {tx.request.invitation}
      && (open.Some? ==> open.value in d.invitations && d.invitations[open.value].profile == p)
      && (forall i | i in d.invitations ::
            && after.invitations[i] == (if open == Some(i) then d.invitations[i].(revokedAt := Some(now)) else d.invitations[i])
            && (d.invitations[i].profile == p && d.invitations[i].consumedAt == None && d.invitations[i].revokedAt == None ==> open == Some(i)))
      && after.invitations[tx.request.invitation]
         == Invitation(d.profiles[p].workspace, p, d.profiles[p].email.value, tx.request.token, now + 24 * 60 * 60, None, None)
    case Ready(i, p, user, account) =>
      && i in d.invitations && p in d.profiles && d.profiles[p].linkedUser == None && d.invitations[i].profile == p
      && (forall q | q in d.profiles && d.profiles[q].workspace == d.profiles[p].workspace :: d.profiles[q].linkedUser != Some(user))
      && after == Desk(d.profiles[p := d.profiles[p].(linkedUser := Some(user))],
                       d.invitations[i := d.invitations[i].(consumedAt := Some(tx.since))],
                       d.users[user := account], d.members + {(user, d.invitations[i].workspace)})
    case Withdrawn(i) =>
      && i in d.invitations
      && after == d.(invitations := d.invitations[i := d.invitations[i].(revokedAt := Some(tx.since))])
    case _ => false
  }

  // --- the steps that led there ---------------------------------------------------------

  lemma FirstLockLetsIn(s: State, a: Action, t: State)
    requires Inv(s) && Step(s, a, t) && a.Lock? && s.txs[a.tx].phase.Asked?
    ensures a.tx in t.txs && LetIn(s.desk, t.txs[a.tx])
  {
    var tx := s.txs[a.tx];
    if tx.request.Claim? {
      var i := ByToken(s.desk.invitations, tx.request.token);
      assert Claimable(s.desk.invitations[i], tx.since) && Serial.Live(s.desk.invitations[i], tx.since);
    }
  }

  lemma ReadIsGood(s: State, a: Action, t: State)
    requires Inv(s) && Step(s, a, t) && a.Read?
    ensures a.tx in t.txs && ReadGood(s.desk, s.time, t.txs[a.tx])
  {
    var tx := s.txs[a.tx];
    if tx.phase.Held? && tx.request.Edit? {
      if i :| i in s.desk.invitations && s.desk.invitations[i].profile == tx.phase.profile && Serial.Live(s.desk.invitations[i], s.time) {
        assert Claimable(s.desk.invitations[i], s.time);
      }
    }
  }

  // A step of others, or a later step of its own, keeps what the request is.
  lemma StepAdvances(s: State, a: Action, t: State, u: TxId)
    requires Step(s, a, t) && u in t.txs && !t.txs[u].phase.Asked?
    requires !(a.Lock? && a.tx == u && u in s.txs && s.txs[u].phase.Asked?)
    ensures u in s.txs && !s.txs[u].phase.Asked?
    ensures t.txs[u].request == s.txs[u].request && t.txs[u].since == s.txs[u].since && Locked(t.txs[u].phase) == Locked(s.txs[u].phase)
  {
  }

  lemma {:induction false} WasLetIn(states: seq<State>, actions: seq<Action>, n: nat, u: TxId) returns (k: nat)
    requires Run(states, actions) && n < |states| && u in states[n].txs && !states[n].txs[u].phase.Asked?
    ensures k < n && actions[k] == Lock(u) && LetIn(states[k].desk, states[n].txs[u])
  {
    assert n > 0 && Step(states[n - 1], actions[n - 1], states[n]);
    var s, a := states[n - 1], actions[n - 1];
    if a.Lock? && a.tx == u && u in s.txs && s.txs[u].phase.Asked? {
      RunKeepsInv(states, actions, n - 1);
      FirstLockLetsIn(s, a, states[n]);
      k := n - 1;
    } else {
      StepAdvances(s, a, states[n], u);
      k := WasLetIn(states, actions, n - 1, u);
    }
  }

  // A request that has read what it needed.
  predicate HasRead(phase: Phase) {
    phase.Cleared? || phase.Linking? || phase.Ready?
  }

  lemma ReadStays(s: State, a: Action, t: State, u: TxId)
    requires Step(s, a, t) && u in t.txs && HasRead(t.txs[u].phase) && !(a.Read? && a.tx == u)
    ensures u in s.txs && HasRead(s.txs[u].phase)
    ensures forall d, time :: ReadGood(d, time, s.txs[u]) ==> ReadGood(d, time, t.txs[u])
  {
  }

  lemma {:induction false} HadRead(states: seq<State>, actions: seq<Action>, n: nat, u: TxId) returns (k: nat)
    requires Run(states, actions) && n < |states| && u in states[n].txs && HasRead(states[n].txs[u].phase)
    ensures k < n && actions[k] == Read(u) && ReadGood(states[k].desk, states[k].time, states[n].txs[u])
  {
    assert n > 0 && Step(states[n - 1], actions[n - 1], states[n]);
    var s, a := states[n - 1], actions[n - 1];
    if a.Read? && a.tx == u {
      RunKeepsInv(states, actions, n - 1);
      ReadIsGood(s, a, states[n]);
      k := n - 1;
    } else {
      ReadStays(s, a, states[n], u);
      k := HadRead(states, actions, n - 1, u);
    }
  }

  // --- commits ----------------------------------------------------------------------------

  lemma InviteWrites(s: State, u: TxId)
    requires Inv(s) && Enabled(s, Commit(u)) && s.txs[u].phase.Closed?
    ensures Writes(s.desk, s.txs[u], Committed(s.desk, s.txs[u]))
  {
    assert Current(s.desk, s.time, s.txs[u]);
  }

  lemma ClaimWrites(s: State, u: TxId)
    requires Inv(s) && Enabled(s, Commit(u)) && s.txs[u].phase.Ready?
    ensures Writes(s.desk, s.txs[u], Committed(s.desk, s.txs[u]))
  {
    assert Current(s.desk, s.time, s.txs[u]);
    assert InvitationGood(s.desk.profiles, s.desk.invitations[s.txs[u].phase.invitation], s.time);
  }

  // Rows change by a commit, by a profile or an account that is added, and by
  // nothing else; the clock is moved by its own step only.
  lemma OnlyCommitsWrite(s: State, a: Action, t: State)
    requires Step(s, a, t)
    ensures t.time == (if a.Tick? then a.time else s.time) && s.time <= t.time
    ensures !a.AddProfile? ==> (a.Commit? || t.desk.profiles == s.desk.profiles)
    ensures a.AddProfile? ==> t.desk == s.desk.(profiles := s.desk.profiles[a.profile := a.row]) && a.profile !in s.desk.profiles
    ensures a.Register? ==> t.desk == s.desk.(users := s.desk.users[a.user := a.account]) && a.user !in s.desk.users
    ensures a.Tick? || a.Begin? || a.Lock? || a.Read? || a.Refuse? ==> t.desk == s.desk
    ensures a.Refuse? ==> a.tx !in t.txs && forall r | r in s.locks :: r in t.locks <==> s.locks[r] != a.tx
  {
  }

  // A committed request was let in on the row it locked first; an edit or claim
  // read rows afterwards that let it go on; and it wrote exactly its own change.
  lemma CommitWasAllowed(states: seq<State>, actions: seq<Action>, n: nat) returns (locked: nat, read: nat)
    requires Run(states, actions) && n < |actions| && actions[n].Commit?
    ensures actions[n].tx in states[n].txs
    ensures
      var u := actions[n].tx;
      var tx := states[n].txs[u];
      && locked < n && actions[locked] == Lock(u) && LetIn(states[locked].desk, tx)
      && (tx.request.Edit? || tx.request.Claim? ==>
            read < n && actions[read] == Read(u) && HasRead(tx.phase) && ReadGood(states[read].desk, states[read].time, tx))
      && Writes(states[n].desk, tx, states[n + 1].desk)
  {
    assert Step(states[n], actions[n], states[n + 1]);
    RunKeepsInv(states, actions, n);
    var u := actions[n].tx;
    locked := WasLetIn(states, actions, n, u);
    read := 0;
    if HasRead(states[n].txs[u].phase) {
      read := HadRead(states, actions, n, u);
    }
    if states[n].txs[u].phase.Closed? {
      InviteWrites(states[n], u);
    } else if states[n].txs[u].phase.Ready? {
      ClaimWrites(states[n], u);
    }
  }

  // --- requests that nothing gets between ------------------------------------------------

  // What the serial desk answers to the request.
  ghost function SerialAnswer(d: Desk, r: Request, now: Time): Answer {
    match r
    case Edit(ws, p, name, email) => Edited(d, ws, p, name, email, now)
    case Invite(ws, p, i, token) => Invited(d, ws, p, now, i, token)
    case Revoke(ws, i) => Revocation(d, ws, i, now)
    case Claim(token, passwordFits, named, newUser) => Claimed(d, token, now, passwordFits, named, newUser)
  }

  // The ids and the token that the server generates are new.
  predicate NewIds(d: Desk, r: Request) {
    && (r.Invite? ==> r.invitation !in d.invitations && !HasToken(d.invitations, r.token))
    && (r.Claim? ==> r.newUser !in d.users)
  }

  ghost predicate Idle(s: State, t: TxId, r: Request) {
    s.locks == map[] && t !in s.txs && NewIds(s.desk, r) && SerialAnswer(s.desk, r, s.time).reply.Ok?
  }

  // Every request that the serial desk grants can run to its commit, with the
  // serial effect, when no other one holds a lock.
  lemma SerialRuns(states: seq<State>, actions: seq<Action>, t: TxId, r: Request) returns (more: seq<State>, moreActions: seq<Action>)
    requires Run(states, actions) && Idle(states[|actions|], t, r)
    ensures Run(more, moreActions) && states <= more && actions <= moreActions
    ensures more[|moreActions|].desk == SerialAnswer(states[|actions|].desk, r, states[|actions|].time).desk
  {
    match r
    case Edit(_, _, _, _) => more, moreActions := EditRuns(states, actions, t, r);
    case Invite(_, _, _, _) => more, moreActions := InviteRuns(states, actions, t, r);
    case Revoke(_, _) => more, moreActions := RevokeRuns(states, actions, t, r);
    case Claim(_, _, _, _) => more, moreActions := ClaimRuns(states, actions, t, r);
  }

  lemma EditRuns(states: seq<State>, actions: seq<Action>, t: TxId, r: Request) returns (more: seq<State>, moreActions: seq<Action>)
    requires Run(states, actions) && r.Edit? && Idle(states[|actions|], t, r)
    ensures Run(more, moreActions) && states <= more && actions <= moreActions
    ensures more[|moreActions|].desk == SerialAnswer(states[|actions|].desk, r, states[|actions|].time).desk
  {
    more, moreActions := Grow(states, actions, Begin(t, r));
    more, moreActions := Grow(more, moreActions, Lock(t));
    more, moreActions := Grow(more, moreActions, Read(t));
    more, moreActions := Grow(more, moreActions, Commit(t));
  }

  lemma RevokeRuns(states: seq<State>, actions: seq<Action>, t: TxId, r: Request) returns (more: seq<State>, moreActions: seq<Action>)
    requires Run(states, actions) && r.Revoke? && Idle(states[|actions|], t, r)
    ensures Run(more, moreActions) && states <= more && actions <= moreActions
    ensures more[|moreActions|].desk == SerialAnswer(states[|actions|].desk, r, states[|actions|].time).desk
  {
    more, moreActions := Grow(states, actions, Begin(t, r));
    more, moreActions := Grow(more, moreActions, Lock(t));
    more, moreActions := Grow(more, moreActions, Commit(t));
  }

  // Withdrawing the one open invitation withdraws them all.
  lemma OneIsAll(invitations: Invitations, p: ProfileId, now: Time)
    requires OneOpenPerProfile(invitations)
    ensures
      var open := OpenOf(invitations, p);
      CloseOpen(invitations, p, now)
      == (if open.Some? then invitations[open.value := invitations[open.value].(revokedAt := Some(now))] else invitations)
  {
    var open := OpenOf(invitations, p);
    forall i | i in invitations && invitations[i].profile == p && Open(invitations[i]) ensures open == Some(i) {
    }
  }

  lemma InviteRuns(states: seq<State>, actions: seq<Action>, t: TxId, r: Request) returns (more: seq<State>, moreActions: seq<Action>)
    requires Run(states, actions) && r.Invite? && Idle(states[|actions|], t, r)
    ensures Run(more, moreActions) && states <= more && actions <= moreActions
    ensures more[|moreActions|].desk == SerialAnswer(states[|actions|].desk, r, states[|actions|].time).desk
  {
    var s := states[|actions|];
    RunKeepsInv(states, actions, |actions|);
    OneIsAll(s.desk.invitations, r.profile, s.time);
    more, moreActions := InviteStarts(states, actions, t, r.profile, r.invitation, r.token);
    var open := OpenOf(s.desk.invitations, r.profile);
    if open.Some? {
      more, moreActions := Grow(more, moreActions, Lock(t));
    } else {
      more, moreActions := Grow(more, moreActions, Read(t));
    }
    assert more[|moreActions|].desk == s.desk && more[|moreActions|].txs[t] == Tx(r, s.time, Closed(r.profile, s.time, open));
    more, moreActions := Grow(more, moreActions, Commit(t));
  }

  lemma ClaimRuns(states: seq<State>, actions: seq<Action>, t: TxId, r: Request) returns (more: seq<State>, moreActions: seq<Action>)
    requires Run(states, actions) && r.Claim? && Idle(states[|actions|], t, r)
    ensures Run(more, moreActions) && states <= more && actions <= moreActions
    ensures more[|moreActions|].desk == SerialAnswer(states[|actions|].desk, r, states[|actions|].time).desk
  {
    var s := states[|actions|];
    var i := ByToken(s.desk.invitations, r.token);
    var row := s.desk.invitations[i];
    more, moreActions := ClaimStarts(states, actions, t, r, i);
    more, moreActions := Grow(more, moreActions, Lock(t));
    var account := Account(s.desk, r, row.email).value;
    assert more[|moreActions|].desk == s.desk
        && more[|moreActions|].txs[t] == Tx(r, s.time, Ready(i, row.profile, account.0, account.1));
    ClaimIsSerial(s.desk, s.time, r, i);
    more, moreActions := Grow(more, moreActions, Commit(t));
  }

  lemma ClaimIsSerial(d: Desk, now: Time, r: Request, i: InvitationId)
    requires r.Claim? && NewIds(d, r) && SerialAnswer(d, r, now).reply.Ok? && HasToken(d.invitations, r.token) && i == ByToken(d.invitations, r.token)
    ensures
      var account := Account(d, r, d.invitations[i].email);
      && account.Some? && d.invitations[i].profile in d.profiles
      && var tx := Tx(r, now, Ready(i, d.invitations[i].profile, account.value.0, account.value.1));
         MayCommit(d, tx) && Committed(d, tx) == SerialAnswer(d, r, now).desk
  {
    var account := Account(d, r, d.invitations[i].email);
    if HasAddress(d.users, d.invitations[i].email) {
      assert d.users[account.value.0 := account.value.1] == d.users;
    }
  }
}

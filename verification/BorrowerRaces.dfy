/** Borrower requests that overlap: edits and invitations lock the profile first,
    claims and withdrawals the invitation.  A step takes one row lock, or is one
    read, or a commit; a lock is held until its request ends. */
module BorrowerRaces {
  import opened Common
  import opened Borrowers

  type TxId = nat

  datatype Resource = OfProfile(profile: ProfileId) | OfInvitation(invitation: InvitationId)

  datatype Request =
    | Edit(workspace: Workspace, profile: ProfileId, name: string, email: Option<string>)
    | Invite(workspace: Workspace, profile: ProfileId, invitation: InvitationId, token: string)
    | Revoke(workspace: Workspace, invitation: InvitationId)
    | Claim(token: string, passwordFits: bool, named: bool, newUser: UserId)

  datatype Phase =
    | Asked
    | Held(profile: ProfileId)                                               // edit, invite: the profile is locked and may be changed
    | Cleared(profile: ProfileId)                                            // edit: no active invitation stands against it
    | Closing(profile: ProfileId, now: Time, open: Option<InvitationId>)     // invite: the open invitation is known
    | Closed(profile: ProfileId, now: Time, open: Option<InvitationId>)      // invite: and locked
    | Taken(invitation: InvitationId, profile: ProfileId)                    // claim: the invitation is locked and good
    | Linking(invitation: InvitationId, profile: ProfileId, user: UserId, account: User)
    | Ready(invitation: InvitationId, profile: ProfileId, user: UserId, account: User)
    | Withdrawn(invitation: InvitationId)                                    // revoke: the invitation is locked

  // since is the clock when the request began.
  datatype Tx = Tx(request: Request, since: Time, phase: Phase)

  type Locks = map<Resource, TxId>
  type Txs = map<TxId, Tx>

  datatype State = State(desk: Desk, time: Time, locks: Locks, txs: Txs)

  datatype Action =
    | Tick(time: Time)
    | AddProfile(profile: ProfileId, row: Profile)
    | Register(user: UserId, account: User)
    | Begin(tx: TxId, request: Request)
    | Lock(tx: TxId)
    | Read(tx: TxId)
    | Commit(tx: TxId)
    | Refuse(tx: TxId) // a refusal, a failure, or the victim of a deadlock

  // --- requests, step by step ---------------------------------------------------------

  function Holds(phase: Phase): set<Resource> {
    match phase
    case Asked => {}
    case Held(p) => {OfProfile(p)}
    case Cleared(p) => {OfProfile(p)}
    case Closing(p, _, _) => {OfProfile(p)}
    case Closed(p, _, open) => {OfProfile(p)} + (if open.Some? then {OfInvitation(open.value)} else {})
    case Taken(i, _) => {OfInvitation(i)}
    case Linking(i, _, _, _) => {OfInvitation(i)}
    case Ready(i, p, _, _) => {OfInvitation(i), OfProfile(p)}
    case Withdrawn(i) => {OfInvitation(i)}
  }

  // The row that the request locks next.
  ghost function Wanted(d: Desk, tx: Tx): Option<Resource> {
    match tx.phase
    case Asked =>
      (match tx.request
       case Edit(_, p, _, _) => if p in d.profiles then Some(OfProfile(p)) else None
       case Invite(_, p, _, _) => if p in d.profiles then Some(OfProfile(p)) else None
       case Revoke(_, i) => if i in d.invitations then Some(OfInvitation(i)) else None
       case Claim(token, _, _, _) => if HasToken(d.invitations, token) then Some(OfInvitation(ByToken(d.invitations, token))) else None)
    case Closing(_, _, Some(i)) => Some(OfInvitation(i))
    case Linking(_, p, _, _) => Some(OfProfile(p))
    case _ => None
  }

  // The phase of a request that locked its first row; None refuses.
  ghost function AfterFirst(d: Desk, tx: Tx): Option<Phase>
    requires tx.phase.Asked? && Wanted(d, tx).Some?
  {
    match tx.request
    case Edit(ws, p, _, email) =>
      var row := d.profiles[p];
      if row.workspace == ws && (row.linkedUser.Some? ==> email == row.email) then Some(Held(p)) else None
    case Invite(ws, p, _, _) =>
      var row := d.profiles[p];
      if row.workspace == ws && row.linkedUser == None && row.email.Some? then Some(Held(p)) else None
    case Revoke(ws, i) => if d.invitations[i].workspace == ws then Some(Withdrawn(i)) else None
    case Claim(token, _, _, _) =>
      var i := ByToken(d.invitations, token);
      if Claimable(d.invitations[i], tx.since) then Some(Taken(i, d.invitations[i].profile)) else None
  }

  // The phase once the wanted row is locked.
  ghost function AfterLock(d: Desk, tx: Tx): Option<Phase>
    requires Wanted(d, tx).Some?
  {
    match tx.phase
    case Asked => AfterFirst(d, tx)
    case Closing(p, now, open) => Some(Closed(p, now, open))
    case Linking(i, p, user, account) => Some(Ready(i, p, user, account))
    case _ => None
  }

  ghost function OpenOf(invitations: Invitations, profile: ProfileId): (open: Option<InvitationId>)
    ensures open.Some? ==> open.value in invitations && invitations[open.value].profile == profile && Open(invitations[open.value])
    ensures open.None? ==> forall i | i in invitations && invitations[i].profile == profile :: !Open(invitations[i])
  {
    if i :| i in invitations && invitations[i].profile == profile && Open(invitations[i]) then Some(i) else None
  }

  // The account that a claim of this invitation links: the one with its address,
  // given its password, or a new one.
  ghost function Account(d: Desk, request: Request, email: string): Option<(UserId, User)>
    requires request.Claim?
  {
    if HasAddress(d.users, email) then
      var user := ByAddress(d.users, email);
      if d.users[user].hasPassword && request.passwordFits then Some((user, d.users[user])) else None
    else if request.named then Some((request.newUser, User(email, true))) else None
  }

  // The phase after the next read; None refuses, or there is nothing to read.
  ghost function AfterRead(d: Desk, time: Time, tx: Tx): Option<Phase> {
    match tx.phase
    case Held(p) =>
      (match tx.request
       case Edit(_, _, _, email) =>
         if p in d.profiles && (email == d.profiles[p].email || !ActiveInvite(d.invitations, p, time)) then Some(Cleared(p)) else None
       case Invite(_, _, _, _) => Some(Closing(p, time, OpenOf(d.invitations, p)))
       case _ => None)
    case Closing(p, now, None) => Some(Closed(p, now, None))
    case Taken(i, p) =>
      if !tx.request.Claim? || i !in d.invitations || p !in d.profiles || d.profiles[p].linkedUser.Some? then None
      else
        var account := Account(d, tx.request, d.invitations[i].email);
        if account.Some? then Some(Linking(i, p, account.value.0, account.value.1)) else None
    case _ => None
  }

  // What the request writes, with the constraints of the tables.
  predicate MayCommit(d: Desk, tx: Tx) {
    match tx.phase
    case Cleared(p) => tx.request.Edit? && p in d.profiles
    case Closed(p, _, open) =>
      && tx.request.Invite? && p in d.profiles && d.profiles[p].email.Some? && (open.Some? ==> open.value in d.invitations)
      && tx.request.invitation !in d.invitations && !HasToken(d.invitations, tx.request.token)
    case Ready(i, p, user, account) =>
      && tx.request.Claim? && i in d.invitations && p in d.profiles && d.invitations[i].profile == p
      && (if user in d.users then d.users[user] == account else !HasAddress(d.users, account.address))
      && !AlreadyLinked(d.profiles, d.profiles[p].workspace, user)
    case Withdrawn(i) => tx.request.Revoke? && i in d.invitations
    case _ => false
  }

  function Committed(d: Desk, tx: Tx): Desk
    requires MayCommit(d, tx)
  {
    match tx.phase
    case Cleared(p) => d.(profiles := d.profiles[p := d.profiles[p].(name := tx.request.name, email := tx.request.email)])
    case Closed(p, now, open) =>
      var closed := if open.Some? then d.invitations[open.value := d.invitations[open.value].(revokedAt := Some(now))] else d.invitations;
      var row := Invitation(tx.request.workspace, p, d.profiles[p].email.value, tx.request.token, now + VALIDITY, None, None);
      d.(invitations := closed[tx.request.invitation := row])
    case Ready(i, p, user, account) => Link(d, i, user, d.users[user := account], tx.since).desk
    case Withdrawn(i) => d.(invitations := d.invitations[i := d.invitations[i].(revokedAt := Some(tx.since))])
  }

  // --- the machine --------------------------------------------------------------------

  ghost predicate Enabled(s: State, a: Action) {
    match a
    case Tick(time) => s.time <= time
    case AddProfile(p, row) => p !in s.desk.profiles && row.linkedUser == None
    case Register(user, account) => user !in s.desk.users && !HasAddress(s.desk.users, account.address)
    case Begin(t, _) => t !in s.txs
    case Lock(t) =>
      && t in s.txs && Wanted(s.desk, s.txs[t]).Some? && Wanted(s.desk, s.txs[t]).value !in s.locks
      && AfterLock(s.desk, s.txs[t]).Some?
    case Read(t) => t in s.txs && AfterRead(s.desk, s.time, s.txs[t]).Some?
    case Commit(t) => t in s.txs && MayCommit(s.desk, s.txs[t])
    case Refuse(t) => t in s.txs
  }

  function Release(locks: Locks, t: TxId): Locks {
    map r | r in locks && locks[r] != t :: locks[r]
  }

  ghost function Apply(s: State, a: Action): State
    requires Enabled(s, a)
  {
    match a
    case Tick(time) => s.(time := time)
    case AddProfile(p, row) => s.(desk := s.desk.(profiles := s.desk.profiles[p := row]))
    case Register(user, account) => s.(desk := s.desk.(users := s.desk.users[user := account]))
    case Begin(t, request) => s.(txs := s.txs[t := Tx(request, s.time, Asked)])
    case Lock(t) =>
      s.(locks := s.locks[Wanted(s.desk, s.txs[t]).value := t],
         txs := s.txs[t := s.txs[t].(phase := AfterLock(s.desk, s.txs[t]).value)])
    case Read(t) => s.(txs := s.txs[t := s.txs[t].(phase := AfterRead(s.desk, s.time, s.txs[t]).value)])
    case Commit(t) => State(Committed(s.desk, s.txs[t]), s.time, Release(s.locks, t), s.txs - {t})
    case Refuse(t) => State(s.desk, s.time, Release(s.locks, t), s.txs - {t})
  }

  ghost predicate Step(s: State, a: Action, t: State) {
    Enabled(s, a) && t == Apply(s, a)
  }

  ghost predicate Init(s: State) {
    s.desk == Desk(map[], map[], map[], {}) && s.locks == map[] && s.txs == map[]
  }

  ghost predicate Run(states: seq<State>, actions: seq<Action>) {
    && |states| == |actions| + 1 && Init(states[0])
    && forall k | 0 <= k < |actions| :: Step(states[k], actions[k], states[k + 1])
  }

  // --- what every step keeps ------------------------------------------------------------

  // Exactly the rows that a running request has locked are locked, each by it.
  ghost predicate LocksInv(locks: Locks, txs: Txs) {
    && (forall r | r in locks :: locks[r] in txs && r in Holds(txs[locks[r]].phase))
    && (forall t, r | t in txs && r in Holds(txs[t].phase) :: r in locks && locks[r] == t)
  }

  predicate KnownLink(profile: Profile, users: Users, members: Members) {
    profile.linkedUser.Some? ==> profile.linkedUser.value in users && (profile.linkedUser.value, profile.workspace) in members
  }

  // All that serial requests keep but the email of a linked profile.
  ghost predicate Kept(d: Desk, time: Time) {
    && OneOpenPerProfile(d.invitations) && UniqueTokens(d.invitations) && UniqueAddresses(d.users) && LinkedOnce(d.profiles)
    && InvitationsGood(d.profiles, d.invitations, time)
    && forall p | p in d.profiles :: KnownLink(d.profiles[p], d.users, d.members)
  }

  // No open invitation of the profile but this one.
  ghost predicate OnlyOpen(invitations: Invitations, profile: ProfileId, open: Option<InvitationId>) {
    && (open.Some? ==> open.value in invitations && invitations[open.value].profile == profile)
    && forall i | i in invitations && invitations[i].profile == profile && Open(invitations[i]) :: open == Some(i)
  }

  predicate Invitable(d: Desk, tx: Tx, p: ProfileId) {
    tx.request.Invite? && p in d.profiles && d.profiles[p].workspace == tx.request.workspace && d.profiles[p].linkedUser == None
      && d.profiles[p].email.Some?
  }

  predicate Editable(d: Desk, tx: Tx, p: ProfileId) {
    tx.request.Edit? && p in d.profiles && (d.profiles[p].linkedUser.Some? ==> tx.request.email == d.profiles[p].email)
  }

  predicate GoodClaim(d: Desk, tx: Tx, i: InvitationId, p: ProfileId) {
    tx.request.Claim? && i in d.invitations && d.invitations[i].profile == p && Claimable(d.invitations[i], tx.since)
  }

  // What a request has read still holds.
  ghost predicate Current(d: Desk, time: Time, tx: Tx) {
    tx.since <= time &&
    match tx.phase
    case Asked => true
    case Held(p) => Invitable(d, tx, p) || Editable(d, tx, p)
    case Cleared(p) => Editable(d, tx, p) && (tx.request.email != d.profiles[p].email ==> !ActiveInvite(d.invitations, p, time))
    case Closing(p, now, open) => Invitable(d, tx, p) && now <= time && OnlyOpen(d.invitations, p, open)
    case Closed(p, now, open) => Invitable(d, tx, p) && now <= time && OnlyOpen(d.invitations, p, open)
    case Taken(i, p) => GoodClaim(d, tx, i, p)
    case Linking(i, p, _, account) => GoodClaim(d, tx, i, p) && p in d.profiles && account.address == d.invitations[i].email
    case Ready(i, p, _, account) => GoodClaim(d, tx, i, p) && p in d.profiles && account.address == d.invitations[i].email
    case Withdrawn(i) => tx.request.Revoke? && i in d.invitations
  }

  ghost predicate AllCurrent(d: Desk, time: Time, txs: Txs) {
    forall t | t in txs :: Current(d, time, txs[t])
  }

  ghost predicate Inv(s: State) {
    LocksInv(s.locks, s.txs) && Kept(s.desk, s.time) && AllCurrent(s.desk, s.time, s.txs)
  }

  // Rows outside the locked ones stay, and nothing opens an invitation of another
  // profile.
  ghost predicate WithinLocks(d: Desk, after: Desk, locked: set<Resource>) {
    && (forall p | p in d.profiles :: p in after.profiles && (OfProfile(p) !in locked ==> after.profiles[p] == d.profiles[p]))
    && (forall i | i in d.invitations ::
          && i in after.invitations && after.invitations[i].profile == d.invitations[i].profile
          && (OfInvitation(i) !in locked ==> after.invitations[i] == d.invitations[i]))
    && (forall i | i in after.invitations && Open(after.invitations[i]) && OfProfile(after.invitations[i].profile) !in locked ::
          i in d.invitations && after.invitations[i] == d.invitations[i])
  }

  lemma StaysCurrent(d: Desk, time: Time, after: Desk, later: Time, locked: set<Resource>, tx: Tx)
    requires Current(d, time, tx) && WithinLocks(d, after, locked) && time <= later && Holds(tx.phase) !! locked
    ensures Current(after, later, tx)
  {
  }

  // --- commits --------------------------------------------------------------------------

  lemma CommitWithin(d: Desk, time: Time, tx: Tx)
    requires Current(d, time, tx) && MayCommit(d, tx) && Kept(d, time)
    ensures WithinLocks(d, Committed(d, tx), Holds(tx.phase))
  {
    match tx.phase
    case Closed(p, now, open) => InviteWithin(d, time, tx);
    case Ready(i, p, user, account) =>
    case _ =>
  }

  lemma InviteWithin(d: Desk, time: Time, tx: Tx)
    requires Current(d, time, tx) && MayCommit(d, tx) && tx.phase.Closed?
    ensures WithinLocks(d, Committed(d, tx), Holds(tx.phase))
  {
  }

  lemma EditKeepsRows(d: Desk, time: Time, tx: Tx)
    requires Current(d, time, tx) && MayCommit(d, tx) && Kept(d, time) && tx.phase.Cleared?
    ensures Kept(Committed(d, tx), time)
  {
    var after := Committed(d, tx);
    forall i | i in after.invitations ensures InvitationGood(after.profiles, after.invitations[i], time) {
      assert InvitationGood(d.profiles, d.invitations[i], time);
    }
  }

  lemma InviteKeepsRows(d: Desk, time: Time, tx: Tx)
    requires Current(d, time, tx) && MayCommit(d, tx) && Kept(d, time) && tx.phase.Closed?
    ensures Kept(Committed(d, tx), time)
  {
    var p, now, open := tx.phase.profile, tx.phase.now, tx.phase.open;
    var closed := if open.Some? then d.invitations[open.value := d.invitations[open.value].(revokedAt := Some(now))] else d.invitations;
    var after := Committed(d, tx);
    assert !HasToken(closed, tx.request.token) by {
      assert forall i | i in closed :: closed[i].token == d.invitations[i].token;
    }
    AddInvitation(closed, tx.request.invitation, after.invitations[tx.request.invitation]);
    forall i | i in after.invitations ensures InvitationGood(after.profiles, after.invitations[i], time) {
      if i in d.invitations {
        assert InvitationGood(d.profiles, d.invitations[i], time);
      }
    }
  }

  lemma ClaimKeepsRows(d: Desk, time: Time, tx: Tx)
    requires Current(d, time, tx) && MayCommit(d, tx) && Kept(d, time) && tx.phase.Ready?
    ensures Kept(Committed(d, tx), time)
  {
    var after := Committed(d, tx);
    assert InvitationGood(d.profiles, d.invitations[tx.phase.invitation], time);
    forall i | i in after.invitations ensures InvitationGood(after.profiles, after.invitations[i], time) {
      assert InvitationGood(d.profiles, d.invitations[i], time);
    }
    forall p | p in after.profiles ensures KnownLink(after.profiles[p], after.users, after.members) {
      assert KnownLink(d.profiles[p], d.users, d.members);
    }
  }

  lemma RevokeKeepsRows(d: Desk, time: Time, tx: Tx)
    requires Current(d, time, tx) && MayCommit(d, tx) && Kept(d, time) && tx.phase.Withdrawn?
    ensures Kept(Committed(d, tx), time)
  {
    var after := Committed(d, tx);
    forall i | i in after.invitations ensures InvitationGood(after.profiles, after.invitations[i], time) {
      assert InvitationGood(d.profiles, d.invitations[i], time);
    }
  }

  lemma CommitKeepsRows(d: Desk, time: Time, tx: Tx)
    requires Current(d, time, tx) && MayCommit(d, tx) && Kept(d, time)
    ensures Kept(Committed(d, tx), time)
  {
    match tx.phase
    case Cleared(_) => EditKeepsRows(d, time, tx);
    case Closed(_, _, _) => InviteKeepsRows(d, time, tx);
    case Ready(_, _, _, _) => ClaimKeepsRows(d, time, tx);
    case Withdrawn(_) => RevokeKeepsRows(d, time, tx);
    case _ =>
  }

  // --- steps ----------------------------------------------------------------------------

  lemma LockMeans(d: Desk, time: Time, tx: Tx)
    requires Current(d, time, tx) && Wanted(d, tx).Some? && AfterLock(d, tx).Some?
    ensures
      var next := AfterLock(d, tx).value;
      && Current(d, time, tx.(phase := next))
      && Holds(next) == Holds(tx.phase) + {Wanted(d, tx).value}
  {
  }

  lemma ReadMeans(d: Desk, time: Time, tx: Tx)
    requires Kept(d, time) && Current(d, time, tx) && AfterRead(d, time, tx).Some?
    ensures
      var next := AfterRead(d, time, tx).value;
      Current(d, time, tx.(phase := next)) && Holds(next) == Holds(tx.phase)
  {
    var next := AfterRead(d, time, tx).value;
    if next.Closing? {
      forall i | i in d.invitations && d.invitations[i].profile == next.profile && Open(d.invitations[i]) ensures next.open == Some(i) {
      }
    }
  }

  lemma ReleaseKeeps(locks: Locks, txs: Txs, t: TxId)
    requires LocksInv(locks, txs) && t in txs
    ensures LocksInv(Release(locks, t), txs - {t})
  {
  }

  lemma OthersDisjoint(locks: Locks, txs: Txs, t: TxId, u: TxId)
    requires LocksInv(locks, txs) && t in txs && u in txs && t != u
    ensures Holds(txs[t].phase) !! Holds(txs[u].phase)
  {
    forall r | r in Holds(txs[t].phase) ensures r !in Holds(txs[u].phase) {
      assert locks[r] == t;
    }
  }

  lemma OthersStay(s: State, after: Desk, later: Time, t: TxId)
    requires Inv(s) && t in s.txs && WithinLocks(s.desk, after, Holds(s.txs[t].phase)) && s.time <= later
    ensures AllCurrent(after, later, s.txs - {t})
  {
    forall u | u in s.txs && u != t ensures Current(after, later, s.txs[u]) {
      OthersDisjoint(s.locks, s.txs, t, u);
      StaysCurrent(s.desk, s.time, after, later, Holds(s.txs[t].phase), s.txs[u]);
    }
  }

  lemma AllStay(s: State, after: Desk, later: Time)
    requires Inv(s) && WithinLocks(s.desk, after, {}) && s.time <= later
    ensures AllCurrent(after, later, s.txs)
  {
    forall u | u in s.txs ensures Current(after, later, s.txs[u]) {
      StaysCurrent(s.desk, s.time, after, later, {}, s.txs[u]);
    }
  }

  lemma TickKeeps(s: State, time: Time)
    requires Inv(s) && s.time <= time
    ensures Inv(s.(time := time))
  {
    AllStay(s, s.desk, time);
  }

  lemma AddKeepsInv(s: State, p: ProfileId, row: Profile)
    requires Inv(s) && p !in s.desk.profiles && row.linkedUser == None
    ensures Inv(s.(desk := s.desk.(profiles := s.desk.profiles[p := row])))
  {
    var after := s.desk.(profiles := s.desk.profiles[p := row]);
    AllStay(s, after, s.time);
    forall i | i in after.invitations ensures InvitationGood(after.profiles, after.invitations[i], s.time) {
      assert InvitationGood(s.desk.profiles, s.desk.invitations[i], s.time);
    }
  }

  lemma RegisterKeepsInv(s: State, user: UserId, account: User)
    requires Inv(s) && user !in s.desk.users && !HasAddress(s.desk.users, account.address)
    ensures Inv(s.(desk := s.desk.(users := s.desk.users[user := account])))
  {
    AllStay(s, s.desk.(users := s.desk.users[user := account]), s.time);
  }

  lemma LockKeeps(s: State, t: TxId)
    requires Inv(s) && Enabled(s, Lock(t))
    ensures Inv(Apply(s, Lock(t)))
  {
    LockMeans(s.desk, s.time, s.txs[t]);
  }

  lemma SameLocks(locks: Locks, txs: Txs, t: TxId, next: Phase)
    requires LocksInv(locks, txs) && t in txs && Holds(next) == Holds(txs[t].phase)
    ensures LocksInv(locks, txs[t := txs[t].(phase := next)])
  {
    var after := txs[t := txs[t].(phase := next)];
    forall r | r in locks ensures locks[r] in after && r in Holds(after[locks[r]].phase) {
      assert r in Holds(txs[locks[r]].phase);
    }
    forall u, r | u in after && r in Holds(after[u].phase) ensures r in locks && locks[r] == u {
      assert r in Holds(txs[u].phase);
    }
  }

  lemma ReadKeeps(s: State, t: TxId)
    requires Inv(s) && Enabled(s, Read(t))
    ensures Inv(Apply(s, Read(t)))
  {
    ReadMeans(s.desk, s.time, s.txs[t]);
    SameLocks(s.locks, s.txs, t, AfterRead(s.desk, s.time, s.txs[t]).value);
  }

  lemma BeginLocks(locks: Locks, txs: Txs, t: TxId, tx: Tx)
    requires LocksInv(locks, txs) && t !in txs && tx.phase.Asked?
    ensures LocksInv(locks, txs[t := tx])
  {
    var after := txs[t := tx];
    forall r | r in locks ensures locks[r] in after && r in Holds(after[locks[r]].phase) {
      assert locks[r] in txs && locks[r] != t;
    }
    forall u, r | u in after && r in Holds(after[u].phase) ensures r in locks && locks[r] == u {
      assert u != t && r in Holds(txs[u].phase);
    }
  }

  lemma BeginKeeps(s: State, t: TxId, request: Request)
    requires Inv(s) && t !in s.txs
    ensures Inv(s.(txs := s.txs[t := Tx(request, s.time, Asked)]))
  {
    BeginLocks(s.locks, s.txs, t, Tx(request, s.time, Asked));
  }

  lemma CommitKeeps(s: State, t: TxId)
    requires Inv(s) && Enabled(s, Commit(t))
    ensures Inv(Apply(s, Commit(t)))
  {
    CommitWithin(s.desk, s.time, s.txs[t]);
    CommitKeepsRows(s.desk, s.time, s.txs[t]);
    OthersStay(s, Committed(s.desk, s.txs[t]), s.time, t);
    ReleaseKeeps(s.locks, s.txs, t);
  }

  lemma RefuseKeeps(s: State, t: TxId)
    requires Inv(s) && t in s.txs
    ensures Inv(State(s.desk, s.time, Release(s.locks, t), s.txs - {t}))
  {
    ReleaseKeeps(s.locks, s.txs, t);
  }

  // Locks, rows and what requests have read agree after every step.
  lemma StepKeepsInv(s: State, a: Action, t: State)
    requires Inv(s) && Step(s, a, t)
    ensures Inv(t)
  {
    match a
    case Tick(time) => TickKeeps(s, time);
    case AddProfile(p, row) => AddKeepsInv(s, p, row);
    case Register(user, account) => RegisterKeepsInv(s, user, account);
    case Begin(tx, request) => BeginKeeps(s, tx, request);
    case Lock(tx) => LockKeeps(s, tx);
    case Read(tx) => ReadKeeps(s, tx);
    case Commit(tx) => CommitKeeps(s, tx);
    case Refuse(tx) => RefuseKeeps(s, tx);
  }

  lemma RunKeepsInv(states: seq<State>, actions: seq<Action>, n: nat)
    requires Run(states, actions) && n < |states|
    ensures Inv(states[n])
  {
    var kept := seq(|states|, k requires 0 <= k < |states| => Inv(states[k]));
    forall k | 0 <= k < n && kept[k] ensures kept[k + 1] {
      StepKeepsInv(states[k], actions[k], states[k + 1]);
    }
    Along(kept, 0, n);
  }

  // --- deadlock ---------------------------------------------------------------------------

  // The request waits for a row that one of these has locked.
  ghost predicate WaitsFor(s: State, t: TxId, others: set<TxId>) {
    && t in s.txs && Wanted(s.desk, s.txs[t]).Some?
    && Wanted(s.desk, s.txs[t]).value in s.locks && s.locks[Wanted(s.desk, s.txs[t]).value] in others
  }

  ghost predicate Deadlocked(s: State, D: set<TxId>) {
    D != {} && forall t | t in D :: WaitsFor(s, t, D)
  }

  // A claim has locked the open invitation of a profile and goes on to the profile;
  // an invitation of the same profile has locked it and goes on to close that one.
  ghost predicate Crossed(s: State, claim: TxId, invite: TxId) {
    && claim in s.txs && s.txs[claim].phase.Linking?
    && invite in s.txs && s.txs[invite].phase.Closing?
    && s.txs[claim].phase.profile == s.txs[invite].phase.profile
    && s.txs[invite].phase.open == Some(s.txs[claim].phase.invitation)
  }

  lemma CrossedIsDeadlocked(s: State, claim: TxId, invite: TxId)
    requires Inv(s) && Crossed(s, claim, invite)
    ensures Deadlocked(s, {claim, invite})
  {
    assert OfInvitation(s.txs[claim].phase.invitation) in Holds(s.txs[claim].phase);
    assert OfProfile(s.txs[invite].phase.profile) in Holds(s.txs[invite].phase);
  }

  // A request that holds a lock and waits is a claim or an invitation on its last lock.
  lemma WaitingHolder(s: State, r: Resource, D: set<TxId>)
    requires Inv(s) && Deadlocked(s, D) && r in s.locks && s.locks[r] in D
    ensures
      var u := s.locks[r];
      && u in s.txs && r in Holds(s.txs[u].phase)
      && (r.OfInvitation? ==> s.txs[u].phase.Linking? && s.txs[u].phase.invitation == r.invitation)
      && (r.OfProfile? ==> s.txs[u].phase.Closing? && s.txs[u].phase.profile == r.profile)
  {
    assert WaitsFor(s, s.locks[r], D);
  }

  lemma InvitationAwaited(s: State, i: InvitationId, D: set<TxId>) returns (claim: TxId, invite: TxId)
    requires Inv(s) && Deadlocked(s, D) && OfInvitation(i) in s.locks && s.locks[OfInvitation(i)] in D
    ensures claim in D && invite in D && Crossed(s, claim, invite)
  {
    WaitingHolder(s, OfInvitation(i), D);
    var first := s.locks[OfInvitation(i)];
    assert WaitsFor(s, first, D);
    var p := s.txs[first].phase.profile;
    WaitingHolder(s, OfProfile(p), D);
    invite := s.locks[OfProfile(p)];
    assert WaitsFor(s, invite, D);
    var j := s.txs[invite].phase.open.value;
    WaitingHolder(s, OfInvitation(j), D);
    claim := s.locks[OfInvitation(j)];
    assert Current(s.desk, s.time, s.txs[claim]) && Current(s.desk, s.time, s.txs[invite]);
  }

  lemma DeadlockIsCrossed(s: State, D: set<TxId>) returns (claim: TxId, invite: TxId)
    requires Inv(s) && Deadlocked(s, D)
    ensures claim in D && invite in D && Crossed(s, claim, invite)
  {
    var t :| t in D;
    assert WaitsFor(s, t, D);
    var r := Wanted(s.desk, s.txs[t]).value;
    WaitingHolder(s, r, D);
    var u := s.locks[r];
    assert WaitsFor(s, u, D);
    var q := Wanted(s.desk, s.txs[u]).value;
    if r.OfInvitation? {
      claim, invite := InvitationAwaited(s, r.invitation, D);
    } else {
      claim, invite := InvitationAwaited(s, q.invitation, D);
    }
  }

  // In every reachable state some requests are deadlocked exactly when a claim and
  // an invitation of the same profile have crossed.
  lemma DeadlockExactly(states: seq<State>, actions: seq<Action>, n: nat)
    requires Run(states, actions) && n < |states|
    ensures (exists D :: Deadlocked(states[n], D)) <==> exists claim, invite :: Crossed(states[n], claim, invite)
  {
    RunKeepsInv(states, actions, n);
    if D :| Deadlocked(states[n], D) {
      var claim, invite := DeadlockIsCrossed(states[n], D);
    }
    if claim, invite :| Crossed(states[n], claim, invite) {
      CrossedIsDeadlocked(states[n], claim, invite);
    }
  }

  // --- the email of a link ------------------------------------------------------------------

  // The email that the step writes to the profile by committing an edit.
  predicate Edits(s: State, a: Action, p: ProfileId) {
    a.Commit? && a.tx in s.txs && s.txs[a.tx].phase == Cleared(p) && s.txs[a.tx].request.Edit?
  }

  // The email of the last edit of the profile that was committed in between.
  function LastEdit(states: seq<State>, actions: seq<Action>, first: nat, last: nat, p: ProfileId): Option<Option<string>>
    requires first <= last <= |actions| && |states| == |actions| + 1
  {
    if first == last then None
    else if Edits(states[last - 1], actions[last - 1], p) then Some(states[last - 1].txs[actions[last - 1].tx].request.email)
    else LastEdit(states, actions, first, last - 1, p)
  }

  lemma StepEmail(s: State, a: Action, t: State, p: ProfileId)
    requires Step(s, a, t) && p in s.desk.profiles
    ensures p in t.desk.profiles
    ensures t.desk.profiles[p].email == if Edits(s, a, p) then s.txs[a.tx].request.email else s.desk.profiles[p].email
  {
  }

  lemma {:induction false} EmailIsLastEdit(states: seq<State>, actions: seq<Action>, first: nat, last: nat, p: ProfileId)
    requires Run(states, actions) && first <= last <= |actions| && p in states[first].desk.profiles
    ensures p in states[last].desk.profiles
    ensures
      var edit := LastEdit(states, actions, first, last, p);
      states[last].desk.profiles[p].email == if edit.Some? then edit.value else states[first].desk.profiles[p].email
  {
    if first < last {
      EmailIsLastEdit(states, actions, first, last - 1, p);
      StepEmail(states[last - 1], actions[last - 1], states[last], p);
    }
  }

  // An invitation stays the same but for its end.
  ghost predicate Stays(before: Invitations, after: Invitations) {
    forall i | i in before ::
      && i in after && after[i].profile == before[i].profile && after[i].workspace == before[i].workspace
      && after[i].email == before[i].email && after[i].expiresAt == before[i].expiresAt && (Open(after[i]) ==> Open(before[i]))
  }

  lemma CommitStays(d: Desk, time: Time, tx: Tx)
    requires Current(d, time, tx) && MayCommit(d, tx)
    ensures Stays(d.invitations, Committed(d, tx).invitations)
  {
  }

  lemma StayAt(states: seq<State>, actions: seq<Action>, k: nat)
    requires Run(states, actions) && k < |actions|
    ensures Stays(states[k].desk.invitations, states[k + 1].desk.invitations)
  {
    RunKeepsInv(states, actions, k);
    assert Step(states[k], actions[k], states[k + 1]);
    if actions[k].Commit? {
      CommitStays(states[k].desk, states[k].time, states[k].txs[actions[k].tx]);
    }
  }

  lemma {:induction false} StaysOn(invitations: seq<Invitations>, first: nat, last: nat)
    requires first <= last < |invitations|
    requires forall k | first <= k < last :: Stays(invitations[k], invitations[k + 1])
    ensures Stays(invitations[first], invitations[last])
  {
    if first < last {
      StaysOn(invitations, first, last - 1);
      assert Stays(invitations[last - 1], invitations[last - 1 + 1]);
    }
  }

  lemma StaysAlong(states: seq<State>, actions: seq<Action>, first: nat, last: nat)
    requires Run(states, actions) && first <= last <= |actions|
    ensures Stays(states[first].desk.invitations, states[last].desk.invitations)
  {
    var invitations := seq(|states|, k requires 0 <= k < |states| => states[k].desk.invitations);
    forall k | first <= k < last ensures Stays(invitations[k], invitations[k + 1]) {
      StayAt(states, actions, k);
    }
    StaysOn(invitations, first, last);
  }

  // While an invitation is open, an edit to an email other than its own commits
  // only once it has expired.
  lemma EditAfterExpiry(s: State, a: Action, i: InvitationId)
    requires Inv(s) && i in s.desk.invitations && Open(s.desk.invitations[i]) && Edits(s, a, s.desk.invitations[i].profile)
    requires s.txs[a.tx].request.email != Some(s.desk.invitations[i].email)
    ensures s.desk.invitations[i].expiresAt <= s.time
  {
    var p := s.desk.invitations[i].profile;
    assert Current(s.desk, s.time, s.txs[a.tx]);
    assert InvitationGood(s.desk.profiles, s.desk.invitations[i], s.time);
    assert Claimable(s.desk.invitations[i], s.time) ==> ActiveInvite(s.desk.invitations, p, s.time);
  }

  // A claim that commits leaves a link with its user's email exactly unless, since
  // a moment at which the invitation could be claimed, the last committed edit of
  // the profile was to another email; and such edits commit only after the
  // invitation has expired.
  lemma LinkEmailExactly(states: seq<State>, actions: seq<Action>, first: nat, n: nat, i: InvitationId)
    requires Run(states, actions) && first <= n < |actions| && actions[n].Commit?
    requires actions[n].tx in states[n].txs && states[n].txs[actions[n].tx].phase.Ready? && states[n].txs[actions[n].tx].phase.invitation == i
    requires i in states[first].desk.invitations && Claimable(states[first].desk.invitations[i], states[first].time)
    ensures
      var row, after := states[first].desk.invitations[i], states[n + 1].desk;
      && row.profile in after.profiles && after.profiles[row.profile].linkedUser.Some?
      && (LinkGood(after.profiles[row.profile], after.users, after.members) <==>
            LastEdit(states, actions, first, n, row.profile) in {None, Some(Some(row.email))})
      && forall k | first <= k < n && Edits(states[k], actions[k], row.profile)
                    && states[k].txs[actions[k].tx].request.email != Some(row.email) :: row.expiresAt <= states[k].time
  {
    var row := states[first].desk.invitations[i];
    RunKeepsInv(states, actions, first);
    assert InvitationGood(states[first].desk.profiles, row, states[first].time);
    EmailIsLastEdit(states, actions, first, n, row.profile);
    StaysAlong(states, actions, first, n);
    RunKeepsInv(states, actions, n);
    assert Step(states[n], actions[n], states[n + 1]);
    ClaimLinks(states[n], actions[n].tx, states[n + 1]);
    forall k | first <= k < n && Edits(states[k], actions[k], row.profile) && states[k].txs[actions[k].tx].request.email != Some(row.email)
      ensures row.expiresAt <= states[k].time
    {
      RunKeepsInv(states, actions, k);
      StaysAlong(states, actions, first, k);
      StaysAlong(states, actions, k, n);
      EditAfterExpiry(states[k], actions[k], i);
    }
  }

  lemma ClaimLinks(s: State, t: TxId, after: State)
    requires Inv(s) && Step(s, Commit(t), after) && s.txs[t].phase.Ready?
    ensures
      var i, p := s.txs[t].phase.invitation, s.txs[t].phase.profile;
      && i in s.desk.invitations && Open(s.desk.invitations[i]) && s.desk.invitations[i].profile == p && p in s.desk.profiles
      && p in after.desk.profiles && after.desk.profiles[p].linkedUser.Some? && after.desk.profiles[p].email == s.desk.profiles[p].email
      && (LinkGood(after.desk.profiles[p], after.desk.users, after.desk.members)
          <==> s.desk.profiles[p].email == Some(s.desk.invitations[i].email))
  {
    assert Current(s.desk, s.time, s.txs[t]);
    var i := s.txs[t].phase.invitation;
    assert InvitationGood(s.desk.profiles, s.desk.invitations[i], s.time);
  }

  // --- runs -----------------------------------------------------------------------------

  lemma Grow(states: seq<State>, actions: seq<Action>, a: Action) returns (more: seq<State>, moreActions: seq<Action>)
    requires Run(states, actions) && Enabled(states[|actions|], a)
    ensures Run(more, moreActions) && more == states + [Apply(states[|actions|], a)] && moreActions == actions + [a]
    ensures more[|moreActions|] == Apply(states[|actions|], a)
  {
    more, moreActions := states + [Apply(states[|actions|], a)], actions + [a];
  }

  lemma TokenNames(invitations: Invitations, i: InvitationId)
    requires UniqueTokens(invitations) && i in invitations
    ensures HasToken(invitations, invitations[i].token) && ByToken(invitations, invitations[i].token) == i
  {
  }

  // A request for this invitation that may be answered with an account.
  ghost predicate CanClaim(s: State, request: Request, i: InvitationId) {
    && i in s.desk.invitations && Claimable(s.desk.invitations[i], s.time)
    && request.Claim? && request.token == s.desk.invitations[i].token
    && Account(s.desk, request, s.desk.invitations[i].email).Some?
  }

  // A claim of a free invitation gets as far as the profile.
  lemma ClaimStarts(states: seq<State>, actions: seq<Action>, c: TxId, request: Request, i: InvitationId)
    returns (more: seq<State>, moreActions: seq<Action>)
    requires Run(states, actions)
    requires var s := states[|actions|]; CanClaim(s, request, i) && c !in s.txs && OfInvitation(i) !in s.locks
    ensures Run(more, moreActions) && |actions| < |moreActions| && states <= more && actions <= moreActions
    ensures
      var s := states[|actions|];
      var account := Account(s.desk, request, s.desk.invitations[i].email).value;
      more[|moreActions|] == s.(
        locks := s.locks[OfInvitation(i) := c],
        txs := s.txs[c := Tx(request, s.time, Linking(i, s.desk.invitations[i].profile, account.0, account.1))])
  {
    var s := states[|actions|];
    RunKeepsInv(states, actions, |actions|);
    TokenNames(s.desk.invitations, i);
    assert InvitationGood(s.desk.profiles, s.desk.invitations[i], s.time);
    more, moreActions := Grow(states, actions, Begin(c, request));
    more, moreActions := Grow(more, moreActions, Lock(c));
    more, moreActions := Grow(more, moreActions, Read(c));
  }

  // An invitation of a free profile gets as far as the open one.
  lemma InviteStarts(states: seq<State>, actions: seq<Action>, v: TxId, p: ProfileId, next: InvitationId, token: string)
    returns (more: seq<State>, moreActions: seq<Action>)
    requires Run(states, actions)
    requires
      var s := states[|actions|];
      v !in s.txs && p in s.desk.profiles && OfProfile(p) !in s.locks && s.desk.profiles[p].linkedUser == None && s.desk.profiles[p].email.Some?
    ensures Run(more, moreActions) && |actions| < |moreActions| && states <= more && actions <= moreActions
    ensures
      var s := states[|actions|];
      more[|moreActions|] == s.(
        locks := s.locks[OfProfile(p) := v],
        txs := s.txs[v := Tx(Invite(s.desk.profiles[p].workspace, p, next, token), s.time, Closing(p, s.time, OpenOf(s.desk.invitations, p)))])
  {
    var s := states[|actions|];
    more, moreActions := Grow(states, actions, Begin(v, Invite(s.desk.profiles[p].workspace, p, next, token)));
    more, moreActions := Grow(more, moreActions, Lock(v));
    more, moreActions := Grow(more, moreActions, Read(v));
  }

  // From every reachable state in which an invitation can be claimed and neither
  // its row nor its profile is locked, a run leads to a deadlock.
  lemma EveryClaimCanDeadlock(states: seq<State>, actions: seq<Action>, c: TxId, request: Request, v: TxId, i: InvitationId,
                              next: InvitationId, token: string)
    returns (more: seq<State>, moreActions: seq<Action>)
    requires Run(states, actions)
    requires
      var s := states[|actions|];
      CanClaim(s, request, i) && c !in s.txs && v !in s.txs && c != v
      && OfInvitation(i) !in s.locks && OfProfile(s.desk.invitations[i].profile) !in s.locks
    ensures Run(more, moreActions) && states <= more && actions <= moreActions
    ensures Crossed(more[|moreActions|], c, v) && Deadlocked(more[|moreActions|], {c, v})
  {
    var s := states[|actions|];
    var p := s.desk.invitations[i].profile;
    RunKeepsInv(states, actions, |actions|);
    assert InvitationGood(s.desk.profiles, s.desk.invitations[i], s.time);
    more, moreActions := ClaimStarts(states, actions, c, request, i);
    more, moreActions := InviteStarts(more, moreActions, v, p, next, token);
    assert OpenOf(s.desk.invitations, p) == Some(i);
    RunKeepsInv(more, moreActions, |moreActions|);
    CrossedIsDeadlocked(more[|moreActions|], c, v);
  }

  // An edit of a free, unlinked profile without an active invitation commits.
  lemma EditPasses(states: seq<State>, actions: seq<Action>, e: TxId, p: ProfileId, name: string, email: Option<string>)
    returns (more: seq<State>, moreActions: seq<Action>)
    requires Run(states, actions)
    requires
      var s := states[|actions|];
      e !in s.txs && e !in s.locks.Values && p in s.desk.profiles && OfProfile(p) !in s.locks && s.desk.profiles[p].linkedUser == None
      && !ActiveInvite(s.desk.invitations, p, s.time)
    ensures Run(more, moreActions) && |actions| < |moreActions| && states <= more && actions <= moreActions
    ensures
      var s := states[|actions|];
      more[|moreActions|] == s.(desk := s.desk.(profiles := s.desk.profiles[p := s.desk.profiles[p].(name := name, email := email)]))
  {
    var s := states[|actions|];
    more, moreActions := Grow(states, actions, Begin(e, Edit(s.desk.profiles[p].workspace, p, name, email)));
    more, moreActions := Grow(more, moreActions, Lock(e));
    more, moreActions := Grow(more, moreActions, Read(e));
    more, moreActions := Grow(more, moreActions, Commit(e));
    assert Release(s.locks[OfProfile(p) := e], e) == s.locks by {
      assert forall r | r in s.locks :: s.locks[r] in s.locks.Values;
    }
    var last := more[|moreActions|];
    assert last.locks == s.locks && last.txs == s.txs;
  }

  // A claim that has only its profile to lock commits.
  lemma ClaimEnds(states: seq<State>, actions: seq<Action>, c: TxId)
    returns (more: seq<State>, moreActions: seq<Action>)
    requires Run(states, actions)
    requires
      var s := states[|actions|];
      c in s.txs && s.txs[c].phase.Linking? && s.txs[c].phase.profile in s.desk.profiles
      && OfProfile(s.txs[c].phase.profile) !in s.locks
      && MayCommit(s.desk, s.txs[c].(phase := AfterLock(s.desk, s.txs[c]).value))
    ensures Run(more, moreActions) && |actions| < |moreActions| && states <= more && actions <= moreActions
    ensures more[|moreActions|].desk == Committed(states[|actions|].desk, states[|actions|].txs[c].(phase := AfterLock(states[|actions|].desk, states[|actions|].txs[c]).value))
  {
    more, moreActions := Grow(states, actions, Lock(c));
    more, moreActions := Grow(more, moreActions, Commit(c));
  }

  // From every such state a run also leads to a link whose email is not its
  // user's: the claim is let in, the invitation expires, an edit to another email
  // commits, and so does the claim.
  lemma EveryClaimCanSlip(states: seq<State>, actions: seq<Action>, c: TxId, request: Request, e: TxId, i: InvitationId,
                          name: string, email: Option<string>)
    returns (more: seq<State>, moreActions: seq<Action>)
    requires Run(states, actions)
    requires
      var s := states[|actions|];
      CanClaim(s, request, i) && c !in s.txs && e !in s.txs && c != e
      && OfInvitation(i) !in s.locks && OfProfile(s.desk.invitations[i].profile) !in s.locks
      && request.newUser !in s.desk.users && email != Some(s.desk.invitations[i].email)
      && var user := Account(s.desk, request, s.desk.invitations[i].email).value.0;
         !AlreadyLinked(s.desk.profiles, s.desk.invitations[i].workspace, user)
    ensures Run(more, moreActions) && states <= more && actions <= moreActions
    ensures
      var p, d := states[|actions|].desk.invitations[i].profile, more[|moreActions|].desk;
      && p in d.profiles && d.profiles[p].linkedUser.Some? && d.profiles[p].email == email
      && !LinkGood(d.profiles[p], d.users, d.members)
  {
    var s := states[|actions|];
    var row := s.desk.invitations[i];
    RunKeepsInv(states, actions, |actions|);
    assert InvitationGood(s.desk.profiles, row, s.time);
    more, moreActions := ClaimStarts(states, actions, c, request, i);
    more, moreActions := Grow(more, moreActions, Tick(row.expiresAt));
    NoneActive(s.desk.invitations, i, row.expiresAt);
    FreeOwner(s.locks[OfInvitation(i) := c], s.locks, s.txs, c, e);
    more, moreActions := EditPasses(more, moreActions, e, row.profile, name, email);
    UnlinkedAfterEdit(s.desk.profiles, row.profile, name, email, row.workspace, Account(s.desk, request, row.email).value.0);
    more, moreActions := ClaimEnds(more, moreActions, c);
  }

  lemma NoneActive(invitations: Invitations, i: InvitationId, time: Time)
    requires OneOpenPerProfile(invitations) && i in invitations && Open(invitations[i]) && invitations[i].expiresAt <= time
    ensures !ActiveInvite(invitations, invitations[i].profile, time)
  {
  }

  lemma FreeOwner(locks: Locks, before: Locks, txs: Txs, c: TxId, e: TxId)
    requires LocksInv(before, txs) && e !in txs && e != c
    requires forall r | r in locks :: locks[r] == c || (r in before && locks[r] == before[r])
    ensures e !in locks.Values
  {
  }

  lemma UnlinkedAfterEdit(profiles: Profiles, p: ProfileId, name: string, email: Option<string>, workspace: Workspace, user: UserId)
    requires p in profiles && !AlreadyLinked(profiles, workspace, user)
    ensures !AlreadyLinked(profiles[p := profiles[p].(name := name, email := email)], workspace, user)
  {
  }

  // Such a state is reached: a profile is added and invited.
  lemma InvitedIsReached() returns (states: seq<State>, actions: seq<Action>)
    ensures Run(states, actions)
    ensures
      var s := states[|actions|];
      s.locks == map[] && s.txs == map[] && CanClaim(s, Claim("token", true, true, 0), 0) && s.desk.users == map[]
      && forall p | p in s.desk.profiles :: s.desk.profiles[p].linkedUser == None
  {
    var desk := Desk(map[], map[], map[], {});
    states, actions := [State(desk, 0, map[], map[])], [];
    states, actions := Grow(states, actions, AddProfile(0, Profile(0, "name", Some("email"), None)));
    states, actions := InviteStarts(states, actions, 0, 0, 0, "token");
    states, actions := Grow(states, actions, Read(0));
    states, actions := Grow(states, actions, Commit(0));
  }

  // So a deadlock and a link with the wrong email are reached from the start.
  lemma BothAreReached() returns (deadlock: seq<State>, toDeadlock: seq<Action>, slip: seq<State>, toSlip: seq<Action>)
    ensures Run(deadlock, toDeadlock) && exists D :: Deadlocked(deadlock[|toDeadlock|], D)
    ensures Run(slip, toSlip)
    ensures
      var d := slip[|toSlip|].desk;
      exists p :: p in d.profiles && !LinkGood(d.profiles[p], d.users, d.members)
  {
    var states, actions := InvitedIsReached();
    var request := Claim("token", true, true, 0);
    deadlock, toDeadlock := EveryClaimCanDeadlock(states, actions, 0, request, 1, 0, 1, "other");
    slip, toSlip := EveryClaimCanSlip(states, actions, 0, request, 1, 0, "name", None);
  }
}

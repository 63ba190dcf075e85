/** The borrower requests of the server, and whole histories of them under a clock
    that does not run backwards. */
module BorrowerDesk {
  import opened Common
  import opened Borrowers

  lemma ClaimMoves(before: Moment, after: Moment, token: string, passwordFits: bool, named: bool, newUser: UserId)
    requires before.time <= after.time && newUser !in before.desk.users
    requires after.desk == Claimed(before.desk, token, after.time, passwordFits, named, newUser).desk
    ensures Moves(before, Claim(token, passwordFits, named, newUser), after)
  {
  }

  // --- the answers, over the rows -----------------------------------------------------------

  ghost predicate OfWorkspace(profiles: Profiles, id: ProfileId, workspace: Workspace) {
    id in profiles && profiles[id].workspace == workspace
  }

  // Neither used nor withdrawn nor expired.
  ghost predicate Live(row: Invitation, now: Time) {
    row.consumedAt == None && row.revokedAt == None && row.expiresAt > now
  }

  ghost predicate InvitedNow(invitations: Invitations, id: ProfileId, now: Time) {
    exists i :: i in invitations && invitations[i].profile == id && Live(invitations[i], now)
  }

  // The profile's invitations that were neither used nor withdrawn are withdrawn at now.
  ghost predicate Withdrawn(before: Invitations, after: Invitations, id: ProfileId, now: Time) {
    && before.Keys <= after.Keys
    && forall i | i in before ::
         after[i] == (if before[i].profile == id && before[i].consumedAt == None && before[i].revokedAt == None
                      then before[i].(revokedAt := Some(now)) else before[i])
  }

  lemma OneMoreInvitation(before: Invitations, closed: Invitations, id: ProfileId, now: Time, i: InvitationId, row: Invitation)
    requires Withdrawn(before, closed, id, now) && closed.Keys == before.Keys && i !in before
    ensures Withdrawn(before, closed[i := row], id, now) && closed[i := row].Keys == before.Keys + {i}
  {
  }

  // The profile is linked to user and the invitation used, unless user already
  // has a profile in the workspace.
  ghost predicate LinksUser(d: Desk, i: InvitationId, user: UserId, account: User, now: Time, after: Desk, r: Result<nat, Error>)
    requires i in d.invitations && d.invitations[i].profile in d.profiles
  {
    var row := d.invitations[i];
    if exists p :: p in d.profiles && d.profiles[p].workspace == row.workspace && d.profiles[p].linkedUser == Some(user)
    then r == Err(Duplicate)
    else
      && r == Ok(user)
      && after.profiles == d.profiles[row.profile := d.profiles[row.profile].(linkedUser := Some(user))]
      && after.invitations == d.invitations[i := row.(consumedAt := Some(now))]
      && after.users == d.users[user := account]
      && after.members == d.members + {(user, row.workspace)}
  }

  // The answer to claiming the live invitation i: the profile must be unlinked;
  // an invited account must have a password, and the one given must fit; without
  // an account a name is needed.
  ghost predicate ClaimAnswered(d: Desk, i: InvitationId, now: Time, passwordFits: bool, named: bool, newUser: UserId,
                                after: Desk, r: Result<nat, Error>)
    requires i in d.invitations
  {
    var row := d.invitations[i];
    if row.profile !in d.profiles || d.profiles[row.profile].linkedUser.Some? then r == Err(Conflict)
    else if exists u :: u in d.users && d.users[u].address == row.email then
      forall u | u in d.users && d.users[u].address == row.email ::
        if d.users[u].hasPassword && passwordFits then LinksUser(d, i, u, d.users[u], now, after, r) else r == Err(Unauthorized)
    else if named then LinksUser(d, i, newUser, User(row.email, true), now, after, r)
    else r == Err(Unprocessable)
  }

  class Service {
    var profiles: Profiles
    var invitations: Invitations
    var users: Users
    var members: Members
    ghost var clock: Time

    ghost function State(): Desk
      reads this
    {
      Desk(profiles, invitations, users, members)
    }

    ghost function Current(): Moment
      reads this
    {
      Moment(State(), clock)
    }

    ghost predicate Valid()
      reads this
    {
      DeskInv(State(), clock)
    }

    constructor ()
      ensures Valid() && State() == Desk(map[], map[], map[], {}) && clock == 0
    {
      profiles, invitations, users, members, clock := map[], map[], map[], {}, 0;
    }

    method AddBorrower(workspace: Workspace, id: ProfileId, name: string, email: Option<string>)
      requires Valid() && id !in profiles
      modifies this`profiles
      ensures Valid() && State() == Added(old(State()), workspace, id, name, email)
      ensures profiles == old(profiles)[id := Profile(workspace, name, email, None)]
      ensures Moves(old(Current()), Add(workspace, id, name, email), Current())
    {
      AddKeeps(State(), workspace, id, name, email, clock);
      profiles := profiles[id := Profile(workspace, name, email, None)];
    }

    // A person signs up; an address belongs to one account.
    method Register(user: UserId, account: User) returns (r: Result<nat, Error>)
      requires Valid() && user !in users
      modifies this`users
      ensures Valid()
      ensures r == (if exists u :: u in old(users) && old(users)[u].address == account.address then Err(Duplicate) else Ok(user))
      ensures users == if r.Ok? then old(users)[user := account] else old(users)
      ensures r.Ok? ==> Moves(old(Current()), Event.Register(user, account), Current())
    {
      if existing :| existing in users && users[existing].address == account.address {
        return Err(Duplicate);
      }
      RegisterKeeps(State(), user, account, clock);
      users := users[user := account];
      return Ok(user);
    }

    method EditBorrower(workspace: Workspace, id: ProfileId, name: string, email: Option<string>, now: Time)
      returns (r: Result<nat, Error>)
      requires Valid() && clock <= now
      modifies this`profiles, this`clock
      ensures Valid() && clock == now
      ensures Answer(State(), r) == Edited(old(State()), workspace, id, name, email, now)
      ensures
        if !OfWorkspace(old(profiles), id, workspace) then r == Err(NotFound)
        else if email != old(profiles)[id].email && (old(profiles)[id].linkedUser.Some? || InvitedNow(invitations, id, now)) then r == Err(Conflict)
        else r == Ok(id) && profiles == old(profiles)[id := Profile(workspace, name, email, old(profiles)[id].linkedUser)]
      ensures r.Err? ==> profiles == old(profiles)
      ensures Moves(old(Current()), Edit(workspace, id, name, email), Current())
    {
      LaterIsGood(State(), clock, now);
      EditKeeps(State(), workspace, id, name, email, now);
      clock := now;
      if id !in profiles || profiles[id].workspace != workspace {
        return Err(NotFound);
      }
      var borrower := profiles[id];
      if borrower.linkedUser.Some? && email != borrower.email {
        return Err(Conflict);
      }
      if ActiveInvite(invitations, id, now) && email != borrower.email {
        return Err(Conflict);
      }
      profiles := profiles[id := borrower.(name := name, email := email)];
      return Ok(id);
    }

    // invitation and token are what the server would generate.
    method InviteBorrower(workspace: Workspace, id: ProfileId, now: Time, invitation: InvitationId, token: string)
      returns (r: Result<nat, Error>)
      requires Valid() && clock <= now && invitation !in invitations && !HasToken(invitations, token)
      modifies this`invitations, this`clock
      ensures Valid() && clock == now
      ensures Answer(State(), r) == Invited(old(State()), workspace, id, now, invitation, token)
      ensures
        if !OfWorkspace(profiles, id, workspace) then r == Err(NotFound)
        else if profiles[id].linkedUser.Some? || profiles[id].email == None then r == Err(Conflict)
        else
          && r == Ok(invitation) && invitations.Keys == old(invitations.Keys) + {invitation}
          && invitations[invitation] == Invitation(workspace, id, profiles[id].email.value, token, now + 24 * 60 * 60, None, None)
          && Withdrawn(old(invitations), invitations, id, now)
      ensures r.Err? ==> invitations == old(invitations)
      ensures Moves(old(Current()), Invite(workspace, id, invitation, token), Current())
    {
      LaterIsGood(State(), clock, now);
      InviteKeeps(State(), workspace, id, now, invitation, token);
      clock := now;
      if id !in profiles || profiles[id].workspace != workspace {
        return Err(NotFound);
      }
      var borrower := profiles[id];
      if borrower.linkedUser.Some? || borrower.email == None {
        return Err(Conflict);
      }
      RevokeOpen(id, now);
      var row := Invitation(workspace, id, borrower.email.value, token, now + VALIDITY, None, None);
      OneMoreInvitation(old(invitations), invitations, id, now, invitation, row);
      invitations := invitations[invitation := row];
      return Ok(invitation);
    }

    // Revokes the open invitations of a profile one by one.
    method RevokeOpen(id: ProfileId, now: Time)
      modifies this`invitations
      ensures invitations == CloseOpen(old(invitations), id, now)
      ensures invitations.Keys == old(invitations.Keys) && Withdrawn(old(invitations), invitations, id, now)
    {
      var before := invitations;
      var rest := before.Keys;
      while rest != {}
        invariant rest <= before.Keys && invitations.Keys == before.Keys
        invariant forall i | i in before && i in rest :: invitations[i] == before[i]
        invariant forall i | i in before && i !in rest :: invitations[i] == CloseOpen(before, id, now)[i]
      {
        var i :| i in rest;
        if invitations[i].profile == id && Open(invitations[i]) {
          invitations := invitations[i := invitations[i].(revokedAt := Some(now))];
        }
        rest := rest - {i};
      }
    }

    method RevokeInvitation(workspace: Workspace, invitation: InvitationId, now: Time) returns (r: Result<nat, Error>)
      requires Valid() && clock <= now
      modifies this`invitations, this`clock
      ensures Valid() && clock == now
      ensures Answer(State(), r) == Revocation(old(State()), workspace, invitation, now)
      ensures
        if invitation in old(invitations) && old(invitations)[invitation].workspace == workspace then
          r == Ok(invitation) && invitations == old(invitations)[invitation := old(invitations)[invitation].(revokedAt := Some(now))]
        else r == Err(NotFound) && invitations == old(invitations)
      ensures Moves(old(Current()), Revoke(workspace, invitation), Current())
    {
      LaterIsGood(State(), clock, now);
      RevokeKeeps(State(), workspace, invitation, now);
      clock := now;
      if invitation !in invitations || invitations[invitation].workspace != workspace {
        return Err(NotFound);
      }
      invitations := invitations[invitation := invitations[invitation].(revokedAt := Some(now))];
      return Ok(invitation);
    }

    method ClaimInvitation(token: string, now: Time, passwordFits: bool, named: bool, newUser: UserId)
      returns (r: Result<nat, Error>)
      requires Valid() && clock <= now && newUser !in users
      modifies this
      ensures Valid() && clock == now
      ensures Answer(State(), r) == Claimed(old(State()), token, now, passwordFits, named, newUser)
      ensures r == Err(Invalid) <==> !exists i :: i in old(invitations) && old(invitations)[i].token == token && Live(old(invitations)[i], now)
      ensures forall i | i in old(invitations) && old(invitations)[i].token == token && Live(old(invitations)[i], now) ::
                ClaimAnswered(old(State()), i, now, passwordFits, named, newUser, State(), r)
      ensures r.Err? ==> State() == old(State())
      ensures Moves(old(Current()), Claim(token, passwordFits, named, newUser), Current())
    {
      ghost var d := State();
      LaterIsGood(d, clock, now);
      ClaimKeeps(d, token, now, passwordFits, named, newUser);
      clock := now;
      assert State() == d;
      r := Err(Invalid);
      if invitation :| invitation in invitations && invitations[invitation].token == token {
        if Claimable(invitations[invitation], now) {
          r := ClaimFound(invitation, now, passwordFits, named, newUser);
        }
      }
      ClaimMoves(old(Current()), Current(), token, passwordFits, named, newUser);
    }

    // The claim once its invitation is found and locked.
    method ClaimFound(invitation: InvitationId, now: Time, passwordFits: bool, named: bool, newUser: UserId)
      returns (r: Result<nat, Error>)
      requires DeskInv(State(), now) && invitation in invitations && Claimable(invitations[invitation], now) && newUser !in users
      modifies this`profiles, this`invitations, this`users, this`members
      ensures Answer(State(), r) == Claimed(old(State()), old(invitations[invitation].token), now, passwordFits, named, newUser)
      ensures ClaimAnswered(old(State()), invitation, now, passwordFits, named, newUser, State(), r)
      ensures r.Err? ==> State() == old(State()) && r.error != Invalid
    {
      var row := invitations[invitation];
      if row.profile !in profiles || profiles[row.profile].linkedUser.Some? {
        return Err(Conflict);
      }
      var user, account := newUser, User(row.email, true);
      if existing :| existing in users && users[existing].address == row.email {
        if !users[existing].hasPassword || !passwordFits {
          return Err(Unauthorized);
        }
        user, account := existing, users[existing];
      } else if !named {
        return Err(Unprocessable);
      }
      var borrower := profiles[row.profile];
      if AlreadyLinked(profiles, borrower.workspace, user) {
        return Err(Duplicate); // the unique constraint; the transaction is rolled back
      }
      assert user in users ==> users[user := account] == users;
      users := users[user := account];
      members := members + {(user, row.workspace)};
      profiles := profiles[row.profile := borrower.(linkedUser := Some(user))];
      invitations := invitations[invitation := row.(consumedAt := Some(now))];
      return Ok(user);
    }
  }

  // --- histories ------------------------------------------------------------------------

  datatype Event =
    | Add(workspace: Workspace, id: ProfileId, name: string, email: Option<string>)
    | Edit(workspace: Workspace, id: ProfileId, name: string, email: Option<string>)
    | Invite(workspace: Workspace, id: ProfileId, invitation: InvitationId, token: string)
    | Revoke(workspace: Workspace, invitation: InvitationId)
    | Claim(token: string, passwordFits: bool, named: bool, newUser: UserId)
    | Register(user: UserId, account: User)

  datatype Moment = Moment(desk: Desk, time: Time)

  ghost predicate Possible(d: Desk, e: Event) {
    match e
    case Add(_, id, _, _) => id !in d.profiles
    case Invite(_, _, invitation, token) => invitation !in d.invitations && !HasToken(d.invitations, token)
    case Claim(_, _, _, newUser) => newUser !in d.users
    case Register(user, account) => user !in d.users && !HasAddress(d.users, account.address)
    case _ => true
  }

  ghost function After(d: Desk, e: Event, now: Time): Desk
    requires Possible(d, e)
  {
    match e
    case Add(workspace, id, name, email) => Added(d, workspace, id, name, email)
    case Edit(workspace, id, name, email) => Edited(d, workspace, id, name, email, now).desk
    case Invite(workspace, id, invitation, token) => Invited(d, workspace, id, now, invitation, token).desk
    case Revoke(workspace, invitation) => Revocation(d, workspace, invitation, now).desk
    case Claim(token, passwordFits, named, newUser) => Claimed(d, token, now, passwordFits, named, newUser).desk
    case Register(user, account) => d.(users := d.users[user := account])
  }

  ghost predicate Moves(m: Moment, e: Event, next: Moment) {
    m.time <= next.time && Possible(m.desk, e) && next.desk == After(m.desk, e, next.time)
  }

  ghost predicate History(moments: seq<Moment>, events: seq<Event>) {
    && |moments| == |events| + 1 && moments[0].desk == Desk(map[], map[], map[], {})
    && forall i | 0 <= i < |events| :: Moves(moments[i], events[i], moments[i + 1])
  }

  lemma EventKeeps(d: Desk, e: Event, now: Time)
    requires DeskInv(d, now) && Possible(d, e)
    ensures DeskInv(After(d, e, now), now) && LinksKept(d.profiles, After(d, e, now).profiles)
  {
    match e
    case Add(workspace, id, name, email) => AddKeeps(d, workspace, id, name, email, now);
    case Edit(workspace, id, name, email) => EditKeeps(d, workspace, id, name, email, now);
    case Invite(workspace, id, invitation, token) => InviteKeeps(d, workspace, id, now, invitation, token);
    case Revoke(workspace, invitation) => RevokeKeeps(d, workspace, invitation, now);
    case Claim(token, passwordFits, named, newUser) => ClaimKeeps(d, token, now, passwordFits, named, newUser);
    case Register(user, account) => RegisterKeeps(d, user, account, now);
  }

  lemma RegisterKeeps(d: Desk, user: UserId, account: User, now: Time)
    requires DeskInv(d, now) && user !in d.users && !HasAddress(d.users, account.address)
    ensures DeskInv(d.(users := d.users[user := account]), now)
  {
  }

  lemma MoveKeeps(m: Moment, e: Event, next: Moment)
    requires DeskInv(m.desk, m.time) && Moves(m, e, next)
    ensures DeskInv(next.desk, next.time) && LinksKept(m.desk.profiles, next.desk.profiles)
  {
    LaterIsGood(m.desk, m.time, next.time);
    EventKeeps(m.desk, e, next.time);
  }

  lemma {:induction false} HistoryKeeps(moments: seq<Moment>, events: seq<Event>, n: nat)
    requires History(moments, events) && n < |moments|
    ensures DeskInv(moments[n].desk, moments[n].time)
  {
    if n > 0 {
      HistoryKeeps(moments, events, n - 1);
      MoveKeeps(moments[n - 1], events[n - 1], moments[n]);
    }
  }

  // At every moment: one open invitation per profile at most, claimable ones
  // with the profile's email, linked profiles with the email of their user.
  lemma InvitationsAndLinksAgree(moments: seq<Moment>, events: seq<Event>, n: nat, id: ProfileId, i: InvitationId, j: InvitationId)
    requires History(moments, events) && n < |moments|
    requires id in moments[n].desk.profiles && i in moments[n].desk.invitations && j in moments[n].desk.invitations
    ensures
      var d := moments[n].desk;
      && (d.invitations[i].profile == d.invitations[j].profile == id && Open(d.invitations[i]) && Open(d.invitations[j]) ==> i == j)
      && (d.invitations[i].profile == id && Claimable(d.invitations[i], moments[n].time) ==>
            d.profiles[id].email == Some(d.invitations[i].email) && d.profiles[id].linkedUser == None)
      && (d.profiles[id].linkedUser.Some? ==>
            d.profiles[id].linkedUser.value in d.users && d.profiles[id].email == Some(d.users[d.profiles[id].linkedUser.value].address))
  {
    HistoryKeeps(moments, events, n);
    var d := moments[n].desk;
    assert InvitationGood(d.profiles, d.invitations[i], moments[n].time);
    assert LinkGood(d.profiles[id], d.users, d.members);
  }

  lemma LinksStep(moments: seq<Moment>, events: seq<Event>, k: nat)
    requires History(moments, events) && k < |events|
    ensures LinksKept(moments[k].desk.profiles, moments[k + 1].desk.profiles)
  {
    HistoryKeeps(moments, events, k);
    MoveKeeps(moments[k], events[k], moments[k + 1]);
  }

  lemma {:induction false} LinksAlong(profiles: seq<Profiles>, i: nat, j: nat)
    requires forall k | 0 < k < |profiles| :: LinksKept(profiles[k - 1], profiles[k])
    requires i <= j < |profiles|
    ensures LinksKept(profiles[i], profiles[j])
  {
    if i < j {
      LinksAlong(profiles, i, j - 1);
    }
  }

  // A linked profile stays linked to the same user with the same email.
  lemma LinksAreForGood(moments: seq<Moment>, events: seq<Event>, i: nat, j: nat)
    requires History(moments, events) && i <= j < |moments|
    ensures LinksKept(moments[i].desk.profiles, moments[j].desk.profiles)
  {
    var profiles := seq(|moments|, k requires 0 <= k < |moments| => moments[k].desk.profiles);
    forall k | 0 < k < |profiles| ensures LinksKept(profiles[k - 1], profiles[k]) {
      LinksStep(moments, events, k - 1);
    }
    LinksAlong(profiles, i, j);
  }

  // --- a claim that overlaps an edit --------------------------------------------------------

  // A claim locks its invitation but not the profile.  When it was let in at
  // now and still has to commit, an edit to another email gets through exactly
  // once the invitation has expired, and then the link is made to a user with
  // a different email.
  lemma EditSlipsIntoClaimAfterExpiry(d: Desk, now: Time, later: Time, invitation: InvitationId, user: UserId, name: string, email: Option<string>)
    requires DeskInv(d, now) && now <= later && invitation in d.invitations && Claimable(d.invitations[invitation], now)
    requires user in d.users && d.users[user].address == d.invitations[invitation].email
    requires email != Some(d.invitations[invitation].email)
    ensures
      var row := d.invitations[invitation];
      var edit := Edited(d, row.workspace, row.profile, name, email, later);
      && (edit.reply.Ok? <==> row.expiresAt <= later)
      && (edit.reply.Ok? ==>
            !LinkGood(edit.desk.profiles[row.profile].(linkedUser := Some(user)), d.users, d.members + {(user, row.workspace)}))
  {
  }
}

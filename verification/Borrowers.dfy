/** Borrower profiles and their invitations: what each request makes of the rows,
    and what every request keeps. */
module Borrowers {
  import opened Common

  type ProfileId = nat
  type InvitationId = nat
  type UserId = nat
  type Workspace = nat
  type Time = nat

  const VALIDITY: nat := 24 * 60 * 60

  // email is in normal form: trimmed, lower case, None when blank
  datatype Profile = Profile(workspace: Workspace, name: string, email: Option<string>, linkedUser: Option<UserId>)

  datatype Invitation = Invitation(
    workspace: Workspace,
    profile: ProfileId,
    email: string,
    token: string,
    expiresAt: Time,
    consumedAt: Option<Time>,
    revokedAt: Option<Time>)

  datatype User = User(address: string, hasPassword: bool)

  type Profiles = map<ProfileId, Profile>
  type Invitations = map<InvitationId, Invitation>
  type Users = map<UserId, User>
  type Members = set<(UserId, Workspace)>

  datatype Desk = Desk(profiles: Profiles, invitations: Invitations, users: Users, members: Members)

  datatype Error = NotFound | Conflict | Invalid | Unauthorized | Unprocessable | Duplicate

  datatype Answer = Answer(desk: Desk, reply: Result<nat, Error>)

  // --- rows -----------------------------------------------------------------------------

  predicate Open(invitation: Invitation) {
    invitation.consumedAt == None && invitation.revokedAt == None
  }

  predicate Claimable(invitation: Invitation, now: Time) {
    Open(invitation) && invitation.expiresAt > now
  }

  predicate ActiveInvite(invitations: Invitations, profile: ProfileId, now: Time) {
    exists i :: i in invitations && invitations[i].profile == profile && Claimable(invitations[i], now)
  }

  // The partial unique index on open invitations, and unique tokens.
  ghost predicate OneOpenPerProfile(invitations: Invitations) {
    forall i, j | i in invitations && j in invitations && i != j && Open(invitations[i]) && Open(invitations[j]) ::
      invitations[i].profile != invitations[j].profile
  }

  ghost predicate UniqueTokens(invitations: Invitations) {
    forall i, j | i in invitations && j in invitations && i != j :: invitations[i].token != invitations[j].token
  }

  ghost predicate UniqueAddresses(users: Users) {
    forall u, v | u in users && v in users && u != v :: users[u].address != users[v].address
  }

  ghost predicate LinkedOnce(profiles: Profiles) {
    forall p, q | p in profiles && q in profiles && p != q && profiles[p].workspace == profiles[q].workspace && profiles[p].linkedUser.Some? ::
      profiles[p].linkedUser != profiles[q].linkedUser
  }

  // An invitation belongs to a profile of its workspace; while it can be
  // claimed it carries the profile's current email, and a linked profile has
  // no open one.
  predicate InvitationGood(profiles: Profiles, invitation: Invitation, now: Time) {
    && invitation.profile in profiles
    && var profile := profiles[invitation.profile];
       && profile.workspace == invitation.workspace
       && (Claimable(invitation, now) ==> profile.email == Some(invitation.email))
       && (Open(invitation) ==> profile.linkedUser == None)
  }

  ghost predicate InvitationsGood(profiles: Profiles, invitations: Invitations, now: Time) {
    forall i | i in invitations :: InvitationGood(profiles, invitations[i], now)
  }

  // A linked profile has the email of its user, who is a member of the workspace.
  predicate LinkGood(profile: Profile, users: Users, members: Members) {
    profile.linkedUser.Some? ==>
      && profile.linkedUser.value in users
      && profile.email == Some(users[profile.linkedUser.value].address)
      && (profile.linkedUser.value, profile.workspace) in members
  }

  ghost predicate LinksGood(profiles: Profiles, users: Users, members: Members) {
    forall p | p in profiles :: LinkGood(profiles[p], users, members)
  }

  ghost predicate DeskInv(d: Desk, now: Time) {
    && OneOpenPerProfile(d.invitations) && UniqueTokens(d.invitations) && UniqueAddresses(d.users) && LinkedOnce(d.profiles)
    && InvitationsGood(d.profiles, d.invitations, now)
    && LinksGood(d.profiles, d.users, d.members)
  }

  // --- requests --------------------------------------------------------------------------

  function Added(d: Desk, workspace: Workspace, id: ProfileId, name: string, email: Option<string>): Desk {
    d.(profiles := d.profiles[id := Profile(workspace, name, email, None)])
  }

  function Edited(d: Desk, workspace: Workspace, id: ProfileId, name: string, email: Option<string>, now: Time): Answer {
    if id !in d.profiles || d.profiles[id].workspace != workspace then Answer(d, Err(NotFound))
    else
      var profile := d.profiles[id];
      if profile.linkedUser.Some? && email != profile.email then Answer(d, Err(Conflict))
      else if ActiveInvite(d.invitations, id, now) && email != profile.email then Answer(d, Err(Conflict))
      else Answer(d.(profiles := d.profiles[id := profile.(name := name, email := email)]), Ok(id))
  }

  function CloseOpen(invitations: Invitations, profile: ProfileId, now: Time): Invitations {
    map i | i in invitations ::
      if invitations[i].profile == profile && Open(invitations[i]) then invitations[i].(revokedAt := Some(now)) else invitations[i]
  }

  function Invited(d: Desk, workspace: Workspace, id: ProfileId, now: Time, invitation: InvitationId, token: string): Answer {
    if id !in d.profiles || d.profiles[id].workspace != workspace then Answer(d, Err(NotFound))
    else
      var profile := d.profiles[id];
      if profile.linkedUser.Some? || profile.email == None then Answer(d, Err(Conflict))
      else
        var row := Invitation(workspace, id, profile.email.value, token, now + VALIDITY, None, None);
        Answer(d.(invitations := CloseOpen(d.invitations, id, now)[invitation := row]), Ok(invitation))
  }

  function Revocation(d: Desk, workspace: Workspace, invitation: InvitationId, now: Time): Answer {
    if invitation !in d.invitations || d.invitations[invitation].workspace != workspace then Answer(d, Err(NotFound))
    else Answer(d.(invitations := d.invitations[invitation := d.invitations[invitation].(revokedAt := Some(now))]), Ok(invitation))
  }

  predicate HasToken(invitations: Invitations, token: string) {
    exists i :: i in invitations && invitations[i].token == token
  }

  ghost function ByToken(invitations: Invitations, token: string): (i: InvitationId)
    requires HasToken(invitations, token)
    ensures i in invitations && invitations[i].token == token
  {
    var i :| i in invitations && invitations[i].token == token;
    i
  }

  predicate HasAddress(users: Users, address: string) {
    exists u :: u in users && users[u].address == address
  }

  ghost function ByAddress(users: Users, address: string): (u: UserId)
    requires HasAddress(users, address)
    ensures u in users && users[u].address == address
  {
    var u :| u in users && users[u].address == address;
    u
  }

  predicate AlreadyLinked(profiles: Profiles, workspace: Workspace, user: UserId) {
    exists p :: p in profiles && profiles[p].workspace == workspace && profiles[p].linkedUser == Some(user)
  }

  // The user is linked, joins the workspace, and the invitation is used up.
  function Link(d: Desk, invitation: InvitationId, user: UserId, users: Users, now: Time): Answer
    requires invitation in d.invitations && d.invitations[invitation].profile in d.profiles
  {
    var row := d.invitations[invitation];
    var profile := d.profiles[row.profile];
    if AlreadyLinked(d.profiles, profile.workspace, user) then Answer(d, Err(Duplicate))
    else Answer(Desk(d.profiles[row.profile := profile.(linkedUser := Some(user))],
                     d.invitations[invitation := row.(consumedAt := Some(now))],
                     users, d.members + {(user, row.workspace)}),
                Ok(user))
  }

  // passwordFits is the outcome of checking the password of the invited account.
  ghost function Claimed(d: Desk, token: string, now: Time, passwordFits: bool, named: bool, newUser: UserId): Answer {
    if !HasToken(d.invitations, token) || !Claimable(d.invitations[ByToken(d.invitations, token)], now) then Answer(d, Err(Invalid))
    else
      var invitation := ByToken(d.invitations, token);
      var row := d.invitations[invitation];
      if row.profile !in d.profiles || d.profiles[row.profile].linkedUser.Some? then Answer(d, Err(Conflict))
      else if HasAddress(d.users, row.email) then
        var user := ByAddress(d.users, row.email);
        if !d.users[user].hasPassword || !passwordFits then Answer(d, Err(Unauthorized))
        else Link(d, invitation, user, d.users, now)
      else if !named then Answer(d, Err(Unprocessable))
      else Link(d, invitation, newUser, d.users[newUser := User(row.email, true)], now)
  }

  // --- what every request keeps ----------------------------------------------------------

  // Profiles stay; a link and the email under it are for good.
  ghost predicate LinksKept(before: Profiles, after: Profiles) {
    forall p | p in before ::
      && p in after && after[p].workspace == before[p].workspace
      && (before[p].linkedUser.Some? ==> after[p].linkedUser == before[p].linkedUser && after[p].email == before[p].email)
  }

  lemma LaterIsGood(d: Desk, earlier: Time, now: Time)
    requires DeskInv(d, earlier) && earlier <= now
    ensures DeskInv(d, now)
  {
  }

  lemma AddKeeps(d: Desk, workspace: Workspace, id: ProfileId, name: string, email: Option<string>, now: Time)
    requires DeskInv(d, now) && id !in d.profiles
    ensures DeskInv(Added(d, workspace, id, name, email), now) && LinksKept(d.profiles, Added(d, workspace, id, name, email).profiles)
  {
  }

  lemma EditKeeps(d: Desk, workspace: Workspace, id: ProfileId, name: string, email: Option<string>, now: Time)
    requires DeskInv(d, now)
    ensures DeskInv(Edited(d, workspace, id, name, email, now).desk, now)
    ensures LinksKept(d.profiles, Edited(d, workspace, id, name, email, now).desk.profiles)
  {
    var after := Edited(d, workspace, id, name, email, now).desk;
    forall i | i in after.invitations ensures InvitationGood(after.profiles, after.invitations[i], now) {
      assert InvitationGood(d.profiles, d.invitations[i], now);
    }
  }

  lemma CloseOpenCloses(invitations: Invitations, profile: ProfileId, now: Time)
    requires OneOpenPerProfile(invitations) && UniqueTokens(invitations)
    ensures OneOpenPerProfile(CloseOpen(invitations, profile, now)) && UniqueTokens(CloseOpen(invitations, profile, now))
    ensures forall i | i in CloseOpen(invitations, profile, now) && Open(CloseOpen(invitations, profile, now)[i]) ::
      CloseOpen(invitations, profile, now)[i].profile != profile
  {
  }

  lemma AddInvitation(invitations: Invitations, i: InvitationId, row: Invitation)
    requires OneOpenPerProfile(invitations) && UniqueTokens(invitations) && i !in invitations && !HasToken(invitations, row.token)
    requires forall j | j in invitations && Open(invitations[j]) :: invitations[j].profile != row.profile
    ensures OneOpenPerProfile(invitations[i := row]) && UniqueTokens(invitations[i := row])
  {
  }

  lemma CloseOpenGood(profiles: Profiles, invitations: Invitations, profile: ProfileId, now: Time)
    requires InvitationsGood(profiles, invitations, now)
    ensures InvitationsGood(profiles, CloseOpen(invitations, profile, now), now)
  {
    forall i | i in invitations ensures InvitationGood(profiles, CloseOpen(invitations, profile, now)[i], now) {
      assert InvitationGood(profiles, invitations[i], now);
    }
  }

  lemma InviteKeeps(d: Desk, workspace: Workspace, id: ProfileId, now: Time, invitation: InvitationId, token: string)
    requires DeskInv(d, now) && invitation !in d.invitations && !HasToken(d.invitations, token)
    ensures DeskInv(Invited(d, workspace, id, now, invitation, token).desk, now)
  {
    var after := Invited(d, workspace, id, now, invitation, token);
    if after.reply.Ok? {
      CloseOpenCloses(d.invitations, id, now);
      CloseOpenGood(d.profiles, d.invitations, id, now);
      AddInvitation(CloseOpen(d.invitations, id, now), invitation, after.desk.invitations[invitation]);
    }
  }

  lemma RevokeKeeps(d: Desk, workspace: Workspace, invitation: InvitationId, now: Time)
    requires DeskInv(d, now)
    ensures DeskInv(Revocation(d, workspace, invitation, now).desk, now)
  {
  }

  lemma LinkKeepsInvitations(d: Desk, invitation: InvitationId, user: UserId, users: Users, now: Time)
    requires DeskInv(d, now) && invitation in d.invitations && Claimable(d.invitations[invitation], now)
    requires Link(d, invitation, user, users, now).reply.Ok?
    ensures
      var after := Link(d, invitation, user, users, now).desk;
      InvitationsGood(after.profiles, after.invitations, now) && OneOpenPerProfile(after.invitations) && UniqueTokens(after.invitations)
  {
    var after := Link(d, invitation, user, users, now).desk;
    assert InvitationGood(d.profiles, d.invitations[invitation], now);
    forall i | i in after.invitations ensures InvitationGood(after.profiles, after.invitations[i], now) {
      assert InvitationGood(d.profiles, d.invitations[i], now);
    }
  }

  // Linking the user with the invited address keeps every row good.
  lemma LinkKeeps(d: Desk, invitation: InvitationId, user: UserId, users: Users, now: Time)
    requires DeskInv(d, now) && invitation in d.invitations && Claimable(d.invitations[invitation], now)
    requires user in users && users[user].address == d.invitations[invitation].email && UniqueAddresses(users)
    requires forall u | u in d.users :: u in users && users[u] == d.users[u]
    ensures DeskInv(Link(d, invitation, user, users, now).desk, now)
    ensures LinksKept(d.profiles, Link(d, invitation, user, users, now).desk.profiles)
  {
    var after := Link(d, invitation, user, users, now);
    assert InvitationGood(d.profiles, d.invitations[invitation], now);
    if after.reply.Ok? {
      LinkKeepsInvitations(d, invitation, user, users, now);
      forall p | p in after.desk.profiles ensures LinkGood(after.desk.profiles[p], users, after.desk.members) {
        assert p in d.profiles && LinkGood(d.profiles[p], d.users, d.members);
      }
    }
  }

  lemma ClaimKeeps(d: Desk, token: string, now: Time, passwordFits: bool, named: bool, newUser: UserId)
    requires DeskInv(d, now) && newUser !in d.users
    ensures DeskInv(Claimed(d, token, now, passwordFits, named, newUser).desk, now)
    ensures LinksKept(d.profiles, Claimed(d, token, now, passwordFits, named, newUser).desk.profiles)
  {
    if HasToken(d.invitations, token) && Claimable(d.invitations[ByToken(d.invitations, token)], now) {
      var invitation := ByToken(d.invitations, token);
      var row := d.invitations[invitation];
      if HasAddress(d.users, row.email) {
        LinkKeeps(d, invitation, ByAddress(d.users, row.email), d.users, now);
      } else {
        LinkKeeps(d, invitation, newUser, d.users[newUser := User(row.email, true)], now);
      }
    }
  }
}

/** The identifier requests of the server, and the phone's two procedures on top of
    them: writing a tag for an item or container, and resolving a scanned tag. */
module IdentifierService {
  import opened Common
  import opened Payload
  import opened IdentifierModel

  // --- the answers, over the rows ------------------------------------------------------

  // The caller is a member of the workspace and not bound to another one.
  ghost predicate InReach(env: Env, actor: Actor, workspace: Workspace) {
    (actor.user, workspace) in env.members && (actor.workspace.Some? ==> actor.workspace.value == workspace)
  }

  // The target is stored, not archived, and belongs to some workspace.
  ghost predicate Live(env: Env, target: Target) {
    target in env.targets && !env.targets[target].archived && env.targets[target].workspace.Some?
  }

  ghost predicate LiveIn(env: Env, target: Target, workspace: Workspace) {
    Live(env, target) && env.targets[target].workspace.value == workspace
  }

  ghost predicate IsOne(row: Identifier, target: Target, medium: Medium, status: Status) {
    row.target == target && row.medium == medium && row.status == status
  }

  ghost predicate HasOne(rows: Rows, target: Target, medium: Medium, status: Status) {
    exists i :: i in rows && IsOne(rows[i], target, medium, status)
  }

  // A pending identifier of the target is handed out again, and so is an active
  // printed one; otherwise a new one is stored under a public id not used so far.
  ghost predicate CreateAnswered(env: Env, before: Rows, rows: Rows, actor: Actor, target: Target, medium: Medium,
                                 id: IdentifierId, publicId: string, r: Result<IdentifierId, Error>)
  {
    if !Live(env, target) then rows == before && r == Err(NotFound)
    else if !InReach(env, actor, env.targets[target].workspace.value) then rows == before && r == Err(AccessDenied)
    else if HasOne(before, target, medium, Pending) then
      rows == before && r.Ok? && r.value in before && IsOne(before[r.value], target, medium, Pending)
    else if medium == Qr && HasOne(before, target, medium, Active) then
      rows == before && r.Ok? && r.value in before && IsOne(before[r.value], target, medium, Active)
    else if exists i :: i in before && before[i].publicId == publicId then
      rows == before && r == Err(Conflict)
    else
      && r == Ok(id)
      && rows == before[id := Identifier(env.targets[target].workspace.value, publicId, target, medium, if medium == Qr then Active else Pending, 1)]
  }

  // A pending identifier becomes active in place of the active one of its target
  // and medium; an active one stays; a revoked one cannot come back.
  ghost predicate ActivateAnswered(env: Env, before: Rows, rows: Rows, actor: Actor, id: IdentifierId, r: Result<IdentifierId, Error>) {
    if id !in before then rows == before && r == Err(NotFound)
    else if !InReach(env, actor, before[id].workspace) then rows == before && r == Err(AccessDenied)
    else if before[id].status == Revoked then rows == before && r == Err(InvalidTransition)
    else if before[id].status == Active then rows == before && r == Ok(id)
    else
      && r == Ok(id) && rows.Keys == before.Keys && rows[id] == before[id].(status := Active)
      && forall i | i in before && i != id ::
           rows[i] == (if IsOne(before[i], before[id].target, before[id].medium, Active) then before[i].(status := Revoked) else before[i])
  }

  lemma CreatedAnswers(env: Env, rows: Rows, actor: Actor, target: Target, medium: Medium, id: IdentifierId, publicId: string)
    ensures
      var after := Created(env, rows, actor, target, medium, id, publicId);
      CreateAnswered(env, rows, after.rows, actor, target, medium, id, publicId, after.reply)
  {
    forall i, status | i in rows && InSlot(rows[i], target, medium, status) ensures IsOne(rows[i], target, medium, status) {
    }
  }

  lemma ActivatedAnswers(env: Env, rows: Rows, actor: Actor, id: IdentifierId)
    requires RowsInv(rows)
    ensures ActivateAnswered(env, rows, Activated(env, rows, actor, id).rows, actor, id, Activated(env, rows, actor, id).reply)
  {
    if id in rows && rows[id].status == Pending {
      var target, medium := rows[id].target, rows[id].medium;
      forall i | i in rows && IsOne(rows[i], target, medium, Active) ensures InSlot(rows[i], target, medium, Active) {
      }
    }
  }

  class Server {
    var rows: Rows
    var env: Env

    ghost predicate Valid()
      reads this
    {
      RowsInv(rows)
    }

    constructor ()
      ensures Valid() && rows == map[] && env == Env(map[], {})
    {
      rows := map[];
      env := Env(map[], {});
    }

    // id and publicId are what the server would generate.
    method CreateIdentifier(actor: Actor, target: Target, medium: Medium, id: IdentifierId, publicId: string)
      returns (r: Result<IdentifierId, Error>)
      requires Valid() && id !in rows && IsPublicId(publicId)
      modifies this`rows
      ensures Valid()
      ensures Answer(rows, r) == Created(env, old(rows), actor, target, medium, id, publicId)
      ensures CreateAnswered(env, old(rows), rows, actor, target, medium, id, publicId, r)
    {
      CreatedAnswers(env, rows, actor, target, medium, id, publicId);
      CreateKeeps(env, rows, actor, target, medium, id, publicId);
      var workspace := TargetWorkspace(env, target);
      if workspace == None {
        return Err(NotFound);
      }
      if !MayUse(env, actor, workspace.value) {
        return Err(AccessDenied);
      }
      if existing :| existing in rows && InSlot(rows[existing], target, medium, Pending) {
        return Ok(existing);
      }
      if medium == Qr {
        if existing :| existing in rows && InSlot(rows[existing], target, medium, Active) {
          return Ok(existing);
        }
      }
      if exists i :: i in rows && rows[i].publicId == publicId {
        return Err(Conflict);
      }
      rows := rows[id := NewIdentifier(workspace.value, publicId, target, medium)];
      return Ok(id);
    }

    method ActivateIdentifier(actor: Actor, id: IdentifierId) returns (r: Result<IdentifierId, Error>)
      requires Valid()
      modifies this`rows
      ensures Valid()
      ensures Answer(rows, r) == Activated(env, old(rows), actor, id)
      ensures ActivateAnswered(env, old(rows), rows, actor, id, r)
    {
      ActivatedAnswers(env, rows, actor, id);
      ActivateKeeps(env, rows, actor, id);
      if id !in rows {
        return Err(NotFound);
      }
      var row := rows[id];
      if !MayUse(env, actor, row.workspace) {
        return Err(AccessDenied);
      }
      if row.status == Revoked {
        return Err(InvalidTransition);
      }
      if row.status == Active {
        return Ok(id);
      }
      if previous :| previous in rows && InSlot(rows[previous], row.target, row.medium, Active) {
        rows := rows[previous := rows[previous].(status := Revoked)];
      }
      rows := rows[id := row.(status := Active)];
      return Ok(id);
    }

    method ActivatePendingNfcIdentifier(actor: Actor, publicId: string) returns (r: Result<IdentifierId, Error>)
      requires Valid()
      modifies this`rows
      ensures Valid()
      ensures Answer(rows, r) == PendingActivated(env, old(rows), actor, publicId)
      ensures forall i | i in old(rows) && old(rows)[i].publicId == publicId && old(rows)[i].medium == Nfc && old(rows)[i].status == Pending ::
                ActivateAnswered(env, old(rows), rows, actor, i, r)
      ensures (forall i | i in old(rows) && old(rows)[i].publicId == publicId :: old(rows)[i].medium != Nfc || old(rows)[i].status != Pending) ==>
                rows == old(rows) && r == Err(NotFound)
    {
      if id :| id in rows && rows[id].publicId == publicId && rows[id].medium == Nfc && rows[id].status == Pending {
        NamedIs(rows, id);
        r := ActivateIdentifier(actor, id);
      } else {
        r := Err(NotFound);
      }
    }

    method RevokeIdentifier(actor: Actor, id: IdentifierId) returns (r: Result<IdentifierId, Error>)
      requires Valid()
      modifies this`rows
      ensures Valid()
      ensures Answer(rows, r) == Revocation(env, old(rows), actor, id)
      ensures
        if id !in old(rows) then rows == old(rows) && r == Err(NotFound)
        else if !InReach(env, actor, old(rows)[id].workspace) then rows == old(rows) && r == Err(AccessDenied)
        else rows == old(rows)[id := old(rows)[id].(status := Revoked)] && r == Ok(id)
    {
      RevokeKeeps(env, rows, actor, id);
      if id !in rows {
        return Err(NotFound);
      }
      if !MayUse(env, actor, rows[id].workspace) {
        return Err(AccessDenied);
      }
      if rows[id].status != Revoked {
        rows := rows[id := rows[id].(status := Revoked)];
      }
      return Ok(id);
    }

    method ResolveIdentifier(actor: Actor, publicId: string) returns (r: Result<IdentifierId, Error>)
      requires Valid()
      ensures r == Resolved(env, rows, actor, publicId)
      ensures forall i :: r == Ok(i) <==>
                && i in rows && rows[i].publicId == publicId && rows[i].status == Active
                && (actor.user, rows[i].workspace) in env.members && (actor.workspace == None || actor.workspace == Some(rows[i].workspace))
                && rows[i].target in env.targets && !env.targets[rows[i].target].archived
                && env.targets[rows[i].target].workspace == Some(rows[i].workspace)
      ensures r == Err(AccessDenied) <==>
                exists i :: i in rows && rows[i].publicId == publicId && rows[i].status == Active && !InReach(env, actor, rows[i].workspace)
      ensures r.Err? ==> r.error == NotFound || r.error == AccessDenied
    {
      if id :| id in rows && rows[id].publicId == publicId && rows[id].status == Active {
        NamedIs(rows, id);
        if !MayUse(env, actor, rows[id].workspace) {
          return Err(AccessDenied);
        }
        if TargetWorkspace(env, rows[id].target) != Some(rows[id].workspace) {
          return Err(NotFound);
        }
        return Ok(id);
      }
      return Err(NotFound);
    }
  }

  // content is the URI record of the tag, if it has one
  class Tag {
    var content: Option<string>

    constructor (initial: Option<string>)
      ensures content == initial
    {
      content := initial;
    }
  }

  // --- the phone --------------------------------------------------------------------

  // What happens to a request besides the server's answer.
  datatype Fault = Works | RequestLost | ReplyLost

  // Writing reads the old record, writes, and reads back at a second tap.
  datatype WriteFault = Written | NotReached | Unverified | Garbled(left: Option<string>)

  datatype Faults = Faults(create: Fault, write: WriteFault, activate: Fault, verify: Fault, check: Fault, revoke: Fault)

  datatype AssignError = NotCreated | NotWritten | NotActivated | Unsupported | NotActive | PreviousUnchecked | PreviousNotRevoked

  function PayloadOf(row: Identifier): string {
    Print(row.publicId, row.version)
  }

  // The tag carries an identifier of the target that is not revoked.
  ghost predicate Carries(rows: Rows, content: Option<string>, target: Target) {
    exists i :: i in rows && rows[i].target == target && rows[i].medium == Nfc && rows[i].status != Revoked
                && content == Some(PayloadOf(rows[i]))
  }

  // The tag's identifier is active and scanning it leads to the target.
  ghost predicate LeadsTo(env: Env, rows: Rows, actor: Actor, content: Option<string>, target: Target) {
    exists i :: i in rows && IsOne(rows[i], target, Nfc, Active) && content == Some(PayloadOf(rows[i]))
                && InReach(env, actor, rows[i].workspace) && LiveIn(env, target, rows[i].workspace)
  }

  // The public id of a version 1 payload.
  function NamedBy(content: Option<string>): Option<string> {
    if content.Some? && Parse(content.value).Some? && Parse(content.value).value.version == 1
    then Some(Parse(content.value).value.publicId)
    else None
  }

  // Scanning what the tag carried before leads nowhere, or to a printed code,
  // or to the identifier that the tag carries now.
  ghost predicate Silenced(env: Env, rows: Rows, actor: Actor, previous: Option<string>, content: Option<string>) {
    NamedBy(previous).Some? ==>
      var r := Resolved(env, rows, actor, NamedBy(previous).value);
      r.Err? || rows[r.value].medium == Qr || content == Some(PayloadOf(rows[r.value]))
  }

  // The tag carried a working NFC identifier of something else.
  ghost predicate LedElsewhere(env: Env, rows: Rows, actor: Actor, previous: Option<string>, target: Target) {
    && NamedBy(previous).Some?
    && var r := Resolved(env, rows, actor, NamedBy(previous).value);
       r.Ok? && rows[r.value].medium == Nfc && rows[r.value].target != target
  }

  // Only NFC identifiers of the target and the one named by the old content change.
  ghost predicate Confined(before: Rows, after: Rows, target: Target, previous: Option<string>) {
    forall i | i in before && i in after && after[i] != before[i] ::
      (before[i].target == target && before[i].medium == Nfc) || NamedBy(previous) == Some(before[i].publicId)
  }

  // The outcome that a normal return of the assignment reports.
  ghost predicate Assigned(env: Env, before: Rows, rows: Rows, actor: Actor, previous: Option<string>, content: Option<string>,
                           target: Target, takenOver: bool)
  {
    && LeadsTo(env, rows, actor, content, target)
    && Silenced(env, rows, actor, previous, content)
    && takenOver == LedElsewhere(env, before, actor, previous, target)
  }

  lemma OwnPayload(rows: Rows, id: IdentifierId)
    requires RowsInv(rows) && id in rows
    ensures Parse(PayloadOf(rows[id])) == Some(Parsed(rows[id].publicId, rows[id].version))
  {
    ParseReadsPrint(rows[id].publicId, rows[id].version, [], []);
    assert [] + PayloadOf(rows[id]) + [] == PayloadOf(rows[id]);
  }

  // What creating and activating the new identifier did to the rows.
  ghost predicate NowActive(before: Rows, rows: Rows, id: IdentifierId, target: Target) {
    && RowsInv(before) && RowsInv(rows) && Extends(before, rows)
    && id in rows && InSlot(rows[id], target, Nfc, Active)
    && rows.Keys <= before.Keys + {id}
    && (forall i | i in before && !(before[i].target == target && before[i].medium == Nfc) :: rows[i] == before[i])
  }

  lemma CreateThenActivate(env: Env, before: Rows, actor: Actor, target: Target, id: IdentifierId, publicId: string)
    requires RowsInv(before) && id !in before && IsPublicId(publicId)
    requires Created(env, before, actor, target, Nfc, id, publicId).reply.Ok?
    ensures
      var created := Created(env, before, actor, target, Nfc, id, publicId);
      var active := Activated(env, created.rows, actor, created.reply.value);
      active.reply.Ok? ==> NowActive(before, active.rows, created.reply.value, target)
  {
    CreateKeeps(env, before, actor, target, Nfc, id, publicId);
    var created := Created(env, before, actor, target, Nfc, id, publicId);
    ActivateKeeps(env, created.rows, actor, created.reply.value);
    ExtendsTransitive(before, created.rows, Activated(env, created.rows, actor, created.reply.value).rows);
  }

  // After the rows moved on, a tag with the new payload carries the target.
  ghost predicate OnItsWay(before: Rows, rows: Rows, id: IdentifierId, target: Target, payload: string) {
    && RowsInv(rows) && Extends(before, rows)
    && (forall i | i in before && rows[i] != before[i] :: before[i].target == target && before[i].medium == Nfc)
    && id in rows && rows[id].target == target && rows[id].medium == Nfc && rows[id].status != Revoked
    && payload == PayloadOf(rows[id])
  }

  lemma CreateOnItsWay(env: Env, before: Rows, actor: Actor, target: Target, id: IdentifierId, publicId: string)
    requires RowsInv(before) && id !in before && IsPublicId(publicId)
    ensures
      var created := Created(env, before, actor, target, Nfc, id, publicId);
      && (created.reply.Err? ==> created.rows == before)
      && (created.reply.Ok? ==>
            created.reply.value in created.rows
            && OnItsWay(before, created.rows, created.reply.value, target, PayloadOf(created.rows[created.reply.value])))
  {
    CreateKeeps(env, before, actor, target, Nfc, id, publicId);
  }

  lemma ActivateOnItsWay(env: Env, before: Rows, rows: Rows, actor: Actor, target: Target, id: IdentifierId, payload: string)
    requires OnItsWay(before, rows, id, target, payload)
    ensures OnItsWay(before, Activated(env, rows, actor, id).rows, id, target, payload)
  {
    ActivateKeeps(env, rows, actor, id);
    ExtendsTransitive(before, rows, Activated(env, rows, actor, id).rows);
  }

  lemma OnItsWayMeans(before: Rows, rows: Rows, id: IdentifierId, target: Target, payload: string, previous: Option<string>)
    requires OnItsWay(before, rows, id, target, payload)
    ensures Confined(before, rows, target, previous) && Carries(rows, Some(payload), target)
  {
  }

  // A different active NFC identifier belongs to something else, and did before.
  lemma OtherTagsUntouched(env: Env, before: Rows, rows: Rows, actor: Actor, id: IdentifierId, target: Target, publicId: string)
    requires NowActive(before, rows, id, target)
    ensures
      var was, now := Resolved(env, before, actor, publicId), Resolved(env, rows, actor, publicId);
      (was.Ok? && before[was.value].medium == Nfc && before[was.value].target != target)
      == (now.Ok? && rows[now.value].medium == Nfc && now.value != id)
  {
  }

  lemma RevokedLeadsNowhere(env: Env, rows: Rows, actor: Actor, id: IdentifierId)
    requires RowsInv(rows) && id in rows
    ensures Resolved(env, SetStatus(rows, id, Revoked), actor, rows[id].publicId) == Err(NotFound)
    ensures forall i | i in rows && i != id && Resolved(env, rows, actor, rows[i].publicId) == Ok(i) ::
      Resolved(env, SetStatus(rows, id, Revoked), actor, rows[i].publicId) == Ok(i)
  {
    var after := SetStatus(rows, id, Revoked);
    RevokeRow(rows, id);
    NamedIs(after, id);
    forall i | i in rows && i != id && Resolved(env, rows, actor, rows[i].publicId) == Ok(i)
      ensures Resolved(env, after, actor, rows[i].publicId) == Ok(i)
    {
      NamedIs(after, i);
    }
  }

  // Nothing is revoked when the old content names nothing that a tag should not.
  lemma NothingToRetire(env: Env, before: Rows, rows: Rows, actor: Actor, id: IdentifierId, target: Target, previous: Option<string>)
    requires NowActive(before, rows, id, target)
    requires Resolved(env, rows, actor, rows[id].publicId) == Ok(id)
    requires NamedBy(previous).Some? ==>
               var r := Resolved(env, rows, actor, NamedBy(previous).value);
               r.Err? || rows[r.value].medium == Qr || r.value == id
    ensures Assigned(env, before, rows, actor, previous, Some(PayloadOf(rows[id])), target, false)
  {
    ActiveLeads(env, rows, actor, id, target);
    if NamedBy(previous).Some? {
      OtherTagsUntouched(env, before, rows, actor, id, target, NamedBy(previous).value);
    }
  }

  lemma NothingBefore(rows: Rows, id: IdentifierId, previous: Option<string>)
    requires RowsInv(rows) && id in rows
    requires previous == None || previous == Some("") || previous == Some(PayloadOf(rows[id]))
    ensures NamedBy(previous) == None || (NamedBy(previous) == Some(rows[id].publicId) && previous == Some(PayloadOf(rows[id])))
  {
    assert Trim("") == "";
    OwnPayload(rows, id);
  }

  lemma TakeOver(env: Env, before: Rows, rows: Rows, actor: Actor, id: IdentifierId, target: Target, previous: Option<string>, other: IdentifierId)
    requires NowActive(before, rows, id, target) && other != id
    requires Resolved(env, rows, actor, rows[id].publicId) == Ok(id)
    requires NamedBy(previous).Some? && Resolved(env, rows, actor, NamedBy(previous).value) == Ok(other) && rows[other].medium == Nfc
    ensures
      var after := Revocation(env, rows, actor, other).rows;
      && RowsInv(after) && Extends(before, after) && after[id] == rows[id]
      && Confined(before, after, target, previous)
      && Assigned(env, before, after, actor, previous, Some(PayloadOf(after[id])), target, true)
  {
    RevokeKeeps(env, rows, actor, other);
    OtherTagsUntouched(env, before, rows, actor, id, target, NamedBy(previous).value);
    OtherRevoked(env, rows, actor, id, target, other);
    ExtendsTransitive(before, rows, Revocation(env, rows, actor, other).rows);
  }

  // Revoking another identifier silences it and leaves this one leading to its target.
  lemma OtherRevoked(env: Env, rows: Rows, actor: Actor, id: IdentifierId, target: Target, other: IdentifierId)
    requires RowsInv(rows) && id in rows && InSlot(rows[id], target, Nfc, Active) && other in rows && other != id
    requires Resolved(env, rows, actor, rows[id].publicId) == Ok(id) && Resolved(env, rows, actor, rows[other].publicId) == Ok(other)
    ensures
      var after := Revocation(env, rows, actor, other).rows;
      && id in after && after[id] == rows[id]
      && LeadsTo(env, after, actor, Some(PayloadOf(after[id])), target)
      && Resolved(env, after, actor, rows[other].publicId) == Err(NotFound)
  {
    RevokedLeadsNowhere(env, rows, actor, other);
    ActiveLeads(env, Revocation(env, rows, actor, other).rows, actor, id, target);
  }

  // An active tag identifier that resolves leads to its target.
  lemma ActiveLeads(env: Env, rows: Rows, actor: Actor, id: IdentifierId, target: Target)
    requires id in rows && InSlot(rows[id], target, Nfc, Active) && Resolved(env, rows, actor, rows[id].publicId) == Ok(id)
    ensures LeadsTo(env, rows, actor, Some(PayloadOf(rows[id])), target)
  {
    assert IsOne(rows[id], target, Nfc, Active);
  }

  predicate NoFaults(f: Faults) {
    f.create == Works && f.write == Written && f.activate == Works && f.verify == Works && f.check == Works && f.revoke == Works
  }

  // An identifier of the target can be made active: the target is live and in
  // reach, and a pending one left from before belongs to it, or the new public
  // id is unused.
  ghost predicate Assignable(env: Env, rows: Rows, actor: Actor, target: Target, publicId: string) {
    && Live(env, target) && InReach(env, actor, env.targets[target].workspace.value)
    && if HasOne(rows, target, Nfc, Pending) then
         forall i | i in rows && IsOne(rows[i], target, Nfc, Pending) ::
           LiveIn(env, target, rows[i].workspace) && rows[i].version == 1
       else forall i | i in rows :: rows[i].publicId != publicId
  }

  // What the tag carried is nothing, or unknown, or in reach, or an identifier
  // of the target itself.
  ghost predicate Retirable(env: Env, rows: Rows, actor: Actor, target: Target, previous: Option<string>) {
    NamedBy(previous).Some? && Resolved(env, rows, actor, NamedBy(previous).value) == Err(AccessDenied) ==>
      SameSlot(rows[Named(rows, NamedBy(previous).value)], NewIdentifier(0, "", target, Nfc))
  }

  lemma AssignableMeansCreated(env: Env, before: Rows, actor: Actor, target: Target, id: IdentifierId, publicId: string)
    requires RowsInv(before) && id !in before && IsPublicId(publicId)
    ensures
      var created := Created(env, before, actor, target, Nfc, id, publicId);
      Assignable(env, before, actor, target, publicId) ==
        (created.reply.Ok? && created.rows[created.reply.value].version == 1
         && TargetWorkspace(env, target) == Some(created.rows[created.reply.value].workspace))
  {
    CreateKeeps(env, before, actor, target, Nfc, id, publicId);
  }

  lemma CreatedInReach(env: Env, before: Rows, actor: Actor, target: Target, medium: Medium, id: IdentifierId, publicId: string)
    requires Created(env, before, actor, target, medium, id, publicId).reply.Ok?
    ensures TargetWorkspace(env, target).Some? && MayUse(env, actor, TargetWorkspace(env, target).value)
  {
  }

  lemma ActiveResolves(env: Env, rows: Rows, actor: Actor, id: IdentifierId)
    requires RowsInv(rows) && id in rows && rows[id].status == Active
    ensures Resolved(env, rows, actor, rows[id].publicId).Ok? <==>
              MayUse(env, actor, rows[id].workspace) && TargetWorkspace(env, rows[id].target) == Some(rows[id].workspace)
    ensures Resolved(env, rows, actor, rows[id].publicId).Ok? ==> Resolved(env, rows, actor, rows[id].publicId) == Ok(id)
  {
    NamedIs(rows, id);
  }

  // Activation takes no other old tag out of reach, and brings none into it.
  lemma RetirableStays(env: Env, before: Rows, rows: Rows, actor: Actor, id: IdentifierId, target: Target, previous: Option<string>)
    requires NowActive(before, rows, id, target)
    requires Resolved(env, rows, actor, rows[id].publicId) == Ok(id)
    ensures Retirable(env, before, actor, target, previous) <==>
              (NamedBy(previous).Some? ==> Resolved(env, rows, actor, NamedBy(previous).value) != Err(AccessDenied))
  {
    if NamedBy(previous).Some? {
      NamedIs(rows, id);
      ReachStays(env, before, rows, actor, id, target, NamedBy(previous).value);
    }
  }

  lemma ReachStays(env: Env, before: Rows, rows: Rows, actor: Actor, id: IdentifierId, target: Target, name: string)
    requires NowActive(before, rows, id, target) && Named(rows, rows[id].publicId) == id
    requires Resolved(env, rows, actor, rows[id].publicId) == Ok(id)
    ensures Resolved(env, rows, actor, name) == Err(AccessDenied) <==>
              && Resolved(env, before, actor, name) == Err(AccessDenied)
              && !SameSlot(before[Named(before, name)], NewIdentifier(0, "", target, Nfc))
  {
    if Known(before, name) {
      NamedIs(rows, Named(before, name));
    }
  }

  // What the tag carried before is no longer in the way.
  ghost predicate Retired(env: Env, before: Rows, rows: Rows, actor: Actor, target: Target, previous: Option<string>, content: Option<string>,
                          r: Result<bool, AssignError>)
  {
    && RowsInv(rows) && Extends(before, rows) && Confined(before, rows, target, previous) && Carries(rows, content, target)
    && (r.Ok? ==> Assigned(env, before, rows, actor, previous, content, target, r.value))
  }

  // Success is reported only when the old content was looked up, if it names
  // anything, and a take-over only when the revocation got through.
  ghost predicate Reported(f: Faults, previous: Option<string>, content: Option<string>, r: Result<bool, AssignError>) {
    r.Ok? ==>
      && (r.value ==> f.check == Works && f.revoke == Works)
      && (NamedBy(previous).Some? && previous != content ==> f.check == Works)
  }

  lemma NothingRetired(env: Env, before: Rows, rows: Rows, actor: Actor, id: IdentifierId, target: Target, previous: Option<string>, error: AssignError)
    requires NowActive(before, rows, id, target)
    ensures Retired(env, before, rows, actor, target, previous, Some(PayloadOf(rows[id])), Err(error))
  {
  }

  // The second half: what the tag carried before is looked up and revoked.
  method RetirePrevious(server: Server, tag: Tag, actor: Actor, target: Target, identifier: IdentifierId,
                        previous: Option<string>, ghost before: Rows, f: Faults)
    returns (r: Result<bool, AssignError>)
    requires NowActive(before, server.rows, identifier, target)
    requires tag.content == Some(PayloadOf(server.rows[identifier]))
    requires Resolved(server.env, server.rows, actor, server.rows[identifier].publicId) == Ok(identifier)
    modifies server`rows
    ensures Retired(server.env, before, server.rows, actor, target, previous, tag.content, r)
    ensures f.check == Works && f.revoke == Works ==>
              (r.Ok? <==> (NamedBy(previous).Some? ==> Resolved(server.env, old(server.rows), actor, NamedBy(previous).value) != Err(AccessDenied)))
    ensures Reported(f, previous, tag.content, r)
  {
    ghost var env := server.env;
    ghost var rows := server.rows;
    NamedIs(rows, identifier);
    if previous == None || previous == Some("") || previous == tag.content {
      NothingBefore(rows, identifier, previous);
      NothingToRetire(env, before, rows, actor, identifier, target, previous);
      return Ok(false);
    }
    var parsed := Parse(previous.value);
    if parsed == None || parsed.value.version != 1 {
      NothingToRetire(env, before, rows, actor, identifier, target, previous);
      return Ok(false);
    }
    r := RetireNamed(server, tag, actor, target, identifier, previous, parsed.value.publicId, before, f);
  }

  // The old content named an identifier.
  method RetireNamed(server: Server, tag: Tag, actor: Actor, target: Target, identifier: IdentifierId,
                     previous: Option<string>, publicId: string, ghost before: Rows, f: Faults)
    returns (r: Result<bool, AssignError>)
    requires NowActive(before, server.rows, identifier, target)
    requires tag.content == Some(PayloadOf(server.rows[identifier])) && NamedBy(previous) == Some(publicId)
    requires Resolved(server.env, server.rows, actor, server.rows[identifier].publicId) == Ok(identifier)
    modifies server`rows
    ensures Retired(server.env, before, server.rows, actor, target, previous, tag.content, r)
    ensures f.check == Works && f.revoke == Works ==>
              (r.Ok? <==> Resolved(server.env, old(server.rows), actor, publicId) != Err(AccessDenied))
    ensures r.Ok? ==> f.check == Works && (r.value ==> f.revoke == Works)
  {
    ghost var env := server.env;
    ghost var rows := server.rows;
    var resolution := server.ResolveIdentifier(actor, publicId);
    NothingRetired(env, before, rows, actor, identifier, target, previous, PreviousUnchecked);
    if f.check != Works {
      return Err(PreviousUnchecked);
    }
    r := RetireResolved(server, tag, actor, target, identifier, previous, resolution, before, f);
  }

  // The server answered what the old content names.
  method RetireResolved(server: Server, tag: Tag, actor: Actor, target: Target, identifier: IdentifierId,
                        previous: Option<string>, resolution: Result<IdentifierId, Error>, ghost before: Rows, f: Faults)
    returns (r: Result<bool, AssignError>)
    requires NowActive(before, server.rows, identifier, target)
    requires tag.content == Some(PayloadOf(server.rows[identifier])) && NamedBy(previous).Some?
    requires Resolved(server.env, server.rows, actor, server.rows[identifier].publicId) == Ok(identifier)
    requires resolution == Resolved(server.env, server.rows, actor, NamedBy(previous).value)
    modifies server`rows
    ensures Retired(server.env, before, server.rows, actor, target, previous, tag.content, r)
    ensures f.check == Works && f.revoke == Works ==> (r.Ok? <==> resolution != Err(AccessDenied))
    ensures r.Ok? && r.value ==> f.revoke == Works
  {
    ghost var env := server.env;
    ghost var rows := server.rows;
    NothingRetired(env, before, rows, actor, identifier, target, previous, PreviousUnchecked);
    if resolution == Err(NotFound) {
      NothingToRetire(env, before, rows, actor, identifier, target, previous);
      return Ok(false);
    }
    if resolution.Err? {
      return Err(PreviousUnchecked);
    }
    var other := resolution.value;
    if server.rows[other].medium == Nfc && other != identifier {
      r := RevokeOther(server, tag, actor, target, identifier, previous, other, before, f);
      return;
    }
    NothingToRetire(env, before, rows, actor, identifier, target, previous);
    return Ok(false);
  }

  // The old content led to another tag's identifier, which is revoked.
  method RevokeOther(server: Server, tag: Tag, actor: Actor, target: Target, identifier: IdentifierId,
                     previous: Option<string>, other: IdentifierId, ghost before: Rows, f: Faults)
    returns (r: Result<bool, AssignError>)
    requires NowActive(before, server.rows, identifier, target) && other != identifier
    requires tag.content == Some(PayloadOf(server.rows[identifier]))
    requires Resolved(server.env, server.rows, actor, server.rows[identifier].publicId) == Ok(identifier)
    requires NamedBy(previous).Some? && Resolved(server.env, server.rows, actor, NamedBy(previous).value) == Ok(other)
    requires server.rows[other].medium == Nfc
    modifies server`rows
    ensures Retired(server.env, before, server.rows, actor, target, previous, tag.content, r)
    ensures r.Ok? <==> f.revoke == Works
  {
    ghost var env := server.env;
    ghost var rows := server.rows;
    if f.revoke == RequestLost {
      NothingRetired(env, before, rows, actor, identifier, target, previous, PreviousNotRevoked);
      return Err(PreviousNotRevoked);
    }
    TakeOver(env, before, rows, actor, identifier, target, previous, other);
    var revoked := server.RevokeIdentifier(actor, other);
    assert Carries(server.rows, tag.content, target);
    if f.revoke == ReplyLost || revoked.Err? {
      return Err(PreviousNotRevoked);
    }
    return Ok(true);
  }

  // The tag's own content is checked, then the old content is retired.
  method CheckWritten(server: Server, tag: Tag, actor: Actor, target: Target, identifier: IdentifierId, previous: Option<string>,
                      ghost before: Rows, f: Faults)
    returns (r: Result<bool, AssignError>)
    requires NowActive(before, server.rows, identifier, target)
    requires tag.content == Some(PayloadOf(server.rows[identifier]))
    modifies server`rows
    ensures Retired(server.env, before, server.rows, actor, target, previous, tag.content, r)
    ensures NoFaults(f) ==>
              (r.Ok? <==>
                && old(server.rows)[identifier].version == 1
                && Resolved(server.env, old(server.rows), actor, old(server.rows)[identifier].publicId).Ok?
                && Retirable(server.env, before, actor, target, previous))
    ensures Reported(f, previous, tag.content, r) && (r.Ok? ==> f.verify == Works)
  {
    ghost var rows := server.rows;
    OwnPayload(rows, identifier);
    ActiveResolves(server.env, rows, actor, identifier);
    var current := Parse(PayloadOf(server.rows[identifier]));
    if current == None || current.value.version != 1 {
      NothingRetired(server.env, before, rows, actor, identifier, target, previous, Unsupported);
      return Err(Unsupported);
    }
    var resolved := server.ResolveIdentifier(actor, current.value.publicId);
    if f.verify != Works || resolved.Err? {
      NothingRetired(server.env, before, rows, actor, identifier, target, previous, NotActive);
      return Err(NotActive);
    }
    RetirableStays(server.env, before, rows, actor, identifier, target, previous);
    r := RetirePrevious(server, tag, actor, target, identifier, previous, before, f);
  }

  // From the written tag on: its identifier is made active first.
  method ActivateWritten(server: Server, tag: Tag, actor: Actor, target: Target, identifier: IdentifierId, previous: Option<string>,
                         ghost id: IdentifierId, ghost publicId: string, ghost before: Rows, f: Faults)
    returns (r: Result<bool, AssignError>)
    requires RowsInv(before) && id !in before && IsPublicId(publicId)
    requires Created(server.env, before, actor, target, Nfc, id, publicId) == Answer(server.rows, Ok(identifier))
    requires server.Valid() && identifier in server.rows && tag.content == Some(PayloadOf(server.rows[identifier]))
    modifies server`rows
    ensures Retired(server.env, before, server.rows, actor, target, previous, tag.content, r)
    ensures NoFaults(f) ==>
              (r.Ok? <==> Assignable(server.env, before, actor, target, publicId) && Retirable(server.env, before, actor, target, previous))
    ensures Reported(f, previous, tag.content, r) && (r.Ok? ==> f.activate == Works && f.verify == Works)
  {
    ghost var env := server.env;
    ghost var rows := server.rows;
    AssignableMeansCreated(env, before, actor, target, id, publicId);
    CreatedInReach(env, before, actor, target, Nfc, id, publicId);
    CreateOnItsWay(env, before, actor, target, id, publicId);
    WrittenStays(env, before, rows, actor, target, identifier, previous, NotActivated);
    if f.activate == RequestLost {
      return Err(NotActivated);
    }
    CreateThenActivate(env, before, actor, target, id, publicId);
    ActivateOnItsWay(env, before, rows, actor, target, identifier, PayloadOf(rows[identifier]));
    ActivateKeeps(env, rows, actor, identifier);
    var activated := server.ActivateIdentifier(actor, identifier);
    WrittenStays(env, before, server.rows, actor, target, identifier, previous, NotActivated);
    if f.activate == ReplyLost || activated.Err? {
      return Err(NotActivated);
    }
    ActiveResolves(env, server.rows, actor, identifier);
    r := CheckWritten(server, tag, actor, target, identifier, previous, before, f);
  }

  // Whatever fails before the old content is looked up leaves the tag usable.
  lemma WrittenStays(env: Env, before: Rows, rows: Rows, actor: Actor, target: Target, id: IdentifierId, previous: Option<string>, error: AssignError)
    requires id in rows && OnItsWay(before, rows, id, target, PayloadOf(rows[id]))
    ensures Retired(env, before, rows, actor, target, previous, Some(PayloadOf(rows[id])), Err(error))
  {
    OnItsWayMeans(before, rows, id, target, PayloadOf(rows[id]), previous);
  }

  // Writes the payload and has the tag read back at a second tap; the result is
  // what the tag carried before.
  method WriteNfcIdentifier(tag: Tag, payload: string, write: WriteFault) returns (previous: Result<Option<string>, ()>)
    modifies tag
    ensures previous == (if write == Written then Ok(old(tag.content)) else Err(()))
    ensures tag.content == (match write
                            case NotReached => old(tag.content)
                            case Garbled(left) => left
                            case _ => Some(payload))
  {
    if write == NotReached {
      return Err(());
    }
    var carried := tag.content;
    tag.content := if write.Garbled? then write.left else Some(payload);
    return if write == Written then Ok(carried) else Err(());
  }

  // Writes an identifier of the target to the tag.  A normal return means that
  // scanning the tag leads to the target and that what the tag carried before
  // no longer leads anywhere as a tag; the result tells whether a working tag
  // of something else was taken over.  On any failure the rows only moved
  // forward, and a tag that was written carries an identifier that can still be
  // made active.
  method AssignNfcTag(server: Server, tag: Tag, actor: Actor, target: Target, id: IdentifierId, publicId: string, f: Faults)
    returns (r: Result<bool, AssignError>)
    requires server.Valid() && id !in server.rows && IsPublicId(publicId)
    modifies server`rows, tag
    ensures server.Valid() && Extends(old(server.rows), server.rows)
    ensures Confined(old(server.rows), server.rows, target, old(tag.content))
    ensures tag.content == old(tag.content) || (f.write.Garbled? && tag.content == f.write.left) || Carries(server.rows, tag.content, target)
    ensures r.Ok? ==> Assigned(server.env, old(server.rows), server.rows, actor, old(tag.content), tag.content, target, r.value)
    ensures r.Ok? ==> f.create == Works && f.write == Written && f.activate == Works && f.verify == Works
    ensures Reported(f, old(tag.content), tag.content, r)
    ensures f.create != Works || f.write == NotReached ==> tag.content == old(tag.content)
    ensures f.create == RequestLost ==> server.rows == old(server.rows)
    ensures f.write.Garbled? ==> tag.content == old(tag.content) || tag.content == f.write.left
    ensures NoFaults(f) ==>
              (r.Ok? <==> && Assignable(server.env, old(server.rows), actor, target, publicId)
                          && Retirable(server.env, old(server.rows), actor, target, old(tag.content)))
  {
    ghost var before := server.rows;
    ghost var env := server.env;
    AssignableMeansCreated(env, before, actor, target, id, publicId);
    CreateOnItsWay(env, before, actor, target, id, publicId);
    if f.create == RequestLost {
      return Err(NotCreated);
    }
    var created := server.CreateIdentifier(actor, target, Nfc, id, publicId);
    if created.Ok? {
      OnItsWayMeans(before, server.rows, created.value, target, PayloadOf(server.rows[created.value]), tag.content);
    }
    if f.create == ReplyLost || created.Err? {
      return Err(NotCreated);
    }
    var identifier := created.value;
    var payload := PayloadOf(server.rows[identifier]);

    var previous := WriteNfcIdentifier(tag, payload, f.write);
    if previous.Err? {
      return Err(NotWritten);
    }

    r := ActivateWritten(server, tag, actor, target, identifier, previous.value, id, publicId, before, f);
  }

  // A tap that may recover a tag whose activation was lost: an identifier that
  // was not revoked, of a live target in reach, ends up active and resolved.
  method ResolveIdentifier(server: Server, actor: Actor, publicId: string, recoverPendingNfc: bool, first: Fault, activate: Fault, second: Fault)
    returns (r: Result<IdentifierId, Option<Error>>)
    requires server.Valid()
    modifies server`rows
    ensures server.Valid() && Extends(old(server.rows), server.rows)
    ensures !recoverPendingNfc ==> server.rows == old(server.rows)
    ensures r.Ok? ==> Resolved(server.env, server.rows, actor, publicId) == Ok(r.value)
    ensures first != Works ==> server.rows == old(server.rows) && r == Err(None)
    ensures r.Ok? && Resolved(server.env, old(server.rows), actor, publicId).Err? ==> activate == second == Works
    ensures activate == RequestLost ==> server.rows == old(server.rows)
    ensures r.Err? && first == activate == second == Works ==> r.error.Some?
    ensures recoverPendingNfc && first == activate == second == Works && Recoverable(server.env, old(server.rows), actor, publicId) ==>
              r.Ok? && server.rows[r.value].publicId == publicId
  {
    var resolution := server.ResolveIdentifier(actor, publicId);
    if first != Works {
      return Err(None);
    }
    if resolution.Ok? {
      return Ok(resolution.value);
    }
    if !recoverPendingNfc || resolution.error != NotFound {
      if Recoverable(server.env, server.rows, actor, publicId) {
        RecoverableOrActive(server.env, server.rows, actor, publicId);
      }
      return Err(Some(resolution.error));
    }
    if activate == RequestLost {
      return Err(None);
    }
    PendingActivateKeeps(server.env, server.rows, actor, publicId);
    var activated := server.ActivatePendingNfcIdentifier(actor, publicId);
    if activate == ReplyLost {
      return Err(None);
    }
    if activated.Err? {
      return Err(Some(activated.error));
    }
    var again := server.ResolveIdentifier(actor, publicId);
    if second != Works {
      return Err(None);
    }
    return if again.Ok? then Ok(again.value) else Err(Some(again.error));
  }

  ghost predicate Recoverable(env: Env, rows: Rows, actor: Actor, publicId: string) {
    exists i :: i in rows && rows[i].publicId == publicId && rows[i].medium == Nfc && rows[i].status != Revoked
                && InReach(env, actor, rows[i].workspace) && LiveIn(env, rows[i].target, rows[i].workspace)
  }

  lemma RecoverableOrActive(env: Env, rows: Rows, actor: Actor, publicId: string)
    requires RowsInv(rows) && Recoverable(env, rows, actor, publicId)
    ensures Resolved(env, rows, actor, publicId).Ok? || Resolved(env, rows, actor, publicId) == Err(NotFound)
  {
    var i :| i in rows && rows[i].publicId == publicId && InReach(env, actor, rows[i].workspace);
    NamedIs(rows, i);
  }

  lemma PendingActivateKeeps(env: Env, rows: Rows, actor: Actor, publicId: string)
    requires RowsInv(rows)
    ensures
      var after := PendingActivated(env, rows, actor, publicId);
      && RowsInv(after.rows) && Extends(rows, after.rows)
      && (Recoverable(env, rows, actor, publicId) && Resolved(env, rows, actor, publicId).Err? ==>
            after.reply.Ok? && Resolved(env, after.rows, actor, publicId).Ok?)
  {
    if Known(rows, publicId) {
      var id := Named(rows, publicId);
      ActivateKeeps(env, rows, actor, id);
      NamedIs(Activated(env, rows, actor, id).rows, id);
    }
  }
}

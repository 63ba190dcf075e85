/** Physical identifiers: the stored rows and what each server request makes of
    them.  A request runs alone here; overlapping requests are in IdentifierRuns. */
module IdentifierModel {
  import opened Common
  import opened Payload

  type IdentifierId = nat
  type TxId = nat
  type UserId = nat
  type Workspace = nat

  datatype Medium = Qr | Nfc

  datatype Status = Pending | Active | Revoked

  datatype Target = ItemTarget(item: nat) | ContainerTarget(container: nat)

  datatype Identifier = Identifier(
    workspace: Workspace,
    publicId: string,
    target: Target,
    medium: Medium,
    status: Status,
    version: nat)

  type Rows = map<IdentifierId, Identifier>

  // workspace is None for a container whose area is missing
  datatype TargetRow = TargetRow(workspace: Option<Workspace>, archived: bool)

  // What the requests read from other tables.
  datatype Env = Env(targets: map<Target, TargetRow>, members: set<(UserId, Workspace)>)

  datatype Actor = Actor(user: UserId, workspace: Option<Workspace>)

  datatype Error = NotFound | AccessDenied | InvalidTransition | Conflict

  datatype Answer = Answer(rows: Rows, reply: Result<IdentifierId, Error>)

  // --- constraints of the table -----------------------------------------------------

  predicate SameSlot(a: Identifier, b: Identifier) {
    a.target == b.target && a.medium == b.medium
  }

  // The two partial unique indexes on (target, medium).
  ghost predicate OnePerSlot(rows: Rows, status: Status) {
    forall i, j | i in rows && j in rows && i != j && rows[i].status == status && rows[j].status == status ::
      !SameSlot(rows[i], rows[j])
  }

  ghost predicate UniquePublicIds(rows: Rows) {
    forall i, j | i in rows && j in rows && i != j :: rows[i].publicId != rows[j].publicId
  }

  ghost predicate Indexed(rows: Rows) {
    OnePerSlot(rows, Pending) && OnePerSlot(rows, Active) && UniquePublicIds(rows)
  }

  ghost predicate RowsInv(rows: Rows) {
    Indexed(rows) && forall i | i in rows :: IsPublicId(rows[i].publicId) && rows[i].version <= MAX_SAFE_INTEGER
  }

  // --- lookups ----------------------------------------------------------------------

  predicate InSlot(row: Identifier, target: Target, medium: Medium, status: Status) {
    row.target == target && row.medium == medium && row.status == status
  }

  predicate Occupied(rows: Rows, target: Target, medium: Medium, status: Status) {
    exists i :: i in rows && InSlot(rows[i], target, medium, status)
  }

  ghost function Occupant(rows: Rows, target: Target, medium: Medium, status: Status): (id: IdentifierId)
    requires Occupied(rows, target, medium, status)
    ensures id in rows && InSlot(rows[id], target, medium, status)
  {
    var i :| i in rows && InSlot(rows[i], target, medium, status);
    i
  }

  predicate Known(rows: Rows, publicId: string) {
    exists i :: i in rows && rows[i].publicId == publicId
  }

  ghost function Named(rows: Rows, publicId: string): (id: IdentifierId)
    requires Known(rows, publicId)
    ensures id in rows && rows[id].publicId == publicId
  {
    var i :| i in rows && rows[i].publicId == publicId;
    i
  }

  function TargetWorkspace(env: Env, target: Target): Option<Workspace> {
    if target in env.targets && !env.targets[target].archived then env.targets[target].workspace else None
  }

  predicate MayUse(env: Env, actor: Actor, workspace: Workspace) {
    (actor.workspace == None || actor.workspace == Some(workspace)) && (actor.user, workspace) in env.members
  }

  // --- requests ---------------------------------------------------------------------

  function NewIdentifier(workspace: Workspace, publicId: string, target: Target, medium: Medium): Identifier {
    Identifier(workspace, publicId, target, medium, if medium == Qr then Active else Pending, 1)
  }

  ghost function Created(env: Env, rows: Rows, actor: Actor, target: Target, medium: Medium, id: IdentifierId, publicId: string): Answer
  {
    match TargetWorkspace(env, target)
    case None => Answer(rows, Err(NotFound))
    case Some(workspace) =>
      if !MayUse(env, actor, workspace) then Answer(rows, Err(AccessDenied))
      else if Occupied(rows, target, medium, Pending) then Answer(rows, Ok(Occupant(rows, target, medium, Pending)))
      else if medium == Qr && Occupied(rows, target, medium, Active) then Answer(rows, Ok(Occupant(rows, target, medium, Active)))
      else if Known(rows, publicId) then Answer(rows, Err(Conflict))
      else Answer(rows[id := NewIdentifier(workspace, publicId, target, medium)], Ok(id))
  }

  // The active identifier of the slot, if any, makes room.
  ghost function WithRoomFor(rows: Rows, row: Identifier): Rows {
    if Occupied(rows, row.target, row.medium, Active)
    then SetStatus(rows, Occupant(rows, row.target, row.medium, Active), Revoked)
    else rows
  }

  function SetStatus(rows: Rows, id: IdentifierId, status: Status): Rows
    requires id in rows
  {
    rows[id := rows[id].(status := status)]
  }

  ghost function Activated(env: Env, rows: Rows, actor: Actor, id: IdentifierId): Answer {
    if id !in rows then Answer(rows, Err(NotFound))
    else if !MayUse(env, actor, rows[id].workspace) then Answer(rows, Err(AccessDenied))
    else match rows[id].status
         case Revoked => Answer(rows, Err(InvalidTransition))
         case Active => Answer(rows, Ok(id))
         case Pending => Answer(SetStatus(WithRoomFor(rows, rows[id]), id, Active), Ok(id))
  }

  ghost function PendingActivated(env: Env, rows: Rows, actor: Actor, publicId: string): Answer {
    if Known(rows, publicId) && rows[Named(rows, publicId)].medium == Nfc && rows[Named(rows, publicId)].status == Pending
    then Activated(env, rows, actor, Named(rows, publicId))
    else Answer(rows, Err(NotFound))
  }

  ghost function Revocation(env: Env, rows: Rows, actor: Actor, id: IdentifierId): Answer {
    if id !in rows then Answer(rows, Err(NotFound))
    else if !MayUse(env, actor, rows[id].workspace) then Answer(rows, Err(AccessDenied))
    else Answer(SetStatus(rows, id, Revoked), Ok(id))
  }

  ghost function Resolved(env: Env, rows: Rows, actor: Actor, publicId: string): Result<IdentifierId, Error> {
    if !Known(rows, publicId) || rows[Named(rows, publicId)].status != Active then Err(NotFound)
    else
      var row := rows[Named(rows, publicId)];
      if !MayUse(env, actor, row.workspace) then Err(AccessDenied)
      else if TargetWorkspace(env, row.target) != Some(row.workspace) then Err(NotFound)
      else Ok(Named(rows, publicId))
  }

  // --- what every request keeps --------------------------------------------------------

  // Rows are never removed or renamed, and a revoked one stays revoked.
  ghost predicate Extends(before: Rows, after: Rows) {
    forall i | i in before ::
      && i in after
      && after[i] == before[i].(status := after[i].status)
      && (before[i].status == Revoked ==> after[i].status == Revoked)
  }

  lemma ExtendsTransitive(a: Rows, b: Rows, c: Rows)
    requires Extends(a, b) && Extends(b, c)
    ensures Extends(a, c)
  {
  }

  lemma AddRow(rows: Rows, id: IdentifierId, row: Identifier)
    requires RowsInv(rows) && id !in rows && IsPublicId(row.publicId) && row.version <= MAX_SAFE_INTEGER
    requires !Known(rows, row.publicId) && !Occupied(rows, row.target, row.medium, row.status)
    ensures RowsInv(rows[id := row]) && Extends(rows, rows[id := row])
  {
  }

  lemma RevokeRow(rows: Rows, id: IdentifierId)
    requires RowsInv(rows) && id in rows
    ensures RowsInv(SetStatus(rows, id, Revoked)) && Extends(rows, SetStatus(rows, id, Revoked))
  {
  }

  lemma ActivateRow(rows: Rows, id: IdentifierId)
    requires RowsInv(rows) && id in rows && rows[id].status == Pending
    requires !Occupied(rows, rows[id].target, rows[id].medium, Active)
    ensures RowsInv(SetStatus(rows, id, Active)) && Extends(rows, SetStatus(rows, id, Active))
  {
  }

  lemma CreateKeeps(env: Env, rows: Rows, actor: Actor, target: Target, medium: Medium, id: IdentifierId, publicId: string)
    requires RowsInv(rows) && id !in rows && IsPublicId(publicId)
    ensures
      var after := Created(env, rows, actor, target, medium, id, publicId);
      && RowsInv(after.rows) && Extends(rows, after.rows)
      && (after.rows == rows || (after.reply == Ok(id) && id in after.rows && after.rows == rows[id := after.rows[id]]))
      && (after.reply.Ok? ==>
            && after.reply.value in after.rows
            && after.rows[after.reply.value].target == target && after.rows[after.reply.value].medium == medium
            && after.rows[after.reply.value].status != Revoked
            && (medium == Nfc ==> after.rows[after.reply.value].status == Pending)
            && (medium == Qr && after.rows != rows ==> after.rows[id].status == Active))
  {
    var after := Created(env, rows, actor, target, medium, id, publicId);
    if after.rows != rows {
      AddRow(rows, id, after.rows[id]);
    }
  }

  lemma RoomIsFree(rows: Rows, row: Identifier)
    requires RowsInv(rows)
    ensures RowsInv(WithRoomFor(rows, row)) && Extends(rows, WithRoomFor(rows, row))
    ensures !Occupied(WithRoomFor(rows, row), row.target, row.medium, Active)
    ensures forall i | i in rows && (rows[i].status != Active || !SameSlot(rows[i], row)) :: WithRoomFor(rows, row)[i] == rows[i]
  {
    if Occupied(rows, row.target, row.medium, Active) {
      RevokeRow(rows, Occupant(rows, row.target, row.medium, Active));
    }
  }

  lemma ActivateKeeps(env: Env, rows: Rows, actor: Actor, id: IdentifierId)
    requires RowsInv(rows)
    ensures
      var after := Activated(env, rows, actor, id);
      && RowsInv(after.rows) && Extends(rows, after.rows)
      && (after.reply.Ok? ==> after.reply.value == id && id in after.rows && after.rows[id].status == Active)
      && (forall i | i in rows && i != id && (id !in rows || !SameSlot(rows[i], rows[id])) :: after.rows[i] == rows[i])
  {
    if id in rows && rows[id].status == Pending {
      RoomIsFree(rows, rows[id]);
      ActivateRow(WithRoomFor(rows, rows[id]), id);
    }
  }

  lemma RevokeKeeps(env: Env, rows: Rows, actor: Actor, id: IdentifierId)
    requires RowsInv(rows)
    ensures
      var after := Revocation(env, rows, actor, id);
      && RowsInv(after.rows) && Extends(rows, after.rows)
      && (after.reply.Ok? ==> id in after.rows && after.rows[id].status == Revoked)
      && (forall i | i in rows && i != id :: after.rows[i] == rows[i])
  {
    if id in rows {
      RevokeRow(rows, id);
    }
  }

  // A public id names at most one row, so lookups by it do not depend on choice.
  lemma NamedIs(rows: Rows, id: IdentifierId)
    requires UniquePublicIds(rows) && id in rows
    ensures Known(rows, rows[id].publicId) && Named(rows, rows[id].publicId) == id
  {
  }
}

/** Whole histories of identifiers: requests one after another with a tag being
    written between them, and requests whose read and commit interleave. */
module IdentifierRuns {
  import opened Common
  import opened Payload
  import opened IdentifierModel
  import opened IdentifierService

  // --- one request at a time ----------------------------------------------------------

  datatype Event =
    | CreateEvent(env: Env, actor: Actor, target: Target, medium: Medium, id: IdentifierId, publicId: string)
    | ActivateEvent(env: Env, actor: Actor, id: IdentifierId)
    | ActivatePendingEvent(env: Env, actor: Actor, publicId: string)
    | RevokeEvent(env: Env, actor: Actor, id: IdentifierId)
    | WriteTag(id: IdentifierId)              // with the payload of that identifier
    | ForeignWrite(content: Option<string>)   // by anything else

  // writtenFor is the target whose identifier the tag was last written with.
  datatype World = World(rows: Rows, tag: Option<string>, writtenFor: Option<Target>)

  ghost predicate Possible(w: World, e: Event) {
    match e
    case CreateEvent(_, _, _, _, id, publicId) => id !in w.rows && IsPublicId(publicId)
    case WriteTag(id) => id in w.rows
    case _ => true
  }

  ghost function After(w: World, e: Event): World
    requires Possible(w, e)
  {
    match e
    case CreateEvent(env, actor, target, medium, id, publicId) =>
      w.(rows := Created(env, w.rows, actor, target, medium, id, publicId).rows)
    case ActivateEvent(env, actor, id) => w.(rows := Activated(env, w.rows, actor, id).rows)
    case ActivatePendingEvent(env, actor, publicId) => w.(rows := PendingActivated(env, w.rows, actor, publicId).rows)
    case RevokeEvent(env, actor, id) => w.(rows := Revocation(env, w.rows, actor, id).rows)
    case WriteTag(id) => w.(tag := Some(PayloadOf(w.rows[id])), writtenFor := Some(w.rows[id].target))
    case ForeignWrite(content) => w.(tag := content, writtenFor := None)
  }

  // An event makes of the rows what its request answers, and of the tag what it writes.
  lemma EventAnswers(w: World, e: Event) returns (r: Result<IdentifierId, Error>)
    requires RowsInv(w.rows)
    requires e.CreateEvent? ==> e.id !in w.rows && IsPublicId(e.publicId)
    requires e.WriteTag? ==> e.id in w.rows
    ensures Possible(w, e)
    ensures
      var after := After(w, e);
      match e
      case CreateEvent(env, actor, target, medium, id, publicId) =>
        after.tag == w.tag && after.writtenFor == w.writtenFor
        && CreateAnswered(env, w.rows, after.rows, actor, target, medium, id, publicId, r)
      case ActivateEvent(env, actor, id) =>
        after.tag == w.tag && after.writtenFor == w.writtenFor && ActivateAnswered(env, w.rows, after.rows, actor, id, r)
      case ActivatePendingEvent(env, actor, publicId) =>
        && after.tag == w.tag && after.writtenFor == w.writtenFor
        && (forall i | i in w.rows && w.rows[i].publicId == publicId && w.rows[i].medium == Nfc && w.rows[i].status == Status.Pending ::
              ActivateAnswered(env, w.rows, after.rows, actor, i, r))
        && ((forall i | i in w.rows && w.rows[i].publicId == publicId :: w.rows[i].medium != Nfc || w.rows[i].status != Status.Pending) ==>
              after.rows == w.rows && r == Err(NotFound))
      case RevokeEvent(env, actor, id) =>
        && after.tag == w.tag && after.writtenFor == w.writtenFor
        && (if id !in w.rows then after.rows == w.rows && r == Err(NotFound)
            else if !InReach(env, actor, w.rows[id].workspace) then after.rows == w.rows && r == Err(AccessDenied)
            else after.rows == w.rows[id := w.rows[id].(status := Revoked)] && r == Ok(id))
      case WriteTag(id) =>
        after.rows == w.rows && after.tag == Some(PayloadOf(w.rows[id])) && after.writtenFor == Some(w.rows[id].target)
      case ForeignWrite(content) => after.rows == w.rows && after.tag == content && after.writtenFor == None
  {
    r := Err(NotFound);
    match e
    case CreateEvent(env, actor, target, medium, id, publicId) =>
      CreatedAnswers(env, w.rows, actor, target, medium, id, publicId);
      r := Created(env, w.rows, actor, target, medium, id, publicId).reply;
    case ActivateEvent(env, actor, id) =>
      ActivatedAnswers(env, w.rows, actor, id);
      r := Activated(env, w.rows, actor, id).reply;
    case ActivatePendingEvent(env, actor, publicId) =>
      if i :| i in w.rows && w.rows[i].publicId == publicId && w.rows[i].medium == Nfc && w.rows[i].status == Status.Pending {
        NamedIs(w.rows, i);
        ActivatedAnswers(env, w.rows, actor, i);
        r := Activated(env, w.rows, actor, i).reply;
      }
    case RevokeEvent(env, actor, id) => r := Revocation(env, w.rows, actor, id).reply;
    case _ =>
  }

  ghost predicate History(worlds: seq<World>, events: seq<Event>) {
    && |worlds| == |events| + 1
    && worlds[0].rows == map[] && worlds[0].writtenFor == None
    && forall i | 0 <= i < |events| :: Possible(worlds[i], events[i]) && worlds[i + 1] == After(worlds[i], events[i])
  }

  ghost predicate TagTruth(w: World) {
    w.writtenFor.Some? ==>
      exists i :: i in w.rows && w.rows[i].target == w.writtenFor.value && w.tag == Some(PayloadOf(w.rows[i]))
  }

  lemma EventKeeps(w: World, e: Event)
    requires RowsInv(w.rows) && Possible(w, e)
    ensures RowsInv(After(w, e).rows) && Extends(w.rows, After(w, e).rows)
  {
    match e
    case CreateEvent(env, actor, target, medium, id, publicId) => CreateKeeps(env, w.rows, actor, target, medium, id, publicId);
    case ActivateEvent(env, actor, id) => ActivateKeeps(env, w.rows, actor, id);
    case ActivatePendingEvent(env, actor, publicId) => PendingActivateKeeps(env, w.rows, actor, publicId);
    case RevokeEvent(env, actor, id) => RevokeKeeps(env, w.rows, actor, id);
    case _ =>
  }

  lemma TagFollowsRows(w: World, rows: Rows)
    requires TagTruth(w) && Extends(w.rows, rows)
    ensures TagTruth(w.(rows := rows))
  {
  }

  lemma EventKeepsTruth(w: World, e: Event)
    requires RowsInv(w.rows) && Possible(w, e) && TagTruth(w)
    ensures TagTruth(After(w, e))
  {
    EventKeeps(w, e);
    if !e.WriteTag? && !e.ForeignWrite? {
      TagFollowsRows(w, After(w, e).rows);
    }
  }

  // At every point of every history a slot has at most one pending and at most
  // one active identifier, and the tag carries what was written to it.
  lemma {:induction false} HistoryKeeps(worlds: seq<World>, events: seq<Event>, n: nat)
    requires History(worlds, events) && n < |worlds|
    ensures RowsInv(worlds[n].rows) && TagTruth(worlds[n])
  {
    if n > 0 {
      HistoryKeeps(worlds, events, n - 1);
      EventKeeps(worlds[n - 1], events[n - 1]);
      EventKeepsTruth(worlds[n - 1], events[n - 1]);
    }
  }

  lemma HistoryStep(worlds: seq<World>, events: seq<Event>, k: nat)
    requires History(worlds, events) && k < |events|
    ensures Extends(worlds[k].rows, worlds[k + 1].rows)
  {
    HistoryKeeps(worlds, events, k);
    EventKeeps(worlds[k], events[k]);
  }

  lemma {:induction false} ExtendsAlong(rows: seq<Rows>, i: nat, j: nat)
    requires forall k | 0 < k < |rows| :: Extends(rows[k - 1], rows[k])
    requires i <= j < |rows|
    ensures Extends(rows[i], rows[j])
  {
    if i < j {
      ExtendsAlong(rows, i, j - 1);
      ExtendsTransitive(rows[i], rows[j - 1], rows[j]);
    }
  }

  // Identifiers keep their name, target and medium, and revocation is final.
  lemma RevokedIsFinal(worlds: seq<World>, events: seq<Event>, i: nat, j: nat)
    requires History(worlds, events) && i <= j < |worlds|
    ensures Extends(worlds[i].rows, worlds[j].rows)
  {
    var rows := seq(|worlds|, k requires 0 <= k < |worlds| => worlds[k].rows);
    forall k | 0 < k < |rows| ensures Extends(rows[k - 1], rows[k]) {
      HistoryStep(worlds, events, k - 1);
    }
    ExtendsAlong(rows, i, j);
  }

  // Whatever happened since it was written, scanning a tag leads to the target
  // it was written for or nowhere.
  lemma TagLeadsOnlyToItsTarget(worlds: seq<World>, events: seq<Event>, n: nat, env: Env, actor: Actor)
    requires History(worlds, events) && n < |worlds|
    requires worlds[n].writtenFor.Some? && worlds[n].tag.Some?
    ensures
      var w := worlds[n];
      && Parse(w.tag.value).Some?
      && var r := Resolved(env, w.rows, actor, Parse(w.tag.value).value.publicId);
         r.Ok? ==> w.rows[r.value].target == w.writtenFor.value
  {
    HistoryKeeps(worlds, events, n);
    var w := worlds[n];
    var i :| i in w.rows && w.rows[i].target == w.writtenFor.value && w.tag == Some(PayloadOf(w.rows[i]));
    OwnPayload(w.rows, i);
    NamedIs(w.rows, i);
  }

  // --- overlapping requests --------------------------------------------------------------

  // What a request has read and not yet committed.
  datatype OpenRequest = Activating(id: IdentifierId, previous: Option<IdentifierId>) | Revoking(id: IdentifierId)

  datatype Race = Race(rows: Rows, open: map<TxId, OpenRequest>)

  datatype Move =
    | Insert(id: IdentifierId, row: Identifier)
    | ReadActivate(tx: TxId, id: IdentifierId)
    | ReadRevoke(tx: TxId, id: IdentifierId)
    | Commit(tx: TxId)
    | Drop(tx: TxId)

  ghost function PreviousOf(rows: Rows, row: Identifier): Option<IdentifierId> {
    if Occupied(rows, row.target, row.medium, Active) then Some(Occupant(rows, row.target, row.medium, Active)) else None
  }

  // The updates of a commit; they do not look at the status again.
  function Written(rows: Rows, p: OpenRequest): Rows
    requires p.id in rows && (p.Activating? && p.previous.Some? ==> p.previous.value in rows)
  {
    match p
    case Revoking(id) => SetStatus(rows, id, Revoked)
    case Activating(id, previous) =>
      SetStatus(if previous.Some? then SetStatus(rows, previous.value, Revoked) else rows, id, Active)
  }

  ghost predicate RowsExist(rows: Rows, p: OpenRequest) {
    p.id in rows && (p.Activating? && p.previous.Some? ==> p.previous.value in rows)
  }

  ghost predicate MayMove(s: Race, m: Move) {
    match m
    case Insert(id, row) => id !in s.rows && row.status != Revoked && Indexed(s.rows[id := row])
    case ReadActivate(tx, id) => tx !in s.open && id in s.rows && s.rows[id].status == Pending
    case ReadRevoke(tx, id) => tx !in s.open && id in s.rows && s.rows[id].status != Revoked
    case Commit(tx) => tx in s.open && RowsExist(s.rows, s.open[tx]) && Indexed(Written(s.rows, s.open[tx]))
    case Drop(tx) => tx in s.open
  }

  ghost function Moved(s: Race, m: Move): Race
    requires MayMove(s, m)
  {
    match m
    case Insert(id, row) => s.(rows := s.rows[id := row])
    case ReadActivate(tx, id) => s.(open := s.open[tx := Activating(id, PreviousOf(s.rows, s.rows[id]))])
    case ReadRevoke(tx, id) => s.(open := s.open[tx := Revoking(id)])
    case Commit(tx) => Race(Written(s.rows, s.open[tx]), s.open - {tx})
    case Drop(tx) => s.(open := s.open - {tx})
  }

  ghost predicate Interleaving(states: seq<Race>, moves: seq<Move>) {
    && |states| == |moves| + 1
    && forall i | 0 <= i < |moves| :: MayMove(states[i], moves[i]) && states[i + 1] == Moved(states[i], moves[i])
  }

  ghost predicate RaceInv(s: Race) {
    Indexed(s.rows) && forall t | t in s.open :: RowsExist(s.rows, s.open[t]) && (s.open[t].Activating? ==> s.open[t].previous != Some(s.open[t].id))
  }

  ghost predicate ActivationOpen(s: Race, id: IdentifierId) {
    exists t :: t in s.open && s.open[t].Activating? && s.open[t].id == id
  }

  lemma MoveKeeps(s: Race, m: Move)
    requires RaceInv(s) && MayMove(s, m)
    ensures RaceInv(Moved(s, m)) && s.rows.Keys <= Moved(s, m).rows.Keys
  {
  }

  // What an activation writes whose read is still up to date.
  lemma WrittenAnswers(rows: Rows, id: IdentifierId, env: Env, actor: Actor)
    requires Indexed(rows) && id in rows && rows[id].status == Status.Pending && InReach(env, actor, rows[id].workspace)
    ensures
      var p := Activating(id, PreviousOf(rows, rows[id]));
      RowsExist(rows, p) && ActivateAnswered(env, rows, Written(rows, p), actor, id, Ok(id))
  {
    assert forall i | i in rows && IsOne(rows[i], rows[id].target, rows[id].medium, Active) ::
        InSlot(rows[i], rows[id].target, rows[id].medium, Active);
  }

  lemma WrittenIsIndexed(rows: Rows, id: IdentifierId)
    requires Indexed(rows) && id in rows && rows[id].status == Status.Pending
    ensures
      var p := Activating(id, PreviousOf(rows, rows[id]));
      RowsExist(rows, p) && Indexed(Written(rows, p))
  {
    var previous := PreviousOf(rows, rows[id]);
    var freed := if previous.Some? then SetStatus(rows, previous.value, Revoked) else rows;
    if previous.Some? {
      RevokingIsIndexed(rows, previous.value);
    }
    assert forall i | i in rows && rows[i].status == Active && SameSlot(rows[i], rows[id]) ::
        InSlot(rows[i], rows[id].target, rows[id].medium, Active);
    ActivatingIsIndexed(freed, id);
  }

  // A request that nothing gets between has the effect of the serial one.
  lemma ActivateAlone(s: Race, t: TxId, id: IdentifierId, env: Env, actor: Actor) returns (after: Race)
    requires RaceInv(s) && t !in s.open && id in s.rows && s.rows[id].status == Status.Pending && InReach(env, actor, s.rows[id].workspace)
    ensures MayMove(s, ReadActivate(t, id)) && MayMove(Moved(s, ReadActivate(t, id)), Commit(t))
    ensures after == Moved(Moved(s, ReadActivate(t, id)), Commit(t))
    ensures ActivateAnswered(env, s.rows, after.rows, actor, id, Ok(id)) && after.open == s.open
    ensures MayMove(Moved(s, ReadActivate(t, id)), Drop(t)) && Moved(Moved(s, ReadActivate(t, id)), Drop(t)) == s
  {
    WrittenAnswers(s.rows, id, env, actor);
    WrittenIsIndexed(s.rows, id);
    var read := Moved(s, ReadActivate(t, id));
    assert read.rows == s.rows && read.open[t] == Activating(id, PreviousOf(s.rows, s.rows[id]));
    after := Moved(read, Commit(t));
  }

  lemma RevokeAlone(s: Race, t: TxId, id: IdentifierId)
    requires RaceInv(s) && t !in s.open && id in s.rows && s.rows[id].status != Revoked
    ensures MayMove(s, ReadRevoke(t, id)) && MayMove(Moved(s, ReadRevoke(t, id)), Commit(t))
    ensures Moved(Moved(s, ReadRevoke(t, id)), Commit(t)) == Race(s.rows[id := s.rows[id].(status := Revoked)], s.open)
  {
    RevokingIsIndexed(s.rows, id);
  }

  // In every interleaving the two indexes hold.
  lemma {:induction false} InterleavingKeeps(states: seq<Race>, moves: seq<Move>, n: nat)
    requires Interleaving(states, moves) && RaceInv(states[0]) && n < |states|
    ensures RaceInv(states[n])
  {
    if n > 0 {
      InterleavingKeeps(states, moves, n - 1);
      MoveKeeps(states[n - 1], moves[n - 1]);
    }
  }

  ghost predicate RevokedRow(s: Race, id: IdentifierId) {
    id in s.rows && s.rows[id].status == Revoked
  }

  lemma {:induction false} RevokedUnlessOpen(states: seq<Race>, moves: seq<Move>, id: IdentifierId, n: nat)
    requires Interleaving(states, moves) && RaceInv(states[0]) && n < |states|
    requires RevokedRow(states[0], id) && !ActivationOpen(states[0], id)
    ensures RevokedRow(states[n], id) && !ActivationOpen(states[n], id)
  {
    if n > 0 {
      RevokedUnlessOpen(states, moves, id, n - 1);
      InterleavingKeeps(states, moves, n - 1);
      var s, m := states[n - 1], moves[n - 1];
      if m.Commit? {
        assert s.open[m.tx].Activating? ==> s.open[m.tx].id != id;
      }
    }
  }

  // The identifier can come back from revocation.
  ghost predicate CanReturn(s: Race, id: IdentifierId) {
    exists states, moves :: Interleaving(states, moves) && states[0] == s && !RevokedRow(states[|states| - 1], id)
  }

  // No identifier but those in except is active in the row's slot.
  ghost predicate OnlyActive(rows: Rows, row: Identifier, except: Option<IdentifierId>) {
    forall o | o in rows && rows[o].status == Active && SameSlot(rows[o], row) :: except == Some(o)
  }

  lemma RevokingIsIndexed(rows: Rows, id: IdentifierId)
    requires Indexed(rows) && id in rows
    ensures Indexed(SetStatus(rows, id, Revoked))
  {
  }

  lemma ActivatingIsIndexed(rows: Rows, id: IdentifierId)
    requires Indexed(rows) && id in rows && OnlyActive(rows, rows[id], None)
    ensures Indexed(SetStatus(rows, id, Active))
  {
  }

  lemma CommitReturns(s: Race, t: TxId)
    requires RaceInv(s) && t in s.open && s.open[t].Activating? && RevokedRow(s, s.open[t].id)
    requires OnlyActive(s.rows, s.rows[s.open[t].id], s.open[t].previous)
    ensures CanReturn(s, s.open[t].id)
  {
    var id, previous := s.open[t].id, s.open[t].previous;
    var rows := if previous.Some? then SetStatus(s.rows, previous.value, Revoked) else s.rows;
    if previous.Some? {
      RevokingIsIndexed(s.rows, previous.value);
    }
    ActivatingIsIndexed(rows, id);
    ReturnsByMove(s, Commit(t), id);
  }

  lemma ReturnsByMove(s: Race, m: Move, id: IdentifierId)
    requires MayMove(s, m) && !RevokedRow(Moved(s, m), id)
    ensures CanReturn(s, id)
  {
    var states, moves := [s, Moved(s, m)], [m];
    assert Interleaving(states, moves) && !RevokedRow(states[|states| - 1], id);
  }

  lemma ReturnsAfterMove(s: Race, m: Move, id: IdentifierId)
    requires MayMove(s, m) && CanReturn(Moved(s, m), id)
    ensures CanReturn(s, id)
  {
    var states, moves :| Interleaving(states, moves) && states[0] == Moved(s, m) && !RevokedRow(states[|states| - 1], id);
    var states', moves' := [s] + states, [m] + moves;
    forall i | 0 <= i < |moves'| ensures MayMove(states'[i], moves'[i]) && states'[i + 1] == Moved(states'[i], moves'[i]) {
      if i > 0 {
        assert states'[i] == states[i - 1] && moves'[i] == moves[i - 1] && states'[i + 1] == states[i];
      }
    }
    assert Interleaving(states', moves') && states'[|states'| - 1] == states[|states| - 1];
  }

  // Another client revokes the identifier that took the place.
  lemma RivalRevoked(s: Race, t: TxId, o: IdentifierId, u: TxId) returns (s1: Race, s2: Race)
    requires RaceInv(s) && t in s.open && s.open[t].Activating? && RevokedRow(s, s.open[t].id)
    requires o in s.rows && s.rows[o].status == Active && SameSlot(s.rows[o], s.rows[s.open[t].id]) && u !in s.open
    ensures MayMove(s, ReadRevoke(u, o)) && s1 == Moved(s, ReadRevoke(u, o))
    ensures MayMove(s1, Commit(u)) && s2 == Moved(s1, Commit(u))
    ensures RaceInv(s2) && t in s2.open && s2.open[t] == s.open[t] && s2.rows == SetStatus(s.rows, o, Revoked)
  {
    RevokingIsIndexed(s.rows, o);
    MoveKeeps(s, ReadRevoke(u, o));
    s1 := Moved(s, ReadRevoke(u, o));
    MoveKeeps(s1, Commit(u));
    s2 := Moved(s1, Commit(u));
  }

  lemma NoRivalLeft(rows: Rows, row: Identifier, o: IdentifierId, previous: Option<IdentifierId>)
    requires Indexed(rows) && o in rows && rows[o].status == Active && SameSlot(rows[o], row)
    ensures OnlyActive(SetStatus(rows, o, Revoked), row, previous)
  {
  }

  // An activation that read the row before it was revoked brings it back,
  // after the identifier now in its place is revoked in turn.
  lemma OpenActivationReturns(s: Race, id: IdentifierId)
    requires RaceInv(s) && RevokedRow(s, id) && ActivationOpen(s, id)
    ensures CanReturn(s, id)
  {
    var t :| t in s.open && s.open[t].Activating? && s.open[t].id == id;
    if OnlyActive(s.rows, s.rows[id], s.open[t].previous) {
      CommitReturns(s, t);
    } else {
      var o :| o in s.rows && s.rows[o].status == Active && SameSlot(s.rows[o], s.rows[id]) && s.open[t].previous != Some(o);
      var u := FreeTx(s.open.Keys);
      var s1, s2 := RivalRevoked(s, t, o, u);
      NoRivalLeft(s.rows, s.rows[id], o, s.open[t].previous);
      CommitReturns(s2, t);
      ReturnsAfterMove(s1, Commit(u), id);
      ReturnsAfterMove(s, ReadRevoke(u, o), id);
    }
  }

  lemma {:induction false} FreeTx(used: set<TxId>) returns (t: TxId)
    ensures t !in used
    decreases |used|
  {
    var above := HighestTx(used);
    t := above + 1;
  }

  lemma {:induction false} HighestTx(used: set<TxId>) returns (top: TxId)
    ensures forall t | t in used :: t <= top
    decreases |used|
  {
    if used == {} {
      top := 0;
    } else {
      var t :| t in used;
      var rest := HighestTx(used - {t});
      top := if rest > t then rest else t;
      assert forall x | x in used :: x == t || x in used - {t};
    }
  }

  // With overlapping requests a revoked identifier stays revoked exactly when no
  // activation that read it earlier is still to commit.
  lemma RevocationHoldsExactly(s: Race, id: IdentifierId)
    requires RaceInv(s) && RevokedRow(s, id)
    ensures CanReturn(s, id) <==> ActivationOpen(s, id)
  {
    if ActivationOpen(s, id) {
      OpenActivationReturns(s, id);
    } else if CanReturn(s, id) {
      var states, moves :| Interleaving(states, moves) && states[0] == s && !RevokedRow(states[|states| - 1], id);
      RevokedUnlessOpen(states, moves, id, |states| - 1);
    }
  }

  lemma Continue(states: seq<Race>, moves: seq<Move>, m: Move) returns (states': seq<Race>, moves': seq<Move>)
    requires Interleaving(states, moves) && MayMove(states[|states| - 1], m)
    ensures states' == states + [Moved(states[|states| - 1], m)] && moves' == moves + [m]
    ensures Interleaving(states', moves')
  {
    states', moves' := states + [Moved(states[|states| - 1], m)], moves + [m];
  }

  // Such a state is reached: one request activates, the other revokes in between.
  lemma RevokeBetweenReadAndCommit(id: IdentifierId, row: Identifier) returns (states: seq<Race>, moves: seq<Move>)
    requires row.status == Status.Pending
    ensures Interleaving(states, moves) && states[0] == Race(map[], map[])
    ensures |states| == 6 && RevokedRow(states[4], id) && !RevokedRow(states[5], id)
  {
    states, moves := [Race(map[], map[])], [];
    states, moves := Continue(states, moves, Insert(id, row));
    states, moves := Continue(states, moves, ReadActivate(0, id));
    states, moves := Continue(states, moves, ReadRevoke(1, id));
    states, moves := Continue(states, moves, Commit(1));
    states, moves := Continue(states, moves, Commit(0));
  }
}

/** The checkout requests as the server performs each of them alone, with every
    error it answers; a request that commits is a run of the machine. */
module CheckoutService {
  import opened Common
  import opened CheckoutModel
  import opened CheckoutInvariant
  import opened CheckoutTheorems

  datatype Error = NotFound | AccessDenied | Invalid | Conflict | RevisionConflict | ItemsConflict(items: set<ItemId>)

  // The caller's membership is role; the session is the caller's own and active.
  ghost predicate MayEdit(sessions: Sessions, sid: SessionId, actor: UserId, role: Option<Role>) {
    sid in sessions && sessions[sid].status == Active && role.Some? && sessions[sid].actor == actor
  }

  // Why a session may not be edited: there is no active one, or it is not the caller's.
  ghost predicate EditRefused(sessions: Sessions, sid: SessionId, actor: UserId, role: Option<Role>, r: Result<Session, Error>) {
    && !MayEdit(sessions, sid, actor, role)
    && r == Err(if sid in sessions && sessions[sid].status == Active then AccessDenied else NotFound)
  }

  ghost predicate IsActive(row: Session, workspace: Workspace, actor: UserId) {
    row.workspace == workspace && row.actor == actor && row.status == Active
  }

  ghost predicate HasActive(sessions: Sessions, workspace: Workspace, actor: UserId) {
    exists x :: x in sessions && IsActive(sessions[x], workspace, actor)
  }

  ghost predicate HasLinked(profiles: map<BorrowerId, Profile>, workspace: Workspace, user: UserId) {
    exists p :: p in profiles && profiles[p].workspace == workspace && profiles[p].linkedUser == Some(user)
  }

  // The item is stored in the workspace and not archived.
  ghost predicate InUse(items: map<ItemId, Item>, workspace: Workspace, item: ItemId) {
    item in items && items[item].workspace == workspace && !items[item].archived
  }

  // The answer to finalizing the caller's active session, in the order of the checks.
  ghost predicate Finalized(items: map<ItemId, Item>, profiles: map<BorrowerId, Profile>, checkouts: Checkouts, row: Session,
                            actor: UserId, role: Role, expected: int, r: Result<Session, Error>)
  {
    if row.revision != expected then r == Err(RevisionConflict)
    else if row.borrower == None then r == Err(Invalid)
    else if !MayLendTo(row, actor, role, profiles) then r == Err(AccessDenied)
    else if row.items == {} then r == Err(Invalid)
    else if exists i :: i in row.items && !Lendable(items, checkouts, row.workspace, i) then r.Err? && r.error.ItemsConflict?
    else r == Ok(row.(status := Completed, revision := row.revision + 1))
  }

  class Service {
    var sessions: Sessions
    var items: map<ItemId, Item>
    var profiles: map<BorrowerId, Profile>
    var checkouts: Checkouts

    ghost predicate Valid()
      reads this
    {
      OneOpenPerItem(checkouts) && OneActivePerActor(sessions)
    }

    // The rows as a state of the machine in which no request is running.
    ghost function Rows(): State
      reads this
    {
      State(sessions, items, profiles, checkouts, map[], map[])
    }

    constructor (items: map<ItemId, Item>, profiles: map<BorrowerId, Profile>)
      ensures Valid() && sessions == map[] && checkouts == map[]
      ensures this.items == items && this.profiles == profiles
    {
      this.items, this.profiles, sessions, checkouts := items, profiles, map[], map[];
    }

    // What other requests do to the rows that checkouts read: items are created,
    // changed and archived, profiles are added and edited.
    method StoreItem(item: ItemId, row: Item)
      requires Valid()
      modifies this`items
      ensures Valid() && items == old(items)[item := row]
      ensures Step(old(Rows()), PutItem(item, row), Rows())
    {
      items := items[item := row];
    }

    method StoreProfile(profile: BorrowerId, person: Profile)
      requires Valid()
      modifies this`profiles
      ensures Valid() && profiles == old(profiles)[profile := person]
      ensures Step(old(Rows()), PutProfile(profile, person), Rows())
    {
      profiles := profiles[profile := person];
    }

    method RequireEditableSession(sid: SessionId, actor: UserId, role: Option<Role>) returns (r: Result<Session, Error>)
      ensures r.Ok? <==> MayEdit(sessions, sid, actor, role)
      ensures r.Ok? ==> r.value == sessions[sid]
      ensures r.Err? ==> EditRefused(sessions, sid, actor, role, r)
    {
      if sid !in sessions || sessions[sid].status != Active {
        return Err(NotFound);
      }
      if role == None || sessions[sid].actor != actor {
        return Err(AccessDenied);
      }
      return Ok(sessions[sid]);
    }

    // A caller has one active session in a workspace and gets it back.
    method GetOrCreateActiveSession(workspace: Workspace, actor: UserId, role: Option<Role>, id: SessionId)
      returns (r: Result<SessionId, Error>)
      requires Valid() && id !in sessions
      modifies this`sessions
      ensures Valid()
      ensures r.Err? ==> r.error == AccessDenied && sessions == old(sessions)
      ensures r.Err? <==> role == None || (role == Some(Borrower) && !HasActive(old(sessions), workspace, actor) && !HasLinked(profiles, workspace, actor))
      ensures r.Ok? ==>
                && r.value in sessions && IsActive(sessions[r.value], workspace, actor)
                && (if HasActive(old(sessions), workspace, actor) then sessions == old(sessions)
                    else r.value == id && id in sessions && sessions == old(sessions)[id := sessions[id]]
                         && sessions[id] == Session(workspace, actor, sessions[id].borrower, None, None, {}, Active, 1)
                         && (role == Some(Owner) ==> sessions[id].borrower == None)
                         && (role == Some(Borrower) ==>
                               && sessions[id].borrower.Some? && sessions[id].borrower.value in profiles
                               && profiles[sessions[id].borrower.value] == Profile(workspace, Some(actor)))
                         && Step(old(Rows()), OpenSession(id, workspace, actor, sessions[id].borrower), Rows()))
    {
      if role == None {
        return Err(AccessDenied);
      }
      if current :| current in sessions && sessions[current].workspace == workspace && sessions[current].actor == actor
                    && sessions[current].status == Active
      {
        assert IsActive(sessions[current], workspace, actor);
        return Ok(current);
      }
      var borrower: Option<BorrowerId> := None;
      if role == Some(Borrower) {
        if linked :| linked in profiles && profiles[linked].workspace == workspace && profiles[linked].linkedUser == Some(actor) {
          borrower := Some(linked);
        } else {
          return Err(AccessDenied);
        }
      }
      sessions := sessions[id := Session(workspace, actor, borrower, None, None, {}, Active, 1)];
      return Ok(id);
    }

    // A direct checkout of one item, outside any session.
    method CreateCheckout(workspace: Workspace, actor: UserId, role: Option<Role>, item: ItemId, borrower: Option<BorrowerId>,
                          dueAt: Option<nat>, note: Option<string>, id: CheckoutId)
      returns (r: Result<CheckoutId, Error>)
      requires Valid() && id !in checkouts
      modifies this`checkouts
      ensures Valid()
      ensures r.Err? ==> checkouts == old(checkouts)
      ensures r.Ok? <==>
                && role.Some? && item in items && items[item].workspace == workspace && !items[item].archived
                && (forall c | c in old(checkouts) && old(checkouts)[c].item == item :: old(checkouts)[c].returned)
                && (if role == Some(Owner) then
                      borrower.Some? && borrower.value in profiles && profiles[borrower.value].workspace == workspace
                    else borrower == None && HasLinked(profiles, workspace, actor))
      ensures r == Err(NotFound) <==> role.Some? && !InUse(items, workspace, item)
      ensures r == Err(Invalid) <==> role == Some(Owner) && InUse(items, workspace, item) && borrower == None
      ensures r == Err(Conflict) ==> exists c :: c in checkouts && checkouts[c].item == item && !checkouts[c].returned
      ensures r == Err(AccessDenied) <==>
                || role == None
                || (InUse(items, workspace, item)
                    && (if role == Some(Owner) then
                          borrower.Some? && !(borrower.value in profiles && profiles[borrower.value].workspace == workspace)
                        else borrower.Some? || !HasLinked(profiles, workspace, actor)))
      ensures r.Ok? ==>
                && r.value == id && id in checkouts && checkouts == old(checkouts)[id := checkouts[id]]
                && var row := checkouts[id];
                   && row == Checkout(workspace, item, row.borrower, dueAt, note, actor, false)
                   && row.borrower in profiles && profiles[row.borrower].workspace == workspace
                   && (role == Some(Owner) ==> borrower == Some(row.borrower))
                   && (role == Some(Borrower) ==> profiles[row.borrower].linkedUser == Some(actor))
                   && Step(old(Rows()), DirectCheckout(id, row), Rows())
    {
      if role == None {
        return Err(AccessDenied);
      }
      if !Available(items, workspace, item) {
        return Err(NotFound);
      }
      var chosen := borrower;
      if role == Some(Owner) {
        if borrower == None {
          return Err(Invalid);
        }
      } else {
        if borrower.Some? {
          return Err(AccessDenied);
        }
        if linked :| linked in profiles && profiles[linked].workspace == workspace && profiles[linked].linkedUser == Some(actor) {
          chosen := Some(linked);
        }
      }
      if chosen == None || chosen.value !in profiles || profiles[chosen.value].workspace != workspace {
        return Err(AccessDenied);
      }
      if OpenFor(checkouts, item) {
        return Err(Conflict);
      }
      checkouts := checkouts[id := Checkout(workspace, item, chosen.value, dueAt, note, actor, false)];
      return Ok(id);
    }

    method ReturnCheckout(id: CheckoutId, actor: UserId, role: Option<Role>) returns (r: Result<CheckoutId, Error>)
      requires Valid()
      modifies this`checkouts
      ensures Valid()
      ensures r.Err? ==> checkouts == old(checkouts)
      ensures r.Ok? <==>
                && id in old(checkouts) && !old(checkouts)[id].returned && role.Some?
                && var borrower := old(checkouts)[id].borrower;
                   role == Some(Owner) || (borrower in profiles && profiles[borrower].linkedUser == Some(actor))
      ensures r.Ok? ==>
                && checkouts == old(checkouts)[id := old(checkouts)[id].(returned := true)]
                && !OpenFor(checkouts, old(checkouts)[id].item)
                && Step(old(Rows()), Action.ReturnCheckout(id), Rows())
      ensures r == Err(NotFound) <==> id !in old(checkouts)
      ensures r == Err(Conflict) <==> id in old(checkouts) && role.Some? && old(checkouts)[id].returned
      ensures r.Err? ==> r.error in {NotFound, Conflict, AccessDenied}
    {
      if id !in checkouts {
        return Err(NotFound);
      }
      if role == None {
        return Err(AccessDenied);
      }
      if checkouts[id].returned {
        return Err(Conflict);
      }
      var borrower := checkouts[id].borrower;
      if role != Some(Owner) && (borrower !in profiles || profiles[borrower].linkedUser != Some(actor)) {
        return Err(AccessDenied);
      }
      checkouts := checkouts[id := checkouts[id].(returned := true)];
      return Ok(id);
    }

    // A stale revision, or a borrower the caller may not choose, changes nothing.
    method UpdateActiveSession(actor: UserId, role: Option<Role>, sid: SessionId, borrower: Option<BorrowerId>,
                               dueAt: Option<nat>, note: Option<string>, expected: int)
      returns (r: Result<Session, Error>)
      requires Valid()
      modifies this`sessions
      ensures Valid()
      ensures r.Err? ==> sessions == old(sessions)
      ensures !MayEdit(old(sessions), sid, actor, role) <==> EditRefused(old(sessions), sid, actor, role, r)
      ensures r == Err(RevisionConflict) <==> MayEdit(old(sessions), sid, actor, role) && old(sessions)[sid].revision != expected
      ensures MayEdit(old(sessions), sid, actor, role) && old(sessions)[sid].revision == expected ==>
                var row := old(sessions)[sid];
                var chosen := if role == Some(Borrower) then row.borrower else borrower;
                if MayChoose(row, Update(actor, sid, borrower, dueAt, note, expected), role.value, profiles, chosen)
                then r == Ok(row.(borrower := chosen, dueAt := dueAt, note := note, revision := row.revision + 1))
                else r == Err(AccessDenied)
      ensures r.Ok? ==> sessions == old(sessions)[sid := r.value] && Reaches(old(Rows()), Rows())
    {
      var editing := RequireEditableSession(sid, actor, role);
      if editing.Err? {
        return editing;
      }
      var current := editing.value;
      if current.revision != expected {
        return Err(RevisionConflict);
      }
      var chosen := borrower;
      if role.value == Borrower {
        if current.borrower == None || current.borrower.value !in profiles
           || profiles[current.borrower.value].linkedUser != Some(actor)
           || (borrower.Some? && borrower != current.borrower)
        {
          return Err(AccessDenied);
        }
        chosen := current.borrower;
      } else if borrower.Some? {
        if borrower.value !in profiles || profiles[borrower.value].workspace != current.workspace {
          return Err(AccessDenied);
        }
      }
      var row := current.(borrower := chosen, dueAt := dueAt, note := note, revision := current.revision + 1);
      RequestAlone(Rows(), Update(actor, sid, borrower, dueAt, note, expected), role.value, chosen, row);
      CommitKeepsActive(sessions, sid, row);
      sessions := sessions[sid := row];
      return Ok(row);
    }

    // Adding an item twice is no change.
    method AddSessionItem(actor: UserId, role: Option<Role>, sid: SessionId, item: ItemId) returns (r: Result<Session, Error>)
      requires Valid()
      modifies this`sessions
      ensures Valid()
      ensures r.Err? ==> sessions == old(sessions)
      ensures !MayEdit(old(sessions), sid, actor, role) ==> EditRefused(old(sessions), sid, actor, role, r)
      ensures r.Ok? <==>
                && MayEdit(old(sessions), sid, actor, role)
                && item in items && items[item].workspace == old(sessions)[sid].workspace && !items[item].archived
                && (forall c | c in checkouts && checkouts[c].item == item :: checkouts[c].returned)
      ensures r.Ok? ==>
                var row := old(sessions)[sid];
                && r.value == (if item in row.items then row else row.(items := row.items + {item}, revision := row.revision + 1))
                && sessions == old(sessions)[sid := r.value]
                && (item !in row.items ==> Reaches(old(Rows()), Rows()))
      ensures MayEdit(old(sessions), sid, actor, role) && r.Err? ==>
                r == Err(if InUse(items, old(sessions)[sid].workspace, item) then Conflict else NotFound)
    {
      var editing := RequireEditableSession(sid, actor, role);
      if editing.Err? {
        return editing;
      }
      var current := editing.value;
      if !Available(items, current.workspace, item) {
        return Err(NotFound);
      }
      if OpenFor(checkouts, item) {
        return Err(Conflict);
      }
      if item !in current.items {
        current := current.(items := current.items + {item}, revision := current.revision + 1);
        RequestAlone(Rows(), Add(actor, sid, item), role.value, None, current);
        CommitKeepsActive(sessions, sid, current);
        sessions := sessions[sid := current];
      }
      return Ok(current);
    }

    method RemoveSessionItem(actor: UserId, role: Option<Role>, sid: SessionId, item: ItemId) returns (r: Result<Session, Error>)
      requires Valid()
      modifies this`sessions
      ensures Valid()
      ensures r.Err? ==> EditRefused(old(sessions), sid, actor, role, r) && sessions == old(sessions)
      ensures r.Ok? ==>
                && MayEdit(old(sessions), sid, actor, role)
                && var row := old(sessions)[sid];
                && r.value == (if item in row.items then row.(items := row.items - {item}, revision := row.revision + 1) else row)
                && sessions == old(sessions)[sid := r.value]
                && (item in row.items ==> Reaches(old(Rows()), Rows()))
    {
      var editing := RequireEditableSession(sid, actor, role);
      if editing.Err? {
        return editing;
      }
      var current := editing.value;
      if item in current.items {
        current := current.(items := current.items - {item}, revision := current.revision + 1);
        RequestAlone(Rows(), Remove(actor, sid, item), role.value, None, current);
        CommitKeepsActive(sessions, sid, current);
        sessions := sessions[sid := current];
      }
      return Ok(current);
    }

    method AbandonSession(actor: UserId, role: Option<Role>, sid: SessionId) returns (r: Result<Session, Error>)
      requires Valid()
      modifies this`sessions
      ensures Valid()
      ensures r.Err? ==> EditRefused(old(sessions), sid, actor, role, r) && sessions == old(sessions)
      ensures r.Ok? ==>
                && MayEdit(old(sessions), sid, actor, role)
                && r.value == old(sessions)[sid].(status := Abandoned, revision := old(sessions)[sid].revision + 1)
                && sessions == old(sessions)[sid := r.value] && Reaches(old(Rows()), Rows())
    {
      var editing := RequireEditableSession(sid, actor, role);
      if editing.Err? {
        return editing;
      }
      var current := editing.value.(status := Abandoned, revision := editing.value.revision + 1);
      RequestAlone(Rows(), Abandon(actor, sid), role.value, None, current);
      CommitKeepsActive(sessions, sid, current);
      sessions := sessions[sid := current];
      return Ok(current);
    }

    // The items that a finalization cannot check out.
    method FindConflicts(row: Session) returns (conflicts: set<ItemId>)
      ensures forall i :: i in conflicts <==>
                && i in row.items
                && (|| i !in items || items[i].workspace != row.workspace || items[i].archived
                    || exists c :: c in checkouts && checkouts[c].item == i && !checkouts[c].returned)
      ensures conflicts == {} <==> AllLendable(items, checkouts, row)
    {
      var valid, active := {}, {};
      var rest := row.items;
      while rest != {}
        invariant rest <= row.items
        invariant valid == set i | i in row.items - rest && Available(items, row.workspace, i)
        invariant active == set i | i in row.items - rest && OpenFor(checkouts, i)
      {
        var item :| item in rest;
        if Available(items, row.workspace, item) {
          valid := valid + {item};
        }
        if OpenFor(checkouts, item) {
          active := active + {item};
        }
        rest := rest - {item};
      }
      conflicts := (row.items - valid) + active;
      NoConflicts(items, checkouts, row, conflicts);
    }

    // ids are what the server would generate for the new checkouts.
    method OpenCheckouts(row: Session, actor: UserId, ids: map<ItemId, CheckoutId>)
      requires Valid() && row.borrower.Some? && FreshIds(ids, row.items, checkouts)
      requires AllLendable(items, checkouts, row)
      modifies this`checkouts
      ensures Valid() && OpensEachOnce(old(checkouts), checkouts, row, actor)
      ensures checkouts == old(checkouts) + NewCheckouts(row, actor, ids)
    {
      ghost var before := checkouts;
      var rest := row.items;
      while rest != {}
        invariant rest <= row.items && OpenedSoFar(before, checkouts, row, actor, ids, rest)
      {
        var item :| item in rest;
        OpenOneMore(before, checkouts, row, actor, ids, rest, item);
        checkouts := checkouts[ids[item] := CheckoutOf(row, actor, item)];
        rest := rest - {item};
      }
      AllOpened(before, checkouts, row, actor, ids, items);
      OpenedAsNew(before, checkouts, row, actor, ids);
      OpensKeepsOne(before, checkouts, row, actor);
    }

    // Opens one checkout for each item of the session and completes it, or
    // answers why not and changes nothing.
    method FinalizeSession(actor: UserId, role: Option<Role>, sid: SessionId, expected: int, ids: map<ItemId, CheckoutId>)
      returns (r: Result<Session, Error>)
      requires Valid() && (sid in sessions ==> FreshIds(ids, sessions[sid].items, checkouts))
      modifies this`sessions, this`checkouts
      ensures Valid()
      ensures r.Err? ==> sessions == old(sessions) && checkouts == old(checkouts)
      ensures !MayEdit(old(sessions), sid, actor, role) ==> EditRefused(old(sessions), sid, actor, role, r)
      ensures MayEdit(old(sessions), sid, actor, role) ==>
                Finalized(items, profiles, old(checkouts), old(sessions)[sid], actor, role.value, expected, r)
      ensures r.Ok? ==>
                && sid in old(sessions)
                && forall i | i in old(sessions)[sid].items ::
                     && i in items && items[i].workspace == old(sessions)[sid].workspace && !items[i].archived
                     && forall c | c in old(checkouts) && old(checkouts)[c].item == i :: old(checkouts)[c].returned
      ensures r.Ok? ==>
                && r.value == old(sessions)[sid].(status := Completed, revision := old(sessions)[sid].revision + 1)
                && sessions == old(sessions)[sid := r.value]
                && OpensEachOnce(old(checkouts), checkouts, old(sessions)[sid], actor)
      ensures r.Ok? ==> Reaches(old(Rows()), Rows())
      ensures r.Err? && r.error.ItemsConflict? ==>
                && sid in old(sessions)
                && forall i :: i in r.error.items <==>
                     && i in old(sessions)[sid].items
                     && (|| i !in items || items[i].workspace != old(sessions)[sid].workspace || items[i].archived
                         || exists c :: c in checkouts && checkouts[c].item == i && !checkouts[c].returned)
    {
      var editing := RequireEditableSession(sid, actor, role);
      if editing.Err? {
        return editing;
      }
      var current := editing.value;
      if current.revision != expected {
        return Err(RevisionConflict);
      }
      if current.borrower == None {
        return Err(Invalid);
      }
      if current.borrower.value !in profiles || profiles[current.borrower.value].workspace != current.workspace {
        return Err(AccessDenied);
      }
      if role == Some(Borrower) && profiles[current.borrower.value].linkedUser != Some(actor) {
        return Err(AccessDenied);
      }
      if current.items == {} {
        return Err(Invalid);
      }
      var conflicts := FindConflicts(current);
      if conflicts != {} {
        return Err(ItemsConflict(conflicts));
      }
      var row := CompleteSession(actor, role.value, sid, expected, ids);
      return Ok(row);
    }

    // Nothing is in the way: the checkouts are opened and the session ends.
    method CompleteSession(actor: UserId, role: Role, sid: SessionId, expected: int, ids: map<ItemId, CheckoutId>) returns (row: Session)
      requires Valid() && MayEdit(sessions, sid, actor, Some(role)) && sessions[sid].revision == expected
      requires MayLendTo(sessions[sid], actor, role, profiles) && sessions[sid].items != {}
      requires AllLendable(items, checkouts, sessions[sid])
      requires FreshIds(ids, sessions[sid].items, checkouts)
      modifies this`sessions, this`checkouts
      ensures Valid() && row == old(sessions)[sid].(status := Completed, revision := old(sessions)[sid].revision + 1)
      ensures sessions == old(sessions)[sid := row] && OpensEachOnce(old(checkouts), checkouts, old(sessions)[sid], actor)
      ensures Reaches(old(Rows()), Rows())
    {
      var before, current := sessions, sessions[sid];
      row := current.(status := Completed, revision := current.revision + 1);
      CommitKeepsActive(before, sid, row);
      MayBeFinalized(before, sid, actor, role, expected, profiles);
      ghost var s := Rows();
      assert s.sessions[sid] == current;
      ghost var t := FinalizedAlone(s, 0, actor, sid, role, expected, ids);
      assert t.sessions == before[sid := row];
      ghost var ended := t.checkouts;
      OpenCheckouts(current, actor, ids);
      assert checkouts == ended;
      sessions := before[sid := row];
      assert Rows() == t;
    }
  }

  lemma NoConflicts(items: map<ItemId, Item>, checkouts: Checkouts, row: Session, conflicts: set<ItemId>)
    requires conflicts == set i | i in row.items && (!Available(items, row.workspace, i) || OpenFor(checkouts, i))
    ensures conflicts == {} <==> AllLendable(items, checkouts, row)
  {
    if conflicts != {} {
      var i :| i in conflicts;
      assert !Lendable(items, checkouts, row.workspace, i);
    }
    forall i | i in row.items && !Lendable(items, checkouts, row.workspace, i) ensures i in conflicts {
    }
  }

  // The checkouts of all items but rest are open, under their ids.
  ghost predicate OpenedSoFar(before: Checkouts, after: Checkouts, row: Session, actor: UserId, ids: map<ItemId, CheckoutId>, rest: set<ItemId>)
    requires ids.Keys == row.items
  {
    && (forall c | c in before :: c in after && after[c] == before[c])
    && (forall c | c in after && c !in before ::
          && after[c].item in row.items && after[c].item !in rest
          && c == ids[after[c].item] && after[c] == CheckoutOf(row, actor, after[c].item))
    && (forall i | i in row.items && i !in rest :: ids[i] in after && after[ids[i]] == CheckoutOf(row, actor, i))
  }

  lemma OpenOneMore(before: Checkouts, after: Checkouts, row: Session, actor: UserId, ids: map<ItemId, CheckoutId>, rest: set<ItemId>, item: ItemId)
    requires FreshIds(ids, row.items, before) && OpenedSoFar(before, after, row, actor, ids, rest) && item in rest && rest <= row.items
    ensures OpenedSoFar(before, after[ids[item] := CheckoutOf(row, actor, item)], row, actor, ids, rest - {item})
  {
  }

  lemma AllOpened(before: Checkouts, after: Checkouts, row: Session, actor: UserId, ids: map<ItemId, CheckoutId>, items: map<ItemId, Item>)
    requires row.borrower.Some? && FreshIds(ids, row.items, before) && OpenedSoFar(before, after, row, actor, ids, {})
    requires AllLendable(items, before, row)
    ensures OpensEachOnce(before, after, row, actor)
  {
  }

  lemma OpenedAsNew(before: Checkouts, after: Checkouts, row: Session, actor: UserId, ids: map<ItemId, CheckoutId>)
    requires FreshIds(ids, row.items, before) && OpenedSoFar(before, after, row, actor, ids, {})
    ensures after == before + NewCheckouts(row, actor, ids)
  {
    var added := NewCheckouts(row, actor, ids);
    forall c | c in added ensures c in after && after[c] == added[c] {
      NewCheckoutRow(row, actor, ids, c);
    }
    forall c | c in after && c !in before ensures c in added {
      assert ids[after[c].item] in ids.Values;
    }
  }

  lemma OpensKeepsOne(before: Checkouts, after: Checkouts, row: Session, actor: UserId)
    requires OneOpenPerItem(before) && OpensEachOnce(before, after, row, actor)
    ensures OneOpenPerItem(after)
  {
  }

  // --- the serial request as a run of the machine --------------------------------------------

  ghost predicate Path(states: seq<State>, actions: seq<Action>) {
    && |states| == |actions| + 1
    && forall i | 0 <= i < |actions| :: Step(states[i], actions[i], states[i + 1])
  }

  ghost predicate Reaches(s: State, t: State) {
    exists states, actions :: Path(states, actions) && states[0] == s && states[|states| - 1] == t
  }

  lemma ReachesByStep(s: State, t: State, a: Action)
    requires Reaches(s, t) && Enabled(t, a)
    ensures Reaches(s, Apply(t, a))
  {
    var states, actions :| Path(states, actions) && states[0] == s && states[|states| - 1] == t;
    var states', actions' := states + [Apply(t, a)], actions + [a];
    forall i | 0 <= i < |actions'| ensures Step(states'[i], actions'[i], states'[i + 1]) {
      if i < |actions| {
        assert Step(states[i], actions[i], states[i + 1]);
      }
    }
    assert Path(states', actions') && states'[0] == s && states'[|states'| - 1] == Apply(t, a);
  }

  lemma ReachesItself(s: State)
    ensures Reaches(s, s)
  {
    assert Path([s], []) && [s][0] == s && [s][|[s]| - 1] == s;
  }

  lemma {:induction false} SortItems(items: set<ItemId>) returns (order: seq<ItemId>)
    ensures Ascending(order) && forall i :: i in order <==> i in items
    decreases |items|
  {
    if items == {} {
      order := [];
    } else {
      var top := HighestItem(items);
      var rest := SortItems(items - {top});
      order := rest + [top];
      assert forall i | 0 <= i < |rest| :: rest[i] in rest && rest[i] in items - {top};
    }
  }

  lemma {:induction false} HighestItem(items: set<ItemId>) returns (top: ItemId)
    requires items != {}
    ensures top in items && forall i | i in items :: i <= top
    decreases |items|
  {
    top :| top in items;
    if items != {top} {
      assert items - {top} != {};
      var other := HighestItem(items - {top});
      assert forall i | i in items :: i == top || i in items - {top};
      top := if other > top then other else top;
    }
  }

  // Only this transaction runs, and it waits for the items in rest.
  ghost predicate LockingAlone(s: State, t: State, tx: TxId, request: Request, row: Session, rest: seq<ItemId>) {
    && Reaches(s, t) && t.txs == s.txs[tx := Tx(request, Locking(row, rest))]
    && t == s.(txs := t.txs, locks := t.locks)
    && forall i | 0 <= i < |rest| :: OfItem(rest[i]) !in t.locks
  }

  lemma {:induction false} TakeAll(s: State, t: State, tx: TxId, request: Request, row: Session, rest: seq<ItemId>) returns (u: State)
    requires LockingAlone(s, t, tx, request, row, rest) && Ascending(rest)
    ensures LockingAlone(s, u, tx, request, row, [])
    decreases |rest|
  {
    if rest == [] {
      u := t;
    } else {
      var next := Apply(t, TakeItem(tx));
      ReachesByStep(s, t, TakeItem(tx));
      assert next.txs == s.txs[tx := Tx(request, Locking(row, rest[1..]))];
      u := TakeAll(s, next, tx, request, row, rest[1..]);
    }
  }

  // A request that changes only its session, and that its rows allow, can run to
  // its commit when nothing else runs.
  lemma RequestAlone(s: State, r: Request, role: Role, borrower: Option<BorrowerId>, row: Session)
    requires s.locks == map[] && s.txs == map[] && !r.Finalize? && r.session in s.sessions
    requires Accepts(s, Tx(r, HasSession(s.sessions[r.session])), role, [])
    requires AfterAccept(s, Tx(r, HasSession(s.sessions[r.session])), role, []) == Ready(s.sessions[r.session], borrower)
    requires row == Committed(s.sessions[r.session], r, s.sessions[r.session], borrower)
    ensures Reaches(s, s.(sessions := s.sessions[r.session := row]))
  {
    var seen := s.sessions[r.session];
    ReachesItself(s);
    ReachesByStep(s, s, Begin(0, r));
    var s1 := Apply(s, Begin(0, r));
    assert s1 == s.(txs := map[0 := Tx(r, WantSession)]);
    ReachesByStep(s, s1, TakeSession(0));
    var s2 := Apply(s1, TakeSession(0));
    assert s2 == s.(locks := map[OfSession(r.session) := 0], txs := map[0 := Tx(r, HasSession(seen))]);
    ReachesByStep(s, s2, Accept(0, role, []));
    var s3 := Apply(s2, Accept(0, role, []));
    assert s3 == s2.(txs := map[0 := Tx(r, Ready(seen, borrower))]);
    CommitAlone(s, s3, r, borrower, row);
  }

  lemma CommitAlone(s: State, ready: State, r: Request, borrower: Option<BorrowerId>, row: Session)
    requires s.locks == map[] && s.txs == map[] && !r.Finalize? && r.session in s.sessions && Reaches(s, ready)
    requires ready == s.(locks := map[OfSession(r.session) := 0], txs := map[0 := Tx(r, Ready(s.sessions[r.session], borrower))])
    requires row == Committed(s.sessions[r.session], r, s.sessions[r.session], borrower)
    ensures Reaches(s, s.(sessions := s.sessions[r.session := row]))
  {
    ReachesByStep(s, ready, Commit(0, map[]));
    var t := Apply(ready, Commit(0, map[]));
    assert t.locks == map[] && t.txs == map[];
    assert t == s.(sessions := s.sessions[r.session := row]);
  }

  // There are always ids to open checkouts under.
  lemma {:induction false} FreshIdsExist(items: set<ItemId>, checkouts: Checkouts, above: CheckoutId) returns (ids: map<ItemId, CheckoutId>)
    requires forall c | c in checkouts :: c < above
    ensures FreshIds(ids, items, checkouts) && forall i | i in ids :: above <= ids[i] < above + |items|
    decreases |items|
  {
    if items == {} {
      ids := map[];
    } else {
      var item :| item in items;
      var rest := FreshIdsExist(items - {item}, checkouts, above);
      ids := rest[item := above + |items| - 1];
    }
  }

  // A finalization that nothing holds up can run to its commit, with the
  // effect of the serial request.
  lemma FinalizeAlone(s: State, tx: TxId, actor: UserId, sid: SessionId, role: Role, expected: int, ids: map<ItemId, CheckoutId>)
    returns (t: State)
    requires Inv(s) && s.locks == map[] && tx !in s.txs
    requires MayEdit(s.sessions, sid, actor, Some(role)) && s.sessions[sid].revision == expected
    requires MayLendTo(s.sessions[sid], actor, role, s.profiles) && s.sessions[sid].items != {}
    requires AllLendable(s.items, s.checkouts, s.sessions[sid])
    requires FreshIds(ids, s.sessions[sid].items, s.checkouts)
    ensures Reaches(s, t)
    ensures t.sessions == s.sessions[sid := s.sessions[sid].(status := Completed, revision := s.sessions[sid].revision + 1)]
    ensures OpensEachOnce(s.checkouts, t.checkouts, s.sessions[sid], actor)
    ensures t.locks == map[] && t.txs == s.txs && t.items == s.items && t.profiles == s.profiles
  {
    MayBeFinalized(s.sessions, sid, actor, role, expected, s.profiles);
    t := FinalizedAlone(s, tx, actor, sid, role, expected, ids);
    LendableOpensEachOnce(s.items, s.checkouts, t.checkouts, s.sessions[sid], actor, ids);
  }

  lemma LendableOpensEachOnce(items: map<ItemId, Item>, before: Checkouts, after: Checkouts, row: Session, actor: UserId, ids: map<ItemId, CheckoutId>)
    requires row.borrower.Some? && FreshIds(ids, row.items, before) && after == before + NewCheckouts(row, actor, ids)
    requires AllLendable(items, before, row)
    ensures OpensEachOnce(before, after, row, actor)
  {
    NoneOpen(items, before, row);
    NewCheckoutsOpenEachOnce(before, row, actor, ids);
  }

  lemma MayBeFinalized(sessions: Sessions, sid: SessionId, actor: UserId, role: Role, expected: int, profiles: map<BorrowerId, Profile>)
    requires MayEdit(sessions, sid, actor, Some(role)) && sessions[sid].revision == expected
    requires MayLendTo(sessions[sid], actor, role, profiles) && sessions[sid].items != {}
    ensures Editable(sessions[sid], actor) && MayFinalize(sessions[sid], Finalize(actor, sid, expected), role, profiles)
  {
  }

  lemma FinalizedAlone(s: State, tx: TxId, actor: UserId, sid: SessionId, role: Role, expected: int, ids: map<ItemId, CheckoutId>)
    returns (t: State)
    requires Inv(s) && s.locks == map[] && tx !in s.txs && sid in s.sessions
    requires Editable(s.sessions[sid], actor) && MayFinalize(s.sessions[sid], Finalize(actor, sid, expected), role, s.profiles)
    requires AllLendable(s.items, s.checkouts, s.sessions[sid])
    requires FreshIds(ids, s.sessions[sid].items, s.checkouts)
    ensures Reaches(s, t)
    ensures t.sessions == s.sessions[sid := s.sessions[sid].(status := Completed, revision := s.sessions[sid].revision + 1)]
    ensures t.checkouts == s.checkouts + NewCheckouts(s.sessions[sid], actor, ids)
    ensures t.items == s.items && t.profiles == s.profiles && t.locks == s.locks && t.txs == s.txs
  {
    var row, request := s.sessions[sid], Finalize(actor, sid, expected);
    var order := SortItems(row.items);
    var waiting := Locked(s, tx, request, row, role, order);
    var held := TakeAll(s, waiting, tx, request, row, order);
    var ready := CheckedAlone(s, held, tx, request, row);
    t := CommittedAlone(s, ready, tx, actor, sid, expected, ids);
    ReachesKeepsInv(s, t);
    SameTxsSameLocks(s, t);
  }

  lemma {:induction false} PathKeepsInv(states: seq<State>, actions: seq<Action>, n: nat)
    requires Path(states, actions) && Inv(states[0]) && n < |states|
    ensures Inv(states[n])
  {
    if n > 0 {
      PathKeepsInv(states, actions, n - 1);
      StepKeepsInv(states[n - 1], actions[n - 1], states[n]);
    }
  }

  lemma ReachesKeepsInv(s: State, t: State)
    requires Reaches(s, t) && Inv(s)
    ensures Inv(t)
  {
    var states, actions :| Path(states, actions) && states[0] == s && states[|states| - 1] == t;
    PathKeepsInv(states, actions, |states| - 1);
  }

  // The lock table is determined by what the transactions hold.
  lemma SameTxsSameLocks(s: State, t: State)
    requires LocksInv(s.locks, s.txs) && LocksInv(t.locks, t.txs) && t.txs == s.txs
    ensures t.locks == s.locks
  {
  }

  lemma Locked(s: State, tx: TxId, request: Request, row: Session, role: Role, order: seq<ItemId>) returns (t: State)
    requires s.locks == map[] && tx !in s.txs && request.Finalize? && request.session in s.sessions && s.sessions[request.session] == row
    requires Editable(row, request.actor) && MayFinalize(row, request, role, s.profiles)
    requires Ascending(order) && forall i :: i in order <==> i in row.items
    ensures LockingAlone(s, t, tx, request, row, order)
  {
    ReachesItself(s);
    ReachesByStep(s, s, Begin(tx, request));
    var s1 := Apply(s, Begin(tx, request));
    ReachesByStep(s, s1, TakeSession(tx));
    var s2 := Apply(s1, TakeSession(tx));
    ReachesByStep(s, s2, Accept(tx, role, order));
    t := Apply(s2, Accept(tx, role, order));
    assert t.txs == s.txs[tx := Tx(request, Locking(row, order))];
  }

  lemma CheckedAlone(s: State, held: State, tx: TxId, request: Request, row: Session) returns (t: State)
    requires LockingAlone(s, held, tx, request, row, []) && tx !in s.txs
    requires AllLendable(s.items, s.checkouts, row)
    ensures Reaches(s, t) && t == held.(txs := s.txs[tx := Tx(request, Ready(row, None))])
  {
    forall i | i in row.items ensures Available(s.items, row.workspace, i) && !OpenFor(s.checkouts, i) {
      assert Lendable(s.items, s.checkouts, row.workspace, i);
    }
    ReachesByStep(s, held, CheckItems(tx));
    t := Apply(held, CheckItems(tx));
    assert t.txs == s.txs[tx := Tx(request, Ready(row, None))];
  }

  lemma NoneOpen(items: map<ItemId, Item>, checkouts: Checkouts, row: Session)
    requires AllLendable(items, checkouts, row)
    ensures forall i | i in row.items :: !OpenFor(checkouts, i)
  {
    forall i | i in row.items ensures !OpenFor(checkouts, i) {
      assert Lendable(items, checkouts, row.workspace, i);
    }
  }

  lemma CommittedAlone(s: State, ready: State, tx: TxId, actor: UserId, sid: SessionId, expected: int, ids: map<ItemId, CheckoutId>)
    returns (t: State)
    requires Reaches(s, ready) && tx !in s.txs && sid in s.sessions
    requires ready.txs == s.txs[tx := Tx(Finalize(actor, sid, expected), Ready(s.sessions[sid], None))]
    requires ready == s.(txs := ready.txs, locks := ready.locks)
    requires s.sessions[sid].borrower.Some? && FreshIds(ids, s.sessions[sid].items, s.checkouts)
    requires AllLendable(s.items, s.checkouts, s.sessions[sid])
    ensures Reaches(s, t)
    ensures t.sessions == s.sessions[sid := s.sessions[sid].(status := Completed, revision := s.sessions[sid].revision + 1)]
    ensures t.checkouts == s.checkouts + NewCheckouts(s.sessions[sid], actor, ids)
    ensures t.txs == s.txs && t.items == s.items && t.profiles == s.profiles
  {
    NoneOpen(s.items, s.checkouts, s.sessions[sid]);
    assert Enabled(ready, Commit(tx, ids));
    t := Apply(ready, Commit(tx, ids));
    assert t.txs == s.txs;
    ReachesByStep(s, ready, Commit(tx, ids));
  }
}

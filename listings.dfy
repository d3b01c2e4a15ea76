/** The behaviour the job, event and project handlers share: a table of
    listings, each owned by the user who posted it, and a table of
    (user, listing) bookmarks that the save endpoints toggle. */
module Listings {
  import opened Common

  /** A listing row: who posted it, its descriptive columns, and the one column
      its owner may change afterwards (a job's is_open, an event's
      is_registration_open, a project's status). */
  datatype Row<D, S> = Row(postedBy: Id, data: D, state: S)

  /** The "action" a successful save reports. */
  datatype SaveAction = Removed | Saved

  /** What a successful toggle leaves in the bookmark table: the pair flips,
      except that a pair is never added for a listing that does not exist;
      every other pair stays as it was. */
  function Toggled(saved: set<(Id, Id)>, user: Id, item: Id, items: set<Id>): (r: set<(Id, Id)>)
    ensures (user, item) in r <==> (user, item) !in saved && item in items
    ensures forall p :: p != (user, item) ==> (p in r <==> p in saved)
  {
    if (user, item) in saved then saved - {(user, item)}
    else if item in items then saved + {(user, item)}
    else saved
  }

  /** Saving the same listing twice restores the bookmarks. */
  lemma ToggleTwice(saved: set<(Id, Id)>, user: Id, item: Id, items: set<Id>)
    requires item in items
    ensures Toggled(Toggled(saved, user, item, items), user, item, items) == saved
  {
    var once := Toggled(saved, user, item, items);
    var twice := Toggled(once, user, item, items);
    forall p ensures p in twice <==> p in saved {
      if p == (user, item) {
        assert (p in once) == (p !in saved);
      }
    }
  }

  class Listing<D, S> {
    var rows: map<Id, Row<D, S>>
    var saved: set<(Id, Id)>

    constructor ()
      ensures rows == map[] && saved == {}
    {
      rows := map[];
      saved := {};
    }

    /** Insert a new listing posted by `caller` under a fresh primary key; the
        insert fails when the database refuses it or the key is taken. */
    method Add(id: Id, caller: Id, data: D, initial: S, createFails: bool) returns (ok: bool)
      modifies this
      ensures ok <==> !createFails && id !in old(rows)
      ensures ok ==> rows == old(rows)[id := Row(caller, data, initial)]
      ensures !ok ==> rows == old(rows)
      ensures saved == old(saved)
    {
      if createFails || id in rows {
        ok := false;
      } else {
        rows := rows[id := Row(caller, data, initial)];
        ok := true;
      }
    }

    /** SaveJob / SaveEvent / SaveProject. `body` is the parsed request (None when
        it does not parse); `checksUser` is set for jobs, whose handler answers
        401 to an empty user id. An existing bookmark is deleted; otherwise the
        listing must exist (else 400) and the bookmark is created. */
    method Save(user: Id, body: Option<Id>, checksUser: bool, deleteFails: bool, createFails: bool)
      returns (status: Status, action: Option<SaveAction>)
      modifies this
      ensures rows == old(rows)
      ensures status == OK <==> action.Some?
      ensures checksUser && user == "" ==> status == Unauthorized
      ensures !(checksUser && user == "") && body.None? ==> status == BadRequest
      ensures body.Some? && !(checksUser && user == "") ==>
        var p := (user, body.value);
        (p in old(saved) ==>
          (if deleteFails then status == InternalServerError else action == Some(Removed)))
        && (p !in old(saved) && body.value !in old(rows) ==> status == BadRequest)
        && (p !in old(saved) && body.value in old(rows) ==>
          (if createFails then status == InternalServerError else action == Some(Saved)))
      ensures status == OK ==> saved == Toggled(old(saved), user, body.value, old(rows).Keys)
      ensures status != OK ==> saved == old(saved)
    {
      action := None;
      if checksUser && user == "" {
        status := Unauthorized;
        return;
      }
      if body.None? {
        status := BadRequest;
        return;
      }
      var item := body.value;
      if (user, item) in saved {
        if deleteFails {
          status := InternalServerError;
        } else {
          saved := saved - {(user, item)};
          status, action := OK, Some(Removed);
        }
        return;
      }
      if item !in rows {
        status := BadRequest;
        return;
      }
      if createFails {
        status := InternalServerError;
      } else {
        saved := saved + {(user, item)};
        status, action := OK, Some(Saved);
      }
    }

    /** DeleteJob / DeleteEvent / DeleteProject: one delete filtered on both the
        id and posted_by = caller; no affected row answers 403, and so does a
        delete that reports an error (`deleteFails`): only RowsAffected is read. */
    method Delete(id: Id, caller: Id, checksUser: bool, deleteFails: bool) returns (status: Status)
      modifies this
      ensures checksUser && caller == "" ==> status == Unauthorized
      ensures !(checksUser && caller == "") ==>
        (status == OK <==> !deleteFails && id in old(rows) && old(rows)[id].postedBy == caller)
      ensures status == OK ==> rows == old(rows) - {id}
      ensures status != OK ==> rows == old(rows) && (status == Forbidden || status == Unauthorized)
      ensures saved == old(saved)
    {
      if checksUser && caller == "" {
        status := Unauthorized;
      } else if !deleteFails && id in rows && rows[id].postedBy == caller {
        rows := rows - {id};
        status := OK;
      } else {
        status := Forbidden;
      }
    }

    /** UpdateHiringStatus / UpdateRegistrationStatus / UpdateProjectStatus: the
        owner's row is loaded, its state column set to the requested value and
        saved; anyone else gets 403. `shown` is the value the response echoes. */
    method SetState(id: Id, caller: Id, body: Option<S>, checksUser: bool, saveFails: bool)
      returns (status: Status, shown: Option<S>)
      modifies this
      ensures checksUser && caller == "" ==> status == Unauthorized
      ensures !(checksUser && caller == "") && body.None? ==> status == BadRequest
      ensures !(checksUser && caller == "") && body.Some? ==>
        (if !(id in old(rows) && old(rows)[id].postedBy == caller) then status == Forbidden
         else if saveFails then status == InternalServerError
         else status == OK)
      ensures status == OK ==>
        (shown == Some(body.value) && rows == old(rows)[id := old(rows)[id].(state := body.value)])
      ensures status != OK ==> shown == None && rows == old(rows)
      ensures saved == old(saved)
    {
      shown := None;
      if checksUser && caller == "" {
        status := Unauthorized;
      } else if body.None? {
        status := BadRequest;
      } else if !(id in rows && rows[id].postedBy == caller) {
        status := Forbidden;
      } else if saveFails {
        status := InternalServerError;
      } else {
        rows := rows[id := rows[id].(state := body.value)];
        status, shown := OK, Some(body.value);
      }
    }
  }
}

/** Registration: a request to join marks the matching user pending, and an
    administrator's decision on it marks the user registered or rejected and
    removes the request. */
module Registration {
  import opened Common
  import opened Models

  const Pending: string := "pending"
  const Registered: string := "registered"
  const Rejected: string := "rejected"

  /** Some user row carries this email. */
  predicate HasEmail(users: map<Id, User>, email: string) {
    exists id :: id in users && users[id].email == email
  }

  /** The registration status a decision leads to: "approve" registers the
      user, "reject" rejects them, anything else is no decision. */
  function Decision(action: string): (r: Option<string>)
    ensures r.Some? <==> action == "approve" || action == "reject"
    ensures r.Some? ==> r.value != Pending
  {
    if action == "approve" then Some(Registered)
    else if action == "reject" then Some(Rejected)
    else None
  }

  /** One user row with its registration status set; every other row kept. */
  function WithStatus(users: map<Id, User>, id: Id, status: string): (r: map<Id, User>)
    requires id in users
    ensures r.Keys == users.Keys && r[id].registrationStatus == status
    ensures r[id] == users[id].(registrationStatus := status)
    ensures forall other :: other in users && other != id ==> r[other] == users[other]
  {
    users[id := users[id].(registrationStatus := status)]
  }

  /** RegisterRequest: 400 for a body that does not parse. Otherwise the
      request row is inserted, and an insert failure (a database error, a taken
      id or an email already requested) is ignored; the user with that email, if
      any, is saved as pending, a failing save being ignored too; 201 is
      always answered. */
  method RegisterRequest(store: UserStore, body: Option<Models.RegisterRequest>, requestId: Id,
                         createFails: bool, saveFails: bool)
    returns (status: Status)
    modifies store
    ensures body.None? ==> status == BadRequest && store.users == old(store.users)
                           && store.requests == old(store.requests)
    ensures body.Some? ==> status == Created
    ensures body.Some? ==>
      var stored := !createFails && requestId !in old(store.requests)
                    && forall r :: r in old(store.requests) ==> old(store.requests)[r].email != body.value.email;
      (stored ==> store.requests == old(store.requests)[requestId := body.value])
      && (!stored ==> store.requests == old(store.requests))
    ensures body.Some? && (saveFails || !HasEmail(old(store.users), body.value.email)) ==>
      store.users == old(store.users)
    ensures body.Some? && !saveFails && HasEmail(old(store.users), body.value.email) ==>
      exists id :: id in old(store.users) && old(store.users)[id].email == body.value.email
                   && store.users == WithStatus(old(store.users), id, Pending)
  {
    if body.None? {
      return BadRequest;
    }
    var req := body.value;
    var duplicate := exists r :: r in store.requests && store.requests[r].email == req.email;
    if !createFails && requestId !in store.requests && !duplicate {
      store.requests := store.requests[requestId := req];
    }
    if !saveFails && HasEmail(store.users, req.email) {
      var id :| id in store.users && store.users[id].email == req.email;
      store.users := WithStatus(store.users, id, Pending);
    }
    status := Created;
  }

  /** HandleRegistrationAction: 400 for a body that does not parse, 404 for a
      missing request or for a request whose email no user has; a decision
      then sets the user's status and deletes the request, answering 200
      (the save and the delete are not checked for errors), and any other
      action answers 400. Only a decision changes anything. */
  method HandleRegistrationAction(store: UserStore, requestId: Id, body: Option<string>,
                                  saveFails: bool, deleteFails: bool)
    returns (status: Status)
    modifies store
    ensures body.None? ==> status == BadRequest
    ensures body.Some? && requestId !in old(store.requests) ==> status == NotFound
    ensures (body.Some? && requestId in old(store.requests)
             && !HasEmail(old(store.users), old(store.requests)[requestId].email))
            ==> status == NotFound
    ensures (body.Some? && requestId in old(store.requests)
             && HasEmail(old(store.users), old(store.requests)[requestId].email))
            ==> status == (if Decision(body.value).Some? then OK else BadRequest)
    ensures status != OK ==> store.users == old(store.users) && store.requests == old(store.requests)
    ensures status == OK ==>
      requestId in old(store.requests) && body.Some? && Decision(body.value).Some?
      && (store.requests == if deleteFails then old(store.requests) else old(store.requests) - {requestId})
      && (saveFails ==> store.users == old(store.users))
      && (!saveFails ==>
            exists id :: id in old(store.users) && old(store.users)[id].email == old(store.requests)[requestId].email
                         && store.users == WithStatus(old(store.users), id, Decision(body.value).value))
  {
    if body.None? {
      return BadRequest;
    }
    if requestId !in store.requests {
      return NotFound;
    }
    var email := store.requests[requestId].email;
    if !HasEmail(store.users, email) {
      return NotFound;
    }
    var id :| id in store.users && store.users[id].email == email;
    var next := Decision(body.value);
    if next.None? {
      return BadRequest;
    }
    if !saveFails {
      store.users := WithStatus(store.users, id, next.value);
    }
    if !deleteFails {
      store.requests := store.requests - {requestId};
    }
    status := OK;
  }

  /** With unique emails, the user a request or decision touches is the one
      row carrying that email. */
  lemma EmailPicksOneUser(users: map<Id, User>, email: string, a: Id, b: Id)
    requires EmailsUnique(users)
    requires a in users && users[a].email == email && b in users && users[b].email == email
    ensures WithStatus(users, a, Pending) == WithStatus(users, b, Pending)
  {
  }

  /** The outcome of the page and limit queries of GetRegisterRequests. */
  datatype PageQuery = InvalidPage | InvalidLimit | Page(page: int, limit: int, offset: int)

  /** GetRegisterRequests' query checks: each value must parse (None when
      strconv.Atoi refuses it; an absent query is the text "1" or "10") and be
      at least 1, the page being checked first; the rows skipped are
      (page - 1) * limit. */
  function RequestsPage(page: Option<int>, limit: Option<int>): (r: PageQuery)
    ensures r == InvalidPage <==> page.None? || page.value < 1
    ensures r == InvalidLimit <==> page.Some? && page.value >= 1 && (limit.None? || limit.value < 1)
    ensures r.Page? ==> r.page == page.value && r.limit == limit.value
  {
    if page.None? || page.value < 1 then InvalidPage
    else if limit.None? || limit.value < 1 then InvalidLimit
    else Page(page.value, limit.value, (page.value - 1) * limit.value)
  }

  /** An accepted query skips exactly the rows of the earlier pages: the
      offset is never negative, only the first page skips none, and the page
      ends where the next one starts. */
  lemma RequestsPageSkipsEarlierPages(page: Option<int>, limit: Option<int>)
    requires RequestsPage(page, limit).Page?
    ensures var r := RequestsPage(page, limit);
      r.offset >= 0 && (r.offset == 0 <==> r.page == 1)
      && r.offset + r.limit == r.page * r.limit
  {
    var r := RequestsPage(page, limit);
    assert r.offset == (r.page - 1) * r.limit;
    if r.page > 1 {
      assert (r.page - 1) * r.limit >= r.limit;
    }
  }
}

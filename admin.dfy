/** Administrative user management: the user validator, the all-or-nothing
    bulk insert, batch promotion and the per-user actions. */
module Admin {
  import opened Common
  import opened Models

  /** One element of the AddUsers body. */
  datatype UserInput = UserInput(department: string, fullName: string, batch: int, role: string, email: string)

  /** The row AddUsers builds for an input: registered, not verified, not
      onboarded, without a user name, otherwise as given. */
  function NewUser(u: UserInput): (r: User)
    ensures r.registrationStatus == "registered" && !r.isVerified && !r.isOnboard && r.userName.None?
    ensures r.fullName == u.fullName && r.department == u.department && r.batch == u.batch
            && r.role == u.role && r.email == u.email
  {
    User(u.fullName, None, u.department, u.batch, u.role, false, false, "registered", u.email)
  }

  const Roles: set<string> := {Student, Alumni, Faculty}

  /** The users validateUser lets through: a full name, a batch year from 1995
      to the current year, a department, one of the three roles and an email. */
  predicate UserValid(u: User, currentYear: int) {
    u.fullName != "" && 1995 <= u.batch <= currentYear && u.department != ""
    && u.role in Roles && u.email != ""
  }

  /** validateUser, with time.Now().Year() as `currentYear`: the message of the
      first failing check, in the order full name, batch, department, role,
      email; None when all pass. */
  function ValidateUser(u: User, currentYear: int): (r: Option<string>)
    ensures r.None? <==> UserValid(u, currentYear)
    ensures u.fullName == "" ==> r == Some("full name is required")
    ensures u.fullName != "" && !(1995 <= u.batch <= currentYear) ==> r == Some("invalid batch year")
    ensures (u.fullName != "" && 1995 <= u.batch <= currentYear && u.department == "")
            ==> r == Some("department is required")
    ensures (u.fullName != "" && 1995 <= u.batch <= currentYear && u.department != "" && u.role !in Roles)
            ==> r == Some("invalid role")
    ensures (u.fullName != "" && 1995 <= u.batch <= currentYear && u.department != "" && u.role in Roles
             && u.email == "")
            ==> r == Some("email is required")
  {
    if u.fullName == "" then Some("full name is required")
    else if u.batch < 1995 || u.batch > currentYear then Some("invalid batch year")
    else if u.department == "" then Some("department is required")
    else if u.role != Student && u.role != Alumni && u.role != Faculty then Some("invalid role")
    else if u.email == "" then Some("email is required")
    else None
  }

  /** A rejected AddUsers body: the 1-based position of the first invalid user
      and that user's validation message. */
  datatype Rejection = Rejection(position: nat, reason: string)

  /** The batch insert can go through: every new row gets a distinct id not in
      the table, and every email is distinct and not yet in the table (the
      email column is unique). */
  predicate Insertable(users: map<Id, User>, rows: seq<User>, freshId: nat -> Id) {
    FreshIds(users, |rows|, freshId)
    && (forall a, b :: 0 <= a < b < |rows| ==> rows[a].email != rows[b].email)
    && (forall k, id :: 0 <= k < |rows| && id in users ==> users[id].email != rows[k].email)
  }

  /** The ids of n new rows are distinct and not yet in the table. */
  predicate FreshIds(users: map<Id, User>, n: nat, freshId: nat -> Id) {
    (forall k :: 0 <= k < n ==> freshId(k) !in users)
    && (forall a, b :: 0 <= a < b < n ==> freshId(a) != freshId(b))
  }

  /** The ids the creation hook gives the first n new rows. */
  function NewIds(freshId: nat -> Id, n: nat): (s: set<Id>)
    ensures forall k :: 0 <= k < n ==> freshId(k) in s
  {
    if n == 0 then {} else NewIds(freshId, n - 1) + {freshId(n - 1)}
  }

  /** Every new id is the id of one of the n new rows. */
  lemma {:induction false} NewIdsExact(freshId: nat -> Id, n: nat, id: Id)
    requires id in NewIds(freshId, n)
    ensures exists k :: 0 <= k < n && freshId(k) == id
  {
    if id != freshId(n - 1) {
      NewIdsExact(freshId, n - 1, id);
    }
  }

  /** The table after the batch insert: the old keys and the new ones. */
  function WithAdded(users: map<Id, User>, rows: seq<User>, freshId: nat -> Id): (r: map<Id, User>)
    ensures r.Keys == users.Keys + NewIds(freshId, |rows|)
  {
    if rows == [] then users
    else
      var n := |rows| - 1;
      WithAdded(users, rows[..n], freshId)[freshId(n) := rows[n]]
  }

  /** With fresh, distinct ids the insert keeps every old row and stores each
      new row under its own id. */
  lemma {:induction false} WithAddedValues(users: map<Id, User>, rows: seq<User>, freshId: nat -> Id)
    requires FreshIds(users, |rows|, freshId)
    ensures forall id :: id in users ==> WithAdded(users, rows, freshId)[id] == users[id]
    ensures forall k :: 0 <= k < |rows| ==> WithAdded(users, rows, freshId)[freshId(k)] == rows[k]
  {
    if rows != [] {
      var n := |rows| - 1;
      assert FreshIds(users, n, freshId);
      WithAddedValues(users, rows[..n], freshId);
      assert forall k :: 0 <= k < n ==> rows[..n][k] == rows[k];
    }
  }

  /** A batch insert keeps the email column unique. */
  lemma AddedKeepsEmailsUnique(users: map<Id, User>, rows: seq<User>, freshId: nat -> Id)
    requires Insertable(users, rows, freshId) && EmailsUnique(users)
    ensures EmailsUnique(WithAdded(users, rows, freshId))
  {
    var r := WithAdded(users, rows, freshId);
    WithAddedValues(users, rows, freshId);
    forall a, b | a in r && b in r && r[a].email == r[b].email ensures a == b {
      if a !in users {
        NewIdsExact(freshId, |rows|, a);
        var i :| 0 <= i < |rows| && freshId(i) == a;
        if b !in users {
          NewIdsExact(freshId, |rows|, b);
          var j :| 0 <= j < |rows| && freshId(j) == b;
          assert r[a] == rows[i] && r[b] == rows[j];
        }
      } else if b !in users {
        NewIdsExact(freshId, |rows|, b);
      }
    }
  }

  /** AddUsers: 400 for a body that does not parse; the rows are built in one
      loop and validated in a second, and the first invalid one answers 400
      with its position and nothing is created; the batch insert is one
      statement that either adds every row or, failing (500), none; gorm refuses
      to insert an empty slice, so an empty array answers 500 too. The
      creation hook gives row k the id `freshId(k)`. */
  method AddUsers(store: UserStore, body: Option<seq<UserInput>>, currentYear: int,
                  freshId: nat -> Id, createFails: bool)
    returns (status: Status, rejected: Option<Rejection>)
    modifies store
    ensures store.requests == old(store.requests)
    ensures status == Created || status == BadRequest || status == InternalServerError
    ensures body.None? ==> status == BadRequest && rejected.None?
    ensures body == Some([]) ==> status == InternalServerError && store.users == old(store.users)
    ensures rejected.Some? <==>
      body.Some? && exists k :: 0 <= k < |body.value| && !UserValid(NewUser(body.value[k]), currentYear)
    ensures rejected.Some? ==>
      var j := rejected.value.position - 1;
      status == BadRequest && 0 <= j < |body.value| && !UserValid(NewUser(body.value[j]), currentYear)
      && (forall k :: 0 <= k < j ==> UserValid(NewUser(body.value[k]), currentYear))
      && rejected.value.reason == ValidateUser(NewUser(body.value[j]), currentYear).value
    ensures status == Created <==>
      body.Some? && body.value != []
      && (forall k :: 0 <= k < |body.value| ==> UserValid(NewUser(body.value[k]), currentYear))
      && !createFails && Insertable(old(store.users), Built(body.value), freshId)
    ensures (body.Some? && body.value != []
             && (forall k :: 0 <= k < |body.value| ==> UserValid(NewUser(body.value[k]), currentYear))
             && (createFails || !Insertable(old(store.users), Built(body.value), freshId)))
            ==> status == InternalServerError
    ensures status == Created ==> store.users == WithAdded(old(store.users), Built(body.value), freshId)
    ensures status != Created ==> store.users == old(store.users)
  {
    rejected := None;
    if body.None? {
      return BadRequest, rejected;
    }
    var rows := BuildRows(body.value);
    rejected := FirstInvalid(rows, currentYear);
    if rejected.Some? {
      return BadRequest, rejected;
    }
    if createFails || rows == [] || !Insertable(store.users, rows, freshId) {
      return InternalServerError, rejected;
    }
    store.users := WithAdded(store.users, rows, freshId);
    status := Created;
  }

  /** The build loop of AddUsers: one new row per input, in order. */
  method BuildRows(inputs: seq<UserInput>) returns (rows: seq<User>)
    ensures rows == Built(inputs)
  {
    rows := [];
    var i := 0;
    while i < |inputs|
      invariant 0 <= i <= |inputs|
      invariant rows == Built(inputs[..i])
    {
      assert inputs[..i + 1][..i] == inputs[..i];
      rows := rows + [NewUser(inputs[i])];
      i := i + 1;
    }
    assert inputs[..i] == inputs;
  }

  /** The validation loop of AddUsers: the first row validateUser refuses, with
      its 1-based position and message, or None when every row passes. */
  method FirstInvalid(rows: seq<User>, currentYear: int) returns (rejected: Option<Rejection>)
    ensures rejected.None? <==> forall k :: 0 <= k < |rows| ==> UserValid(rows[k], currentYear)
    ensures rejected.Some? ==>
      var j := rejected.value.position - 1;
      0 <= j < |rows| && !UserValid(rows[j], currentYear)
      && (forall k :: 0 <= k < j ==> UserValid(rows[k], currentYear))
      && rejected.value.reason == ValidateUser(rows[j], currentYear).value
  {
    var i := 0;
    while i < |rows|
      invariant 0 <= i <= |rows|
      invariant forall k :: 0 <= k < i ==> UserValid(rows[k], currentYear)
    {
      var problem := ValidateUser(rows[i], currentYear);
      if problem.Some? {
        return Some(Rejection(i + 1, problem.value));
      }
      i := i + 1;
    }
    return None;
  }

  /** The rows built for a body, in order. */
  function Built(inputs: seq<UserInput>): (r: seq<User>)
    ensures |r| == |inputs| && forall k :: 0 <= k < |inputs| ==> r[k] == NewUser(inputs[k])
  {
    if inputs == [] then [] else Built(inputs[..|inputs| - 1]) + [NewUser(inputs[|inputs| - 1])]
  }

  /** The update of PromoteBatchToAlumni: the students of `batch` become alumni,
      every other row is kept. */
  function Promoted(users: map<Id, User>, batch: int): (r: map<Id, User>)
    ensures r.Keys == users.Keys
  {
    map id | id in users ::
      if users[id].batch == batch && users[id].role == Student then users[id].(role := Alumni) else users[id]
  }

  /** After a promotion no student is left in the batch, rows outside it and
      non-students are untouched, and each promoted row differs only in its
      role; so a second promotion of the same batch changes nothing. */
  lemma PromotedMeaning(users: map<Id, User>, batch: int)
    ensures forall id :: id in users && users[id].batch == batch ==> Promoted(users, batch)[id].role != Student
    ensures forall id :: id in users && (users[id].batch != batch || users[id].role != Student)
                         ==> Promoted(users, batch)[id] == users[id]
    ensures forall id :: id in users && users[id].batch == batch && users[id].role == Student
                         ==> Promoted(users, batch)[id] == users[id].(role := Alumni)
    ensures Promoted(Promoted(users, batch), batch) == Promoted(users, batch)
  {
    var once := Promoted(users, batch);
    assert forall id :: id in once ==> Promoted(once, batch)[id] == once[id];
  }

  /** PromoteBatchToAlumni: 400 for a body that does not parse or a batch
      outside 1995 .. currentYear - 3, 500 when the update fails, otherwise
      every student of the batch becomes an alumnus. */
  method PromoteBatchToAlumni(store: UserStore, body: Option<int>, currentYear: int, updateFails: bool)
    returns (status: Status)
    modifies store
    ensures store.requests == old(store.requests)
    ensures status == OK <==> body.Some? && 1995 <= body.value <= currentYear - 3 && !updateFails
    ensures status == BadRequest <==> body.None? || !(1995 <= body.value <= currentYear - 3)
    ensures body.Some? && 1995 <= body.value <= currentYear - 3 && updateFails ==> status == InternalServerError
    ensures status == OK ==> store.users == Promoted(old(store.users), body.value)
    ensures status != OK ==> store.users == old(store.users)
  {
    if body.None? {
      return BadRequest;
    }
    var batch := body.value;
    if batch < 1995 || batch > currentYear - 3 {
      return BadRequest;
    }
    if updateFails {
      return InternalServerError;
    }
    store.users := Promoted(store.users, batch);
    status := OK;
  }

  /** The body of a user action. */
  datatype UserAction = UserAction(action: string, reason: string)

  /** The role an action moves a user to, when it applies: "promote" takes a
      student to alumnus and "demote" an alumnus to student. */
  function RoleAfter(action: string, role: string): (r: Option<string>)
    ensures r.Some? <==> (action == "promote" && role == Student) || (action == "demote" && role == Alumni)
  {
    if action == "promote" && role == Student then Some(Alumni)
    else if action == "demote" && role == Alumni then Some(Student)
    else None
  }

  /** Promotion and demotion undo each other. */
  lemma PromoteThenDemote(role: string)
    ensures RoleAfter("promote", role).Some? ==> RoleAfter("demote", RoleAfter("promote", role).value) == Some(role)
    ensures RoleAfter("demote", role).Some? ==> RoleAfter("promote", RoleAfter("demote", role).value) == Some(role)
  {
  }

  /** PerformUserAction: 400 for an empty id or a body that does not parse, 404
      for an unknown user. "promote" and "demote" change the role when
      RoleAfter allows it and answer 400 otherwise; "remove" needs a reason
      (else 400) and deletes the user (500 when the delete fails); any other
      action is 400. The user is then saved, and a failing save answers 500:
      a role change is then lost, a removal has already happened. */
  method PerformUserAction(store: UserStore, userId: Id, body: Option<UserAction>,
                           deleteFails: bool, saveFails: bool)
    returns (status: Status)
    modifies store
    ensures store.requests == old(store.requests)
    ensures userId == "" || body.None? ==> status == BadRequest && store.users == old(store.users)
    ensures userId != "" && body.Some? && userId !in old(store.users) ==>
      status == NotFound && store.users == old(store.users)
    ensures (userId != "" && body.Some? && userId in old(store.users)
             && body.value.action != "remove" && body.value.action != "promote" && body.value.action != "demote")
            ==> status == BadRequest && store.users == old(store.users)
    ensures (userId != "" && body.Some? && userId in old(store.users)
             && (body.value.action == "promote" || body.value.action == "demote"))
            ==> var next := RoleAfter(body.value.action, old(store.users)[userId].role);
                (next.None? ==> status == BadRequest && store.users == old(store.users))
                && (next.Some? && saveFails ==> status == InternalServerError && store.users == old(store.users))
                && (next.Some? && !saveFails ==>
                      status == OK && store.users == old(store.users)[userId := old(store.users)[userId].(role := next.value)])
    ensures (userId != "" && body.Some? && userId in old(store.users) && body.value.action == "remove")
            ==> (body.value.reason == "" ==> status == BadRequest && store.users == old(store.users))
                && (body.value.reason != "" && deleteFails ==>
                      status == InternalServerError && store.users == old(store.users))
                && (body.value.reason != "" && !deleteFails ==>
                      status == (if saveFails then InternalServerError else OK)
                      && store.users == old(store.users) - {userId})
  {
    if userId == "" || body.None? {
      return BadRequest;
    }
    if userId !in store.users {
      return NotFound;
    }
    var user := store.users[userId];
    var req := body.value;
    var removed := false;
    if req.action == "promote" || req.action == "demote" {
      var next := RoleAfter(req.action, user.role);
      if next.None? {
        return BadRequest;
      }
      user := user.(role := next.value);
    } else if req.action == "remove" {
      if req.reason == "" {
        return BadRequest;
      }
      if deleteFails {
        return InternalServerError;
      }
      store.users := store.users - {userId};
      removed := true;
    } else {
      return BadRequest;
    }
    if saveFails {
      return InternalServerError;
    }
    if !removed {
      store.users := store.users[userId := user];
    }
    status := OK;
  }
}

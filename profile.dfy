/** Profiles: following another user, and the wholesale profile update that
    replaces a user's social links, experiences and educations. */
module Profile {
  import opened Common
  import opened Models

  // ---------------------------------------------------------------------------
  // Following

  /** The notification a follow raises for the followed user. */
  function FollowNotice(target: Id, follower: Id): Notification {
    Notification(BaseModel("", 0, 0), target, follower, Follow, false, None, None)
  }

  /** The users by user name, and the follows table. */
  class Social {
    var byName: map<string, Id>
    var follows: set<FollowKey>

    constructor (byName: map<string, Id>)
      ensures this.byName == byName && follows == {}
    {
      this.byName := byName;
      follows := {};
    }

    /** ToggleFollow: 404 for an unknown user name and 400 for oneself, before
        anything changes. The existing-follow lookup failing other than by
        "not found" answers 500. Otherwise, in one transaction, an existing
        follow is deleted, or a follow and a FOLLOW notification for the target
        are created; a failing step rolls the whole transaction back with 500.
        The error of the final commit is not checked: a failing commit
        (`commitFails`) persists nothing and still answers 200. */
    method ToggleFollow(notes: NotificationStore, caller: Id, targetName: string,
                        noteId: Id, clock1: int, clock2: int,
                        lookupFails: bool, createFails: bool, noteFails: bool, deleteFails: bool,
                        commitFails: bool)
      returns (status: Status)
      modifies this, notes
      ensures byName == old(byName)
      ensures targetName !in byName ==> status == NotFound
      ensures targetName in byName && byName[targetName] == caller ==> status == BadRequest
      ensures targetName in byName && byName[targetName] != caller ==>
        var key := FollowKey(caller, byName[targetName]);
        status == (if lookupFails then InternalServerError
                   else if key in old(follows) then (if deleteFails then InternalServerError else OK)
                   else if createFails || noteFails || old(notes.IdTaken(noteId)) then InternalServerError
                   else OK)
      ensures status == OK && !commitFails ==>
        var key := FollowKey(caller, byName[targetName]);
        follows == Flip(old(follows), key)
        && notes.rows == (if key in old(follows) then old(notes.rows)
                          else old(notes.rows)
                               + [NotificationBeforeCreate(FollowNotice(key.followingId, caller),
                                                           noteId, clock1, clock2).value])
      ensures status != OK || commitFails ==> follows == old(follows) && notes.rows == old(notes.rows)
    {
      if targetName !in byName {
        return NotFound;
      }
      var target := byName[targetName];
      if target == caller {
        return BadRequest;
      }
      if lookupFails {
        return InternalServerError;
      }
      var key := FollowKey(caller, target);
      if key in follows {
        if deleteFails {
          return InternalServerError;
        }
        if commitFails {
          return OK;
        }
        follows := follows - {key};
        return OK;
      }
      var stamped := NotificationBeforeCreate(FollowNotice(target, caller), noteId, clock1, clock2);
      if createFails || noteFails || notes.IdTaken(noteId) {
        return InternalServerError;
      }
      if commitFails {
        return OK;
      }
      follows := follows + {key};
      notes.rows := notes.rows + [stamped.value];
      status := OK;
    }
  }

  // ---------------------------------------------------------------------------
  // Rows owned by one user

  /** A row of a per-user table. */
  datatype Owned<T> = Owned(userId: Id, value: T)

  /** DELETE ... WHERE user_id = `u`: the other users' rows, in order. */
  function OthersOf<T(!new)>(rows: seq<Owned<T>>, u: Id): (r: seq<Owned<T>>)
    ensures forall x :: x in r <==> x in rows && x.userId != u
  {
    if rows == [] then []
    else (if rows[0].userId == u then [] else [rows[0]]) + OthersOf(rows[1..], u)
  }

  /** New rows for `u`, one per value. */
  function Own<T>(u: Id, values: seq<T>): (r: seq<Owned<T>>)
    ensures |r| == |values| && forall i :: 0 <= i < |values| ==> r[i] == Owned(u, values[i])
  {
    seq(|values|, i requires 0 <= i < |values| => Owned(u, values[i]))
  }

  /** The values of `u`'s rows, in table order. */
  function ValuesOf<T>(rows: seq<Owned<T>>, u: Id): seq<T> {
    if rows == [] then []
    else (if rows[0].userId == u then [rows[0].value] else []) + ValuesOf(rows[1..], u)
  }

  lemma {:induction false} ValuesOfAppend<T>(a: seq<Owned<T>>, b: seq<Owned<T>>, u: Id)
    ensures ValuesOf(a + b, u) == ValuesOf(a, u) + ValuesOf(b, u)
  {
    if a == [] {
      assert a + b == b;
    } else {
      var ab := a + b;
      assert ab != [] && ab[0] == a[0] && ab[1..] == a[1..] + b;
      var h := if a[0].userId == u then [a[0].value] else [];
      assert ValuesOf(ab, u) == h + ValuesOf(a[1..] + b, u);
      assert ValuesOf(a, u) == h + ValuesOf(a[1..], u);
      ValuesOfAppend(a[1..], b, u);
    }
  }

  lemma {:induction false} ValuesOfOthers<T(!new)>(rows: seq<Owned<T>>, u: Id, v: Id)
    ensures ValuesOf(OthersOf(rows, u), v) == if v == u then [] else ValuesOf(rows, v)
  {
    if rows != [] {
      ValuesOfOthers(rows[1..], u, v);
      var head := if rows[0].userId == u then [] else [rows[0]];
      ValuesOfAppend(head, OthersOf(rows[1..], u), v);
    }
  }

  lemma {:induction false} ValuesOfOwn<T>(u: Id, values: seq<T>, v: Id)
    ensures ValuesOf(Own(u, values), v) == if v == u then values else []
  {
    if values != [] {
      assert Own(u, values)[1..] == Own(u, values[1..]);
      ValuesOfOwn(u, values[1..], v);
    }
  }

  /** Delete-then-insert replaces exactly `u`'s rows: afterwards `u` owns the new
      values, in order, and every other user owns what they owned before. */
  lemma ReplaceAll<T(!new)>(rows: seq<Owned<T>>, u: Id, values: seq<T>)
    ensures forall v :: ValuesOf(OthersOf(rows, u) + Own(u, values), v)
                        == if v == u then values else ValuesOf(rows, v)
  {
    forall v ensures ValuesOf(OthersOf(rows, u) + Own(u, values), v)
                     == if v == u then values else ValuesOf(rows, v) {
      ValuesOfAppend(OthersOf(rows, u), Own(u, values), v);
      ValuesOfOthers(rows, u, v);
      ValuesOfOwn(u, values, v);
    }
  }

  // ---------------------------------------------------------------------------
  // The profile update

  datatype ProfileFields = ProfileFields(
    headline: string, about: string, location: string, skills: seq<string>, interests: seq<string>)

  /** A profile row; the image is managed by a separate endpoint. */
  datatype UserProfile = UserProfile(image: string, fields: ProfileFields)

  datatype SocialLinks = SocialLinks(
    github: string, linkedin: string, instagram: string, resume: string, website: string)

  datatype ExperienceInput = ExperienceInput(
    companyName: string, position: string, startDate: string, endDate: string,
    jobType: string, locationType: string, location: string)

  /** An experience row: the end date is optional. */
  datatype Experience = Experience(
    companyName: string, position: string, start: int, end: Option<int>,
    jobType: string, locationType: string, location: string)

  datatype EducationInput = EducationInput(
    institutionName: string, course: string, location: string,
    startDate: string, endDate: string, grade: string)

  /** An education row: both dates are required. */
  datatype Education = Education(
    institutionName: string, course: string, location: string, start: int, end: int, grade: string)

  /** The decoded "data" form field. */
  datatype ProfileData = ProfileData(
    profile: ProfileFields, socialLinks: SocialLinks,
    experiences: seq<ExperienceInput>, educations: seq<EducationInput>)

  /** An experience's dates parse: the start always, the end when given. */
  predicate ExperienceDatesParse(e: ExperienceInput, parseTime: string -> Option<int>) {
    parseTime(e.startDate).Some? && (e.endDate == "" || parseTime(e.endDate).Some?)
  }

  function ExperienceOf(e: ExperienceInput, parseTime: string -> Option<int>): Experience
    requires ExperienceDatesParse(e, parseTime)
  {
    Experience(e.companyName, e.position, parseTime(e.startDate).value,
               if e.endDate == "" then None else Some(parseTime(e.endDate).value),
               e.jobType, e.locationType, e.location)
  }

  predicate EducationDatesParse(e: EducationInput, parseTime: string -> Option<int>) {
    parseTime(e.startDate).Some? && parseTime(e.endDate).Some?
  }

  function EducationOf(e: EducationInput, parseTime: string -> Option<int>): Education
    requires EducationDatesParse(e, parseTime)
  {
    Education(e.institutionName, e.course, e.location,
              parseTime(e.startDate).value, parseTime(e.endDate).value, e.grade)
  }

  /** Every date of the request parses. */
  predicate AllDatesParse(d: ProfileData, parseTime: string -> Option<int>) {
    (forall i :: 0 <= i < |d.experiences| ==> ExperienceDatesParse(d.experiences[i], parseTime))
    && (forall i :: 0 <= i < |d.educations| ==> EducationDatesParse(d.educations[i], parseTime))
  }

  /** The experience loop: each entry's dates are parsed (time.Parse with the
      RFC 3339 layout is `parseTime`) and its row built; the first bad date
      stops the loop. */
  method ParseExperiences(inputs: seq<ExperienceInput>, parseTime: string -> Option<int>)
    returns (rows: Option<seq<Experience>>)
    ensures rows.Some? <==> forall i :: 0 <= i < |inputs| ==> ExperienceDatesParse(inputs[i], parseTime)
    ensures rows.Some? ==>
      (|rows.value| == |inputs|
       && forall i :: 0 <= i < |inputs| ==> rows.value[i] == ExperienceOf(inputs[i], parseTime))
  {
    var built: seq<Experience> := [];
    var i := 0;
    while i < |inputs|
      invariant 0 <= i <= |inputs| && |built| == i
      invariant forall k :: 0 <= k < i ==> ExperienceDatesParse(inputs[k], parseTime)
      invariant forall k :: 0 <= k < i ==> built[k] == ExperienceOf(inputs[k], parseTime)
    {
      var e := inputs[i];
      var start := parseTime(e.startDate);
      if start.None? {
        return None;
      }
      var end: Option<int> := None;
      if e.endDate != "" {
        var ed := parseTime(e.endDate);
        if ed.None? {
          return None;
        }
        end := Some(ed.value);
      }
      built := built + [Experience(e.companyName, e.position, start.value, end,
                                   e.jobType, e.locationType, e.location)];
      i := i + 1;
    }
    rows := Some(built);
  }

  /** The education loop: both dates of each entry must parse. */
  method ParseEducations(inputs: seq<EducationInput>, parseTime: string -> Option<int>)
    returns (rows: Option<seq<Education>>)
    ensures rows.Some? <==> forall i :: 0 <= i < |inputs| ==> EducationDatesParse(inputs[i], parseTime)
    ensures rows.Some? ==>
      (|rows.value| == |inputs|
       && forall i :: 0 <= i < |inputs| ==> rows.value[i] == EducationOf(inputs[i], parseTime))
  {
    var built: seq<Education> := [];
    var i := 0;
    while i < |inputs|
      invariant 0 <= i <= |inputs| && |built| == i
      invariant forall k :: 0 <= k < i ==> EducationDatesParse(inputs[k], parseTime)
      invariant forall k :: 0 <= k < i ==> built[k] == EducationOf(inputs[k], parseTime)
    {
      var e := inputs[i];
      var start := parseTime(e.startDate);
      var end := parseTime(e.endDate);
      if start.None? || end.None? {
        return None;
      }
      built := built + [Education(e.institutionName, e.course, e.location,
                                  start.value, end.value, e.grade)];
      i := i + 1;
    }
    rows := Some(built);
  }

  /** The profile, social-link, experience and education tables. */
  class ProfileStore {
    var profiles: map<Id, UserProfile>
    var links: seq<Owned<SocialLinks>>
    var experiences: seq<Owned<Experience>>
    var educations: seq<Owned<Education>>

    constructor ()
      ensures profiles == map[] && links == [] && experiences == [] && educations == []
    {
      profiles := map[];
      links := [];
      experiences := [];
      educations := [];
    }

    /** UpdateUserProfile. `form` is the multipart form's "data" values (None
        when the form does not parse), each decoded (None for invalid JSON);
        `dbFails` is a write the database refuses. In one transaction the
        profile is updated (or created), and the user's social links,
        experiences and educations are deleted and created afresh from the
        request; a bad date (400) or a failing write (500) rolls everything
        back. */
    method UpdateUserProfile(userId: Id, form: Option<seq<Option<ProfileData>>>,
                             parseTime: string -> Option<int>, dbFails: bool)
      returns (status: Status)
      modifies this
      ensures form.None? || |form.value| == 0 || form.value[0].None? ==> status == BadRequest
      ensures form.Some? && |form.value| > 0 && form.value[0].Some? ==>
        status == (if dbFails then InternalServerError
                   else if !AllDatesParse(form.value[0].value, parseTime) then BadRequest
                   else OK)
      ensures status == OK ==>
        var d := form.value[0].value;
        profiles == old(profiles)[userId := UserProfile(
                      if userId in old(profiles) then old(profiles)[userId].image else "", d.profile)]
        && links == OthersOf(old(links), userId) + [Owned(userId, d.socialLinks)]
        && experiences == OthersOf(old(experiences), userId)
             + Own(userId, seq(|d.experiences|, i requires 0 <= i < |d.experiences| =>
                                 ExperienceOf(d.experiences[i], parseTime)))
        && educations == OthersOf(old(educations), userId)
             + Own(userId, seq(|d.educations|, i requires 0 <= i < |d.educations| =>
                                 EducationOf(d.educations[i], parseTime)))
      ensures status == OK ==>
        ValuesOf(links, userId) == [form.value[0].value.socialLinks]
        && |ValuesOf(experiences, userId)| == |form.value[0].value.experiences|
        && |ValuesOf(educations, userId)| == |form.value[0].value.educations|
        && forall v :: v != userId ==>
             ValuesOf(links, v) == ValuesOf(old(links), v)
             && ValuesOf(experiences, v) == ValuesOf(old(experiences), v)
             && ValuesOf(educations, v) == ValuesOf(old(educations), v)
      ensures status != OK ==>
        profiles == old(profiles) && links == old(links)
        && experiences == old(experiences) && educations == old(educations)
    {
      if form.None? || |form.value| == 0 || form.value[0].None? {
        return BadRequest;
      }
      var d := form.value[0].value;
      if dbFails {
        return InternalServerError;
      }
      var image := if userId in profiles then profiles[userId].image else "";
      var exps := ParseExperiences(d.experiences, parseTime);
      if exps.None? {
        return BadRequest;
      }
      var edus := ParseEducations(d.educations, parseTime);
      if edus.None? {
        return BadRequest;
      }
      assert exps.value == seq(|d.experiences|, i requires 0 <= i < |d.experiences| =>
                                 ExperienceOf(d.experiences[i], parseTime));
      assert edus.value == seq(|d.educations|, i requires 0 <= i < |d.educations| =>
                                 EducationOf(d.educations[i], parseTime));
      assert Own(userId, [d.socialLinks]) == [Owned(userId, d.socialLinks)];
      ReplaceAll(links, userId, [d.socialLinks]);
      ReplaceAll(experiences, userId, exps.value);
      ReplaceAll(educations, userId, edus.value);
      profiles := profiles[userId := UserProfile(image, d.profile)];
      links := OthersOf(links, userId) + [Owned(userId, d.socialLinks)];
      experiences := OthersOf(experiences, userId) + Own(userId, exps.value);
      educations := OthersOf(educations, userId) + Own(userId, edus.value);
      status := OK;
    }
  }
}

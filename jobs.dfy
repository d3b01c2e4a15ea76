/** Job listings: the request validator, the create handler, the search helper
    and the listing defaults. Saving, deleting and the hiring-status update are
    the shared Listings operations with the user-id check switched on. */
module Jobs {
  import opened Common
  import opened Listings

  /** The body of a create-job request. */
  datatype JobRequest = JobRequest(
    title: string,
    companyId: string,
    description: string,
    location: string,
    requirements: string,
    jobType: string,
    applyLink: string)

  const JobTypes: set<string> := {"Part-Time", "Full-Time", "Internship", "Freelance"}

  /** The fields the validator may report, and the JSON key of each. */
  datatype JobField = Title | CompanyId | Description | JobType | ApplyLink

  function JobKey(f: JobField): string {
    match f
    case Title => "title"
    case CompanyId => "company_id"
    case Description => "description"
    case JobType => "job_type"
    case ApplyLink => "apply_link"
  }

  /** The requests validateJobRequest lets through, field by field: a title with
      a non-space character and at least 3 bytes, a company id that parses as a
      UUID, a description of at least 10 bytes once trimmed, one of the four job
      types, and an apply link that is empty or parses as a request URI. */
  predicate AcceptableJob(req: JobRequest, isUuid: string -> bool, isRequestUri: string -> bool) {
    (exists k :: 0 <= k < |req.title| && !IsSpace(req.title[k]))
    && Utf8Len(req.title) >= 3
    && isUuid(req.companyId)
    && Utf8Len(TrimSpace(req.description)) >= 10
    && req.jobType in JobTypes
    && (req.applyLink == "" || isRequestUri(req.applyLink))
  }

  /** validateJobRequest: one entry per failing field. uuid.Parse and
      url.ParseRequestURI are the parameters `isUuid` and `isRequestUri`. */
  method ValidateJobRequest(req: JobRequest, isUuid: string -> bool, isRequestUri: string -> bool)
    returns (errors: map<JobField, string>)
    ensures Title in errors <==> TrimSpace(req.title) == "" || Utf8Len(req.title) < 3
    ensures TrimSpace(req.title) == "" ==> errors[Title] == "Title is required"
    ensures TrimSpace(req.title) != "" && Utf8Len(req.title) < 3 ==>
      errors[Title] == "Title must be at least 3 characters"
    ensures CompanyId in errors <==> !isUuid(req.companyId)
    ensures CompanyId in errors ==> errors[CompanyId] == "Invalid company identifier"
    ensures Description in errors <==> Utf8Len(TrimSpace(req.description)) < 10
    ensures Description in errors ==>
      errors[Description] == "Description must be at least 20 characters"
    ensures JobType in errors <==> req.jobType !in JobTypes
    ensures JobType in errors ==> errors[JobType] == "Invalid job type specified"
    ensures ApplyLink in errors <==> req.applyLink != "" && !isRequestUri(req.applyLink)
    ensures ApplyLink in errors ==> errors[ApplyLink] == "Invalid URL format"
    ensures |errors| == 0 <==> AcceptableJob(req, isUuid, isRequestUri)
  {
    AcceptableJobIff(req, isUuid, isRequestUri);
    errors := JobErrors(TrimSpace(req.title) == "", Utf8Len(req.title) < 3, !isUuid(req.companyId),
                        Utf8Len(TrimSpace(req.description)) < 10, req.jobType !in JobTypes,
                        req.applyLink != "" && !isRequestUri(req.applyLink));
  }

  /** The error map filled entry by entry from the outcome of each check. */
  method JobErrors(titleBlank: bool, titleShort: bool, badCompany: bool, descriptionShort: bool,
                   badType: bool, badLink: bool)
    returns (errors: map<JobField, string>)
    ensures Title in errors <==> titleBlank || titleShort
    ensures titleBlank ==> errors[Title] == "Title is required"
    ensures !titleBlank && titleShort ==> errors[Title] == "Title must be at least 3 characters"
    ensures CompanyId in errors <==> badCompany
    ensures badCompany ==> errors[CompanyId] == "Invalid company identifier"
    ensures Description in errors <==> descriptionShort
    ensures descriptionShort ==> errors[Description] == "Description must be at least 20 characters"
    ensures JobType in errors <==> badType
    ensures badType ==> errors[JobType] == "Invalid job type specified"
    ensures ApplyLink in errors <==> badLink
    ensures badLink ==> errors[ApplyLink] == "Invalid URL format"
    ensures |errors| == 0 <==> !(titleBlank || titleShort || badCompany || descriptionShort || badType || badLink)
  {
    errors := map[];
    if titleBlank {
      errors := errors[Title := "Title is required"];
    } else if titleShort {
      errors := errors[Title := "Title must be at least 3 characters"];
    }
    if badCompany {
      errors := errors[CompanyId := "Invalid company identifier"];
    }
    if descriptionShort {
      errors := errors[Description := "Description must be at least 20 characters"];
    }
    if badType {
      errors := errors[JobType := "Invalid job type specified"];
    }
    if badLink {
      errors := errors[ApplyLink := "Invalid URL format"];
    }
    assert |errors| == 0 <==> errors.Keys == {};
  }

  /** The acceptance predicate in the terms the validator checks. */
  lemma AcceptableJobIff(req: JobRequest, isUuid: string -> bool, isRequestUri: string -> bool)
    ensures AcceptableJob(req, isUuid, isRequestUri) <==>
      TrimSpace(req.title) != "" && Utf8Len(req.title) >= 3 && isUuid(req.companyId)
      && Utf8Len(TrimSpace(req.description)) >= 10 && req.jobType in JobTypes
      && (req.applyLink == "" || isRequestUri(req.applyLink))
  {
    BlankIffAllSpace(req.title);
  }

  /** The description check counts bytes after trimming and stops at 10, so a
      description the error message calls too short can pass. */
  lemma TenByteDescriptionAccepted(req: JobRequest, isUuid: string -> bool, isRequestUri: string -> bool)
    requires req.title == "Engineer" && req.description == "0123456789"
    requires isUuid(req.companyId) && req.jobType == "Internship" && req.applyLink == ""
    ensures AcceptableJob(req, isUuid, isRequestUri)
  {
    var d := req.description;
    assert !IsSpace(req.title[0]) && !IsSpace(d[0]) && !IsSpace(d[9]);
    assert TrimLeft(d) == d;
    assert TrimRight(d) == d;
    assert forall k :: 0 <= k < |d| ==> d[k] as int < 0x80;
    assert forall k :: 0 <= k < |req.title| ==> req.title[k] as int < 0x80;
  }

  /** contains: whether `item` occurs in `slice`, by a linear scan. */
  method Contains(slice: seq<string>, item: string) returns (found: bool)
    ensures found <==> item in slice
  {
    var i := 0;
    while i < |slice|
      invariant 0 <= i <= |slice|
      invariant item !in slice[..i]
    {
      if slice[i] == item {
        return true;
      }
      assert slice[..i + 1] == slice[..i] + [slice[i]];
      i := i + 1;
    }
    assert slice[..i] == slice;
    return false;
  }

  /** AddNewJob: 401 for an empty user id, 400 for a body that does not parse,
      422 with the validator's errors, 400 for an unknown company, 500 when the
      insert fails; otherwise the job is created open and posted by the caller. */
  method AddNewJob(board: Listing<JobRequest, bool>, caller: Id, body: Option<JobRequest>,
                   companies: set<Id>, freshId: Id, isUuid: string -> bool,
                   isRequestUri: string -> bool, createFails: bool)
    returns (status: Status, errors: map<JobField, string>)
    modifies board
    ensures status == Created <==>
      caller != "" && body.Some? && AcceptableJob(body.value, isUuid, isRequestUri)
      && body.value.companyId in companies && !createFails && freshId !in old(board.rows)
    ensures status == Created ==> board.rows == old(board.rows)[freshId := Row(caller, body.value, true)]
    ensures status != Created ==> board.rows == old(board.rows)
    ensures status == UnprocessableEntity <==>
      caller != "" && body.Some? && !AcceptableJob(body.value, isUuid, isRequestUri)
    ensures status == UnprocessableEntity ==> |errors| > 0
    ensures caller == "" ==> status == Unauthorized
    ensures caller != "" && body.None? ==> status == BadRequest
    ensures (caller != "" && body.Some? && AcceptableJob(body.value, isUuid, isRequestUri)
             && body.value.companyId !in companies) ==> status == BadRequest
    ensures (caller != "" && body.Some? && AcceptableJob(body.value, isUuid, isRequestUri)
             && body.value.companyId in companies && (createFails || freshId in old(board.rows)))
            ==> status == InternalServerError
    ensures board.saved == old(board.saved)
  {
    errors := map[];
    if caller == "" {
      return Unauthorized, errors;
    }
    if body.None? {
      return BadRequest, errors;
    }
    var req := body.value;
    errors := ValidateJobRequest(req, isUuid, isRequestUri);
    if |errors| > 0 {
      return UnprocessableEntity, errors;
    }
    if req.companyId !in companies {
      return BadRequest, errors;
    }
    var ok := board.Add(freshId, caller, req, true, createFails);
    status := if ok then Created else InternalServerError;
  }

  /** The listing defaults: a page or limit of 0 (absent) becomes 1 or 10, any
      other value is kept, and the rows skipped are (page - 1) * limit. */
  function ListingDefaults(page: int, limit: int): (r: (int, int, int))
    ensures r.0 == (if page == 0 then 1 else page) && r.1 == (if limit == 0 then 10 else limit)
    ensures r.0 != 0 && r.1 != 0
  {
    var p := if page == 0 then 1 else page;
    var l := if limit == 0 then 10 else limit;
    (p, l, (p - 1) * l)
  }

  /** With positive page and limit, the offset skips exactly the earlier pages:
      rows before it fill page - 1 whole pages, and the first page skips none. */
  lemma ListingOffsetSkipsEarlierPages(page: int, limit: int)
    requires page >= 0 && limit >= 0
    ensures ListingDefaults(page, limit).2 >= 0
    ensures ListingDefaults(page, limit).2 == 0 <==> page <= 1
    ensures ListingDefaults(page, limit).2 + ListingDefaults(page, limit).1
            == ListingDefaults(page, limit).0 * ListingDefaults(page, limit).1
  {
    var (p, l, off) := ListingDefaults(page, limit);
    assert off == (p - 1) * l && l >= 1;
    if p > 1 {
      assert (p - 1) * l >= l;
    }
    assert off + l == p * l;
  }
}

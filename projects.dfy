/** Projects: the request validator and the create handler, which does not call
    it. Saving, deleting and the status update are the shared Listings
    operations, without the user-id check. */
module Projects {
  import opened Common
  import opened Listings

  datatype ProjectLinks = ProjectLinks(codeLink: string, video: string, files: string, website: string)

  /** The body of a create-project request; `links` is None when the object is
      absent (a nil Links value). */
  datatype ProjectRequest = ProjectRequest(
    title: string,
    description: string,
    tags: seq<string>,
    projectType: string,
    year: int,
    mentor: string,
    contributors: seq<string>,
    links: Option<ProjectLinks>,
    status: string)

  /** The fields the validator may report (keys "title", "project_type", "year",
      "contributors", "links.website" and "links.code_link"). */
  datatype ProjectField = Title | Type | Year | Contributors | Website | CodeLink

  /** The requests validateProjectRequest lets through: a title with a non-space
      character, a project type, a year from 2000 to five years after the
      current one, at least one contributor, and, when links are given, a
      website and a code link that are each empty or parse as request URIs.
      The video and files links are never checked. */
  predicate AcceptableProject(req: ProjectRequest, currentYear: int, isRequestUri: string -> bool) {
    (exists k :: 0 <= k < |req.title| && !IsSpace(req.title[k]))
    && req.projectType != ""
    && 2000 <= req.year <= currentYear + 5
    && |req.contributors| > 0
    && (req.links.Some? ==>
          (req.links.value.website == "" || isRequestUri(req.links.value.website))
          && (req.links.value.codeLink == "" || isRequestUri(req.links.value.codeLink)))
  }

  /** validateProjectRequest, with time.Now().Year() as `currentYear`. */
  method ValidateProjectRequest(req: ProjectRequest, currentYear: int, isRequestUri: string -> bool)
    returns (errors: map<ProjectField, string>)
    ensures Title in errors <==> TrimSpace(req.title) == ""
    ensures Title in errors ==> errors[Title] == "Title is required"
    ensures Type in errors <==> req.projectType == ""
    ensures Type in errors ==> errors[Type] == "Project type is required"
    ensures Year in errors <==> req.year < 2000 || req.year > currentYear + 5
    ensures Year in errors ==> errors[Year] == "Invalid year value"
    ensures Contributors in errors <==> |req.contributors| == 0
    ensures Contributors in errors ==> errors[Contributors] == "At least one contributor is required"
    ensures Website in errors <==>
      req.links.Some? && req.links.value.website != "" && !isRequestUri(req.links.value.website)
    ensures Website in errors ==> errors[Website] == "Invalid website URL"
    ensures CodeLink in errors <==>
      req.links.Some? && req.links.value.codeLink != "" && !isRequestUri(req.links.value.codeLink)
    ensures CodeLink in errors ==> errors[CodeLink] == "Invalid code link URL"
    ensures |errors| == 0 <==> AcceptableProject(req, currentYear, isRequestUri)
  {
    BlankIffAllSpace(req.title);
    var badWebsite, badCode := false, false;
    if req.links.Some? {
      var l := req.links.value;
      badWebsite := l.website != "" && !isRequestUri(l.website);
      badCode := l.codeLink != "" && !isRequestUri(l.codeLink);
    }
    errors := ProjectErrors(TrimSpace(req.title) == "", req.projectType == "",
                            req.year < 2000 || req.year > currentYear + 5,
                            |req.contributors| == 0, badWebsite, badCode);
  }

  /** The error map filled entry by entry from the outcome of each check. */
  method ProjectErrors(titleBlank: bool, noType: bool, badYear: bool, noContributors: bool,
                       badWebsite: bool, badCode: bool)
    returns (errors: map<ProjectField, string>)
    ensures Title in errors <==> titleBlank
    ensures titleBlank ==> errors[Title] == "Title is required"
    ensures Type in errors <==> noType
    ensures noType ==> errors[Type] == "Project type is required"
    ensures Year in errors <==> badYear
    ensures badYear ==> errors[Year] == "Invalid year value"
    ensures Contributors in errors <==> noContributors
    ensures noContributors ==> errors[Contributors] == "At least one contributor is required"
    ensures Website in errors <==> badWebsite
    ensures badWebsite ==> errors[Website] == "Invalid website URL"
    ensures CodeLink in errors <==> badCode
    ensures badCode ==> errors[CodeLink] == "Invalid code link URL"
    ensures |errors| == 0 <==> !(titleBlank || noType || badYear || noContributors || badWebsite || badCode)
  {
    errors := map[];
    if titleBlank {
      errors := errors[Title := "Title is required"];
    }
    if noType {
      errors := errors[Type := "Project type is required"];
    }
    if badYear {
      errors := errors[Year := "Invalid year value"];
    }
    if noContributors {
      errors := errors[Contributors := "At least one contributor is required"];
    }
    if badWebsite {
      errors := errors[Website := "Invalid website URL"];
    }
    if badCode {
      errors := errors[CodeLink := "Invalid code link URL"];
    }
    assert |errors| == 0 <==> errors.Keys == {};
  }

  /** AddNewProject: 400 for a body that does not parse, 500 when the insert
      fails, otherwise the project is created as given (its status included)
      and posted by the caller. The validator is not consulted. */
  method AddNewProject(board: Listing<ProjectRequest, string>, caller: Id, body: Option<ProjectRequest>,
                       freshId: Id, createFails: bool)
    returns (status: Status)
    modifies board
    ensures status == Created <==> body.Some? && !createFails && freshId !in old(board.rows)
    ensures status == Created ==>
      board.rows == old(board.rows)[freshId := Row(caller, body.value, body.value.status)]
    ensures status != Created ==> board.rows == old(board.rows)
    ensures status == Created || status == BadRequest || status == InternalServerError
    ensures status == BadRequest <==> body.None?
    ensures body.Some? && (createFails || freshId in old(board.rows)) ==> status == InternalServerError
    ensures board.saved == old(board.saved)
  {
    if body.None? {
      return BadRequest;
    }
    var ok := board.Add(freshId, caller, body.value, body.value.status, createFails);
    status := if ok then Created else InternalServerError;
  }
}

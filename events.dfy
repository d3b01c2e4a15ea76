/** Events: the request validator and the create handler. Saving, deleting and
    the registration-status update are the shared Listings operations, without
    the user-id check (the event handlers do not make it). */
module Events {
  import opened Common
  import opened Listings

  /** The body of a create-event request; the two instants are on one time
      line (the zero time when the field is absent). */
  datatype EventRequest = EventRequest(
    title: string,
    description: string,
    venue: string,
    eventType: string,
    registerLink: string,
    startDateTime: int,
    endDateTime: int)

  const EventTypes: set<string> := {"CAMPUS_EVENT", "ALUM_EVENT"}

  /** The fields the validator may report (keys "title", "event_type",
      "end_date_time" and "register_link"). */
  datatype EventField = Title | Type | End | RegisterLink

  /** The requests validateEventRequest lets through: a title with a non-space
      character, a known event type, a start no later than the end (equal
      instants pass), and a register link that is empty or parses as a
      request URI. */
  predicate AcceptableEvent(req: EventRequest, isRequestUri: string -> bool) {
    (exists k :: 0 <= k < |req.title| && !IsSpace(req.title[k]))
    && req.eventType in EventTypes
    && req.startDateTime <= req.endDateTime
    && (req.registerLink == "" || isRequestUri(req.registerLink))
  }

  /** validateEventRequest: one entry per failing field. */
  method ValidateEventRequest(req: EventRequest, isRequestUri: string -> bool)
    returns (errors: map<EventField, string>)
    ensures Title in errors <==> TrimSpace(req.title) == ""
    ensures Title in errors ==> errors[Title] == "Title is required"
    ensures Type in errors <==> req.eventType !in EventTypes
    ensures Type in errors ==> errors[Type] == "Invalid event type"
    ensures End in errors <==> req.startDateTime > req.endDateTime
    ensures End in errors ==> errors[End] == "End time must be after start time"
    ensures RegisterLink in errors <==> req.registerLink != "" && !isRequestUri(req.registerLink)
    ensures RegisterLink in errors ==> errors[RegisterLink] == "Invalid URL format"
    ensures |errors| == 0 <==> AcceptableEvent(req, isRequestUri)
  {
    BlankIffAllSpace(req.title);
    errors := EventErrors(TrimSpace(req.title) == "", req.eventType !in EventTypes,
                          req.startDateTime > req.endDateTime,
                          req.registerLink != "" && !isRequestUri(req.registerLink));
  }

  /** The error map filled entry by entry from the outcome of each check. */
  method EventErrors(titleBlank: bool, badType: bool, endsBeforeStart: bool, badLink: bool)
    returns (errors: map<EventField, string>)
    ensures Title in errors <==> titleBlank
    ensures titleBlank ==> errors[Title] == "Title is required"
    ensures Type in errors <==> badType
    ensures badType ==> errors[Type] == "Invalid event type"
    ensures End in errors <==> endsBeforeStart
    ensures endsBeforeStart ==> errors[End] == "End time must be after start time"
    ensures RegisterLink in errors <==> badLink
    ensures badLink ==> errors[RegisterLink] == "Invalid URL format"
    ensures |errors| == 0 <==> !(titleBlank || badType || endsBeforeStart || badLink)
  {
    errors := map[];
    if titleBlank {
      errors := errors[Title := "Title is required"];
    }
    if badType {
      errors := errors[Type := "Invalid event type"];
    }
    if endsBeforeStart {
      errors := errors[End := "End time must be after start time"];
    }
    if badLink {
      errors := errors[RegisterLink := "Invalid URL format"];
    }
    assert |errors| == 0 <==> errors.Keys == {};
  }

  /** AddNewEvent: 400 for a body that does not parse, 422 with the validator's
      errors and nothing created, 500 when the insert fails; otherwise the event
      is created with registration open and posted by the caller. */
  method AddNewEvent(board: Listing<EventRequest, bool>, caller: Id, body: Option<EventRequest>,
                     freshId: Id, isRequestUri: string -> bool, createFails: bool)
    returns (status: Status, errors: map<EventField, string>)
    modifies board
    ensures status == Created <==>
      body.Some? && AcceptableEvent(body.value, isRequestUri) && !createFails && freshId !in old(board.rows)
    ensures status == Created ==> board.rows == old(board.rows)[freshId := Row(caller, body.value, true)]
    ensures status != Created ==> board.rows == old(board.rows)
    ensures status == UnprocessableEntity <==> body.Some? && !AcceptableEvent(body.value, isRequestUri)
    ensures status == UnprocessableEntity ==> |errors| > 0
    ensures body.None? ==> status == BadRequest
    ensures body.Some? && AcceptableEvent(body.value, isRequestUri) && (createFails || freshId in old(board.rows))
            ==> status == InternalServerError
    ensures board.saved == old(board.saved)
  {
    errors := map[];
    if body.None? {
      return BadRequest, errors;
    }
    errors := ValidateEventRequest(body.value, isRequestUri);
    if |errors| > 0 {
      return UnprocessableEntity, errors;
    }
    var ok := board.Add(freshId, caller, body.value, true, createFails);
    status := if ok then Created else InternalServerError;
  }

  /** An event may start and end at the same instant; one that ends before it
      starts is refused whatever its other fields are. Any request whose end is
      not before its start is accepted exactly when the same request ending at
      its start instant is, so equal instants pass for every request that is
      otherwise acceptable. */
  lemma EndNotBeforeStart(req: EventRequest, isRequestUri: string -> bool)
    ensures req.startDateTime > req.endDateTime ==> !AcceptableEvent(req, isRequestUri)
    ensures req.startDateTime <= req.endDateTime ==>
            (AcceptableEvent(req, isRequestUri)
             <==> AcceptableEvent(req.(endDateTime := req.startDateTime), isRequestUri))
    ensures (req.startDateTime == req.endDateTime && req.title == "Meetup"
             && req.eventType == "ALUM_EVENT" && req.registerLink == "")
            ==> AcceptableEvent(req, isRequestUri)
  {
    if req.title == "Meetup" {
      assert !IsSpace(req.title[0]);
    }
  }
}

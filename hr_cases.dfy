/** The case routes of backend/routes/hrCases.js with the HTTP and file layers
    stripped: listing, case-number lookup, the presentation mapping, and the
    validated in-place update of a case's solution and status. */
module HrCases {
  import opened Common
  import opened Text

  /** A stored case record (a JSON object of the data file); `None` marks a
      field the record does not have yet. */
  datatype Ticket = Ticket(
    ticketId: string,
    shortDesc: string,
    longDesc: string,
    reportedFor: string,
    status: string,
    priority: string,
    category: string,
    assignedGroup: string,
    createdAt: string,
    submittedBy: string,
    tags: seq<string>,
    solutionText: Option<string>,
    updatedAt: Option<string>)

  /** A case as the front end receives it; only related entries carry a
      relevance. */
  datatype CaseView = CaseView(
    caseNumber: string,
    shortDescription: string,
    longDescription: string,
    personAffected: string,
    status: string,
    priority: string,
    category: string,
    assignedGroup: string,
    createdAt: string,
    submittedBy: string,
    tags: seq<string>,
    relevance: Option<int>)

  /** A ranked record as the related route receives it from the ranking. */
  datatype RankedTicket = RankedTicket(ticket: Ticket, relevance: int)

  /** The response of a route: 200 with a body, 400 with a message, or 404. */
  datatype Response<T> = Ok(body: T) | BadRequest(message: string) | NotFound

  /** The related route's 200 body. */
  datatype RelatedBody = RelatedBody(mainCase: CaseView, relatedCases: seq<CaseView>)

  /** A field of the request body: absent, a string, or another JSON value of
      the given truthiness (number, boolean, null, object, array). */
  datatype BodyValue = Absent | Str(s: string) | NonString(truthy: bool)

  /** The edit a valid request asks for. */
  datatype Edit = Edit(solution: string, newStatus: Option<string>)

  const ListLimit := 10
  const Statuses: seq<string> := ["Open", "In Progress", "Closed Complete"]
  const SolutionNotString := "solution_text must be a string"
  const InvalidStatus := "Invalid status value"

  // ---------------------------------------------------------------------------
  // Listing and lookup.

  /** `cases.slice(0, 10)`: the first ten stored cases, or all of them. */
  function ListCases(cases: seq<Ticket>): (r: seq<Ticket>)
    ensures |r| <= ListLimit && |r| <= |cases|
    ensures r == cases[..|r|]
    ensures |r| < ListLimit ==> r == cases
  {
    if |cases| <= ListLimit then cases else cases[..ListLimit]
  }

  /** The request's case number matches a record when upper-casing it gives
      the record's `ticket_id` exactly. */
  predicate Matches(t: Ticket, caseNumber: string) {
    t.ticketId == Upper(caseNumber)
  }

  /** `cases.findIndex(c => c.ticket_id === caseNumber.toUpperCase())` */
  function FindTicketIndex(cases: seq<Ticket>, caseNumber: string): (r: Option<nat>)
    ensures r.None? <==> forall t :: t in cases ==> !Matches(t, caseNumber)
    ensures r.Some? ==> r.value < |cases| && Matches(cases[r.value], caseNumber)
    ensures r.Some? ==> forall j :: 0 <= j < r.value ==> !Matches(cases[j], caseNumber)
  {
    FirstWhere(cases, (t: Ticket) => Matches(t, caseNumber))
  }

  /** GET `/:caseNumber`: the first record matching the upper-cased number,
      or not-found. */
  function GetCase(cases: seq<Ticket>, caseNumber: string): (r: Response<Ticket>)
    ensures !r.BadRequest?
    ensures r.NotFound? <==> forall t :: t in cases ==> t.ticketId != Upper(caseNumber)
    ensures r.Ok? ==> r.body in cases && r.body.ticketId == Upper(caseNumber)
    ensures r.Ok? ==> exists i :: 0 <= i < |cases| && cases[i] == r.body
                        && forall j :: 0 <= j < i ==> !Matches(cases[j], caseNumber)
  {
    match FindTicketIndex(cases, caseNumber)
    case None => NotFound
    case Some(i) => Ok(cases[i])
  }

  /** A request is answered as its upper-cased form would be. */
  lemma GetCaseIgnoresRequestCase(cases: seq<Ticket>, caseNumber: string)
    ensures GetCase(cases, caseNumber) == GetCase(cases, Upper(caseNumber))
  {
    UpperIdempotent(caseNumber);
  }

  /** A record whose `ticket_id` holds a lower-case letter is never found. */
  lemma LowerCaseIdsUnreachable(cases: seq<Ticket>, caseNumber: string, t: Ticket, i: nat)
    requires i < |t.ticketId| && IsLowerLetter(t.ticketId[i])
    ensures GetCase(cases, caseNumber) != Ok(t)
  {
    UpperHasNoLowerLetter(caseNumber);
    assert i < |Upper(caseNumber)| ==> !IsLowerLetter(Upper(caseNumber)[i]);
  }

  // ---------------------------------------------------------------------------
  // The presentation mapping.

  /** The related route's formatting of a record: `ticket_id` becomes
      `caseNumber`, `short_desc` becomes `shortDescription`, and so on. */
  function FormatCase(t: Ticket): (v: CaseView)
    ensures v.relevance.None?
    ensures Unformat(v, t.solutionText, t.updatedAt) == t
  {
    CaseView(t.ticketId, t.shortDesc, t.longDesc, t.reportedFor, t.status, t.priority,
             t.category, t.assignedGroup, t.createdAt, t.submittedBy, t.tags, None)
  }

  /** The record a view was made from, given the two fields a view leaves out. */
  function Unformat(v: CaseView, solutionText: Option<string>, updatedAt: Option<string>): Ticket {
    Ticket(v.caseNumber, v.shortDescription, v.longDescription, v.personAffected, v.status,
           v.priority, v.category, v.assignedGroup, v.createdAt, v.submittedBy, v.tags,
           solutionText, updatedAt)
  }

  /** A related entry: the same mapping, plus the ranking's relevance. */
  function FormatRelated(r: RankedTicket): (v: CaseView)
    ensures v == FormatCase(r.ticket).(relevance := Some(r.relevance))
  {
    var t := r.ticket;
    CaseView(t.ticketId, t.shortDesc, t.longDesc, t.reportedFor, t.status, t.priority,
             t.category, t.assignedGroup, t.createdAt, t.submittedBy, t.tags, Some(r.relevance))
  }

  /** GET `/related/:caseNumber` around the ranking: not-found when no record
      matches, otherwise the formatted target and the formatted ranked
      records in the ranking's order. */
  function RelatedRoute(cases: seq<Ticket>, caseNumber: string, related: seq<RankedTicket>)
    : (r: Response<RelatedBody>)
    ensures !r.BadRequest?
    ensures r.NotFound? <==> GetCase(cases, caseNumber).NotFound?
    ensures r.Ok? ==> r.body.mainCase == FormatCase(GetCase(cases, caseNumber).body)
    ensures r.Ok? ==> |r.body.relatedCases| == |related|
    ensures r.Ok? ==> forall i :: 0 <= i < |related| ==>
      r.body.relatedCases[i] == FormatCase(related[i].ticket).(relevance := Some(related[i].relevance))
  {
    match GetCase(cases, caseNumber)
    case Ok(t) => Ok(RelatedBody(FormatCase(t), seq(|related|, i requires 0 <= i < |related| => FormatRelated(related[i]))))
    case _ => NotFound
  }

  // ---------------------------------------------------------------------------
  // POST `/:caseNumber/solution`.

  /** JavaScript truthiness of a body field. */
  predicate Truthy(v: BodyValue): (r: bool)
    ensures v.Absent? ==> !r
    ensures v.Str? ==> (r <==> v.s != "")
  {
    match v
    case Absent => false
    case Str(s) => s != ""
    case NonString(b) => b
  }

  /** Every accepted status is a non-empty string, so sending one is truthy. */
  lemma StatusesTruthy()
    ensures forall s :: s in Statuses ==> Truthy(Str(s))
  {
  }

  /** The checks made before the data file is read: `solution_text` must be a
      string, and a truthy `status` must be one of the three statuses. */
  function Validate(solution: BodyValue, status: BodyValue): (r: Result<Edit, string>)
    ensures r.Success? <==> solution.Str? && (Truthy(status) ==> status.Str? && status.s in Statuses)
    ensures !solution.Str? ==> r == Failure(SolutionNotString)
    ensures solution.Str? && r.Failure? ==> r.error == InvalidStatus
    ensures r.Success? ==> r.value.solution == solution.s
    ensures r.Success? ==> (r.value.newStatus.Some? <==> Truthy(status))
    ensures r.Success? && r.value.newStatus.Some? ==> r.value.newStatus == Some(status.s) && status.s in Statuses
  {
    if !solution.Str? then Failure(SolutionNotString)
    else if Truthy(status) && !(status.Str? && status.s in Statuses) then Failure(InvalidStatus)
    else Success(Edit(solution.s, if Truthy(status) then Some(status.s) else None))
  }

  /** The update of the found record: the solution is set, the status is
      replaced only when one was given, and the update time is stamped. */
  function ApplyEdit(t: Ticket, e: Edit, now: string): (r: Ticket)
    ensures r.solutionText == Some(e.solution) && r.updatedAt == Some(now)
    ensures r.status == if e.newStatus.Some? then e.newStatus.value else t.status
    ensures r.(solutionText := t.solutionText, status := t.status, updatedAt := t.updatedAt) == t
  {
    var t' := t.(solutionText := Some(e.solution), updatedAt := Some(now));
    if e.newStatus.Some? then t'.(status := e.newStatus.value) else t'
  }

  /** The whole POST handler on the stored records: the response and the
      records it leaves behind. */
  function Solve(cases: seq<Ticket>, caseNumber: string, solution: BodyValue, status: BodyValue, now: string)
    : (r: (Response<Ticket>, seq<Ticket>))
    ensures |r.1| == |cases|
    ensures r.0.Ok? ==> r.0.body in r.1
  {
    match Validate(solution, status)
    case Failure(msg) => (BadRequest(msg), cases)
    case Success(e) =>
      match FindTicketIndex(cases, caseNumber)
      case None => (NotFound, cases)
      case Some(i) =>
        var updated := cases[i := ApplyEdit(cases[i], e, now)];
        (Ok(updated[i]), updated)
  }

  /** A rejected request changes nothing; it is rejected for its body before
      the case number is looked at, and not-found exactly when no record
      matches. */
  lemma SolveRejections(cases: seq<Ticket>, caseNumber: string, solution: BodyValue, status: BodyValue, now: string)
    ensures var (resp, after) := Solve(cases, caseNumber, solution, status, now);
      && (!resp.Ok? ==> after == cases)
      && (resp.BadRequest? <==> Validate(solution, status).Failure?)
      && (resp.BadRequest? ==> resp.message == Validate(solution, status).error)
      && (resp.NotFound? <==> Validate(solution, status).Success? && forall t :: t in cases ==> !Matches(t, caseNumber))
  {
  }

  /** A successful update changes the first matching record and no other, and
      answers with that record as updated. */
  lemma SolveUpdatesOneRecord(cases: seq<Ticket>, caseNumber: string, solution: BodyValue, status: BodyValue, now: string)
    ensures var (resp, after) := Solve(cases, caseNumber, solution, status, now);
      resp.Ok? ==>
        var i := FindTicketIndex(cases, caseNumber).value;
        && |after| == |cases|
        && after[i] == resp.body
        && (forall j :: 0 <= j < |cases| && j != i ==> after[j] == cases[j])
        && resp.body.ticketId == cases[i].ticketId == Upper(caseNumber)
        && resp.body.solutionText == Some(solution.s)
        && resp.body.updatedAt == Some(now)
        && resp.body.status == (if Truthy(status) then status.s else cases[i].status)
        && resp.body.(solutionText := cases[i].solutionText, status := cases[i].status,
                      updatedAt := cases[i].updatedAt) == cases[i]
  {
  }

  /** Sending the same update twice with the same timestamp leaves the
      records as sending it once: the second request finds the same record
      and writes the same values. */
  lemma {:induction false} SolveIdempotent(cases: seq<Ticket>, caseNumber: string, solution: BodyValue, status: BodyValue, now: string)
    ensures var (resp, after) := Solve(cases, caseNumber, solution, status, now);
      Solve(after, caseNumber, solution, status, now) == (resp, after)
  {
    var (resp, after) := Solve(cases, caseNumber, solution, status, now);
    if resp.Ok? {
      var e := Validate(solution, status).value;
      var i := FindTicketIndex(cases, caseNumber).value;
      var p := (t: Ticket) => Matches(t, caseNumber);
      FirstWhereUpdate(cases, p, i, ApplyEdit(cases[i], e, now));
      assert FindTicketIndex(after, caseNumber) == Some(i);
      assert ApplyEdit(after[i], e, now) == after[i];
      assert after[i := after[i]] == after;
    }
  }

  /** POST `/:caseNumber/solution` on the loaded records: validates the body,
      finds the record and updates it in place. */
  method PostSolution(cases: array<Ticket>, caseNumber: string, solution: BodyValue, status: BodyValue, now: string)
    returns (r: Response<Ticket>)
    modifies cases
    ensures (r, cases[..]) == Solve(old(cases[..]), caseNumber, solution, status, now)
  {
    var v := Validate(solution, status);
    if v.Failure? {
      return BadRequest(v.error);
    }
    var idx := FindTicketIndex(cases[..], caseNumber);
    if idx.None? {
      return NotFound;
    }
    var i := idx.value;
    cases[i] := ApplyEdit(cases[i], v.value, now);
    r := Ok(cases[i]);
  }
}

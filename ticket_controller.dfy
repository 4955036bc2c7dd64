/** The ticket handlers: opening a ticket, listing with filters and text
    search, showing, editing, changing the status, and assigning a ticket to
    a support user or taking it back. */
module TicketController {
  import opened Common
  import opened Text
  import opened Seqs
  import opened Store
  import opened TicketStatus

  const TicketNotFound := "Ticket not found"
  const InternalError := "Internal server error"

  /** Only the two known roles may open tickets. */
  predicate MayOpenTickets(req: Requester) {
    req.role == ClientRole || req.role == SupportRole
  }

  // ---------------------------------------------------------------------
  // Opening a ticket

  /** What `create` decides: the role check, the required fields and the
      type check, in that order, then the row to insert with its defaults.
      A priority outside the enumeration passes the handler and is refused by
      the table when the row is written. */
  function OpenTicket(req: Requester, title: Field, description: Field, priority: Field,
                      ticketType: Field, id: Id, at: nat): (r: Reply<Ticket>)
    ensures !r.Ok?
    ensures (r.Err? && r.code == Forbidden) <==> !MayOpenTickets(req)
    ensures (r.Err? && r.code == BadRequest) <==>
      MayOpenTickets(req) &&
      (!Truthy(title) || !Truthy(description) || (Truthy(ticketType) && ParseType(ticketType.s).None?))
    ensures (r.Err? && r.code == ServerError) <==>
      MayOpenTickets(req) && Truthy(title) && Truthy(description) &&
      !(Truthy(ticketType) && ParseType(ticketType.s).None?) &&
      Truthy(priority) && ParsePriority(priority.s).None?
    ensures r.Created? <==>
      MayOpenTickets(req) && Truthy(title) && Truthy(description) &&
      !(Truthy(ticketType) && ParseType(ticketType.s).None?) &&
      !(Truthy(priority) && ParsePriority(priority.s).None?)
    ensures r.Created? ==>
      && r.value.id == id && r.value.createdAt == at
      && r.value.title == title.s && r.value.description == description.s
      && (Truthy(priority) ==> ParsePriority(priority.s) == Some(r.value.priority))
      && (!Truthy(priority) ==> r.value.priority == Medium)
      && (Truthy(ticketType) ==> ParseType(ticketType.s) == Some(r.value.ticketType))
      && (!Truthy(ticketType) ==> r.value.ticketType == SuporteTecnico)
      && r.value.status == Open && r.value.assignedTo == None
      && r.value.creatorId == req.userId && r.value.companyId == req.companyId
  {
    if !MayOpenTickets(req) then
      Err(Forbidden, "Only clients and support can open tickets")
    else if !Truthy(title) || !Truthy(description) then
      Err(BadRequest, "Title and description are required")
    else if Truthy(ticketType) && ParseType(ticketType.s).None? then
      Err(BadRequest, "Type must be one of: bug, suporte_tecnico, solicitacao, sugestao_implementacao")
    else if Truthy(priority) && ParsePriority(priority.s).None? then
      Err(ServerError, InternalError)
    else
      var p := if Truthy(priority) then ParsePriority(priority.s).value else Medium;
      var ty := if Truthy(ticketType) then ParseType(ticketType.s).value else SuporteTecnico;
      Created(Ticket(id, title.s, description.s, p, Open, ty, req.userId, req.companyId, None, at))
  }

  /** `create`: the decision above, and on success the new row appended to the
      table under the current clock. */
  method Create(db: Db, req: Requester, title: Field, description: Field,
                priority: Field, ticketType: Field, newId: Id) returns (r: Reply<Ticket>)
    requires db.Valid()
    requires forall i :: 0 <= i < |db.tickets| ==> db.tickets[i].id != newId
    modifies db`tickets, db`clock
    ensures db.Valid()
    ensures r == OpenTicket(req, title, description, priority, ticketType, newId, old(db.clock))
    ensures r.Err? ==> unchanged(db)
    ensures r.Created? ==> db.tickets == old(db.tickets) + [r.value]
  {
    r := OpenTicket(req, title, description, priority, ticketType, newId, db.clock);
    if r.Created? {
      db.InsertTicket(r.value);
    }
  }

  // ---------------------------------------------------------------------
  // Listing

  /** The query string of a listing. */
  datatype TicketQuery = TicketQuery(status: Field, priority: Field, ticketType: Field,
                                     assignedTo: Field, search: Field)

  /** The `WHERE` clause the handler builds: each part, when present, is an
      equality on one column (`Some(None)` on a nullable column is `IS NULL`). */
  datatype Where = Where(company: Option<Option<Id>>, status: Option<Status>,
                         priority: Option<Priority>, ticketType: Option<TicketType>,
                         assignee: Option<Option<Id>>)

  predicate Matches(w: Where, t: Ticket) {
    && (w.company.Some? ==> t.companyId == w.company.value)
    && (w.status.Some? ==> t.status == w.status.value)
    && (w.priority.Some? ==> t.priority == w.priority.value)
    && (w.ticketType.Some? ==> t.ticketType == w.ticketType.value)
    && (w.assignee.Some? ==> t.assignedTo == w.assignee.value)
  }

  /** The text search: the lower-cased title or description contains the
      (already lower-cased) term. */
  predicate MatchesSearch(term: string, t: Ticket) {
    Contains(Lower(t.title), term) || Contains(Lower(t.description), term)
  }

  /** The words of the assignee filter that select unassigned tickets. */
  predicate MeansUnassigned(s: string) {
    s == "null" || s == "unassigned"
  }

  /** A query the handler refuses: a given status, priority or type it does
      not know. */
  predicate RejectedQuery(q: TicketQuery) {
    || (Truthy(q.status) && NormalizeStatus(q.status).Invalid?)
    || (Truthy(q.priority) && ParsePriority(q.priority.s).None?)
    || (Truthy(q.ticketType) && ParseType(q.ticketType.s).None?)
  }

  /** Which tickets a listing shows, stated filter by filter over the query
      and the requester rather than over the clause the handler builds. */
  ghost predicate Listed(req: Requester, q: TicketQuery, t: Ticket) {
    && (!IsSupport(req) ==> t.companyId == req.companyId)
    && (Truthy(q.status) ==> NormalizeStatus(q.status) == Canonical(t.status))
    && (Truthy(q.priority) ==> PriorityName(t.priority) == q.priority.s)
    && (Truthy(q.ticketType) ==> TypeName(t.ticketType) == q.ticketType.s)
    && (Truthy(q.assignedTo) && IsSupport(req) ==>
          if MeansUnassigned(q.assignedTo.s) then t.assignedTo == None
          else t.assignedTo == Some(q.assignedTo.s))
    && (Truthy(q.search) ==> MatchesSearch(Lower(q.search.s), t))
  }

  /** A listing: the tickets and their number. */
  datatype TicketList = TicketList(tickets: seq<Ticket>, count: nat)

  /** The filter part of `index`: the clause built from the requester's role
      and the query, or the refusal of an unknown status, priority or type,
      checked in that order. */
  method BuildWhere(req: Requester, q: TicketQuery) returns (r: Reply<Where>)
    ensures !r.Created?
    ensures r.Err? <==> RejectedQuery(q)
    ensures r.Err? ==> r.code == BadRequest
    ensures Truthy(q.status) && NormalizeStatus(q.status).Invalid? ==>
      r == Err(BadRequest, InvalidStatusMessage(q.status.s))
    ensures r.Ok? ==> forall t: Ticket ::
      (Matches(r.value, t) && (Truthy(q.search) ==> MatchesSearch(Lower(q.search.s), t))) <==> Listed(req, q, t)
  {
    var w := Where(if IsSupport(req) then None else Some(req.companyId), None, None, None, None);
    if Truthy(q.status) {
      var n := NormalizeStatus(q.status);
      if n.Invalid? {
        return Err(BadRequest, InvalidStatusMessage(q.status.s));
      }
      if n.Canonical? {
        w := w.(status := Some(n.status));
      }
    }
    if Truthy(q.priority) {
      var p := ParsePriority(q.priority.s);
      if p.None? {
        return Err(BadRequest, "Invalid priority \"" + q.priority.s + "\". Must be: low, medium, high");
      }
      w := w.(priority := p);
    }
    if Truthy(q.ticketType) {
      var ty := ParseType(q.ticketType.s);
      if ty.None? {
        return Err(BadRequest, "Invalid type \"" + q.ticketType.s
          + "\". Must be: bug, suporte_tecnico, solicitacao, sugestao_implementacao");
      }
      w := w.(ticketType := ty);
    }
    if Truthy(q.assignedTo) && IsSupport(req) {
      if MeansUnassigned(q.assignedTo.s) {
        w := w.(assignee := Some(None));
      } else {
        w := w.(assignee := Some(Some(q.assignedTo.s)));
      }
    }
    WhereMeansListed(req, q, w);
    return Ok(w);
  }

  /** `index`: the tickets the requester may see that pass every filter of
      the query, newest first, and their number. */
  method Index(db: Db, req: Requester, q: TicketQuery) returns (r: Reply<TicketList>)
    requires db.Valid()
    ensures !r.Created?
    ensures r.Err? <==> RejectedQuery(q)
    ensures r.Err? ==> r.code == BadRequest
    ensures Truthy(q.status) && NormalizeStatus(q.status).Invalid? ==>
      r == Err(BadRequest, InvalidStatusMessage(q.status.s))
    ensures r.Ok? ==> r.value.count == |r.value.tickets|
    ensures r.Ok? ==> forall t :: t in r.value.tickets <==> t in db.tickets && Listed(req, q, t)
    ensures r.Ok? ==> Ordered(r.value.tickets, TicketAfter)
  {
    var built := BuildWhere(req, q);
    if built.Err? {
      return Err(built.code, built.message);
    }
    var w := built.value;
    var selected := Filter(db.tickets, t => Matches(w, t));
    FilterOrdered(db.tickets, t => Matches(w, t), TicketBefore);
    var found := Reverse(selected);
    ReverseMembers(selected);
    ReverseOrdered(selected, TicketBefore, TicketAfter);

    var listed := found;
    if Truthy(q.search) && |found| > 0 {
      var term := Lower(q.search.s);
      listed := Filter(found, t => MatchesSearch(term, t));
      FilterOrdered(found, t => MatchesSearch(term, t), TicketAfter);
    }
    return Ok(TicketList(listed, |listed|));
  }

  /** The clause built from an accepted query selects exactly the tickets
      `Listed` describes, search aside. */
  lemma WhereMeansListed(req: Requester, q: TicketQuery, w: Where)
    requires !RejectedQuery(q)
    requires w.company == (if IsSupport(req) then None else Some(req.companyId))
    requires w.status == (if Truthy(q.status) then Some(NormalizeStatus(q.status).status) else None)
    requires w.priority == (if Truthy(q.priority) then ParsePriority(q.priority.s) else None)
    requires w.ticketType == (if Truthy(q.ticketType) then ParseType(q.ticketType.s) else None)
    requires w.assignee == (if Truthy(q.assignedTo) && IsSupport(req) then
               (if MeansUnassigned(q.assignedTo.s) then Some(None) else Some(Some(q.assignedTo.s)))
             else None)
    ensures forall t: Ticket ::
      (Matches(w, t) && (Truthy(q.search) ==> MatchesSearch(Lower(q.search.s), t))) <==> Listed(req, q, t)
  {
    forall t: Ticket
      ensures Matches(w, t) && (Truthy(q.search) ==> MatchesSearch(Lower(q.search.s), t)) <==> Listed(req, q, t)
    {
      if Truthy(q.status) {
        NormalizeMissing(q.status);
      }
      if Truthy(q.priority) {
        ParsePriorityInverse(q.priority.s, t.priority);
      }
      if Truthy(q.ticketType) {
        ParseTypeInverse(q.ticketType.s, t.ticketType);
      }
    }
  }

  /** A ticket whose title contains the search term, in whatever letter case,
      is found by the search. */
  lemma SearchFindsTitle(t: Ticket, before: string, term: string, after: string)
    requires t.title == before + term + after
    ensures MatchesSearch(Lower(term), t)
  {
    LowerConcat(before, term);
    LowerConcat(before + term, after);
    ContainsSpliced(Lower(before), Lower(term), Lower(after));
  }

  lemma LowerConcat(a: string, b: string)
    ensures Lower(a + b) == Lower(a) + Lower(b)
  {
    assert forall i :: 0 <= i < |a + b| ==> (a + b)[i] == if i < |a| then a[i] else b[i - |a|];
  }

  // ---------------------------------------------------------------------
  // Showing

  method Show(db: Db, req: Requester, id: Id) returns (r: Reply<Ticket>)
    requires db.Valid()
    ensures !r.Created?
    ensures r == Err(NotFound, TicketNotFound) <==> FindTicket(db.tickets, id).None?
    ensures FindTicket(db.tickets, id).Some? ==>
      var t := db.tickets[FindTicket(db.tickets, id).value];
      && (r.Err? <==> IsClient(req) && t.companyId != req.companyId)
      && (r.Err? ==> r.code == Forbidden)
      && (r.Ok? ==> r.value == t)
  {
    var k := FindTicket(db.tickets, id);
    if k.None? {
      return Err(NotFound, TicketNotFound);
    }
    var t := db.tickets[k.value];
    if IsClient(req) && t.companyId != req.companyId {
      return Err(Forbidden, "You can only view tickets from your company");
    }
    return Ok(t);
  }

  // ---------------------------------------------------------------------
  // Editing

  /** The editable fields of a ticket as the request body carries them. */
  datatype TicketEdit = TicketEdit(title: Field, description: Field, priority: Field,
                                   status: Field, ticketType: Field)

  /** The status an edit refuses before touching the ticket. */
  predicate BadStatus(e: TicketEdit) {
    Truthy(e.status) && NormalizeStatus(e.status).Invalid?
  }

  /** The ticket after an edit: each field given with a non-empty value takes
      that value, every other field keeps its own. `None` when the new
      priority or type is outside its enumeration, which the table refuses. */
  function Edited(t: Ticket, e: TicketEdit): (r: Option<Ticket>)
    requires !BadStatus(e)
    ensures r.None? <==>
      (Truthy(e.priority) && ParsePriority(e.priority.s).None?) ||
      (Truthy(e.ticketType) && ParseType(e.ticketType.s).None?)
    ensures r.Some? ==>
      && r.value.id == t.id && r.value.creatorId == t.creatorId
      && r.value.companyId == t.companyId && r.value.assignedTo == t.assignedTo
      && r.value.createdAt == t.createdAt
      && r.value.title == (if Truthy(e.title) then e.title.s else t.title)
      && r.value.description == (if Truthy(e.description) then e.description.s else t.description)
      && (Truthy(e.priority) ==> ParsePriority(e.priority.s) == Some(r.value.priority))
      && (!Truthy(e.priority) ==> r.value.priority == t.priority)
      && (Truthy(e.status) ==> NormalizeStatus(e.status) == Canonical(r.value.status))
      && (!Truthy(e.status) ==> r.value.status == t.status)
      && (Truthy(e.ticketType) ==> ParseType(e.ticketType.s) == Some(r.value.ticketType))
      && (!Truthy(e.ticketType) ==> r.value.ticketType == t.ticketType)
  {
    var p := if Truthy(e.priority) then ParsePriority(e.priority.s) else Some(t.priority);
    var ty := if Truthy(e.ticketType) then ParseType(e.ticketType.s) else Some(t.ticketType);
    if p.None? || ty.None? then None
    else
      NormalizeMissing(e.status);
      var st := if Truthy(e.status) then NormalizeStatus(e.status).status else t.status;
      Some(t.(title := if Truthy(e.title) then e.title.s else t.title,
              description := if Truthy(e.description) then e.description.s else t.description,
              priority := p.value, status := st, ticketType := ty.value))
  }

  /** An edit with no field given changes nothing. */
  lemma EmptyEditChangesNothing(t: Ticket)
    ensures Edited(t, TicketEdit(Absent, Absent, Absent, Absent, Absent)) == Some(t)
  {
  }

  /** Applying the same edit twice is applying it once. */
  lemma {:induction false} EditIdempotent(t: Ticket, e: TicketEdit)
    requires !BadStatus(e) && Edited(t, e).Some?
    ensures Edited(Edited(t, e).value, e) == Edited(t, e)
  {
    if Truthy(e.status) {
      var st := Edited(t, e).value.status;
      NameNormalizes(st);
    }
  }

  /** `update`: no role or ownership check; a bad status is refused before
      anything is written. */
  method Update(db: Db, id: Id, e: TicketEdit) returns (r: Reply<Ticket>)
    requires db.Valid()
    modifies db`tickets
    ensures db.Valid()
    ensures !r.Created?
    ensures r.Err? ==> unchanged(db)
    ensures r == Err(NotFound, TicketNotFound) <==> FindTicket(old(db.tickets), id).None?
    ensures FindTicket(old(db.tickets), id).Some? ==>
      var k := FindTicket(old(db.tickets), id).value;
      && ((r.Err? && r.code == BadRequest) <==> BadStatus(e))
      && (BadStatus(e) ==> r == Err(BadRequest, InvalidStatusMessage(e.status.s)))
      && ((r.Err? && r.code == ServerError) <==> !BadStatus(e) && Edited(old(db.tickets)[k], e).None?)
      && (r.Ok? <==> !BadStatus(e) && Edited(old(db.tickets)[k], e).Some?)
      && (r.Ok? ==> Edited(old(db.tickets)[k], e) == Some(r.value)
                    && db.tickets == old(db.tickets)[k := r.value])
  {
    var k := FindTicket(db.tickets, id);
    if k.None? {
      return Err(NotFound, TicketNotFound);
    }
    if BadStatus(e) {
      return Err(BadRequest, InvalidStatusMessage(e.status.s));
    }
    var t := Edited(db.tickets[k.value], e);
    if t.None? {
      return Err(ServerError, InternalError);
    }
    db.SaveTicket(k.value, t.value);
    return Ok(t.value);
  }

  // ---------------------------------------------------------------------
  // Changing the status

  /** `updateStatus`: support only; any given status is accepted from any
      current one. */
  method UpdateStatus(db: Db, req: Requester, id: Id, status: Field) returns (r: Reply<Ticket>)
    requires db.Valid()
    modifies db`tickets
    ensures db.Valid()
    ensures !r.Created?
    ensures r.Err? ==> unchanged(db)
    ensures (r.Err? && r.code == Forbidden) <==> !IsSupport(req)
    ensures (r.Err? && r.code == BadRequest) <==> IsSupport(req) && !NormalizeStatus(status).Canonical?
    ensures IsSupport(req) && NormalizeStatus(status).Missing? ==> r == Err(BadRequest, "Status is required")
    ensures IsSupport(req) && NormalizeStatus(status).Invalid? ==>
      r == Err(BadRequest, InvalidStatusMessage(status.s))
    ensures (r.Err? && r.code == NotFound) <==>
      IsSupport(req) && NormalizeStatus(status).Canonical? && FindTicket(old(db.tickets), id).None?
    ensures r.Ok? <==>
      IsSupport(req) && NormalizeStatus(status).Canonical? && FindTicket(old(db.tickets), id).Some?
    ensures r.Ok? ==>
      && FindTicket(old(db.tickets), id).Some?
      && var k := FindTicket(old(db.tickets), id).value;
      && r.value == old(db.tickets)[k].(status := NormalizeStatus(status).status)
      && db.tickets == old(db.tickets)[k := r.value]
  {
    if !IsSupport(req) {
      return Err(Forbidden, "Only support can update status");
    }
    var n := NormalizeStatus(status);
    if n.Missing? {
      return Err(BadRequest, "Status is required");
    }
    if n.Invalid? {
      return Err(BadRequest, InvalidStatusMessage(status.s));
    }
    var k := FindTicket(db.tickets, id);
    if k.None? {
      return Err(NotFound, TicketNotFound);
    }
    var t := db.tickets[k.value].(status := n.status);
    db.SaveTicket(k.value, t);
    return Ok(t);
  }

  // ---------------------------------------------------------------------
  // Assigning and unassigning

  /** A ticket taken by `who`: an open ticket moves to in progress, any other
      status stays. */
  function Assigned(t: Ticket, who: Id): Ticket {
    t.(assignedTo := Some(who), status := if t.status == Open then InProgress else t.status)
  }

  /** A ticket released: an in-progress ticket goes back to open, any other
      status stays. */
  function Unassigned(t: Ticket): Ticket {
    t.(assignedTo := None, status := if t.status == InProgress then Open else t.status)
  }

  /** An assigned ticket is never open, and a closed ticket stays closed. */
  lemma AssignedStatus(t: Ticket, who: Id)
    ensures Assigned(t, who).status != Open
    ensures Assigned(t, who).assignedTo == Some(who)
    ensures Assigned(t, who).status == Closed <==> t.status == Closed
  {
  }

  /** A released ticket is never in progress, and a closed ticket stays
      closed. */
  lemma UnassignedStatus(t: Ticket)
    ensures Unassigned(t).status != InProgress
    ensures Unassigned(t).assignedTo == None
    ensures Unassigned(t).status == Closed <==> t.status == Closed
  {
  }

  /** Releasing a ticket that was just taken gives what releasing it
      directly gives; an open unassigned ticket comes back as it was. */
  lemma UnassignUndoesAssign(t: Ticket, who: Id)
    ensures Unassigned(Assigned(t, who)) == Unassigned(t)
    ensures t.status == Open && t.assignedTo == None ==> Unassigned(Assigned(t, who)) == t
  {
  }

  /** Neither operation changes anything but the assignee and the status. */
  lemma AssignKeepsContent(t: Ticket, who: Id)
    ensures Assigned(t, who).(assignedTo := t.assignedTo, status := t.status) == t
    ensures Unassigned(t).(assignedTo := t.assignedTo, status := t.status) == t
  {
  }

  /** `assignToSupport`: support only; the assignee is the named support user
      or, when none is named, the requester. */
  method AssignToSupport(db: Db, req: Requester, id: Id, supportUserId: Field) returns (r: Reply<Ticket>)
    requires db.Valid()
    modifies db`tickets
    ensures db.Valid()
    ensures !r.Created?
    ensures r.Err? ==> unchanged(db)
    ensures (r.Err? && r.code == Forbidden) <==> !IsSupport(req)
    ensures r == Err(NotFound, TicketNotFound) <==> IsSupport(req) && FindTicket(old(db.tickets), id).None?
    ensures r == Err(NotFound, "Support user not found") <==>
      IsSupport(req) && FindTicket(old(db.tickets), id).Some? &&
      Truthy(supportUserId) && supportUserId.s !in db.users
    ensures (r.Err? && r.code == BadRequest) <==>
      IsSupport(req) && FindTicket(old(db.tickets), id).Some? &&
      Truthy(supportUserId) && supportUserId.s in db.users && db.users[supportUserId.s].role != Support
    ensures r.Ok? <==>
      IsSupport(req) && FindTicket(old(db.tickets), id).Some? &&
      (Truthy(supportUserId) ==> supportUserId.s in db.users && db.users[supportUserId.s].role == Support)
    ensures r.Ok? ==>
      && FindTicket(old(db.tickets), id).Some?
      && var k := FindTicket(old(db.tickets), id).value;
      && r.value == Assigned(old(db.tickets)[k], if Truthy(supportUserId) then supportUserId.s else req.userId)
      && db.tickets == old(db.tickets)[k := r.value]
  {
    if !IsSupport(req) {
      return Err(Forbidden, "Only support users can assign tickets");
    }
    var k := FindTicket(db.tickets, id);
    if k.None? {
      return Err(NotFound, TicketNotFound);
    }
    var who := req.userId;
    if Truthy(supportUserId) {
      if supportUserId.s !in db.users {
        return Err(NotFound, "Support user not found");
      }
      if db.users[supportUserId.s].role != Support {
        return Err(BadRequest, "User must have support role");
      }
      who := supportUserId.s;
    }
    var t := Assigned(db.tickets[k.value], who);
    db.SaveTicket(k.value, t);
    return Ok(t);
  }

  /** `unassignTicket`: support only; clears the assignee. */
  method UnassignTicket(db: Db, req: Requester, id: Id) returns (r: Reply<Ticket>)
    requires db.Valid()
    modifies db`tickets
    ensures db.Valid()
    ensures !r.Created?
    ensures r.Err? ==> unchanged(db)
    ensures (r.Err? && r.code == Forbidden) <==> !IsSupport(req)
    ensures (r.Err? && r.code == NotFound) <==> IsSupport(req) && FindTicket(old(db.tickets), id).None?
    ensures r.Ok? <==> IsSupport(req) && FindTicket(old(db.tickets), id).Some?
    ensures r.Ok? ==>
      && FindTicket(old(db.tickets), id).Some?
      && var k := FindTicket(old(db.tickets), id).value;
      && r.value == Unassigned(old(db.tickets)[k])
      && db.tickets == old(db.tickets)[k := r.value]
  {
    if !IsSupport(req) {
      return Err(Forbidden, "Only support users can unassign tickets");
    }
    var k := FindTicket(db.tickets, id);
    if k.None? {
      return Err(NotFound, TicketNotFound);
    }
    var t := Unassigned(db.tickets[k.value]);
    db.SaveTicket(k.value, t);
    return Ok(t);
  }

  // ---------------------------------------------------------------------
  // A support user's own queue

  /** `myTickets`: support only; the tickets assigned to the requester,
      newest first. */
  method MyTickets(db: Db, req: Requester) returns (r: Reply<TicketList>)
    requires db.Valid()
    ensures !r.Created?
    ensures r.Err? <==> !IsSupport(req)
    ensures r.Err? ==> r.code == Forbidden
    ensures r.Ok? ==> r.value.count == |r.value.tickets|
    ensures r.Ok? ==> forall t :: t in r.value.tickets <==> t in db.tickets && t.assignedTo == Some(req.userId)
    ensures r.Ok? ==> Ordered(r.value.tickets, TicketAfter)
  {
    if !IsSupport(req) {
      return Err(Forbidden, "Only support users can access my tickets");
    }
    var mine := Filter(db.tickets, (t: Ticket) => t.assignedTo == Some(req.userId));
    FilterOrdered(db.tickets, (t: Ticket) => t.assignedTo == Some(req.userId), TicketBefore);
    var found := Reverse(mine);
    ReverseMembers(mine);
    ReverseOrdered(mine, TicketBefore, TicketAfter);
    return Ok(TicketList(found, |found|));
  }
}

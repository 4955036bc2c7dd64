/** The comment handlers of a ticket: writing a comment, listing the comments
    the requester may see, editing and deleting one. */
module CommentController {
  import opened Common
  import opened Text
  import opened Seqs
  import opened Store

  const ContentRequired := "Content is required"
  const CommentNotFound := "Comment not found"

  /** The content check both `create` and `update` make first: a missing or
      empty content, or one that is only whitespace, is refused. */
  predicate BlankContent(content: Field) {
    !Truthy(content) || Trim(content.s) == ""
  }

  /** A client may only reach the tickets of its own company; any other role
      reaches every ticket. */
  predicate MayReach(req: Requester, t: Ticket) {
    !(IsClient(req) && t.companyId != req.companyId)
  }

  /** Whether a comment is stored as internal: only support may ask for it,
      and an absent flag means not internal. */
  function InternalFlag(req: Requester, isInternal: Option<bool>): (b: bool)
    ensures b ==> IsSupport(req)
    ensures IsSupport(req) ==> (b <==> isInternal == Some(true))
  {
    if IsSupport(req) then isInternal.GetOr(false) else false
  }

  /** `create`: a comment on an existing ticket the requester may reach, with
      its content trimmed. */
  method Create(db: Db, req: Requester, ticketId: Id, content: Field,
                isInternal: Option<bool>, newId: Id) returns (r: Reply<Comment>)
    requires db.Valid()
    requires forall i :: 0 <= i < |db.comments| ==> db.comments[i].id != newId
    modifies db`comments, db`clock
    ensures db.Valid()
    ensures !r.Ok?
    ensures r.Err? ==> unchanged(db)
    ensures (r.Err? && r.code == BadRequest) <==> BlankContent(content)
    ensures BlankContent(content) ==> r == Err(BadRequest, ContentRequired)
    ensures (r.Err? && r.code == NotFound) <==>
      !BlankContent(content) && FindTicket(db.tickets, ticketId).None?
    ensures (r.Err? && r.code == Forbidden) <==>
      !BlankContent(content) && FindTicket(db.tickets, ticketId).Some? &&
      !MayReach(req, db.tickets[FindTicket(db.tickets, ticketId).value])
    ensures r.Created? <==>
      !BlankContent(content) && FindTicket(db.tickets, ticketId).Some? &&
      MayReach(req, db.tickets[FindTicket(db.tickets, ticketId).value])
    ensures r.Created? ==>
      && db.comments == old(db.comments) + [r.value]
      && r.value.id == newId && r.value.ticketId == ticketId && r.value.authorId == req.userId
      && r.value.content == Trim(content.s) && r.value.content != ""
      && (r.value.isInternal ==> IsSupport(req))
      && (IsSupport(req) ==> (r.value.isInternal <==> isInternal == Some(true)))
  {
    if !Truthy(content) || Trim(content.s) == "" {
      return Err(BadRequest, ContentRequired);
    }
    var k := FindTicket(db.tickets, ticketId);
    if k.None? {
      return Err(NotFound, "Ticket not found");
    }
    if IsClient(req) && db.tickets[k.value].companyId != req.companyId {
      return Err(Forbidden, "You can only comment on tickets from your company");
    }
    var c := Comment(newId, Trim(content.s), InternalFlag(req, isInternal), ticketId, req.userId, db.clock);
    db.InsertComment(c);
    return Created(c);
  }

  /** The comments of a ticket a requester is shown: a client never sees an
      internal one. */
  predicate VisibleTo(req: Requester, ticketId: Id, c: Comment) {
    c.ticketId == ticketId && (IsClient(req) ==> !c.isInternal)
  }

  /** `index`: the visible comments of a ticket the requester may reach,
      oldest first. */
  method Index(db: Db, req: Requester, ticketId: Id) returns (r: Reply<seq<Comment>>)
    requires db.Valid()
    ensures !r.Created?
    ensures r == Err(NotFound, "Ticket not found") <==> FindTicket(db.tickets, ticketId).None?
    ensures (r.Err? && r.code == Forbidden) <==>
      FindTicket(db.tickets, ticketId).Some? &&
      !MayReach(req, db.tickets[FindTicket(db.tickets, ticketId).value])
    ensures r.Ok? <==>
      FindTicket(db.tickets, ticketId).Some? &&
      MayReach(req, db.tickets[FindTicket(db.tickets, ticketId).value])
    ensures r.Ok? ==> forall c :: c in r.value <==> c in db.comments && VisibleTo(req, ticketId, c)
    ensures r.Ok? ==> Ordered(r.value, CommentBefore)
  {
    var k := FindTicket(db.tickets, ticketId);
    if k.None? {
      return Err(NotFound, "Ticket not found");
    }
    if IsClient(req) && db.tickets[k.value].companyId != req.companyId {
      return Err(Forbidden, "You can only view comments from tickets of your company");
    }
    var shown := Filter(db.comments, c => VisibleTo(req, ticketId, c));
    FilterOrdered(db.comments, c => VisibleTo(req, ticketId, c), CommentBefore);
    return Ok(shown);
  }

  /** Support is shown every comment of the ticket, internal or not. */
  lemma SupportSeesAll(req: Requester, ticketId: Id, c: Comment)
    requires IsSupport(req)
    ensures VisibleTo(req, ticketId, c) <==> c.ticketId == ticketId
  {
  }

  /** The comment `findOne({uuid, TicketUuid})` returns: the one with that id,
      provided it belongs to that ticket. */
  function FindOnTicket(cs: seq<Comment>, ticketId: Id, commentId: Id): (r: Option<nat>)
    ensures r.Some? ==> r.value < |cs| && cs[r.value].id == commentId && cs[r.value].ticketId == ticketId
    ensures r.None? ==> forall i :: 0 <= i < |cs| ==> !(cs[i].id == commentId && cs[i].ticketId == ticketId)
    requires CommentIdsUnique(cs)
  {
    match FindComment(cs, commentId)
    case None => None
    case Some(k) => if cs[k].ticketId == ticketId then Some(k) else None
  }

  /** Only support and the comment's author may change or delete it. */
  predicate MayEdit(req: Requester, c: Comment) {
    IsSupport(req) || c.authorId == req.userId
  }

  /** `update`: support or the author replaces the content, trimmed; nothing
      else of the comment changes. */
  method Update(db: Db, req: Requester, ticketId: Id, commentId: Id, content: Field)
    returns (r: Reply<Comment>)
    requires db.Valid()
    modifies db`comments
    ensures db.Valid()
    ensures !r.Created?
    ensures r.Err? ==> unchanged(db)
    ensures (r.Err? && r.code == BadRequest) <==> BlankContent(content)
    ensures (r.Err? && r.code == NotFound) <==>
      !BlankContent(content) && FindOnTicket(old(db.comments), ticketId, commentId).None?
    ensures (r.Err? && r.code == Forbidden) <==>
      !BlankContent(content) && FindOnTicket(old(db.comments), ticketId, commentId).Some? &&
      !MayEdit(req, old(db.comments)[FindOnTicket(old(db.comments), ticketId, commentId).value])
    ensures r.Ok? <==>
      !BlankContent(content) && FindOnTicket(old(db.comments), ticketId, commentId).Some? &&
      MayEdit(req, old(db.comments)[FindOnTicket(old(db.comments), ticketId, commentId).value])
    ensures r.Ok? ==>
      && FindOnTicket(old(db.comments), ticketId, commentId).Some?
      && var k := FindOnTicket(old(db.comments), ticketId, commentId).value;
      && r.value == old(db.comments)[k].(content := Trim(content.s))
      && r.value.content != ""
      && db.comments == old(db.comments)[k := r.value]
  {
    if !Truthy(content) || Trim(content.s) == "" {
      return Err(BadRequest, ContentRequired);
    }
    var k := FindOnTicket(db.comments, ticketId, commentId);
    if k.None? {
      return Err(NotFound, CommentNotFound);
    }
    if !IsSupport(req) && db.comments[k.value].authorId != req.userId {
      return Err(Forbidden, "You can only edit your own comments");
    }
    var c := db.comments[k.value].(content := Trim(content.s));
    db.SaveComment(k.value, c);
    return Ok(c);
  }

  /** Stored content is trimmed: trimming it again changes nothing, and it
      neither starts nor ends with whitespace. */
  lemma StoredContentTrimmed(content: string)
    requires Trim(content) != ""
    ensures Trim(Trim(content)) == Trim(content)
    ensures !IsSpace(Trim(content)[0]) && !IsSpace(Trim(content)[|Trim(content)| - 1])
  {
    TrimIdempotent(content);
    TrimSpec(content);
  }

  /** `destroy`: support or the author deletes the comment; every other
      comment stays, in order. */
  method Destroy(db: Db, req: Requester, ticketId: Id, commentId: Id) returns (r: Reply<string>)
    requires db.Valid()
    modifies db`comments
    ensures db.Valid()
    ensures !r.Created?
    ensures r.Err? ==> unchanged(db)
    ensures (r.Err? && r.code == NotFound) <==> FindOnTicket(old(db.comments), ticketId, commentId).None?
    ensures (r.Err? && r.code == Forbidden) <==>
      FindOnTicket(old(db.comments), ticketId, commentId).Some? &&
      !MayEdit(req, old(db.comments)[FindOnTicket(old(db.comments), ticketId, commentId).value])
    ensures r.Ok? <==>
      FindOnTicket(old(db.comments), ticketId, commentId).Some? &&
      MayEdit(req, old(db.comments)[FindOnTicket(old(db.comments), ticketId, commentId).value])
    ensures r.Ok? ==>
      && FindOnTicket(old(db.comments), ticketId, commentId).Some?
      && var k := FindOnTicket(old(db.comments), ticketId, commentId).value;
      && db.comments == old(db.comments)[..k] + old(db.comments)[k + 1..]
      && (forall c :: c in db.comments <==> c in old(db.comments) && c.id != commentId)
  {
    var k := FindOnTicket(db.comments, ticketId, commentId);
    if k.None? {
      return Err(NotFound, CommentNotFound);
    }
    if !IsSupport(req) && db.comments[k.value].authorId != req.userId {
      return Err(Forbidden, "You can only delete your own comments");
    }
    RemovedExactly(db.comments, k.value);
    db.DeleteComment(k.value);
    return Ok("Comment deleted successfully");
  }

  /** Removing the row at `k` from a table of unique ids removes exactly the
      rows with its id. */
  lemma RemovedExactly(cs: seq<Comment>, k: nat)
    requires CommentIdsUnique(cs) && k < |cs|
    ensures forall c :: c in cs[..k] + cs[k + 1..] <==> c in cs && c.id != cs[k].id
  {
    var r := cs[..k] + cs[k + 1..];
    assert forall i :: 0 <= i < |r| ==> r[i] == cs[if i < k then i else i + 1];
    forall c ensures c in r <==> c in cs && c.id != cs[k].id {
      if c in cs && c.id != cs[k].id {
        var i :| 0 <= i < |cs| && cs[i] == c;
        assert i != k;
        assert c == r[if i < k then i else i - 1];
      }
      if c in r {
        var j :| 0 <= j < |r| && r[j] == c;
        var i := if j < k then j else j + 1;
        assert cs[i] == c && i != k;
      }
    }
  }
}

/** The records the controllers read and write (users, companies, tickets and
    ticket comments), their enumerations, and the store that holds them. */
module Store {
  import opened Common
  import opened Seqs

  datatype Role = Client | Support

  /** The role names a token carries and the middleware and handlers compare. */
  const ClientRole: string := "client"
  const SupportRole: string := "support"

  function RoleName(r: Role): string {
    match r
    case Client => ClientRole
    case Support => SupportRole
  }

  function ParseRole(s: string): Option<Role> {
    if s == ClientRole then Some(Client)
    else if s == SupportRole then Some(Support)
    else None
  }

  /** Parsing accepts exactly the two role names. */
  lemma ParseRoleInverse(s: string, r: Role)
    ensures ParseRole(s) == Some(r) <==> RoleName(r) == s
  {
  }

  datatype Status = Open | InProgress | Closed

  function StatusName(s: Status): string {
    match s
    case Open => "open"
    case InProgress => "in_progress"
    case Closed => "closed"
  }

  datatype Priority = Low | Medium | High

  function PriorityName(p: Priority): string {
    match p
    case Low => "low"
    case Medium => "medium"
    case High => "high"
  }

  function ParsePriority(s: string): Option<Priority> {
    if s == "low" then Some(Low)
    else if s == "medium" then Some(Medium)
    else if s == "high" then Some(High)
    else None
  }

  /** Parsing accepts exactly the three priority names. */
  lemma ParsePriorityInverse(s: string, p: Priority)
    ensures ParsePriority(s) == Some(p) <==> PriorityName(p) == s
  {
  }

  datatype TicketType = Bug | SuporteTecnico | Solicitacao | SugestaoImplementacao

  function TypeName(t: TicketType): string {
    match t
    case Bug => "bug"
    case SuporteTecnico => "suporte_tecnico"
    case Solicitacao => "solicitacao"
    case SugestaoImplementacao => "sugestao_implementacao"
  }

  function ParseType(s: string): Option<TicketType> {
    if s == "bug" then Some(Bug)
    else if s == "suporte_tecnico" then Some(SuporteTecnico)
    else if s == "solicitacao" then Some(Solicitacao)
    else if s == "sugestao_implementacao" then Some(SugestaoImplementacao)
    else None
  }

  /** Parsing accepts exactly the four type names. */
  lemma ParseTypeInverse(s: string, t: TicketType)
    ensures ParseType(s) == Some(t) <==> TypeName(t) == s
  {
  }

  /** A user; `passwordHash` is what the password-hashing hook stored. */
  datatype User = User(id: Id, name: string, email: string, role: Role,
                       passwordHash: string, companyId: Option<Id>)

  datatype Company = Company(id: Id, name: string, cnpj: Option<string>)

  datatype Ticket = Ticket(id: Id, title: string, description: string,
                           priority: Priority, status: Status, ticketType: TicketType,
                           creatorId: Id, companyId: Option<Id>, assignedTo: Option<Id>,
                           createdAt: nat)

  datatype Comment = Comment(id: Id, content: string, isInternal: bool,
                             ticketId: Id, authorId: Id, createdAt: nat)

  /** The claims the authentication middleware put on the request: the user's
      id, role and company. The role is whatever string the token carried. */
  datatype Requester = Requester(userId: Id, role: string, companyId: Option<Id>)

  predicate IsSupport(req: Requester) { req.role == SupportRole }
  predicate IsClient(req: Requester) { req.role == ClientRole }

  ghost predicate EmailsUnique(users: map<Id, User>) {
    forall a, b :: a in users && b in users && a != b ==> users[a].email != users[b].email
  }

  /** No two companies share a non-null cnpj. */
  ghost predicate CnpjUnique(companies: map<Id, Company>) {
    forall a, b :: a in companies && b in companies && a != b && companies[a].cnpj.Some? ==>
      companies[a].cnpj != companies[b].cnpj
  }

  predicate TicketBefore(a: Ticket, b: Ticket) { a.createdAt < b.createdAt }
  predicate TicketAfter(a: Ticket, b: Ticket) { a.createdAt > b.createdAt }
  predicate CommentBefore(a: Comment, b: Comment) { a.createdAt < b.createdAt }

  ghost predicate TicketIdsUnique(ts: seq<Ticket>) {
    forall i, j :: 0 <= i < j < |ts| ==> ts[i].id != ts[j].id
  }

  ghost predicate CommentIdsUnique(cs: seq<Comment>) {
    forall i, j :: 0 <= i < j < |cs| ==> cs[i].id != cs[j].id
  }

  /** The position of the row whose primary key `key` gives is `id`
      (`findByPk`, and `findOne` on the uuid). */
  function Find<T>(rows: seq<T>, key: T -> Id, id: Id): (r: Option<nat>)
    ensures r.Some? ==> r.value < |rows| && key(rows[r.value]) == id
    ensures r.None? ==> forall i :: 0 <= i < |rows| ==> key(rows[i]) != id
    decreases |rows|
  {
    if rows == [] then None
    else if key(rows[|rows| - 1]) == id then Some(|rows| - 1)
    else Find(rows[..|rows| - 1], key, id)
  }

  function FindTicket(ts: seq<Ticket>, id: Id): Option<nat> {
    Find(ts, (t: Ticket) => t.id, id)
  }

  function FindComment(cs: seq<Comment>, id: Id): Option<nat> {
    Find(cs, (c: Comment) => c.id, id)
  }

  ghost predicate UsersValid(users: map<Id, User>) {
    (forall id :: id in users ==> users[id].id == id) && EmailsUnique(users)
  }

  ghost predicate CompaniesValid(companies: map<Id, Company>) {
    (forall id :: id in companies ==> companies[id].id == id) && CnpjUnique(companies)
  }

  /** The ticket table: unique ids, rows in creation order, every stamp taken
      before `clock`. */
  ghost predicate TicketsValid(ts: seq<Ticket>, clock: nat) {
    && TicketIdsUnique(ts)
    && Ordered(ts, TicketBefore)
    && (forall i :: 0 <= i < |ts| ==> ts[i].createdAt < clock)
  }

  ghost predicate CommentsValid(cs: seq<Comment>, clock: nat) {
    && CommentIdsUnique(cs)
    && Ordered(cs, CommentBefore)
    && (forall i :: 0 <= i < |cs| ==> cs[i].createdAt < clock)
  }

  /** Inserting a row with a fresh id, stamped with the current clock. */
  lemma TicketsAppend(ts: seq<Ticket>, clock: nat, t: Ticket)
    requires TicketsValid(ts, clock) && t.createdAt == clock
    requires forall i :: 0 <= i < |ts| ==> ts[i].id != t.id
    ensures TicketsValid(ts + [t], clock + 1)
  {
    var r := ts + [t];
    forall i, j | 0 <= i < j < |r| ensures TicketBefore(r[i], r[j]) {
      if j < |ts| { assert r[i] == ts[i] && r[j] == ts[j]; }
    }
  }

  /** Saving a row under its own id and stamp. */
  lemma TicketsReplace(ts: seq<Ticket>, clock: nat, k: nat, t: Ticket)
    requires TicketsValid(ts, clock) && k < |ts|
    requires t.id == ts[k].id && t.createdAt == ts[k].createdAt
    ensures TicketsValid(ts[k := t], clock)
  {
    var r := ts[k := t];
    forall i, j | 0 <= i < j < |r| ensures TicketBefore(r[i], r[j]) {
      assert TicketBefore(ts[i], ts[j]);
    }
  }

  lemma CommentsAppend(cs: seq<Comment>, clock: nat, c: Comment)
    requires CommentsValid(cs, clock) && c.createdAt == clock
    requires forall i :: 0 <= i < |cs| ==> cs[i].id != c.id
    ensures CommentsValid(cs + [c], clock + 1)
  {
    var r := cs + [c];
    forall i, j | 0 <= i < j < |r| ensures CommentBefore(r[i], r[j]) {
      if j < |cs| { assert r[i] == cs[i] && r[j] == cs[j]; }
    }
  }

  lemma CommentsReplace(cs: seq<Comment>, clock: nat, k: nat, c: Comment)
    requires CommentsValid(cs, clock) && k < |cs|
    requires c.id == cs[k].id && c.createdAt == cs[k].createdAt
    ensures CommentsValid(cs[k := c], clock)
  {
    var r := cs[k := c];
    forall i, j | 0 <= i < j < |r| ensures CommentBefore(r[i], r[j]) {
      assert CommentBefore(cs[i], cs[j]);
    }
  }

  /** Deleting a row keeps the others and their order. */
  lemma CommentsRemove(cs: seq<Comment>, clock: nat, k: nat)
    requires CommentsValid(cs, clock) && k < |cs|
    ensures CommentsValid(cs[..k] + cs[k + 1..], clock)
  {
    var r := cs[..k] + cs[k + 1..];
    assert forall i :: 0 <= i < |r| ==> r[i] == cs[if i < k then i else i + 1];
    forall i, j | 0 <= i < j < |r| ensures CommentBefore(r[i], r[j]) && r[i].id != r[j].id {
      var i', j' := if i < k then i else i + 1, if j < k then j else j + 1;
      assert r[i] == cs[i'] && r[j] == cs[j'] && i' < j';
    }
  }

  /** Some company other than `except` holds `cnpj`. */
  predicate CnpjTaken(companies: map<Id, Company>, cnpj: string, except: Option<Id>) {
    exists k :: k in companies && Some(k) != except && companies[k].cnpj == Some(cnpj)
  }

  /** Some user holds `email`. */
  predicate EmailTaken(users: map<Id, User>, email: string) {
    exists k :: k in users && users[k].email == email
  }

  /** The relational store. Tables whose rows are listed in creation order are
      sequences kept in that order; `clock` stamps `createdAt` and only grows. */
  class Db {
    var users: map<Id, User>
    var companies: map<Id, Company>
    var tickets: seq<Ticket>
    var comments: seq<Comment>
    var clock: nat

    ghost predicate Valid()
      reads this
    {
      && UsersValid(users)
      && CompaniesValid(companies)
      && TicketsValid(tickets, clock)
      && CommentsValid(comments, clock)
    }

    constructor ()
      ensures Valid()
      ensures users == map[] && companies == map[] && tickets == [] && comments == []
    {
      users, companies, tickets, comments, clock := map[], map[], [], [], 0;
    }

    /** `Ticket.create`: the new row goes last, stamped with the clock. */
    method InsertTicket(t: Ticket)
      requires Valid() && t.createdAt == clock
      requires forall i :: 0 <= i < |tickets| ==> tickets[i].id != t.id
      modifies this`tickets, this`clock
      ensures Valid()
      ensures tickets == old(tickets) + [t] && clock == old(clock) + 1
    {
      TicketsAppend(tickets, clock, t);
      tickets := tickets + [t];
      clock := clock + 1;
    }

    /** `ticket.save()`: the row at `k` is overwritten with its new fields. */
    method SaveTicket(k: nat, t: Ticket)
      requires Valid() && k < |tickets|
      requires t.id == tickets[k].id && t.createdAt == tickets[k].createdAt
      modifies this`tickets
      ensures Valid()
      ensures tickets == old(tickets)[k := t]
    {
      TicketsReplace(tickets, clock, k, t);
      tickets := tickets[k := t];
    }

    /** `Company.create`: a row under a fresh id whose cnpj, if any, no
        company holds yet. */
    method InsertCompany(c: Company)
      requires Valid() && c.id !in companies
      requires c.cnpj.Some? ==> !CnpjTaken(companies, c.cnpj.value, None)
      modifies this`companies
      ensures Valid()
      ensures companies == old(companies)[c.id := c]
    {
      companies := companies[c.id := c];
    }

    /** `company.save()`: the row keeps its id, and a cnpj it takes is held by
        no other company. */
    method SaveCompany(c: Company)
      requires Valid() && c.id in companies
      requires c.cnpj.Some? ==> !CnpjTaken(companies, c.cnpj.value, Some(c.id))
      modifies this`companies
      ensures Valid()
      ensures companies == old(companies)[c.id := c]
    {
      companies := companies[c.id := c];
    }

    /** `company.destroy()`. */
    method DeleteCompany(id: Id)
      requires Valid()
      modifies this`companies
      ensures Valid()
      ensures companies == old(companies) - {id}
    {
      companies := companies - {id};
    }

    /** `User.create`: a row under a fresh id with an email no user holds. */
    method InsertUser(u: User)
      requires Valid() && u.id !in users && !EmailTaken(users, u.email)
      modifies this`users
      ensures Valid()
      ensures users == old(users)[u.id := u]
    {
      users := users[u.id := u];
    }

    /** `user.save()` of a row whose email is unchanged. */
    method SaveUser(u: User)
      requires Valid() && u.id in users && u.email == users[u.id].email
      modifies this`users
      ensures Valid()
      ensures users == old(users)[u.id := u]
    {
      users := users[u.id := u];
    }

    /** `TicketComment.create`: the new row goes last, stamped with the clock. */
    method InsertComment(c: Comment)
      requires Valid() && c.createdAt == clock
      requires forall i :: 0 <= i < |comments| ==> comments[i].id != c.id
      modifies this`comments, this`clock
      ensures Valid()
      ensures comments == old(comments) + [c] && clock == old(clock) + 1
    {
      CommentsAppend(comments, clock, c);
      comments := comments + [c];
      clock := clock + 1;
    }

    /** `comment.save()`. */
    method SaveComment(k: nat, c: Comment)
      requires Valid() && k < |comments|
      requires c.id == comments[k].id && c.createdAt == comments[k].createdAt
      modifies this`comments
      ensures Valid()
      ensures comments == old(comments)[k := c]
    {
      CommentsReplace(comments, clock, k, c);
      comments := comments[k := c];
    }

    /** `comment.destroy()`. */
    method DeleteComment(k: nat)
      requires Valid() && k < |comments|
      modifies this`comments
      ensures Valid()
      ensures comments == old(comments)[..k] + old(comments)[k + 1..]
    {
      CommentsRemove(comments, clock, k);
      comments := comments[..k] + comments[k + 1..];
    }
  }
}

/** The company handlers: support creates, lists, edits and deletes
    companies and attaches users to them; a client may look at its own
    company. */
module CompanyController {
  import opened Common
  import opened Store

  const CompanyNotFound := "Company not found"
  const CnpjConflict := "Company with this CNPJ already exists"

  /** `create`: a named company, with its cnpj if one is given and no company
      holds it, otherwise with none. */
  method Create(db: Db, req: Requester, name: Field, cnpj: Field, newId: Id) returns (r: Reply<Company>)
    requires db.Valid() && newId !in db.companies
    modifies db`companies
    ensures db.Valid()
    ensures !r.Ok?
    ensures r.Err? ==> unchanged(db)
    ensures (r.Err? && r.code == Forbidden) <==> !IsSupport(req)
    ensures (r.Err? && r.code == BadRequest) <==>
      IsSupport(req) && (!Truthy(name) || (Truthy(cnpj) && CnpjTaken(old(db.companies), cnpj.s, None)))
    ensures r.Created? <==>
      IsSupport(req) && Truthy(name) && !(Truthy(cnpj) && CnpjTaken(old(db.companies), cnpj.s, None))
    ensures r.Created? ==>
      && r.value == Company(newId, name.s, if Truthy(cnpj) then Some(cnpj.s) else None)
      && db.companies == old(db.companies)[newId := r.value]
  {
    if !IsSupport(req) {
      return Err(Forbidden, "Only support can create companies");
    }
    if !Truthy(name) {
      return Err(BadRequest, "Company name is required");
    }
    if Truthy(cnpj) && CnpjTaken(db.companies, cnpj.s, None) {
      return Err(BadRequest, CnpjConflict);
    }
    var c := Company(newId, name.s, if Truthy(cnpj) then Some(cnpj.s) else None);
    db.InsertCompany(c);
    return Created(c);
  }

  /** `index`: support only; every company. The listing order is not part of
      the model. */
  method Index(db: Db, req: Requester) returns (r: Reply<set<Company>>)
    requires db.Valid()
    ensures !r.Created?
    ensures r.Err? <==> !IsSupport(req)
    ensures r.Err? ==> r.code == Forbidden
    ensures r.Ok? ==> forall c :: c in r.value <==> exists id :: id in db.companies && db.companies[id] == c
  {
    if !IsSupport(req) {
      return Err(Forbidden, "Only support can list companies");
    }
    return Ok(db.companies.Values);
  }

  /** `show`: a client asking for any company but its own is refused before
      the company is even looked up. */
  method Show(db: Db, req: Requester, id: Id) returns (r: Reply<Company>)
    requires db.Valid()
    ensures !r.Created?
    ensures (r.Err? && r.code == Forbidden) <==> IsClient(req) && req.companyId != Some(id)
    ensures (r.Err? && r.code == NotFound) <==> !(IsClient(req) && req.companyId != Some(id)) && id !in db.companies
    ensures r.Ok? <==> !(IsClient(req) && req.companyId != Some(id)) && id in db.companies
    ensures r.Ok? ==> id in db.companies && r.value == db.companies[id]
  {
    if IsClient(req) && req.companyId != Some(id) {
      return Err(Forbidden, "You can only view your own company");
    }
    if id !in db.companies {
      return Err(NotFound, CompanyNotFound);
    }
    return Ok(db.companies[id]);
  }

  /** The check `update` makes before writing: a non-empty cnpj that differs
      from the company's own and that another company holds. */
  predicate UpdateConflict(companies: map<Id, Company>, id: Id, cnpj: Field)
    requires id in companies
  {
    Truthy(cnpj) && companies[id].cnpj != Some(cnpj.s) && CnpjTaken(companies, cnpj.s, Some(id))
  }

  /** The company after `update`: a non-empty name replaces the old one; a
      given cnpj replaces the old one, where `null` and the empty string both
      clear it; an absent cnpj keeps it. */
  function Updated(c: Company, name: Field, cnpj: Field): (r: Company)
    ensures r.id == c.id
    ensures r.name == (if Truthy(name) then name.s else c.name)
    ensures cnpj.Absent? ==> r.cnpj == c.cnpj
    ensures !cnpj.Absent? ==> (r.cnpj.Some? <==> Truthy(cnpj))
    ensures Truthy(cnpj) ==> r.cnpj == Some(cnpj.s)
  {
    c.(name := if Truthy(name) then name.s else c.name,
       cnpj := match cnpj
               case Absent => c.cnpj
               case Null => None
               case Text(s) => if s == "" then None else Some(s))
  }

  /** The update passes its check only when no other company would share
      the new cnpj, so the table keeps every non-null cnpj unique. */
  lemma UpdateKeepsCnpjUnique(companies: map<Id, Company>, id: Id, name: Field, cnpj: Field)
    requires CompaniesValid(companies) && id in companies
    requires !UpdateConflict(companies, id, cnpj)
    ensures CompaniesValid(companies[id := Updated(companies[id], name, cnpj)])
  {
    var c := Updated(companies[id], name, cnpj);
    if c.cnpj.Some? {
      assert !CnpjTaken(companies, c.cnpj.value, Some(id)) by {
        if cnpj.Absent? {
          assert c.cnpj == companies[id].cnpj;
        }
      }
    }
  }

  /** `update`: support only; an existing company gets the new name and
      cnpj unless the cnpj belongs to another company. */
  method Update(db: Db, req: Requester, id: Id, name: Field, cnpj: Field) returns (r: Reply<Company>)
    requires db.Valid()
    modifies db`companies
    ensures db.Valid()
    ensures !r.Created?
    ensures r.Err? ==> unchanged(db)
    ensures (r.Err? && r.code == Forbidden) <==> !IsSupport(req)
    ensures (r.Err? && r.code == NotFound) <==> IsSupport(req) && id !in old(db.companies)
    ensures (r.Err? && r.code == BadRequest) <==>
      IsSupport(req) && id in old(db.companies) && UpdateConflict(old(db.companies), id, cnpj)
    ensures r.Ok? <==>
      IsSupport(req) && id in old(db.companies) && !UpdateConflict(old(db.companies), id, cnpj)
    ensures r.Ok? ==>
      && id in old(db.companies)
      && r.value == Updated(old(db.companies)[id], name, cnpj)
      && db.companies == old(db.companies)[id := r.value]
  {
    if !IsSupport(req) {
      return Err(Forbidden, "Only support can update companies");
    }
    if id !in db.companies {
      return Err(NotFound, CompanyNotFound);
    }
    if UpdateConflict(db.companies, id, cnpj) {
      return Err(BadRequest, CnpjConflict);
    }
    var c := Updated(db.companies[id], name, cnpj);
    UpdateKeepsCnpjUnique(db.companies, id, name, cnpj);
    db.SaveCompany(c);
    return Ok(c);
  }

  // ---------------------------------------------------------------------
  // The update as written. `if (cnpj !== undefined) company.cnpj = cnpj`
  // stores an empty string as it is, while the uniqueness check before it
  // only runs for a non-empty cnpj; `create` instead stores `cnpj || null`.
  // Two companies can therefore both end up holding the cnpj "".

  function UpdatedAsWritten(c: Company, name: Field, cnpj: Field): (r: Company)
    ensures r.id == c.id
    ensures cnpj.Text? ==> r.cnpj == Some(cnpj.s)
  {
    c.(name := if Truthy(name) then name.s else c.name,
       cnpj := match cnpj
               case Absent => c.cnpj
               case Null => None
               case Text(s) => Some(s))
  }

  /** The input that shows it: two companies without a cnpj, each updated
      with `cnpj: ""`. Neither update meets the check, and afterwards both
      hold "". */
  lemma EmptyCnpjDuplicated()
    ensures var before := map["a" := Company("a", "A", None), "b" := Company("b", "B", None)];
      var mid := before["a" := UpdatedAsWritten(before["a"], Absent, Text(""))];
      var after := mid["b" := UpdatedAsWritten(mid["b"], Absent, Text(""))];
      && CompaniesValid(before)
      && !UpdateConflict(before, "a", Text("")) && !UpdateConflict(mid, "b", Text(""))
      && !CnpjUnique(after)
  {
    var before := map["a" := Company("a", "A", None), "b" := Company("b", "B", None)];
    var mid := before["a" := UpdatedAsWritten(before["a"], Absent, Text(""))];
    var after := mid["b" := UpdatedAsWritten(mid["b"], Absent, Text(""))];
    assert after["a"].cnpj == Some("") && after["b"].cnpj == Some("");
    assert "a" != "b";
  }

  /** Everywhere but the empty string the update as written and the
      corrected one agree. */
  lemma AsWrittenAgreesOffEmpty(c: Company, name: Field, cnpj: Field)
    requires cnpj != Text("")
    ensures UpdatedAsWritten(c, name, cnpj) == Updated(c, name, cnpj)
  {
  }

  /** The users that still belong to a company. */
  function Members(users: map<Id, User>, id: Id): set<Id> {
    set u | u in users && users[u].companyId == Some(id)
  }

  function StillAssociated(n: nat): string {
    "Cannot delete company. " + NatToString(n) + " users are still associated with this company."
  }

  /** `destroy`: support only; a company is deleted only once no user
      belongs to it. */
  method Destroy(db: Db, req: Requester, id: Id) returns (r: Reply<string>)
    requires db.Valid()
    modifies db`companies
    ensures db.Valid()
    ensures !r.Created?
    ensures r.Err? ==> unchanged(db)
    ensures (r.Err? && r.code == Forbidden) <==> !IsSupport(req)
    ensures (r.Err? && r.code == NotFound) <==> IsSupport(req) && id !in old(db.companies)
    ensures (r.Err? && r.code == BadRequest) <==>
      IsSupport(req) && id in old(db.companies) && Members(db.users, id) != {}
    ensures r.Err? && r.code == BadRequest ==> r.message == StillAssociated(|Members(db.users, id)|)
    ensures r.Ok? <==> IsSupport(req) && id in old(db.companies) && Members(db.users, id) == {}
    ensures r.Ok? ==> id in old(db.companies) && db.companies == old(db.companies) - {id}
  {
    if !IsSupport(req) {
      return Err(Forbidden, "Only support can delete companies");
    }
    if id !in db.companies {
      return Err(NotFound, CompanyNotFound);
    }
    var members := Members(db.users, id);
    if |members| > 0 {
      return Err(BadRequest, StillAssociated(|members|));
    }
    db.DeleteCompany(id);
    return Ok("Company deleted successfully");
  }

  /** `assignUser`: support only; the named user now belongs to the company.
      No other user, no company and no ticket changes. */
  method AssignUser(db: Db, req: Requester, id: Id, userId: Field) returns (r: Reply<User>)
    requires db.Valid()
    modifies db`users
    ensures db.Valid()
    ensures !r.Created?
    ensures r.Err? ==> unchanged(db)
    ensures (r.Err? && r.code == Forbidden) <==> !IsSupport(req)
    ensures (r.Err? && r.code == BadRequest) <==> IsSupport(req) && !Truthy(userId)
    ensures r == Err(NotFound, CompanyNotFound) <==>
      IsSupport(req) && Truthy(userId) && id !in db.companies
    ensures r == Err(NotFound, "User not found") <==>
      IsSupport(req) && Truthy(userId) && id in db.companies && userId.s !in old(db.users)
    ensures r.Ok? <==>
      IsSupport(req) && Truthy(userId) && id in db.companies && userId.s in old(db.users)
    ensures r.Ok? ==>
      && userId.Text? && userId.s in old(db.users)
      && r.value == old(db.users)[userId.s].(companyId := Some(id))
      && db.users == old(db.users)[userId.s := r.value]
    ensures db.tickets == old(db.tickets) && db.companies == old(db.companies)
  {
    if !IsSupport(req) {
      return Err(Forbidden, "Only support can assign users to companies");
    }
    if !Truthy(userId) {
      return Err(BadRequest, "User ID is required");
    }
    if id !in db.companies {
      return Err(NotFound, CompanyNotFound);
    }
    if userId.s !in db.users {
      return Err(NotFound, "User not found");
    }
    var u := db.users[userId.s].(companyId := Some(id));
    db.SaveUser(u);
    return Ok(u);
  }
}

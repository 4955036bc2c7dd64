/** Registration and login. Password hashing, password checking and token
    signing are library calls; the handlers receive them as functions. */
module AuthController {
  import opened Common
  import opened Store
  import opened Text

  const InvalidCredentials := "Credenciais inválidas"
  const MinPasswordLength := 6

  /** What `register` answers with: never the password or its hash. */
  datatype Registered = Registered(id: Id, email: string, name: string, role: Role)

  /** The claims a login token is signed over. */
  datatype Claims = Claims(id: Id, email: string, role: Role, companyId: Option<Id>)

  /** The user part of a login answer. */
  datatype Profile = Profile(id: Id, email: string, name: string, role: Role, companyId: Option<Id>)

  datatype Session = Session(token: string, user: Profile)

  /** The role a registration asks for: a given role must be one of the two
      names, and a missing one means client. */
  function RequestedRole(role: Field): (r: Option<Role>)
    ensures !Truthy(role) ==> r == Some(Client)
    ensures Truthy(role) ==> (r.Some? <==> role.s == ClientRole || role.s == SupportRole)
    ensures Truthy(role) && r.Some? ==> RoleName(r.value) == role.s
  {
    if Truthy(role) then ParseRole(role.s) else Some(Client)
  }

  /** `register`: a new client or support user with a fresh id and an email
      no user has yet; the stored hash is the hash of the given password. */
  method Register(db: Db, name: Field, email: Field, password: Field, role: Field,
                  hash: string -> string, newId: Id) returns (r: Reply<Registered>)
    requires db.Valid() && newId !in db.users
    modifies db`users
    ensures db.Valid()
    ensures !r.Ok?
    ensures r.Err? ==> unchanged(db) && r.code == BadRequest
    ensures r.Err? <==>
      || !Truthy(name) || !Truthy(email) || !Truthy(password)
      || Utf16Length(password.s) < MinPasswordLength
      || RequestedRole(role).None?
      || EmailTaken(old(db.users), email.s)
    ensures r.Created? ==>
      && RequestedRole(role).Some?
      && var u := User(newId, name.s, email.s, RequestedRole(role).value, hash(password.s), None);
      && db.users == old(db.users)[newId := u]
      && r.value == Registered(u.id, u.email, u.name, u.role)
  {
    if !Truthy(name) || !Truthy(email) || !Truthy(password) {
      return Err(BadRequest, "Nome, email e senha são obrigatórios");
    }
    if Utf16Length(password.s) < MinPasswordLength {
      return Err(BadRequest, "Senha deve ter pelo menos 6 caracteres");
    }
    var asked := RequestedRole(role);
    if asked.None? {
      return Err(BadRequest, "Role deve ser \"client\" ou \"support\"");
    }
    if EmailTaken(db.users, email.s) {
      return Err(BadRequest, "Email já cadastrado");
    }
    var u := User(newId, name.s, email.s, asked.value, hash(password.s), None);
    db.InsertUser(u);
    return Created(Registered(u.id, u.email, u.name, u.role));
  }

  /** A successful registration leaves every email held by one user only,
      and the new user is found under the registered email. */
  lemma RegisterKeepsEmailsUnique(users: map<Id, User>, u: User)
    requires UsersValid(users) && u.id !in users && !EmailTaken(users, u.email)
    ensures UsersValid(users[u.id := u])
    ensures EmailTaken(users[u.id := u], u.email)
  {
    assert users[u.id := u][u.id].email == u.email;
  }

  /** `login`: the user with the given email, if the password matches its
      stored hash; the token is signed over the user's id, email, role and
      company. An unknown email and a wrong password get the same answer. */
  method Login(db: Db, email: Field, password: Field,
               matches: (string, string) -> bool, sign: Claims -> string) returns (r: Reply<Session>)
    requires db.Valid()
    ensures !r.Created?
    ensures (r.Err? && r.code == BadRequest) <==> !Truthy(email) || !Truthy(password)
    ensures (r.Err? && r.code == Unauthorized) <==>
      Truthy(email) && Truthy(password) &&
      forall k :: k in db.users && db.users[k].email == email.s ==> !matches(password.s, db.users[k].passwordHash)
    ensures r.Err? && r.code == Unauthorized ==> r.message == InvalidCredentials
    ensures r.Ok? <==>
      Truthy(email) && Truthy(password) &&
      exists k :: k in db.users && db.users[k].email == email.s && matches(password.s, db.users[k].passwordHash)
    ensures r.Ok? ==> forall k :: k in db.users && db.users[k].email == email.s ==>
      var u := db.users[k];
      && matches(password.s, u.passwordHash)
      && r.value.token == sign(Claims(u.id, u.email, u.role, u.companyId))
      && r.value.user == Profile(u.id, u.email, u.name, u.role, u.companyId)
    ensures r.Ok? ==> EmailTaken(db.users, email.s)
  {
    if !Truthy(email) || !Truthy(password) {
      return Err(BadRequest, "Email e senha são obrigatórios");
    }
    if !EmailTaken(db.users, email.s) {
      return Err(Unauthorized, InvalidCredentials);
    }
    var k :| k in db.users && db.users[k].email == email.s;
    var u := db.users[k];
    if !matches(password.s, u.passwordHash) {
      return Err(Unauthorized, InvalidCredentials);
    }
    var token := sign(Claims(u.id, u.email, u.role, u.companyId));
    return Ok(Session(token, Profile(u.id, u.email, u.name, u.role, u.companyId)));
  }
}

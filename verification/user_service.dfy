/**
  The user service: registration, which stores the hashed password and the
  derived full name, and login, which checks the password against the stored
  hash and issues a signed token.
*/
module UserService {
  import opened Wrappers
  import opened JsValues
  import opened Store
  import opened Validators
  import opened Models
  import opened External
  import opened RootService

  const MissingLoginMessage := "Please supply login details"
  const UnknownUserMessage := "User does not exist"
  const WrongPasswordMessage := "Password incorrect"

  /** An operation's outcome and the user store after it. */
  datatype UserStep = UserStep(outcome: Outcome, users: seq<User>)

  /** A login's outcome and the `x-auth-token` header it set, if any. */
  datatype LoginStep = LoginStep(outcome: Outcome, header: Option<string>)

  /** The full name registration derives: first name, one space, last name. */
  function FullName(firstName: string, lastName: string): string {
    firstName + " " + lastName
  }

  /**
    `createUser`: a body the schema rejects fails validation and stores
    nothing; otherwise the user is stored with the derived full name and the
    hash of the password, or the store's refusal becomes a controller error.
  */
  function CreateUser(users: seq<User>, body: map<string, JsValue>, reply: StoreReply,
                      c: Collaborators): (r: UserStep)
    ensures r.outcome.Err? ==> r.users == users
    ensures !UserBodyOk(body, c.emailGrammar) ==>
      r.outcome == Err(Validation, c.filterValidation(ValidateCreateUser(body, c.emailGrammar).value))
    ensures UserBodyOk(body, c.emailGrammar) && reply.Faulted? ==> r.outcome == Err(Controller, reply.error)
    ensures UserBodyOk(body, c.emailGrammar) && reply.Accepted? ==>
      (r.outcome.Err? <==> UserViolation(users, body["firstName"].s, body["lastName"].s, body["email"].s,
                                         body["role"].s, c.hash(body["password"].s),
                                         IdOf(reply.assignedId)).Some?)
    ensures UserBodyOk(body, c.emailGrammar) && reply.Accepted? ==>
      var v := UserViolation(users, body["firstName"].s, body["lastName"].s, body["email"].s,
                             body["role"].s, c.hash(body["password"].s), IdOf(reply.assignedId));
      v.Some? ==> r.outcome == Err(Controller, c.describe(v.value))
    ensures r.outcome.Err? && r.outcome.kind == Validation ==> !UserBodyOk(body, c.emailGrammar)
    ensures r.outcome.Ok? ==>
      && UserBodyOk(body, c.emailGrammar) && reply.Accepted?
      && |r.users| == |users| + 1 && r.users[..|users|] == users
      && var u := r.users[|users|];
         && u == NewUser(body["firstName"].s, body["lastName"].s, body["email"].s,
                         RoleFromString(body["role"].s).value,
                         Some(FullName(body["firstName"].s, body["lastName"].s)),
                         c.hash(body["password"].s), reply.assignedId, reply.at)
         && u.fullName == Some(FullName(body["firstName"].s, body["lastName"].s))
         && u.password == c.hash(body["password"].s)
         && u.email == body["email"].s && RoleName(u.role) == body["role"].s
         && u.firstName == body["firstName"].s && u.lastName == body["lastName"].s
         && r.outcome.envelope == ProcessSingleRead(UserJs(u))
  {
    match ValidateCreateUser(body, c.emailGrammar)
    case Some(e) => UserStep(Err(Validation, c.filterValidation(e)), users)
    case None =>
      var firstName, lastName := body["firstName"].s, body["lastName"].s;
      match InsertUser(users, firstName, lastName, body["email"].s, body["role"].s,
                       Some(FullName(firstName, lastName)), c.hash(body["password"].s),
                       reply, c.describe)
      case Rejected(error) => UserStep(Err(Controller, error), users)
      case Inserted(u, rows) =>
        assert rows[..|users|] == users;
        RoleNameRoundTrip(u.role, body["role"].s);
        UserStep(Ok(ProcessSingleRead(UserJs(u))), rows)
  }

  /** The read filter `{email: body.email}`; a non-string email matches no user. */
  function HasEmail(email: JsValue): User -> bool {
    (u: User) => email.Str? && u.email == email.s
  }

  /** The claims a login signs: the email as sent, the rest from the stored record. */
  function PayloadFor(email: JsValue, u: User): TokenPayload {
    TokenPayload(email, u.fullName, u.id, RoleName(u.role))
  }

  /** The fields a login reads back, `fullName password email id role`, plus the token. */
  function LoginView(u: User, token: string): (v: JsValue)
    ensures v.Obj? && Get(v, "token") == Str(token) && Get(v, "password") == Str(u.password)
    ensures Get(v, "id") == Num(u.id) && Get(v, "email") == Str(u.email)
  {
    var projected := Project(UserJs(u), {"fullName", "password", "email", "id", "role"});
    Obj(projected.fields["token" := Str(token)])
  }

  /**
    `loginUser`: missing credentials, an unknown email and a wrong password
    are three validation errors with three messages. On success the token
    signs the email as sent with the stored full name, id and role; it is set
    as the `x-auth-token` header and added to the returned record, which
    still carries the password hash.
  */
  function LoginUser(users: seq<User>, body: map<string, JsValue>, c: Collaborators): (r: LoginStep)
    ensures r.header.Some? <==> r.outcome.Ok?
    ensures !Truthy(Field(body, "email")) || !Truthy(Field(body, "password")) ==>
      r == LoginStep(Err(Validation, MissingLoginMessage), None)
    ensures Truthy(Field(body, "email")) && Truthy(Field(body, "password"))
            && |Select(users, HasEmail(Field(body, "email")))| == 0 ==>
      r == LoginStep(Err(Validation, UnknownUserMessage), None)
    ensures Truthy(Field(body, "email")) && Truthy(Field(body, "password"))
            && |Select(users, HasEmail(Field(body, "email")))| > 0 ==>
      var u := Select(users, HasEmail(Field(body, "email")))[0];
      && u in users && Str(u.email) == Field(body, "email")
      && (!c.verify(Field(body, "password"), u.password) ==>
            r == LoginStep(Err(Validation, WrongPasswordMessage), None))
      && (c.verify(Field(body, "password"), u.password) ==>
            var token := c.sign(PayloadFor(Field(body, "email"), u));
            r == LoginStep(Ok(ProcessSingleRead(LoginView(u, token))), Some(token)))
  {
    var email, password := Field(body, "email"), Field(body, "password");
    if !Truthy(email) || !Truthy(password) then LoginStep(Err(Validation, MissingLoginMessage), None)
    else
      var found := Select(users, HasEmail(email));
      assert |found| > 0 ==> found[0] in found;
      if |found| == 0 then LoginStep(Err(Validation, UnknownUserMessage), None)
      else if !c.verify(password, found[0].password) then LoginStep(Err(Validation, WrongPasswordMessage), None)
      else
        var token := c.sign(PayloadFor(email, found[0]));
        LoginStep(Ok(ProcessSingleRead(LoginView(found[0], token))), Some(token))
  }

  /**
    A stored user whose password verifies logs in: the header carries the
    token signed for that user and the record comes back with that token.
  */
  lemma LoginSucceeds(users: seq<User>, k: nat, email: string, password: string, c: Collaborators)
    requires UsersUnique(users) && k < |users|
    requires users[k].email == email && email != "" && password != ""
    requires c.verify(Str(password), users[k].password)
    ensures var token := c.sign(PayloadFor(Str(email), users[k]));
      LoginUser(users, map["email" := Str(email), "password" := Str(password)], c)
        == LoginStep(Ok(ProcessSingleRead(LoginView(users[k], token))), Some(token))
  {
    UniqueEmail(users, k, HasEmail(Str(email)));
  }

  /**
    Registration and login round-trip: with a hash that verifies its own
    input and unique emails, a body the schema accepts, whose role is one of
    the two roles and whose email and assigned id are new, registers a user;
    that user can then log in with the same email and password, and the
    header carries the token for the stored record.
  */
  lemma RegisterThenLogin(users: seq<User>, body: map<string, JsValue>, reply: StoreReply,
                          c: Collaborators)
    requires UsersUnique(users) && HashVerifies(c)
    requires UserBodyOk(body, c.emailGrammar) && RoleFromString(body["role"].s).Some?
    requires reply.Accepted? && c.hash(body["password"].s) != ""
    requires forall u :: u in users ==> u.id != IdOf(reply.assignedId) && u.email != body["email"].s
    ensures var r := CreateUser(users, body, reply, c);
      && r.outcome.Ok?
      && var login := LoginUser(r.users, map["email" := body["email"], "password" := body["password"]], c);
         && login.outcome.Ok?
         && login.header == Some(c.sign(PayloadFor(body["email"], r.users[|users|])))
  {
    var r := CreateUser(users, body, reply, c);
    var u := r.users[|users|];
    var email, password := body["email"].s, body["password"].s;
    var created := InsertUser(users, body["firstName"].s, body["lastName"].s, email, body["role"].s,
                              Some(FullName(body["firstName"].s, body["lastName"].s)),
                              c.hash(password), reply, c.describe);
    assert created.Inserted? && created.rows == r.users;
    assert UsersUnique(r.users);
    PatternNonEmpty(Trim(password));
    assert c.verify(Str(password), c.hash(password));
    LoginSucceeds(r.users, |users|, email, password, c);
  }

  /** With unique emails, the email filter of user `k` selects user `k` first. */
  lemma UniqueEmail(users: seq<User>, k: nat, matches: User -> bool)
    requires UsersUnique(users) && k < |users| && matches(users[k])
    requires forall u :: matches(u) ==> u.email == users[k].email
    ensures |Select(users, matches)| > 0 && Select(users, matches)[0] == users[k]
  {
    assert users[k] in users;
    var found := Select(users, matches);
    assert found[0] in found;
    var j :| 0 <= j < |users| && users[j] == found[0];
  }

  /**
    A user stored with the schema's default id 0 still receives a token in
    the header, but the login answers with the 404 envelope.
  */
  lemma ZeroIdLoginSetsHeaderButNotFound(users: seq<User>, k: nat, email: string, password: string,
                                         c: Collaborators)
    requires UsersUnique(users) && k < |users| && users[k].id == DefaultId
    requires users[k].email == email && email != "" && password != ""
    requires c.verify(Str(password), users[k].password)
    ensures var login := LoginUser(users, map["email" := Str(email), "password" := Str(password)], c);
      login.header.Some? && login.outcome == Ok(Failure("Resource not found", 404))
  {
    LoginSucceeds(users, k, email, password, c);
  }
}

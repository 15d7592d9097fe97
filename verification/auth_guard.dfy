/**
  The authentication guard and the two role guards that run before the
  ticket routes. Each decides whether the request proceeds, fails with 401,
  or is left hanging because neither happens.
*/
module AuthGuard {
  import opened Wrappers
  import opened JsValues
  import opened Store
  import opened Models
  import opened External
  import opened UserService

  const NotLoggedInMessage := "You are not logged in"
  const NotTechnicianMessage := "You are not a technician"
  const NotClientMessage := "You are not a client"

  /** The identity attached to the request: the email and role read from the token. */
  datatype Identity = Identity(email: JsValue, role: JsValue)

  /** What a guard does with the request. */
  datatype Decision = Proceed(user: Identity) | Fail(status: int, message: string) | Stall

  /**
    `verifyUser`: no `x-auth-token` header (or an empty one) fails with
    "You are not logged in"; a token the verifier rejects fails with the
    verifier's message; decoded claims with a truthy email attach exactly
    `{email, role}` and proceed; claims without one neither proceed nor fail.
  */
  function VerifyUser(header: Option<string>, verifyToken: string -> TokenCheck): (r: Decision)
    ensures r.Fail? ==> r.status == 401
    ensures header.None? || header.value == "" ==> r == Fail(401, NotLoggedInMessage)
    ensures header.Some? && header.value != "" && verifyToken(header.value).Invalid? ==>
      r == Fail(401, verifyToken(header.value).message)
    ensures header.Some? && header.value != "" && verifyToken(header.value).Decoded?
            && Nullish(verifyToken(header.value).claims) ==>
      r == Fail(401, ReadFailure(verifyToken(header.value).claims, "email"))
    ensures r.Proceed? <==>
      && header.Some? && header.value != "" && verifyToken(header.value).Decoded?
      && Truthy(Get(verifyToken(header.value).claims, "email"))
    ensures r.Proceed? ==>
      var claims := verifyToken(header.value).claims;
      r.user == Identity(Get(claims, "email"), Get(claims, "role"))
    ensures r.Stall? <==>
      && header.Some? && header.value != "" && verifyToken(header.value).Decoded?
      && !Nullish(verifyToken(header.value).claims)
      && !Truthy(Get(verifyToken(header.value).claims, "email"))
  {
    if header.None? || header.value == "" then Fail(401, NotLoggedInMessage)
    else match verifyToken(header.value)
      case Invalid(message) => Fail(401, message)
      case Decoded(claims) =>
        if Nullish(claims) then Fail(401, ReadFailure(claims, "email"))
        else
          var email := Get(claims, "email");
          if Truthy(email) then Proceed(Identity(email, Get(claims, "role"))) else Stall
  }

  /** A role guard: proceeds iff the attached role is exactly `wanted`, otherwise 401 with `message`. */
  function RequireRole(user: Option<Identity>, wanted: string, message: string): (r: Decision)
    ensures r.Proceed? <==> user.Some? && user.value.role == Str(wanted)
    ensures r.Proceed? ==> r.user == user.value
    ensures user.Some? && user.value.role != Str(wanted) ==> r == Fail(401, message)
    ensures !r.Stall?
  {
    match user
    case None => Fail(401, ReadFailure(Undefined, "role"))
    case Some(identity) => if identity.role == Str(wanted) then Proceed(identity) else Fail(401, message)
  }

  /** `checkIfTech`: only a `technician` proceeds. */
  function CheckIfTech(user: Option<Identity>): (r: Decision)
    ensures r.Proceed? <==> user.Some? && user.value.role == Str("technician")
    ensures user.Some? && !r.Proceed? ==> r == Fail(401, NotTechnicianMessage)
    ensures user.None? ==> r == Fail(401, ReadFailure(Undefined, "role"))
  {
    RequireRole(user, "technician", NotTechnicianMessage)
  }

  /** `checkIfClient`: only a `client` proceeds. */
  function CheckIfClient(user: Option<Identity>): (r: Decision)
    ensures r.Proceed? <==> user.Some? && user.value.role == Str("client")
    ensures user.Some? && !r.Proceed? ==> r == Fail(401, NotClientMessage)
    ensures user.None? ==> r == Fail(401, ReadFailure(Undefined, "role"))
  {
    RequireRole(user, "client", NotClientMessage)
  }

  /** No identity passes both role guards, so no route is open to both roles. */
  lemma RoleGuardsExclusive(user: Option<Identity>)
    ensures !(CheckIfTech(user).Proceed? && CheckIfClient(user).Proceed?)
  {
  }

  /**
    A token issued by a successful login authenticates its bearer: the guard
    attaches the email sent at login and the stored role, and the role guard
    matching that role lets the request through.
  */
  lemma IssuedTokenAuthenticates(users: seq<User>, body: map<string, JsValue>, c: Collaborators)
    requires TokensDecode(c)
    requires LoginUser(users, body, c).outcome.Ok?
    ensures var login := LoginUser(users, body, c);
      var decision := VerifyUser(login.header, c.verifyToken);
      && decision.Proceed?
      && decision.user.email == Field(body, "email")
      && (decision.user.role == Str("technician") <==> CheckIfTech(Some(decision.user)).Proceed?)
      && (CheckIfTech(Some(decision.user)).Proceed? || CheckIfClient(Some(decision.user)).Proceed?)
  {
    var login := LoginUser(users, body, c);
    var found := Select(users, HasEmail(Field(body, "email")));
    var u := found[0];
    var token := c.sign(PayloadFor(Field(body, "email"), u));
    assert login.header == Some(token);
    assert c.verifyToken(token) == Decoded(Claims(PayloadFor(Field(body, "email"), u)));
  }
}

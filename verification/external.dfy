/**
  The collaborators the services call but that are not part of this model:
  the password hash and its check, token signing and verification, the
  schema library's address grammar and its error-message filter, the store's
  cast of a route id to a number, and the store's wording of a schema
  violation. Each is an arbitrary function; the properties some lemmas rely
  on are stated as predicates over them.
*/
module External {
  import opened Wrappers
  import opened JsValues
  import opened Store
  import opened Validators

  /** The claims a login token carries. */
  datatype TokenPayload = TokenPayload(email: JsValue, fullName: Option<string>, id: int, role: string)

  /** The token verifier's answer: the decoded claims, or the error it threw. */
  datatype TokenCheck = Decoded(claims: JsValue) | Invalid(message: string)

  datatype Collaborators = Collaborators(
    emailGrammar: string -> bool,
    filterValidation: SchemaError -> string,
    castId: string -> Option<int>,
    describe: Violation -> string,
    hash: string -> string,
    verify: (JsValue, string) -> bool,
    sign: TokenPayload -> string,
    verifyToken: string -> TokenCheck)

  /** The claims object a signed payload decodes to. */
  function Claims(p: TokenPayload): (v: JsValue)
    ensures v.Obj? && Get(v, "email") == p.email && Get(v, "role") == Str(p.role)
  {
    var fields := map["email" := p.email, "id" := Num(p.id), "role" := Str(p.role)];
    Obj(if p.fullName.Some? then fields["fullName" := Str(p.fullName.value)] else fields)
  }

  /** A password always verifies against its own hash. */
  ghost predicate HashVerifies(c: Collaborators) {
    forall p :: c.verify(Str(p), c.hash(p))
  }

  /** A token the service signed is non-empty and decodes to exactly the claims it was signed with. */
  ghost predicate TokensDecode(c: Collaborators) {
    forall p :: c.sign(p) != "" && c.verifyToken(c.sign(p)) == Decoded(Claims(p))
  }
}

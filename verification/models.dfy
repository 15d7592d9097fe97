/**
  The Ticket and User records with their schema defaults, required fields,
  enum and uniqueness constraints, and the object views the services hand to
  the envelope helpers.
*/
module Models {
  import opened Wrappers
  import opened JsValues
  import opened Store

  /** The schema default of both record ids. */
  const DefaultId := 0

  /** A repair ticket. Timestamps are opaque instants supplied by the caller. */
  datatype Ticket = Ticket(
    id: int,
    isActive: bool,
    isDeleted: bool,
    timeStamp: int,
    createdOn: int,
    updatedOn: int,
    brand: string,
    model: string,
    isFixed: bool,
    issue: string,
    ownerEmail: Option<string>)

  /** The two roles the user schema's enum admits. */
  datatype Role = Technician | Client

  function RoleName(role: Role): string {
    match role
    case Technician => "technician"
    case Client => "client"
  }

  /** The enum check: the role a string names, if any. */
  function RoleFromString(s: string): (r: Option<Role>)
    ensures r.Some? <==> s == "technician" || s == "client"
  {
    if s == "technician" then Some(Technician)
    else if s == "client" then Some(Client)
    else None
  }

  /** The enum check and the role names are inverse to each other. */
  lemma RoleNameRoundTrip(role: Role, s: string)
    ensures RoleFromString(RoleName(role)) == Some(role)
    ensures RoleFromString(s) == Some(role) ==> RoleName(role) == s
  {
  }

  /** A registered user. `password` holds the stored hash. */
  datatype User = User(
    id: int,
    firstName: string,
    lastName: string,
    isActive: bool,
    isDeleted: bool,
    timeStamp: int,
    createdOn: int,
    updatedOn: int,
    email: string,
    role: Role,
    fullName: Option<string>,
    password: string)

  /** The id a create stores: the one assigned, or the schema default. */
  function IdOf(assignedId: Option<int>): int {
    if assignedId.Some? then assignedId.value else DefaultId
  }

  /** A new ticket from its required fields, with the schema's defaults for the rest. */
  function NewTicket(brand: string, model: string, issue: string, ownerEmail: Option<string>,
                     assignedId: Option<int>, now: int): (t: Ticket)
    ensures t.brand == brand && t.model == model && t.issue == issue && t.ownerEmail == ownerEmail
    ensures !t.isFixed && t.isActive && !t.isDeleted
    ensures assignedId.None? ==> t.id == 0
    ensures assignedId.Some? ==> t.id == assignedId.value
    ensures t.createdOn == now && t.updatedOn == now && t.timeStamp == now
  {
    Ticket(IdOf(assignedId), true, false, now, now, now, brand, model, false, issue, ownerEmail)
  }

  /** A new user from the creation fields, with the schema's defaults for the rest. */
  function NewUser(firstName: string, lastName: string, email: string, role: Role,
                   fullName: Option<string>, password: string,
                   assignedId: Option<int>, now: int): (u: User)
    ensures u.firstName == firstName && u.lastName == lastName && u.email == email
    ensures u.role == role && u.fullName == fullName && u.password == password
    ensures u.isActive && !u.isDeleted
    ensures assignedId.None? ==> u.id == 0
    ensures assignedId.Some? ==> u.id == assignedId.value
    ensures u.createdOn == now && u.updatedOn == now && u.timeStamp == now
  {
    User(IdOf(assignedId), firstName, lastName, true, false, now, now, now, email, role, fullName, password)
  }

  /** No two tickets share an id. */
  predicate TicketIdsUnique(store: seq<Ticket>) {
    forall i, j :: 0 <= i < |store| && 0 <= j < |store| && store[i].id == store[j].id ==> i == j
  }

  /** No two users share an id or an email. */
  predicate UsersUnique(users: seq<User>) {
    && (forall i, j :: 0 <= i < |users| && 0 <= j < |users| && users[i].id == users[j].id ==> i == j)
    && (forall i, j :: 0 <= i < |users| && 0 <= j < |users| && users[i].email == users[j].email ==> i == j)
  }

  /** The outcome of a create: the stored record and the new store, or the store's error. */
  datatype Created<T> = Inserted(record: T, rows: seq<T>) | Rejected(error: string)

  /** The first constraint a new ticket breaks, if any. */
  function TicketViolation(store: seq<Ticket>, t: Ticket): (r: Option<Violation>)
    ensures r.None? <==>
      t.brand != "" && t.model != "" && t.issue != "" && forall x :: x in store ==> x.id != t.id
  {
    if t.brand == "" then Some(MissingRequired("brand"))
    else if t.model == "" then Some(MissingRequired("model"))
    else if t.issue == "" then Some(MissingRequired("issue"))
    else if exists x :: x in store && x.id == t.id then Some(DuplicateKey("id"))
    else None
  }

  /**
    `createRecord` on the ticket collection: the store's own failure, a
    schema violation, or the new ticket appended with the defaults filled in.
  */
  function InsertTicket(store: seq<Ticket>, brand: string, model: string, issue: string,
                        ownerEmail: Option<string>, reply: StoreReply,
                        describe: Violation -> string): (r: Created<Ticket>)
    ensures reply.Faulted? ==> r == Rejected(reply.error)
    ensures r.Inserted? ==> reply.Accepted?
    ensures r.Inserted? ==>
      && r.record == NewTicket(brand, model, issue, ownerEmail, reply.assignedId, reply.at)
      && r.rows == store + [r.record]
      && TicketViolation(store, r.record).None?
    ensures reply.Accepted? && r.Rejected? ==>
      var t := NewTicket(brand, model, issue, ownerEmail, reply.assignedId, reply.at);
      TicketViolation(store, t).Some? && r.error == describe(TicketViolation(store, t).value)
    ensures TicketIdsUnique(store) && r.Inserted? ==> TicketIdsUnique(r.rows)
  {
    match reply
    case Faulted(error) => Rejected(error)
    case Accepted(assignedId, at) =>
      var t := NewTicket(brand, model, issue, ownerEmail, assignedId, at);
      match TicketViolation(store, t)
      case Some(v) => Rejected(describe(v))
      case None => Inserted(t, store + [t])
  }

  /** The first constraint a new user breaks, if any: required fields, the role enum, then the unique keys. */
  function UserViolation(users: seq<User>, firstName: string, lastName: string, email: string,
                         role: string, password: string, id: int): (r: Option<Violation>)
    ensures r.None? <==>
      && firstName != "" && lastName != "" && email != "" && password != ""
      && RoleFromString(role).Some?
      && (forall x :: x in users ==> x.id != id)
      && (forall x :: x in users ==> x.email != email)
  {
    if firstName == "" then Some(MissingRequired("firstName"))
    else if lastName == "" then Some(MissingRequired("lastName"))
    else if email == "" then Some(MissingRequired("email"))
    else if password == "" then Some(MissingRequired("password"))
    else if RoleFromString(role).None? then Some(NotInEnum("role"))
    else if exists x :: x in users && x.id == id then Some(DuplicateKey("id"))
    else if exists x :: x in users && x.email == email then Some(DuplicateKey("email"))
    else None
  }

  /**
    `createRecord` on the user collection: the store's own failure, a schema
    violation, or the new user appended with the defaults filled in.
  */
  function InsertUser(users: seq<User>, firstName: string, lastName: string, email: string,
                      role: string, fullName: Option<string>, password: string,
                      reply: StoreReply, describe: Violation -> string): (r: Created<User>)
    ensures reply.Faulted? ==> r == Rejected(reply.error)
    ensures r.Inserted? ==>
      && reply.Accepted?
      && UserViolation(users, firstName, lastName, email, role, password, IdOf(reply.assignedId)).None?
      && r.record == NewUser(firstName, lastName, email, RoleFromString(role).value, fullName,
                             password, reply.assignedId, reply.at)
      && r.rows == users + [r.record]
    ensures reply.Accepted? && r.Rejected? ==>
      var v := UserViolation(users, firstName, lastName, email, role, password, IdOf(reply.assignedId));
      v.Some? && r.error == describe(v.value)
    ensures UsersUnique(users) && r.Inserted? ==> UsersUnique(r.rows)
  {
    match reply
    case Faulted(error) => Rejected(error)
    case Accepted(assignedId, at) =>
      match UserViolation(users, firstName, lastName, email, role, password, IdOf(assignedId))
      case Some(v) => Rejected(describe(v))
      case None =>
        var u := NewUser(firstName, lastName, email, RoleFromString(role).value, fullName,
                         password, assignedId, at);
        Inserted(u, users + [u])
  }

  /** The ticket as the store returns it: every field, `ownerEmail` only when set. */
  function TicketJs(t: Ticket): (v: JsValue)
    ensures v.Obj? && Get(v, "id") == Num(t.id) && Get(v, "isFixed") == Bool(t.isFixed)
    ensures Get(v, "ownerEmail") == if t.ownerEmail.Some? then Str(t.ownerEmail.value) else Undefined
  {
    var fields := map[
      "id" := Num(t.id), "isActive" := Bool(t.isActive), "isDeleted" := Bool(t.isDeleted),
      "timeStamp" := Num(t.timeStamp), "createdOn" := Num(t.createdOn), "updatedOn" := Num(t.updatedOn),
      "brand" := Str(t.brand), "model" := Str(t.model), "isFixed" := Bool(t.isFixed),
      "issue" := Str(t.issue)];
    Obj(if t.ownerEmail.Some? then fields["ownerEmail" := Str(t.ownerEmail.value)] else fields)
  }

  /** The user as the store returns it: every field, `fullName` only when set. */
  function UserJs(u: User): (v: JsValue)
    ensures v.Obj? && Get(v, "id") == Num(u.id) && Get(v, "password") == Str(u.password)
    ensures Get(v, "email") == Str(u.email) && Get(v, "role") == Str(RoleName(u.role))
    ensures Get(v, "fullName") == if u.fullName.Some? then Str(u.fullName.value) else Undefined
  {
    var fields := map[
      "id" := Num(u.id), "firstName" := Str(u.firstName), "lastName" := Str(u.lastName),
      "isActive" := Bool(u.isActive), "isDeleted" := Bool(u.isDeleted),
      "timeStamp" := Num(u.timeStamp), "createdOn" := Num(u.createdOn), "updatedOn" := Num(u.updatedOn),
      "email" := Str(u.email), "role" := Str(RoleName(u.role)), "password" := Str(u.password)];
    Obj(if u.fullName.Some? then fields["fullName" := Str(u.fullName.value)] else fields)
  }
}

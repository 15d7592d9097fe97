/**
  The ticket service: creation under a per-owner quota, the one-way fix by a
  technician, and the owner-scoped lookups. Every operation takes the ticket
  store and returns the outcome together with the store it leaves behind.
*/
module TicketService {
  import opened Wrappers
  import opened JsValues
  import opened Store
  import opened Validators
  import opened Models
  import opened External
  import opened RootService

  /** The most tickets an owner may hold; every ticket counts, fixed or not. */
  const Quota := 4
  const QuotaMessage := "You cannot create more than 4 tickets"
  const MissingIdMessage := "Please supply ticket id"
  const MissingEmailMessage := "Please supply user email"
  const NoTicketsMessage := "User has not registered any device with us"

  function NotRegisteredMessage(idParam: string): string {
    "This device with id " + idParam + " is not registered with us"
  }

  function AlreadyFixedMessage(idParam: string): string {
    "Device with id " + idParam + " already fixed"
  }

  function NotOwnedMessage(idParam: string): string {
    "You did not register a device with id " + idParam + " with us"
  }

  function NotFixedMessage(idParam: string): string {
    "Device with id " + idParam + " is not fixed, please wait awhile"
  }

  /** An operation's outcome and the store after it. */
  datatype TicketStep = TicketStep(outcome: Outcome, store: seq<Ticket>)

  /** The read filter `{ownerEmail: email}`. */
  function IsOwner(email: string): Ticket -> bool {
    (t: Ticket) => t.ownerEmail == Some(email)
  }

  /** The tickets of one owner, fixed or not. */
  function OwnedBy(store: seq<Ticket>, email: string): seq<Ticket> {
    Select(store, IsOwner(email))
  }

  /** The read filter `{id: idParam}`, after the store casts the route id to a number. */
  function HasId(id: Option<int>): Ticket -> bool {
    (t: Ticket) => Some(t.id) == id
  }

  /** The read filter `{id: idParam, ownerEmail: email}`. */
  function HasIdAndOwner(id: Option<int>, email: string): Ticket -> bool {
    (t: Ticket) => Some(t.id) == id && t.ownerEmail == Some(email)
  }

  /** The fields `isFixed id` of a ticket. */
  function Summary(t: Ticket): JsValue {
    Project(TicketJs(t), {"isFixed", "id"})
  }

  /**
    `createTicket`: a body the schema rejects fails validation; an owner who
    already holds 4 tickets is refused; otherwise the ticket is stored with
    the caller as its owner, whatever the body says, and the single-read
    envelope of the stored record is returned.
  */
  function CreateTicket(store: seq<Ticket>, callerEmail: string, body: map<string, JsValue>,
                        reply: StoreReply, c: Collaborators): (r: TicketStep)
    ensures r.outcome.Err? ==> r.store == store
    ensures !TicketBodyOk(body) ==>
      r.outcome == Err(Validation, c.filterValidation(ValidateCreateTicket(body).value))
    ensures TicketBodyOk(body) && |OwnedBy(store, callerEmail)| >= Quota ==>
      r.outcome == Err(Plain, QuotaMessage)
    ensures TicketBodyOk(body) && |OwnedBy(store, callerEmail)| < Quota && reply.Faulted? ==>
      r.outcome == Err(Controller, reply.error)
    ensures TicketBodyOk(body) && |OwnedBy(store, callerEmail)| < Quota && reply.Accepted? ==>
      var t := NewTicket(body["brand"].s, body["model"].s, body["issue"].s, Some(callerEmail),
                         reply.assignedId, reply.at);
      && (r.outcome.Ok? <==> TicketViolation(store, t).None?)
      && (TicketViolation(store, t).Some? ==>
            r.outcome == Err(Controller, c.describe(TicketViolation(store, t).value)))
    ensures r.outcome.Ok? ==>
      && TicketBodyOk(body) && |OwnedBy(store, callerEmail)| < Quota && reply.Accepted?
      && |r.store| == |store| + 1 && r.store[..|store|] == store
      && var t := r.store[|store|];
         && t == NewTicket(body["brand"].s, body["model"].s, body["issue"].s, Some(callerEmail),
                           reply.assignedId, reply.at)
         && t.ownerEmail == Some(callerEmail)
         && t.brand == body["brand"].s && t.model == body["model"].s && t.issue == body["issue"].s
         && !t.isFixed && t.createdOn == reply.at
         && r.outcome.envelope == ProcessSingleRead(TicketJs(t))
  {
    match ValidateCreateTicket(body)
    case Some(e) => TicketStep(Err(Validation, c.filterValidation(e)), store)
    case None =>
      if |OwnedBy(store, callerEmail)| >= Quota then TicketStep(Err(Plain, QuotaMessage), store)
      else
        match InsertTicket(store, body["brand"].s, body["model"].s, body["issue"].s,
                           Some(callerEmail), reply, c.describe)
        case Rejected(error) => TicketStep(Err(Controller, error), store)
        case Inserted(t, rows) =>
          assert rows[..|store|] == store;
          TicketStep(Ok(ProcessSingleRead(TicketJs(t))), rows)
  }

  /** The store's acknowledgement of an update matching `n` records, `nModified` of them changed. */
  function Ack(n: nat, nModified: nat): JsValue {
    Obj(map["ok" := Num(1), "n" := Num(n), "nModified" := Num(nModified)])
  }

  /** The ticket after the update's write: only `isFixed` and `updatedOn` change. */
  function Fix(fix: bool, now: int): Ticket -> Ticket {
    (t: Ticket) => t.(isFixed := fix, updatedOn := now)
  }

  /**
    `updateTicket`: a missing id, an id no ticket has and an already fixed
    ticket fail validation and leave the store alone; a store failure is a
    controller error; otherwise every ticket with the id gets the patch's
    `isFixed` and the new `updatedOn`. The acknowledgement is wrapped as
    `{result}` before it is classified, so the envelope is always the 400
    "Update failed" one even though the write took place.
  */
  function UpdateTicket(store: seq<Ticket>, idParam: string, fix: bool, now: int,
                        fault: Option<string>, c: Collaborators): (r: TicketStep)
    ensures idParam == "" ==> r == TicketStep(Err(Validation, MissingIdMessage), store)
    ensures idParam != "" && |Select(store, HasId(c.castId(idParam)))| == 0 ==>
      r == TicketStep(Err(Validation, NotRegisteredMessage(idParam)), store)
    ensures idParam != "" && |Select(store, HasId(c.castId(idParam)))| > 0
            && Select(store, HasId(c.castId(idParam)))[0].isFixed ==>
      r == TicketStep(Err(Validation, AlreadyFixedMessage(idParam)), store)
    ensures idParam != "" && |Select(store, HasId(c.castId(idParam)))| > 0
            && !Select(store, HasId(c.castId(idParam)))[0].isFixed && fault.Some? ==>
      r == TicketStep(Err(Controller, fault.value), store)
    ensures r.outcome.Err? ==> r.store == store
    ensures r.outcome.Ok? ==> r.outcome.envelope == Failure("Update failed", 400)
    ensures r.outcome.Ok? <==>
      idParam != "" && |Select(store, HasId(c.castId(idParam)))| > 0
      && !Select(store, HasId(c.castId(idParam)))[0].isFixed && fault.None?
    ensures |r.store| == |store|
    ensures r.outcome.Ok? ==> forall i :: 0 <= i < |store| ==>
      r.store[i] == if Some(store[i].id) == c.castId(idParam) then store[i].(isFixed := fix, updatedOn := now)
                    else store[i]
  {
    if idParam == "" then TicketStep(Err(Validation, MissingIdMessage), store)
    else
      var found := Select(store, HasId(c.castId(idParam)));
      if |found| == 0 then TicketStep(Err(Validation, NotRegisteredMessage(idParam)), store)
      else if found[0].isFixed then TicketStep(Err(Validation, AlreadyFixedMessage(idParam)), store)
      else match fault
        case Some(error) => TicketStep(Err(Controller, error), store)
        case None =>
          var changed := Select(found, (t: Ticket) => t.isFixed != fix || t.updatedOn != now);
          var result := Ack(|found|, |changed|);
          var reply := ProcessUpdateResult(Obj(map["result" := result]));
          TicketStep(Ok(reply.envelope), UpdateWhere(store, HasId(c.castId(idParam)), Fix(fix, now)))
  }

  /**
    `checkTicket`: the lookup matches the id and the caller's email together,
    so another owner's ticket is reported exactly like a missing one; a
    matching ticket that is not fixed is a distinct error; otherwise the
    single-read envelope of the first match.
  */
  function CheckTicket(store: seq<Ticket>, idParam: string, callerEmail: string,
                       c: Collaborators): (r: Outcome)
    ensures idParam == "" ==> r == Err(Validation, MissingIdMessage)
    ensures idParam != "" && |Select(store, HasIdAndOwner(c.castId(idParam), callerEmail))| == 0 ==>
      r == Err(Plain, NotOwnedMessage(idParam))
    ensures idParam != "" && |Select(store, HasIdAndOwner(c.castId(idParam), callerEmail))| > 0 ==>
      var t := Select(store, HasIdAndOwner(c.castId(idParam), callerEmail))[0];
      && t.ownerEmail == Some(callerEmail) && Some(t.id) == c.castId(idParam)
      && r == if t.isFixed then Ok(ProcessSingleRead(Summary(t))) else Err(Plain, NotFixedMessage(idParam))
  {
    if idParam == "" then Err(Validation, MissingIdMessage)
    else
      var found := Select(store, HasIdAndOwner(c.castId(idParam), callerEmail));
      assert |found| > 0 ==> found[0] in found;
      if |found| == 0 then Err(Plain, NotOwnedMessage(idParam))
      else if !found[0].isFixed then Err(Plain, NotFixedMessage(idParam))
      else Ok(ProcessSingleRead(Summary(found[0])))
  }

  /** The read filter `{ownerEmail: body.email}`; a non-string email matches no ticket. */
  function OwnedByValue(email: JsValue): Ticket -> bool {
    (t: Ticket) => email.Str? && t.ownerEmail == Some(email.s)
  }

  /**
    `checkUserTickets`: the owner is the `email` of the body, not the caller.
    A missing email fails validation, an owner without tickets is a plain
    error, otherwise the multiple-read envelope of the tickets' summaries.
  */
  function CheckUserTickets(store: seq<Ticket>, body: map<string, JsValue>): (r: Outcome)
    ensures !Truthy(Field(body, "email")) ==> r == Err(Validation, MissingEmailMessage)
    ensures Truthy(Field(body, "email")) && |Select(store, OwnedByValue(Field(body, "email")))| == 0 ==>
      r == Err(Plain, NoTicketsMessage)
    ensures Truthy(Field(body, "email")) && |Select(store, OwnedByValue(Field(body, "email")))| > 0 ==>
      var found := Select(store, OwnedByValue(Field(body, "email")));
      r == Ok(Success(Arr(seq(|found|, i requires 0 <= i < |found| => Summary(found[i]))), 200, false, JsonType))
  {
    var email := Field(body, "email");
    if !Truthy(email) then Err(Validation, MissingEmailMessage)
    else
      var found := Select(store, OwnedByValue(email));
      if |found| == 0 then Err(Plain, NoTicketsMessage)
      else Ok(ProcessMultipleReadResults(Arr(seq(|found|, i requires 0 <= i < |found| => Summary(found[i])))))
  }

  /**
    A ticket just created is listed: after a successful creation by `email`,
    listing that owner's tickets succeeds, and the list is the earlier one
    with the new ticket's summary at the end.
  */
  lemma CreatedTicketIsListed(store: seq<Ticket>, email: string, body: map<string, JsValue>,
                              reply: StoreReply, c: Collaborators)
    requires email != "" && TicketBodyOk(body) && |OwnedBy(store, email)| < Quota && reply.Accepted?
    requires TicketViolation(store, NewTicket(body["brand"].s, body["model"].s, body["issue"].s, Some(email),
                                              reply.assignedId, reply.at)).None?
    ensures var r := CreateTicket(store, email, body, reply, c);
      var before := Select(store, OwnedByValue(Str(email)));
      var listed := CheckUserTickets(r.store, map["email" := Str(email)]);
      && listed.Ok? && listed.envelope.Success? && listed.envelope.status == 200
      && listed.envelope.payload.Arr?
      && |listed.envelope.payload.items| == |before| + 1
      && (forall i :: 0 <= i < |before| ==> listed.envelope.payload.items[i] == Summary(before[i]))
      && listed.envelope.payload.items[|before|] == Summary(r.store[|store|])
  {
    var r := CreateTicket(store, email, body, reply, c);
    assert r.outcome.Ok?;
    var t := r.store[|store|];
    assert r.store == store + [t];
    ListingAfterAppend(store, t, email);
  }

  /** Listing an owner's tickets after one of theirs is appended: the earlier list plus its summary. */
  lemma ListingAfterAppend(store: seq<Ticket>, t: Ticket, email: string)
    requires email != "" && t.ownerEmail == Some(email)
    ensures var before := Select(store, OwnedByValue(Str(email)));
      var listed := CheckUserTickets(store + [t], map["email" := Str(email)]);
      && listed.Ok? && listed.envelope.Success? && listed.envelope.status == 200
      && listed.envelope.payload.Arr?
      && |listed.envelope.payload.items| == |before| + 1
      && (forall i :: 0 <= i < |before| ==> listed.envelope.payload.items[i] == Summary(before[i]))
      && listed.envelope.payload.items[|before|] == Summary(t)
  {
    var owned := OwnedByValue(Str(email));
    SelectAppend(store, t, owned);
    var before := Select(store, owned);
    var after := Select(store + [t], owned);
    assert after == before + [t];
    var body' := map["email" := Str(email)];
    assert Field(body', "email") == Str(email);
    var listed := CheckUserTickets(store + [t], body');
    assert listed == Ok(Success(Arr(seq(|after|, i requires 0 <= i < |after| => Summary(after[i]))), 200, false, JsonType));
  }

  /** No owner holds more tickets than the quota. */
  ghost predicate WithinQuota(store: seq<Ticket>) {
    forall email :: |OwnedBy(store, email)| <= Quota
  }

  /** Creating a ticket never takes an owner past the quota. */
  lemma CreateKeepsQuota(store: seq<Ticket>, callerEmail: string, body: map<string, JsValue>,
                         reply: StoreReply, c: Collaborators)
    requires WithinQuota(store)
    ensures WithinQuota(CreateTicket(store, callerEmail, body, reply, c).store)
  {
    var r := CreateTicket(store, callerEmail, body, reply, c);
    if r.outcome.Ok? {
      var t := r.store[|store|];
      assert r.store == store + [t];
      forall email
        ensures |OwnedBy(r.store, email)| <= Quota
      {
        SelectAppend(store, t, IsOwner(email));
        assert |OwnedBy(store, email)| <= Quota;
      }
    }
  }

  /** Creating a ticket keeps ticket ids unique. */
  lemma CreateKeepsIdsUnique(store: seq<Ticket>, callerEmail: string, body: map<string, JsValue>,
                             reply: StoreReply, c: Collaborators)
    requires TicketIdsUnique(store)
    ensures TicketIdsUnique(CreateTicket(store, callerEmail, body, reply, c).store)
  {
    if TicketBodyOk(body) && |OwnedBy(store, callerEmail)| < Quota {
      var _ := InsertTicket(store, body["brand"].s, body["model"].s, body["issue"].s,
                            Some(callerEmail), reply, c.describe);
    }
  }

  /** The update never changes an id, so ids stay unique. */
  lemma UpdateKeepsIdsUnique(store: seq<Ticket>, idParam: string, fix: bool, now: int,
                             fault: Option<string>, c: Collaborators)
    requires TicketIdsUnique(store)
    ensures TicketIdsUnique(UpdateTicket(store, idParam, fix, now, fault, c).store)
  {
    var r := UpdateTicket(store, idParam, fix, now, fault, c);
    assert forall i :: 0 <= i < |store| ==> r.store[i].id == store[i].id;
  }

  /**
    A ticket moves one way: with unique ids, a ticket that is already fixed
    comes out of the update exactly as it went in.
  */
  lemma UpdateIsOneWay(store: seq<Ticket>, idParam: string, fix: bool, now: int,
                       fault: Option<string>, c: Collaborators)
    requires TicketIdsUnique(store)
    ensures var r := UpdateTicket(store, idParam, fix, now, fault, c);
      forall i :: 0 <= i < |store| && store[i].isFixed ==> r.store[i] == store[i]
  {
    var r := UpdateTicket(store, idParam, fix, now, fault, c);
    if r.outcome.Ok? {
      var found := Select(store, HasId(c.castId(idParam)));
      assert found[0] in found;
      var k :| 0 <= k < |store| && store[k] == found[0];
      assert forall i :: 0 <= i < |store| && Some(store[i].id) == c.castId(idParam) ==> i == k;
    }
  }

  /**
    Fixing a ticket frees no quota: the update leaves every owner's ticket
    count as it was, so an owner at the quota stays refused for good.
  */
  lemma QuotaIsPermanent(store: seq<Ticket>, idParam: string, fix: bool, now: int,
                         fault: Option<string>, c: Collaborators, email: string,
                         body: map<string, JsValue>, reply: StoreReply)
    requires TicketBodyOk(body)
    requires |OwnedBy(store, email)| >= Quota
    ensures var after := UpdateTicket(store, idParam, fix, now, fault, c).store;
      && |OwnedBy(after, email)| == |OwnedBy(store, email)|
      && CreateTicket(after, email, body, reply, c).outcome == Err(Plain, QuotaMessage)
  {
    var r := UpdateTicket(store, idParam, fix, now, fault, c);
    if r.outcome.Ok? {
      SelectAfterUpdate(store, HasId(c.castId(idParam)), Fix(fix, now), IsOwner(email));
    }
  }

  /**
    Ownership isolation: `checkTicket` answers the same whether it sees the
    whole store or only the caller's own tickets.
  */
  lemma CheckTicketIsolation(store: seq<Ticket>, idParam: string, callerEmail: string, c: Collaborators)
    ensures CheckTicket(store, idParam, callerEmail, c) == CheckTicket(OwnedBy(store, callerEmail), idParam, callerEmail, c)
  {
    SelectNarrow(store, IsOwner(callerEmail), HasIdAndOwner(c.castId(idParam), callerEmail));
  }

  /**
    Another owner's ticket with the probed id is reported exactly like an id
    nobody registered.
  */
  lemma ForeignTicketLooksMissing(store: seq<Ticket>, foreign: Ticket, idParam: string,
                                  callerEmail: string, c: Collaborators)
    requires foreign.ownerEmail != Some(callerEmail)
    ensures CheckTicket(store + [foreign], idParam, callerEmail, c) == CheckTicket(store, idParam, callerEmail, c)
  {
    SelectAppend(store, foreign, HasIdAndOwner(c.castId(idParam), callerEmail));
  }

  /** With unique ids, a filter that pins the id of ticket `k` selects ticket `k` first. */
  lemma UniqueMatch(store: seq<Ticket>, k: nat, matches: Ticket -> bool)
    requires TicketIdsUnique(store) && k < |store| && matches(store[k])
    requires forall t :: matches(t) ==> t.id == store[k].id
    ensures |Select(store, matches)| > 0 && Select(store, matches)[0] == store[k]
  {
    assert store[k] in store;
    var found := Select(store, matches);
    assert found[0] in found;
    var j :| 0 <= j < |store| && store[j] == found[0];
  }

  /**
    The fix cycle for one ticket: before the technician's update the owner's
    check reports "not fixed"; the update reports "Update failed" yet writes
    the fix, after which the owner's check succeeds with status 200.
  */
  lemma FixThenCheck(store: seq<Ticket>, k: nat, idParam: string, callerEmail: string, now: int,
                     c: Collaborators)
    requires TicketIdsUnique(store)
    requires k < |store| && idParam != ""
    requires c.castId(idParam) == Some(store[k].id) && store[k].id != 0
    requires store[k].ownerEmail == Some(callerEmail) && !store[k].isFixed
    ensures CheckTicket(store, idParam, callerEmail, c) == Err(Plain, NotFixedMessage(idParam))
    ensures var r := UpdateTicket(store, idParam, true, now, None, c);
      && r.outcome == Ok(Failure("Update failed", 400))
      && r.store[k].isFixed
      && var check := CheckTicket(r.store, idParam, callerEmail, c);
         check.Ok? && check.envelope.Success? && check.envelope.status == 200
  {
    var id := c.castId(idParam);
    UniqueMatch(store, k, HasIdAndOwner(id, callerEmail));
    UniqueMatch(store, k, HasId(id));
    var r := UpdateTicket(store, idParam, true, now, None, c);
    UpdateKeepsIdsUnique(store, idParam, true, now, None, c);
    UniqueMatch(r.store, k, HasIdAndOwner(id, callerEmail));
    assert Get(Summary(r.store[k]), "id") == Num(store[k].id);
  }

  /**
    A ticket stored with the schema's default id 0 is reported as not found:
    the store grows, yet the caller receives the 404 envelope.
  */
  lemma DefaultIdCreateReportsNotFound(store: seq<Ticket>, callerEmail: string, body: map<string, JsValue>,
                                       at: int, c: Collaborators)
    requires TicketBodyOk(body) && |OwnedBy(store, callerEmail)| < Quota
    requires forall t :: t in store ==> t.id != DefaultId
    ensures var r := CreateTicket(store, callerEmail, body, Accepted(None, at), c);
      r.outcome == Ok(Failure("Resource not found", 404)) && |r.store| == |store| + 1
  {
    var _ := InsertTicket(store, body["brand"].s, body["model"].s, body["issue"].s,
                          Some(callerEmail), Accepted(None, at), c.describe);
  }
}

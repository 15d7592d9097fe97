/**
  The catch blocks of the service methods: how a raised error reaches the
  transport layer. As written, every service passes `formatError` a single
  object, so its positional `error` parameter is undefined and reading its
  `message` throws inside the catch block. The corrected handler passes the
  three arguments in order.
*/
module ErrorHandling {
  import opened Wrappers
  import opened JsValues
  import opened RootService
  import opened External
  import opened Models
  import opened Store
  import opened TicketService

  /** What reaches the transport layer from a service call. */
  datatype Reply =
    | Replied(envelope: Envelope)
    | Forwarded(errorMessage: string, statusCode: Option<int>)
    | HandlerThrew(message: string)

  /** How an object passed where a string is expected prints. */
  const ObjectText := "[object Object]"

  /**
    The catch block as written: `formatError({service, error, functionName})`
    binds the object to `serviceName` and leaves `error` and `functionName`
    undefined, so classifying any error throws.
  */
  function RespondAsWritten(o: Outcome, nodeEnv: string): (r: Reply)
    ensures o.Ok? ==> r == Replied(o.envelope)
    ensures o.Err? ==> r == HandlerThrew(ReadFailure(Undefined, "message"))
  {
    match o
    case Ok(envelope) => Replied(envelope)
    case Err(_, _) =>
      match FormatError(ObjectText, Absent, "undefined", nodeEnv)
      case Classified(errorMessage, statusCode) => Forwarded(errorMessage, statusCode)
      case ReadOfUndefined => HandlerThrew(ReadFailure(Undefined, "message"))
  }

  /**
    The catch block as intended: `formatError(serviceName, error,
    functionName)`, so every raised error is forwarded with its classified
    status and a message that ends in the error's own message.
  */
  function RespondCorrected(serviceName: string, functionName: string, o: Outcome, nodeEnv: string): (r: Reply)
    ensures o.Ok? ==> r == Replied(o.envelope)
    ensures o.Err? ==> r.Forwarded? && EndsWith(r.errorMessage, o.message)
    ensures o.Err? ==> (r.statusCode == Some(412) <==> o.kind == Validation)
    ensures o.Err? ==> (r.statusCode == Some(500) <==> o.kind == Controller)
    ensures o.Err? ==> (r.statusCode.None? <==> o.kind == Plain)
    ensures o.Err? && nodeEnv != "DEVELOPMENT" ==> r.errorMessage == o.message
  {
    match o
    case Ok(envelope) => Replied(envelope)
    case Err(kind, message) =>
      match FormatError(serviceName, Raised(ServiceError(kind, message)), functionName, nodeEnv)
      case Classified(errorMessage, statusCode) => Forwarded(errorMessage, statusCode)
      case ReadOfUndefined => HandlerThrew(ReadFailure(Undefined, "message"))
  }

  /**
    The discrepancy on one input: a missing ticket id, outside development.
    As written the handler throws; corrected, the validation error is
    forwarded with status 412 and its own message.
  */
  lemma MissingIdReply(store: seq<Ticket>, c: Collaborators)
    ensures var o := CheckTicket(store, "", "owner@example.com", c);
      && RespondAsWritten(o, "production") == HandlerThrew(ReadFailure(Undefined, "message"))
      && RespondCorrected("TicketService", "checkTicket", o, "production")
           == Forwarded(MissingIdMessage, Some(412))
  {
    var o := CheckTicket(store, "", "owner@example.com", c);
    assert o == Err(Validation, MissingIdMessage);
  }

  /**
    The quota refusal is a plain error, so even the corrected handler
    forwards it without a status code: the caller's default applies.
  */
  lemma QuotaRefusalHasNoStatus(store: seq<Ticket>, callerEmail: string, body: map<string, JsValue>,
                                reply: StoreReply, c: Collaborators, nodeEnv: string)
    requires Validators.TicketBodyOk(body) && |OwnedBy(store, callerEmail)| >= Quota
    ensures var o := CreateTicket(store, callerEmail, body, reply, c).outcome;
      var r := RespondCorrected("TicketService", "createTicket", o, nodeEnv);
      && r.Forwarded? && r.statusCode.None?
      && (nodeEnv != "DEVELOPMENT" ==> r.errorMessage == QuotaMessage)
  {
  }
}

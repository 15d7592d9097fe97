/**
  The base resource service: the response envelopes every service method
  returns, the classifiers that turn raw store outcomes into envelopes, the
  error classifier, and the condition merge performed before a store read.
*/
module RootService {
  import opened Wrappers
  import opened JsValues

  const JsonType := "application/json"

  /**
    The envelope handed to the transport layer. A failure carries `payload`
    null and the message as `error`; a success carries `error` null and also
    the response type and raw-response flag.
  */
  datatype Envelope =
    | Failure(message: string, status: int)
    | Success(payload: JsValue, status: int, sendRawResponse: bool, responseType: string)
  {
    /** The envelope's `payload` field. */
    function Payload(): JsValue {
      if Failure? then Null else payload
    }

    /** The envelope's `error` field. */
    function Error(): JsValue {
      if Failure? then Str(message) else Null
    }
  }

  /** The class of a raised error: `CustomValidationError`, `CustomControllerError` or a plain `Error`. */
  datatype ErrorKind = Validation | Controller | Plain

  /** An error raised inside a service method. */
  datatype ServiceError = ServiceError(kind: ErrorKind, message: string)

  /**
    What a service method produces before its catch block: the envelope it
    returns, or the error it raised.
  */
  datatype Outcome = Ok(envelope: Envelope) | Err(kind: ErrorKind, message: string)

  /** An event handed to the application's event emitter. */
  datatype Event = Event(name: JsValue, data: JsValue)

  /** The result of `processUpdateResult`: the envelope and the event it emitted, if any. */
  datatype UpdateReply = UpdateReply(envelope: Envelope, emitted: Option<Event>)

  /** The failure envelope; the status defaults to 400. */
  function ProcessFailedResponse(message: string, code: int := 400): (r: Envelope)
    ensures r.Payload() == Null && r.Error() == Str(message)
    ensures r.status == code
  {
    Failure(message, code)
  }

  /**
    The success envelope; the status defaults to 200, the raw-response flag
    to false and the response type to JSON.
  */
  function ProcessSuccessfulResponse(payload: JsValue, code: int := 200,
                                     sendRawResponse: bool := false,
                                     responseType: string := JsonType): (r: Envelope)
    ensures r.Success? && r.Error() == Null && r.Payload() == payload
    ensures r.status == code && r.sendRawResponse == sendRawResponse && r.responseType == responseType
  {
    Success(payload, code, sendRawResponse, responseType)
  }

  /**
    A single record read: present with a truthy `id`, or 404. A record whose
    `id` is 0 counts as not found.
  */
  function ProcessSingleRead(result: JsValue): (r: Envelope)
    ensures r.Success? <==> Truthy(result) && Truthy(Get(result, "id"))
    ensures r.Success? ==> r == Success(result, 200, false, JsonType)
    ensures r.Failure? ==> r == Failure("Resource not found", 404)
  {
    if Truthy(result) && Truthy(Get(result, "id")) then ProcessSuccessfulResponse(result)
    else ProcessFailedResponse("Resource not found", 404)
  }

  /**
    A multiple read: succeeds when the result has a truthy `count` or a
    `length` that is at least zero; otherwise 404.
  */
  function ProcessMultipleReadResults(result: JsValue): (r: Envelope)
    ensures r.Success? <==>
      Truthy(result) && (Truthy(Get(result, "count")) || AtLeastZero(Get(result, "length")))
    ensures r.Success? ==> r == Success(result, 200, false, JsonType)
    ensures r.Failure? ==> r == Failure("Resources not found", 404)
  {
    if Truthy(result) && (Truthy(Get(result, "count")) || AtLeastZero(Get(result, "length"))) then
      ProcessSuccessfulResponse(result)
    else
      ProcessFailedResponse("Resources not found", 404)
  }

  /** The store acknowledged the write and changed at least one record. */
  predicate Modified(result: JsValue) {
    Truthy(result) && Truthy(Get(result, "ok")) && Truthy(Get(result, "nModified"))
  }

  /** The store acknowledged the write but changed nothing. */
  predicate Unmodified(result: JsValue) {
    Truthy(result) && Truthy(Get(result, "ok")) && !Truthy(Get(result, "nModified"))
  }

  /**
    An update result: modified gives 200 (and emits the named event when a
    name is given), acknowledged but unmodified gives 204, anything else the
    400 "Update failed" envelope.
  */
  function ProcessUpdateResult(result: JsValue, eventName: JsValue := Undefined): (r: UpdateReply)
    ensures Modified(result) ==> r.envelope == Success(result, 200, false, JsonType)
    ensures Unmodified(result) ==> r.envelope == Success(result, 204, false, JsonType)
    ensures !Modified(result) && !Unmodified(result) ==> r.envelope == Failure("Update failed", 400)
    ensures r.emitted.Some? <==> Modified(result) && Truthy(eventName)
    ensures r.emitted.Some? ==> r.emitted.value == Event(eventName, result)
  {
    if Modified(result) then
      var event := if Truthy(eventName) then Some(Event(eventName, result)) else None;
      UpdateReply(ProcessSuccessfulResponse(result), event)
    else if Unmodified(result) then
      UpdateReply(ProcessSuccessfulResponse(result, 204), None)
    else
      UpdateReply(ProcessFailedResponse("Update failed", 400), None)
  }

  /**
    A soft delete: succeeds when `nModified` is truthy; otherwise the failure
    envelope "Deletion failed." with status 200.
  */
  function ProcessDeleteResult(result: JsValue): (r: Envelope)
    ensures r.Success? <==> Truthy(result) && Truthy(Get(result, "nModified"))
    ensures r.Success? ==> r == Success(result, 200, false, JsonType)
    ensures r.Failure? ==> r == Failure("Deletion failed.", 200)
  {
    if Truthy(result) && Truthy(Get(result, "nModified")) then ProcessSuccessfulResponse(result)
    else ProcessFailedResponse("Deletion failed.", 200)
  }

  /** The second argument of `formatError`: an error object, or nothing at all. */
  datatype ErrorArg = Absent | Raised(error: ServiceError)

  /**
    What `formatError` yields: the message and status code, or the TypeError
    thrown when it reads `message` off an absent error.
  */
  datatype Classification =
    | Classified(errorMessage: string, statusCode: Option<int>)
    | ReadOfUndefined

  predicate EndsWith(s: string, suffix: string) {
    |suffix| <= |s| && s[|s| - |suffix|..] == suffix
  }

  /**
    `formatError(serviceName, error, functionName)` with its positional
    parameters: 412 for validation errors, 500 for controller errors, no status
    otherwise; the message gains a `[service] function: ` prefix only when
    `NODE_ENV` is `DEVELOPMENT`.
  */
  function FormatError(serviceName: string, error: ErrorArg, functionName: string,
                       nodeEnv: string): (r: Classification)
    ensures error.Absent? <==> r.ReadOfUndefined?
    ensures error.Raised? ==>
      && (r.statusCode == Some(412) <==> error.error.kind == Validation)
      && (r.statusCode == Some(500) <==> error.error.kind == Controller)
      && (r.statusCode == None <==> error.error.kind == Plain)
      && EndsWith(r.errorMessage, error.error.message)
      && (nodeEnv != "DEVELOPMENT" ==> r.errorMessage == error.error.message)
      && (nodeEnv == "DEVELOPMENT" ==> r.errorMessage[..|r.errorMessage| - |error.error.message|]
                                        == "[" + serviceName + "] " + functionName + ": ")
  {
    match error
    case Absent => ReadOfUndefined
    case Raised(e) =>
      var statusCode := match e.kind
        case Validation => Some(412)
        case Controller => Some(500)
        case Plain => None;
      var errorMessage :=
        if nodeEnv == "DEVELOPMENT" then "[" + serviceName + "] " + functionName + ": " + e.message
        else e.message;
      Classified(errorMessage, statusCode)
  }

  /** The output of the query builder that `handleDatabaseRead` consumes. */
  datatype BuiltQuery = BuiltQuery(count: JsValue, fieldsToReturn: JsValue, limit: JsValue,
                                   seekConditions: map<string, JsValue>, skip: JsValue,
                                   sortCondition: JsValue)

  /** The arguments `handleDatabaseRead` passes to the store's `readRecords`. */
  datatype ReadCall = ReadCall(conditions: map<string, JsValue>, fieldsToReturn: JsValue,
                               sortCondition: JsValue, count: JsValue, skip: JsValue,
                               limit: JsValue)

  /**
    The read request `handleDatabaseRead` issues: the built conditions
    overridden key by key by `extraOptions`, and `count` replaced by `false`
    when it is falsy.
  */
  function HandleDatabaseRead(query: BuiltQuery, extraOptions: map<string, JsValue> := map[]): (r: ReadCall)
    ensures r.conditions.Keys == query.seekConditions.Keys + extraOptions.Keys
    ensures forall k :: k in extraOptions ==> r.conditions[k] == extraOptions[k]
    ensures forall k :: k in query.seekConditions && k !in extraOptions ==>
      r.conditions[k] == query.seekConditions[k]
    ensures Truthy(query.count) ==> r.count == query.count
    ensures !Truthy(query.count) ==> r.count == Bool(false)
    ensures r.fieldsToReturn == query.fieldsToReturn && r.sortCondition == query.sortCondition
    ensures r.skip == query.skip && r.limit == query.limit
  {
    var count := if Truthy(query.count) then query.count else Bool(false);
    ReadCall(query.seekConditions + extraOptions, query.fieldsToReturn, query.sortCondition,
             count, query.skip, query.limit)
  }

  /** The default status of a failure is 400; a success defaults to 200, JSON, not raw. */
  lemma EnvelopeDefaults(message: string, payload: JsValue)
    ensures ProcessFailedResponse(message).status == 400
    ensures ProcessSuccessfulResponse(payload) == Success(payload, 200, false, "application/json")
  {
  }

  /** Exactly one of `payload` and `error` is non-null. */
  predicate OneSided(e: Envelope) {
    (e.Payload() == Null) != (e.Error() == Null)
  }

  /**
    Every envelope the classifiers build, on any input, carries exactly one
    of a payload and an error: a success is only built from a truthy result.
  */
  lemma ClassifiersAreOneSided(result: JsValue, eventName: JsValue)
    ensures OneSided(ProcessSingleRead(result))
    ensures OneSided(ProcessMultipleReadResults(result))
    ensures OneSided(ProcessUpdateResult(result, eventName).envelope)
    ensures OneSided(ProcessDeleteResult(result))
  {
  }

  /** Any array read succeeds with status 200, the empty one included. */
  lemma EveryArrayIsFound(items: seq<JsValue>)
    ensures ProcessMultipleReadResults(Arr(items)) == Success(Arr(items), 200, false, JsonType)
  {
  }

  /** A count result `{count: n}` is found exactly when the count is non-zero. */
  lemma CountIsFoundIffNonZero(n: int)
    ensures ProcessMultipleReadResults(Obj(map["count" := Num(n)])).Success? <==> n != 0
    ensures n == 0 ==> ProcessMultipleReadResults(Obj(map["count" := Num(n)])) == Failure("Resources not found", 404)
  {
  }

  /** A record whose `id` is 0 or missing is reported as not found, like no record at all. */
  lemma ZeroIdIsNotFound(fields: map<string, JsValue>)
    requires "id" !in fields || fields["id"] == Num(0)
    ensures ProcessSingleRead(Obj(fields)) == ProcessSingleRead(Undefined)
    ensures ProcessSingleRead(Null) == Failure("Resource not found", 404)
  {
  }

  /**
    The store acknowledgement `{ok, nModified}` classified: 200 when both
    are non-zero, 204 when only `ok` is, 400 "Update failed" when `ok` is 0.
  */
  lemma AcknowledgementStatus(ok: int, nModified: int)
    ensures var r := ProcessUpdateResult(Obj(map["ok" := Num(ok), "nModified" := Num(nModified)]));
      && (r.envelope.status == 200 <==> ok != 0 && nModified != 0)
      && (r.envelope.status == 204 <==> ok != 0 && nModified == 0)
      && (r.envelope.status == 400 <==> ok == 0)
      && (ok == 0 ==> r.envelope == Failure("Update failed", 400))
  {
  }

  /** An update result wrapped in another object has no `ok` of its own: always 400 "Update failed". */
  lemma WrappedResultFails(result: JsValue, eventName: JsValue)
    ensures ProcessUpdateResult(Obj(map["result" := result]), eventName)
      == UpdateReply(Failure("Update failed", 400), None)
  {
  }
}

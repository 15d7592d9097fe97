# Repair-ticket service: a Dafny model

This project models the core of a small Express/Mongoose backend. Clients register devices
for repair as tickets, and technicians mark them fixed. The model covers these layers:

- the base resource service: the response envelopes and the classifiers that turn a store
  result into an envelope, the error formatter, and the read-condition merge;
- the ticket service: `createTicket` under a four-ticket quota per owner, `updateTicket`
  (a technician fixes a ticket), `checkTicket` (an owner checks one ticket) and
  `checkUserTickets`;
- the user service: `createUser` (registration with a hashed password and a derived full
  name) and `loginUser` (password check and a signed token);
- the guards `verifyUser`, `checkIfTech` and `checkIfClient`;
- the Joi schemas for user creation, ticket creation and ticket update, including the
  password pattern;
- the Ticket and User records, with their defaults and their required, enum and unique
  constraints.

Each service operation is a pure function. It takes the store (a sequence of records), the
request fields it reads, and the collaborators it cannot see, and it returns the outcome
together with the store it leaves behind. An outcome is either an envelope or a raised
error of one of three kinds:

- a validation error, which `formatError` maps to 412;
- a controller error, which it maps to 500;
- a plain `Error`, which gets no status.

JavaScript values that the code inspects through truthiness and property reads are modelled
by `JsValues.JsValue`. So `id` 0 and a `count` of 0 behave as they do in the source.

Modules, by file:

| file | module | models |
|---|---|---|
| `js_values.dfy` | `JsValues` | JS values, truthiness, property reads, field projection |
| `root_service.dfy` | `RootService` | `src/services/_root.js` |
| `validators.dfy` | `Validators` | `src/validators/index.js` |
| `store.dfy` | `Store` | reads in store order, conditional updates, store replies |
| `models.dfy` | `Models` | `src/models/ticket.js`, `src/models/users.js` |
| `external.dfy` | `External` | hashing, tokens, id casting and Joi's message filter, as parameters |
| `ticket_service.dfy` | `TicketService` | `src/services/ticket/ticket.js` |
| `user_service.dfy` | `UserService` | `src/services/user/user.js` |
| `auth_guard.dfy` | `AuthGuard` | `src/middlewares/validate.js` |
| `error_handling.dfy` | `ErrorHandling` | the services' catch blocks, as written and as intended |

## Model

| member | source | states |
|---|---|---|
| RootService.ProcessFailedResponse | src/services/_root.js:25-31 | A failure envelope carries the message as `error`, a null payload and the given code, which defaults to 400 |
| RootService.ProcessSuccessfulResponse | src/services/_root.js:33-46 | A success envelope carries the payload with a null `error` and the given code, raw flag and response type |
| RootService.EnvelopeDefaults | src/services/_root.js:25-46 | Omitted arguments give status 400 on failure, and status 200, not raw, `application/json` on success |
| RootService.ProcessSingleRead | src/services/_root.js:63-66 | Success iff the result is truthy and has a truthy `id`; the success envelope is the result with 200, and anything else is "Resource not found" with 404 |
| RootService.ZeroIdIsNotFound | src/services/_root.js:63-66 | A record whose id is 0 or absent is classified exactly like no record at all, giving the 404 envelope |
| RootService.ProcessMultipleReadResults | src/services/_root.js:68-73 | Success iff the result is truthy and has a truthy `count` or a `length` that loosely compares at least 0; otherwise "Resources not found" with 404 |
| RootService.EveryArrayIsFound | src/services/_root.js:68-73 | Every array, the empty one included, is a 200 success |
| RootService.CountIsFoundIffNonZero | src/services/_root.js:68-73 | A count object succeeds iff the count is non-zero; a count of 0 gives 404 |
| RootService.ProcessUpdateResult | src/services/_root.js:75-86 | ok with a non-zero `nModified` gives 200; ok with zero modified gives 204; anything else gives "Update failed" 400; the event is emitted iff the result was modified and the event name is truthy |
| RootService.AcknowledgementStatus | src/services/_root.js:75-86 | For a store acknowledgement `{ok, nModified}`: 200 iff both are non-zero, 204 iff only `ok` is, and "Update failed" 400 iff `ok` is 0 |
| RootService.WrappedResultFails | src/services/_root.js:75-86 | An acknowledgement wrapped as `{result}` has no `ok` field, so it is always "Update failed" 400 and emits nothing |
| RootService.ProcessDeleteResult | src/services/_root.js:88-91 | Success iff `nModified` is truthy; otherwise "Deletion failed." with status 200 |
| RootService.ClassifiersAreOneSided | src/services/_root.js:63-91 | Every classifier's envelope has exactly one of `payload` and `error` non-null |
| RootService.FormatError | src/services/_root.js:9-23 | Validation errors get 412, controller errors get 500, plain errors get no status (each an iff); the message ends with the error's own message and is bare outside DEVELOPMENT; with no error argument, reading `message` throws |
| RootService.HandleDatabaseRead | src/services/_root.js:48-61 | The read's conditions are the built conditions overridden key by key by the extra options; `count` is passed on when truthy and is `false` otherwise; the other query parts pass through unchanged |
| Validators.LineEnd | src/validators/index.js:19 | The position of the first line terminator, or the length if there is none: the stretch the pattern's `.` look-ahead can see |
| Validators.ScanPassword | src/validators/index.js:17-28 | The scanning loop accepts iff `Validators.PasswordPattern`, the model of the regex on line 19, holds: a lower-case letter, an upper-case letter, a digit and a listed special character each occur in the first line, and the first line is at least 8 UTF-16 code units long |
| Validators.LineEndAtBreak | src/validators/index.js:19 | The first line of `prefix + "\n" + rest` is exactly `prefix` when `prefix` has no line terminator |
| Validators.ShortFirstLineRejected | src/validators/index.js:19 | The pattern refuses a string whose first line is shorter than 8 UTF-16 code units, however long the whole string is; the schema matches it after trimming |
| Validators.SingleLinePassword | src/validators/index.js:17-28 | For a single-line string the pattern means: at least 8 UTF-16 code units, plus the four character classes |
| Validators.BmpLength | src/validators/index.js:19 | For a string without characters beyond the Basic Multilingual Plane, the code-unit length the pattern counts equals the character count |
| Validators.Trim | src/validators/index.js:21 | The trimmed password is the original with only leading and trailing white space and line terminators removed: a contiguous stretch of it, with only such characters before and after, that neither starts nor ends with one |
| Validators.TrimIdempotent | src/validators/index.js:21 | Trimming a trimmed value changes nothing |
| Validators.LeadingWhitespaceIgnored | src/validators/index.js:17-28 | White space, line breaks included, in front of a password never changes whether the password rule accepts it |
| Validators.StringRule | src/validators/index.js:9-11 | A required string field passes iff it is present, a string and not empty |
| Validators.EmailRule | src/validators/index.js:12-16 | The email rule passes iff the email is a string with at least two domain segments, a `com` or `net` top-level domain and a valid address; every failure is reported as the rule's own message |
| Validators.PasswordRule | src/validators/index.js:17-28 | The password rule passes iff the password is a string whose trimmed value matches the pattern; every failure is the one password message |
| Validators.UnknownKeys | src/validators/index.js:8 | An object schema passes iff the body has no key the schema does not declare |
| Validators.ValidateCreateUser | src/validators/index.js:8-34 | No error iff the body has the five declared fields, each valid, and no other key |
| Validators.PasswordErrorReported | src/validators/index.js:17-28 | When the other fields are valid and the password is not, the reported error is the password message |
| Validators.EmailErrorReported | src/validators/index.js:12-16 | When the names and role are valid and the email is not, the reported error is "Email  not valid", checked before the password |
| Validators.ValidateCreateTicket | src/validators/index.js:36-40 | No error iff brand, model and issue are non-empty strings and there is no other key |
| Validators.OwnerEmailNotAccepted | src/validators/index.js:36-40 | A ticket body naming an `ownerEmail` is always rejected, so a client cannot choose a ticket's owner |
| Validators.IsFixedRule | src/validators/index.js:49-53 | `isFixed` passes iff it is absent or a boolean; any failure is "isFixed is missing" |
| Validators.ValidateUpdateTicket | src/validators/index.js:48-59 | No error iff `isFixed` is absent or a boolean, `ownerEmail` is a valid `com`/`net` email, and there is no other key |
| Store.Select | src/services/ticket/ticket.js:48-50 | A read returns, in store order, exactly the stored records that match the conditions |
| Store.SelectAppend | src/services/ticket/ticket.js:48-50 | Appending a record extends a read by that record iff it matches |
| Store.SelectConcat | src/services/ticket/ticket.js:48-50 | A read over two stretches of the store is the concatenation of the two reads |
| Store.SelectNarrow | src/services/ticket/ticket.js:127-129 | Narrowing a read's result by stricter conditions equals reading with the stricter conditions |
| Store.UpdateWhere | src/services/ticket/ticket.js:94-100 | An update rewrites exactly the matching records and leaves every other record and the store's length alone |
| Store.SelectAfterUpdate | src/services/ticket/ticket.js:94-100 | An update that cannot change whether a record matches a filter leaves that filter's read count unchanged |
| Models.RoleFromString | src/models/users.js:55-59 | A role string is accepted iff it is `technician` or `client` |
| Models.RoleNameRoundTrip | src/models/users.js:55-59 | Role names and accepted role strings convert into each other without loss |
| Models.NewTicket | src/models/ticket.js:10-60 | A new ticket has the given brand, model, issue and owner; it is active, not deleted and not fixed; its id is 0 unless one is assigned; all three timestamps are the creation time |
| Models.NewUser | src/models/users.js:10-66 | A new user has the given fields; it is active and not deleted; its id is 0 unless one is assigned; all three timestamps are the creation time |
| Models.TicketViolation | src/models/ticket.js:10-57 | A ticket is accepted iff brand, model and issue are non-empty and its id is not already taken |
| Models.InsertTicket | src/models/ticket.js:10-60 | A faulted write is rejected with its error; an accepted write that breaks no constraint appends the new ticket; unique ticket ids stay unique |
| Models.UserViolation | src/models/users.js:10-66 | A user is accepted iff its required strings are non-empty, its role is in the enum, and neither its id nor its email is already taken |
| Models.InsertUser | src/models/users.js:10-66 | A faulted write is rejected with its error; an accepted write that breaks no constraint appends the new user; unique ids and emails stay unique |
| TicketService.CreateTicket | src/services/ticket/ticket.js:40-59 | A body the schema rejects is a validation error; an owner with 4 or more tickets gets the plain quota error; a store fault is a controller error; a valid body under the quota with an accepted write succeeds iff the new ticket breaks no model constraint, and a violation is a controller error with the store's message; on success the appended ticket is exactly the record the model's defaults build from the body's brand, model and issue, the caller as owner, the assigned id and the write time, and its single-read envelope is returned; an error leaves the store alone |
| TicketService.CreateKeepsQuota | src/services/ticket/ticket.js:48-57 | If no owner holds more than 4 tickets before a creation, none does after it |
| TicketService.QuotaIsPermanent | src/services/ticket/ticket.js:48-52 | A fix does not change any owner's ticket count, so an owner at the quota is still refused after any update |
| TicketService.CreateKeepsIdsUnique | src/models/ticket.js:10-15 | Ticket creation keeps ticket ids unique |
| TicketService.DefaultIdCreateReportsNotFound | src/services/ticket/ticket.js:57-59 | A ticket stored without an assigned id (default 0) grows the store, yet the caller gets the 404 envelope |
| TicketService.UpdateTicket | src/services/ticket/ticket.js:78-103 | A missing id, an unknown id and an already fixed ticket are validation errors; a store fault on an unfixed ticket is a controller error with the fault's message; every error leaves the store alone; otherwise every ticket with the id gets the new `isFixed` and `updatedOn`, the rest is untouched, and the envelope is "Update failed" 400 |
| TicketService.UpdateKeepsIdsUnique | src/services/ticket/ticket.js:94-100 | An update never changes an id, so unique ids stay unique |
| TicketService.UpdateIsOneWay | src/services/ticket/ticket.js:92-100 | With unique ids, a ticket that is already fixed comes out of any update unchanged |
| TicketService.CheckTicket | src/services/ticket/ticket.js:122-134 | A missing id is a validation error; no ticket with both that id and the caller as owner gives the plain "did not register" error; an unfixed match gives "not fixed"; a fixed match gives the single-read envelope of its `isFixed` and `id` |
| TicketService.CheckTicketIsolation | src/services/ticket/ticket.js:127-129 | `checkTicket` answers the same whether it sees the whole store or only the caller's own tickets |
| TicketService.ForeignTicketLooksMissing | src/services/ticket/ticket.js:127-131 | Adding another owner's ticket never changes what the caller is told, so foreign tickets are indistinguishable from missing ones |
| TicketService.FixThenCheck | src/services/ticket/ticket.js:78-134 | For an owner's unfixed ticket with a non-zero id: the check reports "not fixed"; the fix reports "Update failed" 400 but writes `isFixed`; after it the owner's check succeeds with 200 |
| TicketService.CheckUserTickets | src/services/ticket/ticket.js:192-211 | A falsy body email is a validation error; an owner without tickets is a plain error; an owner with tickets gets exactly the 200 envelope whose payload is the `isFixed`/`id` summary of each of their tickets, in store order |
| TicketService.CreatedTicketIsListed | src/services/ticket/ticket.js:192-211 | After a successful creation by an owner, listing that owner's tickets succeeds with 200, and the list is the earlier list with the new ticket's summary appended |
| UserService.CreateUser | src/services/user/user.js:39-55 | A body the schema rejects is a validation error; a store fault, or a violated required, enum or unique constraint, is a controller error with the store's message; otherwise the appended user is exactly the record the model's defaults build from the body, with full name "first last", the hash of the password, the assigned id and the write time, and its single-read envelope is returned; an error leaves the store alone |
| UserService.LoginUser | src/services/user/user.js:82-106 | Missing credentials, an unknown email and a wrong password are three validation errors with three messages and no header; on success the token signs the email as sent with the stored name, id and role, is set as the header, and is added to the returned record |
| UserService.LoginSucceeds | src/services/user/user.js:87-106 | With unique emails, a stored user whose password verifies logs in and gets the token signed for that user |
| UserService.RegisterThenLogin | src/services/user/user.js:39-106 | When the hash verifies its own input, a body the schema accepts, with one of the two roles and a new email and id, registers a user; that user then logs in with the same email and password and receives the token for the stored record |
| UserService.ZeroIdLoginSetsHeaderButNotFound | src/services/user/user.js:103-106 | A user stored with the default id 0 still gets a token header, but the login answers with the 404 envelope |
| AuthGuard.VerifyUser | src/middlewares/validate.js:17-38 | No or empty token fails 401 "You are not logged in"; a rejected token fails 401 with the verifier's message; null claims fail 401 with the TypeError text of reading `email`; the request proceeds iff the decoded claims have a truthy email, carrying exactly that email and role; other claims without an email neither proceed nor fail |
| AuthGuard.CheckIfTech | src/middlewares/validate.js:47-57 | Proceeds iff the attached role is exactly `technician`; otherwise 401 "You are not a technician"; with no identity attached, 401 with the TypeError text of reading `role` |
| AuthGuard.CheckIfClient | src/middlewares/validate.js:67-77 | Proceeds iff the attached role is exactly `client`; otherwise 401 "You are not a client"; with no identity attached, 401 with the TypeError text of reading `role` |
| AuthGuard.RoleGuardsExclusive | src/middlewares/validate.js:47-77 | No identity passes both role guards |
| AuthGuard.IssuedTokenAuthenticates | src/middlewares/validate.js:17-28 | A token from a successful login passes `verifyUser` with the login email, and one of the role guards lets it through: the technician guard iff the role is `technician` |
| ErrorHandling.RespondAsWritten | src/services/ticket/ticket.js:60-66 | As written, a success envelope is returned unchanged, and every raised error makes the catch block itself throw a TypeError |
| ErrorHandling.RespondCorrected | src/services/_root.js:9-23 | With the arguments in order, every raised error is forwarded with 412, 500 or no status according to its kind, and its message ends with the error's own message |
| ErrorHandling.MissingIdReply | src/services/ticket/ticket.js:125 | On a missing ticket id in production, the as-written handler throws while the corrected one forwards "Please supply ticket id" with 412 |
| ErrorHandling.QuotaRefusalHasNoStatus | src/services/ticket/ticket.js:52 | The quota refusal is a plain error, so even the corrected handler forwards it without a status code |

## Left out

- Routing is not modelled. In the ticket router, `GET /:id` is registered before `GET /all`
  (src/routes/ticket.js:26-33). So a request for `/all` reaches `checkTicket` with the id
  `"all"`, and `checkUserTickets` is unreachable through that route. The model exposes both
  operations directly.
- Asynchrony, `next`, `console.log` and Express's response object are not modelled. The
  header a login sets is returned as a field of the result. The event bus is modelled as
  the event that `processUpdateResult` returns.
- Clocks are parameters. The creation and update times come from the store's reply or are
  passed as arguments.
- `buildQuery` is not part of this model. `RootService.HandleDatabaseRead` takes the
  query it builds as an input.
- The controllers' internals are not part of this model:
  - A store fault is an input (`StoreReply` or `fault`).
  - Reads never fail in the model. In the source a failed read returns the controller's
    failure object, which has no `length` and no element 0. A failed read therefore differs
    from an empty one in three services:
    - `createTicket` (src/services/ticket/ticket.js:48-52): `undefined >= 4` is false, so
      the quota check passes and the ticket is created;
    - `checkTicket` (src/services/ticket/ticket.js:131-134): neither guard fires, so the
      caller gets the 404 envelope of `processSingleRead(undefined)` instead of the plain
      "did not register" error;
    - `checkUserTickets` (src/services/ticket/ticket.js:201-202): the failure object reaches
      `processMultipleReadResults`, which answers 404 "Resources not found" instead of the
      plain "has not registered any device" error.
    In `updateTicket` and `loginUser` a failed read behaves like an empty one, because both
    read element 0 first.
  - The cast of a route id to a number is an opaque collaborator.
  - `readRecords` is called in two shapes that the controllers must reconcile. The services
    pass one object `{conditions, fieldsToReturn}` (src/services/ticket/ticket.js:48-50,
    84-86, 127-129, 197-199 and src/services/user/user.js:87). `handleDatabaseRead` passes
    positional arguments (src/services/_root.js:52-59). The controller is not part of this
    model. Every service read assumes that the object's `conditions` become the filter and
    that only those rows are returned. The ticket quota, owner scoping and login properties
    rest on that assumption. `RootService.HandleDatabaseRead` models only the arguments it
    builds.
  - A non-string email in a read condition matches nothing.
  - The store assigns ids, and `None` stands for the schema's default of 0.
  - Reads ignore `isActive` and `isDeleted`, as the services' conditions do.
- Mongoose's validation order is a modelling choice: required fields, then the role enum,
  then the unique indexes. Only which violation is reported depends on it, not whether one
  is. Mongoose's own error text is an opaque collaborator (`describe`).
- Mongoose casting of `body.isFixed` in `updateTicket` is not modelled. The patch value is
  the boolean parameter `fix`.
- Mongoose adds `_id` to projections; the model does not.
- Hashing, password verification and token signing and verification are opaque
  collaborators. The properties the round-trip lemmas need are stated as predicates over
  them (`External.HashVerifies`, `External.TokensDecode`).
- AuthGuard.IssuedTokenAuthenticates: rests on `External.TokensDecode`, which assumes that
  every signed token is non-empty and decodes back to the claims it signed. It also assumes
  that `generateToken({payload})` (src/services/user/user.js:103) signs the claims
  themselves and not a `{payload}` wrapper around them. The token utility is not part of
  this model.
- Joi internals:
  - The e-mail address grammar beyond the segment and TLD checks is an opaque predicate.
  - The password is trimmed before the pattern is matched, as the schema's `trim()` does.
    The stored hash is still computed from the untrimmed password, as in the source.
    Other type conversion is not modelled, so a string `"true"` for `isFixed` is rejected.
  - When several keys are unknown, which one Joi names is left open: the error carries
    the whole set.
  - The text of Joi's built-in messages after `filterJOIValidation` is an opaque
    collaborator.
- `updateUserSchema` is not used by any modelled operation, so it is not modelled.
- `updateTicketSchema` is modelled, but `updateTicket` never applies it, just as in the
  source. So the update accepts any body.
- `checkUserTickets` is defined three times with identical bodies. The last definition
  (src/services/ticket/ticket.js:192-211) is the one that takes effect, and it is the one
  modelled.
- JavaScript numbers are modelled as unbounded integers, so there are no fractions, NaN
  or overflow.
- `JsValues.AtLeastZero`: the loose `>= 0` comparison converts strings to numbers only for
  digit strings. Any other string compares false.
- Concurrency is not modelled. Each operation runs alone against the store, so the race
  in which two concurrent creations both pass the quota read cannot arise.
- The text of a TypeError message follows V8's wording
  ("Cannot read properties of undefined (reading 'message')").
- The model follows the code as written; in particular:
  - The quota refusal is a plain `Error`, so it has no 412 status.
  - The quota counts every ticket of the owner, fixed or not.
  - `checkTicket`'s lookup errors are plain errors.
  - `processMultipleReadResults` answers 404 for a zero count.
  - `updateTicket` wraps the acknowledgement as `{result}`, so it always answers
    "Update failed" 400 even though the write happened.
  - The services call `formatError` with a single object (see Findings).

## Findings

| source | as written | input that shows it | evidently intended | confidence | as-written member | corrected member |
|---|---|---|---|---|---|---|
| src/services/ticket/ticket.js:61-65 (the same call in every catch block of src/services/ticket/ticket.js and src/services/user/user.js) | `formatError({service, error, functionName})` passes one object to a method declared `formatError(serviceName, error, functionName)`. `error` is undefined, so reading `error.message` throws a TypeError inside the catch block, and no error ever gets its 412 or 500 status | `checkTicket` with an empty id, outside development: `ErrorHandling.MissingIdReply` | `formatError(this.serviceName, e, 'checkTicket')`, forwarding "Please supply ticket id" with 412 | high; not executed | ErrorHandling.RespondAsWritten | ErrorHandling.RespondCorrected |

# Canteen backend: services, decorators and HTTP status decisions

This project models the core of a small staff-and-meal-reservation backend
written in Go. The model is in Dafny and its properties are proved. It covers:

- the shared records: `User`, `Reservation`, the meal type and its `String`;
- the sentinel errors and the two repository contracts;
- the reservation and user services, with their update-or-insert policy and
  their error wrapping;
- the login decision and token-claim construction;
- the three logging decorators, which append one log entry per call;
- each HTTP package's `writeError` status mapping, the status paths of its
  handlers, and the `loggingResponseWriter` status state.

Modules follow the Go packages:

- `Pkg` (pkg.dfy): records, errors, meal type.
- `Table` (table.dfy): key queries over an id-to-row map.
- `ReservationRepo` and `UserRepo`: the repositories as in-memory tables.
  - `Store` is the table as a value. Its member functions give the meaning of
    each repository call.
  - `Repository` is the object that owns the table. Each of its methods is
    proved to leave exactly the `Store` its function computes.
  - Every operation kind can be given an injected failure. Without one, the
    table decides, and a missing id answers the not-found sentinel. This way
    every branch of the services can be reached.
- `Reservations`, `Userlist` and `Auth`: the services.
  - The `*Outcome` functions state what each call returns and which table it
    leaves.
  - Each `Service` method is proved equal to its outcome function.
  - The methods of `Repository` and `Service` are the executable
    counterparts of the `Store` and `*Outcome` functions. Each follows the
    same branches step by step, on the object's state.
- `ReservationsLogging`, `UserlistLogging` and `AuthLogging`: the
  decorators. Each is a class with a `log` sequence.
- `Http`: status codes, decoded request bodies and `LoggingResponseWriter`.
- `ReservationsHttp`, `UserlistHttp` and `AuthHttp`: per-package `writeError`,
  the handlers, and the logging middleware's recorded status.

Modelling conventions:

- **Errors.** A Go sentinel made once with `errors.New` is a constructor of
  `Pkg.Error`, compared by identity. An error made on the spot by
  `fmt.Errorf` or `errors.New` is `Fresh(text)`. It equals no sentinel,
  whatever its text.
  - Two fresh errors with the same text are equal in the model, though in
    Go they are distinct values. No code here compares two fresh errors.
  - The reservations and userlist HTTP files each declare their own
    `ErrResourceNotFound`, `ErrMethodNotAllowed` and the type
    `ErrInvalidRequestBody` (pkg/reservations/http.go:63-69,
    pkg/userlist/http.go:52-58). The auth HTTP file declares only
    `ErrResourceNotFound` and the type `ErrInvalidRequestBody`
    (pkg/auth/http.go:41-45). These errors carry the declaring package as
    an `Origin`, since a type switch in one package does not match another
    package's type.
  - `MethodNotAllowed(AuthPkg)` stands for no Go value. The Dafny type
    admits it, but nothing in the model produces it.
- **Time.** Time is an integer number of Unix seconds. `time.Now()` is a
  `now` parameter. Go's zero `time.Time` is `ZeroTime`.
- **Signing.** The JWT signer is an opaque function from claims to a
  string result.

## Notes on the code

- Login has no dedicated error values. A failed lookup returns the
  repository's error unchanged. A wrong password returns a fresh
  `"invalid password"` error.
- `User` has the six fields `pkg/user.go` declares and no active or admin
  flags.
- `pkg/user.go`'s `UserRepository` has no `FindByEmployeeID`, but the login
  service calls one. The model gives the user table that lookup. When
  several rows share an employee id, it answers the one with the lowest id.

## Model

| member | source | states |
|---|---|---|
| Pkg.TypeString | pkg/reservation.go:22-28 | 1, 2, 3 name "breakfast", "lunch", "dinner"; every value below 1 or above 3 gives "" (and the index is always in bounds) |
| Pkg.TypeStringNonEmptyIff | pkg/reservation.go:23-27 | the name is non-empty exactly for the three enumerated values |
| Pkg.TypeStringInjective | pkg/reservation.go:23-27 | no two meal types in range share a name |
| Pkg.SentinelsDistinct | pkg/reservation.go:10-11 | the two reservation sentinels differ as values and as texts, and so do the two user sentinels declared at pkg/user.go:10-11 |
| Pkg.WrapIsNoSentinel | pkg/reservations/service.go:35 | an error built with a context prefix is a fresh error, so it equals none of the sentinels |
| Pkg.Error.Message | pkg/reservations/http.go:71 | a bad-body error's text is "invalid request body: " followed by the decoder's text; a fresh error's text is the one it was built with; every sentinel has a non-empty text |
| Pkg.Wrap | pkg/reservations/service.go:35 | `fmt.Errorf(prefix + "%v", err)`: a fresh error whose text is the prefix followed by the cause's text |
| Pkg.ErrorOf | pkg/reservations/logging.go:31 | the error a `(value, err)` pair carries is absent exactly when the call succeeded, and on failure it is the returned error itself |
| ReservationRepo.Store.Insert | pkg/reservation.go:41 | a successful insert assigns an id not in the table, stores the record under it and changes nothing else; an injected failure changes nothing |
| ReservationRepo.Store.Update | pkg/reservation.go:46 | replaces the row with the record's id; a missing id answers the not-found sentinel and changes nothing |
| ReservationRepo.Store.DeleteByID | pkg/reservation.go:47 | removes the row; a missing id answers the not-found sentinel |
| ReservationRepo.Store.FindByID | pkg/reservation.go:43 | succeeds exactly when the id is present and then answers that row; otherwise the not-found sentinel |
| ReservationRepo.Store.FindAll | pkg/reservation.go:42 | every row and only rows, in ascending id order |
| ReservationRepo.Store.FindByEmployeeID | pkg/reservation.go:44 | exactly the rows of that user, in ascending id order |
| ReservationRepo.Store.FindByDate | pkg/reservation.go:45 | exactly the rows whose reservation time falls on the given day, in ascending id order |
| ReservationRepo.Repository.Insert | pkg/reservation.go:41 | the table after the call and the written-back record are what `Store.Insert` says |
| ReservationRepo.Repository.Update | pkg/reservation.go:46 | the table after the call and the error are what `Store.Update` says |
| ReservationRepo.Repository.DeleteByID | pkg/reservation.go:47 | the table after the call and the error are what `Store.DeleteByID` says |
| UserRepo.Store.Insert | pkg/user.go:24 | a successful insert assigns a fresh id and stores the record under it, nothing else changes; an injected failure changes nothing |
| UserRepo.Store.Update | pkg/user.go:27 | replaces the row with the user's id; a missing id answers the user not-found sentinel |
| UserRepo.Store.DeleteByID | pkg/user.go:28 | removes the row; a missing id answers the user not-found sentinel |
| UserRepo.Store.FindByID | pkg/user.go:26 | succeeds exactly when the id is present; otherwise the user not-found sentinel |
| UserRepo.Store.FindAll | pkg/user.go:25 | every row and only rows, in ascending id order |
| UserRepo.Store.FindByEmployeeID | pkg/auth/service.go:49 | succeeds exactly when some row has that employee id, and answers the stored row with the lowest such id; otherwise the user not-found sentinel |
| UserRepo.Repository.Insert | pkg/user.go:24 | the table after the call and the written-back record are what `Store.Insert` says |
| UserRepo.Repository.Update | pkg/user.go:27 | the table after the call and the error are what `Store.Update` says |
| UserRepo.Repository.DeleteByID | pkg/user.go:28 | the table after the call and the error are what `Store.DeleteByID` says |
| Reservations.SaveOutcome | pkg/reservations/service.go:33-38 | success exactly when the insert succeeds; the result is the input changed only in the assigned id; on failure no record, the table untouched and the text "could not save reservation: " + the repository's text |
| Reservations.ListOutcome | pkg/reservations/service.go:52-58 | the repository's list unchanged, or its failure wrapped as "could not list all reservations: …" |
| Reservations.UpdateOutcome | pkg/reservations/service.go:60-73 | a plain update returns the record, not created; exactly the not-found sentinel inserts the same record and reports created, or fails with "could not create reservation: …"; any other failure inserts nothing and answers "could not update reservation: …" |
| Reservations.RemoveOutcome | pkg/reservations/service.go:75-83 | success gives no error; the not-found sentinel is returned itself; every other failure becomes "could not remove reservation: …", never equal to the sentinel |
| Reservations.SaveThenFindByID | pkg/reservations/service.go:33-41 | after a successful save, looking up the assigned id gives back the input changed only in its id |
| Reservations.UpdateOfMissingIsSave | pkg/reservations/service.go:61-67 | an update of an absent id stores and returns exactly what Save would, and reports created exactly when that insert succeeds |
| Reservations.UpdateOfExistingKeepsID | pkg/reservations/service.go:61-72 | an update of a present id replaces that row, keeps the key set and is not reported as created |
| Reservations.RemoveThenFindByID | pkg/reservations/service.go:75-83 | remove succeeds exactly when the id is present, answers the bare sentinel otherwise, and afterwards the id is not found |
| Reservations.Service.constructor | pkg/reservations/service.go:29-30 | the service holds the given repository |
| Reservations.Service.Save | pkg/reservations/service.go:33-38 | returns and leaves what `SaveOutcome` says |
| Reservations.Service.FindByID | pkg/reservations/service.go:40-42 | the repository's answer, verbatim |
| Reservations.Service.FindByEmployeeID | pkg/reservations/service.go:44-46 | the repository's answer, verbatim |
| Reservations.Service.FindByDate | pkg/reservations/service.go:48-50 | the repository's answer, verbatim |
| Reservations.Service.List | pkg/reservations/service.go:52-58 | returns what `ListOutcome` says |
| Reservations.Service.Update | pkg/reservations/service.go:60-73 | returns and leaves what `UpdateOutcome` says |
| Reservations.Service.Remove | pkg/reservations/service.go:75-83 | returns and leaves what `RemoveOutcome` says |
| Userlist.SaveOutcome | pkg/userlist/service.go:29-36 | the stored user is the input with the default password "password@1234", the creation time `now` and the assigned id, other fields unchanged; on failure no record and "could not save user: …" |
| Userlist.ListOutcome | pkg/userlist/service.go:38-44 | the repository's list unchanged, or "could not list all users: …" |
| Userlist.UpdateOutcome | pkg/userlist/service.go:46-59 | a plain update returns the user, not created; exactly the user not-found sentinel inserts the user as given and reports created, or fails with "could not create user: …"; any other failure answers "could not update user: …" with no insert |
| Userlist.RemoveOutcome | pkg/userlist/service.go:61-69 | success gives no error; the user not-found sentinel is returned itself; other failures become "could not remove user: …" |
| Userlist.UpdateFallbackKeepsGivenPassword | pkg/userlist/service.go:46-53 | the insert fallback keeps the caller's password and creation time, so it stores something other than Save whenever that password is not the default |
| Userlist.SaveThenFindByID | pkg/userlist/service.go:29-36 | a saved user is found again by its id with the default password and creation time `now` |
| Userlist.RemoveThenFindByID | pkg/userlist/service.go:61-69 | remove succeeds exactly when the id is present, answers the bare sentinel otherwise, and afterwards the id is not found |
| Userlist.Service.constructor | pkg/userlist/service.go:25-26 | the service holds the given repository |
| Userlist.Service.Save | pkg/userlist/service.go:29-36 | returns and leaves what `SaveOutcome` says |
| Userlist.Service.List | pkg/userlist/service.go:38-44 | returns what `ListOutcome` says |
| Userlist.Service.Update | pkg/userlist/service.go:46-59 | returns and leaves what `UpdateOutcome` says |
| Userlist.Service.Remove | pkg/userlist/service.go:61-69 | returns and leaves what `RemoveOutcome` says |
| Auth.TokenClaims | pkg/auth/service.go:77-89 | the claims copy id, name, designation, employee id and creation time from the user and expire one hour after issue |
| Auth.CreateToken | pkg/auth/service.go:75-100 | the token is the signer's answer over exactly those claims; a signing failure is returned as it is |
| Auth.ClaimsOfUser | pkg/auth/service.go:14-21 | the password has no influence on the claims or on the token |
| Auth.LoginOutcome | pkg/auth/service.go:48-68 | success exactly when the lookup succeeds, the passwords are exactly equal and signing succeeds; a failed lookup or signing returns that error unchanged; a wrong password answers "invalid password"; on success the stored user unchanged with the token signed over its claims |
| Auth.Service.constructor | pkg/auth/service.go:44-45 | the service holds the given user repository |
| Auth.Service.Login | pkg/auth/service.go:48-68 | returns what `LoginOutcome` says, without changing the table |
| Auth.Service.Logout | pkg/auth/service.go:70-73 | succeeds for every token |
| ReservationsLogging.SaveEntry | pkg/reservations/logging.go:22-26 | the save entry has keys method, user_id, err and records the returned error; its method field is "save" |
| ReservationsLogging.ListEntry | pkg/reservations/logging.go:33-36 | the list entry has keys method, err only; its method field is "list" |
| ReservationsLogging.RemoveEntry | pkg/reservations/logging.go:43-47 | the remove entry has keys method, id, err; its method field is "remove" |
| ReservationsLogging.UpdateEntry | pkg/reservations/logging.go:54-58 | the update entry has keys method, user_id, err; its method field is "update" |
| ReservationsLogging.LoggingMiddleware.constructor | pkg/reservations/logging.go:11-12 | the decorator wraps the given service and starts with an empty log |
| ReservationsLogging.LoggingMiddleware.Save | pkg/reservations/logging.go:20-29 | returns and leaves exactly what the inner Save does, and appends exactly one entry recording the returned error |
| ReservationsLogging.LoggingMiddleware.List | pkg/reservations/logging.go:31-39 | returns the inner List's result and appends exactly one entry |
| ReservationsLogging.LoggingMiddleware.Remove | pkg/reservations/logging.go:41-50 | returns and leaves what the inner Remove does and appends one entry with the id |
| ReservationsLogging.LoggingMiddleware.Update | pkg/reservations/logging.go:52-61 | returns and leaves what the inner Update does and appends one entry with the user id |
| ReservationsLogging.LoggingMiddleware.FindByID | pkg/reservations/logging.go:15-18 | not overridden: the inner answer, no entry written |
| ReservationsLogging.LoggingMiddleware.FindByEmployeeID | pkg/reservations/logging.go:15-18 | not overridden: the inner answer, no entry written |
| ReservationsLogging.LoggingMiddleware.FindByDate | pkg/reservations/logging.go:15-18 | not overridden: the inner answer, no entry written |
| UserlistLogging.SaveEntry | pkg/userlist/logging.go:22-26 | the save entry has keys method, name, err and records the user's name; its method field is "save" |
| UserlistLogging.ListEntry | pkg/userlist/logging.go:33-36 | the list entry has keys method, err only; its method field is "list" |
| UserlistLogging.RemoveEntry | pkg/userlist/logging.go:43-47 | the remove entry has keys method, id, err; its method field is "remove" |
| UserlistLogging.UpdateEntry | pkg/userlist/logging.go:54-58 | the update entry has keys method, name, err and records the user's name; its method field is "update" |
| UserlistLogging.EntriesOmitPassword | pkg/userlist/logging.go:24 | the save and update entries do not depend on the password (or any field but the name) |
| UserlistLogging.LoggingMiddleware.constructor | pkg/userlist/logging.go:11-12 | the decorator wraps the given service and starts with an empty log |
| UserlistLogging.LoggingMiddleware.Save | pkg/userlist/logging.go:20-29 | returns and leaves what the inner Save does and appends exactly one entry |
| UserlistLogging.LoggingMiddleware.List | pkg/userlist/logging.go:31-39 | returns the inner List's result and appends exactly one entry |
| UserlistLogging.LoggingMiddleware.Remove | pkg/userlist/logging.go:41-50 | returns and leaves what the inner Remove does and appends exactly one entry |
| UserlistLogging.LoggingMiddleware.Update | pkg/userlist/logging.go:52-61 | returns and leaves what the inner Update does and appends exactly one entry |
| AuthLogging.LoginEntry | pkg/auth/logging.go:21-25 | the login entry has keys method, employee_id, err and records the requested employee id; its method field is "login" |
| AuthLogging.LogoutEntry | pkg/auth/logging.go:33-36 | the logout entry has keys method, err: no token; its method field is "logout" |
| AuthLogging.LoginEntryOmitsPassword | pkg/auth/logging.go:23 | the login entry does not depend on the password sent |
| AuthLogging.LoggingMiddleware.constructor | pkg/auth/logging.go:10-11 | the decorator wraps the given service and starts with an empty log |
| AuthLogging.LoggingMiddleware.Login | pkg/auth/logging.go:19-29 | returns the inner Login's result and appends exactly one entry recording its error |
| AuthLogging.LoggingMiddleware.Logout | pkg/auth/logging.go:31-40 | succeeds and appends exactly one entry recording no error |
| Http.LoggingResponseWriter.constructor | pkg/reservations/http.go:323 | a fresh writer records status 200 and no error body |
| Http.LoggingResponseWriter.WriteHeader | pkg/reservations/http.go:314-317 | records the code as the latest status and changes nothing else |
| Http.LoggingResponseWriter.EncodeError | pkg/reservations/http.go:306 | writes the error object's text and leaves the status alone |
| ReservationsHttp.ErrorStatus | pkg/reservations/http.go:286-307 | 404 exactly for the resource and reservation not-found errors, 409 exactly for already-exists, 400 exactly for a non-numeric id or this package's invalid body, 405 exactly for method-not-allowed, 500 for everything else |
| ReservationsHttp.WrappedErrorsAre500 | pkg/reservations/http.go:298-304 | every wrapped service error answers 500, and so does every other package's error: the user sentinels, userlist's and auth's not-found and method errors, and their invalid-body errors whatever the text |
| ReservationsHttp.SaveRecord | pkg/reservations/http.go:100 | the save handler passes the body's user id, time, type and guest count, with no id, an empty name and a zero creation time |
| ReservationsHttp.UpdateRecord | pkg/reservations/http.go:271 | the update handler passes the path id as the record id, with the body's user id, time, type and guest count |
| ReservationsHttp.SaveStatus | pkg/reservations/http.go:77-108 | an undecodable body gives 400; otherwise 200 exactly when the insert succeeds and 500 exactly when it fails |
| ReservationsHttp.RemoveStatus | pkg/reservations/http.go:227-241 | a non-numeric id gives 400; otherwise 204 exactly when removal succeeds, 404 for an absent id, 500 for a wrapped repository failure |
| ReservationsHttp.UpdateStatus | pkg/reservations/http.go:243-284 | a non-numeric id or an undecodable body gives 400; otherwise 201 exactly when created, 200 exactly on a plain update, 500 exactly on a service error; never 404 |
| ReservationsHttp.UpdateCreatesOrReplaces | pkg/reservations/http.go:259-278 | updating an absent path id answers 201; updating a present one answers 200 and stores the request under that id |
| ReservationsHttp.Server.constructor | pkg/reservations/http.go:16-17 | the server holds the given service |
| ReservationsHttp.Server.WriteError | pkg/reservations/http.go:286-307 | the writer's status is `ErrorStatus` of the error and its body the error's text |
| ReservationsHttp.Server.NotFound | pkg/reservations/http.go:53 | an unmatched route answers 404 "resource not found" |
| ReservationsHttp.Server.HandleSave | pkg/reservations/http.go:93-107 | an undecodable body answers 400 through writeError; a service error goes through writeError; success writes no status |
| ReservationsHttp.Server.HandleRemove | pkg/reservations/http.go:227-241 | a non-numeric id answers 400 without calling the service; a service error goes through writeError; success writes 204 |
| ReservationsHttp.Server.HandleUpdate | pkg/reservations/http.go:243-284 | a non-numeric id answers 400 before the body is considered; an undecodable body 400; the path id becomes the record id; created writes 201, a plain update leaves the status as it was |
| ReservationsHttp.Server.ServeSave | pkg/reservations/http.go:319-334 | the status the logging middleware records is `SaveStatus` |
| ReservationsHttp.Server.ServeRemove | pkg/reservations/http.go:319-334 | the status the logging middleware records is `RemoveStatus` |
| ReservationsHttp.Server.ServeUpdate | pkg/reservations/http.go:319-334 | the status the logging middleware records is `UpdateStatus` |
| UserlistHttp.ErrorStatus | pkg/userlist/http.go:182-203 | 404 exactly for the resource and user not-found errors, 409 exactly for already-exists, 400 exactly for a non-numeric id or this package's invalid body, 405 exactly for method-not-allowed, 500 for everything else |
| UserlistHttp.WrappedErrorsAre500 | pkg/userlist/http.go:194-200 | every wrapped service error answers 500, and so does every other package's error: the reservation sentinels, reservations' and auth's not-found and method errors, and their invalid-body errors whatever the text |
| UserlistHttp.SaveRecord | pkg/userlist/http.go:88 | the save handler passes the body's name, designation and employee id, with no id, an empty password and a zero creation time |
| UserlistHttp.UpdateRecord | pkg/userlist/http.go:167 | the update handler passes the path id and the body's name, password, designation and employee id |
| UserlistHttp.SaveIgnoresBodyPassword | pkg/userlist/http.go:88 | the password sent to the save endpoint has no influence on what is stored, which carries the default password |
| UserlistHttp.UpdateStoresBodyPassword | pkg/userlist/http.go:167 | the password sent to the update endpoint is stored as sent, under the path id when that id exists |
| UserlistHttp.SaveStatus | pkg/userlist/http.go:66-96 | an undecodable body gives 400; otherwise 200 exactly when the insert succeeds and 500 exactly when it fails |
| UserlistHttp.RemoveStatus | pkg/userlist/http.go:124-138 | a non-numeric id gives 400; otherwise 204 exactly when removal succeeds, 404 for an absent id, 500 for a wrapped failure |
| UserlistHttp.UpdateStatus | pkg/userlist/http.go:140-180 | a non-numeric id or undecodable body gives 400; otherwise 201 exactly when created, 200 on a plain update, 500 on a service error; never 404 |
| UserlistHttp.Server.constructor | pkg/userlist/http.go:16-17 | the server holds the given service |
| UserlistHttp.Server.WriteError | pkg/userlist/http.go:182-203 | the writer's status is `ErrorStatus` of the error and its body the error's text |
| UserlistHttp.Server.NotFound | pkg/userlist/http.go:42 | an unmatched route answers 404 "resource not found" |
| UserlistHttp.Server.HandleSave | pkg/userlist/http.go:81-95 | an undecodable body answers 400; the service receives the user without the body's password; a service error goes through writeError; success writes no status |
| UserlistHttp.Server.HandleRemove | pkg/userlist/http.go:124-138 | a non-numeric id answers 400 without calling the service; success writes 204 |
| UserlistHttp.Server.HandleUpdate | pkg/userlist/http.go:140-180 | a non-numeric id answers 400 first; the path id and the body password reach the service; created writes 201, a plain update leaves the status |
| UserlistHttp.Server.ServeSave | pkg/userlist/http.go:215-230 | the status the logging middleware records is `SaveStatus` |
| UserlistHttp.Server.ServeRemove | pkg/userlist/http.go:215-230 | the status the logging middleware records is `RemoveStatus` |
| UserlistHttp.Server.ServeUpdate | pkg/userlist/http.go:215-230 | the status the logging middleware records is `UpdateStatus` |
| AuthHttp.ErrorStatus | pkg/auth/http.go:107-121 | 400 exactly for this package's invalid body, 500 for every other error |
| AuthHttp.LoginStatus | pkg/auth/http.go:66-81 | an undecodable body gives 400; otherwise 200 exactly when login succeeds and 401 exactly when it fails |
| AuthHttp.FailedLoginsLookAlike | pkg/auth/http.go:74-78 | an unknown employee id and a wrong password both answer 401 |
| AuthHttp.LogoutStatus | pkg/auth/http.go:89-104 | 400 exactly for an undecodable body, 200 otherwise |
| AuthHttp.Server.constructor | pkg/auth/http.go:14-15 | the server holds the given service |
| AuthHttp.Server.WriteError | pkg/auth/http.go:107-121 | the writer's status is `ErrorStatus` of the error and its body the error's text |
| AuthHttp.Server.NotFound | pkg/auth/http.go:30 | an unmatched auth route answers 500, not 404 |
| AuthHttp.Server.HandleLogin | pkg/auth/http.go:66-81 | an undecodable body answers 400 through writeError; any login error writes 401 with no error body; success leaves the status |
| AuthHttp.Server.HandleLogout | pkg/auth/http.go:84-105 | an undecodable body answers 400; otherwise the status is 200 |
| AuthHttp.Server.ServeLogin | pkg/auth/http.go:133-148 | the status the logging middleware records is `LoginStatus` |
| AuthHttp.Server.ServeLogout | pkg/auth/http.go:133-148 | the status the logging middleware records is `LogoutStatus` |

`loggingResponseWriter`, its constructor call in the logging middleware, and
the status it records are modelled once in `Http`. The same code also
appears at pkg/userlist/http.go:205-213, 219 and pkg/auth/http.go:123-131, 137.

## Left out

- The MySQL repositories (pkg/mysql/*.go) are not part of this model. The generated query package and `database/sql` that they wrap are outside this model.
  - The repositories are instead in-memory tables with injected failures.
  - Nothing in pkg/mysql translates SQL errors into the sentinels, so the model does not claim the upsert fallback is reachable against MySQL.
  - The `FindAll` stub that answers nil, nil (pkg/mysql/reservation.go:30-32) is not modelled.
  - The partial updates that write only `NoOfGuests` or `Password` are not modelled either; `Update` replaces the whole row.
- ReservationRepo.Store.FindByDate: a day is taken as Unix seconds divided by 86400, that is, a UTC calendar day. The query itself lives in the MySQL layer, and this model does not include it.
- JWT encoding, HS256 signing and the hard-coded key (pkg/auth/service.go:12, 92-93) are foreign library code. The signer is an opaque function of the claims that may fail. `jwt.StandardClaims` is reduced to its expiry.
- The clock, `time.Since` and date parsing are I/O. The clock is a `now` parameter. Log durations ("took") are not recorded.
- JSON decoding and encoding of request bodies are modelled only as `Decoded`/`Undecodable` inputs. Path-parameter parsing becomes an `Option<int>`.
  - Success response bodies are not modelled, and neither is the `Content-Type` header.
- The list and get handlers are not modelled: handleListReservations, handleGetReservation, handleGetReservationByID and handleListUsers. The list handlers call `List` and copy the rows into response records. handleGetReservation parses a date and a user id, and handleGetReservationByID parses a user id and calls `FindByEmployeeID`, before calling a service query. The service queries they call are modelled.
- The `way` router and route registration are outside this model, including the wiring slip at pkg/userlist/http.go:29. That line stores the logged remove handler in `handleListUsers`.
- The HTTP logging middleware's log line is not modelled beyond the status it records. Its operation, method and path fields are request metadata.
- `context.Context` and the go-kit logger backend are left out. The log is a sequence of entries, not output.
- `int64` overflow of ids and counters is not modelled; integers are unbounded. `ReservationType` is a plain `int`, as in Go.
- Decorator composition through the `Service` interface is not modelled.
  - Each logging decorator holds the concrete service of its package.
  - Each HTTP server holds the undecorated service.
- cmd/main.go is not part of this model: it holds bootstrap code, configuration, signal handling and CORS.

# Observer user and product API, modelled in Dafny

This project models the core of a small ASP.NET Core CRUD API. The API has two versions:

- **Observer/** is the current version. The `UserController` and `ProductController` actions write one structured log record per request, through the SingleLog library. That record holds:
  - the request and the response;
  - a level (INFO, WARN, ERROR);
  - a list of timed steps, each with a sub-log that can hold a caught exception.

  Each layer appends a step of its own to the record: the controller, `UserServices` and `UserRepository`.
- **Oberserver/** is the earlier version. It has the same user controller, services and repository, without the logging.

The model covers:

- **The request records and their validation:**
  - `UserRequest.IsValid` is an ordered chain of five rules;
  - `ProductRequest.IsValid` is a stub that returns null.
- **The entities and envelopes:** `Users`, `Products`, `UsersEnvelope`, `ProductsEnvelope`, `UserResponse`, `ResponseEnvelope`, `ResponseOk` and `ResponseError`.
- **The fixed error tables.**
- **The repositories, as classes over a disposable SQL Server context.** Each method's result is a function of the database outcome, the `DbResult` type: connection failed, query failed, or done with a value.
- **The services:** they map repository results to responses.
- **The controllers:**
  - each version's user controller;
  - the product controller.
- **The Swagger schema filter `IgnoreNullValuesSchemaFilter`.**

In the current version, every layer is a class whose methods update the shared log record in place. A method's `ensures` gives its result as a function of its inputs, and states how the log changed. That function is in turn proved to have the properties the source promises. The earlier version's decision logic is stated once, as pure functions in `LegacyController`. The current controller is proved to return exactly what those functions return, on the outcome that the current services compute.

## Model

| member | source | states |
|---|---|---|
| Http.StatusCode | Observer/Controllers/UserController.cs:63 | the client gets exactly the given status and body |
| Http.Ok | Observer/Controllers/UserController.cs:251 | status 200, whatever code the body carries |
| Http.HttpStatusCode.Code | Observer/Controllers/UserController.cs:63 | `(int)code`: the numeric value of each status, always between 100 and 599 |
| Http.CodeInjective | Observer/Controllers/UserController.cs:63 | two statuses have the same number exactly when they are the same status, so the cast loses nothing |
| Wrappers.Exception.Message | Observer/Data/UserRepository.cs:45 | the Message the repositories compare: .NET's texts for a null argument and a null reference, the given text otherwise |
| Database.IsNoElements | Observer/Data/UserRepository.cs:45 | an exception is "not found" exactly when its Message equals "Sequence contains no elements" |
| Database.SqlServerContext.DisposeAsync | Observer/Data/Context/SqlServerContext.cs:28-37 | one more disposal and nothing else changes |
| Database.NoElementsIsRaised | Observer/Data/UserRepository.cs:45 | the repositories' message test recognises exactly the raised "Sequence contains no elements" exception, never a null-argument or null-reference one |
| DomainResponses.ResponseOk | Observer/Domain/ResponsesEnvelope/ResponseOk.cs:11-15 | success, the given data and the given details |
| DomainResponses.ResponseOkData | Observer/Domain/ResponsesEnvelope/ResponseOk.cs:17-20 | success, the given data, Details left null |
| DomainResponses.ResponseError | Observer/Domain/ResponsesEnvelope/ResponseError.cs:11-15 | failure, the given data and the given details |
| DomainResponses.ResponseErrorData | Observer/Domain/ResponsesEnvelope/ResponseError.cs:17-20 | failure, the given data, Details left null |
| Responses.NewUserResponse | Observer/Presentation/Models/Responses/UserResponse.cs:33-38 | code, details and data are the arguments |
| Responses.UserResponseWithDetails | Observer/Presentation/Models/Responses/UserResponse.cs:45-49 | code and details set, Data null |
| Responses.UserResponseWithCode | Observer/Presentation/Models/Responses/UserResponse.cs:55-58 | Details keeps its initial empty string, Data null |
| Responses.UserResponseConstructorsAgree | Observer/Presentation/Models/Responses/UserResponse.cs:33-58 | the three constructors differ only in the fields they leave at their defaults |
| Responses.NewResponseEnvelope | Observer/Presentation/Models/Responses/ResponseEnvelope.cs:33-38 | code, details and data are the arguments |
| Responses.EnvelopeWithDetails | Observer/Presentation/Models/Responses/ResponseEnvelope.cs:45-49 | code and details set, Data null |
| Responses.EnvelopeWithCode | Observer/Presentation/Models/Responses/ResponseEnvelope.cs:55-58 | Details empty, Data null |
| Responses.EnvelopeConstructorsAgree | Observer/Presentation/Models/Responses/ResponseEnvelope.cs:33-58 | the three constructors differ only in the fields they leave at their defaults |
| UserResponseErrors.UserValidationErrorMessage | Observer/Constants/UserResponseErrors.cs:8 | 400, the given message, no data |
| UserResponseErrors.FixedUserErrors | Observer/Constants/UserResponseErrors.cs:10-13 | CreateUserError 500, UserNotFound 404, InternalServerError 500 and InvalidUserId 400, the last two with their messages; none carries data |
| PresentationUserErrors.UserValidationErrorMessage | Observer/Presentation/Errors/UserResponseErrors.cs:8 | 400 envelope with the given message, no data |
| PresentationUserErrors.MirrorsConstantsTable | Observer/Presentation/Errors/UserResponseErrors.cs:8-13 | every entry has the same code and message as the entry of the same name in the Observer.Constants table |
| ProductResponseErrors.ProductValidationErrorMessage | Observer/Presentation/Errors/ProductResponseErrors.cs:11 | 400 envelope with the given message, no data |
| ProductResponseErrors.FixedProductErrors | Observer/Presentation/Errors/ProductResponseErrors.cs:13-16 | CreateUserError 500, UserNotFound 404, InternalServerError 500 and InvalidProductId 400, the first and the last with their messages; none carries data |
| UserRequests.IsValid | Observer/Presentation/Models/Requests/UserRequest.cs:63-83 | never carries data; the code is Continue or BadRequest; Continue only as `new UserResponse(Continue)` |
| Text.Utf16Length | Observer/Presentation/Models/Requests/UserRequest.cs:65-79 | `string.Length`: at least one code unit per character and at most two, and exactly one per character when no character lies beyond the Basic Multilingual Plane |
| UserRequests.NameFails | Observer/Presentation/Models/Requests/UserRequest.cs:65 | the name and last-name rule: null, empty, or at most 2 UTF-16 code units |
| UserRequests.BirthdateFails | Observer/Presentation/Models/Requests/UserRequest.cs:71 | the birthdate rule: later than 18 years before now, or earlier than 100 years before now |
| UserRequests.LoginFails | Observer/Presentation/Models/Requests/UserRequest.cs:74 | the login rule: null, empty, or fewer than 4 UTF-16 code units |
| UserRequests.PasswordPatternMatches | Observer/Presentation/Models/Requests/UserRequest.cs:77 | the .NET pattern matches: the string, less one final line feed, is one line of at least 8 code units holding an upper-case letter, a lower-case letter, a digit and one of #?!@$%^&*- |
| UserRequests.PasswordFails | Observer/Presentation/Models/Requests/UserRequest.cs:79 | the password rule as written: null or empty, or shorter than 8 code units and not matching the pattern |
| Dates.Before | Observer/Presentation/Models/Requests/UserRequest.cs:71 | `a < b` on DateTime: the lexicographic order of year, month, day and time of day |
| Dates.After | Observer/Presentation/Models/Requests/UserRequest.cs:71 | `a > b` on DateTime |
| Dates.AddYears | Observer/Presentation/Models/Requests/UserRequest.cs:71 | `DateTime.AddYears(n)`: the year moves by n, and month, day and time of day stay |
| Dates.BeforeTotal | Observer/Presentation/Models/Requests/UserRequest.cs:71 | the DateTime order is strict and total |
| Dates.AddYearsKeepsOrder | Observer/Presentation/Models/Requests/UserRequest.cs:71 | moving both dates by the same number of years keeps their order |
| Dates.FurtherBackIsBefore | Observer/Presentation/Models/Requests/UserRequest.cs:71 | a moment more years back is earlier, so the two bounds of the birthdate rule are ordered |
| UserRequests.FirstFailure | Observer/Presentation/Models/Requests/UserRequest.cs:65-80 | none exactly when no rule fails; otherwise a failing rule before which every rule passes |
| UserRequests.IsValidReportsFirstFailure | Observer/Presentation/Models/Requests/UserRequest.cs:65-82 | IsValid answers with the message of the first failing rule in the order name, last name, birthdate, login, password, and with Continue when none fails |
| UserRequests.IsValidOutcomes | Observer/Presentation/Models/Requests/UserRequest.cs:65-82 | Continue exactly when no rule fails, and then with empty details; otherwise the details are the message of a failing rule |
| UserRequests.NameRuleDecides | Observer/Presentation/Models/Requests/UserRequest.cs:65-66 | a bad name decides the answer whatever the other fields hold; 3 UTF-16 code units pass and 2 fail, so a name of two characters beyond the Basic Multilingual Plane passes |
| UserRequests.NonBmpCountsTwice | Observer/Presentation/Models/Requests/UserRequest.cs:65-80 | two emoji (4 code units) make a valid name and login; "Ab1!" and two emoji (8 code units) a long enough password; one emoji is too short a name |
| UserRequests.BirthdateBoundsInclusive | Observer/Presentation/Models/Requests/UserRequest.cs:71-72 | exactly 18 and exactly 100 years back are both accepted |
| UserRequests.FourCharacterLoginAccepted | Observer/Presentation/Models/Requests/UserRequest.cs:74-75 | a login of 4 code units passes although the message asks for at least 5 |
| UserRequests.PatternNeedsEightCharacters | Observer/Presentation/Models/Requests/UserRequest.cs:77 | no string shorter than 8 code units matches the password pattern |
| UserRequests.PasswordRuleIsLengthOnly | Observer/Presentation/Models/Requests/UserRequest.cs:77-80 | the password rule fails exactly when the password is null or shorter than 8 code units; the pattern never decides |
| UserRequests.ComplexityNotEnforced | Observer/Presentation/Models/Requests/UserRequest.cs:79 | "D3f4u1t0" fails the pattern (no special character) and still passes the rule |
| UserRequests.FixturesAnswerAsTested | ObserverTest/Data/FakeData.cs:10-26 | the test fixtures get Continue or the message of the rule each one breaks |
| ProductRequests.NewProductRequest | Observer/Presentation/Models/Requests/ProductRequest.cs:13-20 | a null category becomes "None", a given one is kept; the other fields are copied |
| ProductRequests.IsValid | Observer/Presentation/Models/Requests/ProductRequest.cs:22-25 | always null |
| UserEntity.NewUser | Observer/Data/Entities/Users.cs:29-39 | Id 0, the request's fields, both timestamps `now` |
| UserEntity.UserWithId | Observer/Data/Entities/Users.cs:46-57 | Id is the given one, the request's fields, both timestamps `now` |
| UserEntity.ConstructorsDifferOnlyInId | Observer/Data/Entities/Users.cs:29-57 | the two constructors differ only in Id, and agree exactly when the given Id is 0 |
| ProductEntity.NewProduct | Observer/Data/Entities/Products.cs:28-37 | Id 0, the request's fields, both timestamps `now` |
| ProductEntity.ProductWithId | Observer/Data/Entities/Products.cs:44-54 | Id is the given one, the request's fields, both timestamps `now` |
| ProductEntity.ConstructorsDifferOnlyInId | Observer/Data/Entities/Products.cs:28-54 | the two constructors differ only in Id |
| UsersEnvelopes.EnvelopeOf | Observer/Presentation/Models/Responses/UsersEnvelope.cs:28-38 | shows every field of the user but the password, with the user's Id |
| UsersEnvelopes.EnvelopeWithId | Observer/Presentation/Models/Responses/UsersEnvelope.cs:45-55 | the same fields, with the given Id |
| UsersEnvelopes.EnvelopeOfWithId | Observer/Presentation/Models/Responses/UsersEnvelope.cs:28-55 | building with an Id equals building from the user carrying that Id |
| ProductsEnvelopes.FromProduct | Observer/Presentation/Models/Responses/ProductsEnvelope.cs:23-33 | shows all eight fields of the product |
| ProductsEnvelopes.FromProductWithId | Observer/Presentation/Models/Responses/ProductsEnvelope.cs:40-50 | the same fields, with the given Id |
| ProductsEnvelopes.ConstructorsDifferOnlyInId | Observer/Presentation/Models/Responses/ProductsEnvelope.cs:23-50 | the two constructors differ only in Id |
| Text.NatToString | Observer/Domain/Services/UserServices.cs:95 | at least one decimal digit, no leading zero |
| Text.IntToString | Observer/Domain/Services/UserServices.cs:95 | a leading '-' exactly for negative ids |
| Text.NatToStringRoundTrip | Observer/Domain/Services/UserServices.cs:95 | reading the digits back gives the number |
| Text.IntToStringInjective | Observer/Domain/Services/UserServices.cs:95 | distinct ids give distinct deletion messages |
| Text.NatToStringInjective | Observer/Domain/Services/UserServices.cs:95 | distinct naturals give distinct digit strings |
| Logging.SubLog.StopwatchStart | Observer/Controllers/UserController.cs:53 | one more start, nothing else changes |
| Logging.SubLog.StopwatchStop | Observer/Controllers/UserController.cs:85 | one more stop, nothing else changes |
| Logging.BaseLog.AddStep | Observer/Controllers/UserController.cs:51 | the step is appended; request, response and level unchanged |
| Logging.SingleLog.CreateBaseLog | Observer/Controllers/UserController.cs:47 | a new empty base log, bound to the request |
| Logging.SingleLog.GetBaseLog | Observer/Data/UserRepository.cs:26 | the base log of the current request |
| Logging.SingleLog.WriteLog | Observer/Controllers/UserController.cs:87 | the base log is appended to the written logs |
| Logging.BeginRequest | Observer/Controllers/UserController.cs:47-53 | a fresh base log with the request recorded and a single step, the action's, whose timer is running |
| Logging.EndRequest | Observer/Controllers/UserController.cs:73-88 | the caught exception goes to the action's sub-log, the response and level to the base log; the timer stops once and the log is written once |
| Repository.AffectedRows | Observer/Data/UserRepository.cs:37-48 | success with Data (n > 0) for n affected rows; failure with Data false and "No data found." on "no elements"; any other exception propagates |
| Repository.Selected | Observer/Data/UserRepository.cs:96-105 | success with the row; failure with null data on "no elements"; any other exception propagates |
| Repository.Inserted | Observer/Data/UserRepository.cs:71-73 | every failure propagates; on success, the generated identity replaces the Id of the inserted data |
| Repository.DeleteCaptures | Observer/Data/UserRepository.cs:41-43 | DeleteUser's sub-log holds exactly the exceptions it catches |
| Repository.UserRepository.DeleteUser | Observer/Data/UserRepository.cs:24-56 | result per AffectedRows; one timed database step appended, holding the caught exception; the context is disposed once |
| Repository.UserRepository.InsertUser | Observer/Data/UserRepository.cs:58-81 | result per Inserted; one timed step appended; disposed once, on failure too |
| Repository.UserRepository.SelectUser | Observer/Data/UserRepository.cs:83-113 | result per Selected; one timed step appended, with no exception recorded; disposed once |
| Repository.UserRepository.UpdateUser | Observer/Data/UserRepository.cs:115-145 | result per AffectedRows; one timed step appended, with no exception recorded; disposed once |
| LegacyRepository.AffectedRows | Oberserver/Data/UserRepository.cs:19-41 | n > 0 for n affected rows; false on a query's "no elements"; a failed connection or any other exception propagates |
| LegacyRepository.Selected | Oberserver/Data/UserRepository.cs:61-83 | the row; null on a query's "no elements"; anything else propagates |
| LegacyRepository.FirstOrDefault | Oberserver/Data/UserRepository.cs:53 | the first identity, or 0 when there is none |
| LegacyRepository.Inserted | Oberserver/Data/UserRepository.cs:43-59 | the envelope of the inserted data, with the first returned identity (or 0) as its Id; failures propagate |
| LegacyRepository.Disposals | Oberserver/Data/UserRepository.cs:21-40 | the context is disposed exactly when the connection was obtained |
| LegacyRepository.AffectedRowsAgreeAfterConnecting | Oberserver/Data/UserRepository.cs:19-41 | past the connection, the result is the Data of the current version's result; a failed connection propagates even "no elements" |
| LegacyRepository.SelectedAgreesAfterConnecting | Oberserver/Data/UserRepository.cs:61-83 | past the connection, the result is the Data of the current version's result |
| LegacyRepository.InsertedAgrees | Oberserver/Data/UserRepository.cs:43-59 | with one generated identity, both versions report the inserted data under that identity |
| LegacyRepository.LegacyUserRepository.DeleteUser | Oberserver/Data/UserRepository.cs:19-41 | result per AffectedRows; disposed once past the connection |
| LegacyRepository.LegacyUserRepository.InsertUser | Oberserver/Data/UserRepository.cs:43-59 | result per Inserted; disposed once past the connection |
| LegacyRepository.LegacyUserRepository.SelectUser | Oberserver/Data/UserRepository.cs:61-83 | result per Selected; disposed once past the connection |
| LegacyRepository.LegacyUserRepository.UpdateUser | Oberserver/Data/UserRepository.cs:85-107 | result per AffectedRows; disposed once past the connection |
| Services.CreateResponse | Observer/Domain/Services/UserServices.cs:44-47 | CreateUserError exactly when a user with a non-positive Id came back; otherwise 201 naming the user |
| Services.RetrieveResponse | Observer/Domain/Services/UserServices.cs:67-72 | UserNotFound exactly when no row came back; otherwise 200 with the row's payload |
| Services.DeleteResponse | Observer/Domain/Services/UserServices.cs:92-95 | UserNotFound exactly when nothing was deleted; otherwise 200 naming the id |
| Services.UpdateResponse | Observer/Domain/Services/UserServices.cs:117-120 | UserNotFound exactly when nothing was updated; otherwise 200 with the entity sent |
| Services.Interpolated | Observer/Domain/Services/UserServices.cs:47 | `{user.Name}`: a null name renders as nothing, any other as itself |
| Services.CreatedMessage | Observer/Domain/Services/UserServices.cs:47 | the creation message, naming the user |
| Services.DeletedMessage | Observer/Domain/Services/UserServices.cs:95 | the deletion message, naming the id in decimal |
| Services.UpdatedMessage | Observer/Domain/Services/UserServices.cs:120 | the update message, naming the user |
| Services.DeletedMessageNamesTheId | Observer/Domain/Services/UserServices.cs:95 | two deletion messages are equal only for the same id |
| Services.CreateOutcome | Observer/Domain/Services/UserServices.cs:30-53 | throws exactly when the insert fails; a non-positive identity gives CreateUserError; otherwise 201 with the generated Id |
| Services.RetrieveOutcome | Observer/Domain/Services/UserServices.cs:55-78 | throws exactly on a failure other than "no elements"; "no elements" gives UserNotFound; a row gives 200 with its envelope |
| Services.DeleteOutcome | Observer/Domain/Services/UserServices.cs:80-101 | throws exactly on a failure other than "no elements"; not found exactly on zero rows or "no elements" |
| Services.UpdateOutcome | Observer/Domain/Services/UserServices.cs:103-126 | as DeleteOutcome, and a success carries the user under the requested id |
| Services.CreatedPayloadCarriesGeneratedId | Observer/Domain/Services/UserServices.cs:40-47 | a created user's payload carries the identity the database generated |
| Services.ResponseCodes | Observer/Domain/Services/UserServices.cs:44-120 | create answers 201 or 500; retrieve, delete and update answer 200 or 404 |
| Services.UserServices.CreateUser | Observer/Domain/Services/UserServices.cs:30-53 | result per CreateOutcome; the service step and then the database step are appended, both timed |
| Services.UserServices.RetrieveUser | Observer/Domain/Services/UserServices.cs:55-78 | result per RetrieveOutcome; service and database steps appended, both timed |
| Services.UserServices.DeleteUser | Observer/Domain/Services/UserServices.cs:80-101 | result per DeleteOutcome; service and database steps appended, both timed |
| Services.UserServices.UpdateUser | Observer/Domain/Services/UserServices.cs:103-126 | result per UpdateOutcome; service and database steps appended, both timed |
| LegacyServices.CreateResponse | Oberserver/Domain/Services/UserServices.cs:26-29 | CreateUserError exactly when an envelope with a non-positive Id came back; otherwise 201 with that envelope |
| LegacyServices.UpdateResponse | Oberserver/Domain/Services/UserServices.cs:60-63 | UserNotFound exactly when nothing was updated; otherwise 200 without data |
| LegacyServices.CreateUser | Oberserver/Domain/Services/UserServices.cs:20-30 | throws exactly when the insert fails; no positive first identity gives CreateUserError; otherwise 201 showing the new user |
| LegacyServices.RetrieveUser | Oberserver/Domain/Services/UserServices.cs:32-42 | throws exactly on a failed connection or a failure other than "no elements"; not found exactly on "no elements" |
| LegacyServices.DeleteUser | Oberserver/Domain/Services/UserServices.cs:44-52 | throws on the same failures; not found exactly on zero rows or "no elements" |
| LegacyServices.UpdateUser | Oberserver/Domain/Services/UserServices.cs:54-64 | throws on the same failures; not found exactly on zero rows or "no elements" |
| LegacyServices.NoIdentityIsCreateError | Oberserver/Domain/Services/UserServices.cs:24-27 | a database that returns no identity makes CreateUser answer CreateUserError |
| LegacyServices.CreateAgrees | Oberserver/Domain/Services/UserServices.cs:20-30 | with one generated identity, both versions create the same response |
| LegacyServices.RetrieveAgrees | Oberserver/Domain/Services/UserServices.cs:32-42 | past the connection, both versions answer a retrieval the same way |
| LegacyServices.DeleteAgrees | Oberserver/Domain/Services/UserServices.cs:44-52 | past the connection, both versions answer a deletion the same way |
| LegacyServices.UpdateDiffersOnlyInData | Oberserver/Domain/Services/UserServices.cs:54-64 | past the connection, both versions answer an update with the same code and message; only the current one attaches the user |
| LegacyServices.ConnectionFailureDiverges | Oberserver/Data/UserRepository.cs:21 | a failed connection reporting "no elements" is an exception in the earlier version and a not-found answer in the current one |
| LegacyController.Answer | Oberserver/Controllers/UserController.cs:42-51 | an exception becomes the fixed 500; a response passes through with status 200 |
| LegacyController.Details | Oberserver/Controllers/UserController.cs:31-52 | the service is called exactly for a positive id; a non-positive id gets InvalidUserId |
| LegacyController.Create | Oberserver/Controllers/UserController.cs:63-82 | the service is called exactly when validation says Continue; otherwise the validation result, with its own code as status |
| LegacyController.Edit | Oberserver/Controllers/UserController.cs:95-121 | the id check comes first, then validation, then the update call |
| LegacyController.Delete | Oberserver/Controllers/UserController.cs:133-154 | as Details, with the response wrapped in Ok |
| LegacyController.ServiceMattersOnlyWhenCalled | Oberserver/Controllers/UserController.cs:31-154 | an action that did not call the service answers the same whatever the service would do |
| LegacyController.OwnAnswersCarryTheirCode | Oberserver/Controllers/UserController.cs:99-120 | when Edit answers on its own, the HTTP status is the body's code |
| LegacyController.PassThroughIsAlways200 | Oberserver/Controllers/UserController.cs:42-44 | a missing user reaches the client as a 200 whose body says 404 |
| LegacyController.BodiesAreKnown | Oberserver/Controllers/UserController.cs:95-154 | every body is the service's response, the validation result, or one of the two fixed errors |
| Controller.Level | Observer/Controllers/UserController.cs:61-76 | ERROR exactly when the service threw; INFO exactly when it answered with the action's success code |
| Controller.Captured | Observer/Controllers/UserController.cs:73-75 | the action's sub-log holds the service's exception exactly when it threw |
| Controller.UserController.New | Observer/Controllers/UserController.cs:29-33 | a null service, then a null log, throw ArgumentNullException naming the parameter |
| Controller.UserController.Details | Observer/Controllers/UserController.cs:45-89 | result as in the earlier version, on the current service's outcome; the log is written once, with request, response, level and the three timed steps |
| Controller.UserController.Create | Observer/Controllers/UserController.cs:100-146 | result as in the earlier version; one step when validation fails, three when the service runs; level INFO exactly on Created |
| Controller.UserController.Edit | Observer/Controllers/UserController.cs:159-213 | result as in the earlier version; the id check, then validation, then the update; the log is written once |
| Controller.UserController.Delete | Observer/Controllers/UserController.cs:225-269 | result as in the earlier version (Ok); the database step records DeleteUser's caught exception |
| ProductControllers.Caught | Observer/Controllers/ProductController.cs:74-83 | the fixed 500 envelope is logged and returned at level ERROR, with the exception on the sub-log |
| ProductControllers.Serviced | Observer/Controllers/ProductController.cs:67-72 | ERROR exactly when the service threw; INFO exactly on the success code; a returned envelope is logged and sent with status 200 |
| ProductControllers.Validated | Observer/Controllers/ProductController.cs:115-123 | a null validation result throws NullReferenceException and gives the 500; the service is called exactly on Continue |
| ProductControllers.DetailsAnswer | Observer/Controllers/ProductController.cs:46-90 | InvalidProductId (400, WARN) for a non-positive id; otherwise the service's envelope passed through, INFO exactly when it is OK |
| ProductControllers.CreateAnswer | Observer/Controllers/ProductController.cs:102-148 | every create ends in the catch block (NullReferenceException, 500, ERROR) and the service is never asked |
| ProductControllers.EditAnswer | Observer/Controllers/ProductController.cs:161-215 | InvalidProductId for a non-positive id; otherwise the same NullReferenceException 500 as create |
| ProductControllers.DeleteAnswer | Observer/Controllers/ProductController.cs:227-271 | as DetailsAnswer, with the envelope wrapped in Ok |
| ProductControllers.DetailsAndDeleteAgree | Observer/Controllers/ProductController.cs:67-72 | Details and Delete log the same and send the same status and body; only the wrapping differs |
| ProductControllers.ProductController.New | Observer/Controllers/ProductController.cs:30-34 | a null service, then a null log, throw ArgumentNullException naming the parameter |
| ProductControllers.ProductController.ProductDetails | Observer/Controllers/ProductController.cs:46-90 | result, logged response, level and caught exception per DetailsAnswer; one timed step GET_USER_BY_ID; the log is written once |
| ProductControllers.ProductController.ProductCreate | Observer/Controllers/ProductController.cs:102-148 | per CreateAnswer; one timed step CREATE_NEW_USER; the log is written once |
| ProductControllers.ProductController.ProductEdit | Observer/Controllers/ProductController.cs:161-215 | per EditAnswer; one timed step EDIT_USER_BY_ID; the log is written once |
| ProductControllers.ProductController.ProductDelete | Observer/Controllers/ProductController.cs:227-271 | per DeleteAnswer; one timed step DELETE_USER_BY_ID; the log is written once |
| SchemaFilter.Filtered | Observer/Settings/IgnoreNullValuesSchemaFilter.cs:15-24 | the kept keys are exactly the original keys that fail the removal test, each with its value unchanged |
| SchemaFilter.Removed | Observer/Settings/IgnoreNullValuesSchemaFilter.cs:19 | the removal test: not of type "string", and nullable or an object that IsObjectNullable accepts |
| SchemaFilter.ObjectNullable | Observer/Settings/IgnoreNullValuesSchemaFilter.cs:27-39 | IsObjectNullable: the schema has properties, and one of them makes it nullable |
| SchemaFilter.ChildMakesNullable | Observer/Settings/IgnoreNullValuesSchemaFilter.cs:34 | a property makes its object nullable when it is nullable, or is an object that is itself nullable |
| SchemaFilter.IsObjectNullable | Observer/Settings/IgnoreNullValuesSchemaFilter.cs:27-39 | the loop with early return computes the recursive predicate |
| SchemaFilter.Apply | Observer/Settings/IgnoreNullValuesSchemaFilter.cs:8-25 | no property map: nothing changes; otherwise the map becomes the filtered map, and nothing else changes |
| SchemaFilter.FilterIdempotent | Observer/Settings/IgnoreNullValuesSchemaFilter.cs:15-24 | a second Apply removes nothing |
| SchemaFilter.StringsKept | Observer/Settings/IgnoreNullValuesSchemaFilter.cs:19 | a "string" property is always kept, nullable or not |
| SchemaFilter.NoPropertiesNotNullable | Observer/Settings/IgnoreNullValuesSchemaFilter.cs:29-30 | an object without properties is not nullable; a nullable non-string property is removed |
| SchemaFilter.ObjectNullableIffPath | Observer/Settings/IgnoreNullValuesSchemaFilter.cs:27-39 | IsObjectNullable holds exactly when a path through "object" properties reaches a nullable property |
| SchemaFilter.NullableHasPath | Observer/Settings/IgnoreNullValuesSchemaFilter.cs:32-35 | a nullable object has such a path |
| SchemaFilter.PathMakesNullable | Observer/Settings/IgnoreNullValuesSchemaFilter.cs:32-35 | such a path makes the object nullable |

## Left out

- Database access is not modelled: SqlServerContext, Dapper and the SQL text. Each repository call takes the outcome of its query as a `DbResult` parameter. Disposal is a counter.
- The SingleLog library is not part of this model's sources. SubLog, BaseLog and SingleLog are modelled only through the operations the code calls on them:
  - setting Request, Response, Level and Exception;
  - appending a step;
  - starting and stopping the stopwatch;
  - writing the log.

  Serialisation and elapsed times are not modelled.
- Logging.BeginRequest, Logging.EndRequest: these factor out the prologue every action shares, and its `finally` block. EndRequest sets the response, level and exception at the end of the action, not at the point in the `try` block where the source sets them. No code runs in between that could observe the difference.
- The clock: `DateTime.Now` is the parameter `now`. Validation, the entity constructors and the service see the same reading, although the source reads the clock separately each time. Dates are ordered (year, month, day, time of day) tuples. AddYears ignores the 29 February correction.
- Dates: the type only models what the birthdate rule compares. Month and day ranges are not constrained.
- The product services: no implementation of IProductServices exists. Each product action takes as a parameter what the service answers when called. The model records no service steps for products.
- The earlier UserController and UserServices are pure functions of the service's (or database's) outcome. They hold no state besides the repository's disposal.
- The earlier UserController's constructor: it has no null check, so it is not modelled as a member.
- The current services treat the repository's `IResponse<T>` result as the bare value: a `Users` with an Id, or a bool. The model reads that value as the result's Data, and a failed result's null data as "no row".
- Services.CreateResponse, Services.UserServices.CreateUser: at Observer/Domain/Services/UserServices.cs:47 the insert result (a `Users`) is passed as the data of `new UserResponse(Created, ..., result!)`, whose data parameter is a `UsersEnvelope`. The constructor of `UsersEnvelope` from `Users` is commented out, so the source text has no conversion. The model reads the call as carrying `UsersEnvelopes.EnvelopeOf` of the inserted user: every field but the password, with the generated Id.
- Repository.Inserted: `new Users(response, userData)` (Observer/Data/UserRepository.cs:73) matches none of the Users constructors, which take nothing, a UserRequest, or an Id and a UserRequest. The model reads it as the inserted user with the generated identity as its Id.
- Controller.UserController.Details, Controller.UserController.Create, Controller.UserController.Edit, Controller.UserController.Delete: IUserServices (Observer/Domain/Interfaces/IUserServices.cs:9-12) declares results of type `IResponse<ResponseEnvelope>`. UserServices returns `UserResponse`, and the controller reads `.ResponseCode` from it. The model follows UserServices and the controller: the services return a UserResponse.
- LegacyController, LegacyServices, LegacyRepository: the earlier version's UserRequest, Users, UsersEnvelope, UserResponse and UserResponseErrors, and its validation rules, are not part of this model. The model assumes they are identical to the current version's, and reuses UserRequests.IsValid, UserEntity, UsersEnvelopes, Responses and UserResponseErrors for them.
- Strings: Dafny's strings hold Unicode scalar values, and lengths are counted in UTF-16 code units through Text.Utf16Length, as .NET counts them. A lone surrogate, which a .NET string can hold, has no counterpart here.
- The UsersEnvelope constructors are commented out in the source, but the services still call them. They are modelled from the commented-out text.
- The log step constants EXCEPTION and USER_VALIDATION_ERROR are never used by the modelled code and are not declared.
- Concurrency and `async` are not modelled: each request runs to completion on its own log.
- Schema filter:
  - nested OpenApiSchema objects are values, so aliasing between schemas is not modelled;
  - both loops visit the keys in an arbitrary order instead of the dictionary's, and the result does not depend on the order;
  - the filter context argument is unused and not modelled.
- Program.cs, dependency injection, routing, Swagger documentation and the tests' mocking are not modelled. The fixtures' expected answers are stated as a lemma.

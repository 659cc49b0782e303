# AdventureWorks Web API: employee lookup and access control

This project models three pieces of decision logic in the AdventureWorks HR Web API and proves properties about them:

- **The get-employee use case.** A query handler looks up an employee by national ID number with the cache-aside pattern:
  - It reads the in-memory cache under the key `"NationalIDNumber" + id`.
  - A usable cached response is returned without querying the employee table.
  - A missing or blank entry, one that deserializes to null, and one whose deserialization raises `JsonSerializationException` count as misses, and the handler falls through to the repository. Any other JSON exception escapes the handler.
  - The first matching row is mapped to a response, stored under the key and returned.
  - When no row matches, the handler returns null and caches nothing.
  
  In front of the handler, the HTTP endpoint validates the query. A blank ID gives 400. Otherwise a null answer gives 404 and a response gives 200.
- **Role-based authorization.** Four roles (Admin, Manager, Employee, ReadOnly) and six named policies are fixed at start-up. Each policy is bound to an any-of list of roles. The JWT bearer validation parameters are built from the `JwtSettings` configuration section.
- **The demo login and profile endpoints.**
  - Login maps a user name and a password to 400, to 401, or to exactly one role with a token.
  - Profile lists the values of the caller's role claims, in claim order.

## Modules

| file | module | contents |
|---|---|---|
| wrappers.dfy | `Wrappers` | `Option` (C#'s null) and `Result` (exceptions) |
| strings.dfy | `Strings` | `Char.IsWhiteSpace`, `IsNullOrWhiteSpace`, `IsNullOrEmpty`, ASCII `ToLower` |
| value_types.dfy | `ValueTypes` | `int`, `short`, `DateOnly`, `DateTime`, `Guid` |
| sequences.dfy | `Sequences` | order-preserving filter (`Where`), `Select`, `FirstOrDefault` |
| rbac_constants.dfy | `RbacConstants` | the role and policy names |
| claims.dfy | `Claims` | claims and the role-claim filter |
| authentication_dependency.dfy | `AuthenticationDependency` | token validation settings and the policy table |
| auth.dfy | `Auth` | login and profile endpoints |
| employee_store.dfy | `EmployeeStore` | the employee row and the repository over the table |
| get_employee.dfy | `GetEmployee` | cache key, mapping, the handler (class with the shared cache), validator, endpoint |
| get_employee_properties.dfy | `GetEmployeeProperties` | the cache-aside guarantees |

The cache and the repository are classes whose state the handler updates. `MemoryCache.entries` is a `map<string, string>`. `EmployeeRepository.rows` is the table. The ghost counter `EmployeeRepository.queries` records each call that reaches the store.

`GetEmployeeQueryHandler.Handle` is verified against the pure function `HandleOutcome`. That function gives the result, the new cache, and whether the repository was queried. The lemmas in `GetEmployeeProperties` are stated about `HandleOutcome`.

JSON is a `JsonCodec` value with abstract `serialize` and `deserialize` functions. The lemmas hold for every codec. The round-trip property `RoundTrips` is a hypothesis wherever it is needed.

## Model

| member | source | states |
|---|---|---|
| Strings.IsBlank | src/AdventureWorks.WebApi/EndPoints/HumanResources/Employee/GetEmployee.cs:55 | `IsNullOrWhiteSpace` on a non-null string (also the test behind the validator's `NotEmpty` rule): blank iff every character is a .NET whitespace character, so the empty string is blank |
| Strings.ToLower | src/AdventureWorks.WebApi/EndPoints/Authentication/Auth.cs:22 | the lower-cased user name has the same length, lower-cases each ASCII letter, keeps every other character, and contains no upper-case ASCII letter |
| Sequences.Filter | src/AdventureWorks.WebApi/Infrastructure/Database/BaseRepository.cs:36-42 | the filtered rows are exactly the rows that satisfy the predicate, each satisfies it, and there are no more of them than rows |
| Sequences.FilterAppend | src/AdventureWorks.WebApi/Infrastructure/Database/BaseRepository.cs:36-42 | filtering preserves order: filtering a concatenation is the concatenation of the filtered parts |
| Sequences.FirstOfFilter | src/AdventureWorks.WebApi/EndPoints/HumanResources/Employee/GetEmployee.cs:38-40 | `FirstOrDefault` of the filtered rows is null iff no row matches, and otherwise is the first matching row of the table |
| Sequences.Map | src/AdventureWorks.WebApi/EndPoints/Authentication/Auth.cs:56 | `Select`: the result has one element per input element, each the function applied to the element at the same position |
| RbacConstants.RoleNamed | src/AdventureWorks.WebApi/Common/Models/RbacConstants.cs:3-9 | a claim value read as a role names that role |
| RbacConstants.RoleName | src/AdventureWorks.WebApi/Common/Models/RbacConstants.cs:5-8 | each role name is 5 to 8 characters and capitalised; `RoleNames` and `RoleNameInjective` give the exact names and their distinctness |
| RbacConstants.PolicyName | src/AdventureWorks.WebApi/Common/Models/RbacConstants.cs:14-21 | every policy name starts with "Require" and has at least 16 characters; `PolicyNameShape` and `PolicyNameInjective` give the suffixes and distinctness |
| RbacConstants.RoleNameRoundTrip | src/AdventureWorks.WebApi/Common/Models/RbacConstants.cs:5-8 | each role's name reads back as that role |
| RbacConstants.RoleNameInjective | src/AdventureWorks.WebApi/Common/Models/RbacConstants.cs:5-8 | two roles share a name iff they are the same role |
| RbacConstants.RoleNames | src/AdventureWorks.WebApi/Common/Models/RbacConstants.cs:5-8 | the role names are exactly "Admin", "Manager", "Employee" and "ReadOnly" |
| RbacConstants.PolicyNameShape | src/AdventureWorks.WebApi/Common/Models/RbacConstants.cs:13-21 | every policy name starts with "Require"; the four employee policies end in "Permission", AdminOnly and ManagerOnly in "Role" |
| RbacConstants.PolicyNameInjective | src/AdventureWorks.WebApi/Common/Models/RbacConstants.cs:13-21 | two policies share a name iff they are the same policy |
| RbacConstants.PolicyNameIsNoRoleName | src/AdventureWorks.WebApi/Common/Models/RbacConstants.cs:5-21 | no policy name equals any role name |
| Claims.RoleClaimValues | src/AdventureWorks.WebApi/EndPoints/Authentication/Auth.cs:55-56 | a value is listed iff some claim of the role-claim type carries it; no more values than claims |
| Claims.RoleClaimValuesAppend | src/AdventureWorks.WebApi/EndPoints/Authentication/Auth.cs:55-56 | role values keep claim order: those of a concatenation are those of each part, in order |
| AuthenticationDependency.TokenValidation | src/AdventureWorks.WebApi/Dependency/AuthenticationDependency.cs:16-37 | the settings are refused iff the secret key is missing (not configured) or empty (a zero-length signing key); otherwise the signing key is validated, issuer (audience) validation is on iff the issuer (audience) is non-empty, and lifetime is validated with zero clock skew |
| AuthenticationDependency.RequiredRoles | src/AdventureWorks.WebApi/Dependency/AuthenticationDependency.cs:41-60 | every policy's role list admits Admin and never ReadOnly; `PolicyTable` gives each list as a set |
| AuthenticationDependency.Grants | src/AdventureWorks.WebApi/Dependency/AuthenticationDependency.cs:43-59 | access is granted iff the caller's role values include the name of a role the policy allows (any-of `RequireRole`) |
| AuthenticationDependency.PolicyTable | src/AdventureWorks.WebApi/Dependency/AuthenticationDependency.cs:41-60 | AdminOnly and DeleteEmployees allow {Admin}; ManagerOnly, CreateEmployees and UpdateEmployees allow {Manager, Admin}; ReadEmployees allows {Admin, Manager, Employee} |
| AuthenticationDependency.GrantsSingleRole | src/AdventureWorks.WebApi/Dependency/AuthenticationDependency.cs:43-59 | a caller with the one role r satisfies a policy iff the policy allows r |
| AuthenticationDependency.GrantsMonotonic | src/AdventureWorks.WebApi/Dependency/AuthenticationDependency.cs:43-59 | adding roles to a caller never turns a grant into a denial |
| AuthenticationDependency.AdminAndReadOnly | src/AdventureWorks.WebApi/Dependency/AuthenticationDependency.cs:41-60 | Admin satisfies all six policies and ReadOnly satisfies none |
| AuthenticationDependency.EmployeeCannotCreate | src/AdventureWorks.WebApi/Dependency/AuthenticationDependency.cs:49-53 | an Employee caller is denied CreateEmployees (Admin or Manager) and granted ReadEmployees |
| AuthenticationDependency.PoliciesNested | src/AdventureWorks.WebApi/Dependency/AuthenticationDependency.cs:41-60 | AdminOnly and DeleteEmployees grant the same callers; so do ManagerOnly, CreateEmployees and UpdateEmployees; AdminOnly implies ManagerOnly and CreateEmployees implies ReadEmployees |
| Auth.DemoUsersDistinct | src/AdventureWorks.WebApi/EndPoints/Authentication/Auth.cs:24-27 | the four demo user names are pairwise distinct |
| Auth.CredentialRoles | src/AdventureWorks.WebApi/EndPoints/Authentication/Auth.cs:22-29 | the credential switch yields at most one role, and yields [role] only for that role's demo account; `CredentialRolesIff` gives the converse |
| Auth.CredentialRolesIff | src/AdventureWorks.WebApi/EndPoints/Authentication/Auth.cs:22-28 | the switch yields at most one role; it yields [role] iff (lower-cased user, password) is that role's demo account, and no role for every other combination |
| Auth.Login | src/AdventureWorks.WebApi/EndPoints/Authentication/Auth.cs:14-43 | 400 iff user name or password is null or empty; a success carries exactly one role, echoes the user name as typed, holds the token minted for that user name and those roles, and expires 60 minutes after now |
| Auth.LoginDecision | src/AdventureWorks.WebApi/EndPoints/Authentication/Auth.cs:22-32 | with both fields present, login succeeds with roles [name of role] iff the lower-cased user name and the password are that role's demo account, and is 401 iff they match no demo account |
| Auth.LoginExamples | src/AdventureWorks.WebApi/EndPoints/Authentication/Auth.cs:18-40 | "ADMIN"/"admin123" succeeds as Admin with user name "ADMIN"; a wrong-case password or another user's password is 401; a null password is 400 |
| Auth.Profile | src/AdventureWorks.WebApi/EndPoints/Authentication/Auth.cs:46-59 | 401 iff the caller is not authenticated; otherwise the user name is the identity's, all claims are listed, and the roles are exactly the values of role-type claims |
| Auth.ProfileRolesInClaimOrder | src/AdventureWorks.WebApi/EndPoints/Authentication/Auth.cs:55-56 | the profile's roles follow claim order |
| EmployeeStore.EmployeeRepository.FindAsync | src/AdventureWorks.WebApi/Infrastructure/Database/BaseRepository.cs:36-42 | returns the table's rows that satisfy the predicate, in table order, and counts one store query |
| GetEmployee.CacheKey | src/AdventureWorks.WebApi/EndPoints/HumanResources/Employee/GetEmployee.cs:31 | the key is exactly "NationalIDNumber" followed by the queried number |
| GetEmployee.ToGetEmployeeResponse | src/AdventureWorks.WebApi/EndPoints/HumanResources/Employee/GetEmployee.cs:158-175 | the response carries the row's national ID number and business entity ID; `ToGetEmployeeResponseFaithful` proves the copy loses no field |
| GetEmployee.ReadCache | src/AdventureWorks.WebApi/EndPoints/HumanResources/Employee/GetEmployee.cs:53-69 | a hit iff the entry exists, is not blank and deserializes to a non-null response (which is returned); a failure escapes iff the entry's deserialization raises a non-serialization JSON error; anything else is a miss |
| GetEmployee.HandleOutcome | src/AdventureWorks.WebApi/EndPoints/HumanResources/Employee/GetEmployee.cs:26-51 | one handler call changes at most the entry under the query's key |
| GetEmployee.MemoryCache.TryGetValue | src/AdventureWorks.WebApi/EndPoints/HumanResources/Employee/GetEmployee.cs:55 | found iff the key is present, and then the stored text |
| GetEmployee.MemoryCache.Set | src/AdventureWorks.WebApi/EndPoints/HumanResources/Employee/GetEmployee.cs:74 | stores the value under the key, overwriting it, and nothing else changes |
| GetEmployee.GetEmployeeQueryHandler.GetEmployeeResponseFromCache | src/AdventureWorks.WebApi/EndPoints/HumanResources/Employee/GetEmployee.cs:53-69 | the cache read as `ReadCache` describes it |
| GetEmployee.GetEmployeeQueryHandler.SetCache | src/AdventureWorks.WebApi/EndPoints/HumanResources/Employee/GetEmployee.cs:71-75 | the serialized response is stored under the key and no other entry changes |
| GetEmployee.GetEmployeeQueryHandler.Handle | src/AdventureWorks.WebApi/EndPoints/HumanResources/Employee/GetEmployee.cs:26-51 | the result and new cache are those of `HandleOutcome`, and the repository is queried exactly when `HandleOutcome` says |
| GetEmployee.Validate | src/AdventureWorks.WebApi/EndPoints/HumanResources/Employee/GetEmployee.cs:98-104 | the query is rejected iff its national ID number is empty or blank |
| GetEmployee.ResultFor | src/AdventureWorks.WebApi/EndPoints/HumanResources/Employee/GetEmployee.cs:92-93 | null gives NotFound, a response gives Ok with that response, and the result is never BadRequest |
| GetEmployee.GetEmployeeEndpoint | src/AdventureWorks.WebApi/EndPoints/HumanResources/Employee/GetEmployee.cs:82-94 | an invalid query gives BadRequest with the validation errors and touches neither cache nor repository; a valid one is handled and its answer mapped |
| GetEmployeeProperties.CacheKeyInjective | src/AdventureWorks.WebApi/EndPoints/HumanResources/Employee/GetEmployee.cs:31 | two numbers share a cache key iff they are equal |
| GetEmployeeProperties.ToGetEmployeeResponseFaithful | src/AdventureWorks.WebApi/EndPoints/HumanResources/Employee/GetEmployee.cs:158-175 | the mapping loses nothing (two rows give the same response iff they are equal) and keeps the national ID number and business entity ID |
| GetEmployeeProperties.HitShortCircuits | src/AdventureWorks.WebApi/EndPoints/HumanResources/Employee/GetEmployee.cs:32-36 | on a hit the cached response is returned, the cache is unchanged and the repository is not queried |
| GetEmployeeProperties.UnusableEntryIsMiss | src/AdventureWorks.WebApi/EndPoints/HumanResources/Employee/GetEmployee.cs:55-68 | a blank entry, a null one or one that raises a serialization exception makes the handler query the repository and answer as if the entry were absent |
| GetEmployeeProperties.NegativeResultNotCached | src/AdventureWorks.WebApi/EndPoints/HumanResources/Employee/GetEmployee.cs:38-42 | the answer is null iff the cache misses and no row has the number; a null answer queried the repository and left the cache unchanged |
| GetEmployeeProperties.FoundResponseIsCached | src/AdventureWorks.WebApi/EndPoints/HumanResources/Employee/GetEmployee.cs:38-46 | on a miss, the first matching row is mapped, stored under the key (overwriting it) and returned, with no other key changed, and the response carries the queried number |
| GetEmployeeProperties.OnlyReaderFailuresEscape | src/AdventureWorks.WebApi/EndPoints/HumanResources/Employee/GetEmployee.cs:57-65 | a failure escapes only as a non-serialization JSON error from the cached text, and then the cache is unchanged and the repository is not queried |
| GetEmployeeProperties.EmptyCacheKeysConsistent | src/AdventureWorks.WebApi/EndPoints/HumanResources/Employee/GetEmployee.cs:31 | an empty cache holds every response under its own number's key |
| GetEmployeeProperties.HandlePreservesKeysConsistent | src/AdventureWorks.WebApi/EndPoints/HumanResources/Employee/GetEmployee.cs:31-46 | with a round-tripping codec, handling a query keeps every usable cached response under the key of its own number |
| GetEmployeeProperties.AnswerHasQueriedId | src/AdventureWorks.WebApi/EndPoints/HumanResources/Employee/GetEmployee.cs:31-50 | while that cache invariant holds, any response the handler returns has the queried national ID number |
| GetEmployeeProperties.SecondReadServedFromCache | src/AdventureWorks.WebApi/EndPoints/HumanResources/Employee/GetEmployee.cs:32-35 | with a round-tripping codec, after a successful read a second read of the same number returns the same response from the cache, leaves the cache as it is and does not query the repository, whatever the table holds by then |
| GetEmployeeProperties.NegativeReadRepeats | src/AdventureWorks.WebApi/EndPoints/HumanResources/Employee/GetEmployee.cs:38-42 | after a null answer, reading the same number again queries the repository again and answers null again |
| GetEmployeeProperties.ExistingEmployeeScenario | src/AdventureWorks.WebApi/EndPoints/HumanResources/Employee/GetEmployee.cs:31-50 | reading "14417807" into an empty cache returns the mapped row and creates exactly the entry "NationalIDNumber14417807"; a second read is served from it |
| GetEmployeeProperties.MissingEmployeeScenario | src/AdventureWorks.WebApi/EndPoints/HumanResources/Employee/GetEmployee.cs:38-42 | reading "nonexistent" against an empty table answers null, queries the repository and creates no cache entry |
| GetEmployeeProperties.EndpointExamples | src/AdventureWorks.WebApi/EndPoints/HumanResources/Employee/GetEmployee.cs:89-102 | "" and whitespace-only numbers fail validation, "14417807" passes; null maps to NotFound and a response to Ok |

## Left out

- Query and command dispatch: `QueryDispatcher`, `CommandDispatcher` and the handler registry are not part of this model. Their implementations are not in the source. The endpoint calls the handler directly.
- `async`, `ConfigureAwait` and `CancellationToken`: each handler call is modelled as one sequential step. The race in which two concurrent misses both query the table and both write the cache is not modelled.
- Logging (`ILogger`, `Console.WriteLine`), Serilog, Swagger, dependency-injection registration and the entity classes other than the fifteen employee fields the mapping reads.
- The store comparison: the repository's predicate runs as SQL on SQL Server. There `=` ignores trailing spaces and follows the column's collation, usually case-insensitive, and rows without an `ORDER BY` come back in no guaranteed order. The model compares national ID numbers by ordinal string equality and returns rows in table order. For example, a request for `"14417807 "` finds the row `"14417807"` in the source, caches it under `"NationalIDNumber14417807 "` and returns it, while the model answers not found.
- `GetEmployeeProperties.FoundResponseIsCached`, `GetEmployeeProperties.AnswerHasQueriedId` and `GetEmployeeProperties.KeysConsistent`: the response's national ID number equals the queried one only under that ordinal comparison. Under SQL Server's comparison, it may differ from the query by trailing spaces or letter case.
- The generic repository beyond `FindAsync`: change tracking, `GetAllAsync`, `GetByIdAsync`, `AddAsync`, `Update` and `Delete`. The table is an abstract sequence of rows.
- Newtonsoft JSON: serialization is an abstract codec. Its round-trip is a hypothesis of the lemmas that need it, not a proved fact.
- Cache expiry: `IMemoryCache` is configured with none, and none is modelled.
  - `SecondReadServedFromCache` shows the consequence: a cached response keeps being returned however the table changes later.
  - The source has no invalidation. Whether that is intended is left open.
- Uncaught JSON exceptions: the source catches only `JsonSerializationException` around deserialization. Any other JSON exception, such as a reader error on malformed text, escapes the handler, so a corrupted entry does not always fall back to the repository. The model propagates such failures and maps them to a server error at the endpoint. The global exception handler that produces that response is not part of this model.
- `Validate`: the query's number is a non-null string, because the endpoint fills it from the route, so the `NotNull` rule never fires and only the `NotEmpty` rule is modelled. FluentValidation's `NotEmpty` rejects a whitespace-only string as well as an empty one, and the model follows it.
- `Strings.ToLower`: assumes a culture with plain ASCII casing, such as the invariant culture or en-US. `string.ToLower()` uses the current culture, and under tr-TR or az `'I'` lower-cases to dotless `'ı'`, so there "ADMIN"/"admin123" would be refused while `Auth.LoginExamples` proves it succeeds. Lower-casing of non-ASCII letters is not modelled either.
- Token minting (`IJwtTokenService.GenerateToken`) and the clock (`DateTime.UtcNow`) are parameters of `Auth.Login`.
- The signing key's UTF-8 encoding and the authentication scheme defaults are not modelled. The signing key is kept as the configured text. An empty key is refused as `EmptySigningKey`; in the source that error surfaces when the bearer options are first built, not at registration.
- Role checks:
  - A caller is modelled by the set of its role-claim values. Multiple identities on one principal are not modelled.
  - `ClaimsPrincipal.IsInRole`'s case-insensitive comparison of the claim type is not modelled; the profile endpoint compares the type exactly.
  - The profile route's `RequireAuthorization` middleware challenge is not modelled; only the endpoint's own authentication check is.
- Integer widths: `int` and `short` fields are range-restricted types. The mapping only copies them, so no wrap-around arises.

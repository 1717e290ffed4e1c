# Enterprise API auth service — decision logic in Dafny

This project models the decision-making core of a small Express/Mongoose
authentication service. It covers four parts:

- **Permission table** (`Rbac`, from `config/rbacConfig.js`). A static map from each role to its permitted actions on each resource. `can(role, resource, action)` looks it up by exact string match. Unknown roles are denied, except that names every object inherits from `Object.prototype` (such as `toString`) make it throw (see "## Findings").
- **Authentication and authorization middleware** (`Auth`, from `middleware/auth.js`).
  - `authenticate` takes the bearer token from the `jid` cookie, or else from the second space-separated piece of the `Authorization` header. It verifies the token and attaches the decoded claim. Every failure gets a uniform 401.
  - `authorizeRoles(...allowed)` admits a request when one of the user's roles is in the route's allowed list and `can` grants that role the lower-cased HTTP method on the last segment of the mount path. Otherwise it answers 403, or 401 when there is no user, or throws when the claim has no roles array or the lookup of an allowed inherited member name is reached.
- **Audit-log documents** (`AuditLog`, from `model/AuditLog.js`). The schema's validation is modelled: a required, enumerated `eventType`, a required `details` and a default `source`. So is `maskSensitive`, which overwrites truthy listed fields of `details` with `***`.
- **Audit controller** (`AuditController`, from `controller/auditController.js`). `listLogs` builds the filter and pagination. `getLogById` and `deleteLog` work over a database modelled as a map from id to entry. `recordLog` is guarded by a shared service token.

Supporting modules:

- `Wrappers` holds `Option` and `Result`.
- `JsValues` models JavaScript values, their truthiness, and property reads and writes on a plain object literal, including the members every such object inherits from `Object.prototype`.
- `Strings` models `split` on a one-character separator, `join`, the last path segment, and ASCII `toLowerCase`.

The token verifier (`jwt.verify`) is a function-typed parameter `Verifier` taking the token, the shared secret and the current time. It returns `None` for a bad signature, a malformed token or an expired token alike.

The permission table names its actions `create`, `read`, `update`, `delete`, `register` and `login`. The middleware passes `can` the request method itself, lower-cased (middleware/auth.js:37), with no mapping from HTTP verbs to those names. So of the usual methods only DELETE can ever be admitted (`Auth.OnlyDeleteIsEverAdmitted`). A `user` token reading books with GET is refused with 403, because the table is asked about `get` (`Auth.UserGetBooksRefused`).

## Model

| member | source | states |
|---|---|---|
| Rbac.Grants | config/rbacConfig.js:41-43 | the `some` scan over a role's entries holds iff some entry names the resource exactly and lists the action |
| Rbac.Can | config/rbacConfig.js:39-44 | a role outside the table is denied everything; otherwise `can` holds iff one of the role's entries has exactly this resource and lists exactly this action (no wildcards, no case folding) |
| Rbac.CanAsWritten | config/rbacConfig.js:40 | as written, `rbac[role] \|\| []` throws exactly for roles that are inherited `Object.prototype` member names; for every other role it returns what `Can` returns |
| Rbac.CanAsWrittenThrowsOnInheritedName | config/rbacConfig.js:40 | the role `toString` makes the as-written lookup throw, while the intended answer is false |
| Rbac.CanIsGranted | config/rbacConfig.js:8-44 | `can` agrees, in both directions, with an independent flat list of the nineteen granted (role, resource, action) triples |
| Rbac.AdminDeletesUsersUserDoesNot | config/rbacConfig.js:9-21 | an admin may delete users; a plain user may not |
| Rbac.AuditorOnlyReadsAuditLogs | config/rbacConfig.js:23-25 | an auditor is granted exactly `read` on `auditLogs` and nothing on any other resource |
| Rbac.GuestOnlyRegistersAndLogsIn | config/rbacConfig.js:27-29 | a guest is granted exactly `register` and `login` on `auth` |
| Rbac.OnlyAdminDeletes | config/rbacConfig.js:8-30 | no role other than `admin` holds `delete` on any resource |
| Rbac.GrantedActionIsTableAction | config/rbacConfig.js:8-30 | every granted action is one of create, read, update, delete, register, login |
| Strings.Split | middleware/auth.js:16 | `split` on one character yields at least one piece and no piece contains the separator |
| Strings.JoinSplit | middleware/auth.js:16 | joining the pieces of a split with the separator gives back the original string |
| Strings.SplitJoin | middleware/auth.js:16 | splitting a join of separator-free pieces gives back those pieces (split and join are inverse) |
| Strings.LastSegment | middleware/auth.js:38 | `split('/').pop()` is the longest suffix of the path without `/`: it is a suffix, has no `/`, and is preceded by `/` when shorter than the path |
| Strings.ToLower | middleware/auth.js:37 | lower-casing keeps the length, maps each character independently and leaves no ASCII capital |
| Auth.PresentedToken | middleware/auth.js:14-16 | the token is the `jid` cookie when that is truthy, and otherwise what the `Authorization` header carries |
| Auth.BearerToken | middleware/auth.js:16 | no token when the header is absent or has no space; otherwise the text after the first space up to the next space or the end (possibly empty) |
| Auth.Authenticate | middleware/auth.js:12-26 | never throws; any refusal is a 401; "Authentication required" iff no truthy token; "Invalid or expired token" iff the verifier rejects it; otherwise `next` with `req.user` set to the decoded claim and nothing else changed |
| Auth.CookieShadowsHeader | middleware/auth.js:14-16 | with a truthy `jid` cookie the `Authorization` header has no influence on the token or the verdict |
| Auth.NoTokenSkipsVerifier | middleware/auth.js:17-19 | without a token the outcome is the same whatever the verifier does |
| Auth.VerificationFailuresIndistinguishable | middleware/auth.js:20-25 | two rejected tokens give identical responses, whatever the token and the reason |
| Auth.Resource | middleware/auth.js:38 | the resource is the last `/`-segment of the mount path: a suffix of it with no `/`, preceded by `/` when shorter than the path |
| Auth.Action | middleware/auth.js:37 | the action is the request method lower-cased character by character, with the same length |
| Auth.ScanRoles | middleware/auth.js:40-42 | the scan over the user's roles, calling the table lookup as written: true only if some role is allowed and granted; when no role qualifies it throws iff an allowed role is an inherited `Object.prototype` member name, and is false otherwise; without such a role it answers exactly whether some role is allowed and granted |
| Auth.AuthorizeRoles | middleware/auth.js:32-48 | 401 without a user (the table is not consulted); throws when the claim has no roles array; `next` with the request unchanged only if some role is allowed and `can(role, last segment of baseUrl, lower-cased method)`; a refused request with a roles array throws iff an allowed role it holds is an inherited member name, and gets 403 "Forbidden" otherwise; when some role is allowed and granted it admits or throws, never 403; without an allowed inherited name it admits iff some role is allowed and granted |
| Auth.InheritedAllowedRoleThrows | middleware/auth.js:40-41 | a route allowing `toString` and `admin` throws for a user holding both, before `admin` is looked at |
| Auth.RouteAllowedListsDecideByTable | middleware/auth.js:40-46 | when the allowed list names only `admin`, `auditor` or `user`, the middleware never throws on a roles array and admits iff some role is allowed and granted |
| Auth.AuthorizeMonotone | middleware/auth.js:40-42 | provided no role of the larger request is an allowed inherited member name, adding roles to the user or to the allowed list never turns an admitted request into a refused one |
| Auth.AuthorizeMonotoneOrThrows | middleware/auth.js:40-42 | with no condition on the added roles, a request admitted with fewer roles or a shorter allowed list is admitted with more, or else throws because an added allowed role is an inherited member name; it never becomes a 403 |
| Auth.EmptyRolesForbidden | middleware/auth.js:40-46 | an empty role list is always refused with 403 |
| Auth.OnlyDeleteIsATableAction | middleware/auth.js:37 | of GET, HEAD, POST, PUT, PATCH, DELETE, OPTIONS only DELETE lower-cases to an action the table names |
| Auth.OnlyDeleteIsEverAdmitted | middleware/auth.js:37-42 | with the shipped table, no request with another known method is ever admitted |
| Auth.EmptyResourceRefused | middleware/auth.js:38-45 | a mount path that is empty or ends in `/` gives the empty resource, and every such request is refused |
| Auth.Protect | middleware/auth.js:12-48 | the two middlewares in sequence admit only if a truthy token verifies to a claim with a roles array of which some role is allowed and granted, and then carry that claim; without an inherited member name among the allowed roles they admit iff that holds; a verified claim with a roles array and no qualifying role throws iff an allowed role it holds is an inherited member name, and gets 403 otherwise; a verified claim with a qualifying role is admitted or throws, never 403; they throw only when the claim has no roles array or an allowed role is an inherited member name |
| Auth.ProtectAfterVerification | middleware/auth.js:20-22 | once the token verifies, the pair decides as `authorizeRoles` does on the request carrying the decoded claim |
| Auth.SingleRoleDecides | middleware/auth.js:40-46 | a user with one ordinary role is admitted iff the route allows it and the table grants it, and gets 403 otherwise |
| Auth.RejectedTokenStopsBeforeAuthorization | middleware/auth.js:20-25 | an expired, forged or malformed token gets 401 "Invalid or expired token" whatever the route allows |
| Auth.MissingTokenStopsBeforeAuthorization | middleware/auth.js:14-19 | a request with neither cookie nor header gets 401 "Authentication required" |
| Auth.UserGetBooksRefused | middleware/auth.js:37-46 | a valid `user` token doing GET on `/v1/books` is refused with 403, because `get` is not a table action |
| Auth.AdminDeleteUsersAdmitted | middleware/auth.js:37-47 | DELETE on `/v1/users` is admitted for an `admin` claim |
| Auth.UserDeleteUsersRefused | middleware/auth.js:37-46 | the same DELETE is refused with 403 for a `user` claim |
| AuditLog.ParseEventType | model/AuditLog.js:22-26 | a string names an event type iff it is one of the seven enum spellings, matched exactly |
| AuditLog.ParseName | model/AuditLog.js:25 | reading back the stored spelling of an event type gives that event type |
| AuditLog.EventTypeOf | model/AuditLog.js:22-26 | after the string cast, a value stands for an event type exactly when it is that spelling or an object whose `_id` is that spelling |
| AuditLog.Create | model/AuditLog.js:11-60 | an entry is created iff `eventType` casts to an enum spelling (a string, or an object whose `_id` is one) and `details` is neither undefined nor null; a failure reports exactly the failing paths; a created entry stores the cast event type and keeps the given fields, with `source` defaulting to `auth-service` only when omitted |
| AuditLog.EventTypeFromObjectId | model/AuditLog.js:22-26 | an object whose `_id` is `LOGIN` is stored as a `LOGIN` event |
| AuditLog.Record | model/AuditLog.js:77-79 | for a `userId` that is absent or a valid ObjectId, the `record` static succeeds iff the argument's `eventType` property casts to an enum spelling and its `details` property is present; the stored fields are the argument's six schema properties, with the default source when none is given |
| AuditLog.RecordReadsOnlySchemaFields | model/AuditLog.js:77-78 | two arguments that agree on the six schema properties give the same result, whatever else they carry |
| AuditLog.MaskDetailsAsWritten | model/AuditLog.js:65-72 | as written, truthy own listed fields become `***` and other own fields are unchanged, but a listed inherited member name (other than `__proto__`) is added as a new key holding `***` |
| AuditLog.MaskDetails | model/AuditLog.js:66-70 | as intended, the key set is unchanged; a listed field whose value was truthy becomes `***`; listed falsy fields and unlisted fields keep their values |
| AuditLog.MaskAsWrittenAddsInheritedKey | model/AuditLog.js:67-68 | masking `toString` on empty details adds a key as written and changes nothing as intended |
| AuditLog.MaskAsWrittenAgreesOffPrototype | model/AuditLog.js:66-70 | when no listed field names an inherited member, the as-written and intended loops agree |
| AuditLog.MaskDetailsIdempotent | model/AuditLog.js:66-70 | masking twice with the same list equals masking once |
| AuditLog.MaskDetailsAsWrittenIdempotent | model/AuditLog.js:66-70 | the loop as written is idempotent too: masking twice with the same list, including added inherited names, equals masking once |
| AuditLog.MaskDetailsEmptyList | model/AuditLog.js:65 | with the default empty list the details are unchanged, by the loop as written and by the corrected loop |
| AuditLog.MaskSensitiveEmptyList | model/AuditLog.js:65-72 | called with the default empty list, the method returns the document unchanged, whatever its details |
| AuditLog.MaskSensitive | model/AuditLog.js:65-72 | returns the same document with only `details` changed; on object details truthy listed own fields become `***`, other own fields keep their values, and listed inherited member names other than `__proto__` are added holding `***`; primitive details are unchanged; null or undefined details throw iff some field is listed |
| AuditLog.MaskSensitiveOffPrototype | model/AuditLog.js:65-72 | when no listed field is an inherited member name, the method masks exactly the own truthy listed fields and adds no key |
| AuditLog.MaskSensitiveIdempotent | model/AuditLog.js:65-72 | calling `maskSensitive` again with the same list on the document it returned changes nothing |
| AuditController.BuildFilter | controller/auditController.js:12-19 | `eventType` and `userId` are present iff truthy in the query, carrying the query value; `timestamp` is present iff `dateFrom` or `dateTo` is truthy, with `$gte` iff `dateFrom` and `$lte` iff `dateTo`, each the date of that value |
| AuditController.ListLogs | controller/auditController.js:11-26 | page defaults to 1 and limit to 50; skip is (page - 1) × limit; the filter is the query's filter; page and limit are echoed |
| AuditController.EmptyQueryListsFirstPage | controller/auditController.js:11-20 | a query with no parameters gives the empty filter, skip 0, page 1, limit 50 |
| AuditController.PagesTile | controller/auditController.js:20 | with a positive limit, page p + 1 starts where page p ends, and the skip is non-negative iff p ≥ 1 |
| AuditController.GetLogById | controller/auditController.js:35-45 | 404 iff no entry has the id; otherwise 200 with that entry |
| AuditController.DeleteLog | controller/auditController.js:50-60 | 404 and no change iff the id is absent; otherwise only that id is removed and every other entry is unchanged |
| AuditController.DeleteThenGetOrDelete | controller/auditController.js:52-56 | after a delete, fetching the id is a 404 and deleting it again is a 404 that changes nothing |
| AuditController.ServiceTokenAcceptedAsWritten | controller/auditController.js:67-70 | as written, with no token configured exactly header-less requests pass; with one configured, exactly a matching header passes |
| AuditController.ServiceTokenAccepted | controller/auditController.js:67-70 | as intended, a request passes iff a token is configured and the header carries exactly it |
| AuditController.UnconfiguredServiceTokenAdmitsAnyone | controller/auditController.js:68 | with no token configured a header-less request passes as written but not as intended; with a token configured the two agree |
| AuditController.RecordInput | controller/auditController.js:71-72 | the document input carries the body's `userId`, `eventType` and `details`, each undefined when the body lacks it, and nothing else |
| AuditController.RecordLog | controller/auditController.js:65-77 | 401 iff the header differs from the configured token (two absent values count as equal), and then nothing is stored; a validation failure is passed on with exactly the failing paths and stores nothing; for a `userId` that is absent or a valid ObjectId, 201 with a new entry under a fresh id, built from the body's `userId`, `eventType` and `details`, iff the body's `eventType` casts to an enum spelling and its `details` is present, with the default source and no ip or request id |
| AuditController.UnconfiguredServiceStoresAnonymousWrite | controller/auditController.js:67-73 | with no service token configured, a valid write without a token header is stored, while the corrected gate refuses it |
| AuditController.RecordIgnoresOtherBodyFields | controller/auditController.js:71-72 | two bodies that agree on `userId`, `eventType` and `details` give the same outcome |
| AuditController.RecordThenGet | controller/auditController.js:72-73 | a recorded entry is found again under its id |

## Findings

| source | as written | input that shows it | evidently intended | confidence | as-written member | corrected member |
|---|---|---|---|---|---|---|
| config/rbacConfig.js:40 | `rbac[role] \|\| []` reads members inherited from `Object.prototype`; they are truthy and have no `some`, so `can` throws a TypeError | `can('toString', 'users', 'read')` | an unknown role is denied: `can` returns false | high; not executed | Rbac.CanAsWritten (Rbac.CanAsWrittenThrowsOnInheritedName) | Rbac.Can |
| model/AuditLog.js:67-68 | `this.details[field]` reads through the prototype chain, so an inherited member name is truthy and gets written as a new own property | `maskSensitive(['toString'])` on details `{}` adds `toString: '***'` | only the document's own truthy fields are masked, and no key is added | medium (harmless unless such a name is listed); not executed | AuditLog.MaskDetailsAsWritten (AuditLog.MaskAsWrittenAddsInheritedKey) | AuditLog.MaskDetails |
| controller/auditController.js:68 | `token !== process.env.SERVICE_AUTH_TOKEN` is false when both are undefined, and no startup check requires the variable | `SERVICE_AUTH_TOKEN` unset, POST without an `x-service-token` header | unauthenticated writes are refused when no token is configured | high; not executed | AuditController.ServiceTokenAcceptedAsWritten (AuditController.UnconfiguredServiceTokenAdmitsAnyone) | AuditController.ServiceTokenAccepted |

The handlers model the code as written; each corrected member states the intended behaviour, and a lemma says where the two agree:

- `Auth.AuthorizeRoles` calls `Rbac.CanAsWritten`. On a roles array it throws only when an allowed role is an inherited member name (`Auth.InheritedAllowedRoleThrows`). Every route in routes/adminRoutes.js and routes/auditRoutes.js allows only `admin` or `auditor`, so on those routes it decides by `Rbac.Can` (`Auth.RouteAllowedListsDecideByTable`). The users and books routers are not part of this model.
- `AuditLog.MaskSensitive` uses `AuditLog.MaskDetailsAsWritten`. It agrees with `AuditLog.MaskDetails` when no inherited member name is listed (`AuditLog.MaskSensitiveOffPrototype`).
- `AuditController.RecordLog` uses `AuditController.ServiceTokenAcceptedAsWritten`. It agrees with `AuditController.ServiceTokenAccepted` whenever a token is configured (`AuditController.UnconfiguredServiceTokenAdmitsAnyone`), and stores header-less writes when none is (`AuditController.UnconfiguredServiceStoresAnonymousWrite`).

## Left out

- Token verification internals are left out: signature checking, `exp` handling, `jwt.sign` and bcrypt. These are foreign calls, and `Verifier` is a parameter.
- Express and Mongoose I/O is left out: the database query, sort order, `skip`/`limit` execution, `countDocuments`, indexes and the `timestamps` option. The listing is modelled up to the filter and window it hands to the database.
- Server wiring (`main.js`), the auth controller and routes, the admin and user controllers, the metrics and health controllers, and the scripts are not part of this model. They are I/O or single database calls. `routes/auditRoutes.js` repeats the controller's logic (its 404 message drops the final period).
- Configuration parsing (`parseNumber`, `parseInt`) is left out because it depends on JavaScript `Number` coercion.
- Strings.ToLower: only ASCII letters are mapped. Full Unicode case mapping is left out, because Node only accepts ASCII method names.
- Auth.PresentedToken: a cookie that cookie-parser decodes as JSON (`j:` prefix) is treated as a plain string.
- Auth.Claim: a payload that is not an object, such as a string signed as the payload, is not modelled. A missing or non-array `roles` field is modelled as the throwing case.
- AuditLog.MaskSensitive: array-valued and function-valued `details` are excluded by its precondition. Property reads on arrays also see indices, `length` and `Array.prototype` members.
- AuditLog.Create: the string cast of `eventType` is modelled for strings and objects with a string `_id`. Other values are treated as failing, which matches the source, since numbers and booleans cast to spellings outside the enum. Casting of `userId` to an ObjectId, and of non-string `source`, `ipAddress` or `requestId` values, is not modelled. These fields are carried through as given. The validation error messages are not modelled either; only the failing paths are.
- AuditLog.Record: a `userId` that fails the ObjectId cast (such as `"alice"`) makes the source reject the document; the model stores it as given, so its success condition holds only for an absent or valid `userId`.
- AuditController.RecordLog: the same ObjectId cast of the body's `userId` is not modelled; a body whose `userId` fails it is answered 201 here where the source passes a validation error on.
- AuditController.ListLogs: `page` and `limit` are taken as the integers the query strings denote. NaN, fractions and the database's rejection of a negative skip are not modelled.
- AuditController.GetLogById: a malformed id makes Mongoose throw a CastError, which goes to the error handler. The model answers 404 for every absent id.
- AuditController.DeleteLog: the same CastError simplification applies.
- `can` is pure and repeated calls agree. In this functional model that holds by construction, so no lemma states it.

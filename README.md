# TableRise backend: services, middlewares and helpers in Dafny

TableRise is a REST backend for tabletop role-playing games. It serves
"wiki" entities such as classes, monsters, systems, armors, items and magic
items, and it manages user accounts. This project models the part of the
backend that holds its business rules:

- **Error catalogue** (`http_request_errors.dfy`). `HttpRequestErrors.throwError`
  turns an error tag into a fixed message, HTTP code and error name. Unknown
  tags fall through to a 500 error.
- **Entity services.** These sit over a document store (`store.dfy`, a map
  from id to document):
  - `ClassesServices` (`classes_services.dfy`) follows the "availability"
    protocol. A plain update may not switch a class on, and
    `updateAvailability` refuses a toggle to the state the class is already
    in.
  - `MonstersServices` (`monsters_services.dfy`) follows the same protocol
    through the injected `existance` guard. Its `updateAvailability` answers
    with a message instead of the document.
  - `SystemServices` (`system_services.dfy`) switches a system through
    `activate` and `deactivate`, each refused when the system is already in
    that state. Its plain `update` refuses only a payload that carries
    `content`; it passes `active` through, so it can switch a system on.
    `updateContent` adds an id to one of a system's id arrays, or filters an
    id out of it.
  - `ArmorsServices`, `ItemsServices` and `MagicItemsServices` are modelled
    by one class (`catalog_services.dfy`), because they differ only in their
    not-found text.
- **User registration** (`users_services.dfy`). Two validations, an
  email-uniqueness check, a random `#n` tag with a (tag, nickname)
  uniqueness check, then two creations. The user detail is linked to the new
  user's id.
- **Middlewares.**
  - `VerifyIdMiddleware` (`verify_id_middleware.dfy`) accepts exactly the
    version-4 UUID texts, ignoring case. The regular expression is modelled
    piece by piece and proved equal to a positional definition of the
    RFC 4122 version-4 layout.
  - `VerifyEmailCodeMiddleware` (`verify_email_code_middleware.dfy`) looks a
    user up by email or id and compares the code in progress.
- **Helpers.**
  - `userSerializer`, `postUserSerializer` and `postUserDetailsSerializer`
    (`user_serializer.dfy`) map OAuth profiles and raw objects onto the
    user shapes.
  - The route-parameter builders (`parameters_wrapper.dfy`).

Validators (`ValidateData`, `ValidateEntry` and the zod schemas), whose
bodies are not part of this model, are parameters of the services
(`validation.dfy`). Each schema check is a function from the payload to an
optional error. The same holds for the error-message table and the error
constructors that `ValidateData` offers. The two guards `existance` and
`systemActive` are fixed to throw exactly when their value is truthy; see
"## Left out". The clock (`new Date()`) and
`Math.random()` are inputs of `Register`.

Decimal rendering of the tag number is in `decimal.dfy`. The shared types
are in `common.dfy`.

Where the code and its documentation differ, the model follows the code:

- The monsters service's `findAllDisabled` returns the ACTIVE monsters.
- The classes and monsters `update` refuse a payload whose `active` is
  `true`, but let `active: false` through (src/services/ClassesServices.ts:41
  and src/services/MonstersServices.ts:46).
- `throwError` no longer has the tags `email`, `tag`, `user`, `2fa`,
  `query-string` and `verification-email` that its unit tests use. These
  tags fall to the 500 default, which is proved.
- The missing-content-key case of `updateContent` is a `TypeError` in the
  code, not a validation error. The model returns it as a 500 `TypeError`
  and leaves the store unchanged.
- `VerifyEmailCodeMiddleware` reads `inProgress.code` without a guard. A
  stored user without `inProgress` makes it throw a `TypeError`, which the
  model returns as a 500 `TypeError`.

## Model

| member | source | states |
|---|---|---|
| HttpRequestErrors.ThrowError | src/services/helpers/HttpRequestErrors.ts:19-132 | the code is 401 exactly for the unauthorized tags, 404 exactly for the not-found tags, 500 exactly for unknown or missing tags and 400 for every other known tag; the name is always the one `getErrorName` gives for the code; the default, user-inexistent and rpg-not-found-id messages are fixed |
| HttpRequestErrors.Construct | src/services/helpers/HttpRequestErrors.ts:11-17 | the constructor stores the message, code, details and name it is given, for any code and any name; every `throwError` entry is this constructor applied to the entry's message, its code and `getErrorName` of that code |
| HttpRequestErrors.StaleTestKeysFallToDefault | test/unit/services/helpers/HttpRequestErrors.spec.ts:26-145 | the tags `email`, `tag`, `user`, `2fa`, `query-string` and `verification-email` (and no tag) all give the 500 "Some error not specified ocurred" error |
| HttpRequestErrors.TestedEntries | test/unit/services/helpers/HttpRequestErrors.spec.ts:75-133 | `2fa-incorrect`, `rpg-not-found-id` and `invalid-user-status` give the message, code and name the tests expect |
| Store.FreshId | src/services/user/UsersServices.ts:67 | the id a creation allocates is not in use (it is longer than every id in use) |
| Envelopes.Toggled | src/services/ClassesServices.ts:83-84 | the store after a toggle request has the same ids; when the toggle is allowed the document's `active` becomes the requested value; every other document is unchanged |
| Envelopes.ToggleChangesOnlyActive | src/services/ClassesServices.ts:83-84 | a toggle changes only the `active` flag of the one document; its id and texts are kept and every other document is unchanged |
| Envelopes.ToggleTwiceRefused | src/services/ClassesServices.ts:75-81 | after a successful toggle to a value, a second toggle to the same value is not allowed |
| Envelopes.ToggleBackRestores | src/services/ClassesServices.ts:75-84 | toggling to a value and back to the old one is allowed and restores the store exactly |
| Envelopes.ToggleKeepsWellKeyed | src/services/ClassesServices.ts:83-84 | a toggle keeps every document stored under its own id |
| Envelopes.MergeKeepsWellKeyed | src/services/ClassesServices.ts:49 | an update keeps every document stored under its own id |
| Envelopes.MergeRoundTrip | src/services/ClassesServices.ts:49 | an update takes the payload's `en` and `pt`, keeps the id, keeps `active` when the payload has none, and repeating the same update changes nothing more |
| ClassesServices.ClassesServices.FindAll | src/services/ClassesServices.ts:14-17 | the result holds exactly the active classes, with their stored contents |
| ClassesServices.ClassesServices.FindAllDisabled | src/services/ClassesServices.ts:19-22 | the result holds exactly the disabled classes, with their stored contents |
| ClassesServices.ClassesServices.FindOne | src/services/ClassesServices.ts:24-36 | the stored class when the id exists, otherwise the 404 "NotFound a class with provided ID" error |
| ClassesServices.ClassesServices.Update | src/services/ClassesServices.ts:38-60 | validation error first, then 400 for a payload that switches the class on, then 404 for an unknown id; on success the document becomes the payload merged over it, and on any error the store is unchanged |
| ClassesServices.ClassesServices.UpdateAvailability | src/services/ClassesServices.ts:62-95 | succeeds iff the payload validates, the id exists and the class is not already in the requested state; the errors come in that order, with "Entity already enabled/disabled"; on success the store is the toggled store, otherwise unchanged |
| ClassesServices.ToggleTwice | src/services/ClassesServices.ts:62-95 | repeating the same availability request always fails, and after a successful first request it fails with the "already" error |
| MonstersServices.MonstersServices.FindAll | src/services/MonstersServices.ts:18-23 | returns every stored monster |
| MonstersServices.MonstersServices.FindOne | src/services/MonstersServices.ts:25-34 | the stored monster when the id exists, otherwise the injected 404 not-found-by-id error |
| MonstersServices.MonstersServices.FindAllDisabled | src/services/MonstersServices.ts:36-41 | returns exactly the monsters whose `active` is true |
| MonstersServices.MonstersServices.Update | src/services/MonstersServices.ts:43-56 | validation error, then the bad-request error when the payload's `active` is true, then 404; on success the merged document is stored |
| MonstersServices.MonstersServices.UpdateAvailability | src/services/MonstersServices.ts:58-77 | 404 for an unknown id, bad request when the monster is already in the requested state; otherwise the store is toggled and the reply is "Monster <id> was activated/deactivated" with name "success" |
| CatalogServices.CatalogServices.Armors | src/services/ArmorsServices.ts:8-11 | builds the armor service over the given store, with the not-found text "NotFound an armor with provided ID" |
| CatalogServices.CatalogServices.Items | src/services/ItemsServices.ts:8-13 | builds the item service, with the not-found text "NotFound a Item with provided ID" |
| CatalogServices.CatalogServices.MagicItems | src/services/MagicItemsServices.ts:8-11 | builds the magic-item service, with the not-found text "NotFound a magic item with provided ID" |
| CatalogServices.CatalogServices.FindAll | src/services/ArmorsServices.ts:13-16 | returns every stored document |
| CatalogServices.CatalogServices.FindOne | src/services/ArmorsServices.ts:18-30 | the stored document when the id exists, otherwise the entity's 404 error |
| CatalogServices.CatalogServices.Update | src/services/ArmorsServices.ts:32-46 | validation error, then 404; on success the merged document is stored, otherwise the store is unchanged |
| CatalogServices.CatalogServices.Delete | src/services/ArmorsServices.ts:48-60 | succeeds iff the id exists and then removes exactly that document; otherwise 404 and the store is unchanged |
| SystemServices.Without | src/services/SystemServices.ts:58-60 | the filtered array no longer holds the removed id, holds only ids of the original, and is no longer than it |
| SystemServices.ContentAfter | src/services/SystemServices.ts:53-63 | the content after the write has the same array names and the same arrays except the selected one; after 'remove' the selected array no longer holds the id; any other operation leaves the content as it was |
| SystemServices.WithoutMultiset | src/services/SystemServices.ts:57-63 | removing an id keeps every other id with its multiplicity and drops every copy of the removed one |
| SystemServices.WithoutConcat | src/services/SystemServices.ts:57-63 | the filter distributes over concatenation |
| SystemServices.WithoutAbsent | src/services/SystemServices.ts:57-63 | removing an id that is not in the array leaves the array unchanged |
| SystemServices.AddThenRemove | src/services/SystemServices.ts:53-63 | adding an id that was absent and then removing it restores the array |
| SystemServices.ContentAfterEffect | src/services/SystemServices.ts:53-63 | 'add' appends the id at the end of the selected array, 'remove' takes out every copy of it and nothing else; the other arrays and the set of array names are unchanged |
| SystemServices.SystemServices.FindAll | src/services/SystemServices.ts:17-22 | returns every stored system |
| SystemServices.SystemServices.FindOne | src/services/SystemServices.ts:24-29 | the stored system, or the system-not-found response error |
| SystemServices.SystemServices.Update | src/services/SystemServices.ts:31-40 | validation error, then 403 when the payload carries `content`, then not-found; on success the merged system is stored, otherwise the store is unchanged |
| SystemServices.SystemServices.UpdateContent | src/services/SystemServices.ts:42-73 | validation, entity-query and not-found errors in that order, then the TypeError when 'add' or 'remove' names an array the system lacks; on every error the store is unchanged; otherwise the system's content becomes the add or remove result, nothing else changes, and the reply names the id, the operation, the array and the system |
| SystemServices.SystemServices.Activate | src/services/SystemServices.ts:75-87 | not-found, then the `responseActive(true)` error that `systemActive` throws with code 400; otherwise only `active` becomes true and the reply is "System <id> was activated" |
| SystemServices.SystemServices.Deactivate | src/services/SystemServices.ts:89-101 | not-found, then the `responseActive(false)` error that `systemActive` throws with code 400; otherwise only `active` becomes false and the reply is "System <id> was deactivated" |
| UsersServices.Cryptographer | src/services/user/UsersServices.ts:19-21 | the "hashed" password is the password as given: no hashing happens |
| UsersServices.Tag | src/services/user/UsersServices.ts:40 | a tag is '#' followed by digits only, and those digits read back as the tag number |
| Decimals.ParseDecimalOfDecimal | src/services/user/UsersServices.ts:40 | the decimal text of a number reads back as that number |
| Decimals.DecimalInjective | src/services/user/UsersServices.ts:40 | distinct numbers give distinct tag texts |
| Decimals.DecimalShape | src/services/user/UsersServices.ts:40 | no leading zero for a positive number, and at most 2, 3 or 4 digits below 100, 1000 or 10000 |
| UsersServices.TagNumber | src/services/user/UsersServices.ts:40 | the tag number lies between 1 and 9999 for every random draw in [0, 1) |
| UsersServices.TagShape | src/services/user/UsersServices.ts:40 | a tag is '#' followed by one to four digits without a leading zero, reading back as a number from 1 to 9999 |
| UsersServices.UsersServices.Register | src/services/user/UsersServices.ts:23-82 | the user validation, detail validation, email check and (tag, nickname) check fail in that order and leave both stores unchanged; otherwise a fresh user with the payload's fields, the unchanged password, the tag and equal timestamps is added, and a fresh detail whose `userId` is the new user's id is added |
| VerifyIdMiddleware.MatchPiecesPositional | src/interface/users/middlewares/VerifyIdMiddleware.ts:10 | a sequence of bracket classes with counts matches a text iff the lengths agree and every position satisfies its class |
| VerifyIdMiddleware.UuidPieces | src/interface/users/middlewares/VerifyIdMiddleware.ts:10 | the pattern's pieces cover 36 positions, each with its version-4 UUID class |
| VerifyIdMiddleware.ClassMatchesUuid | src/interface/users/middlewares/VerifyIdMiddleware.ts:10 | with the `i` flag, each bracket class of the pattern accepts exactly the characters of its UUID position |
| VerifyIdMiddleware.IsValidUuid | src/interface/users/middlewares/VerifyIdMiddleware.ts:10-12 | `isValidUUID.test(id)` is true exactly for the version-4 UUID texts of the positional definition |
| VerifyIdMiddleware.UuidPatternIsRfc4122V4 | src/interface/users/middlewares/VerifyIdMiddleware.ts:10 | the regular expression accepts a text iff it is a version-4 UUID (hex digits, dashes at 8, 13, 18 and 23, '4' at 14, 8/9/a/b at 19), in either case |
| VerifyIdMiddleware.AcceptedIdLayout | src/interface/users/middlewares/VerifyIdMiddleware.ts:10 | an accepted id has 36 characters, dashes exactly at the four dash positions, and the version and variant digits |
| VerifyIdMiddleware.MatchIgnoresCase | src/interface/users/middlewares/VerifyIdMiddleware.ts:10 | a match does not depend on letter case |
| VerifyIdMiddleware.VerdictIgnoresCase | src/interface/users/middlewares/VerifyIdMiddleware.ts:7-22 | upper-casing or lower-casing the id does not change the middleware's verdict |
| VerifyIdMiddleware.VerifyId | src/interface/users/middlewares/VerifyIdMiddleware.ts:7-22 | passes to the next handler iff the id is a version-4 UUID text; otherwise throws 400 "The parameter id is invalid" named "Invalid Entry" |
| VerifyEmailCodeMiddleware.FindFirst | src/interface/users/middlewares/VerifyEmailCodeMiddleware.ts:32-33 | the repository's `findOne` gives nothing iff no record matches, and otherwise the first matching record |
| VerifyEmailCodeMiddleware.VerifyEmailCodeMiddleware.Verify | src/interface/users/middlewares/VerifyEmailCodeMiddleware.ts:18-41 | without id and email it throws the 400 "Neither id or email" error; otherwise the email lookup wins over the id lookup, a missing user gives the injected `throwError('user-inexistent')`, a user without `inProgress` gives the 500 `TypeError`, a different code gives `throwError('invalid-email-verify-code')`; passing means some stored user holds the given key and code |
| HttpRequestErrors.VerifyErrorCodes | src/services/helpers/HttpRequestErrors.ts:42-47 | in the services-layer error table, `user-inexistent` is a 404 NotFound "User does not exist" and `invalid-email-verify-code` (lines 112-117) a 400 BadRequest "Invalid email verify code" |
| UserSerializer.SerializeUser | src/support/helpers/userSerializer.ts:8-26 | the external id is the profile's id; Discord profiles give username and email, Google and Facebook profiles give the display name and the JSON email, and any other provider gives empty name and email |
| UserSerializer.Pick | src/support/helpers/userSerializer.ts:40-58 | the result has exactly the listed keys; a key the input defines keeps its value, and a missing or undefined key becomes null |
| UserSerializer.PostUserSerializer | src/support/helpers/userSerializer.ts:40-58 | the result has exactly the seven user keys, each holding the input's value or null where the input lacks it |
| UserSerializer.PostUserDetailsSerializer | src/support/helpers/userSerializer.ts:60-82 | the result has exactly the nine detail keys, each holding the input's value or null where the input lacks it |
| UserSerializer.PickIdempotent | src/support/helpers/userSerializer.ts:40-82 | serializing an already serialized object changes nothing |
| UserSerializer.PostSerializersShape | src/support/helpers/userSerializer.ts:40-82 | the user serializer yields exactly its seven keys and the detail serializer its nine, and both are idempotent |
| ParametersWrapper.GenerateIdParam | src/routes/parametersWrapper.ts:3-12 | one required string parameter `_id` in the path |
| ParametersWrapper.GenerateQueryParam | src/routes/parametersWrapper.ts:14-29 | one required query parameter per index below `count` (none when `count` is not positive), carrying the name and type of `names` at that index |

## Left out

- Logging (`_logger`, `logger`) is not modelled. It has no effect on results.
- Asynchrony is not modelled. Every `await` is a single atomic step, so races
  between requests are not captured. The second not-found check after the
  write in the classes `updateAvailability` (lines 86-92) only guards such a
  race, and it is left out.
- The document store `@tablerise/database-management` is not part of this
  model. `Store.Collection` states the store's contract (lookup, filter,
  update, delete, create with a fresh id). `findAll` returns a map from id to
  document, so the order of the results is not captured.
- The zod schemas, `ValidateData`, `ValidateEntry`, `getErrorName`,
  `errorMessage` and the Express request objects are not part of this model.
  Validators, error constructors and message texts are parameters. The model
  therefore does not know which payloads the schemas accept or which codes
  their errors carry.
- `GetErrorName` is defined only for the codes `throwError` uses (400, 401,
  404 and 500).
- Errors carry their HTTP code as a number. The source stores it as a
  string in `err.stack`.
- `Math.random()` and `new Date().toISOString()` are inputs of `Register`.
  The format of the timestamp is not captured.
- Floating-point rounding of `Math.random() * 9999` is not captured:
  `TagNumber` multiplies exact reals.
- `_cryptographer` is the identity in the source, and so is
  `UsersServices.Cryptographer`.
- The object spreads (`...user`, `...userDetails`, `_doc`) are modelled as
  fixed record fields plus an uninterpreted `other` part.
- `ItemsServices` and `MagicItemsServices` repeat the bodies of
  `ArmorsServices` (src/services/ItemsServices.ts:15-61 and
  src/services/MagicItemsServices.ts:13-60). Each `CatalogServices` row
  cites the armor copy.
- Controllers, routes, Swagger generation and the OAuth strategies are
  outside the modelled core.
- UserSerializer.PostSerializersShape: it states the exact key sets, not
  their number.
- ParametersWrapper.GenerateQueryParam: requires `count <= |names|`. With a
  larger count the source reads `.name` of `undefined` and throws a
  `TypeError`, which is not modelled.
- Verify: the `HttpRequestErrors` that both middlewares import
  (`src/infra/helpers/common/HttpRequestErrors`) is not part of this model.
  Its `throwError` is a parameter of `VerifyEmailCodeMiddleware`, so
  `Verify` names the tag thrown but not the code and message that tag
  carries.
- HttpRequestErrors.VerifyErrorCodes: it states the codes of the services-layer table in
  src/services/helpers/HttpRequestErrors.ts. The model does not promise that
  the infrastructure copy the middleware imports has the same entries.
- Validation.ValidateData.Existance and Validation.ValidateData.SystemActive:
  the bodies of `ValidateData.existance` and `ValidateData.systemActive` are
  not part of this model. They are taken to throw exactly when their first
  argument is truthy, which is how src/services/MonstersServices.ts:46,65
  and src/services/SystemServices.ts:34,79,93 use them. The error each one
  throws is an injected constructor.
- The errors the two middlewares build with `new HttpRequestErrors(...)` are
  written out as plain records. They assume the infrastructure constructor
  stores its fields as `Construct` does.
- ClassesServices.ClassesServices.UpdateAvailability: takes the payload's
  `active` flag rather than the whole `{ active }` object.

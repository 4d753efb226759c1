# User service of the recruitment application, modelled in Dafny

The server of the recruitment application keeps its accounts in two places. The first is a
record store: MongoDB, through the Mongoose `User` model. The second is a cache: Redis. Both
sit behind `UserService` (`server/src/services/userService.js`), which has four operations:

- `register` validates the body, checks that the e-mail is unknown, creates the record,
  caches the record and its public projection, and signs a token.
- `login` validates the form, finds the record through the e-mail key of the cache and then
  the store, checks the password, refreshes the id key and signs a token.
- `getUser` reads the id key and falls back to the store.
- `updateUser` validates a patch, updates the record, refreshes the id key and deletes e-mail
  keys.

Two middlewares guard the routes. `authMiddleware` checks the `Authorization: Bearer <token>`
header and sets `req.user`. `roleMiddleware(roles)` refuses a user whose role is not listed,
with 403.

The project models these pieces:

- `base.dfy`: `Option`, and `Outcome`, which is a value, an `AppError` (status and message)
  or a fault (an exception that is not an `AppError`).
- `text.dfy`: `trim`, `toLowerCase`, `startsWith`, `split` and `join`, and their laws.
- `credentials.dfy`: a stand-in for bcrypt. The hash is injective, and `compare` accepts
  exactly the plaintext a hash was made from (bcrypt itself reads only the first 72 bytes;
  see "Left out").
- `user_model.dfy`: the `User` schema (`server/src/models/User.js`).
  - The record shape, the role enum and the schema invariant `Conforms`.
  - The pre-save hook and `comparePassword`.
  - A `UserDocument` class whose `save` updates the document in place.
- `tokens.dfy`: a stand-in for `jsonwebtoken`. `Verify(Sign(c, e))` gives back `c` and `e`.
- `schemas.dfy`: the three Joi schemas, with Joi's first-error messages.
- `repositories.dfy`: cache keys and entries, and the record store with its two unique
  indexes (on `_id` and on `email`). It also has `Codec`, which says how the cache reads
  a stored record back:
  - `PlainJson`: a plain object without `comparePassword`;
  - `Revived`: a `User` document again.
- `service_spec.dfy`: the four operations as functions from a state (store and cache) to an
  outcome and a next state. It also has per-call lemmas and the invariant `Valid`, which
  every operation keeps.
- `service.dfy`: the class `UserService`. It is opened on any store and cache that meet
  `Valid`. Its `store` and `cache` fields are updated one repository call at a time. Each
  of the four operations, and each helper step they call, is proved to give exactly the
  outcome and next state of its `ServiceSpec` function; the four operations also keep
  `Valid`.
- `auth.dfy` and `role.dfy`: the two middlewares as decisions on a header or a user, the
  request object they update, and the middleware chains of `GET /:id` and `PUT /:id`.
- `properties.dfy`: what one operation leaves for the next. These lemmas include the places
  where the cache and the store disagree. `RedisCacheRepository` is not part of this
  model, so each login lemma is stated for both codecs:
  - With `Revived`, the previous e-mail still logs in after an e-mail change, while its key
    is cached.
  - With `Revived`, a demoted Admin who logs in through a cached e-mail key still gets an
    Admin token.
  - With `PlainJson`, every login that hits an e-mail key throws
    "user.comparePassword is not a function", whatever the password. That includes a login
    right after `register` and a second login with the same form.

Behaviours the code has as written, which the model keeps:

- The e-mail keys are built from the e-mail as the client typed it. The store lowercases and
  trims it.
- `login` refuses a wrong password and an unknown e-mail with the same 401, except on a
  `PlainJson` cache hit, which throws before the password is looked at.
- `getUser` returns the full store record, password hash included, on a cache miss. On a hit
  it returns the projection.
- `updateUser` deletes the key of the new stored e-mail and the key of the e-mail as typed.
  It never deletes the key of the account's previous e-mail.
- Failures inside the store are not mapped to a status. A duplicate e-mail on update, or an
  insert refused by validation, comes back as a fault, not as 409. The model keeps only the
  start of each message: "User validation failed" (`UserModel.ValidationFailed`) and
  "E11000 duplicate key error" (`Repositories.DuplicateKey`). The rest of each message
  names the failing paths, or the index and the key, and is left out.

## Model

| member | source | states |
|---|---|---|
| Text.Lower | server/src/models/User.js:9 | `toLowerCase` keeps the length and maps every character through the ASCII lower-casing |
| Text.LowerCharNotUpper | server/src/models/User.js:9 | a lower-cased character is never an upper-case letter |
| Text.LowerCharNotSpace | server/src/models/User.js:9 | lower-casing never turns a character into white space |
| Text.TrimStart | server/src/models/User.js:10 | the result is no longer than the input, does not start with white space, and everything dropped was white space |
| Text.TrimEnd | server/src/models/User.js:10 | the result is no longer than the input, does not end with white space, and everything dropped was white space |
| Text.TrimStartIsSuffix | server/src/models/User.js:10 | what is kept after trimming the start is a suffix of the input |
| Text.TrimEndIsPrefix | server/src/models/User.js:10 | what is kept after trimming the end is a prefix of the input |
| Text.Trim | server/src/models/User.js:24 | the trimmed string is no longer than the input and neither starts nor ends with white space |
| Text.TrimOfTrimmed | server/src/models/User.js:24 | trimming a trimmed string changes nothing |
| Text.TrimIdempotent | server/src/models/User.js:24 | trimming twice is trimming once |
| Text.TrimWithoutSpace | server/src/models/User.js:24 | a string without white space is its own trim |
| Text.TrimKeepsNoUpper | server/src/models/User.js:9-10 | trimming a string without upper-case letters gives one without upper-case letters |
| Text.LowerOfLowered | server/src/models/User.js:9 | lower-casing a string without upper-case letters changes nothing |
| Text.Normalize | server/src/models/User.js:9-10 | the e-mail setters: `lowercase`, then `trim`. `NormalizeSpec`, `NormalizeHasNoUpper`, `NormalizeIdempotent` and `NormalizeWithoutSpace` state what it gives |
| Text.NormalizeSpec | server/src/models/User.js:5-11 | the e-mail setters always produce a normalized string, and leave a normalized string unchanged |
| Text.NormalizeHasNoUpper | server/src/models/User.js:9-10 | the setters' result holds no upper-case letter |
| Text.NormalizeIdempotent | server/src/models/User.js:5-11 | running the setters on a stored e-mail again changes nothing |
| Text.NormalizeWithoutSpace | server/src/models/User.js:9-10 | on a string without white space the setters only lower-case |
| Text.StartsWith | server/src/middlewares/auth.js:8 | `startsWith(prefix)`: the string begins with the prefix. `Auth.Authenticate` and `Auth.BearerTokenOf` state how the middleware uses it |
| Text.Split | server/src/middlewares/auth.js:12 | `split` always gives at least one piece, and no piece holds the separator |
| Text.JoinSplit | server/src/middlewares/auth.js:12 | joining the pieces of a split gives the string back |
| Text.SplitPrefix | server/src/middlewares/auth.js:12 | splitting a separator-free prefix followed by a string that starts with the separator gives the prefix, then the rest's pieces |
| Text.SplitAtSep | server/src/middlewares/auth.js:12 | splitting at the first separator gives the piece before it, then the pieces after it |
| Text.SplitJoin | server/src/middlewares/auth.js:12 | splitting a join of separator-free pieces gives the pieces back |
| Text.SplitOfPiece | server/src/middlewares/auth.js:12 | a string without the separator splits into itself alone |
| Text.JoinExcludes | server/src/middlewares/auth.js:12 | a character in no piece, other than the separator, is not in their join |
| Credentials.Hash | server/src/models/User.js:34 | `bcrypt.hash` gives a string with the cost-10 tag, never the plaintext itself |
| Credentials.Compare | server/src/models/User.js:40 | `bcrypt.compare(plain, hash)` of the stand-in. `CompareHash` states what it accepts |
| Credentials.CompareHash | server/src/models/User.js:40 | `bcrypt.compare(p, hash(q))` holds exactly when `p == q` |
| UserModel.Conforms | server/src/models/User.js:4-30 | what the schema guarantees of a stored record: a present e-mail kept lower-cased and trimmed, a trimmed name and a hashed password. `CreateRecordSpec` states that a created record meets it, `UpdateRecordSpec` that an update keeps it (through `StoreValid`), and `LookupPreservesValid` and `LoginSuccess` that a found record meets it |
| UserModel.ParseRole | server/src/models/User.js:16-20 | a string is parsed to a role exactly when it is that role's enum name |
| UserModel.PasswordAfterSave | server/src/models/User.js:32-37 | the pre-save hook on the password: its hash when the path was modified, otherwise unchanged. `ResaveKeepsHash` and `UserDocument.Save` state what it does |
| UserModel.ComparePassword | server/src/models/User.js:39-41 | `comparePassword` on a stored record: `bcrypt.compare` of the candidate against the stored hash. `ComparePasswordSaved` states what it accepts |
| UserModel.ComparePasswordSaved | server/src/models/User.js:39-41 | a record saved from a plaintext accepts exactly that plaintext |
| UserModel.ResaveKeepsHash | server/src/models/User.js:32-37 | a second save keeps the stored hash exactly when the password is not marked modified again |
| UserModel.UserDocument.constructor | server/src/models/User.js:4-30 | `new User(data)` holds the lower-cased, trimmed e-mail, the trimmed name, the plaintext password, the role and the creation time, with the password marked modified |
| UserModel.UserDocument.Save | server/src/models/User.js:32-37 | `save` refuses a document with an empty required field and changes nothing then; otherwise it replaces the password by its hash exactly when it was modified, and clears the flag |
| UserModel.CreateAndSave | server/src/models/User.js:4-37 | a new document saves exactly when the normalized e-mail, the password and the trimmed name are non-empty, and then holds the hashed password |
| UserModel.CreateAndSaveTwice | server/src/models/User.js:32-41 | saving twice gives the same verdict twice and hashes the password once; the document then accepts exactly the original plaintext |
| Tokens.Escape | server/src/services/userService.js:54-57 | an escaped field holds neither '.' nor a space |
| Tokens.UnescapeEscape | server/src/services/userService.js:54-57 | unescaping an escaped field gives it back |
| Tokens.Sign | server/src/services/userService.js:54-57 | a signed token holds no space |
| Tokens.Verify | server/src/middlewares/auth.js:14 | `jwt.verify`: parses a token back into its claims and lifetime, or refuses it. `VerifySign` states the round trip; the limits are under "Left out" |
| Tokens.VerifySign | server/src/middlewares/auth.js:14 | verifying a signed token gives back exactly the claims and lifetime it was signed with |
| Schemas.ValidEmail | server/src/services/userService.js:15 | Joi's `email()` reduced to its shape: one '@', a non-empty local part, a dotted domain of non-empty labels, no white space. `EmailError` states where the schemas use it, `ValidEmailNormalizes` what the setters do to it, and "Left out" what it leaves out |
| Schemas.ValidEmailNormalizes | server/src/services/userService.js:15 | a valid e-mail is non-empty, and the setters only lower-case it and never empty it |
| Schemas.EmailError | server/src/services/userService.js:15 | the e-mail rule passes exactly for an absent optional value or a valid address |
| Schemas.MinLengthError | server/src/services/userService.js:16 | the `min` rule passes exactly for an absent optional value or a long enough one |
| Schemas.PresentError | server/src/services/userService.js:70 | the `required` rule passes exactly for a present, non-empty value |
| Schemas.RoleError | server/src/services/userService.js:17 | the `valid` rule passes exactly for an absent optional value or one of the three role names |
| Schemas.UnknownKeyError | server/src/services/userService.js:14-19 | an object schema passes exactly when there is no key outside it |
| Schemas.FirstError | server/src/services/userService.js:28 | the first error is absent exactly when every rule passes; otherwise it is the error of the first failing rule |
| Schemas.ValidateRegistration | server/src/services/userService.js:14-19 | `createUserSchema` accepts exactly the bodies meeting all four rules with no extra key, and hands on the body's own fields |
| Schemas.ValidateLogin | server/src/services/userService.js:68-72 | the login schema accepts exactly a valid e-mail and a non-empty password |
| Schemas.ValidatePatch | server/src/services/userService.js:21-25 | `updateUserSchema` accepts exactly the patches whose present fields are valid and which carry no other key (so no password), and keeps the fields |
| Repositories.Project | server/src/services/userService.js:46-51 | the public projection `{id, email, role, name}`: every field of the record but the password. `GetUserShapes`, `RegisterSuccess` and `UpdateSuccess` state where it is returned |
| Repositories.KeyText | server/src/services/userService.js:32 | the Redis string of a key: `user:id:<id>` or `user:email:<email>`, the templates of userService.js:32, 46, 76 and 93. `FamiliesDiffer` and `KeyTextInjective` state that no two keys share a string |
| Repositories.FamiliesDiffer | server/src/services/userService.js:32 | no `user:id:` key is spelled like a `user:email:` key |
| Repositories.KeyTextInjective | server/src/services/userService.js:46 | two cache keys are the same Redis string exactly when they are the same key |
| Repositories.StoreValid | server/src/models/User.js:8 | what the store guarantees: each record sits under its own id and conforms, and the unique index keeps e-mails distinct. `InsertKeepsValid`, `CreateRecordSpec`, `UpdateRecordSpec` and the `PreservesValid` lemmas state that it is kept |
| Repositories.EmailFree | server/src/models/User.js:8 | no record other than the given id holds the e-mail: what the unique index demands of an insert or update. `CreateRecordSpec` and `UpdateOutcome` state that writes succeed exactly when it holds |
| Repositories.FindByEmail | server/src/services/userService.js:35 | a lookup by e-mail finds a stored record with the normalized e-mail, or reports that none has it |
| Repositories.FindByEmailUnique | server/src/models/User.js:8 | with the unique index, the lookup finds the one record holding the address |
| Repositories.FindById | server/src/services/userService.js:117 | `findUserById`: the record stored under the id, or none. `GetUserCases` states what `getUser` does with it |
| Repositories.CreateRecord | server/src/services/userService.js:44 | creating a record never gives an `AppError` |
| Repositories.CreateRecordSpec | server/src/services/userService.js:44 | creation succeeds exactly when the normalized fields are present and the id and e-mail are free; the record has the normalized fields and the hashed password, conforms, keeps the store valid and accepts exactly its plaintext |
| Repositories.InsertKeepsValid | server/src/models/User.js:8 | writing a conforming record whose e-mail no other record holds keeps both indexes |
| Repositories.ApplyChanges | server/src/services/userService.js:136 | the patch through the setters: a given e-mail is normalized, a given name trimmed, a given role replaces the old one, and absent fields are kept. `UpdateRecordSpec` and `UpdateNext` state its effect |
| Repositories.UpdateRecord | server/src/services/userService.js:136 | `updateUser` on the store: `None` for an unknown id, a fault when another record holds the patched e-mail, otherwise the patched record. `UpdateRecordSpec` states it |
| Repositories.UpdateRecordSpec | server/src/services/userService.js:136 | an update is `None` exactly for an unknown id, fails exactly on a taken e-mail, and otherwise keeps the id, the hash, the creation time and a valid store |
| ServiceSpec.IssueToken | server/src/services/userService.js:54-57 | `jwt.sign({id, role}, secret, {expiresIn: '1h'})` for an account. `VerifySign` and `SignedTokenRoutes` state what the token gives back |
| ServiceSpec.CacheSetId | server/src/services/userService.js:46-51 | caching a projection under its id key keeps the cache invariant |
| ServiceSpec.CacheSetEmail | server/src/services/userService.js:52 | caching a conforming record under a key whose e-mail normalizes to the record's keeps the cache invariant |
| ServiceSpec.CacheDrop | server/src/services/userService.js:148 | deleting a key keeps the cache invariant |
| ServiceSpec.LookupByEmail | server/src/services/userService.js:32-39 | the cache-aside read by the e-mail as typed: a hit gives the cached value with `hit` set and changes nothing; a miss asks the store and caches a record it finds. `LookupTouchesOnlyItsKey` and `LookupPreservesValid` state it |
| ServiceSpec.Enroll | server/src/services/userService.js:44-64 | the creation half of `register`: create the record, cache the projection and the record, sign a token. `RegisterSuccess` states it |
| ServiceSpec.Register | server/src/services/userService.js:27-65 | `register` as a step on the state. `ValidationComesFirst`, `RegisterConflict`, `RegisterSuccess` and `RegisterPreservesValid` state it |
| ServiceSpec.HasComparePassword | server/src/services/userService.js:88 | whether the value `login` found has `comparePassword`: a record from the store does, a record from the cache only with `Revived`, a projection never |
| ServiceSpec.CheckCredentials | server/src/services/userService.js:84-110 | the password half of `login`: 401, the `comparePassword` fault, or the session with the id key refreshed. `LoginRefusals` and `LoginSuccess` state it |
| ServiceSpec.Login | server/src/services/userService.js:67-111 | `login` as a step on the state, for a cache codec. `LoginRefusals`, `LoginSuccess` and `LoginPreservesValid` state it |
| ServiceSpec.GetUser | server/src/services/userService.js:113-129 | `getUser` as a step on the state. `GetUserCases`, `GetUserShapes` and `GetUserPreservesValid` state it |
| ServiceSpec.DropEmailKeys | server/src/services/userService.js:147-152 | the e-mail invalidation: delete the key of the stored e-mail, then the key of the requested one when the strings differ. `DropKeeps` and `DropRemoves` state it |
| ServiceSpec.UpdateUser | server/src/services/userService.js:131-154 | `updateUser` as a step on the state. `UpdateOutcome`, `UpdateSuccess`, `UpdateNext`, `UpdateEmailKeys` and `UpdatePreservesValid` state it |
| ServiceSpec.LookupTouchesOnlyItsKey | server/src/services/userService.js:32-39 | the cache-aside read never writes the store or any key but the e-mail key it reads |
| ServiceSpec.ValidationComesFirst | server/src/services/userService.js:28-31 | input that fails its schema is refused with 400 and Joi's message, and the state is unchanged |
| ServiceSpec.RegisterConflict | server/src/services/userService.js:32-42 | `register` answers 409 exactly when the e-mail key is cached or the store holds the normalized e-mail; the store is then unchanged and a store hit is cached |
| ServiceSpec.RegisterSuccess | server/src/services/userService.js:27-65 | `register` succeeds exactly for valid input with an unknown e-mail, a free id and a non-empty trimmed name; it adds one record and two cache keys and returns the projection and a 1h token over `{id, role}` |
| ServiceSpec.LoginRefusals | server/src/services/userService.js:76-91 | a refusal is a 401 or the `comparePassword` fault. The fault happens exactly on an e-mail-key hit with a `PlainJson` cache. Otherwise an unknown e-mail and a wrong password give the same 401 "Invalid credentials". A refusal leaves the state the lookup left, so it changes no store and no id key |
| ServiceSpec.LoginSuccess | server/src/services/userService.js:67-111 | a successful login was a store hit or a hit on a `Revived` cache. It found a conforming record for the lower-cased e-mail that accepts the password, and returns its projection and token. The whole next state: the store is unchanged, and the cache gains only the record under the e-mail key (on a store hit) and the projection under the id key |
| ServiceSpec.GetUserCases | server/src/services/userService.js:113-129 | `getUser` trusts a cache hit; a miss on an unknown id is 404 with nothing changed; a miss on a known id returns the record and caches its projection |
| ServiceSpec.GetUserShapes | server/src/services/userService.js:113-129 | a hit hands out a projection of the requested id; a miss hands out the full record with its password hash |
| ServiceSpec.UpdateNext | server/src/services/userService.js:136-152 | the state a successful update leaves: the patched record, its projection under the id key, and the e-mail keys dropped when the patch names an e-mail |
| ServiceSpec.DropKeeps | server/src/services/userService.js:147-152 | the e-mail invalidation keeps every key but the two it deletes |
| ServiceSpec.DropRemoves | server/src/services/userService.js:147-152 | after the e-mail invalidation both deleted keys are gone |
| ServiceSpec.UpdateOutcome | server/src/services/userService.js:131-139 | an update of an unknown id is 404 with nothing changed; an update succeeds exactly for a valid patch of a known id whose new e-mail no other record holds |
| ServiceSpec.UpdateSuccess | server/src/services/userService.js:136-153 | a successful update stores the patched record with the same id and hash, caches its projection under the id key and returns it |
| ServiceSpec.UpdateKeepsKey | server/src/services/userService.js:140-152 | any key other than the id key and the patch's e-mail keys keeps its entry |
| ServiceSpec.DroppedKeys | server/src/services/userService.js:147-152 | the e-mail keys a patch makes `updateUser` delete: none without an e-mail, else the keys of the normalized and the typed e-mail. `UpdateEmailKeys` states that exactly these go |
| ServiceSpec.UpdateEmailKeys | server/src/services/userService.js:147-152 | the e-mail keys a successful update deletes are exactly those of the stored and the typed e-mail; every other key but the id key is kept |
| ServiceSpec.LookupPreservesValid | server/src/services/userService.js:32-39 | the cache-aside read keeps the invariant and finds only conforming records with the normalized e-mail |
| ServiceSpec.RegisterPreservesValid | server/src/services/userService.js:27-65 | `register` keeps the store and cache invariant |
| ServiceSpec.LoginPreservesValid | server/src/services/userService.js:67-111 | `login` keeps the invariant |
| ServiceSpec.GetUserPreservesValid | server/src/services/userService.js:113-129 | `getUser` keeps the invariant |
| ServiceSpec.UpdatePreservesValid | server/src/services/userService.js:131-154 | `updateUser` keeps the invariant |
| Service.UserService.constructor | server/src/services/userService.js:9-12 | a new service is opened on the given store, cache and cache codec, which meet the invariant |
| Service.UserService.CacheGet | server/src/services/userService.js:33 | a cache read finds exactly the cached keys and their values |
| Service.UserService.CacheSet | server/src/services/userService.js:37 | a cache write sets one key and leaves the rest |
| Service.UserService.CacheDel | server/src/services/userService.js:148 | a cache delete removes one key and leaves the rest |
| Service.UserService.FindUserByEmail | server/src/services/userService.js:35 | the lookup by e-mail on the store field returns the record `FindByEmail` specifies |
| Service.UserService.FindUserById | server/src/services/userService.js:117 | the lookup by id returns the stored record, if any |
| Service.UserService.CreateUser | server/src/services/userService.js:44 | the insert gives `CreateRecord`'s outcome and adds the record to the store only on success |
| Service.UserService.UpdateStore | server/src/services/userService.js:136 | the update gives `UpdateRecord`'s outcome and writes the store only on success |
| Service.UserService.LookupEmail | server/src/services/userService.js:32-39 | the cache-aside read leaves the state, and gives the value and the hit flag, that `ServiceSpec.LookupByEmail` does |
| Service.UserService.Enroll | server/src/services/userService.js:44-64 | the creation half of `register` ends in the outcome and state of `ServiceSpec.Enroll` |
| Service.UserService.Register | server/src/services/userService.js:27-65 | `register` ends in the outcome and state of `ServiceSpec.Register`, and keeps the invariant |
| Service.UserService.CheckCredentials | server/src/services/userService.js:84-110 | the password half of `login` ends in the outcome and state of `ServiceSpec.CheckCredentials` for the service's codec |
| Service.UserService.Login | server/src/services/userService.js:67-111 | `login` ends in the outcome and state of `ServiceSpec.Login` for the service's codec, and keeps the invariant |
| Service.UserService.GetUser | server/src/services/userService.js:113-129 | `getUser` ends in the outcome and state of `ServiceSpec.GetUser`, and keeps the invariant |
| Service.UserService.UpdateUser | server/src/services/userService.js:131-154 | `updateUser` ends in the outcome and state of `ServiceSpec.UpdateUser`, and keeps the invariant |
| Auth.BearerWords | server/src/middlewares/auth.js:12 | a header starting with "Bearer " splits on spaces into "Bearer" and at least one more word |
| Auth.BearerToken | server/src/middlewares/auth.js:12 | the extracted token holds no space |
| Auth.Authenticate | server/src/middlewares/auth.js:5-19 | the middleware passes exactly a present "Bearer " header whose second word verifies, with that token's `{id, role}`; every refusal is 401, "Authentication token required" exactly for a missing or malformed header, and "Invalid or expired token" exactly when the token does not verify |
| Auth.AuthenticateSigned | server/src/middlewares/auth.js:5-19 | a "Bearer " header carrying a signed token passes with the signed id and role |
| Auth.BearerTokenOf | server/src/middlewares/auth.js:8-12 | "Bearer " followed by one word passes the prefix check and yields that word as the token |
| Auth.TrailingWordsIgnored | server/src/middlewares/auth.js:12 | words after the token do not change the verdict |
| Auth.Request.constructor | server/src/middlewares/auth.js:6 | a request starts with its header and no user |
| Auth.AuthMiddleware | server/src/middlewares/auth.js:5-19 | on success `req.user` becomes the token's principal and the request goes on; otherwise it is refused with 401 and `req.user` is untouched |
| RoleGuard.Guard | server/src/middlewares/role.js:3-7 | the guard passes exactly a present user whose role is listed, and otherwise refuses with 403 and its message |
| RoleGuard.RoleMiddleware | server/src/middlewares/role.js:3-7 | the middleware passes `req.user` exactly when it is present with a listed role, and otherwise refuses with 403 |
| RoleGuard.ReadRoute | server/src/routes/users.js:13 | `GET /:id`: `authMiddleware` alone. `SignedTokenRoutes` states it |
| RoleGuard.UpdateRoute | server/src/routes/users.js:14 | `PUT /:id`: `authMiddleware`, then `roleMiddleware(['Admin'])`. `UpdateRouteGate` and `SignedTokenRoutes` state it |
| RoleGuard.UpdateRouteGate | server/src/routes/users.js:14 | `PUT /:id` passes exactly a verified token with role Admin; without one it is the 401 of `GET /:id`, and another role gets 403 |
| RoleGuard.SignedTokenRoutes | server/src/routes/users.js:13-14 | a signed token always passes `GET /:id`, and passes `PUT /:id` exactly when it was signed for Admin |
| Properties.LoginFromCache | server/src/services/userService.js:76-98 | a login whose e-mail key holds a record throws and changes nothing with a `PlainJson` cache. With a `Revived` cache it succeeds exactly on that record's password and signs for the record as cached |
| Properties.LoginChangesNothing | server/src/services/userService.js:76-98 | a login served from the cache, with the projection already under the id key, changes nothing: a session with `Revived`, the fault with `PlainJson` |
| Properties.RegisterThenLogin | server/src/services/userService.js:27-111 | logging in right after registering with the same e-mail and password changes nothing. With `Revived` it returns the session `register` returned (the same token only because the model's token has no issue time; see "Left out"). With `PlainJson` it throws |
| Properties.LoginAgain | server/src/services/userService.js:76-110 | after a successful login, the same login again hits the e-mail key and changes nothing more. With `Revived` it gives the same session (the same token only because the model's token has no issue time; see "Left out"). With `PlainJson` it throws |
| Properties.RegisterTwiceConflicts | server/src/services/userService.js:32-42 | registering again with any e-mail that normalizes to a registered one is refused with 409 |
| Properties.RegisterThenGet | server/src/services/userService.js:46-51 | right after `register`, `getUser` of the new id is a cache hit on the projection |
| Properties.UpdateThenGet | server/src/services/userService.js:140-145 | right after a successful update, `getUser` returns the updated projection from the cache |
| Properties.GetUserMissThenHit | server/src/services/userService.js:113-129 | two reads of an uncached id answer differently: first the full record with its hash, then the projection |
| Properties.StaleEmailKeyAfterUpdate | server/src/services/userService.js:147-152 | an e-mail key the patch does not name survives the update, and a lookup through it finds the record as it was |
| Properties.LoginWithPreviousEmail | server/src/services/userService.js:147-152 | after an e-mail change, the store holds the new e-mail. With `Revived`, the previous e-mail and the password still log in while its key is cached, with a session naming the previous e-mail. With `PlainJson` that login throws |
| Properties.DemotedAdminKeepsAccess | server/src/services/userService.js:140-152 | an Admin demoted to Candidate logs in through a cached e-mail key. With `Revived`, they get a token that still says Admin and still passes `PUT /:id`. With `PlainJson` the login throws |

## Left out

- I/O, `async`/`await` and concurrency are not modelled. Each operation is one sequential step,
  so two concurrent `register` calls for the same e-mail (both missing the cache) are not
  modelled; the unique index is what stops the second one.
- TTL expiry over time: entries record the TTL they were set with (3600), but time does not
  pass in the model, so a cached entry never expires.
- bcrypt, jsonwebtoken and Joi are replaced by concrete stand-ins with the contracts the
  service relies on. These are a tagged injective hash, a parseable token and Joi's default
  first-error messages. Salts, signatures, the secret (`config.JWT_SECRET`) and the
  `expiresIn` clock are not modelled, so `Verify` never reports an expired token.
- Tokens.Sign: has no issue time. `jwt.sign` at userService.js:54-57 and :100-103 is called
  without `noTimestamp`, so jsonwebtoken adds an `iat` claim and derives `exp` from it. Two
  tokens for the same claims signed in different seconds therefore differ. The model's
  tokens for the same claims are always equal.
- Properties.RegisterThenLogin: with `Revived`, the token of the login equals the token of
  `register` only because the model's `Sign` has no `iat`. The source promises a token with
  the same `{id, role}` and lifetime, not the same string.
- Properties.LoginAgain: with `Revived`, the second login's token equals the first's only
  because the model's `Sign` has no `iat`. The source promises a token with the same
  `{id, role}` and lifetime, not the same string.
- Tokens.Verify: accepts exactly the tokens `Sign` produces; a token forged by anyone else
  cannot be expressed.
- Credentials.CompareHash: says "exactly the plaintext the hash was made from". That holds for
  bcrypt only for passwords of up to 72 bytes. bcrypt ignores every byte after the 72nd, and
  `createUserSchema` sets no maximum length, so two long passwords that share their first 72
  bytes match the same hash. The same limit applies to
  `UserModel.ComparePasswordSaved`, `UserModel.CreateAndSaveTwice`,
  `Repositories.CreateRecordSpec` and `ServiceSpec.RegisterSuccess`.
- Schemas.ValidEmail: Joi's e-mail rule (TLD list, length limits, Unicode) is reduced to one
  '@', a dotted domain with non-empty labels and no white space.
- Text.Lower: lower-casing covers ASCII letters only; Unicode case mapping is not modelled.
- Lengths are counted in `char`s, not in UTF-16 code units as JavaScript does.
- JSON values that are not strings (numbers, objects) and Joi's type coercion are not modelled.
- `MongoUserRepository` and `RedisCacheRepository` are not part of this model. Their
  behaviour is stated as the `User` schema makes it:
  - a lookup by e-mail goes through the schema setters;
  - an update applies the setters but not the validators;
  - an insert or update that breaks a unique index fails;
  - `updateUser` returns the document as it is after the update (`findByIdAndUpdate` with
    `new: true`). The claim that the previous e-mail's key is never deleted rests on this.
    userService.js:147-151 deletes the key of the returned `user.email`, and compares the
    patch's e-mail with it. A repository that returned the document from before the update
    would delete the previous e-mail's key instead;
  - a cached record is read back either as plain JSON or as a revived `User` document
    (`Repositories.Codec`), and the model states `login` for both;
  - a projection reads back the same under both codecs, since it has no methods.
- Mongoose `ObjectId` casting is not modelled. Ids are strings, and the id of a new record is
  a parameter of `register`.
- Cache keys are modelled as a datatype (`IdKey`, `EmailKey`) instead of the strings Redis
  sees. `Repositories.KeyTextInjective` shows that the two are interchangeable.
- The controllers, `index.js` wiring, the error handler that turns an `AppError` into an HTTP
  response, and `config/` are not modelled.

# User authentication and session core, modelled in Dafny

This project models the authentication and session core of a small Express/Mongoose
user backend. It covers these parts:

- the JWT utility (`JwtUtil`): its configuration, minting and verifying access and refresh tokens,
  bearer extraction, refresh, and the single shared instance;
- the `authenticate` middleware (the gate);
- the `User` model: its schema (setters, defaults, validators, unique indexes), the pre-save hashing
  hook, `comparePassword`, `incrementTokenVersion` and the `toJSON` transform;
- the two token-bundle helpers `generateUserToken` and `generateUserTokenFromExisting`;
- the user handlers `register`, `login`, `upDatePsw`, `loginOut` and `upDateUserInfo`;
- the request rules for registration and for profile updates.

Code that works on values is written as datatypes, functions and lemmas. Code that changes state is
written as classes with `modifies` clauses:

- the store (`UserStore`, with its records in insertion order);
- a loaded document (`UserDocument`, which tracks whether its password was modified);
- the request/response pair the middleware works on (`Exchange`);
- the holder of the single `JwtUtil`.

Each handler is a method. Its postcondition ties the reply and the new records to a function
(`RegisterSpec`, `LoginSpec`, `UpDatePswSpec`). The lemmas in `Session` state what those functions
guarantee, alone and in sequence.

The outside world enters only as parameters:

- the password digest is a function `hash` held by the store;
- the signing library is a `Codec` record (`sign`, `verify`, `seconds`), and its two laws are the
  predicate `Lawful`, assumed by the lemmas that need it;
- the clock is `now`;
- the environment is an `Env` value;
- the id the driver generates for a new document is a parameter `id`;
- how the middleware's debug logger fails is the value `LogFault`: it never throws, it throws on the
  refusal messages only, or it throws on every call, including the one inside `catch`.

The model follows the code, including where it does less than the system's own design describes:

- The gate never compares the `tokenVersion` in a token with the stored one. An access token stays
  valid after a password change until it expires (`Session.TokenOutlivesPasswordChange`).
- `loginOut` only answers with a fixed text. It bumps no version, so it revokes nothing.
- `login` calls `comparePassword` on the result of `findOne` before its null check. An unknown account
  therefore ends in the catch block with status 500, while a wrong password answers 200 with code
  1000. The two cases can be told apart (`Session.LoginRevealsUnknownAccount`).
- `register` passes the whole body to `create`, so a body may set `role` and `tokenVersion` itself.
- The username rule for profile updates enforces 30 characters, although its message says 50.
- The password rule for registration needs a letter, a digit and an underscore. So the shortest
  password it accepts has 3 characters, not the 2 the length rule names.
- `findOne({ account })` passes the account through the schema's `trim` setter, as Mongoose does for
  query values. So `login` finds "alice01" for "alice01 " (`Session.LoginTrimsAccount`).
- A missing `password` in a login body is digested as the text "undefined", which is what the MD5
  helper does with `undefined`.
- Assigning a password equal to the stored digest does not mark the path modified, so the pre-save
  hook does not hash it: changing the password to the stored digest keeps the old password valid
  (`Session.DigestAsNewPasswordKeepsOldOne`).

Lengths are measured the way each library measures them. The schema's `minlength` and `maxlength`
count UTF-16 code units (`Text.Utf16Length`: two for a character outside the Basic Multilingual
Plane). The request rules' `isLength` counts characters and skips the variation selectors U+FE0E and
U+FE0F (`Text.ValidatorLength`). On text inside the Basic Multilingual Plane without variation
selectors (`Text.Plain`), both are the number of characters (`Text.PlainLengths`).

## Model

| member | source | states |
|---|---|---|
| Jwt.OrElse | src/config/env.ts:35-36 | JavaScript's `v or fallback` gives the variable's value when it is set and non-empty, and the fallback exactly when it is unset, empty or already equal to it |
| Jwt.RefreshDefaults | src/utils/jwt.ts:31-36 | the refresh secret is the access secret unless JWT_REFRESH_SECRET is set and non-empty; the refresh lifetime defaults to "7d"; an unset or empty JWT_SECRET gives the default secret |
| Jwt.JwtUtil.constructor | src/utils/jwt.ts:31-36 | the four settings are read once from the environment, as `ConfigOf` computes them |
| Jwt.JwtUtil.ExtractTokenFromHeader | src/utils/jwt.ts:100-105 | a token is found exactly when the header is present and starts with the case-sensitive "Bearer "; the header is then "Bearer " followed by the token |
| Jwt.JwtUtil.RefreshTokens | src/utils/jwt.ts:110-117 | no pair exactly when the refresh token does not verify; otherwise the pair is minted from the verified payload with `iat`/`exp` dropped |
| Jwt.ExtractRoundTrip | src/utils/jwt.ts:100-105 | extraction undoes prefixing for every token, including the empty one |
| Jwt.GeneratedTokensVerify | src/utils/jwt.ts:48-71 | `getAccessToken`, `getRefreshToken` and `generateTokens` mint both tokens from the same payload; each decodes to it under its own secret until its own lifetime ends |
| Jwt.AccessTokenRejections | src/utils/jwt.ts:76-83 | a token signed under another secret, or an access token past its lifetime, verifies to nothing |
| Jwt.TokenKindsSeparatedOnlyBySecrets | src/utils/jwt.ts:88-95 | `verifyRefreshToken` tells the kinds apart by secret alone: with the default refresh secret (the access secret) a live access token passes as a refresh token and the reverse; with distinct secrets neither passes as the other |
| Jwt.RefreshCarriesClaims | src/utils/jwt.ts:110-117 | refreshing a live refresh token minted from `p` yields the pair minted from `p`, whose access token decodes to `p` |
| Jwt.JwtRegistry.constructor | src/utils/jwt.ts:23 | no instance exists before the first call |
| Jwt.JwtRegistry.GetInstance | src/utils/jwt.ts:38-43 | the first call creates and stores a fresh, configured utility; every later call returns the stored one |
| Jwt.GetInstanceTwice | src/utils/jwt.ts:38-43 | two calls yield one object, which keeps the first call's codec and all four settings of the first call's environment |
| Auth.Decide | src/middlewares/auth.ts:5-27 | no token exactly when the header is absent, lacks "Bearer ", or has nothing after it; rejected exactly when a non-empty token fails access verification; otherwise admitted with the verified payload |
| Auth.Exchange.constructor | src/middlewares/auth.ts:3-5 | a request enters with its authorization header, no `req.user`, nothing written, `next` not called and the promise not rejected |
| Auth.Refusal | src/middlewares/auth.ts:8-33 | a refusal is written with HTTP status 200 and its own code; a logger that throws on the refusal message turns it into code 500; one that also throws in `catch` leaves nothing written |
| Auth.Authenticate | src/middlewares/auth.ts:3-35 | 401 without a token, 403 for a token that does not verify, each without calling `next`, and the reply `Refusal` gives for the logger's behaviour; otherwise `req.user` is the payload, `next` runs once and nothing is written; the promise is rejected exactly when a refusal meets a logger that throws in `catch` too |
| Auth.EmptyBearerIsNoToken | src/middlewares/auth.ts:6-14 | "Bearer " alone extracts the empty token, which the gate treats as no token |
| Auth.FreshTokenAdmitted | src/middlewares/auth.ts:16-27 | an access token presented before it expires is admitted with exactly the payload it was minted from |
| Auth.ForeignOrExpiredTokenRejected | src/middlewares/auth.ts:16-23 | a token under another secret, or an expired access token, is refused with 403 |
| Users.ParseRole | src/models/users/users.ts:66-71 | the enum accepts exactly the four role names, each naming its role |
| Users.NormaliseIdempotent | src/models/users/users.ts:30-100 | the setters (`trim` on six paths, `lowercase` on e-mail) are idempotent: normalising normalised fields changes nothing |
| Users.ValidatedContactsNeedNoTrim | src/models/users/users.ts:76-100 | a phone or e-mail that passes its validator pattern has no white space at its ends, so `trim` leaves it unchanged |
| Text.Trim | src/models/users/users.ts:34 | the trim setter never lengthens a value and leaves no white space at either end |
| Text.TrimStartRemovesOnlySpace | src/models/users/users.ts:34 | everything `trimStart` drops from the front is white space |
| Text.TrimEndRemovesOnlySpace | src/models/users/users.ts:34 | everything `trimEnd` drops from the back is white space |
| Text.TrimIsSlice | src/models/users/users.ts:34 | the trimmed value is one contiguous slice of the input, starting where the leading white space ends |
| Text.TrimRemovesOnlySpace | src/models/users/users.ts:34 | the trimmed value is that slice, and only white space lies before and after it |
| Text.TrimIdempotent | src/models/users/users.ts:34 | trimming a trimmed value changes nothing |
| Text.Utf16Length | src/models/users/users.ts:35-36 | the length `minlength`/`maxlength` compare lies between the number of characters and twice that number |
| Text.ValidatorLength | src/vaiedation/models/users/register.ts:8 | the length `isLength` compares never exceeds the number of characters |
| Text.PlainLengths | src/vaiedation/models/users/register.ts:8 | on text inside the Basic Multilingual Plane without variation selectors both lengths are the number of characters |
| Text.ToLowerIdempotent | src/models/users/users.ts:91 | lower-casing a lower-cased value changes nothing |
| Text.TrimOfLoweredTrim | src/models/users/users.ts:90-91 | a trimmed, lower-cased value needs no further trimming |
| Users.SchemaMessagesEmptyIff | src/models/users/users.ts:28-105 | the validation error lists a message exactly when some path fails |
| Users.CreatedUser | src/models/users/users.ts:28-135 | a created record has the given id, the trimmed account of 2 to 50 UTF-16 units, the digest of a non-empty password, role and version defaults, valid phone and e-mail, and no clash with a stored record |
| Users.StoredEmailNormalised | src/models/users/users.ts:88-100 | a stored e-mail is the given one trimmed and lower-cased, so it has no white space at either end and no upper-case letter |
| Users.CreatePreservesUniqueKeys | src/models/users/users.ts:30-100 | creation keeps the unique and sparse unique indexes free of duplicates |
| Users.IndexOf | src/utils/userToken.ts:21 | `findById` and `findOne` find the first record, in natural order, whose `_id` or `account` holds the value, and nothing only when no record holds it |
| Users.IndexOfIsFirst | src/controller/modules/users/userController.ts:45 | a record with the value and none before it is the one the lookup finds |
| Users.WriteBack | src/models/users/users.ts:147-150 | saving replaces exactly the record with the document's id, keeps the length and every other record |
| Users.UserStore.Create | src/controller/modules/users/userController.ts:8 | the store grows by exactly the created record on success and is unchanged on failure |
| Users.UserStore.FindById | src/controller/modules/users/userController.ts:84 | a fresh, unmodified document of the first record with the id, or none exactly when there is none |
| Users.UserStore.FindOneByAccount | src/controller/modules/users/userController.ts:45 | a fresh, unmodified document of the first record whose account is the trimmed query value, or none exactly when there is none |
| Users.UserDocument.SetPassword | src/controller/modules/users/userController.ts:96 | the password becomes the plain new value; the path is marked modified only when that value differs from the one held |
| Users.UserDocument.Save | src/models/users/users.ts:124-142 | the pre-save hook digests the password only when it was modified, after which `comparePassword` accepts the assigned plain password; the record is written back; it succeeds exactly when the record still exists |
| Users.UserDocument.IncrementTokenVersion | src/models/users/users.ts:147-150 | the version goes up by one and is saved, with the modified mark cleared when the save succeeds; no other field changes |
| Users.ToObject | src/utils/userToken.ts:44 | the plain object of a document has `_id`, `password`, `__v`, the account and the token version |
| Users.JsonView | src/models/users/users.ts:108-120 | `toJSON` drops `password` and `__v`, renames a truthy `_id` to the string `id`, and keeps every other property as it was |
| Users.TransformToJSON | src/models/users/users.ts:109-119 | the step-by-step transform produces exactly that view |
| Users.UserJsonView | src/models/users/users.ts:108-120 | the JSON view of a stored user has its id as `id`, its account and version, and no `password`, `__v` or `_id` |
| UserToken.GenerateUserToken | src/utils/userToken.ts:10-27 | the bundle holds the re-read user in JSON form and the token pair for the user's claims; the store is unchanged |
| UserToken.GenerateUserTokenFromExisting | src/utils/userToken.ts:34-52 | the bundle holds a copy of the document without `password` and `__v` and the token pair; the document is unchanged |
| UserToken.BundleCarriesClaims | src/utils/userToken.ts:12-18 | both helpers mint the same pair; the access token decodes to the user's id, account, role name and current version, with no phone and no e-mail |
| UserToken.FromExistingHidesPassword | src/utils/userToken.ts:43-51 | the login view has no `password` and no `__v` but keeps `_id` and the version |
| UserToken.UserTokenHidesPassword | src/utils/userToken.ts:20-26 | the register view of a stored user has `id`, and no `password`, `__v` or `_id` |
| RegisterRules.PasswordPatternMinLength | src/vaiedation/models/users/register.ts:16 | any password the pattern accepts has at least 3 characters |
| RegisterRules.PasswordPatternIsPlain | src/vaiedation/models/users/register.ts:16 | a password the pattern accepts is ASCII, so `isLength` counts its characters |
| RegisterRules.PasswordAccepted | src/vaiedation/models/users/register.ts:13-20 | the password rules pass exactly when the pattern matches and the length is at most 50; "a1_" passes |
| RegisterRules.AccountAccepted | src/vaiedation/models/users/register.ts:5-10 | the account rules pass exactly when `isLength` measures the untrimmed account at 2 to 50; on plain text, exactly when it has 2 to 50 characters |
| RegisterRules.RegisterAccepted | src/vaiedation/models/users/register.ts:5-20 | a registration request passes exactly when the account measures 2 to 50 and the password matches the pattern with at most 50 characters |
| RegisterRules.ToFieldErrors | src/vaiedation/models/users/register.ts:29-32 | one `{ field, message }` entry per error, in order |
| RegisterRules.HandleValidationErrors | src/vaiedation/models/users/register.ts:24-36 | `next` runs exactly when there is no error; otherwise the reply is 400, `success: false`, listing every error in order |
| UpdateUserInfoRules.OnlyPresentFieldsFail | src/vaiedation/models/users/upDateUserInfo.ts:2-21 | errors name only fields present in the body; an empty body passes |
| UpdateUserInfoRules.UsernameLimitIs30 | src/vaiedation/models/users/upDateUserInfo.ts:3-7 | a username that `isLength` measures at 31 to 50 is refused, with a message that speaks of 50 |
| UpdateUserInfoRules.PhoneRuleAgreesWithSchema | src/vaiedation/models/users/upDateUserInfo.ts:9-13 | for a non-empty phone, the update rule and the schema validator agree; the empty string passes the schema but not the rule |
| UpdateUserInfoRules.EmployeeIdRuleAgreesWithSchema | src/vaiedation/models/users/upDateUserInfo.ts:16-20 | the update rule accepts exactly the ids `isLength` measures at 2 to 20, the schema exactly those of 2 to 20 UTF-16 units, and on plain text the two agree |
| UpdateUserInfoRules.UsernameRuleAgreesWithSchema | src/vaiedation/models/users/upDateUserInfo.ts:3-7 | the update rule accepts exactly the usernames `isLength` measures at 2 to 30, the schema exactly those of 2 to 50 UTF-16 units, and on plain text every username the rule accepts the schema accepts |
| UpdateUserInfoRules.DepartmentRuleAgreesWithSchema | src/vaiedation/models/users/upDateUserInfo.ts:15 | the update rule accepts exactly the departments `isLength` measures at most 50, the schema exactly those of at most 50 UTF-16 units, and on plain text the two agree |
| UpdateUserInfoRules.EmployeeIdRuleDivergesOnEmoji | src/vaiedation/models/users/upDateUserInfo.ts:16-20 | a one-emoji employee id is refused by the update rule and accepted by the schema |
| UserController.RegisterFailure | src/controller/modules/users/userController.ts:17-38 | a duplicate key gives 409, a validation error gives 400 with its messages, and anything else gives 500, each with `success: false` |
| UserController.Register | src/controller/modules/users/userController.ts:4-39 | the reply and the new records are those `RegisterSpec` gives for the old records |
| UserController.Login | src/controller/modules/users/userController.ts:41-62 | the reply is the one `LoginSpec` gives, and the store is not modified |
| UserController.UpDatePsw | src/controller/modules/users/userController.ts:64-114 | the reply and the new records are those `UpDatePswSpec` gives for the old records |
| UserController.LoginOut | src/controller/modules/users/userController.ts:116-118 | a fixed text reply and no change to the store, so no version moves |
| UserController.UpDateUserInfo | src/controller/modules/users/userController.ts:120-122 | a fixed text reply and no change to the store |
| Session.RegisterOutcome | src/controller/modules/users/userController.ts:4-39 | success stores exactly the new user and answers 200 with its JSON view (its `id`, account, no password) and tokens for its claims; failure stores nothing and answers 400 or 409 |
| Session.RegisterSucceeds | src/controller/modules/users/userController.ts:8-15 | a successful creation fixes the whole reply and the new records |
| Session.IssuedBundle | src/utils/userToken.ts:10-27 | the bundle for a user appended under a fresh id shows its `id` and account, hides the password, and carries the pair for its claims |
| Session.LoginOutcome | src/controller/modules/users/userController.ts:41-62 | unknown trimmed account gives 500; a password (an absent one digested as "undefined") whose digest differs gives 200 with code 1000 and no data; a matching one gives tokens carrying the stored version and a view without password |
| Session.LoginTrimsAccount | src/controller/modules/users/userController.ts:44-45 | logging in with an account padded by white space answers exactly as with the trimmed account |
| Session.LoginRevealsUnknownAccount | src/controller/modules/users/userController.ts:45-50 | an unknown account answers 500, a known one with a wrong password answers 200 |
| Session.UpDatePswRefusals | src/controller/modules/users/userController.ts:66-94 | the five refusals, in order, each answering 200 with code 1000 and leaving the store unchanged |
| Session.UpDatePswSuccess | src/controller/modules/users/userController.ts:95-106 | a change stores the new password's digest (hashed once), or keeps the stored digest when the new password equals it; the version goes up by one; nothing else changes |
| Session.SameAccountFound | src/controller/modules/users/userController.ts:45 | rewriting a record without changing its account keeps it the record a login with that account finds |
| Session.LoginAfterPasswordChange | src/controller/modules/users/userController.ts:95-100 | after a change to a password other than the stored digest, the new password logs in with tokens carrying the new version, and the old one is refused unless the digests coincide |
| Session.DigestAsNewPasswordKeepsOldOne | src/models/users/users.ts:127 | after a change to the stored digest itself, the digest stays and the old password still logs in, with the new version |
| Session.RegisterKeepsVersionsGrowing | src/controller/modules/users/userController.ts:8 | registering drops no record and lowers no version |
| Session.UpDatePswKeepsVersionsGrowing | src/controller/modules/users/userController.ts:96-100 | changing a password drops no record and lowers no version |
| Session.RegisterKeepsKeysUnique | src/controller/modules/users/userController.ts:8 | registering keeps every unique key unique |
| Session.UpDatePswKeepsKeysUnique | src/controller/modules/users/userController.ts:96-100 | changing a password keeps every unique key unique |
| Session.SameKeysKeepUnique | src/models/users/users.ts:147-150 | rewriting a record without touching its key fields keeps the keys unique |
| Session.TokenOutlivesPasswordChange | src/middlewares/auth.ts:16-27 | an access token issued at login is still admitted after a password change, although its version is one behind the stored one |
| Session.MinimalRegistration | src/models/users/users.ts:28-135 | a body with only an account of 2 to 50 UTF-16 units once trimmed and a non-empty password creates the record with the trimmed account, every default and the digested password |
| Session.MinimalRegistrationReply | src/controller/modules/users/userController.ts:8-15 | registering such a body answers 200 with a view showing the trimmed account and an access token for version 0 and role "employee" |
| Session.AliceRegisters | src/controller/modules/users/userController.ts:8-15 | registering alice01 / abc_123 into an empty store issues an access token carrying version 0 |

## Left out

- Logging (`logger.debug`, `logger.success`, `console.error`) is left out, except for the ways the
  middleware's debug logger can throw (`LogFault`). Output to the console is not modelled, and neither
  is a logger throwing inside the handlers.
- The signing library is not modelled: no HMAC, no base64url encoding, no parsing of lifetimes such
  as "7d". It enters as the `Codec` parameter and its two laws.
- The MD5 digest is left out. It enters as the `hash` parameter. Nothing is assumed of it, not even
  that it is injective.
- The start-up check in `src/config/env.ts:44-57` is left out. That check exits the process when
  JWT_SECRET is missing, or when the default secret is used in production. The model accepts any
  environment.
- Server faults are not modelled: no storage, network or driver errors, and no `CastError` for a
  malformed ObjectId. So the 500 branch of `register`, and the catch-all 500 of `upDatePsw`, cannot
  be reached in the model.
- Concurrency is not modelled. Requests run one at a time. So the lost update that two concurrent
  `incrementTokenVersion` calls can cause is not captured.
- The `createdAt` and `updatedAt` timestamps are left out.
- Request bodies are typed. The registration fields are strings or absent, except `tokenVersion`,
  which is an integer or absent. The login account is a string, and the login password is a string or
  absent. Other JSON values (numbers where text is expected, objects, arrays), and Mongoose's casting
  of them, are not modelled.
- Users.Normalise: the lower-casing of e-mails maps ASCII letters only. JavaScript's full Unicode
  case mapping is not modelled.
- Users.SchemaMessages: lists the messages in schema path order. The order in which Mongoose's
  `Object.values(error.errors)` presents them is not modelled.
- `isURL` and `isEmail` from the validation library are parameters of the profile-update rules.
  Their definitions are not modelled.
- `login` with an `account` that is absent from the body is not modelled: the account is always a
  string. What Mongoose does with a `{ account: undefined }` filter is not modelled.
- The routes, the server bootstrap, the database connection and the other controllers are not part of
  this model.

# auth-saas authentication core in Dafny

This project models the authentication state machine of the auth-saas API: signup, login, email
verification, logout and the access-token middleware. These services run against two stores:

- A relational store with users, email addresses, accounts, verification tokens, sessions and an
  audit log. It is the class `Stores.Database`: one `map` field per table and a `seq` for the log.
- A key-value store (Redis) with resend counters, cool-down flags and the refresh-token denylist.
  It is the class `Stores.KeyValueStore`: values and expiries as `map` fields.

Each service is a method. It runs the source's guards in the source's order. Its postcondition
names the outcome of every branch and the whole new state of both stores. A call ends in one of
three outcomes (`AppErrors.Outcome`):

- `Ok`: a value;
- `Thrown`: an application error carrying a status code;
- `Crashed`: any other exception, such as a Prisma record-not-found or unique violation, a Redis
  type error, a `TypeError`, a `URIError` or a failed delivery.

A Prisma transaction is computed on local copies of the tables and committed at the end. An
exception inside the transaction therefore leaves the store unchanged.

The pure parts are functions with lemmas about them:

- the key names;
- the `AppError` record;
- the zod body schema and the `API_ORIGIN` default;
- the compound verification token and the bearer header;
- the denylist lifetime.

Claims are records. Verifying a token, hashing, HMAC and mail delivery are function parameters.
Clocks and random ids are integer and string parameters, and fresh ids are required to be unused.

The model follows the code as written, including:

- The resend counter refuses from the fifth increment on, so at most four tokens are issued per
  24-hour window.
- Login counts revoked sessions towards the session cap, and evicts the session with the smallest
  `updatedAt` even if it is already revoked.
- Email verification creates a session with no cap check.
- The middleware ignores the session row's `isRevoked` and `expiresAt`: an access token whose session row
  exists is accepted even when that session is revoked or past its expiry. An expired access token
  itself still fails verification.
- The denylist's fallback lifetime is `REFRESH_TOKEN_EXPIRY * 1000` seconds.

## Model

| member | source | states |
|---|---|---|
| AppErrors.NewAppError | apps/api/src/utils/app-error.ts:4-16 | the error's name is always "AuthSaaS-Error"; status code and message are the ones supplied |
| AppErrors.ToJson | apps/api/src/utils/app-error.ts:18-24 | the JSON body carries exactly the error's name, status code and message |
| AppErrors.DetailsAreDropped | apps/api/src/utils/app-error.ts:4-24 | errors built with the same status and message serialise identically whatever details the caller passed |
| RedisKeys.AuthEmailResends | apps/api/src/utils/redis-keys.ts:2 | the key is "auth-email-resends:" followed verbatim by the email |
| RedisKeys.AuthEmailRateLimit | apps/api/src/utils/redis-keys.ts:3 | the key is "auth-email-rate-limit:" followed verbatim by the email |
| RedisKeys.BlacklistJti | apps/api/src/utils/redis-keys.ts:4 | the key is "blacklist-jti:" followed verbatim by the jti |
| RedisKeys.KeysInjective | apps/api/src/utils/redis-keys.ts:2-4 | each key function is injective: equal keys come from equal arguments |
| RedisKeys.FamiliesDisjoint | apps/api/src/utils/redis-keys.ts:2-4 | no resend-counter key equals a cool-down or denylist key, and no cool-down key equals a denylist key |
| JsStrings.Split | apps/api/src/modules/verify-email/verify-email.controller.ts:23 | `split` on one character yields at least one piece and no piece contains the separator |
| JsStrings.JoinSplit | apps/api/src/middlewares/auth.middleware.ts:18 | joining the pieces of a split with the separator gives back the original string |
| JsStrings.SplitJoin | apps/api/src/middlewares/auth.middleware.ts:18 | splitting a join of separator-free pieces gives back exactly those pieces |
| JsStrings.SplitLeadingPieces | apps/api/src/modules/verify-email/verify-email.controller.ts:23 | for `a`, separator, `b`, rest with `a` and `b` separator-free, the first piece is `a` and the second starts with `b` |
| JsStrings.TrimStart | apps/api/src/configs/schemas.ts:36 | `trimStart` yields a suffix of the input that does not start with JavaScript white space |
| JsStrings.TrimStartBorders | apps/api/src/configs/schemas.ts:36 | everything `trimStart` removes is white space |
| JsStrings.TrimEnd | apps/api/src/configs/schemas.ts:36 | `trimEnd` yields a prefix of the input that does not end with JavaScript white space |
| JsStrings.TrimEndBorders | apps/api/src/configs/schemas.ts:36 | everything `trimEnd` removes is white space |
| JsStrings.Trim | apps/api/src/configs/schemas.ts:36-39 | `trim` yields a slice `s[i..j]` of the input with only white space outside it, and neither starts nor ends with white space |
| JsStrings.TrimIdempotent | apps/api/src/configs/schemas.ts:36-39 | trimming twice equals trimming once |
| JsStrings.ToLower | apps/api/src/configs/schemas.ts:36 | `toLowerCase` keeps the length and lower-cases each character in place |
| JsStrings.ToLowerIdempotent | apps/api/src/configs/schemas.ts:36 | lower-casing twice equals lower-casing once |
| JsStrings.TrimToLower | apps/api/src/configs/schemas.ts:36 | trimming and lower-casing commute |
| JsStrings.Utf16Length | apps/api/src/configs/schemas.ts:41 | the length zod's `min` measures: one unit per character below U+10000 and two above, so between the character count and twice it |
| JsStrings.NatToStringValue | apps/api/src/configs/schemas.ts:30 | the decimal rendering of a natural number reads back as that number |
| Schemas.PasswordIssues | apps/api/src/configs/schemas.ts:37-45 | the list of failed password rules is empty exactly when the trimmed password is non-empty, at least 8 UTF-16 code units long, and has a lower-case letter, an upper-case letter, a digit and a character outside [a-zA-Z0-9] |
| Schemas.NormalizeEmail | apps/api/src/configs/schemas.ts:36 | the normalised email is, character by character, the lower-casing of a slice of the input with only white space outside it; it has no upper-case ASCII letter and no surrounding white space |
| Schemas.NormalizeEmailIdempotent | apps/api/src/configs/schemas.ts:36 | normalising a normalised email changes nothing |
| Schemas.ParseAuthBody | apps/api/src/configs/schemas.ts:35-46 | an accepted body is the normalised email and the trimmed password; a rejection lists at least one issue, and its first issue is "Invalid email" exactly when the email check fails |
| Schemas.ParseAuthBodyAccepts | apps/api/src/configs/schemas.ts:35-46 | a body is accepted exactly when the email check passes and the trimmed password is strong; the accepted body is the normalised email and the trimmed password; a rejection lists at least one issue |
| Schemas.AcceptedPasswordIsStrong | apps/api/src/configs/schemas.ts:37-45 | an accepted password is the trimmed input and meets every strength rule, its length counted in UTF-16 code units |
| Schemas.EmojiCountTwice | apps/api/src/configs/schemas.ts:41 | "Aa1!" followed by two emoji passes every rule: six characters, but eight UTF-16 code units |
| Schemas.RefinementContext.AddIssue | apps/api/src/configs/schemas.ts:24-28 | an issue is appended to those recorded so far |
| Schemas.SuperRefine | apps/api/src/configs/schemas.ts:21-33 | a present API_ORIGIN is left alone; a missing one records one issue on path API_ORIGIN in production, and elsewhere becomes "http://localhost:" followed by PORT |
| Jwt.SignToken | apps/api/src/lib/jwt.ts:29-44 | the signed token carries the payload's claims plus `exp`, the expiry date in whole seconds rounded down |
| Jwt.VerifyToken | apps/api/src/lib/jwt.ts:46-74 | a verified token yields its claims; the four recognised library errors become 401 with the library's message; anything else is rethrown |
| Stores.OldestExists | apps/api/src/modules/login/login.service.ts:142-152 | every non-empty set of sessions has a first element in ascending `updatedAt` order |
| Stores.DeleteVerificationTokens | apps/api/src/modules/login/login.service.ts:70-75 | `deleteMany` keeps exactly the tokens that are not EMAIL_VERIFICATION tokens of the user (and address, when one is given), unchanged |
| Stores.ReplaceLeavesOneToken | apps/api/src/modules/login/login.service.ts:70-92 | after deleting the matching tokens and creating one, exactly one matching token remains |
| Stores.NewVerificationToken | apps/api/src/modules/signup/signup.service.ts:68-84 | a new token stores the HMAC of its secret and expires EMAIL_VERIFICATION_TOKEN_EXPIRY seconds after now, for the user and address given |
| Stores.AddEmailKeepsUnique | apps/api/src/modules/signup/signup.service.ts:99-108 | creating an address row for an email no row holds keeps emails unique |
| Stores.AddAccountKeepsUnique | apps/api/src/modules/signup/signup.service.ts:110-120 | creating an account under an unused (provider, providerUserId) pair keeps the pairs unique |
| Stores.Database.FindEmailByAddress | apps/api/src/modules/login/login.service.ts:29-38 | `findUnique` by email returns the one address row holding that email, or none when no row does |
| Stores.Database.FindLocalAccount | apps/api/src/modules/login/login.service.ts:105-115 | `findUnique` by (LOCAL, providerUserId) returns the one such account, or none when there is no such account |
| Stores.Database.FindVerificationToken | apps/api/src/modules/verify-email/verify-email.service.ts:25-36 | the token is found exactly when a row with that id has type EMAIL_VERIFICATION |
| Stores.Database.FindEmailById | apps/api/src/modules/verify-email/verify-email.service.ts:67-75 | the address is found exactly when a row with that id exists |
| Stores.Database.UserSessionsByUpdatedAt | apps/api/src/modules/login/login.service.ts:142-152 | returns the number of the user's sessions, revoked ones included, and when there is one, the first of them by `updatedAt` |
| Stores.Database.FindSessionForRefresh | apps/api/src/modules/logout/logout.service.ts:25-31 | a session is found exactly when one row matches the session id, the user id and the refresh-token id |
| Stores.Database.FindSessionOfUser | apps/api/src/middlewares/auth.middleware.ts:41-49 | a session is found exactly when a row has that id and user, whatever its revocation or expiry |
| Stores.KeyValueStore.Exists | apps/api/src/modules/login/login.service.ts:50 | EXISTS is true exactly when the key holds a value |
| Stores.KeyValueStore.Incr | apps/api/src/modules/login/login.service.ts:58 | INCR of a missing key yields 1 with no expiry, of a number yields it plus one, and of text fails with nothing changed |
| Stores.KeyValueStore.Expire | apps/api/src/modules/login/login.service.ts:60 | EXPIRE sets the expiry of an existing key and leaves every value alone |
| Stores.KeyValueStore.SetEx | apps/api/src/modules/logout/logout.service.ts:64-71 | SET EX replaces value and expiry when the time is positive, and otherwise fails with nothing changed |
| RateLimit.CheckResendLimit | apps/api/src/modules/login/login.service.ts:49-66 | a set cool-down flag gives 429 with no increment; otherwise the counter is incremented, the increment yielding 1 sets the 24 h expiry, and an increment yielding 5 or more gives 429 with the counter left incremented |
| RateLimit.IssuedCountExact | apps/api/src/modules/login/login.service.ts:58-66 | starting from count `start`, `n` requests past the cool-down issue min(n, 4 - start) tokens, or none from 4 on |
| RateLimit.AtMostFourPerWindow | apps/api/src/modules/login/login.service.ts:58-66 | one counter window issues at most four tokens, four requests do issue four, and the fifth increment is the first refused |
| SessionPolicy.Revoked | apps/api/src/modules/login/login.service.ts:168-175 | revoking sets `isRevoked` and bumps `updatedAt`, changing nothing else in the row |
| SessionPolicy.NewSession | apps/api/src/modules/login/login.service.ts:177-195 | a new session is live, belongs to the user, carries the address id, refresh-token id, IP address and user agent given, and expires REFRESH_TOKEN_EXPIRY seconds after now |
| SessionPolicy.LoginSessionStep | apps/api/src/modules/login/login.service.ts:142-195 | login's session step adds exactly the new session under its id, and below the cap changes nothing else |
| SessionPolicy.LoginChangesAtMostOne | apps/api/src/modules/login/login.service.ts:166-195 | login adds exactly the new session, changes at most one existing session, and changes none below the cap |
| SessionPolicy.LoginSessionCounts | apps/api/src/modules/login/login.service.ts:142-195 | login grows the user's session count by one and the live count by at most one; at the cap with no revoked session, the live count stays put |
| SessionPolicy.VerifySessionCounts | apps/api/src/modules/verify-email/verify-email.service.ts:117-135 | email verification grows both the user's session count and the live count by exactly one |
| SessionPolicy.RevokedSessionsCountTowardsCap | apps/api/src/modules/login/login.service.ts:142-176 | with a cap of 1, a revoked older session and a live newer one, login evicts the revoked one and leaves two live sessions |
| LoginService.CompoundToken | apps/api/src/modules/login/login.service.ts:93 | the mailed credential is the token id, one '.', then the secret |
| LoginService.Login | apps/api/src/modules/login/login.service.ts:14-215 | unknown email gives 404 with no write; an unverified email takes the resend branch; a verified email takes the password branch and leaves the key-value store alone; a success's tokens and ids match the new session row |
| LoginService.ResendVerification | apps/api/src/modules/login/login.service.ts:47-102 | never a session. Cool-down gives 429; the counter follows the rate limit; on success the user's verification tokens are replaced by one, the 60 s cool-down is set and the result is 202. Failed delivery rolls back the tokens |
| LoginService.PasswordLogin | apps/api/src/modules/login/login.service.ts:105-215 | no LOCAL account gives 404, a null hash 422, a mismatch 401 after the 1000 ms delay, all with no write; success evicts the oldest session at the cap, adds the session and one LOGGED_IN audit row |
| SignupService.Signup | apps/api/src/modules/signup/signup.service.ts:11-154 | a verified email gives 409 with no write; an unverified one is rate-limited and has its address's tokens replaced by one; a new one gets a pending user, address, LOCAL account with the hashed password, audit row and token in one transaction, touching no key-value entry |
| SignupService.ResendForSignup | apps/api/src/modules/signup/signup.service.ts:38-89 | a set cool-down flag gives 429 before any increment; the counter follows the rate limit; on success the address's verification tokens are replaced by one, the 60 s cool-down is set and no user, address or account row is added |
| SignupService.CreateAccount | apps/api/src/modules/signup/signup.service.ts:92-153 | one transaction adds exactly a VERIFICATION_PENDING user, the address, a LOCAL account keyed by the email with the hashed password, an ACCOUNT_CREATED audit row and a verification token; a taken account key rolls all of it back |
| VerifyEmailService.VerificationFailure | apps/api/src/modules/verify-email/verify-email.service.ts:25-89 | no failure exactly when the token exists with type EMAIL_VERIFICATION, is before its expiry, matches the secret's HMAC and links to an existing unverified address; each check, when it is the first to fail, decides the error: missing token 404, expired 401, wrong secret 401, no linked address 422, missing address 404, already verified 409 |
| VerifyEmailService.ExpiryCheckedBeforeSecret | apps/api/src/modules/verify-email/verify-email.service.ts:45-58 | a token at or past its expiry gives 401 "Token expired" whatever the secret |
| VerifyEmailService.VerifyEmail | apps/api/src/modules/verify-email/verify-email.service.ts:10-155 | each failure returns its error with nothing written; success deletes the token, marks the address verified, adds one uncapped session and one EMAIL_VERIFIED audit row, and returns the session's ids and a refresh token naming them |
| VerifyEmailService.CommitVerification | apps/api/src/modules/verify-email/verify-email.service.ts:103-148 | the transaction deletes the token, marks the address verified, adds the new session with no cap and appends one EMAIL_VERIFIED audit row, keeping the unique constraints |
| VerifyEmailService.VerifyTwice | apps/api/src/modules/verify-email/verify-email.service.ts:38-43 | the token is single-use: after a success, the same token id gives 404 |
| VerifyEmailController.ParseVerificationToken | apps/api/src/modules/verify-email/verify-email.controller.ts:13-36 | a missing, empty or non-string token gives 400; a malformed escape throws; otherwise parsing succeeds exactly when the first two '.'-pieces are non-empty and the first is a UUID, and yields those pieces; too few or empty pieces give 400 "Invalid token format", a non-UUID id 400 "Invalid token ID" |
| VerifyEmailController.ParseCompoundToken | apps/api/src/modules/verify-email/verify-email.controller.ts:23-36 | the credential built at login parses back into exactly its id and secret |
| VerifyEmailController.ExtraPiecesIgnored | apps/api/src/modules/verify-email/verify-email.controller.ts:23 | pieces after the second '.' do not change what is parsed |
| VerifyEmailController.HandleVerifyEmail | apps/api/src/modules/verify-email/verify-email.controller.ts:12-63 | the service runs only on a well-formed token; on success the token is consumed, and the cookie and the access token (typ "access", REFRESH/ACCESS lifetimes) name the new session and its user |
| LogoutService.IssuedRefreshTokenPassesClaimsCheck | apps/api/src/modules/logout/logout.service.ts:18-23 | every refresh token the services sign passes logout's claim check |
| LogoutService.DenylistTtl | apps/api/src/modules/logout/logout.service.ts:64-71 | with a truthy `exp`, the lifetime is non-negative, zero exactly when `exp` has passed, and otherwise ends in the token's expiry second; otherwise it is REFRESH_TOKEN_EXPIRY * 1000 |
| LogoutService.DenylistEntryExpiresWithToken | apps/api/src/modules/logout/logout.service.ts:68-69 | the entry for a signed, unexpired token expires in the token's own expiry second |
| LogoutService.Logout | apps/api/src/modules/logout/logout.service.ts:8-72 | bad claims give 401 and no matching session 404, with no write; an already revoked session throws with no write; otherwise the session is revoked with one LOGGED_OUT audit row, then the jti is denylisted for `DenylistTtl` seconds |
| LogoutService.LogoutTwice | apps/api/src/modules/logout/logout.service.ts:39-49 | after a successful logout, the same refresh token fails on the revoked row |
| AuthMiddleware.ParseBearerHeader | apps/api/src/middlewares/auth.middleware.ts:8-26 | a missing or empty header gives 401 "Missing"; otherwise the header is accepted exactly when its first ' '-piece is "Bearer" and its second is non-empty, which is the token |
| AuthMiddleware.ParseBearerRoundTrip | apps/api/src/middlewares/auth.middleware.ts:18-26 | "Bearer " followed by a space-free token gives back that token |
| AuthMiddleware.DoubleSpaceRefused | apps/api/src/middlewares/auth.middleware.ts:18-26 | two spaces after "Bearer" leave an empty second piece and give 401 |
| AuthMiddleware.IssuedTokensAgainstAccessCheck | apps/api/src/middlewares/auth.middleware.ts:31-39 | access tokens the services sign pass the claim check; refresh tokens fail it |
| AuthMiddleware.Request.constructor | apps/api/src/middlewares/auth.middleware.ts:7-8 | a request starts with its authorization header and no auth data |
| AuthMiddleware.Authenticate | apps/api/src/middlewares/auth.middleware.ts:7-64 | each failing step gives its 401 (or the verifier's error) with the request untouched; on success `authData` is the token's subject and session, and no store is written |
| AuthMiddleware.RevokedSessionAuthenticates | apps/api/src/middlewares/auth.middleware.ts:41-63 | a valid access token for a revoked session is still accepted |

## Left out

- HTTP wiring (routes, cookies, status mapping, `handleAsync`) is not modelled, except the verify-email controller. The login, signup and logout controllers are not modelled.
- Token signing and verification with RS256 are not modelled, nor key loading in apps/api/src/lib/jwt.ts. A token is its claims, and verification is a parameter.
- argon2, HMAC-SHA256, `randomBytes` and `randomUUID` are uninterpreted parameters, so "the stored digest is never the raw secret" cannot be stated.
- VerifyEmailService.VerificationFailure: `constantTimeCompare` is modelled as plain string equality; its timing is not modelled.
- Sending email is a boolean parameter saying whether delivery succeeded. The mail's content is not modelled.
- Stores.KeyValueStore: expiry of keys by the store is not modelled. The recorded lifetimes stand in for it, and a counter window lasts as long as the counter key exists.
- LoginService.Login: the 1000 ms wait is a ghost out-parameter, not elapsed time.
- Concurrency and transaction isolation are not modelled. Each service runs alone, and each transaction is one atomic step. Login reads the session list outside its transaction, which this hides.
- `validateUUID`, `normalizedIP`, zod's email check and `decodeURIComponent` are parameters. The model assumes `addDurationToNow` adds milliseconds to now.
- Schemas.NormalizeEmail: lower-casing covers ASCII letters only, not the rest of Unicode.
- Stores.KeyValueStore.Incr: a text value that spells an integer is treated like any other text, so INCR fails on it.
- The signup flow's key helpers are not defined among the key functions. They are a parameter family.
- The verification email that should follow a new signup is not sent in the code, and the model sends none.
- Verification never moves a user to ACTIVE, in the code or in the model.
- The schema defaults are assumed: `updatedAt` is bumped on update, and `provider` defaults to LOCAL.
- Schemas.ParseAuthBody: bodies whose fields are not strings are not modelled.
- Jwt.SignToken: `exp` is modelled as a whole number of seconds, so a fractional `exp` is not covered.
- LoginService.Login: a Prisma error when the new session id collides is excluded by requiring a fresh id. The same holds for the other services' fresh ids.
- Stores.Config: the configured numbers come from `z.string().transform(Number)`, which can give NaN or a fraction. The model takes them as integers. So it does not cover a NaN SESSION_LIMIT, with which login never evicts; a fractional PORT such as "80.5"; or a fractional lifetime, with which SET EX fails.
- Schemas.SuperRefine: PORT is an integer, so the default origin for a NaN or fractional PORT is not modelled.
- Stores.KeyValueStore.Incr: the store's 64-bit integer limit is not modelled, so the overflow error past 2^63 - 1 is not covered.

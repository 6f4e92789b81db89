# Session lifecycle of a NestJS local-auth service, in Dafny

This project models the authentication core of a NestJS service. Users sign up and sign in with an email and a
password. The service issues a pair of JWTs: a short-lived access token and a long-lived refresh token. The user
table stores the argon2 digest of the password and, while a session is open, the digest of the current refresh
token (`rtHash`).

- `AuthService` (`auth_service.dfy`) is a class that owns the user table. The table is a `map<int, UserRow>` plus the
  autoincrement counter. Its invariant `Valid()` says that ids are positive, below the counter and equal to their
  keys, and that emails are unique. Signup, signin, refresh and signout are methods that change the table. Each
  method's `ensures` gives the whole new table in terms of the old one. Two functions state those new tables:
  `Rotated` for `updateRtHash` and `SignedOut` for signout's `updateMany`. Lemmas about these two functions state
  how the sessions behave.
- The cryptography is abstract (`crypto.dfy`). `Hash(secret, salt)` yields a `Digest`, and `Verify(d, s)` holds
  exactly when `s` is the digest's secret. The random argon2 salt is a parameter. The JWT signer is a function
  `Signer` passed to each call, because its output also depends on the clock (the issued-at claim).
  `AuthService.GenerateTokens` signs the same payload `{sub, email}` twice: with the access secret for `10m` and
  with the refresh secret for `60d`.
- `RtStrategy.Validate` (`rt_strategy.dfy`) looks the user up by the token's `sub`. It recovers the raw refresh
  token from the `Authorization` header with JavaScript's `replace('Bearer', '')` and `trim()`. Those string
  operations are modelled in `js_string.dfy`, using ECMAScript's exact set of white-space and line-terminator
  characters.
- `scenarios.dfy` holds client methods that chain the operations. Each is proved from the operations' contracts
  alone.

The clock `now` is a parameter. The Prisma schema is not part of this model. This model assumes the usual schema:
`createdAt` defaults to the creation time, and `updateAt` is an `@updatedAt` column, so Prisma refreshes it on every
write to the row. That write happens in `updateRtHash` and, for a matched row, in signout's `updateMany`.
It also assumes that `email` is `@unique` and compares exactly, with no case folding, as PostgreSQL's default
collation does.

The model follows the code:
- The duplicate-email check is the store's unique constraint on `create`. The password is hashed before that
  check.
- `findUserById` returns null for an unknown id; it raises no error.
- A refresh token is rejected after use only when the next refresh token is a different string. The signer may
  return the same token again, for example within the same second (`Scenarios.RefreshTokenReuse`).

## Model

| member | source | states |
|---|---|---|
| `Crypto.Hash` | src/auth/auth.service.ts:123-125 | the digest verifies against the hashed secret and against no other string |
| `Crypto.Verify` | src/auth/auth.service.ts:59-61 | a digest accepts a candidate exactly when hashing the candidate again with the digest's own salt reproduces the digest |
| `Crypto.SaltedHashesDiffer` | src/auth/auth.service.ts:123-125 | hashing one secret with two salts gives two different digests, and both verify against the secret |
| `Auth.AuthService.GenerateTokens` | src/auth/auth.service.ts:127-143 | no contract: its body is the definition, one payload signed twice, with `10m` and the access secret and with `60d` and the refresh secret |
| `Auth.AuthService.Create` | src/auth/auth.service.ts:22-28 | create fails exactly when the email is taken, and then the table is unchanged; otherwise it adds exactly one row with the next id and a null `rtHash` |
| `Auth.AuthService.FindUniqueByEmail` | src/auth/auth.service.ts:51-55 | returns the id of a row with that email, and nothing exactly when no row has it |
| `Auth.AuthService.UpdateRtHash` | src/auth/auth.service.ts:145-156 | the table becomes `Rotated(old table, id, rt)`, and the invariant is kept |
| `Auth.Rotated` | src/auth/auth.service.ts:145-156 | the rotated row's `rtHash` verifies against the new refresh token; only `rtHash` and `updateAt` of that row change; every other row is untouched |
| `Auth.AuthService.LocalSignup` | src/auth/auth.service.ts:18-48 | success exactly when the email is free; a duplicate email gives `Email <email> already exists` and no change; success adds exactly one row, with a password digest that verifies against the password, `createdAt` from the create and `updateAt` from the later `updateRtHash`, and a session that verifies against the returned refresh token, whose pair is signed for `{sub: id, email}` |
| `Auth.AuthService.LocalSignin` | src/auth/auth.service.ts:50-71 | success exactly when a row has the email and its digest verifies the password; unknown email and wrong password both give `Access denied` with no change; success rotates only that user's session to the returned refresh token |
| `Auth.AuthService.RefreshTokens` | src/auth/auth.service.ts:73-94 | success exactly when the user exists, `rtHash` is non-null and verifies the presented token; every failure is `Access denied` with no change; success rotates that user's session to the new refresh token |
| `Auth.SignedOut` | src/auth/auth.service.ts:96-108 | only the row with that id, if it has a non-null `rtHash`, changes: its `rtHash` becomes null and its `updateAt` the time of the call; an unknown id or a null `rtHash` leaves the table as it was |
| `Auth.AuthService.Signout` | src/auth/auth.service.ts:96-108 | the table becomes `SignedOut(old table, id)`; signout has no error case |
| `Auth.SignoutIdempotent` | src/auth/auth.service.ts:96-108 | signing out twice leaves the same table as signing out once |
| `Auth.SignoutRevokesRefresh` | src/auth/auth.service.ts:80-84 | after signout, refresh rejects every token for that user |
| `Auth.RotationAcceptsOnlyNewToken` | src/auth/auth.service.ts:80-92 | after a rotation to `rt`, refresh accepts a token for that user exactly when it equals `rt` |
| `Auth.SessionChangesKeepSignin` | src/auth/auth.service.ts:57-61 | rotation and signout leave signin's verdict for any credentials unchanged |
| `Auth.Project` | src/auth/auth.service.ts:113-119 | the profile carries exactly the id, name, email, createdAt and updateAt of the row, and its type has no digest field |
| `Auth.AuthService.FindUserById` | src/auth/auth.service.ts:110-121 | null exactly for an unknown id; otherwise the row's id, name, email, createdAt and updateAt |
| `Auth.ProfileHidesDigests` | src/auth/auth.service.ts:110-121 | rows that differ only in `hash` and `rtHash` project to the same profile |
| `Scenarios.SignupThenSignin` | src/auth/auth.service.ts:18-71 | a signin right after a successful signup, with the same email and password, succeeds |
| `Scenarios.SecondSignupWithSameEmail` | src/auth/auth.service.ts:18-48 | a second signup with the same email fails with the duplicate message; the table keeps only the first signup's new row, whose name and email are the first request's, whose digest verifies the first password, and whose session still accepts the first refresh token |
| `Scenarios.SignoutThenRefresh` | src/auth/auth.service.ts:73-108 | after signout a refresh with any token is `Access denied`; after the next signin, the token it returned refreshes |
| `Scenarios.RefreshTokenReuse` | src/auth/auth.service.ts:73-94 | re-presenting a used refresh token succeeds exactly when the newly issued refresh token is the same string |
| `JsString.IndexOfFrom` | src/auth/strategies/rt.strategy.ts:28 | the result is the first occurrence of the pattern at or after the start index, or none exists |
| `JsString.IndexOf` | src/auth/strategies/rt.strategy.ts:28 | the result is the first occurrence of the pattern, or the pattern does not occur |
| `JsString.ReplaceFirst` | src/auth/strategies/rt.strategy.ts:28 | without an occurrence the string is returned as it is; otherwise the text before the first occurrence and the text after it are kept and only that occurrence becomes the replacement |
| `JsString.ReplaceFirstAtStart` | src/auth/strategies/rt.strategy.ts:28 | when the string starts with the pattern, only that occurrence is replaced, and later occurrences survive |
| `JsString.ReplaceFirstAbsent` | src/auth/strategies/rt.strategy.ts:28 | without an occurrence, `replace` returns its input |
| `JsString.TrimStart` | src/auth/strategies/rt.strategy.ts:28 | the result is a suffix of the input; everything dropped is white space; the result does not start with white space |
| `JsString.TrimEnd` | src/auth/strategies/rt.strategy.ts:28 | the result is a prefix of the input; everything dropped is white space; the result does not end with white space |
| `JsString.Trim` | src/auth/strategies/rt.strategy.ts:28 | the result neither starts nor ends with white space |
| `JsString.TrimStartOfPadded` | src/auth/strategies/rt.strategy.ts:28 | `trimStart` removes exactly the leading white space |
| `JsString.TrimEndOfPadded` | src/auth/strategies/rt.strategy.ts:28 | `trimEnd` removes exactly the trailing white space |
| `JsString.TrimOfPadded` | src/auth/strategies/rt.strategy.ts:28 | `trim` of white space, a trimmed core and white space is that core |
| `JsString.TrimIdempotent` | src/auth/strategies/rt.strategy.ts:28 | trimming twice equals trimming once |
| `RtStrategy.ExtractRt` | src/auth/strategies/rt.strategy.ts:28 | the extracted token never has leading or trailing white space |
| `RtStrategy.BearerTokenRecovered` | src/auth/strategies/rt.strategy.ts:28 | the header `Bearer <t>`, with `t` trimmed, yields exactly `t`, even when `t` contains `Bearer` |
| `RtStrategy.FirstBearerRemoved` | src/auth/strategies/rt.strategy.ts:28 | a header starting with `Bearer` loses only that occurrence and is then trimmed |
| `RtStrategy.NoBearerOnlyTrims` | src/auth/strategies/rt.strategy.ts:28 | a header without `Bearer` yields just the trimmed header |
| `RtStrategy.Validate` | src/auth/strategies/rt.strategy.ts:23-34 | the lookup is keyed by the payload's `sub`; the result carries that user's whole profile, or no profile fields when the user is unknown, plus the extracted `rt` |
| `RtStrategy.ValidatedTokenReachesRefresh` | src/auth/strategies/rt.strategy.ts:27-28 | for the header `Bearer <t>`, refresh accepts the forwarded `rt` exactly when it accepts `t`; for a known user the profile's `id`, which the refresh route passes, is the token's `sub` |

## Left out

- JWT signing and verification: signatures, secrets' values and expiry are not modelled. The signer is an arbitrary
  function of the payload and the options. Passport-jwt verifies the token before `validate` runs, and that check is
  not modelled.
- argon2 internals: a digest records its secret and salt, so `Verify` can be defined. No attack model is given.
- Concurrency: `Promise.all` in `generateTokens` is modelled as two sequential signings. The race between two
  concurrent refreshes with the same token is not modelled; every operation runs alone.
- Store errors other than the email unique constraint, and signing failures. Signup's catch turns every known Prisma
  error into "already exists", even one from `updateRtHash` after the row exists. The sequential model has no such
  failure. If it happened, the user would be left with a null `rtHash`.
- `RtStrategy.Validate`: the object spread is kept as one optional profile plus `rt`, not as separate optional
  fields. The header is assumed present, because passport-jwt has already read a bearer token from it.
- JavaScript strings are UTF-16 code units. Here they are Unicode scalar values. `"Bearer"` and all white-space
  characters are single code units, so `replace` and `trim` return the same strings; `indexOf` counts characters
  here, while JavaScript counts a character outside the Basic Multilingual Plane as two.
- Ids are JavaScript numbers; only integer ids are modelled.
- RtStrategy.ValidatedTokenReachesRefresh: for an unknown user the refresh route would pass an undefined `id`; the
  model keys that case by the token's `sub`. What the store does with an undefined id is not modelled.
- Auth.EmailTaken, Auth.AuthService.FindUniqueByEmail: emails are compared as exact strings. Under a
  case-insensitive collation (MySQL's default), `J@x.com` would collide with `j@x.com` on signup and would find its
  row on signin. Such a collation is not modelled.
- Auth.AuthService.Create: a rejected insert does not use up an id, so ids have no gaps. On PostgreSQL or MySQL an
  autoincrement insert rejected by the unique index still consumes its id. The database is not part of this model,
  and no property here depends on ids being consecutive.
- The Prisma connection lifecycle and `cleanDb` (src/prisma/prisma.service.ts) are I/O. Configuration wiring
  (src/app.module.ts), routing (src/auth/auth.controller.ts), the request-context decorator, the class-validator rules
  of the DTOs, the one-line `AtStrategy.validate` delegation and the type declarations are framework code with no
  logic of their own. The end-to-end test exercises the HTTP layer.

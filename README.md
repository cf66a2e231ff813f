# Authentication core of project_template, in Dafny

This project models the authentication core of the Next.js application
`project_template`. That core has five parts:

- the user account schema, with its documents and its pre-save hook;
- the users collection;
- the two NextAuth configurations (`src/auth.ts` and `src/auth.config.ts`):
  route authorization, the credentials `authorize`, provider linking in
  `signIn`, and the `jwt` and `session` callbacks with their random session
  id;
- the `POST /api/register` handler;
- the registration form's validation schema.

The model proves these properties:

- The route policy is total, and each logged-in or anonymous request gets
  exactly one of three answers. The variant in `src/auth.config.ts` grants
  every request.
- `authorize` fails in a fixed order, and it refuses a federated account
  before any password is compared.
- `signIn` creates, relinks or refuses, and the store changes accordingly.
- Saving hashes a password at most once, and each save refreshes `updatedAt`.
- The session id is 64 lower-case hex digits, and distinct random bytes give
  distinct ids.
- A successful registration can be signed into. A second registration with
  the same email is refused.
- The password pattern accepts exactly the passwords that follow a plain
  character-class rule.

## Modules

- `common.dfy` (`Common`) holds Option/Result, JavaScript truthiness of
  optional strings, JavaScript string length in UTF-16 code units, and the
  ASCII lower-casing of the schema's `lowercase` setter.
- `user_model.dfy` (`UserModel`) holds the `Account` record, the schema
  validators, and the `UserDocument` class (its constructor applies the
  defaults, and `PreSave` is the hook). The `Store` class models the
  collection, keyed by lower-cased email, with `FindOne`, `Load` and `Save`.
- `auth_config.dfy` (`AuthConfig`) holds the hex encoding and its decoding,
  `GenerateSessionId`, the always-granting `authorized`, and the `jwt` and
  `session` callbacks over the `Token` and `Session` classes.
- `auth.dfy` (`Auth`) holds the route policy, `Authorize`, `SignIn` and the
  `session` callback.
- `register_route.dfy` (`RegisterRoute`) holds the `POST` handler and two
  scenarios built on it.
- `register_form.dfy` (`RegisterForm`) holds the password pattern, with its
  lookahead semantics written out, and `ParseForm`.

The foreign calls are parameters of the model:

- bcrypt's `hash` and `compare`;
- `validator.isEmail`, which the store holds as its email validator;
- zod's email check;
- the clock (`now`);
- `crypto.getRandomValues` (the `random` bytes).

## Model

| member | source | states |
|---|---|---|
| `Common.Lower` | src/models/authentication/authModel.ts:28 | the `lowercase` setter keeps the length, turns each upper-case ASCII letter into its lower-case letter (code point + 32), leaves no upper-case letter and changes no other character |
| `Common.Utf16Length` | src/models/authentication/authModel.ts:39 | JavaScript's `.length` counts UTF-16 code units: between one and two per character |
| `Common.Utf16LengthOfBmp` | src/app/authclient/Register/page.tsx:39 | on characters of the Basic Multilingual Plane the JavaScript length is the number of characters |
| `Common.AstralCharLength` | src/app/authclient/Register/page.tsx:39 | one character outside the Basic Multilingual Plane has JavaScript length 2 |
| `Common.LowerIdempotent` | src/models/authentication/authModel.ts:24-30 | a stored (lower-case) email is its own lookup key |
| `Common.LowerKeepsEmptiness` | src/models/authentication/authModel.ts:26 | lower-casing neither empties a non-empty email nor fills an empty one, so `required` is unaffected |
| `UserModel.IsOAuthUser` | src/models/authentication/authModel.ts:108-116 | an OAuth user has both a provider and a provider id, both non-empty |
| `UserModel.PasswordConforms` | src/models/authentication/authModel.ts:31-41 | a non-OAuth account conforms only with a non-empty password; a password shorter than 8 UTF-16 code units never conforms; with no password the path conforms exactly for an OAuth user |
| `UserModel.Conforms` | src/models/authentication/authModel.ts:19-63 | a conforming document has a name and an email the validator accepts; when the password path is checked, a non-OAuth document also holds a password of at least 8 UTF-16 code units |
| `UserModel.PasswordRequired` | src/models/authentication/authModel.ts:33-38 | a password is required exactly when the account is not an OAuth user (`isOAuthUser`, lines 108-109), in particular whenever provider or providerId is falsy |
| `UserModel.ComparePassword` | src/models/authentication/authModel.ts:119-140 | true exactly when a truthy password is stored and the comparison answers Match; false when nothing is stored or the comparison throws |
| `UserModel.UserDocument.constructor` | src/models/authentication/authModel.ts:19-63 | a new document has the lower-cased email, role `user`, the given (or null) provider fields and both timestamps at now |
| `UserModel.UserDocument.PreSave` | src/models/authentication/authModel.ts:79-105 | the password is replaced by its hash only when modified and non-empty, `updatedAt` becomes now, and nothing else changes |
| `UserModel.Store.FindOne` | src/models/authentication/authModel.ts:24-30 | a found account has the lower-cased email and is stored; not found means no stored account has that email |
| `UserModel.Store.NewDocument` | src/app/api/register/route.ts:37-41 | `new User({...})` with a fresh id; the collection is untouched |
| `UserModel.Store.Load` | src/models/authentication/authModel.ts:40 | a loaded document is the stored record without its password (`select: false`), neither new nor selected nor modified |
| `UserModel.Store.Save` | src/models/authentication/authModel.ts:19-105 | fails exactly on a validation failure or an email already stored (duplicate key). A failure leaves the collection unchanged. A success stores the hooked document under its email. An update keeps the stored password unless it was modified |
| `UserModel.SaveTwice` | src/models/authentication/authModel.ts:83-89 | a second save without a password change succeeds and does not hash again: the stored password is hashed once after a first insert and unchanged for a loaded document |
| `AuthConfig.DigitRoundTrip` | src/auth.config.ts:21 | every digit written by `toString(16)` reads back as its value |
| `AuthConfig.ToRadix16` | src/auth.config.ts:21 | `toString(16)` writes one digit exactly for values below 16 |
| `AuthConfig.PadStart` | src/auth.config.ts:21 | `padStart` keeps the string as a suffix and fills on the left up to the length |
| `AuthConfig.Radix16OfByte` | src/auth.config.ts:21 | a byte's base-16 form is its low nibble alone below 16, else high then low nibble |
| `AuthConfig.ByteToHex` | src/auth.config.ts:21 | every byte becomes two hex digits whose value is the byte |
| `AuthConfig.ByteToHexIsPair` | src/auth.config.ts:21 | `toString(16).padStart(2,'0')` turns every byte into exactly two digits, high nibble first |
| `AuthConfig.HexEncode` | src/auth.config.ts:21 | the join has two characters per byte |
| `AuthConfig.HexEncodeSnoc` | src/auth.config.ts:21 | appending a byte appends its two digits to the join |
| `AuthConfig.HexEncodeAt` | src/auth.config.ts:21 | byte i is written at positions 2i and 2i+1 |
| `AuthConfig.HexEncodeIsHex` | src/auth.config.ts:21 | every character of the id is in `0-9a-f` |
| `AuthConfig.HexDecode` | src/auth.config.ts:21 | decoding, when it succeeds, reads two characters per byte |
| `AuthConfig.DecodeEncode` | src/auth.config.ts:21 | decoding the id recovers the random bytes |
| `AuthConfig.EncodeInjective` | src/auth.config.ts:21 | distinct random bytes give distinct ids |
| `AuthConfig.GenerateSessionId` | src/auth.config.ts:18-22 | the id built from the 32-byte buffer is the hex encoding of the random bytes, 64 characters long |
| `AuthConfig.ConfigAuthorized` | src/auth.config.ts:30-65 | a refusal happens only without a session; the only redirect is to "/", for a session on a `/authclient` path |
| `AuthConfig.ConfigAuthorizedAlwaysGrants` | src/auth.config.ts:30-65 | because "/" is a public prefix, this `authorized` returns true for every path and session state |
| `AuthConfig.Jwt` | src/auth.config.ts:66-72 | on a fresh sign-in the token's session id becomes the encoding of the random bytes and no other claim changes; otherwise the token is untouched |
| `AuthConfig.SessionCallback` | src/auth.config.ts:73-79 | the session id is copied only when the token's is a non-empty string; otherwise the session is untouched |
| `AuthConfig.TwoSignIns` | src/auth.config.ts:66-72 | two fresh sign-ins with different random bytes carry different session ids |
| `Auth.Authorized` | src/auth.ts:110-136 | the answer is allow, a redirect to `/profile` (only for logged-in users) or a redirect to `/authclient/Login` (only for anonymous users) |
| `Auth.PathGroupsDisjoint` | src/auth.ts:29-30 | no path is under both an auth page and the profile, and the root is under neither |
| `Auth.PrefixListsAre` | src/auth.ts:114-126 | the two prefix lists test exactly the auth pages and the profile |
| `Auth.AuthorizedCases` | src/auth.ts:110-136 | a redirect to `/profile` happens exactly for logged-in users on an auth page or the root. A redirect to `/authclient/Login` happens exactly for anonymous users on the profile or the root. Everything else is allowed, so the policy is total |
| `Auth.AuthPagesPolicy` | src/auth.ts:114-119 | on an auth page a logged-in user is redirected to `/profile` and an anonymous one allowed |
| `Auth.ProfilePolicy` | src/auth.ts:121-126 | on the profile an anonymous user is redirected to `/authclient/Login` and a logged-in one allowed |
| `Auth.ProviderLocked` | src/auth.ts:86 | a locked account needs no password and its provider is not `credentials`; an account with provider `credentials` or without a provider id is never locked |
| `Auth.Authorize` | src/auth.ts:71-106 | fails, in order, on a missing field, an unknown email, a federated account (naming its provider) and a failed comparison; otherwise returns exactly id, email, name and role of the stored account |
| `Auth.AuthorizeIgnoresEmailCase` | src/auth.ts:79 | credentials differing only in the email's letter case get the same answer |
| `Auth.FederatedRefusesEveryPassword` | src/auth.ts:86-88 | a federated account gets the same refusal whatever the password, before any comparison |
| `Auth.RegisteredPasswordAccepted` | src/auth.ts:90-101 | a credentials account storing the hash of a password accepts that password and returns its public identity |
| `Auth.ProviderConflict` | src/auth.ts:162 | a conflict needs a stored provider different from the presented one; a stored provider equal to the presented one, `credentials` or none never conflicts |
| `Auth.FederatedRecord` | src/auth.ts:148-153 | the created record has no password, role `user`, the lower-cased email and the presented provider and provider id |
| `Auth.FederatedRecordConforms` | src/auth.ts:148-153 | the created record validates exactly when name, email, provider and provider id are present and the email is valid |
| `Auth.SignIn` | src/auth.ts:138-178 | refuses without touching the store when the email is missing, or when the email is unknown and no account is presented. An unknown email with an account creates exactly that record. A known email is refused on a provider conflict, store unchanged; otherwise provider and provider id are overwritten. On success the stored id and role are copied into `user` |
| `Auth.FederatedThenCredentials` | src/auth.ts:86-88 | after a first sign-in through a non-credentials provider, a credentials sign-in is refused naming that provider |
| `Auth.SessionCallback` | src/auth.ts:180-199 | no session when the token has neither email nor subject. Otherwise id, role and session id are copied when the session has a user, and the provider when it is truthy |
| `RegisterRoute.RegisteredRecord` | src/app/api/register/route.ts:37-44 | the stored record has the lower-cased email, the hashed password, role `user` and no provider |
| `RegisterRoute.NewAccountConforms` | src/app/api/register/route.ts:37-44 | the new document validates exactly when the email is valid and the password has at least 8 UTF-16 code units |
| `RegisterRoute.Post` | src/app/api/register/route.ts:11-81 | missing fields give 400 before the store is read, and a known email gives 400 with the store unchanged. Otherwise exactly one record is added and 201 returns id, email and name only, or a validation failure gives 500. With a concurrent registration, a body failing validation gives 500 whatever it did; otherwise 400 "Email already in use" comes exactly when it stored a valid record under the same lower-cased email (that record then stands), and 201 otherwise. A duplicate key is reachable only through such a concurrent insert |
| `RegisterRoute.RegisterTwice` | src/app/api/register/route.ts:28-34 | after a 201, registering the same email in any letter case gives 400 "User already exists" |
| `RegisterRoute.RegisterThenAuthorize` | src/app/api/register/route.ts:37-63 | after a 201, the credentials sign-in with the same email and password succeeds with the identity the registration reported |
| `RegisterForm.RegexMatches` | src/app/authclient/Register/page.tsx:41 | a matching password is ASCII, so its JavaScript length is its character count and at least 8, and it holds a lower-case letter and a special character |
| `RegisterForm.AllowedLength` | src/app/authclient/Register/page.tsx:41 | on allowed characters the `{8,}` count of UTF-16 code units is the character count |
| `RegisterForm.LookaheadOnAllowed` | src/app/authclient/Register/page.tsx:41 | on allowed characters a `(?=.*[class])` lookahead holds exactly when the class occurs |
| `RegisterForm.RegexIsPolicy` | src/app/authclient/Register/page.tsx:41 | the pattern accepts exactly the passwords with at least 8 characters, all from `A-Za-z0-9@$!%*?&`, including a lower-case letter, an upper-case letter, a digit and a special character |
| `RegisterForm.ForbiddenCharRejected` | src/app/authclient/Register/page.tsx:41 | one character outside the allowed set makes the pattern fail |
| `RegisterForm.SamplePasswordAccepted` | src/app/authclient/Register/page.tsx:41 | "Passw0rd!" matches the pattern |
| `RegisterForm.ParseForm` | src/app/authclient/Register/page.tsx:33-49 | no issue exactly when the name's JavaScript length is at least 2, the email passes, the password follows the rule and the confirmation equals it. A mismatch, and only a mismatch, is reported on `confirmPassword`. The `min(8)` issue comes exactly for passwords under 8 UTF-16 code units, and never without the pattern issue |
| `RegisterForm.NameRule` | src/app/authclient/Register/page.tsx:35 | a name is accepted exactly when its JavaScript length (UTF-16 code units) is at least 2 |

## Left out

- Rendering and client state are not modelled: JSX, form state, toasts,
  router pushes, remember-me storage, theme and menu toggles.
- The copies of the password rule in `CustomRegistration.tsx` and
  `PasswordReset/page.tsx` are not modelled separately. Only their messages
  differ.
- The login form's schema is not modelled.
- bcrypt is left out:
  - `hash` and `compare` are parameters.
  - `hash` is a function, so the random salt of `genSalt(12)` is folded into
    it, and equal passwords get equal digests in the model.
  - An error thrown inside the pre-save hook is not modelled.
- `validator.isEmail` and zod's `email()` are parameters.
- JWT signing, `getToken` and NextAuth's dispatch of the callbacks are
  outside the model. Which callback runs when, and whether `user` is present
  in `jwt`, come in as arguments.
- Database plumbing is left out: `connect()`, connection events, the
  `findOne` hook that selects the password on request, `logState` and
  console logging. Document ids are natural numbers from a counter, not
  ObjectIds.
- `Common.Lower` lower-cases ASCII letters only, whereas JavaScript's
  `toLowerCase` also folds non-ASCII letters.
- `UserModel.Store.FindOne` assumes that the `lowercase` setter is also
  applied to the query value, as Mongoose casts query filters through the
  schema. So every lookup is on the lower-cased email.
- `UserModel.Store.Save` writes all non-password fields of a loaded document
  back, where Mongoose writes only the modified paths. With no concurrent
  writer the results are the same.
- One value `now` stands for every clock read of one request (`Date.now`
  defaults and `new Date()` in the hook).
- Concurrency is modelled only for registration. `RegisterRoute.Post` takes
  one optional concurrent registration (`racer`), which is inserted between
  the existence check and the insert. Other interleavings are not modelled.
- The register handler's body fields are modelled as strings, with "" for
  a falsy value. Non-string JSON values and a body that fails to parse are
  not modelled.
- `Math.random` password suggestions are not modelled.
- Redirect responses are modelled as their target path, without building
  the URL.
- The session callbacks see a claim as unset, a string, or another value
  with its truthiness. The claims' JSON types are otherwise not modelled.

Behaviours of the code worth knowing:

- In `src/auth.ts` the public prefix list does not contain "/". The root has
  its own branch: anonymous users are redirected to login, logged-in users
  to the profile.
- Lengths (`minlength`, zod's `min`) count UTF-16 code units, so a
  character outside the Basic Multilingual Plane counts twice.
- `authorize` refuses a federated account only when both `provider` and
  `providerId` are set, not on `provider` alone.
- A registration whose email fails the validator, or whose password is
  shorter than 8 characters, raises a validation error in `save()`. The
  handler maps it to 500, not to a 400-class error.
- `authorize` throws a distinct error per failure.

# User accounts and password reset, as a state machine

This project models the user router of the shop backend (`backend/routes/userRoutes.js`): the
admin listing, lookup, update and delete of users, sign-in, sign-up, profile update, and the
password-reset flow (forgot-password issues a token, reset-password consumes it). Each HTTP
handler is a pure function from a user store and the request's inputs to a new store and a
response (`UserRoutes.Step`). `UserRoutes.Handle` dispatches a request to its handler. The
Express route table and its first-match order are modelled separately, in `Routing`. That is
where the profile route turns out to be unreachable (see "## Findings").

The store (`UserStore.Store`) maps document ids to user records
`{name, email, passwordHash, isAdmin, resetToken, resetExpires}`. It also keeps the collection's
natural order, because `findOne` returns the first matching document in that order
(`UserStore.FindIn`). Emails are not assumed unique, since nothing in the router enforces it;
lemmas that need unique emails say so in their preconditions.

Inputs from outside the store:

- the current time (`now`, in milliseconds);
- whether `sendEmail` succeeded (`delivered`);
- the id the database gives a new document (`newId`);
- the output of `createPasswordResetToken`: the raw token, the stored digest and the expiry
  (`Collaborators.ResetIssue`).

bcrypt `hashSync`/`compareSync`, sha256 and `generateToken` are uninterpreted function fields of
`Collaborators.Services`. Only two facts about them are ever assumed, and only in the lemmas
that name them: a password verifies against its own hash (`CompareAcceptsOwnHash`), and a hash
verifies no other password (`CompareBindsHash`). The second fact is an idealisation. Real bcrypt
reads only the first 72 bytes of a password, so two passwords that agree on those bytes verify
against each other's hashes.

Main results:

- A reset succeeds exactly when some user holds the sha256 of the token with an expiry strictly
  after `now`. Success replaces that user's password hash and clears both reset fields. Failure
  is a 400 and changes nothing.
- A consumed token cannot be replayed (`ReplayFails`). This needs the store invariant that no two
  users hold the same reset digest. Without it, a replay could reach another user who happens to
  hold the same digest.
- A second forgot-password request revokes the first token (`ReissueRevokesEarlierToken`).
- An expired token is refused (`ExpiredTokenRejected`).
- A failed mail delivery clears the reset state. That also revokes any earlier token
  (`FailedDeliveryRevokesEarlierToken`).
- After forgot-password and a reset in time, sign-in accepts the new password and refuses the
  old one (`IssuedTokenChangesPassword`).
- Sign-in gives one 401 answer for an unknown email and for a wrong password. Forgot-password,
  on the other hand, reveals whether an email is registered.
- Delete never removes an account whose email is `admin@example.com`, and no request does
  (`ProtectedAccountSurvivesEveryRequest`). The guard looks only at the email, though. An admin
  update that renames the account makes it deletable (`RenamedProtectedAccountCanBeDeleted`).
- Every request keeps three store invariants (`HandlePreservesInvariant`): the natural order
  lists each id once; a reset digest is present exactly when an expiry is; and no two users hold
  the same digest.

Behaviour of the code worth knowing:

- Admin update, `GET /` and `GET /:id` answer with the whole stored document, password hash
  included (`UserUpdated`, `UserDoc`, `UserList`). Only the identity payloads of sign-in,
  sign-up and profile leave the hash out.
- Sign-up does not check for a duplicate email.
- Admin update sets `isAdmin` to `Boolean(body.isAdmin)`, so an update that omits it demotes the
  account (`AdminUpdateWithoutFlagDemotes`).
- `PUT /:id` is registered before `PUT /profile`, so a profile update is routed to the admin
  update with id "profile" (`Routing.ProfileUnreachableAsRegistered`).

## Model

| member | source | states |
|---|---|---|
| UserStore.FindIn | backend/routes/userRoutes.js:160-163 | `findOne` returns a matching document, and the first one in natural order; it returns nothing exactly when no document matches |
| UserStore.FindOne | backend/routes/userRoutes.js:114 | on a well-formed store, `findOne` returns nothing exactly when no stored user matches the filter, and otherwise a stored user that matches |
| UserStore.Remove | backend/routes/userRoutes.js:64 | `remove()` drops exactly that id, keeps every other document as it was, and keeps the natural order duplicate-free and in step with the stored ids |
| UserStore.Insert | backend/routes/userRoutes.js:99 | saving a new document under a fresh id adds exactly that id, last in natural order, and leaves the existing documents unchanged |
| UserRoutes.ListUsers | backend/routes/userRoutes.js:16-17 | the listing holds every stored user exactly once, only stored users, each with its stored record, and changes nothing |
| AccountProperties.GetAgreesWithList | backend/routes/userRoutes.js:16-31 | a lookup by id answers with a document exactly when the listing shows that id with that document |
| UserRoutes.UpdateUser | backend/routes/userRoutes.js:40-49 | name and email take the supplied values when truthy and keep the old ones otherwise; isAdmin becomes `Boolean(body.isAdmin)`; password and reset state are kept; other users are untouched; an unknown id gives 404 with the store unchanged |
| UserRoutes.DeleteUser | backend/routes/userRoutes.js:58-68 | an unknown id gives 404 and the protected email gives 400, both with the store unchanged; otherwise exactly that user is removed; no user with the protected email is ever removed |
| UserRoutes.Signin | backend/routes/userRoutes.js:74-87 | the store never changes; every failure is the same 401 "Invalid email or password"; success returns the identity of a user with that email whose hash accepts the password; if no such user accepts it, the result is a failure |
| UserRoutes.Signup | backend/routes/userRoutes.js:94-106 | adds one non-admin user with the password hash and no reset state, leaves existing users unchanged, and returns its identity with a fresh bearer token |
| UserRoutes.ForgotPassword | backend/routes/userRoutes.js:113-146 | a 401 "User not found!" answer comes exactly when no user has the email, and then nothing changes; otherwise only the reset fields of one user with that email change: set to the issued digest and expiry with 200 on delivery, both cleared with 500 on delivery failure |
| UserRoutes.ResetPassword | backend/routes/userRoutes.js:155-177 | succeeds exactly when some user holds sha256 of the token with an expiry strictly after now; on success only that user changes, getting the new password hash and no reset state; on failure 400 and the store unchanged |
| UserRoutes.UpdateProfile | backend/routes/userRoutes.js:184-202 | unknown caller gives 404 with the store unchanged; otherwise name and email follow the fall-back rule, the password hash changes only when a password is supplied, isAdmin and reset state are kept, and the refreshed identity with a new token is returned |
| UserRoutes.Handle | backend/routes/userRoutes.js:11-204 | dispatching any request to its handler keeps the store well formed; only delete removes users; listing, lookup and sign-in change nothing |
| ResetLifecycle.ForgotKeepsEmailLookup | backend/routes/userRoutes.js:114-121 | forgot-password changes no email and no order, so a later lookup by email reaches the same document |
| ResetLifecycle.ReplayFails | backend/routes/userRoutes.js:160-168 | after a successful reset, the same raw token is refused with 400 at any later time, for any password, when no two users shared a digest |
| ResetLifecycle.ReissueRevokesEarlierToken | backend/routes/userRoutes.js:114-163 | after a second forgot-password for the same email, the first raw token no longer resets, whether or not either mail was delivered |
| ResetLifecycle.ExpiredTokenRejected | backend/routes/userRoutes.js:160-163 | an issued token presented at or after its expiry is refused |
| ResetLifecycle.FailedDeliveryRevokesEarlierToken | backend/routes/userRoutes.js:140-143 | a forgot-password whose mail fails leaves the user with no usable token, so a token issued earlier is refused |
| ResetLifecycle.DeliveredIssueHeldOnlyBy | backend/routes/userRoutes.js:114-121 | a delivered forgot-password for a unique email stores the issued digest and expiry on that user alone and changes no email or password |
| ResetLifecycle.ResetByOnlyHolder | backend/routes/userRoutes.js:160-169 | a live token held by one user only resets exactly that user |
| ResetLifecycle.IssuedTokenChangesPassword | backend/routes/userRoutes.js:110-178 | forgot-password, then reset with the mailed token before expiry: the reset succeeds, sign-in accepts the new password and refuses the old one |
| AccountProperties.SigninSucceedsIffCredentialsMatch | backend/routes/userRoutes.js:74-87 | with unique emails, sign-in succeeds exactly when a user with the email exists and the password verifies against its hash |
| AccountProperties.SigninFailuresIndistinguishable | backend/routes/userRoutes.js:75-87 | an unknown email and a wrong password yield the identical 401 response and leave the store unchanged |
| AccountProperties.ForgotPasswordRevealsAccountExistence | backend/routes/userRoutes.js:114-118 | forgot-password answers 401 "User not found!" for an unknown email and something else for a registered one |
| AccountProperties.SignupThenSignin | backend/routes/userRoutes.js:94-106 | a new account with an unused email signs in with its password and gets the same non-admin identity that sign-up returned |
| AccountProperties.UpdateUserIdempotent | backend/routes/userRoutes.js:40-45 | repeating the same admin update leaves the store as it was after the first |
| AccountProperties.AdminUpdateWithoutFlagDemotes | backend/routes/userRoutes.js:44 | an admin update with no fields keeps name and email but clears isAdmin |
| AccountProperties.ProtectedAccountSurvivesEveryRequest | backend/routes/userRoutes.js:60-63 | no single request of any kind removes a user whose email is admin@example.com |
| AccountProperties.RenamedProtectedAccountCanBeDeleted | backend/routes/userRoutes.js:42-64 | for any store, once an admin update gives the protected account another non-empty email, the next delete of it succeeds and removes it |
| Routing.Dispatch | backend/routes/userRoutes.js:11-204 | a request reaches the handler of the first registered route whose method and path pattern match it, and no handler when none matches |
| Routing.DispatchPicks | backend/routes/userRoutes.js:11-204 | a matching route that no earlier route matches is the one dispatched |
| Routing.ProfileUnreachableAsRegistered | backend/routes/userRoutes.js:35-51 | in the registered order no request reaches the profile handler, and `PUT /profile` reaches the admin update |
| Routing.CorrectedReachesProfile | backend/routes/userRoutes.js:180-184 | with `PUT /profile` registered first, `PUT /profile` reaches the profile handler |
| Routing.CorrectedKeepsAdminUpdate | backend/routes/userRoutes.js:35-40 | with `PUT /profile` registered first, `PUT` of any other non-empty id still reaches the admin update |
| AccountProperties.HandlePreservesInvariant | backend/routes/userRoutes.js:11-204 | every request, given a fresh id for sign-up and a fresh digest for forgot-password, keeps the order well formed, reset digest and expiry paired, and reset digests distinct |

## Left out

- Express routing, response serialisation, `expressAsyncHandler` and `console.log`: I/O with no logic. A thrown error after `res.status(n)` is modelled as `Fail(n, message)`.
- The `isAuth` and `isAdmin` middleware live in `utils.js`, which is not part of this model. They run before a handler; the model starts at the handler. The profile handler takes the caller's id as input.
- Mongoose persistence: queries and saves are modelled on the immutable store. Not modelled: database errors, `CastError` for malformed ids, and schema validation or unique indexes (`models/userModel.js` is not part of this model). Sign-up assumes the schema's `isAdmin` default is false.
- bcrypt salts and cost factors: `hashSync(p)` and `hashSync(p, 8)` are both one function of the password.
- `createPasswordResetToken` is not part of this model, and neither is its 10-minute expiry; its output is an input.
- `generateToken`'s token contents and `sendEmail`'s transport: a function field and a boolean. The model's token is a function of the id and the document only, with no issue time.
- AccountProperties.SignupThenSignin: the equality of the sign-in and sign-up responses includes the bearer token. That relies on the token ignoring time. A real signer that stamps the issue time would give two different tokens, and only id, name, email and isAdmin would then agree.
- Express's case-insensitive path matching and trailing slashes: `Routing` compares path segments exactly.
- The reset URL and mail text: string formatting for I/O only.
- Absent or non-string `email`/`password` in sign-in, sign-up, forgot-password and reset: these are modelled as strings. In the source such requests crash inside bcrypt or match every document.
- Non-string `name`, `email` and `password` in admin update and profile update: these are modelled as optional strings. In the source a truthy non-string password makes `bcrypt.hashSync` throw, and a numeric name is cast to a string.
- `isAdmin` request values are JSON values with real-number numbers. NaN does not arise.
- Concurrency: in the model each request is one atomic transition. In the source, the digest saved by a failed forgot-password stays visible to other requests until the rollback save. A reset is a `findOne` followed by a separate `save`, so two concurrent resets with the same token can both pass the guard. Neither race is modelled.

## Findings

| source | as written | input that shows it | evidently intended | confidence | as-written member | corrected member |
|---|---|---|---|---|---|---|
| backend/routes/userRoutes.js:35-51 | `PUT /:id` is registered before `PUT /profile`, and Express dispatches to the first matching route, so `/:id` takes the segment `profile` | `PUT /profile` from a signed-in user: the admin update runs (isAdmin, then `findById("profile")`) instead of the profile handler | `PUT /profile` reaches the profile handler, and every other `PUT /<id>` reaches the admin update | medium; read from the code, not executed | Routing.ProfileUnreachableAsRegistered | Routing.CorrectedReachesProfile |

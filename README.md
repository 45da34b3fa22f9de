# photomate-backend: the account lifecycle

A Dafny model of the account code of the photomate backend, an Express and
Mongoose service. It covers four parts:

- **The User record** (`UserModel`): the fields, their defaults, the gender
  enum, the `required` and `trim` rules, and the unique keys. The `users`
  collection is `UserStore.Users`. It keeps the documents in natural order,
  and `save()` runs the schema's validators and the unique indexes.
- **The request validators** (`UserValidator`): the express-validator chains
  for signup and login, and the two existence checks against the collection.
- **The auth handlers** (`AuthController`): signup hashes the password, saves
  the new user and answers 201 with a token. Login looks the user up by email,
  or else by username, and checks the password.
- **The mail handlers** (`MailController`): asking for a verification token,
  confirming it, and asking for a password-reset token. Each handler runs its
  guards in a fixed order, then changes one field of one user. `Tokens` models
  the token text: 20 random bytes written as lower-case hexadecimal.

The mail handlers are module-level methods of `MailController`. Each takes the
collection object as a parameter and modifies it, with `modifies` clauses. Each method's `ensures` gives the whole new collection in terms of
pure functions: `Confirm`, `Requested`, `WithResetToken`, `RequestTarget` and
`ResetTarget`. Lemmas about those functions show the order of the guards, the
state changes and the "nothing else changes" properties.

These are parameters of the model and are not modelled:

- express-validator's `escape` and `isEmail`: `UserValidator.Library`.
- bcrypt `hash` and `compare`, and `jwt.sign`: `AuthController.AuthLib`.
- The output of `crypto.randomBytes(20)`: a byte sequence of length 20.
- The environment variables: `MailController.Env`.
- Whether the mail transport delivered the mail: a boolean.
- The id and creation time of a new user.

A request-body field that is absent reads as the empty string. The
`isLength` validator counts code points, and so does a Dafny string's length.

One mismatch between the code and the schema: the mail controller reads and
writes `verified`, `verifiedToken`, `resetPasswordToken` and `githubId`, but
models/User.js:3-66 declares none of them. The model gives `User` these four
fields as `Option` fields, where `None` means the field is unset. It follows
the controller, which expects them to be stored. What Mongoose's default strict
mode does to them instead is a finding below (`UserModel.StrictSaved`).

A query on `email` or `username` is cast through that path's `trim` setter.
The mail handlers look up the email as sent, so their lookups use it trimmed
(`MailController.QueryEmail`). Every other lookup receives a value the
validators have already trimmed.

The login chain escapes `userID`, but the signup email chain does not escape
the email. So through the login route, a login with an email that `escape` changes (one
with `'` or `/` in it, say) is refused unless some other user has the escaped
text as an email or a username: `AuthController.LoginRouteRefusesEscapedEmail`.
Logging in by username needs no condition beyond `escape` keeping trimmed
strings trimmed: `AuthController.SignupThenLoginByUsername`.

## Model

| member | source | states |
|---|---|---|
| `Text.Trim` | middleware/user-validator.js:5-7 | The result has no white space at either end and is never longer than the input. It is empty exactly when the input is all white space. |
| `Text.TrimPadded` | models/User.js:4-20 | Trimming removes exactly the white-space padding around a trimmed core. |
| `Text.TrimIdempotent` | models/User.js:4-20 | Trimming twice gives the same result as trimming once. |
| `UserModel.GenderName` | models/User.js:60-64 | Each gender is written as one of the four enum strings `''`, `'male'`, `'female'` and `'other'`. |
| `UserModel.ParseGender` | models/User.js:60-64 | A string is accepted exactly when it is one of the four enum values, and it reads back as that value. |
| `UserModel.GenderRoundTrip` | models/User.js:60-64 | Writing a gender and parsing it back gives the same gender. |
| `UserModel.NewUser` | models/User.js:3-66 | A new user has username, name and email trimmed and the password as given. Its defaults are: the Cloudinary avatar; empty posts, followers and following with both counts 0; profile website `''`, bio `''`, phoneNumber null and gender `''`. The four fields the schema does not declare are unset. |
| `UserModel.RequiredErrors` | models/User.js:4-24 | The list holds each `required` message exactly when its field is empty, and it is empty exactly when the record passes the schema. |
| `UserModel.NewUserValid` | models/User.js:4-24 | A new user passes the schema exactly when username, name and email are not all white space and the password is non-empty. |
| `UserModel.StrictSaved` | models/User.js:3-66 | What a save under strict mode stores: `verified`, `verifiedToken`, `resetPasswordToken` and `githubId` are dropped, and every declared field is kept. |
| `UserModel.FindOne` | middleware/user-validator.js:76-77 | `findOne` returns the first document in natural order whose key has the value, or nothing when no document has it. |
| `UserModel.FindOneTaken` | middleware/user-validator.js:76-79 | `findOne` finds a document exactly when some document has that key value. |
| `UserModel.FindOneUnique` | models/User.js:8-19 | When the keys are unique, looking up a document's own key finds that document. |
| `UserStore.Users.Valid` | models/User.js:4-19 | The collection invariant: every stored document passed the `required` validators, and no two documents share an id, a username or an email. |
| `UserStore.SameKeysNoClash` | models/User.js:8-19 | Rewriting a document without changing its id, username or email never breaks a unique index. |
| `UserStore.Users.constructor` | models/User.js:68 | The collection starts empty and valid. |
| `UserStore.Users.Save` | controllers/mail-controller.js:28 | Saving a document succeeds exactly when it passes the schema and clashes with no other document. On success only that position changes; otherwise nothing changes. Validity is preserved. |
| `UserStore.Users.Insert` | controllers/auth-controller.js:21 | Saving a new document succeeds exactly when it passes the schema and clashes with no document. It is then appended; otherwise nothing changes. Validity is preserved. |
| `Tokens.Hex` | controllers/mail-controller.js:25 | The hex text has two lower-case hexadecimal digits per byte. |
| `Tokens.UnhexHex` | controllers/mail-controller.js:25 | Reading the hex text back gives the original bytes. |
| `Tokens.HexInjective` | controllers/mail-controller.js:25 | Different random bytes give different tokens. |
| `Tokens.Token` | controllers/mail-controller.js:25 | A token is 40 hexadecimal characters. It is never empty and contains no `/`. |
| `UserValidator.Reports` | middleware/user-validator.js:40-45 | `errors.array()` has one entry per error, in order. |
| `UserValidator.FirstFailure` | middleware/user-validator.js:5-14 | `.bail()` stops at the first validator that fails: all earlier validators hold, and nothing fails when every validator holds. |
| `UserValidator.Run` | middleware/user-validator.js:5-39 | A chain's value is its input after the sanitizers. It reports no error exactly when every validator holds, and any error it reports names its own field and value. |
| `UserValidator.UsernameRule` | middleware/user-validator.js:5-14 | The username is trimmed and then escaped. If the result is empty it reports "cannot be empty"; if it is shorter than 3 it reports "at least 3 characters"; otherwise no error. |
| `UserValidator.NameRule` | middleware/user-validator.js:15-21 | The name is trimmed and then escaped, and it is rejected only when the result is empty. |
| `UserValidator.EmailRule` | middleware/user-validator.js:22-30 | The email is trimmed. Empty is reported first; the format is checked only after that. |
| `UserValidator.PasswordRule` | middleware/user-validator.js:31-39 | The password is trimmed. Empty is reported before shorter than 6. The login chain at lines 58-66 is the same. |
| `UserValidator.UserIdRule` | middleware/user-validator.js:50-57 | The user ID is trimmed and then escaped, and it is rejected only when the result is empty. |
| `UserValidator.RunAll` | middleware/user-validator.js:5-39 | The chains run in order, with at most one error each. Every checked field is in the resulting body, and every other field is passed on unchanged. |
| `UserValidator.Validate` | middleware/user-validator.js:40-45 | Any errors give 422 with a non-empty list of at most one entry per chain. Otherwise the request goes on with a body holding every checked field, and every unchecked field as it was. |
| `UserValidator.ValidateSignup` | middleware/user-validator.js:4-46 | A refusal is 422 with one to four errors. A body that passes holds username, name, email and password, and keeps `userID` as it was. |
| `UserValidator.ValidateLogin` | middleware/user-validator.js:49-73 | A refusal is 422 with one or two errors. A body that passes holds `userID` and password, and keeps every other field as it was. |
| `UserValidator.SanitizedSignupFields` | middleware/user-validator.js:5-39 | The body passed on holds each field's sanitized value. |
| `UserValidator.SignupValidation` | middleware/user-validator.js:4-46 | Signup proceeds exactly when every field is acceptable, and it passes on the sanitized body. Otherwise it answers 422 with one error per failing field, in field order. |
| `UserValidator.LoginValidation` | middleware/user-validator.js:49-73 | The same for login, with the `userID` and `password` fields. |
| `UserValidator.EnsureDoesntExist` | middleware/user-validator.js:75-90 | The request proceeds, unchanged, exactly when neither the email nor the username is taken. A taken email gives 422 "The email already exists", ahead of a taken username, which gives 422 "The username already exists". |
| `UserValidator.EnsureExists` | middleware/user-validator.js:92-102 | The request proceeds, unchanged, exactly when the user ID is some user's email or username. Otherwise the answer is 400. |
| `AuthController.NewAccount` | controllers/auth-controller.js:9-20 | The record to save is the schema's new user built from the body, except that the password is replaced by `hash(password, salt)`. |
| `AuthController.Signup` | controllers/auth-controller.js:8-50 | The hashed account is appended if the save succeeds. The answer is then 201 with the submitted email and username and a token signed over the stored user's email, username and id with `expiresIn` 360000. A refused save sends nothing. |
| `AuthController.ValidatedSignupStorable` | middleware/user-validator.js:4-46 | Every body `validateSignup` lets through has username, name and email non-empty and trimmed, and a non-empty password (given that escaping keeps a trimmed string trimmed). |
| `AuthController.StorableAccountSaves` | middleware/user-validator.js:75-90 | For such a body, once `ensureDoesntExist` passes, the account passes the schema and clashes with no user (given a fresh id and a non-empty hash). |
| `AuthController.SignupRouteSaves` | routes/auth-route.js:21 | On the signup route, `validateSignup`, then `ensureDoesntExist`, then the save in `signup` succeeds. |
| `AuthController.LoginTarget` | controllers/auth-controller.js:60-63 | Login finds a user exactly when the ID is some user's email or username. The first email match wins; the username is used only when no email matches. |
| `AuthController.EnsureExistsFindsTarget` | middleware/user-validator.js:92-102 | `ensureExists` lets a login through exactly when `login` will find a user. |
| `AuthController.Login` | controllers/auth-controller.js:55-102 | Login, with the missing `return` restored. An unknown user gets 500 "Server Error". A password that does not match the stored hash gets 400 "Invalid credentials.  Please try again." and no token. Otherwise the answer is 200 with the found user's own email and username and a token over its email, username and id with `expiresIn` 360000. It never throws. |
| `AuthController.LoginAsWritten` | controllers/auth-controller.js:55-102 | Login as written always sends a response. It throws exactly when the ID is neither an email nor a username in the collection, and then the response sent was 500 "Server Error". |
| `AuthController.LoginAsWrittenThrows` | controllers/auth-controller.js:61-68 | As written, login sends the same response as `Login`, but it throws exactly when no user is found. |
| `AuthController.LoginAsWrittenThrowsOnEmptyTable` | controllers/auth-controller.js:61-68 | On an empty collection, the code as written sends the 500 and then throws. |
| `AuthController.LoginAfterInsert` | controllers/auth-controller.js:60-96 | A user appended without a clash, given a login body whose `userID` is its stored email and whose password matches, gets a token for itself. |
| `AuthController.SignupThenLogin` | controllers/auth-controller.js:18-21 | For the `login` handler alone, without the login route's validators: after signup saves an account, a login body whose `userID` is the stored email and whose password is the submitted one succeeds, given that `compare(p, hash(p, s))` holds. |
| `AuthController.LoginRoute` | routes/auth-route.js:22 | On the login route, a body whose sanitized `userID` finds a user, and whose trimmed password matches that user's hash, passes `validateLogin` and `ensureExists` and logs in as that user. |
| `AuthController.AppendedLogsIn` | routes/auth-route.js:22 | A user appended without a clash logs in through the route when the sanitized `userID` is its email, or its username when no user has that as an email. |
| `AuthController.SignedUpAccount` | controllers/auth-controller.js:9-21 | The account stored from a validated signup body has the trimmed email (non-empty), the trimmed and escaped username, and the hash of the trimmed password, which has at least 6 characters. |
| `AuthController.SignupThenLoginByEmail` | routes/auth-route.js:21-22 | Signing up, then logging in through the route with the email and password as first sent, gives 200 and a token for the new user, provided `escape` leaves the email unchanged. |
| `AuthController.SignupThenLoginByUsername` | routes/auth-route.js:21-22 | The same with the username as first sent, with no condition on `escape` beyond `EscapeKeepsTrimmed`, provided no user has that username as an email. |
| `AuthController.LoginRouteRefusesEscapedEmail` | middleware/user-validator.js:50-52 | For any collection in which no user has the escaped email as an email or a username, logging in with that email through the route is refused, by 422 or by `ensureExists`'s 400. |
| `AuthController.EscapedEmailAloneRefused` | middleware/user-validator.js:50-52 | In a collection holding only a user whose email `escape` changes (and not into its username), that user cannot log in by email through the route. |
| `MailController.LastSegment` | routes/mail-route.js:21 | The `/:token` parameter is the suffix after the last `/`. |
| `MailController.LastSegmentAfterSlash` | routes/mail-route.js:21 | After a path that ends in `/`, a segment with no `/` is read back whole. |
| `MailController.VerifyLink` | controllers/mail-controller.js:30-33 | The link is `http://localhost:3000/verify/<token>` in development and `<PRODUCTION_URL>/verify/<token>` otherwise. The token is the link's last path segment. |
| `MailController.ResetLink` | controllers/mail-controller.js:121-124 | The same pattern, with `/reset-password/<token>`. |
| `MailController.VerificationMail` | controllers/mail-controller.js:35-44 | The mail is sent from `EMAIL_USER` to the user, with subject "Becoming Verified", and its text contains the link. |
| `MailController.ResetMail` | controllers/mail-controller.js:126-135 | The same for the reset mail, which also has the subject "Becoming Verified". |
| `MailController.QueryEmail` | models/User.js:17 | The email a query uses is the sent one, trimmed. |
| `MailController.RequestTarget` | controllers/mail-controller.js:18-24 | The request has a target exactly when the first user with the trimmed email is the requester, and the target is that first user. Otherwise it is refused. |
| `MailController.RequestTargetOwner` | controllers/mail-controller.js:18-24 | When emails are unique, the request is refused exactly when no user has both that email and the requester's id. |
| `MailController.PaddedEmailLookups` | controllers/mail-controller.js:18 | White space around a non-empty email changes neither the verification lookup nor the reset lookup. |
| `MailController.StateOf` | controllers/mail-controller.js:65-76 | A user is verified exactly when `verified` is true. A token is pending exactly when the user is not verified and `verifiedToken` is non-empty, and the pending token is that value. |
| `MailController.Requested` | controllers/mail-controller.js:25-26 | Only `verifiedToken` changes, to the new token. An unverified user's token is then pending. |
| `MailController.Confirm` | controllers/mail-controller.js:64-86 | The guards, in order: already verified gives 400; no pending token gives 400; a different token gives 401. A match makes the user verified and clears the token, and nothing else changes. |
| `MailController.ConfirmTwice` | controllers/mail-controller.js:65-68 | Once confirmed, a user cannot confirm again with any token: the answer is "You are already verified.". |
| `MailController.RequestThenConfirm` | controllers/mail-controller.js:76-86 | After an unverified user asks for a token, confirming succeeds with exactly that token and gets 401 with any other. |
| `MailController.NewTokenReplacesOld` | controllers/mail-controller.js:76-82 | A second request replaces the first token, and the first token then gets 401. |
| `MailController.StrictModeNeverConfirms` | controllers/mail-controller.js:69-75 | After a request saved under strict mode, confirming with any token gets 400 "You have not requested to become verified.". |
| `MailController.StrictModeNoGithubRefusal` | controllers/mail-controller.js:109-115 | Over documents saved under strict mode, a reset request never gets the GitHub 403. |
| `MailController.ResetTarget` | controllers/mail-controller.js:99-115 | The guards, in order: a missing email gives 400 before any lookup; an unknown email gives 404; a GitHub-linked account gives 403. Otherwise the target is the first user with that email, trimmed. |
| `MailController.WithResetToken` | controllers/mail-controller.js:116-117 | Only `resetPasswordToken` changes, and the verification state is untouched. |
| `MailController.RequestVerification` | controllers/mail-controller.js:16-59 | A refusal is 403 and changes nothing. Otherwise exactly one user changes, by `Requested` with a fresh token. The verification mail goes to that user, and the answer is 200 if it was delivered and nothing otherwise. |
| `MailController.ConfirmVerification` | controllers/mail-controller.js:61-96 | A missing user gives a 500 error. A failed guard passes `Confirm`'s error on and changes nothing. A success stores `Confirm`'s user and answers 200 "You are now verified.". |
| `MailController.ForgotPassword` | controllers/mail-controller.js:98-151 | A failed guard passes `ResetTarget`'s error on with no token stored. Otherwise exactly one user changes, by `WithResetToken`. The reset mail goes to that user, and the answer is 200 "Reset password email sent to <email>" if it was delivered. |

## Left out

- Routes, `server.js`, the database connection and the middleware wiring. Only the route orders `validateSignup, ensureDoesntExist, signup` and `validateLogin, ensureExists, login` appear, in `SignupRouteSaves` and `LoginRoute`, and the `/verify/:token` parameter, in `LastSegment`.
- server.js:37-39 mounts the auth, user and post routers but not routes/mail-route.js, so as shipped no request reaches the mail handlers. The model treats them as reachable. The mailed links point at the front end's origin (`localhost:3000` in development), not at this server.
- Promises and concurrency. Each handler runs to completion against one snapshot of the collection, so races between the existence checks and the save are not modelled.
- The nodemailer transport is not modelled. The mail the handler builds is returned, and whether it was delivered is an input. On a failed delivery the handler only logs, so the model sends nothing.
- The internals of `escape`, `isEmail`, bcrypt, `jwt.sign` and `crypto.randomBytes` are not modelled; they are parameters. `jwt.sign`'s callback error (`if (err) throw err`) is not modelled: signing always succeeds.
- Exceptions thrown by `save()` are modelled only as not reaching the stored state. `Users.Save` and `Users.Insert` can refuse a document. Under the collection invariant, the mail handlers' saves never fail, so their `catch` branches that answer 500 are reached only for a missing user.
- The controllers' state follows the schema the controller evidently expects, one that declares the four undeclared fields. `UserModel.StrictSaved` and the two `StrictMode` lemmas state what strict mode changes, but the handler methods do not apply it.
- Mongoose's cast of query values is modelled only as the `trim` of the mail handlers' email lookups. Other casts are not modelled, such as those of non-string values and of `_id`.
- Only the request body is modelled as a place a field is read from. express-validator's `check(field)` also reads `req.cookies`, `req.headers`, `req.params` and `req.query`, so a request whose query string holds an invalid field (`?password=abc`) is refused with 422 in the source and let through here; every reported error has location "body".
- The request body is a map from the five fields the validators read to strings. A non-string body value is not modelled, and neither is a lookup with an `undefined` key, which is treated as the empty string.
- `Text.Trim`: its contract does not say by itself that the result is the input without its padding; `TrimPadded` states that.
- `createdAt` is a Date in the schema and an integer here. `posts`, `followers` and `following` are sequences of ids; the documents they refer to are not resolved.
- `loadUser` is not modelled. `changePassword` and `githubAuth`, imported at routes/auth-route.js:14-16 and mounted at lines 20 and 23, are not defined by controllers/auth-controller.js, so those routes get `undefined` handlers; nothing of them is modelled. controllers/user-controller.js, controllers/post-controller.js, middleware/post-validator.js, models/Post.js and models/Comment.js are not part of this model.

## Findings

| source | as written | input that shows it | evidently intended | confidence | as-written member | corrected member |
|---|---|---|---|---|---|---|
| controllers/auth-controller.js:64-68 | When neither the email nor the username matches, the handler sends 500 "Server Error" without returning. It then reads `user.password` of `null`, which throws a TypeError; the `catch` only logs it. On the route, `ensureExists` answers 400 first for exactly these inputs (`EnsureExistsFindsTarget`). So only a direct call, or a user removed between the two lookups, reaches it. | An empty collection and any login body, passed to `login` directly. | `return res.status(500).send('Server Error')`: the same response, and the handler stops there. | not executed | `AuthController.LoginAsWrittenThrows` | `AuthController.Login` |
| controllers/mail-controller.js:26-28 | The schema declares none of `verified`, `verifiedToken`, `resetPasswordToken` and `githubId`. Under Mongoose's default strict mode, `save()` drops them, so the stored user never holds a token. `confirmVerification` then always stops at its second guard, and the GitHub guard of `forgotPassword` never fires. | Any user: `PUT /verify`, then `GET /verify/<token>` with the mailed token, gets 400 "You have not requested to become verified.". | Declare the four fields in the schema: confirming with the mailed token then succeeds. | not executed; rests on strict mode being the default | `MailController.StrictModeNeverConfirms` | `MailController.RequestThenConfirm` |

# scrum-volt: authorization, ownership and sign-up validation in Dafny

scrum-volt is a small project and ticket tracker with an Express/Mongo back
end and a React front end. This project models three parts of it and proves
properties about them:

- the credential lifecycle of the `/user-auth/` routes: sign-up, sign-in,
  profile update, password reset, account deletion and account info;
- the ownership and membership rules of the `/project/` and `/ticket/`
  routes: who may create, edit, delete and read a project or ticket, and how
  member lists change;
- the client-side sign-up form: its e-mail pattern, the field-by-field
  validator that reports every failing rule at once, and the form state that
  `handleChange` and `handleSubmit` update.

The database is a class `Store.Db` holding the three collections as maps from
ObjectId to document (`Users`, `Projects`, `Tickets`) and a counter that hands
out fresh ObjectIds. `Db.Valid()` is the unique indexes on `username` and
`email` plus "every stored id is below the counter".

Every state-changing route handler appears twice:

- a pure function over the maps (`AuthRoutes.Signup`, `ProjectRoutes.AddMembers`, ...)
  returns a `Step`: the reply plus the new collection.
  Its contract states the guard order: which message each failure gives and
  the exact condition under which it is given, in both directions.
  It also states the new collection and that nothing else changes.
- a `Handle...` method on `Db` follows the handler statement by statement.
  Its contract ties the reply and new state to that function and keeps
  `Db.Valid()`.

Read-only handlers (sign-in, the info routes, the project lists) are methods
that change nothing. The loops of the source (username-to-id resolution on
create, id-to-username resolution on info, building the `{ title, id }` list)
are `for`/`while` loops. Each is proved against a specification: the
recursive functions `Store.ResolveUsernames` and `Store.UsernamesOf`, the
predicate `ProjectRoutes.Summarizes` for the project lists, and the predicate
`Store.UsersNamed` for the `$in` query.

bcryptjs and jsonwebtoken are a record `Crypto.Crypto` of three functions
(`hash`, `compare`, `sign`). The only law assumed about them is
`Crypto.Lawful`: a password verifies against its own digest. It appears as a
`requires` of the lemmas that need it. The caller id that the authentication
middleware attaches to a request is a parameter (`caller`). A request field
that is empty or absent is the empty string, or `None` for ids.

The model follows the code, including where the code departs from the
routes' own doc comments or from what they lead a reader to expect:

- The delete route's doc comment says only the owner can delete a project
  (backend/routes/projectRoutes.js:61). The handler has no such check, and
  `ProjectRoutes.Delete` removes any existing project.
- Project info is documented as returning the owner's username
  (backend/routes/projectRoutes.js:91). The code reports the caller's username
  as `owner`, not the stored owner's.
- Project and ticket edits compare the stored owner's or creator's username
  with the caller's username. The failure is a 400 "... not owned by the user!!",
  while the member routes answer a non-owner with a 403.
  `UpdateIsOwnerOnly` and `UpdateIsCreatorOnly` prove that with unique
  usernames this comparison is an identity check.
- Project creation does not de-duplicate members. A username listed twice
  makes that user a member twice (`ProjectRoutes.CreateKeepsRepeatedNames`).
  Only add-members avoids duplicates.
- A ticket has no reference to a project, and no route adds or removes
  assignees. The model invents neither.

## Model

| member | source | states |
|---|---|---|
| JsText.TrimStart | frontend/components/ui/signup.jsx:24 | the result is a suffix of the input, everything dropped is white space, and the result does not start with white space |
| JsText.TrimEnd | frontend/components/ui/signup.jsx:24 | the result is a prefix of the input, everything dropped is white space, and the result does not end with white space |
| JsText.Trim | frontend/components/ui/signup.jsx:24-31 | `trim()` yields a string with no white space at either end, and it is empty exactly when the input is all white space |
| JsText.TrimEmptyIff | frontend/components/ui/signup.jsx:24-31 | trimming both ends gives the empty string if and only if every character is white space |
| UserModel.UniqueUsernames | backend/models/userModel.js:5 | the unique index on `username`: no two stored users share a username |
| UserModel.UniqueEmails | backend/models/userModel.js:10 | the unique index on `email`: no two stored users share an email |
| UserModel.FindByUsername | backend/models/userModel.js:5 | a lookup by username finds a user exactly when one has that username, and the user it finds has it |
| UserModel.SameUsernameSameUser | backend/models/userModel.js:5 | under the unique index, two stored users share a username exactly when they are the same user |
| Crypto.Sign | backend/routes/authRoutes.js:97 | the token issued at sign-in carries the user's id as its claim |
| Store.Db.Valid | backend/models/userModel.js:5-10 | the store's invariant: both unique indexes of `Users` hold and every stored ObjectId lies below the next one to be handed out |
| Store.Db.constructor | backend/models/userModel.js:14 | a new store has three empty collections and satisfies its invariant |
| Store.Db.NewId | backend/routes/authRoutes.js:61-68 | a new document gets an id used by no collection, and the store stays valid |
| Store.ResolveUsernames | backend/routes/projectRoutes.js:35-42 | each resolved id is a stored user whose username was listed, and there are no more ids than names |
| Store.ResolveUsernamesAppend | backend/routes/projectRoutes.js:36-41 | the resolution of a concatenation is the concatenation of the resolutions, so input order is kept |
| Store.ResolveUsernamesMembers | backend/routes/projectRoutes.js:36-41 | a user is in the result exactly when their username is listed: unknown names are dropped and no known name is missed |
| Store.UsernamesOf | backend/routes/projectRoutes.js:115-122 | the usernames of the ids that still resolve, never more than the ids, and exactly as many when all resolve |
| Store.UsernamesOfKnown | backend/routes/projectRoutes.js:116-120 | when every id resolves, the k-th username is the username of the k-th id |
| Store.UsernamesOfAppend | backend/routes/projectRoutes.js:116-120 | the lookup distributes over concatenation, so stored order is kept |
| Store.UsernamesOfSkipsStale | backend/routes/projectRoutes.js:116-120 | an id whose `findById` finds no user contributes nothing, wherever it stands in the list |
| Store.UsernamesOfMembers | backend/routes/projectRoutes.js:116-120 | a username is in the result exactly when some listed id still resolves to a user with that username |
| Store.LookUpUsernames | backend/routes/ticketRoutes.js:34-41 | the per-name lookup loop returns exactly the ids of the resolved names, in input order |
| Store.LookUpIds | backend/routes/ticketRoutes.js:149-156 | the per-id lookup loop returns exactly the usernames of the ids that still resolve, in stored order |
| Store.FindUsersNamed | backend/routes/projectRoutes.js:278 | the `$in` query returns every user whose username is listed, each once, and no one else |
| AuthRoutes.Scan | backend/routes/authRoutes.js:33 | one scan reports whether a lower-case letter, an upper-case letter, a digit and a character outside `[A-Za-z0-9]` occur |
| AuthRoutes.PasswordPattern | backend/routes/authRoutes.js:33-34 | the anchored pattern holds exactly for a non-empty string of ASCII letters and digits containing a lower-case letter, an upper-case letter and a digit |
| AuthRoutes.PasswordProblem | backend/routes/authRoutes.js:28-39 | too short exactly when under 6 characters, too weak exactly when long enough but failing the pattern, accepted otherwise |
| AuthRoutes.PasswordRuleRejectsSymbols | backend/routes/authRoutes.js:33-39 | any password with a character outside `[A-Za-z0-9]` is rejected, however long |
| AuthRoutes.PasswordRuleExamples | backend/routes/authRoutes.js:28-39 | `Passw0rd` passes, `Passw0rd!` is too weak, `Pass0` is too short |
| AuthRoutes.NewUser | backend/routes/authRoutes.js:61-67 | the stored document has the requested username, name and email, is not an admin, has no pronouns, and its digest verifies the sign-up password under `Lawful` |
| AuthRoutes.Signup | backend/routes/authRoutes.js:23-70 | guard order empty, length, pattern, confirmation, username taken, email taken, each message under exactly its condition; a rejection changes nothing; success adds exactly one user with the digest, not an admin; uniqueness is preserved |
| AuthRoutes.HandleSignup | backend/routes/authRoutes.js:17-74 | the handler's reply and new `Users` are those of `Signup` with the next fresh id; the other collections stay as they were |
| AuthRoutes.Signin | backend/routes/authRoutes.js:81-98 | unknown username, wrong password and success each occur exactly under their condition; on success the token's claim is the user's id |
| AuthRoutes.HandleSignin | backend/routes/authRoutes.js:76-102 | the handler's reply is `Signin` on the current users, and it writes nothing |
| AuthRoutes.SigninKnownUser | backend/routes/authRoutes.js:85-98 | a stored user whose digest verifies the password gets a token for their own id |
| AuthRoutes.SigninAfterSignup | backend/routes/authRoutes.js:59-97 | after a successful sign-up, signing in with the same username and password yields a token for the new id |
| AuthRoutes.UpdateProfile | backend/routes/authRoutes.js:106-123 | both new fields required; success changes only the caller's name and pronouns; uniqueness is preserved |
| AuthRoutes.HandleUpdateProfile | backend/routes/authRoutes.js:104-127 | the handler's reply and new `Users` are those of `UpdateProfile`; nothing else changes |
| AuthRoutes.ResetPassword | backend/routes/authRoutes.js:131-174 | the old password is verified before the new one is checked, length and pattern before confirmation; success changes only the caller's digest, to the new password's digest |
| AuthRoutes.HandleResetPassword | backend/routes/authRoutes.js:129-178 | the handler's reply and new `Users` are those of `ResetPassword`; nothing else changes |
| AuthRoutes.SigninAfterReset | backend/routes/authRoutes.js:168-172 | after a successful reset the new password signs the caller in |
| AuthRoutes.DeleteAccount | backend/routes/authRoutes.js:182-202 | the caller's record is removed exactly when the supplied password verifies; otherwise nothing changes |
| AuthRoutes.HandleDeleteAccount | backend/routes/authRoutes.js:180-206 | the handler's reply and new `Users` are those of `DeleteAccount`; nothing else changes |
| AuthRoutes.SigninAfterDelete | backend/routes/authRoutes.js:200 | after the account is deleted its username no longer signs in |
| AuthRoutes.HandleInfo | backend/routes/authRoutes.js:210-223 | an unknown caller is a 400; otherwise the reply is the caller's username, email, name and pronouns |
| ProjectRoutes.Create | backend/routes/projectRoutes.js:20-52 | title and description required; the caller becomes owner; members are the resolved usernames in input order; earlier projects are untouched |
| ProjectRoutes.HandleCreate | backend/routes/projectRoutes.js:18-56 | the handler's reply and new `Projects` are those of `Create` with the next fresh id |
| ProjectRoutes.CreateKeepsRepeatedNames | backend/routes/projectRoutes.js:36-41 | a username listed twice at creation makes its user a member twice |
| ProjectRoutes.Delete | backend/routes/projectRoutes.js:67-80 | any existing project is removed by id with no ownership check; a missing or unknown id changes nothing |
| ProjectRoutes.HandleDelete | backend/routes/projectRoutes.js:65-84 | the handler's reply and new `Projects` are those of `Delete`, whoever calls |
| ProjectRoutes.HandleInfo | backend/routes/projectRoutes.js:95-131 | guard order user, id, project; members are the usernames of the member ids that still resolve, in stored order; `owner` is the caller's username |
| ProjectRoutes.OwnedBy | backend/routes/projectRoutes.js:150 | exactly the projects whose owner is the caller |
| ProjectRoutes.JoinedBy | backend/routes/projectRoutes.js:192 | exactly the projects whose member list contains the caller |
| ProjectRoutes.Summaries | backend/routes/projectRoutes.js:159-166 | the loop lists each selected project once with its title, and nothing else |
| ProjectRoutes.HandleOwnedByUser | backend/routes/projectRoutes.js:145-172 | for a known caller, always a success listing exactly the owned projects, possibly none |
| ProjectRoutes.HandleJoinedByUser | backend/routes/projectRoutes.js:186-202 | a 404 exactly when the caller is a member of no project; otherwise a non-empty list of exactly the joined projects |
| ProjectRoutes.Update | backend/routes/projectRoutes.js:217-248 | guard order user, fields, project, owner record, username match; success changes only that project's title and description; owner and members never change |
| ProjectRoutes.HandleUpdate | backend/routes/projectRoutes.js:215-253 | the handler's reply and new `Projects` are those of `Update` |
| ProjectRoutes.UpdateIsOwnerOnly | backend/routes/projectRoutes.js:239-247 | an update succeeds only for the owner, always succeeds for the owner once the fields are present, and fails with "not owned" for anyone else |
| ProjectRoutes.CheckMemberEdit | backend/routes/projectRoutes.js:267-276 | id and non-empty usernames (400), then project exists (404), then owner is the caller by id (403), each exactly under its condition |
| ProjectRoutes.Without | backend/routes/projectRoutes.js:280-282 | exactly the elements not in the second list are kept, and a duplicate-free list stays duplicate-free |
| ProjectRoutes.WithoutAppend | backend/routes/projectRoutes.js:318-320 | the filter distributes over concatenation, so order is kept |
| ProjectRoutes.WithoutDisjoint | backend/routes/projectRoutes.js:318-320 | filtering out ids that do not occur returns the list unchanged |
| ProjectRoutes.WithoutCovered | backend/routes/projectRoutes.js:280-282 | filtering out ids that all occur leaves nothing |
| ProjectRoutes.AddMembers | backend/routes/projectRoutes.js:264-287 | a failed check changes nothing; success keeps the old members as a prefix and appends the found ids that were not yet members, in the query's order (`Without(found, before)`), with no duplicates among them when the query has none; members are exactly the old ones plus the found ones; other projects and fields are untouched |
| ProjectRoutes.HandleAddMembers | backend/routes/projectRoutes.js:262-291 | the handler's reply and new `Projects` are those of `AddMembers` for the users the query found |
| ProjectRoutes.AddMembersIdempotent | backend/routes/projectRoutes.js:278-285 | repeating add-members with the same users, in any order, changes nothing more |
| ProjectRoutes.AddMembersKeepsDistinct | backend/routes/projectRoutes.js:280-284 | a duplicate-free member list stays duplicate-free |
| ProjectRoutes.RemoveMembers | backend/routes/projectRoutes.js:302-324 | a failed check changes nothing; success keeps exactly the members not found, in order |
| ProjectRoutes.HandleRemoveMembers | backend/routes/projectRoutes.js:300-328 | the handler's reply and new `Projects` are those of `RemoveMembers` for the users the query found |
| ProjectRoutes.RemoveMembersIdempotent | backend/routes/projectRoutes.js:315-320 | repeating remove-members with the same users, or some of them, changes nothing more |
| ProjectRoutes.RemoveAbsentIsNoOp | backend/routes/projectRoutes.js:315-320 | removing users none of whom is a member leaves the projects unchanged |
| TicketRoutes.Create | backend/routes/ticketRoutes.js:17-53 | title and description required; status `pending`, the caller as creator, assignees the resolved usernames in input order; earlier tickets are untouched |
| TicketRoutes.HandleCreate | backend/routes/ticketRoutes.js:10-57 | the handler's reply and new `Tickets` are those of `Create` with the next fresh id |
| TicketRoutes.Delete | backend/routes/ticketRoutes.js:61-74 | any existing ticket is removed by id with no creator check; a missing or unknown id changes nothing |
| TicketRoutes.HandleDelete | backend/routes/ticketRoutes.js:59-78 | the handler's reply and new `Tickets` are those of `Delete`, whoever calls |
| TicketRoutes.Update | backend/routes/ticketRoutes.js:82-121 | all five fields required; unknown ticket, then missing creator record, then username match; success sets title, description, deadline and any non-empty status; creator and assignees never change |
| TicketRoutes.HandleUpdate | backend/routes/ticketRoutes.js:80-125 | the handler's reply and new `Tickets` are those of `Update` |
| TicketRoutes.UpdateIsCreatorOnly | backend/routes/ticketRoutes.js:110-120 | an update succeeds only for the creator, always succeeds for the creator once the fields are present, and fails with "not owned" for anyone else |
| TicketRoutes.HandleInfo | backend/routes/ticketRoutes.js:129-168 | guard order user, id, ticket; assignees are the usernames of the assignee ids that still resolve, in stored order |
| SignupUi.SignUpForm.constructor | frontend/components/ui/signup.jsx:6-14 | the form starts with every field empty and no errors shown |
| SignupUi.FormData.With | frontend/components/ui/signup.jsx:46-49 | the named field takes the new value and every other field keeps its value |
| SignupUi.ValidateEmail | frontend/components/ui/signup.jsx:16-19 | the test holds exactly when the string matches the anchored pattern: a run without white space or `@`, `@`, such a run, `.`, such a run |
| SignupUi.EmailTestMeansPattern | frontend/components/ui/signup.jsx:17 | no white space, exactly one `@` not in first place, and a `.` strictly inside the domain, if and only if the pattern matches |
| SignupUi.EmailShortestAccepted | frontend/components/ui/signup.jsx:17 | `a@b.c` is accepted |
| SignupUi.EmailWithDotsAccepted | frontend/components/ui/signup.jsx:17 | dots on both sides of the `@` are accepted |
| SignupUi.EmailRejectedExamples | frontend/components/ui/signup.jsx:17 | a missing `.` or an empty local part, domain or top-level part is rejected |
| SignupUi.EmailWithTwoAtSignsRejected | frontend/components/ui/signup.jsx:17 | a second `@` is rejected |
| SignupUi.EmailWithSpaceRejected | frontend/components/ui/signup.jsx:17 | white space anywhere is rejected |
| SignupUi.EmailIsNotBlank | frontend/components/ui/signup.jsx:30 | a string that matches the pattern is never blank, so the blank test is subsumed |
| SignupUi.EmailRejected | frontend/components/ui/signup.jsx:30 | the e-mail rule fails exactly when the e-mail is blank or does not match the pattern |
| SignupUi.FieldErrors | frontend/components/ui/signup.jsx:21-38 | every failing rule has its message and no passing rule has an entry: name, username, e-mail, password under 6 characters, confirmation mismatch |
| SignupUi.NoErrorsIffAcceptable | frontend/components/ui/signup.jsx:21-42 | there are no errors exactly when every rule holds |
| SignupUi.BlankIsRejected | frontend/components/ui/signup.jsx:6-12 | the blank form fails every rule except the confirmation |
| SignupUi.SignUpForm.Validate | frontend/components/ui/signup.jsx:21-43 | the errors stored are exactly the field errors of the current form, and the result is true exactly when there are none |
| SignupUi.SignUpForm.HandleChange | frontend/components/ui/signup.jsx:45-50 | only the named field changes |
| SignupUi.SignUpForm.HandleSubmit | frontend/components/ui/signup.jsx:52-67 | a form without errors resets to blank with no errors shown; otherwise the input is kept and its errors are shown |
| FormVsServer.ServerRuleImpliesFormRule | frontend/components/ui/signup.jsx:33-35 | every password the sign-up route accepts also passes the form's password rule |
| FormVsServer.FormRuleIsWeaker | frontend/components/ui/signup.jsx:33-35 | the form passes `abcdef`, which the sign-up route rejects as too weak: the form has no case, digit or character-set rule |

## Left out

- bcryptjs and jsonwebtoken are three arbitrary functions. Salting, the cost
  factor 8 and token encoding are not modelled. A model digest is a
  deterministic function of the password, where bcrypt's is salted.
- Token verification is done by the authentication middleware. That
  middleware is not part of this model; its result is the `caller` parameter.
- The hard-coded JWT key is configuration and is left out.
- The 500 branches are left out. They fire only when the database or a
  library throws, for example on a malformed ObjectId.
- TicketRoutes.Create, TicketRoutes.Update: a deadline is an opaque value,
  so the model stores a deadline that is missing (create only; update
  rejects an empty one) or that does not parse as a date like any other.
  In the code `new Date(...)` of such a value is an Invalid Date, which the
  schema's `Date` cast would make `save()` reject with a 500.
- Dates are not modelled. A deadline is an opaque `Deadline` holding the
  request text, with no `new Date` parsing and no ISO formatting in ticket
  info. The `joining` and `creation` defaults are absent too.
- TicketRoutes.HandleInfo: the reply has no `creator` field. The source reads
  `username` through an unpopulated reference, so that field has no defined
  value.
- Concurrency is left out. Each handler is one atomic step, so the
  check-then-save races between requests are not modelled.
- The order in which `find({ username: { $in } })` returns users is chosen by
  the database. It is the ghost out-parameter `found` of
  `HandleAddMembers` and `HandleRemoveMembers`. The idempotence lemmas hold
  for every order.
- JavaScript truthiness is modelled only for strings and ids. A request value
  that is not a string, or a `members`/`assignees` value that is not an array,
  is outside the model. An absent array is the empty sequence.
- Schema fields the handlers always set are modelled as always present: owner,
  creator, title and description. Schema-level optionality of stored
  documents is not modelled.
- `Project.tickets` is never written by any route. No route links a ticket to
  a project or edits assignees.
- The ticket router is not mounted by the server entry point. It is modelled
  as if it were.
- AuthRoutes.PasswordProblem: lengths count characters. JavaScript counts
  UTF-16 code units, so the two differ for characters outside the Basic
  Multilingual Plane.
- SignupUi.FieldErrors: lengths count characters, as for
  `AuthRoutes.PasswordProblem`.
- The form's rendering, the styles, the success `alert` and React's
  batching of state updates are left out. `HandleSubmit` gives the state once
  all its updates have been applied.
- The server, the database connection and the front-end layout are wiring,
  not logic.

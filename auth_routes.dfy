/**
 * The `/user-auth/` routes: sign-up, sign-in, profile update, password reset,
 * account deletion and account info. Each handler is a chain of guards; the
 * first guard that fails decides the reply, and only a call that passes every
 * guard writes to the `Users` collection. `caller` is the `req.user_id` that
 * the authentication middleware attaches to the request.
 */
module AuthRoutes {
  import opened Wrappers
  import opened JsText
  import opened Http
  import opened UserModel
  import opened Crypto
  import opened Store

  const PasswordTooShort := "Password should be atleast 6 characters :)"
  const PasswordTooWeak :=
    "Password must contain at least one uppercase letter, one lowercase letter, and one number."
  const PasswordsDiffer := "Both the passwords dont match -_-"
  const UsernameInUse := "User name already taken ;)"
  const EmailInUse := "email already taken ;)"
  const UnknownUsername := "User with this username does not exist"
  const WrongPassword := "Incorrect password :("
  const UserCreated := "User created successfully!"
  const UserUpdated := "User updated successfully!"
  const PasswordUpdated := "Password updated successfully!"
  const UserDeleted := "User deleted successfully!"

  // ---------------------------------------------------------------------------
  // The password rule: at least 6 characters, then
  // /^(?=.*[a-z])(?=.*[A-Z])(?=.*\d)[A-Za-z\d]+$/
  // ---------------------------------------------------------------------------

  /** Which character classes occur in a string: one left-to-right scan. */
  datatype Classes = Classes(lower: bool, upper: bool, digit: bool, other: bool)

  function Scan(p: string): (k: Classes)
    ensures k.lower <==> exists i :: 0 <= i < |p| && IsAsciiLower(p[i])
    ensures k.upper <==> exists i :: 0 <= i < |p| && IsAsciiUpper(p[i])
    ensures k.digit <==> exists i :: 0 <= i < |p| && IsAsciiDigit(p[i])
    ensures k.other <==> exists i :: 0 <= i < |p| && !IsAsciiAlnum(p[i])
  {
    if p == [] then Classes(false, false, false, false)
    else
      var k := Scan(p[1..]);
      assert forall i :: 0 < i < |p| ==> p[i] == p[1..][i - 1];
      Classes(k.lower || IsAsciiLower(p[0]), k.upper || IsAsciiUpper(p[0]),
              k.digit || IsAsciiDigit(p[0]), k.other || !IsAsciiAlnum(p[0]))
  }

  /**
   * The anchored pattern: a non-empty string of ASCII letters and digits with
   * a lower-case letter, an upper-case letter and a digit somewhere in it.
   */
  predicate PasswordPattern(p: string)
    ensures PasswordPattern(p) <==>
      && |p| > 0
      && (forall i :: 0 <= i < |p| ==> IsAsciiAlnum(p[i]))
      && (exists i :: 0 <= i < |p| && IsAsciiLower(p[i]))
      && (exists i :: 0 <= i < |p| && IsAsciiUpper(p[i]))
      && (exists i :: 0 <= i < |p| && IsAsciiDigit(p[i]))
  {
    var k := Scan(p);
    |p| > 0 && k.lower && k.upper && k.digit && !k.other
  }

  /** The message of the first password check that fails, if any. */
  function PasswordProblem(p: string): (r: Option<string>)
    ensures r == Some(PasswordTooShort) <==> |p| < 6
    ensures r == Some(PasswordTooWeak) <==> |p| >= 6 && !PasswordPattern(p)
    ensures r == None <==> |p| >= 6 && PasswordPattern(p)
  {
    if |p| < 6 then Some(PasswordTooShort)
    else if !PasswordPattern(p) then Some(PasswordTooWeak)
    else None
  }

  // ---------------------------------------------------------------------------
  // POST /signup
  // ---------------------------------------------------------------------------

  datatype SignupRequest = SignupRequest(
    username: string, password: string, confirmPassword: string, name: string, email: string)

  predicate SignupFieldMissing(req: SignupRequest) {
    req.username == "" || req.password == "" || req.confirmPassword == "" || req.name == "" || req.email == ""
  }

  /**
   * The document a successful sign-up stores: the password is kept only as
   * its digest, and the account is never an admin.
   */
  function NewUser(c: Crypto, req: SignupRequest): (u: User)
    ensures u.username == req.username && u.name == req.name && u.email == req.email
    ensures !u.isAdmin && u.pronouns.None?
    ensures Lawful(c) ==> c.compare(req.password, u.password)
  {
    User(req.username, req.name, c.hash(req.password), false, req.email, None)
  }

  /**
   * Sign-up against the `Users` collection; `id` is the ObjectId the new
   * document receives. Empty fields, the password rule and the confirmation
   * are checked before the collection is consulted, the username before the
   * email.
   */
  function Signup(users: Users, c: Crypto, req: SignupRequest, id: UserId): (r: Step<Users, Notice>)
    requires id !in users
    ensures r.reply == Fail(400, MissingFields) <==> SignupFieldMissing(req)
    ensures !SignupFieldMissing(req) && PasswordProblem(req.password).Some? ==>
              r.reply == Fail(400, PasswordProblem(req.password).value)
    ensures r.reply == Fail(400, PasswordsDiffer) <==>
              !SignupFieldMissing(req) && PasswordProblem(req.password).None? && req.confirmPassword != req.password
    ensures r.reply == Fail(400, UsernameInUse) <==>
              && !SignupFieldMissing(req) && PasswordProblem(req.password).None? && req.confirmPassword == req.password
              && UsernameTaken(users, req.username)
    ensures r.reply == Fail(400, EmailInUse) <==>
              && !SignupFieldMissing(req) && PasswordProblem(req.password).None? && req.confirmPassword == req.password
              && !UsernameTaken(users, req.username) && EmailTaken(users, req.email)
    ensures r.reply.Ok? <==>
              && !SignupFieldMissing(req) && PasswordProblem(req.password).None? && req.confirmPassword == req.password
              && !UsernameTaken(users, req.username) && !EmailTaken(users, req.email)
    ensures r.reply.Ok? ==> r.reply == Ok(Text(UserCreated))
    ensures !r.reply.Ok? ==> r.state == users
    ensures r.reply.Ok? ==> r.state.Keys == users.Keys + {id} && r.state[id] == NewUser(c, req)
    ensures forall u :: u in users ==> u in r.state && r.state[u] == users[u]
    ensures UniqueUsernames(users) && UniqueEmails(users) ==> UniqueUsernames(r.state) && UniqueEmails(r.state)
  {
    if SignupFieldMissing(req) then Step(Fail(400, MissingFields), users)
    else if PasswordProblem(req.password).Some? then Step(Fail(400, PasswordProblem(req.password).value), users)
    else if req.confirmPassword != req.password then Step(Fail(400, PasswordsDiffer), users)
    else if UsernameTaken(users, req.username) then Step(Fail(400, UsernameInUse), users)
    else if EmailTaken(users, req.email) then Step(Fail(400, EmailInUse), users)
    else Step(Ok(Text(UserCreated)), users[id := NewUser(c, req)])
  }

  method HandleSignup(db: Db, c: Crypto, req: SignupRequest) returns (reply: Reply<Notice>)
    requires db.Valid()
    modifies db
    ensures db.Valid()
    ensures Step(reply, db.users) == Signup(old(db.users), c, req, old(db.nextId))
    ensures db.projects == old(db.projects) && db.tickets == old(db.tickets)
  {
    if req.username == "" || req.password == "" || req.confirmPassword == "" || req.name == "" || req.email == "" {
      return Fail(400, MissingFields);
    }
    if |req.password| < 6 {
      return Fail(400, PasswordTooShort);
    }
    if !PasswordPattern(req.password) {
      return Fail(400, PasswordTooWeak);
    }
    if req.confirmPassword != req.password {
      return Fail(400, PasswordsDiffer);
    }
    var existing := FindByUsername(db.users, req.username);
    if existing.Some? {
      return Fail(400, UsernameInUse);
    }
    if EmailTaken(db.users, req.email) {
      return Fail(400, EmailInUse);
    }
    var hashedPassword := c.hash(req.password);
    var id := db.NewId();
    db.users := db.users[id := User(req.username, req.name, hashedPassword, false, req.email, None)];
    reply := Ok(Text(UserCreated));
  }

  // ---------------------------------------------------------------------------
  // POST /signin
  // ---------------------------------------------------------------------------

  datatype SigninRequest = SigninRequest(username: string, password: string)

  /** Sign-in: a token for the user whose stored digest the password verifies against. */
  function Signin(users: Users, c: Crypto, req: SigninRequest): (r: Reply<Token>)
    requires UniqueUsernames(users)
    ensures r == Fail(400, MissingFields) <==> req.username == "" || req.password == ""
    ensures r == Fail(400, UnknownUsername) <==>
              req.username != "" && req.password != "" && !UsernameTaken(users, req.username)
    ensures r == Fail(400, WrongPassword) <==>
              && req.username != "" && req.password != ""
              && exists id :: id in users && users[id].username == req.username && !c.compare(req.password, users[id].password)
    ensures r.Ok? <==>
              && req.username != "" && req.password != ""
              && exists id :: id in users && users[id].username == req.username && c.compare(req.password, users[id].password)
    ensures r.Ok? ==> exists id :: id in users && users[id].username == req.username && r.value == Sign(c, id)
  {
    if req.username == "" || req.password == "" then Fail(400, MissingFields)
    else match FindByUsername(users, req.username)
      case None => Fail(400, UnknownUsername)
      case Some(id) =>
        if !c.compare(req.password, users[id].password) then Fail(400, WrongPassword)
        else Ok(Sign(c, id))
  }

  /** The sign-in handler reads the collection and writes nothing. */
  method HandleSignin(db: Db, c: Crypto, req: SigninRequest) returns (reply: Reply<Token>)
    requires db.Valid()
    ensures reply == Signin(db.users, c, req)
  {
    if req.username == "" || req.password == "" {
      return Fail(400, MissingFields);
    }
    var user := FindByUsername(db.users, req.username);
    if user.None? {
      return Fail(400, UnknownUsername);
    }
    var isMatching := c.compare(req.password, db.users[user.value].password);
    if !isMatching {
      return Fail(400, WrongPassword);
    }
    reply := Ok(Sign(c, user.value));
  }

  // ---------------------------------------------------------------------------
  // PUT /update
  // ---------------------------------------------------------------------------

  datatype ProfileUpdate = ProfileUpdate(newName: string, newPronouns: string)

  /** Profile update: both fields required; only the caller's name and pronouns change. */
  function UpdateProfile(users: Users, caller: UserId, req: ProfileUpdate): (r: Step<Users, Notice>)
    ensures r.reply == Fail(400, UserNotFound) <==> caller !in users
    ensures r.reply == Fail(400, MissingFields) <==> caller in users && (req.newName == "" || req.newPronouns == "")
    ensures r.reply.Ok? <==> caller in users && req.newName != "" && req.newPronouns != ""
    ensures r.reply.Ok? ==> r.reply == Ok(Text(UserUpdated))
    ensures !r.reply.Ok? ==> r.state == users
    ensures r.reply.Ok? ==>
              && r.state.Keys == users.Keys
              && r.state[caller] == users[caller].(name := req.newName, pronouns := Some(req.newPronouns))
              && forall u :: u in users && u != caller ==> r.state[u] == users[u]
    ensures UniqueUsernames(users) && UniqueEmails(users) ==> UniqueUsernames(r.state) && UniqueEmails(r.state)
  {
    if caller !in users then Step(Fail(400, UserNotFound), users)
    else if req.newName == "" || req.newPronouns == "" then Step(Fail(400, MissingFields), users)
    else Step(Ok(Text(UserUpdated)), users[caller := users[caller].(name := req.newName, pronouns := Some(req.newPronouns))])
  }

  method HandleUpdateProfile(db: Db, caller: UserId, req: ProfileUpdate) returns (reply: Reply<Notice>)
    requires db.Valid()
    modifies db
    ensures db.Valid()
    ensures Step(reply, db.users) == UpdateProfile(old(db.users), caller, req)
    ensures db.projects == old(db.projects) && db.tickets == old(db.tickets) && db.nextId == old(db.nextId)
  {
    if caller !in db.users {
      return Fail(400, UserNotFound);
    }
    var user := db.users[caller];
    if req.newName == "" || req.newPronouns == "" {
      return Fail(400, MissingFields);
    }
    user := user.(name := req.newName);
    user := user.(pronouns := Some(req.newPronouns));
    db.users := db.users[caller := user];
    reply := Ok(Text(UserUpdated));
  }

  // ---------------------------------------------------------------------------
  // PUT /reset-password
  // ---------------------------------------------------------------------------

  datatype PasswordReset = PasswordReset(oldPassword: string, newPassword: string, confirmNewPassword: string)

  predicate ResetFieldMissing(req: PasswordReset) {
    req.oldPassword == "" || req.newPassword == "" || req.confirmNewPassword == ""
  }

  /**
   * Password reset: the old password is verified before the new one is
   * checked, the password rule before the confirmation, and success replaces
   * only the caller's stored digest.
   */
  function ResetPassword(users: Users, c: Crypto, caller: UserId, req: PasswordReset): (r: Step<Users, Notice>)
    ensures r.reply == Fail(400, UserNotFound) <==> caller !in users
    ensures r.reply == Fail(400, MissingFields) <==> caller in users && ResetFieldMissing(req)
    ensures r.reply == Fail(400, WrongPassword) <==>
              caller in users && !ResetFieldMissing(req) && !c.compare(req.oldPassword, users[caller].password)
    ensures caller in users && !ResetFieldMissing(req) && c.compare(req.oldPassword, users[caller].password)
              && PasswordProblem(req.newPassword).Some? ==>
              r.reply == Fail(400, PasswordProblem(req.newPassword).value)
    ensures r.reply == Fail(400, PasswordsDiffer) <==>
              && caller in users && !ResetFieldMissing(req) && c.compare(req.oldPassword, users[caller].password)
              && PasswordProblem(req.newPassword).None? && req.newPassword != req.confirmNewPassword
    ensures r.reply.Ok? <==>
              && caller in users && !ResetFieldMissing(req) && c.compare(req.oldPassword, users[caller].password)
              && PasswordProblem(req.newPassword).None? && req.newPassword == req.confirmNewPassword
    ensures r.reply.Ok? ==> r.reply == Ok(Text(PasswordUpdated))
    ensures !r.reply.Ok? ==> r.state == users
    ensures r.reply.Ok? ==>
              && r.state.Keys == users.Keys
              && r.state[caller] == users[caller].(password := c.hash(req.newPassword))
              && forall u :: u in users && u != caller ==> r.state[u] == users[u]
    ensures UniqueUsernames(users) && UniqueEmails(users) ==> UniqueUsernames(r.state) && UniqueEmails(r.state)
  {
    if caller !in users then Step(Fail(400, UserNotFound), users)
    else if ResetFieldMissing(req) then Step(Fail(400, MissingFields), users)
    else if !c.compare(req.oldPassword, users[caller].password) then Step(Fail(400, WrongPassword), users)
    else if PasswordProblem(req.newPassword).Some? then Step(Fail(400, PasswordProblem(req.newPassword).value), users)
    else if req.newPassword != req.confirmNewPassword then Step(Fail(400, PasswordsDiffer), users)
    else Step(Ok(Text(PasswordUpdated)), users[caller := users[caller].(password := c.hash(req.newPassword))])
  }

  method HandleResetPassword(db: Db, c: Crypto, caller: UserId, req: PasswordReset) returns (reply: Reply<Notice>)
    requires db.Valid()
    modifies db
    ensures db.Valid()
    ensures Step(reply, db.users) == ResetPassword(old(db.users), c, caller, req)
    ensures db.projects == old(db.projects) && db.tickets == old(db.tickets) && db.nextId == old(db.nextId)
  {
    if caller !in db.users {
      return Fail(400, UserNotFound);
    }
    var user := db.users[caller];
    if req.oldPassword == "" || req.newPassword == "" || req.confirmNewPassword == "" {
      return Fail(400, MissingFields);
    }
    if !c.compare(req.oldPassword, user.password) {
      return Fail(400, WrongPassword);
    }
    if |req.newPassword| < 6 {
      return Fail(400, PasswordTooShort);
    }
    if !PasswordPattern(req.newPassword) {
      return Fail(400, PasswordTooWeak);
    }
    if req.newPassword != req.confirmNewPassword {
      return Fail(400, PasswordsDiffer);
    }
    var hashedPassword := c.hash(req.newPassword);
    user := user.(password := hashedPassword);
    db.users := db.users[caller := user];
    reply := Ok(Text(PasswordUpdated));
  }

  // ---------------------------------------------------------------------------
  // DELETE /delete
  // ---------------------------------------------------------------------------

  /** Account deletion: only after the password verifies; nothing else is removed. */
  function DeleteAccount(users: Users, c: Crypto, caller: UserId, password: string): (r: Step<Users, Notice>)
    ensures r.reply == Fail(400, UserNotFound) <==> caller !in users
    ensures r.reply == Fail(400, MissingFields) <==> caller in users && password == ""
    ensures r.reply == Fail(400, WrongPassword) <==>
              caller in users && password != "" && !c.compare(password, users[caller].password)
    ensures r.reply.Ok? <==> caller in users && password != "" && c.compare(password, users[caller].password)
    ensures r.reply.Ok? ==> r.reply == Ok(Text(UserDeleted))
    ensures r.reply.Ok? ==> r.state.Keys == users.Keys - {caller} && forall u :: u in r.state ==> r.state[u] == users[u]
    ensures !r.reply.Ok? ==> r.state == users
    ensures UniqueUsernames(users) && UniqueEmails(users) ==> UniqueUsernames(r.state) && UniqueEmails(r.state)
  {
    if caller !in users then Step(Fail(400, UserNotFound), users)
    else if password == "" then Step(Fail(400, MissingFields), users)
    else if !c.compare(password, users[caller].password) then Step(Fail(400, WrongPassword), users)
    else Step(Ok(Text(UserDeleted)), users - {caller})
  }

  method HandleDeleteAccount(db: Db, c: Crypto, caller: UserId, password: string) returns (reply: Reply<Notice>)
    requires db.Valid()
    modifies db
    ensures db.Valid()
    ensures Step(reply, db.users) == DeleteAccount(old(db.users), c, caller, password)
    ensures db.projects == old(db.projects) && db.tickets == old(db.tickets) && db.nextId == old(db.nextId)
  {
    if caller !in db.users {
      return Fail(400, UserNotFound);
    }
    var user := db.users[caller];
    if password == "" {
      return Fail(400, MissingFields);
    }
    var isMatching := c.compare(password, user.password);
    if !isMatching {
      return Fail(400, WrongPassword);
    }
    db.users := db.users - {caller};
    reply := Ok(Text(UserDeleted));
  }

  // ---------------------------------------------------------------------------
  // GET /info
  // ---------------------------------------------------------------------------

  datatype UserInfo = UserInfo(username: string, email: string, name: string, pronouns: Option<string>)

  /** Account info: the caller's public fields, never the stored password. */
  method HandleInfo(db: Db, caller: UserId) returns (reply: Reply<UserInfo>)
    ensures caller !in db.users <==> reply == Fail(400, UserNotFound)
    ensures caller in db.users ==>
              var u := db.users[caller]; reply == Ok(UserInfo(u.username, u.email, u.name, u.pronouns))
  {
    if caller !in db.users {
      return Fail(400, UserNotFound);
    }
    var user := db.users[caller];
    reply := Ok(UserInfo(user.username, user.email, user.name, user.pronouns));
  }

  // ---------------------------------------------------------------------------
  // Properties that relate several calls
  // ---------------------------------------------------------------------------

  /**
   * Signing in with the username and password just registered yields a token
   * whose claim is the new user's id.
   */
  lemma SigninAfterSignup(users: Users, c: Crypto, req: SignupRequest, id: UserId)
    requires Lawful(c) && UniqueUsernames(users) && UniqueEmails(users) && id !in users
    requires Signup(users, c, req, id).reply.Ok?
    ensures Signin(Signup(users, c, req, id).state, c, SigninRequest(req.username, req.password)) == Ok(Sign(c, id))
  {
  }

  /** A stored user whose digest verifies the password signs in under their username. */
  lemma SigninKnownUser(users: Users, c: Crypto, id: UserId, password: string)
    requires UniqueUsernames(users) && id in users
    requires users[id].username != "" && password != "" && c.compare(password, users[id].password)
    ensures Signin(users, c, SigninRequest(users[id].username, password)) == Ok(Sign(c, id))
  {
  }

  /** After a reset, the new password signs the caller in. */
  lemma SigninAfterReset(users: Users, c: Crypto, caller: UserId, req: PasswordReset)
    requires Lawful(c) && UniqueUsernames(users) && UniqueEmails(users)
    requires ResetPassword(users, c, caller, req).reply.Ok? && users[caller].username != ""
    ensures var after := ResetPassword(users, c, caller, req).state;
      Signin(after, c, SigninRequest(users[caller].username, req.newPassword)) == Ok(Sign(c, caller))
  {
  }

  /** After deleting the account, its username no longer signs in. */
  lemma SigninAfterDelete(users: Users, c: Crypto, caller: UserId, password: string, signinPassword: string)
    requires UniqueUsernames(users)
    requires DeleteAccount(users, c, caller, password).reply.Ok?
    requires users[caller].username != "" && signinPassword != ""
    ensures var after := DeleteAccount(users, c, caller, password).state;
      Signin(after, c, SigninRequest(users[caller].username, signinPassword)) == Fail(400, UnknownUsername)
  {
  }

  /** The rule rejects every password with a character outside `[A-Za-z0-9]`, however long. */
  lemma PasswordRuleRejectsSymbols(p: string, i: nat)
    requires i < |p| && !IsAsciiAlnum(p[i])
    ensures PasswordProblem(p).Some?
  {
  }

  /** The scenario password `Passw0rd` passes the rule; `Passw0rd!` does not. */
  lemma PasswordRuleExamples()
    ensures PasswordProblem("Passw0rd") == None
    ensures PasswordProblem("Passw0rd!") == Some(PasswordTooWeak)
    ensures PasswordProblem("Pass0") == Some(PasswordTooShort)
  {
    assert IsAsciiLower("Passw0rd"[1]) && IsAsciiUpper("Passw0rd"[0]) && IsAsciiDigit("Passw0rd"[5]);
    assert !IsAsciiAlnum("Passw0rd!"[8]);
  }
}

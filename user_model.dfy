/**
 * The `Users` collection. A document holds a username and an email, each
 * behind a unique index, a display name, the stored password (a bcrypt digest
 * when written by the handlers), the admin flag and optional pronouns. The
 * joining date is not modelled.
 */
module UserModel {
  import opened Wrappers

  /** A Mongo ObjectId of the `Users` collection. */
  type UserId = nat

  datatype User = User(
    username: string,
    name: string,
    password: string,
    isAdmin: bool,
    email: string,
    pronouns: Option<string>)

  type Users = map<UserId, User>

  /** The unique index on `username`. */
  predicate UniqueUsernames(users: Users) {
    forall a, b :: a in users && b in users && users[a].username == users[b].username ==> a == b
  }

  /** The unique index on `email`. */
  predicate UniqueEmails(users: Users) {
    forall a, b :: a in users && b in users && users[a].email == users[b].email ==> a == b
  }

  /** `UserModel.findOne({ username })` finds a document. */
  predicate UsernameTaken(users: Users, username: string) {
    exists id :: id in users && users[id].username == username
  }

  /** `UserModel.findOne({ email })` finds a document. */
  predicate EmailTaken(users: Users, email: string) {
    exists id :: id in users && users[id].email == email
  }

  /** `UserModel.findOne({ username })`: the unique index makes the answer unique. */
  function FindByUsername(users: Users, username: string): (r: Option<UserId>)
    requires UniqueUsernames(users)
    ensures r.Some? <==> UsernameTaken(users, username)
    ensures r.Some? ==> r.value in users && users[r.value].username == username
  {
    if UsernameTaken(users, username) then
      Some(var id :| id in users && users[id].username == username; id)
    else
      None
  }

  /**
   * With the unique index, two stored users have the same username exactly
   * when they are the same user: the ownership checks that compare usernames
   * compare identities.
   */
  lemma SameUsernameSameUser(users: Users, a: UserId, b: UserId)
    requires UniqueUsernames(users) && a in users && b in users
    ensures users[a].username == users[b].username <==> a == b
  {
  }
}

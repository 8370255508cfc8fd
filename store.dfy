/**
 * The Mongo database the handlers talk to: the three collections keyed by
 * ObjectId, with the lookups the handlers repeat. Each handler is one atomic
 * step on a `Db`.
 */
module Store {
  import opened Wrappers
  import opened Seqs
  import opened UserModel
  import opened TicketModel
  import opened ProjectModel

  class Db {
    var users: Users
    var projects: Projects
    var tickets: Tickets
    /** The next ObjectId to hand out; ObjectIds are never reused. */
    var nextId: nat

    /** The unique indexes of the `Users` schema, and fresh ids above every key. */
    ghost predicate Valid()
      reads this
    {
      && UniqueUsernames(users)
      && UniqueEmails(users)
      && (forall id :: id in users ==> id < nextId)
      && (forall id :: id in projects ==> id < nextId)
      && (forall id :: id in tickets ==> id < nextId)
    }

    constructor ()
      ensures Valid()
      ensures users == map[] && projects == map[] && tickets == map[]
    {
      users, projects, tickets, nextId := map[], map[], map[], 0;
    }

    /** The ObjectId given to a new document: used by no collection. */
    method NewId() returns (id: nat)
      requires Valid()
      modifies this`nextId
      ensures Valid()
      ensures id == old(nextId) && nextId == id + 1
      ensures id !in users && id !in projects && id !in tickets
    {
      id := nextId;
      nextId := nextId + 1;
    }
  }

  /**
   * The per-name username lookup of project and ticket creation: the ids of
   * the names that resolve, in order, unknown names dropped, repeated names
   * kept.
   */
  function ResolveUsernames(users: Users, names: seq<string>): (ids: seq<UserId>)
    requires UniqueUsernames(users)
    ensures |ids| <= |names|
    ensures forall k :: 0 <= k < |ids| ==> ids[k] in users && users[ids[k]].username in names
  {
    if names == [] then []
    else
      var rest := ResolveUsernames(users, names[1..]);
      match FindByUsername(users, names[0])
      case None => rest
      case Some(id) => [id] + rest
  }

  /** The result for `a + b` is the result for `a` followed by the result for `b`. */
  lemma {:induction false} ResolveUsernamesAppend(users: Users, a: seq<string>, b: seq<string>)
    requires UniqueUsernames(users)
    ensures ResolveUsernames(users, a + b) == ResolveUsernames(users, a) + ResolveUsernames(users, b)
  {
    if a == [] {
      assert a + b == b;
    } else {
      assert (a + b)[0] == a[0] && (a + b)[1..] == a[1..] + b;
      ResolveUsernamesAppend(users, a[1..], b);
    }
  }

  /** Every known name contributes its user; every unknown name contributes nothing. */
  lemma {:induction false} ResolveUsernamesMembers(users: Users, names: seq<string>, id: UserId)
    requires UniqueUsernames(users)
    ensures id in ResolveUsernames(users, names) <==> id in users && users[id].username in names
  {
    if names != [] {
      ResolveUsernamesMembers(users, names[1..], id);
      if id in users && users[id].username == names[0] {
        assert FindByUsername(users, names[0]) == Some(id);
      }
    }
  }

  /**
   * The per-id user lookup of project and ticket info: the usernames of the
   * ids that still resolve, in stored order, stale ids skipped.
   */
  function UsernamesOf(users: Users, ids: seq<UserId>): (names: seq<string>)
    ensures |names| <= |ids|
    ensures (forall k :: 0 <= k < |ids| ==> ids[k] in users) ==> |names| == |ids|
  {
    if ids == [] then []
    else if ids[0] in users then [users[ids[0]].username] + UsernamesOf(users, ids[1..])
    else UsernamesOf(users, ids[1..])
  }

  /** When every id resolves, the k-th username is that of the k-th id. */
  lemma {:induction false} UsernamesOfKnown(users: Users, ids: seq<UserId>, k: nat)
    requires forall j :: 0 <= j < |ids| ==> ids[j] in users
    requires k < |ids|
    ensures |UsernamesOf(users, ids)| == |ids| && UsernamesOf(users, ids)[k] == users[ids[k]].username
  {
    if k > 0 {
      UsernamesOfKnown(users, ids[1..], k - 1);
    }
  }

  lemma {:induction false} UsernamesOfAppend(users: Users, a: seq<UserId>, b: seq<UserId>)
    ensures UsernamesOf(users, a + b) == UsernamesOf(users, a) + UsernamesOf(users, b)
  {
    if a == [] {
      assert a + b == b;
    } else {
      assert (a + b)[0] == a[0] && (a + b)[1..] == a[1..] + b;
      UsernamesOfAppend(users, a[1..], b);
    }
  }

  /** An id whose user is gone contributes nothing, wherever it stands. */
  lemma {:induction false} UsernamesOfSkipsStale(users: Users, a: seq<UserId>, id: UserId, b: seq<UserId>)
    requires id !in users
    ensures UsernamesOf(users, a + [id] + b) == UsernamesOf(users, a + b)
  {
    UsernamesOfAppend(users, a + [id], b);
    UsernamesOfAppend(users, a, [id]);
    UsernamesOfAppend(users, a, b);
    assert [id][1..] == [];
  }

  /** A name is listed exactly when some listed id still resolves to a user of that name. */
  lemma {:induction false} UsernamesOfMembers(users: Users, ids: seq<UserId>, n: string)
    ensures n in UsernamesOf(users, ids) <==>
              exists k :: 0 <= k < |ids| && ids[k] in users && users[ids[k]].username == n
  {
    if ids != [] {
      UsernamesOfMembers(users, ids[1..], n);
      if exists k :: 0 <= k < |ids| && ids[k] in users && users[ids[k]].username == n {
        var k :| 0 <= k < |ids| && ids[k] in users && users[ids[k]].username == n;
        if k > 0 {
          assert ids[1..][k - 1] == ids[k];
        }
      }
      if exists k :: 0 <= k < |ids[1..]| && ids[1..][k] in users && users[ids[1..][k]].username == n {
        var k :| 0 <= k < |ids[1..]| && ids[1..][k] in users && users[ids[1..][k]].username == n;
        assert ids[k + 1] == ids[1..][k];
      }
    }
  }

  /** The project and ticket creation loop: one `findOne` per name. */
  method LookUpUsernames(db: Db, names: seq<string>) returns (ids: seq<UserId>)
    requires db.Valid()
    ensures ids == ResolveUsernames(db.users, names)
  {
    ids := [];
    for i := 0 to |names|
      invariant ids == ResolveUsernames(db.users, names[..i])
    {
      var found := FindByUsername(db.users, names[i]);
      ResolveUsernamesAppend(db.users, names[..i], [names[i]]);
      assert names[..i + 1] == names[..i] + [names[i]];
      if found.Some? {
        ids := ids + [found.value];
      }
    }
    assert names[..|names|] == names;
  }

  /** The project and ticket info loop: one `findById` per stored id. */
  method LookUpIds(db: Db, ids: seq<UserId>) returns (names: seq<string>)
    ensures names == UsernamesOf(db.users, ids)
  {
    names := [];
    for i := 0 to |ids|
      invariant names == UsernamesOf(db.users, ids[..i])
    {
      UsernamesOfAppend(db.users, ids[..i], [ids[i]]);
      assert ids[..i + 1] == ids[..i] + [ids[i]];
      if ids[i] in db.users {
        names := names + [db.users[ids[i]].username];
      }
    }
    assert ids[..|ids|] == ids;
  }

  /**
   * What `UserModel.find({ username: { $in: names } })` returns: every user
   * whose username is listed, each once, in an order the database chooses.
   */
  ghost predicate UsersNamed(found: seq<UserId>, users: Users, names: seq<string>) {
    && Distinct(found)
    && forall id :: id in found <==> id in users && users[id].username in names
  }

  /** `UserModel.find({ username: { $in: names } })`, in an unspecified order. */
  method FindUsersNamed(db: Db, names: seq<string>) returns (found: seq<UserId>)
    ensures UsersNamed(found, db.users, names)
  {
    var pending := set id | id in db.users && db.users[id].username in names;
    found := [];
    while pending != {}
      invariant pending <= db.users.Keys
      invariant Distinct(found)
      invariant forall id :: id in found ==> id !in pending
      invariant forall id :: id in found || id in pending <==> id in db.users && db.users[id].username in names
      decreases pending
    {
      var id :| id in pending;
      found := found + [id];
      pending := pending - {id};
    }
  }
}

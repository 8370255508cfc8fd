/**
 * The `/project/` routes. A project's owner is the user who created it;
 * title and description edits are owner-only (by username), membership edits
 * are owner-only (by id), and deletion checks nothing but existence.
 */
module ProjectRoutes {
  import opened Wrappers
  import opened Seqs
  import opened Http
  import opened UserModel
  import opened ProjectModel
  import opened Store

  const ProjectCreated := "Project created successfully!"
  const ProjectNotFound := "Can't find the project!"
  const ProjectDeleted := "Project deleted successfully!"
  const NoJoinedProjects := "No joined projects found!"
  const ProjectUpdated := "Project updated successfully!"
  const NotOwned := "Project not owned by the user!!"
  const IdAndUsernamesRequired := "Project ID and usernames are required."
  const ProjectMissing := "Project not found."
  const OnlyOwnerAdds := "Only the project owner can add members."
  const OnlyOwnerRemoves := "Only the project owner can remove members."
  const MembersAdded := "Members added successfully."
  const MembersRemoved := "Members removed successfully."

  // ---------------------------------------------------------------------------
  // POST /create
  // ---------------------------------------------------------------------------

  datatype NewProject = NewProject(title: string, description: string, members: seq<string>)

  /**
   * Project creation: the caller becomes the owner; members are the users the
   * listed usernames resolve to, in the listed order, unknown names dropped.
   */
  function Create(users: Users, projects: Projects, caller: UserId, req: NewProject, id: ProjectId)
    : (r: Step<Projects, Notice>)
    requires UniqueUsernames(users) && id !in projects
    ensures r.reply == Fail(400, UserNotFound) <==> caller !in users
    ensures r.reply == Fail(400, MissingFields) <==> caller in users && (req.title == "" || req.description == "")
    ensures r.reply.Ok? <==> caller in users && req.title != "" && req.description != ""
    ensures r.reply.Ok? ==>
              && r.reply == Ok(Text(ProjectCreated))
              && r.state.Keys == projects.Keys + {id}
              && r.state[id].owner == caller
              && r.state[id].title == req.title && r.state[id].description == req.description
              && r.state[id].members == ResolveUsernames(users, req.members)
              && r.state[id].tickets == []
    ensures forall p :: p in projects ==> p in r.state && r.state[p] == projects[p]
    ensures !r.reply.Ok? ==> r.state == projects
  {
    if caller !in users then Step(Fail(400, UserNotFound), projects)
    else if req.title == "" || req.description == "" then Step(Fail(400, MissingFields), projects)
    else
      var project := Project(req.title, req.description, caller, ResolveUsernames(users, req.members), []);
      Step(Ok(Text(ProjectCreated)), projects[id := project])
  }

  method HandleCreate(db: Db, caller: UserId, req: NewProject) returns (reply: Reply<Notice>)
    requires db.Valid()
    modifies db
    ensures db.Valid()
    ensures Step(reply, db.projects) == Create(old(db.users), old(db.projects), caller, req, old(db.nextId))
    ensures db.users == old(db.users) && db.tickets == old(db.tickets)
  {
    if caller !in db.users {
      return Fail(400, UserNotFound);
    }
    if req.title == "" || req.description == "" {
      return Fail(400, MissingFields);
    }
    var memberIds := LookUpUsernames(db, req.members);
    var id := db.NewId();
    db.projects := db.projects[id := Project(req.title, req.description, caller, memberIds, [])];
    reply := Ok(Text(ProjectCreated));
  }

  /** Creation does not de-duplicate: a username listed twice makes its user a member twice. */
  lemma CreateKeepsRepeatedNames(users: Users, name: string, id: UserId)
    requires UniqueUsernames(users) && id in users && users[id].username == name
    ensures ResolveUsernames(users, [name, name]) == [id, id]
  {
  }

  // ---------------------------------------------------------------------------
  // DELETE /delete
  // ---------------------------------------------------------------------------

  /** Deletion by id: any caller may delete any existing project. */
  function Delete(projects: Projects, projectId: Option<ProjectId>): (r: Step<Projects, Notice>)
    ensures r.reply == Fail(400, MissingFields) <==> projectId.None?
    ensures r.reply == Fail(400, ProjectNotFound) <==> projectId.Some? && projectId.value !in projects
    ensures r.reply.Ok? <==> projectId.Some? && projectId.value in projects
    ensures r.reply.Ok? ==>
              && r.reply == Ok(Text(ProjectDeleted))
              && r.state.Keys == projects.Keys - {projectId.value}
              && forall p :: p in r.state ==> r.state[p] == projects[p]
    ensures !r.reply.Ok? ==> r.state == projects
  {
    if projectId.None? then Step(Fail(400, MissingFields), projects)
    else if projectId.value !in projects then Step(Fail(400, ProjectNotFound), projects)
    else Step(Ok(Text(ProjectDeleted)), projects - {projectId.value})
  }

  /** The handler never looks at the caller: there is no ownership check. */
  method HandleDelete(db: Db, projectId: Option<ProjectId>) returns (reply: Reply<Notice>)
    requires db.Valid()
    modifies db
    ensures db.Valid()
    ensures Step(reply, db.projects) == Delete(old(db.projects), projectId)
    ensures db.users == old(db.users) && db.tickets == old(db.tickets) && db.nextId == old(db.nextId)
  {
    if projectId.None? {
      return Fail(400, MissingFields);
    }
    if projectId.value !in db.projects {
      return Fail(400, ProjectNotFound);
    }
    db.projects := db.projects - {projectId.value};
    reply := Ok(Text(ProjectDeleted));
  }

  // ---------------------------------------------------------------------------
  // GET /info
  // ---------------------------------------------------------------------------

  datatype ProjectInfo = ProjectInfo(title: string, description: string, members: seq<string>, owner: string)

  /**
   * Project info: member usernames in stored order, members whose account is
   * gone skipped; `owner` reports the caller's username, not the stored owner's.
   */
  method HandleInfo(db: Db, caller: UserId, projectId: Option<ProjectId>) returns (reply: Reply<ProjectInfo>)
    ensures reply == Fail(400, UserNotFound) <==> caller !in db.users
    ensures reply == Fail(400, MissingFields) <==> caller in db.users && projectId.None?
    ensures reply == Fail(400, ProjectNotFound) <==>
              caller in db.users && projectId.Some? && projectId.value !in db.projects
    ensures reply.Ok? <==> caller in db.users && projectId.Some? && projectId.value in db.projects
    ensures reply.Ok? ==>
              var p := db.projects[projectId.value];
              reply.value == ProjectInfo(p.title, p.description, UsernamesOf(db.users, p.members), db.users[caller].username)
  {
    if caller !in db.users {
      return Fail(400, UserNotFound);
    }
    var loggedInUser := db.users[caller];
    if projectId.None? {
      return Fail(400, MissingFields);
    }
    if projectId.value !in db.projects {
      return Fail(400, ProjectNotFound);
    }
    var project := db.projects[projectId.value];
    var memberUsernames := LookUpIds(db, project.members);
    reply := Ok(ProjectInfo(project.title, project.description, memberUsernames, loggedInUser.username));
  }

  // ---------------------------------------------------------------------------
  // GET /get-owned-by-user and GET /get-joined-by-user
  // ---------------------------------------------------------------------------

  datatype ProjectSummary = ProjectSummary(title: string, id: ProjectId)

  /** `ProjectsModel.find({ owner })`. */
  function OwnedBy(projects: Projects, caller: UserId): (ids: set<ProjectId>)
    ensures forall p :: p in ids <==> p in projects && projects[p].owner == caller
  {
    set p | p in projects && projects[p].owner == caller
  }

  /** `ProjectsModel.find({ members: caller })`: projects listing the caller as a member. */
  function JoinedBy(projects: Projects, caller: UserId): (ids: set<ProjectId>)
    ensures forall p :: p in ids <==> p in projects && caller in projects[p].members
  {
    set p | p in projects && caller in projects[p].members
  }

  /** `out` lists each project of `ids` once, with its title, in some order. */
  ghost predicate Summarizes(out: seq<ProjectSummary>, projects: Projects, ids: set<ProjectId>) {
    && (forall k :: 0 <= k < |out| ==> out[k].id in ids && out[k].id in projects && out[k].title == projects[out[k].id].title)
    && (forall j, k :: 0 <= j < k < |out| ==> out[j].id != out[k].id)
    && (forall p :: p in ids ==> exists k :: 0 <= k < |out| && out[k].id == p)
  }

  /** The `{ title, id }` list built from a query result, in the order the database returns. */
  method Summaries(db: Db, ids: set<ProjectId>) returns (out: seq<ProjectSummary>)
    requires ids <= db.projects.Keys
    ensures Summarizes(out, db.projects, ids)
    ensures |out| == |ids|
  {
    var pending := ids;
    out := [];
    while pending != {}
      invariant pending <= ids
      invariant |out| + |pending| == |ids|
      invariant forall k :: 0 <= k < |out| ==> out[k].id in ids - pending && out[k].title == db.projects[out[k].id].title
      invariant forall j, k :: 0 <= j < k < |out| ==> out[j].id != out[k].id
      invariant forall p :: p in ids - pending ==> exists k :: 0 <= k < |out| && out[k].id == p
      decreases pending
    {
      var p :| p in pending;
      ghost var before, done := out, ids - pending;
      out := out + [ProjectSummary(db.projects[p].title, p)];
      pending := pending - {p};
      forall q | q in ids - pending ensures exists k :: 0 <= k < |out| && out[k].id == q {
        if q == p {
          assert out[|out| - 1].id == q;
        } else {
          assert q in done;
          var k :| 0 <= k < |before| && before[k].id == q;
          assert out[k].id == q;
        }
      }
    }
    assert ids - pending == ids;
  }

  /** Owned projects: an empty list is a successful answer. */
  method HandleOwnedByUser(db: Db, caller: UserId) returns (reply: Reply<seq<ProjectSummary>>)
    ensures reply == Fail(400, UserNotFound) <==> caller !in db.users
    ensures caller in db.users ==> reply.Ok? && Summarizes(reply.value, db.projects, OwnedBy(db.projects, caller))
  {
    if caller !in db.users {
      return Fail(400, UserNotFound);
    }
    var projects := OwnedBy(db.projects, caller);
    var projectsInfo := Summaries(db, projects);
    reply := Ok(projectsInfo);
  }

  /** Joined projects: no match is a 404, unlike the owned list. */
  method HandleJoinedByUser(db: Db, caller: UserId) returns (reply: Reply<seq<ProjectSummary>>)
    ensures reply == Fail(400, UserNotFound) <==> caller !in db.users
    ensures reply == Fail(404, NoJoinedProjects) <==> caller in db.users && JoinedBy(db.projects, caller) == {}
    ensures reply.Ok? <==> caller in db.users && JoinedBy(db.projects, caller) != {}
    ensures reply.Ok? ==> Summarizes(reply.value, db.projects, JoinedBy(db.projects, caller)) && reply.value != []
  {
    if caller !in db.users {
      return Fail(400, UserNotFound);
    }
    var projects := JoinedBy(db.projects, caller);
    if projects == {} {
      return Fail(404, NoJoinedProjects);
    }
    var projectsInfo := Summaries(db, projects);
    reply := Ok(projectsInfo);
  }

  // ---------------------------------------------------------------------------
  // PUT /update
  // ---------------------------------------------------------------------------

  datatype ProjectEdit = ProjectEdit(projectId: Option<ProjectId>, newTitle: string, newDescription: string)

  predicate EditFieldMissing(req: ProjectEdit) {
    req.projectId.None? || req.newTitle == "" || req.newDescription == ""
  }

  /**
   * Title and description update: allowed when the stored owner's username
   * equals the caller's; any other outcome changes nothing.
   */
  function Update(users: Users, projects: Projects, caller: UserId, req: ProjectEdit): (r: Step<Projects, Notice>)
    ensures caller !in users ==> r.reply == Fail(400, UserNotFound)
    ensures r.reply == Fail(400, MissingFields) <==> caller in users && EditFieldMissing(req)
    ensures r.reply == Fail(400, ProjectNotFound) <==>
              caller in users && !EditFieldMissing(req) && req.projectId.value !in projects
    ensures (caller in users && !EditFieldMissing(req) && req.projectId.value in projects
             && projects[req.projectId.value].owner !in users) ==> r.reply == Fail(400, UserNotFound)
    ensures r.reply == Fail(400, NotOwned) <==>
              && caller in users && !EditFieldMissing(req) && req.projectId.value in projects
              && projects[req.projectId.value].owner in users
              && users[projects[req.projectId.value].owner].username != users[caller].username
    ensures r.reply.Ok? <==>
              && caller in users && !EditFieldMissing(req) && req.projectId.value in projects
              && projects[req.projectId.value].owner in users
              && users[projects[req.projectId.value].owner].username == users[caller].username
    ensures r.reply.Ok? ==>
              && r.reply == Ok(Text(ProjectUpdated))
              && var pid := req.projectId.value;
                 r.state == projects[pid := projects[pid].(title := req.newTitle, description := req.newDescription)]
    ensures !r.reply.Ok? ==> r.state == projects
    ensures forall p :: p in r.state <==> p in projects
    ensures forall p :: p in r.state ==> r.state[p].owner == projects[p].owner && r.state[p].members == projects[p].members
  {
    if caller !in users then Step(Fail(400, UserNotFound), projects)
    else if EditFieldMissing(req) then Step(Fail(400, MissingFields), projects)
    else if req.projectId.value !in projects then Step(Fail(400, ProjectNotFound), projects)
    else
      var project := projects[req.projectId.value];
      if project.owner !in users then Step(Fail(400, UserNotFound), projects)
      else if users[project.owner].username == users[caller].username then
        Step(Ok(Text(ProjectUpdated)),
             projects[req.projectId.value := project.(title := req.newTitle, description := req.newDescription)])
      else Step(Fail(400, NotOwned), projects)
  }

  method HandleUpdate(db: Db, caller: UserId, req: ProjectEdit) returns (reply: Reply<Notice>)
    requires db.Valid()
    modifies db
    ensures db.Valid()
    ensures Step(reply, db.projects) == Update(old(db.users), old(db.projects), caller, req)
    ensures db.users == old(db.users) && db.tickets == old(db.tickets) && db.nextId == old(db.nextId)
  {
    if caller !in db.users {
      return Fail(400, UserNotFound);
    }
    var loggedInUser := db.users[caller];
    if req.projectId.None? || req.newTitle == "" || req.newDescription == "" {
      return Fail(400, MissingFields);
    }
    var pid := req.projectId.value;
    if pid !in db.projects {
      return Fail(400, ProjectNotFound);
    }
    var project := db.projects[pid];
    if project.owner !in db.users {
      return Fail(400, UserNotFound);
    }
    var projectOwner := db.users[project.owner];
    if projectOwner.username == loggedInUser.username {
      project := project.(title := req.newTitle);
      project := project.(description := req.newDescription);
      db.projects := db.projects[pid := project];
      reply := Ok(Text(ProjectUpdated));
    } else {
      return Fail(400, NotOwned);
    }
  }

  /**
   * With unique usernames the username comparison is an identity check: an
   * update succeeds only for the owner, and for the owner it succeeds once the
   * fields are present.
   */
  lemma UpdateIsOwnerOnly(users: Users, projects: Projects, caller: UserId, req: ProjectEdit)
    requires UniqueUsernames(users)
    ensures Update(users, projects, caller, req).reply.Ok? ==> projects[req.projectId.value].owner == caller
    ensures (caller in users && !EditFieldMissing(req) && req.projectId.value in projects
             && projects[req.projectId.value].owner == caller) ==> Update(users, projects, caller, req).reply.Ok?
    ensures (caller in users && !EditFieldMissing(req) && req.projectId.value in projects
             && projects[req.projectId.value].owner in users && projects[req.projectId.value].owner != caller)
              ==> Update(users, projects, caller, req) == Step(Fail(400, NotOwned), projects)
  {
  }

  // ---------------------------------------------------------------------------
  // POST /add-members and POST /remove-members
  // ---------------------------------------------------------------------------

  datatype MemberEdit = MemberEdit(projectId: Option<ProjectId>, usernames: Option<seq<string>>)

  /**
   * The guards both membership routes share, in order: an id and a non-empty
   * array of usernames (400), an existing project (404), the caller as owner
   * by id (403, with the route's own message). On success, the project's id.
   */
  function CheckMemberEdit(projects: Projects, caller: UserId, req: MemberEdit, forbidden: string): (r: Reply<ProjectId>)
    ensures r == Fail(400, IdAndUsernamesRequired) <==>
              req.projectId.None? || req.usernames.None? || req.usernames.value == []
    ensures r == Fail(404, ProjectMissing) <==>
              req.projectId.Some? && req.usernames.Some? && req.usernames.value != []
              && req.projectId.value !in projects
    ensures r == Fail(403, forbidden) <==>
              req.projectId.Some? && req.usernames.Some? && req.usernames.value != []
              && req.projectId.value in projects && projects[req.projectId.value].owner != caller
    ensures r.Ok? <==>
              req.projectId.Some? && req.usernames.Some? && req.usernames.value != []
              && req.projectId.value in projects && projects[req.projectId.value].owner == caller
    ensures r.Ok? ==> r.value == req.projectId.value
  {
    if req.projectId.None? || req.usernames.None? || req.usernames.value == [] then Fail(400, IdAndUsernamesRequired)
    else if req.projectId.value !in projects then Fail(404, ProjectMissing)
    else if projects[req.projectId.value].owner != caller then Fail(403, forbidden)
    else Ok(req.projectId.value)
  }

  /**
   * The elements of `xs` that do not occur in `ys`, in their order in `xs`:
   * the `filter` of both membership routes.
   */
  function Without(xs: seq<UserId>, ys: seq<UserId>): (r: seq<UserId>)
    ensures |r| <= |xs|
    ensures forall x :: x in r <==> x in xs && x !in ys
    ensures Distinct(xs) ==> Distinct(r)
  {
    if xs == [] then []
    else
      var rest := Without(xs[1..], ys);
      assert forall x :: x in xs[1..] ==> x in xs;
      if xs[0] in ys then rest else [xs[0]] + rest
  }

  /** The filter keeps order: it distributes over concatenation. */
  lemma {:induction false} WithoutAppend(a: seq<UserId>, b: seq<UserId>, ys: seq<UserId>)
    ensures Without(a + b, ys) == Without(a, ys) + Without(b, ys)
  {
    if a == [] {
      assert a + b == b;
    } else {
      assert (a + b)[0] == a[0] && (a + b)[1..] == a[1..] + b;
      WithoutAppend(a[1..], b, ys);
    }
  }

  /** Filtering out ids that do not occur changes nothing. */
  lemma {:induction false} WithoutDisjoint(xs: seq<UserId>, ys: seq<UserId>)
    requires forall x :: x in xs ==> x !in ys
    ensures Without(xs, ys) == xs
  {
    if xs != [] {
      WithoutDisjoint(xs[1..], ys);
    }
  }

  /** Filtering out ids that all occur leaves nothing. */
  lemma WithoutCovered(xs: seq<UserId>, ys: seq<UserId>)
    requires forall x :: x in xs ==> x in ys
    ensures Without(xs, ys) == []
  {
  }

  /**
   * add-members, with `found` the users `find({ username: { $in } })` returned,
   * in the database's order: the found ids not yet members are appended.
   */
  function AddMembers(projects: Projects, caller: UserId, req: MemberEdit, found: seq<UserId>)
    : (r: Step<Projects, Notice>)
    ensures var check := CheckMemberEdit(projects, caller, req, OnlyOwnerAdds);
              check.Fail? ==> r == Step(Fail(check.status, check.error), projects)
    ensures CheckMemberEdit(projects, caller, req, OnlyOwnerAdds).Ok? ==>
              && r.reply == Ok(Message(MembersAdded))
              && var pid := req.projectId.value;
                 var before := projects[pid].members;
                 && r.state.Keys == projects.Keys
                 && (forall p :: p in projects && p != pid ==> r.state[p] == projects[p])
                 && r.state[pid] == projects[pid].(members := r.state[pid].members)
                 && |before| <= |r.state[pid].members|
                 && r.state[pid].members[..|before|] == before
                 && (forall x :: x in r.state[pid].members <==> x in before || x in found)
                 && (forall x :: x in r.state[pid].members[|before|..] ==> x in found && x !in before)
                 && (Distinct(found) ==> Distinct(r.state[pid].members[|before|..]))
                 && r.state[pid].members == before + Without(found, before)
  {
    match CheckMemberEdit(projects, caller, req, OnlyOwnerAdds)
    case Fail(status, error) => Step(Fail(status, error), projects)
    case Ok(pid) =>
      var project := projects[pid];
      var newMemberIds := Without(found, project.members);
      Step(Ok(Message(MembersAdded)), projects[pid := project.(members := project.members + newMemberIds)])
  }

  method HandleAddMembers(db: Db, caller: UserId, req: MemberEdit) returns (reply: Reply<Notice>, ghost found: seq<UserId>)
    requires db.Valid()
    modifies db
    ensures db.Valid()
    ensures CheckMemberEdit(old(db.projects), caller, req, OnlyOwnerAdds).Ok? ==>
              UsersNamed(found, db.users, req.usernames.value)
    ensures Step(reply, db.projects) == AddMembers(old(db.projects), caller, req, found)
    ensures db.users == old(db.users) && db.tickets == old(db.tickets) && db.nextId == old(db.nextId)
  {
    found := [];
    if req.projectId.None? || req.usernames.None? || req.usernames.value == [] {
      return Fail(400, IdAndUsernamesRequired), found;
    }
    var pid := req.projectId.value;
    if pid !in db.projects {
      return Fail(404, ProjectMissing), found;
    }
    var project := db.projects[pid];
    if project.owner != caller {
      return Fail(403, OnlyOwnerAdds), found;
    }
    var users := FindUsersNamed(db, req.usernames.value);
    found := users;
    var newMemberIds := Without(users, project.members);
    project := project.(members := project.members + newMemberIds);
    db.projects := db.projects[pid := project];
    reply := Ok(Message(MembersAdded));
  }

  /**
   * remove-members, with `found` the users `find({ username: { $in } })`
   * returned: the members whose id is among them are dropped, the others
   * keep their order.
   */
  function RemoveMembers(projects: Projects, caller: UserId, req: MemberEdit, found: seq<UserId>)
    : (r: Step<Projects, Notice>)
    ensures var check := CheckMemberEdit(projects, caller, req, OnlyOwnerRemoves);
              check.Fail? ==> r == Step(Fail(check.status, check.error), projects)
    ensures CheckMemberEdit(projects, caller, req, OnlyOwnerRemoves).Ok? ==>
              && r.reply == Ok(Message(MembersRemoved))
              && var pid := req.projectId.value;
                 && r.state.Keys == projects.Keys
                 && (forall p :: p in projects && p != pid ==> r.state[p] == projects[p])
                 && r.state[pid] == projects[pid].(members := Without(projects[pid].members, found))
  {
    match CheckMemberEdit(projects, caller, req, OnlyOwnerRemoves)
    case Fail(status, error) => Step(Fail(status, error), projects)
    case Ok(pid) =>
      var project := projects[pid];
      Step(Ok(Message(MembersRemoved)), projects[pid := project.(members := Without(project.members, found))])
  }

  method HandleRemoveMembers(db: Db, caller: UserId, req: MemberEdit)
    returns (reply: Reply<Notice>, ghost found: seq<UserId>)
    requires db.Valid()
    modifies db
    ensures db.Valid()
    ensures CheckMemberEdit(old(db.projects), caller, req, OnlyOwnerRemoves).Ok? ==>
              UsersNamed(found, db.users, req.usernames.value)
    ensures Step(reply, db.projects) == RemoveMembers(old(db.projects), caller, req, found)
    ensures db.users == old(db.users) && db.tickets == old(db.tickets) && db.nextId == old(db.nextId)
  {
    found := [];
    if req.projectId.None? || req.usernames.None? || req.usernames.value == [] {
      return Fail(400, IdAndUsernamesRequired), found;
    }
    var pid := req.projectId.value;
    if pid !in db.projects {
      return Fail(404, ProjectMissing), found;
    }
    var project := db.projects[pid];
    if project.owner != caller {
      return Fail(403, OnlyOwnerRemoves), found;
    }
    var removeIds := FindUsersNamed(db, req.usernames.value);
    found := removeIds;
    project := project.(members := Without(project.members, removeIds));
    db.projects := db.projects[pid := project];
    reply := Ok(Message(MembersRemoved));
  }

  // ---------------------------------------------------------------------------
  // Membership properties
  // ---------------------------------------------------------------------------

  /**
   * add-members is idempotent: repeating it, whatever order the database
   * returns the same users in, leaves the members as the first call left them.
   */
  lemma AddMembersIdempotent(projects: Projects, caller: UserId, req: MemberEdit, found: seq<UserId>, again: seq<UserId>)
    requires forall x :: x in again ==> x in found
    ensures var once := AddMembers(projects, caller, req, found);
      AddMembers(once.state, caller, req, again).state == once.state
  {
    var once := AddMembers(projects, caller, req, found);
    if CheckMemberEdit(projects, caller, req, OnlyOwnerAdds).Ok? {
      var pid := req.projectId.value;
      assert CheckMemberEdit(once.state, caller, req, OnlyOwnerAdds).Ok?;
      WithoutCovered(again, once.state[pid].members);
      assert once.state[pid].members + [] == once.state[pid].members;
    }
  }

  /** add-members keeps a duplicate-free member list duplicate-free. */
  lemma AddMembersKeepsDistinct(projects: Projects, caller: UserId, req: MemberEdit, found: seq<UserId>)
    requires Distinct(found)
    requires CheckMemberEdit(projects, caller, req, OnlyOwnerAdds).Ok?
    requires Distinct(projects[req.projectId.value].members)
    ensures Distinct(AddMembers(projects, caller, req, found).state[req.projectId.value].members)
  {
    var before := projects[req.projectId.value].members;
    var added := Without(found, before);
    var after := before + added;
    forall i, j | 0 <= i < j < |after| ensures after[i] != after[j] {
      if j >= |before| {
        assert after[j] == added[j - |before|];
        assert after[j] in added;
        if i < |before| {
          assert after[i] in before;
        } else {
          assert after[i] == added[i - |before|];
        }
      }
    }
  }

  /**
   * remove-members is idempotent: repeating it with the same users, or any
   * subset of them, changes nothing more.
   */
  lemma RemoveMembersIdempotent(projects: Projects, caller: UserId, req: MemberEdit, found: seq<UserId>, again: seq<UserId>)
    requires forall x :: x in again ==> x in found
    ensures var once := RemoveMembers(projects, caller, req, found);
      RemoveMembers(once.state, caller, req, again).state == once.state
  {
    var once := RemoveMembers(projects, caller, req, found);
    if CheckMemberEdit(projects, caller, req, OnlyOwnerRemoves).Ok? {
      var pid := req.projectId.value;
      assert CheckMemberEdit(once.state, caller, req, OnlyOwnerRemoves).Ok?;
      WithoutDisjoint(once.state[pid].members, again);
      assert once.state[pid].(members := once.state[pid].members) == once.state[pid];
    }
  }

  /** Removing users none of whom is a member is a no-op. */
  lemma RemoveAbsentIsNoOp(projects: Projects, caller: UserId, req: MemberEdit, found: seq<UserId>)
    requires CheckMemberEdit(projects, caller, req, OnlyOwnerRemoves).Ok?
    requires forall x :: x in found ==> x !in projects[req.projectId.value].members
    ensures RemoveMembers(projects, caller, req, found).state == projects
  {
    var pid := req.projectId.value;
    WithoutDisjoint(projects[pid].members, found);
    assert projects[pid].(members := projects[pid].members) == projects[pid];
  }
}

/**
 * The `/ticket/` routes. A ticket's creator is the user who created it; edits
 * are creator-only (by username) and never touch the creator or the
 * assignees; deletion checks nothing but existence. This router is not
 * mounted by the server's entry point, but its handlers are self-contained.
 */
module TicketRoutes {
  import opened Wrappers
  import opened Http
  import opened UserModel
  import opened TicketModel
  import opened Store

  const TicketCreated := "Ticket created successfully!"
  const TicketNotFound := "Can't find the ticket!"
  const TicketDeleted := "ticket deleted successfully!"
  const TicketUpdated := "Ticket updated successfully!"
  const NotOwned := "Ticket not owned by the user!!"
  /** The status every new ticket starts with. */
  const Pending := "pending"

  // ---------------------------------------------------------------------------
  // POST /create
  // ---------------------------------------------------------------------------

  datatype NewTicket = NewTicket(title: string, description: string, assignees: seq<string>, deadline: string)

  /**
   * Ticket creation: status "pending", the caller as creator, and as assignees
   * the users the listed usernames resolve to, in order, unknown names dropped.
   */
  function Create(users: Users, tickets: Tickets, caller: UserId, req: NewTicket, id: TicketId)
    : (r: Step<Tickets, Notice>)
    requires UniqueUsernames(users) && id !in tickets
    ensures r.reply == Fail(400, UserNotFound) <==> caller !in users
    ensures r.reply == Fail(400, MissingFields) <==> caller in users && (req.title == "" || req.description == "")
    ensures r.reply.Ok? <==> caller in users && req.title != "" && req.description != ""
    ensures r.reply.Ok? ==>
              && r.reply == Ok(Text(TicketCreated))
              && r.state.Keys == tickets.Keys + {id}
              && r.state[id].creator == caller
              && r.state[id].status == Pending
              && r.state[id].title == req.title && r.state[id].description == req.description
              && r.state[id].assignees == ResolveUsernames(users, req.assignees)
              && r.state[id].deadline == DateOf(req.deadline)
    ensures forall t :: t in tickets ==> t in r.state && r.state[t] == tickets[t]
    ensures !r.reply.Ok? ==> r.state == tickets
  {
    if caller !in users then Step(Fail(400, UserNotFound), tickets)
    else if req.title == "" || req.description == "" then Step(Fail(400, MissingFields), tickets)
    else
      var ticket := Ticket(req.title, req.description, ResolveUsernames(users, req.assignees), caller, Pending,
                           DateOf(req.deadline));
      Step(Ok(Text(TicketCreated)), tickets[id := ticket])
  }

  method HandleCreate(db: Db, caller: UserId, req: NewTicket) returns (reply: Reply<Notice>)
    requires db.Valid()
    modifies db
    ensures db.Valid()
    ensures Step(reply, db.tickets) == Create(old(db.users), old(db.tickets), caller, req, old(db.nextId))
    ensures db.users == old(db.users) && db.projects == old(db.projects)
  {
    if caller !in db.users {
      return Fail(400, UserNotFound);
    }
    if req.title == "" || req.description == "" {
      return Fail(400, MissingFields);
    }
    var assigneesIds := LookUpUsernames(db, req.assignees);
    var id := db.NewId();
    db.tickets := db.tickets[id := Ticket(req.title, req.description, assigneesIds, caller, Pending, DateOf(req.deadline))];
    reply := Ok(Text(TicketCreated));
  }

  // ---------------------------------------------------------------------------
  // DELETE /delete
  // ---------------------------------------------------------------------------

  /** Deletion by id: any caller may delete any existing ticket. */
  function Delete(tickets: Tickets, ticketId: Option<TicketId>): (r: Step<Tickets, Notice>)
    ensures r.reply == Fail(400, MissingFields) <==> ticketId.None?
    ensures r.reply == Fail(400, TicketNotFound) <==> ticketId.Some? && ticketId.value !in tickets
    ensures r.reply.Ok? <==> ticketId.Some? && ticketId.value in tickets
    ensures r.reply.Ok? ==>
              && r.reply == Ok(Text(TicketDeleted))
              && r.state.Keys == tickets.Keys - {ticketId.value}
              && forall t :: t in r.state ==> r.state[t] == tickets[t]
    ensures !r.reply.Ok? ==> r.state == tickets
  {
    if ticketId.None? then Step(Fail(400, MissingFields), tickets)
    else if ticketId.value !in tickets then Step(Fail(400, TicketNotFound), tickets)
    else Step(Ok(Text(TicketDeleted)), tickets - {ticketId.value})
  }

  /** The handler never looks at the caller: there is no ownership check. */
  method HandleDelete(db: Db, ticketId: Option<TicketId>) returns (reply: Reply<Notice>)
    requires db.Valid()
    modifies db
    ensures db.Valid()
    ensures Step(reply, db.tickets) == Delete(old(db.tickets), ticketId)
    ensures db.users == old(db.users) && db.projects == old(db.projects) && db.nextId == old(db.nextId)
  {
    if ticketId.None? {
      return Fail(400, MissingFields);
    }
    if ticketId.value !in db.tickets {
      return Fail(400, TicketNotFound);
    }
    db.tickets := db.tickets - {ticketId.value};
    reply := Ok(Text(TicketDeleted));
  }

  // ---------------------------------------------------------------------------
  // PUT /update
  // ---------------------------------------------------------------------------

  datatype TicketEdit = TicketEdit(
    ticketId: Option<TicketId>, newTitle: string, newDescription: string, newDeadline: string, newStatus: string)

  predicate EditFieldMissing(req: TicketEdit) {
    req.ticketId.None? || req.newTitle == "" || req.newDescription == "" || req.newDeadline == "" || req.newStatus == ""
  }

  /**
   * Ticket update: allowed when the creator's username equals the caller's;
   * title, description, deadline and status change, to any non-empty status.
   */
  function Update(users: Users, tickets: Tickets, caller: UserId, req: TicketEdit): (r: Step<Tickets, Notice>)
    ensures caller !in users ==> r.reply == Fail(400, UserNotFound)
    ensures r.reply == Fail(400, MissingFields) <==> caller in users && EditFieldMissing(req)
    ensures r.reply == Fail(400, TicketNotFound) <==>
              caller in users && !EditFieldMissing(req) && req.ticketId.value !in tickets
    ensures (caller in users && !EditFieldMissing(req) && req.ticketId.value in tickets
             && tickets[req.ticketId.value].creator !in users) ==> r.reply == Fail(400, UserNotFound)
    ensures r.reply == Fail(400, NotOwned) <==>
              && caller in users && !EditFieldMissing(req) && req.ticketId.value in tickets
              && tickets[req.ticketId.value].creator in users
              && users[tickets[req.ticketId.value].creator].username != users[caller].username
    ensures r.reply.Ok? <==>
              && caller in users && !EditFieldMissing(req) && req.ticketId.value in tickets
              && tickets[req.ticketId.value].creator in users
              && users[tickets[req.ticketId.value].creator].username == users[caller].username
    ensures r.state.Keys == tickets.Keys
    ensures r.reply.Ok? ==>
              && r.reply == Ok(Text(TicketUpdated))
              && var t := r.state[req.ticketId.value];
                 && t.title == req.newTitle && t.description == req.newDescription
                 && t.deadline == DateOf(req.newDeadline) && t.status == req.newStatus
                 && forall i :: i in tickets && i != req.ticketId.value ==> r.state[i] == tickets[i]
    ensures !r.reply.Ok? ==> r.state == tickets
    ensures forall i :: i in r.state ==>
              r.state[i].creator == tickets[i].creator && r.state[i].assignees == tickets[i].assignees
  {
    if caller !in users then Step(Fail(400, UserNotFound), tickets)
    else if EditFieldMissing(req) then Step(Fail(400, MissingFields), tickets)
    else if req.ticketId.value !in tickets then Step(Fail(400, TicketNotFound), tickets)
    else
      var ticket := tickets[req.ticketId.value];
      if ticket.creator !in users then Step(Fail(400, UserNotFound), tickets)
      else if users[ticket.creator].username == users[caller].username then
        var edited := ticket.(title := req.newTitle, description := req.newDescription,
                              deadline := DateOf(req.newDeadline), status := req.newStatus);
        Step(Ok(Text(TicketUpdated)), tickets[req.ticketId.value := edited])
      else Step(Fail(400, NotOwned), tickets)
  }

  method HandleUpdate(db: Db, caller: UserId, req: TicketEdit) returns (reply: Reply<Notice>)
    requires db.Valid()
    modifies db
    ensures db.Valid()
    ensures Step(reply, db.tickets) == Update(old(db.users), old(db.tickets), caller, req)
    ensures db.users == old(db.users) && db.projects == old(db.projects) && db.nextId == old(db.nextId)
  {
    if caller !in db.users {
      return Fail(400, UserNotFound);
    }
    var loggedInUser := db.users[caller];
    if req.ticketId.None? || req.newTitle == "" || req.newDescription == "" || req.newDeadline == "" || req.newStatus == "" {
      return Fail(400, MissingFields);
    }
    var tid := req.ticketId.value;
    if tid !in db.tickets {
      return Fail(400, TicketNotFound);
    }
    var ticket := db.tickets[tid];
    if ticket.creator !in db.users {
      return Fail(400, UserNotFound);
    }
    var ticketCreator := db.users[ticket.creator];
    if ticketCreator.username == loggedInUser.username {
      ticket := ticket.(title := req.newTitle);
      ticket := ticket.(description := req.newDescription);
      ticket := ticket.(deadline := DateOf(req.newDeadline));
      ticket := ticket.(status := req.newStatus);
      db.tickets := db.tickets[tid := ticket];
      reply := Ok(Text(TicketUpdated));
    } else {
      return Fail(400, NotOwned);
    }
  }

  /**
   * With unique usernames the username comparison is an identity check: an
   * update succeeds only for the creator, and for the creator it succeeds once
   * the five fields are present.
   */
  lemma UpdateIsCreatorOnly(users: Users, tickets: Tickets, caller: UserId, req: TicketEdit)
    requires UniqueUsernames(users)
    ensures Update(users, tickets, caller, req).reply.Ok? ==> tickets[req.ticketId.value].creator == caller
    ensures (caller in users && !EditFieldMissing(req) && req.ticketId.value in tickets
             && tickets[req.ticketId.value].creator == caller) ==> Update(users, tickets, caller, req).reply.Ok?
    ensures (caller in users && !EditFieldMissing(req) && req.ticketId.value in tickets
             && tickets[req.ticketId.value].creator in users && tickets[req.ticketId.value].creator != caller)
              ==> Update(users, tickets, caller, req) == Step(Fail(400, NotOwned), tickets)
  {
  }

  // ---------------------------------------------------------------------------
  // GET /info
  // ---------------------------------------------------------------------------

  /** The reply of ticket info; the creator field is not modelled. */
  datatype TicketInfo = TicketInfo(
    title: string, description: string, assignees: seq<string>, status: string, deadline: Deadline)

  /** Ticket info: assignee usernames in stored order, assignees whose account is gone skipped. */
  method HandleInfo(db: Db, caller: UserId, ticketId: Option<TicketId>) returns (reply: Reply<TicketInfo>)
    ensures reply == Fail(400, UserNotFound) <==> caller !in db.users
    ensures reply == Fail(400, MissingFields) <==> caller in db.users && ticketId.None?
    ensures reply == Fail(400, TicketNotFound) <==>
              caller in db.users && ticketId.Some? && ticketId.value !in db.tickets
    ensures reply.Ok? <==> caller in db.users && ticketId.Some? && ticketId.value in db.tickets
    ensures reply.Ok? ==>
              var t := db.tickets[ticketId.value];
              reply.value == TicketInfo(t.title, t.description, UsernamesOf(db.users, t.assignees), t.status, t.deadline)
  {
    if caller !in db.users {
      return Fail(400, UserNotFound);
    }
    if ticketId.None? {
      return Fail(400, MissingFields);
    }
    if ticketId.value !in db.tickets {
      return Fail(400, TicketNotFound);
    }
    var ticket := db.tickets[ticketId.value];
    var assigneeUsernames := LookUpIds(db, ticket.assignees);
    reply := Ok(TicketInfo(ticket.title, ticket.description, assigneeUsernames, ticket.status, ticket.deadline));
  }
}

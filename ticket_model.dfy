/**
 * The `Tickets` collection. Every field is optional in the schema; the
 * creation date is not modelled. Nothing in a ticket refers to a project.
 */
module TicketModel {
  import opened UserModel

  /** A Mongo ObjectId of the `Tickets` collection. */
  type TicketId = nat

  /** The `Date` built from the request's deadline, kept opaque. */
  datatype Deadline = DateOf(input: string)

  datatype Ticket = Ticket(
    title: string,
    description: string,
    assignees: seq<UserId>,   // ordered references, duplicates not excluded
    creator: UserId,
    status: string,           // unconstrained string
    deadline: Deadline)

  type Tickets = map<TicketId, Ticket>
}

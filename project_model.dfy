/**
 * The `Projects` collection. Every field is optional in the schema; the
 * creation date is not modelled.
 */
module ProjectModel {
  import opened UserModel
  import opened TicketModel

  /** A Mongo ObjectId of the `Projects` collection. */
  type ProjectId = nat

  datatype Project = Project(
    title: string,
    description: string,
    owner: UserId,
    members: seq<UserId>,     // ordered references, duplicates not excluded
    tickets: seq<TicketId>)   // the `ticket` field: ordered ticket references

  type Projects = map<ProjectId, Project>
}

/**
 * What a route handler sends back. Every failure of the handlers below is
 * `res.status(code).json({ error })` or `.send({ error })`; every success is a
 * 200 with a JSON body whose shape depends on the route.
 */
module Http {
  datatype Reply<+T> = Ok(value: T) | Fail(status: nat, error: string)

  /** The `{ text }` and `{ message }` bodies of the plain acknowledgements. */
  datatype Notice = Text(text: string) | Message(message: string)

  /** A reply together with the collection the handler leaves behind. */
  datatype Step<+S, +T> = Step(reply: Reply<T>, state: S)

  // Messages shared by the three route files.
  const MissingFields := "Please enter all the fields -_-"
  const UserNotFound := "Can't find the user!"
}

/** What the resolvers and the context callback throw. */
module Errors {
  import opened Wrappers

  datatype Error =
      /** `new GraphQLError(message, { extensions: { code, http: { status } } })` */
    | GraphQLError(message: string, code: string, httpStatus: Option<nat>)
      /** `new Error("...")` with a literal message */
    | PlainError(message: string)
      /** what jsonwebtoken's `verify` throws, with the library's reason */
    | TokenError(reason: string)
      /** the TypeError of reading a property of `null` */
    | NullDereference
      /** what the document store throws (its text is not modelled) */
    | StoreError
      /**
       * `throw new Error(error)` in a resolver's catch block: a plain Error
       * whose message is the caught value's string form and which has no
       * extensions of its own
       */
    | Wrapped(cause: Error)

  const UNAUTHENTICATED := "UNAUTHENTICATED"

  /** The one error the context callback throws, whatever failed inside it. */
  const INVALID_TOKEN: Error := GraphQLError("Invalid token", UNAUTHENTICATED, Some(401))

  /** Thrown inside the context callback for `verified === false`, then replaced. */
  const NOT_VERIFIED_AUTHOR: Error := GraphQLError("Not verfied Author", UNAUTHENTICATED, Some(401))

  /** Thrown by the `authors` and `addReview` resolvers when there is no user. */
  const NOT_LOGGED_IN: Error := GraphQLError("you must be logged in to query this schema", UNAUTHENTICATED, None)

  /** The `extensions.code` the error carries when it reaches the server. */
  function Code(e: Error): (code: Option<string>)
    ensures code.Some? <==> e.GraphQLError?
    ensures e.GraphQLError? ==> code == Some(e.code)
  {
    match e
    case GraphQLError(_, c, _) => Some(c)
    case _ => None
  }
}

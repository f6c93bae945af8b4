/**
 * The two privileged resolvers, `authors` and `addReview`, as functions of
 * the request context and of the state they read. Each checks for a user
 * before touching any store, and each rethrows what it caught as a plain
 * `Error`.
 */
module Resolvers {
  import opened Wrappers
  import opened Records
  import opened Errors
  import opened TokenCodec
  import opened Gate

  /** `if (!context.user) throw ...`: the request's user, or the not-logged-in error. */
  function RequireUser(ctx: Context): (r: Result<Claims, Error>)
    ensures r.Success? <==> ctx.user.Some?
    ensures r.Success? ==> r.value == ctx.user.value
    ensures r.Failure? ==> r.error == NOT_LOGGED_IN && Code(r.error) == Some(UNAUTHENTICATED)
  {
    match ctx.user
    case None => Failure(NOT_LOGGED_IN)
    case Some(claims) => Success(claims)
  }

  /**
   * The `authors` query: the whole author collection for a logged-in
   * request, and otherwise the rethrown not-logged-in error, which no longer
   * carries the `UNAUTHENTICATED` code.
   */
  function ListAuthors(ctx: Context, directory: map<Id, Author>): (r: Result<map<Id, Author>, Error>)
    ensures r.Success? <==> ctx.user.Some?
    ensures r.Success? ==> r.value == directory
    ensures r.Failure? ==> r.error == Wrapped(NOT_LOGGED_IN) && Code(r.error) == None
  {
    match RequireUser(ctx)
    case Failure(e) => Failure(Wrapped(e))
    case Success(_) => Success(directory)
  }

  /** An anonymous `authors` query fails without depending on the collection at all. */
  lemma AnonymousListingReadsNothing(ctx: Context, directory: map<Id, Author>, other: map<Id, Author>)
    requires ctx.user.None?
    ensures ListAuthors(ctx, directory) == ListAuthors(ctx, other) == Failure(Wrapped(NOT_LOGGED_IN))
  {
  }

  /**
   * `client.get("token")` followed by `jwt.verify`: the author the shared
   * cache slot names. An empty slot reads as `null`, which `verify` rejects.
   */
  function CachedAuthor(slot: Option<Token>, codec: Codec): (r: Result<Id, Error>)
    ensures slot.None? ==> r == Failure(TokenError(MISSING_TOKEN))
    ensures slot.Some? ==> (r.Success? <==> codec.verify(slot.value).Success?)
    ensures r.Success? ==> slot.Some? && r.value == codec.verify(slot.value).value.authorId
  {
    match slot
    case None => Failure(TokenError(MISSING_TOKEN))
    case Some(token) =>
      match codec.verify(token)
      case Failure(reason) => Failure(TokenError(reason))
      case Success(claims) => Success(claims.authorId)
  }

  /**
   * The `addReview` mutation: after the user check it stamps the review with
   * the author named by the cache slot, overwriting the input's `author_id`,
   * and stores it under the next id.
   */
  function ReviewOutcome(ctx: Context, input: ReviewInput, slot: Option<Token>, codec: Codec, id: Id)
    : (r: Result<Review, Error>)
    ensures ctx.user.None? ==> r == Failure(Wrapped(NOT_LOGGED_IN))
    ensures r.Success? <==> ctx.user.Some? && CachedAuthor(slot, codec).Success?
    ensures r.Success? ==> r.value == CreatedReview(id, input.(authorId := CachedAuthor(slot, codec).value))
    ensures r.Failure? ==> r.error.Wrapped? && Code(r.error) == None
  {
    match RequireUser(ctx)
    case Failure(e) => Failure(Wrapped(e))
    case Success(_) =>
      match CachedAuthor(slot, codec)
      case Failure(e) => Failure(Wrapped(e))
      case Success(authorId) => Success(CreatedReview(id, input.(authorId := authorId)))
  }

  /**
   * The attribution hazard: when the slot holds the token minted for `owner`,
   * every logged-in review is attributed to `owner`, whoever the request's
   * user is and whatever `author_id` the input names.
   */
  lemma ReviewAttributedToSlotOwner(ctx: Context, input: ReviewInput, codec: Codec, owner: Id, id: Id)
    requires WellFormed(codec)
    requires ctx.user.Some?
    ensures var r := ReviewOutcome(ctx, input, Some(codec.sign(Claims(owner))), codec, id);
      && r.Success?
      && r.value.authorId == owner
      && r.value == Review(id, input.rating, input.content, owner, input.gameId)
  {
  }

  /**
   * Two logged-in requests whose inputs differ only in `author_id` produce
   * the same review: neither the requester nor the input decides authorship.
   */
  lemma ReviewIgnoresRequester(ctx: Context, other: Context, input: ReviewInput, claimed: Id,
                               slot: Option<Token>, codec: Codec, id: Id)
    requires ctx.user.Some? && other.user.Some?
    ensures ReviewOutcome(ctx, input, slot, codec, id) == ReviewOutcome(other, input.(authorId := claimed), slot, codec, id)
  {
  }
}

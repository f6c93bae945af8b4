/**
 * Whole requests in sequence: each one passes through the context callback
 * first and only then reaches a resolver.
 */
module Scenarios {
  import opened Wrappers
  import opened Records
  import opened Errors
  import opened TokenCodec
  import opened Gate
  import opened Resolvers
  import opened Service

  /** An `authors` query carrying `header`: the callback's rejection, or the resolver's answer. */
  function ListAuthorsRequest(header: Option<string>, codec: Codec, directory: map<Id, Author>)
    : (r: Result<map<Id, Author>, Error>)
    ensures r.Success? ==> r.value == directory
    ensures r.Success? <==> TokenOf(header) != "" && ContextFor(header, codec, directory).Success?
  {
    match ContextFor(header, codec, directory)
    case Failure(e) => Failure(e)
    case Success(ctx) => ListAuthors(ctx, directory)
  }

  /**
   * An author is created on a fresh server and the token it is handed is
   * presented to `authors`: the listing is the directory holding that author
   * exactly when the author was created verified, and otherwise the request
   * is rejected as `Invalid token` although the token is validly signed.
   * Without the header, or with a token that does not verify, the request
   * fails as well.
   */
  method MintedTokenListsAuthors(codec: Codec, input: AuthorInput, hashed: string, forged: Token)
    returns (author: Author, listing: Result<map<Id, Author>, Error>,
             anonymous: Result<map<Id, Author>, Error>, garbled: Result<map<Id, Author>, Error>)
    requires WellFormed(codec)
    requires forged != "" && codec.verify(forged).Failure?
    ensures listing.Success? <==> input.verified
    ensures input.verified ==> listing == Success(map[author.id := author])
    ensures !input.verified ==> listing == Failure(INVALID_TOKEN)
    ensures anonymous == Failure(Wrapped(NOT_LOGGED_IN))
    ensures garbled == Failure(INVALID_TOKEN)
  {
    var server := new Server(codec, map[], [], None, 0);
    var created := server.AddAuthor(input, hashed);
    author := created.author;
    listing := ListAuthorsRequest(Some(created.token), codec, server.authors);
    anonymous := ListAuthorsRequest(None, codec, server.authors);
    garbled := ListAuthorsRequest(Some(forged), codec, server.authors);
  }

  /**
   * Authors A (verified) and then B are created. A request that
   * authenticates as A submits a review naming A; the review is stored
   * under B, the owner of the shared slot, even when B was created
   * unverified and B's own token is rejected by the callback.
   */
  method SharedSlotMisattributes(codec: Codec, a: AuthorInput, hashedA: string,
                                 b: AuthorInput, hashedB: string, input: ReviewInput)
    returns (idA: Id, idB: Id, gate: Result<Context, Error>, gateB: Result<Context, Error>,
             review: Result<Review, Error>)
    requires WellFormed(codec)
    requires a.verified
    ensures idA != idB
    ensures gate == Success(Context(Some(Claims(idA))))
    ensures gateB.Success? <==> b.verified
    ensures !b.verified ==> gateB == Failure(INVALID_TOKEN)
    ensures review.Success? && review.value.authorId == idB
    ensures review.value == Review(review.value.id, input.rating, input.content, idB, input.gameId)
  {
    var server := new Server(codec, map[], [], None, 0);
    var createdA := server.AddAuthor(a, hashedA);
    var createdB := server.AddAuthor(b, hashedB);
    idA, idB := createdA.author.id, createdB.author.id;
    gate := ContextFor(Some(createdA.token), codec, server.authors);
    gateB := ContextFor(Some(createdB.token), codec, server.authors);
    review := server.AddReview(gate.value, input.(authorId := idA));
  }
}

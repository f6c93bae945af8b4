/**
 * The server's mutable state and the two mutations that change it:
 * `addAuthor`, which mints a token and parks it in the one shared cache
 * slot, and `addReview`, which reads that slot back to decide authorship.
 */
module Service {
  import opened Wrappers
  import opened Records
  import opened Errors
  import opened TokenCodec
  import opened Gate
  import opened Resolvers

  class Server {
    /** jsonwebtoken under the process-wide `secretKey`. */
    const codec: Codec
    /** The author collection, by `_id`. */
    var authors: map<Id, Author>
    /** The review collection, in insertion order. */
    var reviews: seq<Review>
    /** The cache entry under the fixed key `"token"`. */
    var slot: Option<Token>
    /** The next `_id` the document store hands out. */
    var nextId: nat

    /** Every stored document's id was handed out already, and authors sit under their own id. */
    ghost predicate Valid()
      reads this
    {
      && (forall id :: id in authors ==> id < nextId && authors[id].id == id)
      && (forall i :: 0 <= i < |reviews| ==> reviews[i].id < nextId)
    }

    /** The server as it finds the store and the cache when it starts. */
    constructor (codec: Codec, authors: map<Id, Author>, reviews: seq<Review>, slot: Option<Token>, nextId: nat)
      requires forall id :: id in authors ==> id < nextId && authors[id].id == id
      requires forall i :: 0 <= i < |reviews| ==> reviews[i].id < nextId
      ensures Valid()
      ensures this.codec == codec && this.authors == authors && this.reviews == reviews
      ensures this.slot == slot && this.nextId == nextId
    {
      this.codec := codec;
      this.authors := authors;
      this.reviews := reviews;
      this.slot := slot;
      this.nextId := nextId;
    }

    /**
     * `addAuthor`: store the author with the hashed password (`hashed` is
     * what bcrypt produced for the input's password), sign a token for the
     * new id and overwrite the shared slot with it, so the last author
     * created owns the slot.
     */
    method AddAuthor(input: AuthorInput, hashed: string) returns (r: AuthWithToken)
      requires Valid()
      modifies this
      ensures Valid()
      ensures r.author.id !in old(authors)
      ensures r.author == Author(r.author.id, input.name, Some(input.verified), hashed)
      ensures authors == old(authors)[r.author.id := r.author]
      ensures r.token == codec.sign(Claims(r.author.id))
      ensures slot == Some(r.token)
      ensures reviews == old(reviews)
    {
      var author := Author(nextId, input.name, Some(input.verified), hashed);
      nextId := nextId + 1;
      authors := authors[author.id := author];
      var token := codec.sign(Claims(author.id));
      slot := Some(token);
      r := AuthWithToken(author, token);
    }

    /**
     * `addReview`: reject an anonymous request before touching anything;
     * otherwise verify the token in the shared slot and store the review
     * under that token's author, whatever the input's `author_id` was.
     */
    method AddReview(ctx: Context, input: ReviewInput) returns (r: Result<Review, Error>)
      requires Valid()
      modifies this
      ensures Valid()
      ensures r == ReviewOutcome(ctx, input, old(slot), codec, old(nextId))
      ensures r.Success? ==> reviews == old(reviews) + [r.value] && nextId == old(nextId) + 1
      ensures r.Failure? ==> reviews == old(reviews) && nextId == old(nextId)
      ensures authors == old(authors) && slot == old(slot)
    {
      r := ReviewOutcome(ctx, input, slot, codec, nextId);
      if r.Success? {
        nextId := nextId + 1;
        reviews := reviews + [r.value];
      }
    }
  }
}

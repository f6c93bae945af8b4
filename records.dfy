/**
 * The documents of the three collections (authors, reviews, games), the
 * GraphQL inputs that create them, and the claims carried by a session token.
 */
module Records {
  import opened Wrappers

  /** A document `_id`. ObjectIds are modelled as naturals handed out in order. */
  type Id = nat

  /** A signed session token, as the string that travels in the `authorization` header. */
  type Token = string

  /** The payload signed into a token: `{ authorId: author._id }`. */
  datatype Claims = Claims(authorId: Id)

  /**
   * An author document. `verified` is optional because the document schema
   * does not require it: only an explicit `false` counts as unverified.
   * `password` holds the bcrypt hash, never the plaintext.
   */
  datatype Author = Author(id: Id, name: string, verified: Option<bool>, password: string)

  /** `AddAuthorInput`: every field is mandatory in the GraphQL schema. */
  datatype AuthorInput = AuthorInput(name: string, verified: bool, password: string)

  /** `AuthWithToken`, the result of `addAuthor`. */
  datatype AuthWithToken = AuthWithToken(author: Author, token: Token)

  /** `AddReviewInput`; `game_id` is stored as the string given, `author_id` is overwritten before storing. */
  datatype ReviewInput = ReviewInput(rating: int, content: string, authorId: Id, gameId: string)

  /** A review document. */
  datatype Review = Review(id: Id, rating: int, content: string, authorId: Id, gameId: string)

  /** A game document. */
  datatype Game = Game(id: Id, title: string, platform: seq<string>)

  /** The document `ReviewModel.create(input)` stores under `id`. */
  function CreatedReview(id: Id, input: ReviewInput): Review {
    Review(id, input.rating, input.content, input.authorId, input.gameId)
  }
}

# Authentication and authorization path of the GameZone GraphQL server

This project models the part of the GameZone GraphQL server (`index.js`) that decides who a request is and what it may do:

- the per-request `context` callback, which turns the `authorization` header into `{ user }` or rejects the request as `Invalid token`;
- the user check at the top of the `authors` query and the `addReview` mutation;
- `addAuthor`, which signs a token for the new author and overwrites the one shared Redis entry `"token"` with it;
- `addReview`, which reads that shared entry back, verifies it and stamps the review with *its* author;
- the arithmetic of the `gamePagination` query.

jsonwebtoken's `sign`/`verify` are an abstract `Codec` (module `TokenCodec`). The only facts the proofs use about it are collected in `WellFormed`: a signed token is non-empty and verifies back to its claims. The author and review collections are a map and a sequence. The Redis entry is an `Option<Token>` field. Mongo `_id`s are naturals handed out by a counter. All of these are fields of the `Service.Server` class. The mutations are methods on it. `AddAuthor`'s contract states its result and new state directly. `AddReview`'s contract ties its result to `Resolvers.ReviewOutcome`.

Errors follow the code. Inside the callback, every failure becomes the one `GraphQLError("Invalid token")` with code `UNAUTHENTICATED` and status 401. This covers a token that does not verify, the `TypeError` of reading `.verified` of a missing author, and the inner `Not verfied Author` error. The resolvers end in `throw new Error(error)`, which is modelled as `Wrapped(cause)`. It keeps the caught error's text but not its `extensions`. So the "must be logged in" rejection from `authors` and `addReview` reaches the client without the `UNAUTHENTICATED` code (`Errors.Code`), and the pagination error reaches it as a plain error. The document store is taken to reject a negative skip, which is what a page number below one produces.

Points where the code's behaviour is easy to misread; the model follows the code:
- A token signed without `expiresIn` never expires, so there is no expired case.
- Only an explicit `verified: false` rejects. A record without the field is admitted.
- A validly signed token of an unverified author is rejected by the callback as `Invalid token`. An absent header is not rejected there; it fails later in the resolver with the wrapped "must be logged in" error. The two rejections are not the same error.
- The cache is not advisory for reviews: review authorship comes from the cache slot (`Resolvers.ReviewAttributedToSlotOwner`, `Scenarios.SharedSlotMisattributes`).

## Model

| member | source | states |
|---|---|---|
| `Errors.Code` | index.js:62-64 | only a GraphQLError carries an `extensions.code`; an error rethrown with `new Error(error)` carries none |
| `Gate.Authenticate` | index.js:257-269 | for a non-empty token: a failing `verify` throws the library's error; a missing author throws the null dereference; `verified: false` throws `Not verfied Author`; it succeeds exactly when the token verifies and the author is present and not `verified: false`, and then yields the decoded claims |
| `Gate.ContextFor` | index.js:249-280 | an absent or empty header gives `user = null` and never fails; every failure is the single `Invalid token` (`UNAUTHENTICATED`, 401); a header that does not verify, or whose author is missing or `verified: false`, is rejected; otherwise `user` is the decoded claims; `user` is null exactly when the header is empty |
| `Gate.MintedTokenAuthenticates` | index.js:258-263 | a token signed for an author whose record is present and not `verified: false` passes the callback with `user.authorId` equal to that author |
| `Gate.UnadmittedTokenRejected` | index.js:261-277 | a validly signed token whose author is missing or `verified: false` is rejected with exactly the error a forged token gets |
| `Resolvers.RequireUser` | index.js:56-60 | succeeds exactly when the context has a user, and then yields it; otherwise the "must be logged in" GraphQLError with code `UNAUTHENTICATED` |
| `Resolvers.ListAuthors` | index.js:53-65 | `authors` returns the whole author collection exactly when the context has a user; otherwise the wrapped "must be logged in" error, which has no code |
| `Resolvers.AnonymousListingReadsNothing` | index.js:56-61 | an anonymous `authors` query fails the same way whatever the collection holds, so it is decided before any store access |
| `Resolvers.CachedAuthor` | index.js:223-224 | an empty slot fails with `jwt must be provided`; a filled slot succeeds exactly when its token verifies, and yields that token's `authorId` |
| `Resolvers.ReviewOutcome` | index.js:216-231 | an anonymous `addReview` fails with the wrapped "must be logged in" error; it succeeds exactly when there is a user and the cached token verifies, and then the review is the input with `author_id` replaced by the cached token's author; every failure is a wrapped error without a code |
| `Resolvers.ReviewAttributedToSlotOwner` | index.js:223-226 | when the slot holds the token signed for `owner`, every logged-in review succeeds and is attributed to `owner`, whoever the requester is and whatever `author_id` the input names |
| `Resolvers.ReviewIgnoresRequester` | index.js:218-226 | two logged-in requests whose inputs differ only in `author_id` produce the same review |
| `Pagination.TotalPages` | index.js:89-91 | the page count is the ceiling of the game count over two: the least number of two-game pages that hold every game |
| `Pagination.GamePagination` | index.js:87-98 | fails with "More Data Not exist" exactly when `pageNo` exceeds the page count; a page number below one passes that check and fails in the store on its negative skip; it succeeds exactly for pages one to the last, and then returns the games from offset `(pageNo-1)*2` onwards, two of them or as many as are left, never none |
| `Pagination.PagesFromIsSuffix` | index.js:93-94 | the pages from `from` to the last, read in order, are exactly the games from page `from`'s offset on |
| `Pagination.PagesCoverGames` | index.js:89-94 | pages one to the last, read in order, are the whole collection, so every game is on exactly one page |
| `Service.Server.constructor` | index.js:17-21 | the server starts from whatever the collections and the cache slot hold, with every stored id already handed out |
| `Service.Server.AddAuthor` | index.js:156-163 | the new author gets a fresh id and is stored with the input's name, `verified` flag and the hashed password; the returned token is the one signed for the new id; the slot now holds that token (last write wins); reviews are unchanged |
| `Service.Server.AddReview` | index.js:216-231 | the result is `ReviewOutcome` for the slot as it was; on success the review is appended and the next id is used; on failure nothing changes; authors and the slot never change |
| `Scenarios.ListAuthorsRequest` | index.js:249-280 | an `authors` request succeeds exactly when its header is non-empty and passes the callback, and then returns the whole collection |
| `Scenarios.MintedTokenListsAuthors` | index.js:156-163 | on a fresh server, the token `addAuthor` returns lists the authors exactly when the author was created verified; an unverified author's valid token gets `Invalid token`; an absent header gets the wrapped "must be logged in" error; a token that does not verify gets `Invalid token` |
| `Scenarios.SharedSlotMisattributes` | index.js:223-226 | after a verified author A and then an author B are created, a request authenticated as A that names A in its input stores a review attributed to B; this holds even when B was created unverified and B's own token is rejected as `Invalid token` |

## Left out

- Connection lifecycle of the Redis client is not modelled. This covers `createClient`, `connect`, the event handlers, and the `disconnect` at index.js:169. In the code, that disconnect happens inside the first `addAuthor`, so later cache reads and writes would fail. The model keeps the slot readable and writable throughout.
- `Service.Server.AddAuthor` and `Scenarios.SharedSlotMisattributes` assume the cache connection stays open. In the code, the first `addAuthor` of a process run calls `client.disconnect()` (index.js:169). After that, every later `addAuthor` in the same run stores the author (index.js:157) and then fails with a wrapped error, because its awaited `client.get` (index.js:166) rejects. Its un-awaited `set` (index.js:163) never reaches the cache, and that `set`'s rejection is unhandled. Every later `addReview` in the same run fails at its own `client.get` (index.js:223). So the misattribution of `Scenarios.SharedSlotMisattributes` happens in the code only under three conditions. A and B must each be the first author created in their process run. The review must come in a later run, before any `addAuthor` in that run. The Redis entry must still hold B's token (within ten minutes, if the requested expiry takes effect).
- The slot is modelled as overwrite-only. The ten-minute expiry requested with `"EX", 600` is not modelled. The `set` is not awaited, and the model treats it as done before the next request.
- Requests are modelled as a sequential trace. There is no concurrency between requests.
- The read-back `client.get("token")` in `addAuthor` (index.js:166-167) is not modelled. On an open connection its value is only logged. On a closed connection it rejects; see the `Service.Server.AddAuthor` line above.
- bcrypt is not modelled, because its salt is random. `Service.Server.AddAuthor` takes the hash as a parameter. A hashing failure is not modelled.
- Nodemailer email sending (index.js:173-197) is not modelled. It is I/O with a fire-and-forget callback.
- Document store failures in `save`, `find`, `findOne` and `create` are not modelled. A `findOne` failure in the callback (index.js:261) would become `Invalid token`, like every other failure there. These include validation and connection errors. The only exception is the negative skip in `gamePagination`.
- A non-ObjectId `authorId` in a token is not modelled, because ids are naturals. In the code it makes `findOne` throw a cast error, which the callback also turns into `Invalid token`. The input's `author_id` (a `String!`) is also typed as an id; it is overwritten before the review is stored, so its value never reaches the store. The input's `game_id` is kept as the string given.
- The claims are only `authorId`. jsonwebtoken's `iat` field is not modelled, and neither is a payload without `authorId`.
- The plain CRUD resolvers are not modelled: `games`, `reviews`, `review`, `game`, `author`, `addGame`, `deleteGame`, `updateGame` and the field resolvers. They pass through to the document store.
- `Resolvers.ListAuthors` returns the author collection as a map by id. `AuthorModel.find()` returns an array in store order, and that order is not modelled.
- `gameByTitle` is not modelled. It depends on the JavaScript regular-expression engine.
- Server setup outside the context callback is not modelled.
- The string form of a wrapped error is not modelled. `Wrapped(cause)` records the cause instead of the message text.
- `Pagination.GamePagination`: the 32-bit range of the `Int!` argument is not modelled, because GraphQL rejects out-of-range values before the resolver runs.

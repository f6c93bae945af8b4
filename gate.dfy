/**
 * The per-request `context` callback: it turns the `authorization` header
 * into `{ user }` or rejects the whole request.
 */
module Gate {
  import opened Wrappers
  import opened Records
  import opened Errors
  import opened TokenCodec

  /** The value the callback returns, `{ user }`; `user` is `null` for anonymous requests. */
  datatype Context = Context(user: Option<Claims>)

  /** `req.headers.authorization || ''`: an absent header reads as the empty string. */
  function TokenOf(header: Option<string>): string {
    header.GetOr("")
  }

  /** An author record lets its token through unless it is missing or says `verified: false`. */
  predicate Admits(directory: map<Id, Author>, id: Id) {
    id in directory && directory[id].verified != Some(false)
  }

  /**
   * The body of the `try` for a non-empty token: verify it, look up its
   * author, and throw when the record is `null` (reading `.verified` of it)
   * or says `verified === false`.
   */
  function Authenticate(token: Token, codec: Codec, directory: map<Id, Author>): (r: Result<Claims, Error>)
    ensures codec.verify(token).Failure? ==> r == Failure(TokenError(codec.verify(token).error))
    ensures codec.verify(token).Success? ==>
      var claims := codec.verify(token).value;
      && (claims.authorId !in directory ==> r == Failure(NullDereference))
      && (claims.authorId in directory && directory[claims.authorId].verified == Some(false) ==>
            r == Failure(NOT_VERIFIED_AUTHOR))
    ensures r.Success? <==> codec.verify(token).Success? && Admits(directory, codec.verify(token).value.authorId)
    ensures r.Success? ==> r.value == codec.verify(token).value
  {
    match codec.verify(token)
    case Failure(reason) => Failure(TokenError(reason))
    case Success(claims) =>
      if claims.authorId !in directory then Failure(NullDereference)
      else if directory[claims.authorId].verified == Some(false) then Failure(NOT_VERIFIED_AUTHOR)
      else Success(claims)
  }

  /**
   * The callback as a whole. An empty header is anonymous and never an
   * error; any failure inside the `try` becomes the same `Invalid token`
   * rejection; otherwise `user` is the verified claims.
   */
  function ContextFor(header: Option<string>, codec: Codec, directory: map<Id, Author>): (r: Result<Context, Error>)
    ensures TokenOf(header) == "" ==> r == Success(Context(None))
    ensures r.Failure? ==> r.error == INVALID_TOKEN
    ensures TokenOf(header) != "" && codec.verify(TokenOf(header)).Failure? ==> r == Failure(INVALID_TOKEN)
    ensures TokenOf(header) != "" && codec.verify(TokenOf(header)).Success? ==>
      var claims := codec.verify(TokenOf(header)).value;
      && (!Admits(directory, claims.authorId) ==> r == Failure(INVALID_TOKEN))
      && (Admits(directory, claims.authorId) ==> r == Success(Context(Some(claims))))
    ensures r.Success? && r.value.user.None? <==> TokenOf(header) == ""
  {
    var token := TokenOf(header);
    if token == "" then
      Success(Context(None))
    else
      match Authenticate(token, codec, directory)
      case Success(claims) => Success(Context(Some(claims)))
      case Failure(_) => Failure(INVALID_TOKEN)
  }

  /**
   * A token minted for an author whose record admits it passes the gate,
   * and the request's user is that author.
   */
  lemma MintedTokenAuthenticates(codec: Codec, directory: map<Id, Author>, id: Id)
    requires WellFormed(codec)
    requires Admits(directory, id)
    ensures ContextFor(Some(codec.sign(Claims(id))), codec, directory) == Success(Context(Some(Claims(id))))
  {
  }

  /**
   * A validly signed token is still rejected, exactly like a forged one,
   * when its author record is missing or says `verified: false`.
   */
  lemma UnadmittedTokenRejected(codec: Codec, directory: map<Id, Author>, id: Id, forged: Token)
    requires WellFormed(codec)
    requires !Admits(directory, id)
    requires forged != "" && codec.verify(forged).Failure?
    ensures ContextFor(Some(codec.sign(Claims(id))), codec, directory) == Failure(INVALID_TOKEN)
    ensures ContextFor(Some(codec.sign(Claims(id))), codec, directory) == ContextFor(Some(forged), codec, directory)
  {
  }
}

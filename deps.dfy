/** app/api/deps.py: resolving the bearer token of a protected request to the
    seller it names. */
module Deps {
  import opened Outcomes
  import opened Models
  import opened Security
  import opened Crud

  const CredentialsException := HttpError(Unauthorized, CouldNotValidate)
  const UserNotFound := HttpError(NotFound, "User not found")
  const SqlFailed := HttpError(InternalServerError, "SQL failed")

  /** `_get_current_user`. `step` is how decoding the token ended and
      `storeFails` whether the session lookup raised a `SQLAlchemyError`.
      An HTTP error raised while decoding passes through untouched, a raw
      `InvalidTokenError` becomes 401, a subject that is not a UUID escapes
      as an unhandled error; only then is the store read: a store error is
      500, an unknown id 404, and a known id gives its seller. */
  function GetCurrentUser(sellers: seq<Seller>, step: DecodeStep, storeFails: bool): (r: Result<Seller>)
    ensures r.Ok? ==> step == Payload(Some(r.value.id)) && !storeFails && r.value in sellers
    ensures step.Payload? && step.sub.Some? && !storeFails ==>
              (r.Ok? <==> exists k :: 0 <= k < |sellers| && sellers[k].id == step.sub.value)
    ensures step.Payload? && step.sub.Some? && !storeFails && r.Err? ==> r.error == UserNotFound
    ensures step.Payload? && step.sub.Some? && storeFails ==> r == Err(SqlFailed)
    ensures step == InvalidTokenRaised ==> r == Err(CredentialsException)
    ensures step.Raised? ==> r == Err(step.error)
    ensures step == Payload(None) ==> r == Err(UnhandledError)
  {
    match step
    case Raised(e) => Err(e)
    case InvalidTokenRaised => Err(CredentialsException)
    case Payload(None) => Err(UnhandledError)
    case Payload(Some(id)) =>
      if storeFails then Err(SqlFailed)
      else match GetSeller(sellers, id)
        case None => Err(UserNotFound)
        case Some(user) => Ok(user)
  }

  /** Through `decode_access_token`, a token that does not decode is always
      a 403: the 401 branch cannot be reached that way, and the store is not
      read (its contents and its failures make no difference). */
  lemma BadTokenIsForbiddenNotUnauthorized(sellers: seq<Seller>, storeFails: bool, j: JwtDecode,
                                           otherSellers: seq<Seller>, otherFails: bool)
    ensures var r := GetCurrentUser(sellers, DecodeAccessToken(j), storeFails);
      r.Err? ==> r.error.status != Unauthorized
    ensures j.Failed? ==>
      && GetCurrentUser(sellers, DecodeAccessToken(j), storeFails) == Err(HttpError(Forbidden, CouldNotValidate))
      && GetCurrentUser(otherSellers, DecodeAccessToken(j), otherFails) == Err(HttpError(Forbidden, CouldNotValidate))
  {
  }

  /** A token that decodes to the id of a stored seller resolves to exactly
      that seller. */
  lemma TokenResolvesToItsSeller(sellers: seq<Seller>, s: Seller)
    requires UniqueSellerIds(sellers) && s in sellers
    ensures GetCurrentUser(sellers, DecodeAccessToken(Verified(Some(s.id))), false) == Ok(s)
  {
    GetStoredSeller(sellers, s);
  }

  /** Logging in and then presenting the token issued for the seller found
      (its subject is that seller's id) gives back the same seller, as long
      as the token still decodes. */
  lemma LoginThenMe(sellers: seq<Seller>, h: Hasher, phoneNumber: Option<string>,
                    email: Option<string>, password: string)
    requires UniqueSellerIds(sellers)
    requires Authenticate(sellers, h, phoneNumber, email, password).Some?
    ensures var s := Authenticate(sellers, h, phoneNumber, email, password).value;
      GetCurrentUser(sellers, DecodeAccessToken(Verified(Some(s.id))), false) == Ok(s)
  {
    TokenResolvesToItsSeller(sellers, Authenticate(sellers, h, phoneNumber, email, password).value);
  }
}

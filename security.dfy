/** The two library calls the handlers rely on, as values the caller supplies:
    password hashing (passlib's bcrypt context) and access-token decoding
    (PyJWT with the server's secret and algorithm). */
module Security {
  import opened Outcomes
  import opened Models

  /** `get_password_hash` and `verify_password`. bcrypt draws a fresh salt on
      every call; the salt is an explicit argument here. */
  datatype Hasher = Hasher(hash: (nat, string) -> string, verify: (string, string) -> bool)

  /** The one property of bcrypt the handlers depend on: a password verifies
      against any hash made from it. */
  ghost predicate Sound(h: Hasher) {
    forall salt, p :: h.verify(p, h.hash(salt, p))
  }

  /** What `jwt.decode(token, SECRET_KEY, algorithms=[ALGORITHM])` gave: the
      token's subject when the signature and expiry check out, parsed as
      `UUID(payload.get("sub"))` (`None` when the claim is absent or is not a
      UUID), or a failure of any kind (bad signature, expired, malformed). */
  datatype JwtDecode = Verified(sub: Option<Id>) | Failed

  /** How the token step of a request ended: with a subject, with an
      `HTTPException`, or with a raw `InvalidTokenError`. */
  datatype DecodeStep = Payload(sub: Option<Id>) | Raised(error: HttpError) | InvalidTokenRaised

  const CouldNotValidate := "Could not validate credentials"

  /** `decode_access_token`: every decode failure becomes an HTTP 403; nothing
      else leaves it. */
  function DecodeAccessToken(j: JwtDecode): (r: DecodeStep)
    ensures r != InvalidTokenRaised
    ensures r.Raised? <==> j.Failed?
    ensures r.Raised? ==> r.error == HttpError(Forbidden, CouldNotValidate)
    ensures j.Verified? ==> r == Payload(j.sub)
  {
    match j
    case Verified(sub) => Payload(sub)
    case Failed => Raised(HttpError(Forbidden, CouldNotValidate))
  }
}

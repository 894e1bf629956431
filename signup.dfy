/** app/api/routers/signup.py: the two unauthenticated routes, signing a
    seller up and looking an invoice up by id. */
module Signup {
  import opened Outcomes
  import opened Models
  import opened Security
  import opened Crud

  const PhoneTaken := HttpError(BadRequest, "The user with this Phone Number already exists in the system.")
  const EmailTaken := HttpError(BadRequest, "The user with this email already exists in the system.")

  /** The two uniqueness checks of `signup_user`, phone number first. The
      email check compares the sent email (null when left out) with the
      stored ones. */
  function SignupCheck(sellers: seq<Seller>, input: SellerInput): (r: Option<HttpError>)
    ensures (exists k :: 0 <= k < |sellers| && sellers[k].phoneNumber == input.details.phoneNumber)
            ==> r == Some(PhoneTaken)
    ensures (forall k :: 0 <= k < |sellers| ==> sellers[k].phoneNumber != input.details.phoneNumber)
            && (exists k :: 0 <= k < |sellers| && sellers[k].email == EmailOf(input.details))
            ==> r == Some(EmailTaken)
    ensures r.None? <==> forall k :: 0 <= k < |sellers| ==>
              sellers[k].phoneNumber != input.details.phoneNumber && sellers[k].email != EmailOf(input.details)
  {
    if GetUserByPhoneNumber(sellers, input.details.phoneNumber).Some? then Some(PhoneTaken)
    else if GetUserByEmail(sellers, EmailOf(input.details)).Some? then Some(EmailTaken)
    else None
  }

  /** `signup_user`: a rejected signup leaves the store as it was; an accepted
      one adds exactly one seller, with the password hashed. `id` and `salt`
      are what uuid4 and bcrypt draw. */
  method SignupUser(db: Database, input: SellerInput, id: Id, h: Hasher, salt: nat) returns (r: Result<Seller>)
    requires db.Valid()
    requires forall k :: 0 <= k < |db.sellers| ==> db.sellers[k].id != id
    modifies db
    ensures db.Valid()
    ensures db.products == old(db.products) && db.invoices == old(db.invoices)
    ensures SignupCheck(old(db.sellers), input).Some? ==>
              r == Err(SignupCheck(old(db.sellers), input).value) && db.sellers == old(db.sellers)
    ensures SignupCheck(old(db.sellers), input).None? ==>
              && r == Ok(NewSeller(input, id, h.hash(salt, input.password)))
              && db.sellers == old(db.sellers) + [r.value]
  {
    var rejected := SignupCheck(db.sellers, input);
    if rejected.Some? {
      return Err(rejected.value);
    }
    var seller := db.CreateSeller(input, id, h, salt);
    r := Ok(seller);
  }

  /** Signing up a second time with a phone number already used always
      fails, whatever the other fields of either request are. */
  lemma SamePhoneTwiceIsRejected(sellers: seq<Seller>, first: SellerInput, second: SellerInput,
                                 id: Id, storedPassword: string)
    requires second.details.phoneNumber == first.details.phoneNumber
    ensures SignupCheck(sellers + [NewSeller(first, id, storedPassword)], second) == Some(PhoneTaken)
  {
    var after := sellers + [NewSeller(first, id, storedPassword)];
    assert after[|sellers|].phoneNumber == second.details.phoneNumber;
  }

  /** The email check matches a missing email against sellers stored without
      one, so once one seller has signed up without an email, any other
      signup without an email (and with a new phone number) is refused. */
  lemma SecondSignupWithoutEmailIsRejected(sellers: seq<Seller>, input: SellerInput, k: nat)
    requires k < |sellers| && sellers[k].email.None?
    requires input.details.email.Unset?
    requires forall i :: 0 <= i < |sellers| ==> sellers[i].phoneNumber != input.details.phoneNumber
    ensures SignupCheck(sellers, input) == Some(EmailTaken)
  {
  }

  /** Once a signup is accepted, logging in with its phone number and
      password finds the new seller. */
  lemma SignupThenLogin(sellers: seq<Seller>, input: SellerInput, id: Id, h: Hasher, salt: nat,
                        email: Option<string>)
    requires Sound(h)
    requires SignupCheck(sellers, input).None?
    requires input.details.phoneNumber != ""
    ensures var seller := NewSeller(input, id, h.hash(salt, input.password));
      Authenticate(sellers + [seller], h, Some(input.details.phoneNumber), email, input.password) == Some(seller)
  {
    var seller := NewSeller(input, id, h.hash(salt, input.password));
    var after := sellers + [seller];
    var found := GetUserByPhoneNumber(after, input.details.phoneNumber);
    assert after[|sellers|] == seller;
    assert found.Some?;
    assert found.value in sellers || found.value == seller;
    assert found.value == seller;
  }

  /** `get_invoice`: the invoice with that id for any caller, with no
      authentication and no ownership check. `id` is the query string as
      `UUID(...)` parsed it (`None` when it is not a UUID, which raises);
      an unknown id yields `None`, which the response model refuses, so
      both end as server errors rather than a 404. */
  function GetInvoice(invoices: seq<Invoice>, id: Option<Id>): (r: Result<Invoice>)
    ensures r.Ok? ==> id == Some(r.value.id) && r.value in invoices
    ensures r.Ok? <==> id.Some? && exists k :: 0 <= k < |invoices| && invoices[k].id == id.value
    ensures r.Err? ==> r.error == UnhandledError
  {
    if id.None? then Err(UnhandledError)
    else match GetInvoiceById(invoices, id.value)
      case None => Err(UnhandledError)
      case Some(inv) => Ok(inv)
  }

  /** Anybody who knows an invoice's id reads that invoice. */
  lemma AnyInvoiceIsReadableById(invoices: seq<Invoice>, k: nat)
    requires UniqueInvoiceIds(invoices) && k < |invoices|
    ensures GetInvoice(invoices, Some(invoices[k].id)) == Ok(invoices[k])
  {
    GetStoredInvoice(invoices, k);
  }
}

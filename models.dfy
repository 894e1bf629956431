/** The records of app/models.py: what a client sends (inputs and update
    payloads, with pydantic's set/unset distinction), what the tables store,
    the name-only equality of products, field defaults and the declared
    constraints on phone numbers and passwords. */
module Models {
  import opened Outcomes

  /** A `uuid.UUID` primary or foreign key. */
  type Id = nat
  /** A `datetime`; only its order is used. */
  type Timestamp = int
  /** A Python `float` (prices and totals). Nothing computes with it. */
  type Amount = real

  // ---------------------------------------------------------------- sellers

  /** `BaseSeller` as received: every optional field remembers whether the
      client sent it; `phone_number` has no default, so it is always sent. */
  datatype SellerDetails = SellerDetails(
    name: Field<Option<string>>,
    email: Field<Option<string>>,
    phoneNumber: string,
    storeName: Field<Option<string>>,
    storeDescription: Field<Option<string>>,
    storeAddress: Field<Option<string>>,
    instaLink: Field<Option<string>>)

  /** `InputSellers`: the signup body, `BaseSeller` plus the plaintext password. */
  datatype SellerInput = SellerInput(details: SellerDetails, password: string)

  /** A row of the `createseller` table. `password` holds what was stored there. */
  datatype Seller = Seller(
    id: Id,
    name: Option<string>,
    email: Option<string>,
    phoneNumber: string,
    storeName: Option<string>,
    storeDescription: Option<string>,
    storeAddress: Option<string>,
    instaLink: Option<string>,
    password: string)

  /** The email a seller input carries, `None` when it was left out. */
  function EmailOf(d: SellerDetails): Option<string> {
    ValueOr(d.email, None)
  }

  /** `CreateSeller.model_validate(input)` with the id the table assigns and
      `password` replaced by `storedPassword`. */
  function NewSeller(input: SellerInput, id: Id, storedPassword: string): Seller {
    var d := input.details;
    Seller(id, ValueOr(d.name, None), EmailOf(d), d.phoneNumber, ValueOr(d.storeName, None),
           ValueOr(d.storeDescription, None), ValueOr(d.storeAddress, None),
           ValueOr(d.instaLink, None), storedPassword)
  }

  /** A new seller row keeps every field of the input: a field left out is
      stored as `None`, and the password column holds what the caller
      stores there. */
  lemma NewSellerFields(input: SellerInput, id: Id, storedPassword: string)
    ensures var s, d := NewSeller(input, id, storedPassword), input.details;
      && s.id == id && s.password == storedPassword
      && s.phoneNumber == d.phoneNumber
      && (d.name.Set? ==> s.name == d.name.value) && (d.name.Unset? ==> s.name.None?)
      && (d.email.Set? ==> s.email == d.email.value) && (d.email.Unset? ==> s.email.None?)
      && (d.storeName.Set? ==> s.storeName == d.storeName.value) && (d.storeName.Unset? ==> s.storeName.None?)
      && (d.storeDescription.Set? ==> s.storeDescription == d.storeDescription.value)
      && (d.storeDescription.Unset? ==> s.storeDescription.None?)
      && (d.storeAddress.Set? ==> s.storeAddress == d.storeAddress.value)
      && (d.storeAddress.Unset? ==> s.storeAddress.None?)
      && (d.instaLink.Set? ==> s.instaLink == d.instaLink.value) && (d.instaLink.Unset? ==> s.instaLink.None?)
  {
  }

  /** One `setattr(seller, key, value)`, key being a column of `CreateSeller`
      that a seller payload carries. */
  datatype SellerAssignment =
    | SetName(name: Option<string>)
    | SetEmail(email: Option<string>)
    | SetPhoneNumber(phoneNumber: string)
    | SetStoreName(storeName: Option<string>)
    | SetStoreDescription(storeDescription: Option<string>)
    | SetStoreAddress(storeAddress: Option<string>)
    | SetInstaLink(instaLink: Option<string>)
    | SetPassword(password: string)

  function Assign(s: Seller, a: SellerAssignment): Seller {
    match a
    case SetName(v) => s.(name := v)
    case SetEmail(v) => s.(email := v)
    case SetPhoneNumber(v) => s.(phoneNumber := v)
    case SetStoreName(v) => s.(storeName := v)
    case SetStoreDescription(v) => s.(storeDescription := v)
    case SetStoreAddress(v) => s.(storeAddress := v)
    case SetInstaLink(v) => s.(instaLink := v)
    case SetPassword(v) => s.(password := v)
  }

  /** The assignments applied one after the other, in order. */
  function AssignAll(s: Seller, items: seq<SellerAssignment>): Seller
    decreases |items|
  {
    if items == [] then s else Assign(AssignAll(s, items[..|items| - 1]), items[|items| - 1])
  }

  function Item(f: Field<Option<string>>, assign: Option<string> -> SellerAssignment): seq<SellerAssignment> {
    if f.Set? then [assign(f.value)] else []
  }

  /** `details.model_dump(exclude_unset=True).items()`: the fields the client
      sent, in declaration order; `phone_number` is always among them. */
  function DetailItems(d: SellerDetails): seq<SellerAssignment> {
    ContactItems(d) + StoreItems(d)
  }

  function ContactItems(d: SellerDetails): seq<SellerAssignment> {
    Item(d.name, v => SetName(v)) + Item(d.email, v => SetEmail(v)) + [SetPhoneNumber(d.phoneNumber)]
  }

  function StoreItems(d: SellerDetails): seq<SellerAssignment> {
    Item(d.storeName, v => SetStoreName(v)) + Item(d.storeDescription, v => SetStoreDescription(v))
    + Item(d.storeAddress, v => SetStoreAddress(v)) + Item(d.instaLink, v => SetInstaLink(v))
  }

  /** The same dump for an `InputSellers`, whose `password` field is required. */
  function InputItems(input: SellerInput): seq<SellerAssignment> {
    DetailItems(input.details) + [SetPassword(input.password)]
  }

  /** The partial update a `BaseSeller` payload describes, field by field:
      a sent field replaces the stored one, a field left out keeps it. */
  function WithDetails(s: Seller, d: SellerDetails): Seller {
    s.(name := ValueOr(d.name, s.name), email := ValueOr(d.email, s.email),
       phoneNumber := d.phoneNumber, storeName := ValueOr(d.storeName, s.storeName),
       storeDescription := ValueOr(d.storeDescription, s.storeDescription),
       storeAddress := ValueOr(d.storeAddress, s.storeAddress),
       instaLink := ValueOr(d.instaLink, s.instaLink))
  }

  lemma {:induction false} AssignAllAppend(s: Seller, a: seq<SellerAssignment>, b: seq<SellerAssignment>)
    ensures AssignAll(s, a + b) == AssignAll(AssignAll(s, a), b)
    decreases |b|
  {
    if b == [] {
      assert a + b == a;
    } else {
      assert (a + b)[..|a + b| - 1] == a + b[..|b| - 1];
      AssignAllAppend(s, a, b[..|b| - 1]);
    }
  }

  lemma AssignItem(s: Seller, f: Field<Option<string>>, assign: Option<string> -> SellerAssignment)
    ensures AssignAll(s, Item(f, assign)) == if f.Set? then Assign(s, assign(f.value)) else s
  {
    if f.Set? {
      assert Item(f, assign)[..0] == [];
    }
  }

  /** Applying the sent fields one `setattr` at a time is the field-by-field
      partial update: sent fields are overwritten, the others are kept. */
  lemma AssignDetails(s: Seller, d: SellerDetails)
    ensures AssignAll(s, DetailItems(d)) == WithDetails(s, d)
  {
    AssignAllAppend(s, ContactItems(d), StoreItems(d));
    AssignContact(s, d);
    AssignStore(AssignAll(s, ContactItems(d)), d);
  }

  lemma AssignContact(s: Seller, d: SellerDetails)
    ensures AssignAll(s, ContactItems(d))
         == s.(name := ValueOr(d.name, s.name), email := ValueOr(d.email, s.email), phoneNumber := d.phoneNumber)
  {
    var i1, i2, i3 := Item(d.name, v => SetName(v)), Item(d.email, v => SetEmail(v)), [SetPhoneNumber(d.phoneNumber)];
    AssignAllAppend(s, i1 + i2, i3);
    AssignAllAppend(s, i1, i2);
    AssignItem(s, d.name, v => SetName(v));
    AssignItem(AssignAll(s, i1), d.email, v => SetEmail(v));
    assert i3[..0] == [];
  }

  lemma AssignStore(s: Seller, d: SellerDetails)
    ensures AssignAll(s, StoreItems(d))
         == s.(storeName := ValueOr(d.storeName, s.storeName),
               storeDescription := ValueOr(d.storeDescription, s.storeDescription),
               storeAddress := ValueOr(d.storeAddress, s.storeAddress),
               instaLink := ValueOr(d.instaLink, s.instaLink))
  {
    var i4, i5 := Item(d.storeName, v => SetStoreName(v)), Item(d.storeDescription, v => SetStoreDescription(v));
    var i6, i7 := Item(d.storeAddress, v => SetStoreAddress(v)), Item(d.instaLink, v => SetInstaLink(v));
    AssignAllAppend(s, i4 + i5 + i6, i7);
    AssignAllAppend(s, i4 + i5, i6);
    AssignAllAppend(s, i4, i5);
    var s4 := AssignAll(s, i4);
    AssignItem(s, d.storeName, v => SetStoreName(v));
    var s5 := AssignAll(s4, i5);
    AssignItem(s4, d.storeDescription, v => SetStoreDescription(v));
    var s6 := AssignAll(s5, i6);
    AssignItem(s5, d.storeAddress, v => SetStoreAddress(v));
    AssignItem(s6, d.instaLink, v => SetInstaLink(v));
  }

  /** A profile payload can never change a seller's id or stored password:
      `BaseSeller` has neither field. Every other column is overwritten when
      sent and kept otherwise. */
  lemma ProfilePayloadFrame(s: Seller, d: SellerDetails)
    ensures var r := AssignAll(s, DetailItems(d));
      && r.id == s.id && r.password == s.password
      && r.phoneNumber == d.phoneNumber
      && (d.name.Unset? ==> r.name == s.name) && (d.name.Set? ==> r.name == d.name.value)
      && (d.email.Unset? ==> r.email == s.email) && (d.email.Set? ==> r.email == d.email.value)
      && (d.storeName.Unset? ==> r.storeName == s.storeName)
      && (d.storeName.Set? ==> r.storeName == d.storeName.value)
      && (d.storeDescription.Unset? ==> r.storeDescription == s.storeDescription)
      && (d.storeDescription.Set? ==> r.storeDescription == d.storeDescription.value)
      && (d.storeAddress.Unset? ==> r.storeAddress == s.storeAddress)
      && (d.storeAddress.Set? ==> r.storeAddress == d.storeAddress.value)
      && (d.instaLink.Unset? ==> r.instaLink == s.instaLink)
      && (d.instaLink.Set? ==> r.instaLink == d.instaLink.value)
  {
    AssignDetails(s, d);
  }

  /** An `InputSellers` payload writes its `password` field as given: no
      hashing happens on this path. */
  lemma InputPayloadWritesPasswordVerbatim(s: Seller, input: SellerInput)
    ensures AssignAll(s, InputItems(input)) == WithDetails(s, input.details).(password := input.password)
  {
    AssignAllAppend(s, DetailItems(input.details), [SetPassword(input.password)]);
    AssignDetails(s, input.details);
    assert [SetPassword(input.password)][..0] == [];
  }

  // --------------------------------------------------------------- products

  /** `InputProduct`: a product as sent in a registration batch. */
  datatype InputProduct = InputProduct(name: string, description: Option<string>, price: Amount)

  /** A row of the `product` table. */
  datatype Product = Product(id: Id, name: string, description: Option<string>, price: Amount, sellerId: Id)

  /** `InputProduct.__eq__`: two products are equal when their names are. */
  predicate SameProduct(a: InputProduct, b: InputProduct) {
    a.name == b.name
  }

  /** What `InputProduct.__hash__` hashes: the name alone. */
  function HashKey(p: InputProduct): string {
    p.name
  }

  /** Equality and hashing agree, and both ignore description and price. */
  lemma ProductIdentityIsName(a: InputProduct, b: InputProduct)
    ensures SameProduct(a, b) <==> HashKey(a) == HashKey(b)
    ensures SameProduct(a, b) <==> a.name == b.name
    ensures SameProduct(a, b) ==> SameProduct(a, b.(description := a.description, price := a.price))
  {
  }

  /** `Product.model_validate(product, update={"seller_id": ...})` with the id
      the table assigns. */
  function NewProduct(p: InputProduct, id: Id, sellerId: Id): Product {
    Product(id, p.name, p.description, p.price, sellerId)
  }

  // --------------------------------------------------------------- invoices

  /** An `InvoiceItems` row. It lives inside its invoice (so it is removed with
      it) and its product reference may be null. */
  datatype InvoiceItem = InvoiceItem(id: Id, productId: Option<Id>, quantity: int, totalPrice: Amount)

  /** `InvoiceInput`, the creation body. It declares no `created_date` and no
      `seller_id`; a client that sends them has them ignored. */
  datatype InvoiceInput = InvoiceInput(
    customerName: Field<Option<string>>,
    customerPhoneNumber: Field<Option<string>>,
    customerEmail: Field<Option<string>>,
    customerAddress: Field<Option<string>>,
    status: Field<Option<string>>,
    paymentMode: Field<Option<string>>,
    totalPrice: Amount,
    items: seq<InvoiceItem>)

  /** An `InvoiceCreate` row. */
  datatype Invoice = Invoice(
    id: Id,
    sellerId: Id,
    customerName: Option<string>,
    customerPhoneNumber: Option<string>,
    customerEmail: Option<string>,
    customerAddress: Option<string>,
    status: Option<string>,
    paymentMode: Option<string>,
    totalPrice: Amount,
    createdDate: Timestamp,
    items: seq<InvoiceItem>)

  /** `InvoicePublic`, the update body: `id`, `created_date` and `total_price`
      are required, so always sent; there is no `seller_id` field. */
  datatype InvoicePatch = InvoicePatch(
    id: Id,
    createdDate: Timestamp,
    customerName: Field<Option<string>>,
    customerPhoneNumber: Field<Option<string>>,
    customerEmail: Field<Option<string>>,
    customerAddress: Field<Option<string>>,
    status: Field<Option<string>>,
    paymentMode: Field<Option<string>>,
    totalPrice: Amount,
    items: Field<seq<InvoiceItem>>)

  const DefaultStatus := "Pending"
  const DefaultPaymentMode := "Cash"

  /** `InvoiceCreate.model_validate(input, update={"seller_id": ...})` with the
      id and the `created_date` (`datetime.now`) the server assigns. */
  function NewInvoice(input: InvoiceInput, id: Id, sellerId: Id, now: Timestamp): Invoice {
    Invoice(id, sellerId, ValueOr(input.customerName, None), ValueOr(input.customerPhoneNumber, None),
            ValueOr(input.customerEmail, None), ValueOr(input.customerAddress, None),
            ValueOr(input.status, Some(DefaultStatus)), ValueOr(input.paymentMode, Some(DefaultPaymentMode)),
            input.totalPrice, now, input.items)
  }

  /** The owner and the creation date of a new invoice come from the server,
      never from the body; every other field is the one sent; a status or
      payment mode left out of the body defaults to "Pending" and "Cash",
      and a customer field left out is `None`. */
  lemma NewInvoiceDefaults(input: InvoiceInput, id: Id, sellerId: Id, now: Timestamp)
    ensures var inv := NewInvoice(input, id, sellerId, now);
      && inv.sellerId == sellerId && inv.createdDate == now && inv.id == id
      && (input.status.Unset? ==> inv.status == Some("Pending"))
      && (input.paymentMode.Unset? ==> inv.paymentMode == Some("Cash"))
      && inv.totalPrice == input.totalPrice && inv.items == input.items
      && (input.status.Set? ==> inv.status == input.status.value)
      && (input.paymentMode.Set? ==> inv.paymentMode == input.paymentMode.value)
      && (input.customerName.Set? ==> inv.customerName == input.customerName.value)
      && (input.customerName.Unset? ==> inv.customerName.None?)
      && (input.customerPhoneNumber.Set? ==> inv.customerPhoneNumber == input.customerPhoneNumber.value)
      && (input.customerPhoneNumber.Unset? ==> inv.customerPhoneNumber.None?)
      && (input.customerEmail.Set? ==> inv.customerEmail == input.customerEmail.value)
      && (input.customerEmail.Unset? ==> inv.customerEmail.None?)
      && (input.customerAddress.Set? ==> inv.customerAddress == input.customerAddress.value)
      && (input.customerAddress.Unset? ==> inv.customerAddress.None?)
  {
  }

  /** `db_invoice.sqlmodel_update(patch.model_dump(exclude_unset=True))`.
      `sqlmodel_update` writes only the columns of `InvoiceCreate`; its
      `invoiceitems` is a relationship, not a column, so sent line items are
      dropped and the stored ones stay. */
  function ApplyInvoicePatch(inv: Invoice, patch: InvoicePatch): Invoice {
    inv.(id := patch.id, createdDate := patch.createdDate,
         customerName := ValueOr(patch.customerName, inv.customerName),
         customerPhoneNumber := ValueOr(patch.customerPhoneNumber, inv.customerPhoneNumber),
         customerEmail := ValueOr(patch.customerEmail, inv.customerEmail),
         customerAddress := ValueOr(patch.customerAddress, inv.customerAddress),
         status := ValueOr(patch.status, inv.status),
         paymentMode := ValueOr(patch.paymentMode, inv.paymentMode),
         totalPrice := patch.totalPrice)
  }

  /** An update never changes an invoice's owner or its line items; it may
      rewrite its creation date; a field left out of the payload keeps its
      stored value. */
  lemma InvoicePatchFrame(inv: Invoice, patch: InvoicePatch)
    requires patch.id == inv.id
    ensures var r := ApplyInvoicePatch(inv, patch);
      && r.id == inv.id && r.sellerId == inv.sellerId
      && r.createdDate == patch.createdDate && r.totalPrice == patch.totalPrice
      && r.items == inv.items
      && (patch.customerName.Unset? ==> r.customerName == inv.customerName)
      && (patch.customerName.Set? ==> r.customerName == patch.customerName.value)
      && (patch.customerPhoneNumber.Unset? ==> r.customerPhoneNumber == inv.customerPhoneNumber)
      && (patch.customerPhoneNumber.Set? ==> r.customerPhoneNumber == patch.customerPhoneNumber.value)
      && (patch.customerEmail.Unset? ==> r.customerEmail == inv.customerEmail)
      && (patch.customerEmail.Set? ==> r.customerEmail == patch.customerEmail.value)
      && (patch.customerAddress.Unset? ==> r.customerAddress == inv.customerAddress)
      && (patch.customerAddress.Set? ==> r.customerAddress == patch.customerAddress.value)
      && (patch.status.Unset? ==> r.status == inv.status)
      && (patch.status.Set? ==> r.status == patch.status.value)
      && (patch.paymentMode.Unset? ==> r.paymentMode == inv.paymentMode)
      && (patch.paymentMode.Set? ==> r.paymentMode == patch.paymentMode.value)
  {
  }

  // ------------------------------------------------------------ constraints

  predicate IsDigit(c: char) {
    '0' <= c <= '9'
  }

  predicate AllDigits(s: string) {
    |s| == 0 || (IsDigit(s[0]) && AllDigits(s[1..]))
  }

  /** `^\+?[1-9]\d{1,14}$`: an optional plus, a non-zero digit, then one to
      fourteen digits. */
  predicate MatchesPhonePattern(s: string) {
    var body := if |s| > 0 && s[0] == '+' then s[1..] else s;
    2 <= |body| <= 15 && '1' <= body[0] <= '9' && AllDigits(body[1..])
  }

  /** The declared constraint on `phone_number`: 10 to 15 characters and the pattern. */
  predicate PhoneNumberValid(s: string) {
    10 <= |s| <= 15 && MatchesPhonePattern(s)
  }

  /** The constraint admits exactly numbers of ten to fifteen digits that do
      not start with 0, or a plus followed by nine to fourteen such digits;
      a national number written with a leading 0 is refused. */
  lemma PhoneNumberShape(s: string)
    ensures PhoneNumberValid(s) <==>
      || (10 <= |s| <= 15 && AllDigits(s) && s[0] != '0')
      || (10 <= |s| <= 15 && s[0] == '+' && AllDigits(s[1..]) && s[1] != '0')
    ensures PhoneNumberValid(s) ==> s[0] != '0'
  {
    if |s| >= 2 {
      assert s[1..][1..] == s[2..];
    }
  }

  lemma PhoneNumberExamples()
    ensures PhoneNumberValid("9123456789")
    ensures !PhoneNumberValid("09123456789")
    ensures PhoneNumberValid("+19123456789")
  {
    NationalExample();
    InternationalExample();
  }

  lemma NationalExample()
    ensures AllDigits("9123456789") && PhoneNumberValid("9123456789")
  {
    var tail := "123456789";
    DigitsSuffix(tail, 0);
    assert tail[0..] == tail;
    assert "9123456789"[1..] == tail;
  }

  lemma InternationalExample()
    ensures PhoneNumberValid("+19123456789")
  {
    NationalExample();
    assert "+19123456789"[1..] == "19123456789" && "19123456789"[1..] == "9123456789";
  }

  lemma {:induction false} DigitsSuffix(s: string, k: nat)
    requires k <= |s|
    requires forall i :: 0 <= i < |s| ==> IsDigit(s[i])
    ensures AllDigits(s[k..])
    decreases |s| - k
  {
    if k < |s| {
      DigitsSuffix(s, k + 1);
      assert s[k..][1..] == s[k + 1..];
    }
  }

  predicate PasswordChar(c: char) {
    ('A' <= c <= 'Z') || ('a' <= c <= 'z') || ('0' <= c <= '9')
    || c == '@' || c == '#' || c == '$' || c == '%' || c == '^' || c == '&' || c == '+' || c == '='
  }

  /** The declared constraint on `password`: 8 to 30 characters, and the
      pattern `[A-Za-z0-9@#$%^&+=]`, which is not anchored, so one allowed
      character anywhere satisfies it. */
  predicate PasswordAccepted(p: string) {
    8 <= |p| <= 30 && exists i :: 0 <= i < |p| && PasswordChar(p[i])
  }

  /** Because the pattern is unanchored, characters outside the class are
      admitted as long as one character inside it is present. */
  lemma PasswordPatternUnanchored()
    ensures PasswordAccepted("pass word!")
    ensures !PasswordAccepted("        ")
    ensures !PasswordAccepted("short1")
  {
    assert PasswordChar("pass word!"[0]);
  }
}

/** app/crud.py: the queries and writes on the three tables. Queries are
    functions of the rows; writes are methods of `Database`, whose fields are
    the tables (rows in insertion order). */
module Crud {
  import opened Outcomes
  import opened Models
  import opened Tables
  import opened Security

  // ------------------------------------------------------------ invariants

  /** Primary keys are unique (uuid4 ids). */
  ghost predicate UniqueSellerIds(sellers: seq<Seller>) {
    forall i, j :: 0 <= i < j < |sellers| ==> sellers[i].id != sellers[j].id
  }

  /** The `setattr` loop of `update_user`: each sent field is assigned in
      turn, in the order the payload lists them. */
  method AssignFields(row: Seller, items: seq<SellerAssignment>) returns (user: Seller)
    ensures user == AssignAll(row, items)
  {
    user := row;
    var k := 0;
    while k < |items|
      invariant 0 <= k <= |items|
      invariant user == AssignAll(row, items[..k])
    {
      assert items[..k + 1][..k] == items[..k];
      user := Assign(user, items[k]);
      k := k + 1;
    }
    assert items[..|items|] == items;
  }

  /** Rewriting a row without changing its id keeps the ids unique. */
  lemma ReplaceSeller(sellers: seq<Seller>, i: nat, s: Seller)
    requires UniqueSellerIds(sellers) && i < |sellers| && s.id == sellers[i].id
    ensures UniqueSellerIds(sellers[i := s])
  {
  }

  ghost predicate UniqueProductIds(products: seq<Product>) {
    forall i, j :: 0 <= i < j < |products| ==> products[i].id != products[j].id
  }

  ghost predicate UniqueInvoiceIds(invoices: seq<Invoice>) {
    forall i, j :: 0 <= i < j < |invoices| ==> invoices[i].id != invoices[j].id
  }

  /** Ids for new product rows: pairwise distinct and unused in the table. */
  ghost predicate FreshProductIds(products: seq<Product>, ids: seq<Id>) {
    && (forall i, j :: 0 <= i < j < |ids| ==> ids[i] != ids[j])
    && (forall k, p :: 0 <= k < |ids| && p in products ==> p.id != ids[k])
  }

  // --------------------------------------------------------------- sellers

  /** `session.get(CreateSeller, id)`. */
  function GetSeller(sellers: seq<Seller>, id: Id): (r: Option<Seller>)
    ensures r.Some? ==> r.value in sellers && r.value.id == id
    ensures r.None? <==> forall k :: 0 <= k < |sellers| ==> sellers[k].id != id
  {
    FirstWhere(sellers, (s: Seller) => s.id == id)
  }

  /** The row index `GetSeller` reads. */
  function SellerIndex(sellers: seq<Seller>, id: Id): (r: Option<nat>)
    ensures r.Some? ==> r.value < |sellers| && sellers[r.value].id == id
    ensures r.None? <==> GetSeller(sellers, id).None?
    ensures r.Some? ==> GetSeller(sellers, id) == Some(sellers[r.value])
  {
    Find(sellers, (s: Seller) => s.id == id)
  }

  /** With unique ids, looking a stored seller up by its id gives that seller. */
  lemma GetStoredSeller(sellers: seq<Seller>, s: Seller)
    requires UniqueSellerIds(sellers) && s in sellers
    ensures GetSeller(sellers, s.id) == Some(s)
  {
    var k :| 0 <= k < |sellers| && sellers[k] == s;
    var i := SellerIndex(sellers, s.id).value;
    assert !(i < k) && !(k < i);
  }

  /** `get_user_by_email`: the first seller whose email equals `email`
      (a `None` email matches the sellers stored without one). */
  function GetUserByEmail(sellers: seq<Seller>, email: Option<string>): (r: Option<Seller>)
    ensures r.Some? ==> r.value in sellers && r.value.email == email
    ensures r.None? <==> forall k :: 0 <= k < |sellers| ==> sellers[k].email != email
  {
    FirstWhere(sellers, (s: Seller) => s.email == email)
  }

  /** `get_user_by_phoneNumber`: the first seller with that phone number. */
  function GetUserByPhoneNumber(sellers: seq<Seller>, phoneNumber: string): (r: Option<Seller>)
    ensures r.Some? ==> r.value in sellers && r.value.phoneNumber == phoneNumber
    ensures r.None? <==> forall k :: 0 <= k < |sellers| ==> sellers[k].phoneNumber != phoneNumber
  {
    FirstWhere(sellers, (s: Seller) => s.phoneNumber == phoneNumber)
  }

  /** `authenticate`: a phone number, when one is given, decides the lookup
      (there is no fallback to the email); otherwise the email does; with
      neither there is no seller. The seller found is returned only if the
      password verifies against its stored hash. */
  function Authenticate(sellers: seq<Seller>, h: Hasher, phoneNumber: Option<string>,
                        email: Option<string>, password: string): (r: Option<Seller>)
    ensures r.Some? ==> r.value in sellers && h.verify(password, r.value.password)
    ensures r.Some? && Truthy(phoneNumber) ==> r.value.phoneNumber == phoneNumber.value
    ensures r.Some? && !Truthy(phoneNumber) ==> Truthy(email) && r.value.email == email
    ensures !Truthy(phoneNumber) && !Truthy(email) ==> r.None?
    ensures Truthy(phoneNumber) && (forall k :: 0 <= k < |sellers| ==> sellers[k].phoneNumber != phoneNumber.value)
            ==> r.None?
    ensures Truthy(phoneNumber) ==>
              var found := GetUserByPhoneNumber(sellers, phoneNumber.value);
              && (r.Some? ==> r == found)
              && (found.Some? && h.verify(password, found.value.password) ==> r == found)
    ensures !Truthy(phoneNumber) && Truthy(email) ==>
              var found := GetUserByEmail(sellers, email);
              && (r.Some? ==> r == found)
              && (found.Some? && h.verify(password, found.value.password) ==> r == found)
  {
    var found :=
      if Truthy(phoneNumber) then GetUserByPhoneNumber(sellers, phoneNumber.value)
      else if Truthy(email) then GetUserByEmail(sellers, email)
      else None;
    if found.Some? && h.verify(password, found.value.password) then found else None
  }

  // -------------------------------------------------------------- products

  /** `get_seller_product`: the seller's products, in table order. */
  function GetSellerProduct(products: seq<Product>, sellerId: Id): (r: seq<Product>)
    ensures forall k :: 0 <= k < |r| ==> r[k] in products && r[k].sellerId == sellerId
    ensures forall k :: 0 <= k < |products| && products[k].sellerId == sellerId ==> products[k] in r
    ensures forall p :: multiset(r)[p] == if p.sellerId == sellerId then multiset(products)[p] else 0
  {
    Where(products, (p: Product) => p.sellerId == sellerId)
  }

  /** Adding rows of other sellers leaves a seller's product list alone;
      adding rows of its own appends them. */
  lemma GetSellerProductAppend(products: seq<Product>, added: seq<Product>, sellerId: Id)
    ensures GetSellerProduct(products + added, sellerId)
         == GetSellerProduct(products, sellerId) + GetSellerProduct(added, sellerId)
  {
    WhereAppend(products, added, (p: Product) => p.sellerId == sellerId);
  }

  /** The rows `create_product` adds: each candidate stamped with the seller's
      id and its own new id. */
  function Stamp(candidates: seq<InputProduct>, sellerId: Id, ids: seq<Id>): (r: seq<Product>)
    requires |ids| >= |candidates|
    ensures |r| == |candidates|
    ensures forall k :: 0 <= k < |r| ==> r[k].id == ids[k] && r[k].sellerId == sellerId
    ensures forall k :: 0 <= k < |r| ==>
              r[k].name == candidates[k].name && r[k].description == candidates[k].description
              && r[k].price == candidates[k].price
  {
    seq(|candidates|, k requires 0 <= k < |candidates| => NewProduct(candidates[k], ids[k], sellerId))
  }

  /** Every stamped row belongs to the caller, so it shows up in the caller's
      list exactly as created. */
  lemma StampedAreOwned(candidates: seq<InputProduct>, sellerId: Id, ids: seq<Id>)
    requires |ids| >= |candidates|
    ensures GetSellerProduct(Stamp(candidates, sellerId, ids), sellerId) == Stamp(candidates, sellerId, ids)
  {
    var rows := Stamp(candidates, sellerId, ids);
    forall x | x in rows ensures x.sellerId == sellerId {
    }
    WhereKeepsAll(rows, (p: Product) => p.sellerId == sellerId);
  }

  // -------------------------------------------------------------- invoices

  /** `session.get(InvoiceCreate, id)`, as a row index. */
  function InvoiceIndex(invoices: seq<Invoice>, id: Id): (r: Option<nat>)
    ensures r.Some? ==> r.value < |invoices| && invoices[r.value].id == id
    ensures r.None? <==> forall k :: 0 <= k < |invoices| ==> invoices[k].id != id
  {
    Find(invoices, (inv: Invoice) => inv.id == id)
  }

  /** `get_invoice_by_id`: the stored invoice with that id, or `None`. */
  function GetInvoiceById(invoices: seq<Invoice>, id: Id): (r: Option<Invoice>)
    ensures r.Some? ==> r.value in invoices && r.value.id == id
    ensures r.None? <==> forall k :: 0 <= k < |invoices| ==> invoices[k].id != id
  {
    FirstWhere(invoices, (inv: Invoice) => inv.id == id)
  }

  /** With unique ids, looking a stored invoice up by its id gives that invoice. */
  lemma GetStoredInvoice(invoices: seq<Invoice>, k: nat)
    requires UniqueInvoiceIds(invoices) && k < |invoices|
    ensures InvoiceIndex(invoices, invoices[k].id) == Some(k)
    ensures GetInvoiceById(invoices, invoices[k].id) == Some(invoices[k])
  {
    var i := InvoiceIndex(invoices, invoices[k].id).value;
    assert !(i < k) && !(k < i);
  }

  /** Newest first: `ORDER BY created_date DESC`. */
  ghost predicate NewestFirst(invoices: seq<Invoice>) {
    forall i, j :: 0 <= i < j < |invoices| ==> invoices[i].createdDate >= invoices[j].createdDate
  }

  function InsertByDate(x: Invoice, sorted: seq<Invoice>): (r: seq<Invoice>)
    requires NewestFirst(sorted)
    ensures |r| == |sorted| + 1
    ensures NewestFirst(r)
    ensures multiset(r) == multiset(sorted) + multiset{x}
  {
    if sorted == [] || x.createdDate >= sorted[0].createdDate then
      PrependNewest(x, sorted);
      [x] + sorted
    else
      var rest := InsertByDate(x, sorted[1..]);
      assert sorted == [sorted[0]] + sorted[1..];
      NotNewerThanHead(x, sorted, rest);
      PrependNewest(sorted[0], rest);
      assert multiset([sorted[0]] + rest) == multiset{sorted[0]} + multiset(sorted[1..]) + multiset{x};
      [sorted[0]] + rest
  }

  lemma NotNewerThanHead(x: Invoice, sorted: seq<Invoice>, rest: seq<Invoice>)
    requires NewestFirst(sorted) && |sorted| > 0 && x.createdDate < sorted[0].createdDate
    requires multiset(rest) == multiset(sorted[1..]) + multiset{x}
    ensures forall k :: 0 <= k < |rest| ==> rest[k].createdDate <= sorted[0].createdDate
  {
    forall k | 0 <= k < |rest| ensures rest[k].createdDate <= sorted[0].createdDate {
      assert rest[k] in multiset(rest);
      if rest[k] != x {
        var j :| 0 <= j < |sorted| - 1 && sorted[1..][j] == rest[k];
        assert sorted[j + 1] == rest[k];
      }
    }
  }

  lemma PrependNewest(y: Invoice, rest: seq<Invoice>)
    requires NewestFirst(rest)
    requires forall k :: 0 <= k < |rest| ==> rest[k].createdDate <= y.createdDate
    ensures NewestFirst([y] + rest)
  {
    var r := [y] + rest;
    forall i, j | 0 <= i < j < |r| ensures r[i].createdDate >= r[j].createdDate {
      assert r[j] == rest[j - 1];
      if i > 0 {
        assert r[i] == rest[i - 1];
      }
    }
  }

  /** The rows ordered newest first. SQL leaves the order of rows with the
      same `created_date` open; this model fixes one (table order). */
  function OrderByCreatedDesc(invoices: seq<Invoice>): (r: seq<Invoice>)
    ensures NewestFirst(r)
    ensures multiset(r) == multiset(invoices)
    ensures |r| == |invoices|
  {
    if invoices == [] then []
    else
      assert invoices == [invoices[0]] + invoices[1..];
      InsertByDate(invoices[0], OrderByCreatedDesc(invoices[1..]))
  }

  /** The seller's invoices, newest first, before OFFSET and LIMIT. */
  function SellerInvoicesNewestFirst(invoices: seq<Invoice>, userId: Id): (r: seq<Invoice>)
    ensures NewestFirst(r)
    ensures multiset(r) == multiset(Where(invoices, (inv: Invoice) => inv.sellerId == userId))
    ensures forall k :: 0 <= k < |r| ==> r[k] in invoices && r[k].sellerId == userId
    ensures |r| == |Where(invoices, (inv: Invoice) => inv.sellerId == userId)|
  {
    var mine := Where(invoices, (inv: Invoice) => inv.sellerId == userId);
    var r := OrderByCreatedDesc(mine);
    SameElements(r, mine);
    r
  }

  /** `get_seller_invoices`: only the caller's invoices, newest first, the
      first `offset` skipped and at most `limit` returned (with SQLite's
      reading of negative values, see `Page`). */
  function GetSellerInvoices(invoices: seq<Invoice>, userId: Id, offset: int, limit: int): (r: seq<Invoice>)
    ensures forall k :: 0 <= k < |r| ==> r[k] in invoices && r[k].sellerId == userId
    ensures NewestFirst(r)
    ensures 0 <= limit ==> |r| <= limit
    ensures var all := SellerInvoicesNewestFirst(invoices, userId);
      var start := Skip(|all|, offset);
      && |r| == (if 0 <= limit < |all| - start then limit else |all| - start)
      && forall k :: 0 <= k < |r| ==> r[k] == all[start + k]
  {
    var all := SellerInvoicesNewestFirst(invoices, userId);
    Page(all, offset, limit)
  }

  /** Reading page after page walks the seller's invoices without skipping
      or repeating any: two consecutive pages are the page that spans both. */
  lemma SellerInvoicePagesAreConsecutive(invoices: seq<Invoice>, userId: Id, offset: nat, n: nat, m: nat)
    ensures GetSellerInvoices(invoices, userId, offset, n) + GetSellerInvoices(invoices, userId, offset + n, m)
         == GetSellerInvoices(invoices, userId, offset, n + m)
  {
    PagesAreConsecutive(SellerInvoicesNewestFirst(invoices, userId), offset, n, m);
  }

  const InvoiceNotFound := HttpError(NotFound, "Invoice not found")
  const NoPermission := HttpError(Forbidden, "You do not have permission to update this invoice.")

  /** The decision `update_invoice` takes: 404 when no invoice has the
      payload's id (checked before anything else), 403 when the caller does
      not own it, otherwise the invoice with the payload's sent fields
      written over it. */
  function InvoiceUpdate(invoices: seq<Invoice>, patch: InvoicePatch, userId: Id): (r: Result<Invoice>)
    ensures r == Err(InvoiceNotFound) <==> forall k :: 0 <= k < |invoices| ==> invoices[k].id != patch.id
    ensures r.Err? ==> r.error == InvoiceNotFound || r.error == NoPermission
    ensures r.Err? && r.error == NoPermission ==>
              exists k :: 0 <= k < |invoices| && invoices[k].id == patch.id && invoices[k].sellerId != userId
    ensures r.Ok? ==> exists k :: 0 <= k < |invoices| && invoices[k].id == patch.id && invoices[k].sellerId == userId
                                  && r.value == ApplyInvoicePatch(invoices[k], patch)
    ensures r.Ok? ==> r.value.id == patch.id && r.value.sellerId == userId
  {
    match InvoiceIndex(invoices, patch.id)
    case None => Err(InvoiceNotFound)
    case Some(i) =>
      if invoices[i].sellerId != userId then Err(NoPermission)
      else Ok(ApplyInvoicePatch(invoices[i], patch))
  }

  /** An invoice owned by one seller can never be updated by another,
      whatever the payload carries. */
  lemma ForeignInvoiceIsForbidden(invoices: seq<Invoice>, k: nat, patch: InvoicePatch, userId: Id)
    requires UniqueInvoiceIds(invoices) && k < |invoices|
    requires patch.id == invoices[k].id && invoices[k].sellerId != userId
    ensures InvoiceUpdate(invoices, patch, userId) == Err(NoPermission)
  {
    GetStoredInvoice(invoices, k);
  }

  /** Removing one row of a table with unique ids removes that id and keeps
      every other row. */
  lemma RemoveInvoiceRow(invoices: seq<Invoice>, i: nat)
    requires UniqueInvoiceIds(invoices) && i < |invoices|
    ensures var rest := invoices[..i] + invoices[i + 1..];
      && UniqueInvoiceIds(rest)
      && (forall k :: 0 <= k < |rest| ==> rest[k].id != invoices[i].id)
      && (forall k :: 0 <= k < |invoices| && k != i ==> invoices[k] in rest)
  {
    var rest := invoices[..i] + invoices[i + 1..];
    assert forall k :: 0 <= k < |rest| ==> rest[k] == invoices[if k < i then k else k + 1];
    forall k | 0 <= k < |invoices| && k != i ensures invoices[k] in rest {
      assert rest[if k < i then k else k - 1] == invoices[k];
    }
  }

  // ------------------------------------------------------------- the store

  /** The database session's view of the three tables. */
  class Database {
    var sellers: seq<Seller>
    var products: seq<Product>
    var invoices: seq<Invoice>

    ghost predicate Valid()
      reads this
    {
      UniqueSellerIds(sellers) && UniqueProductIds(products) && UniqueInvoiceIds(invoices)
    }

    constructor ()
      ensures Valid()
      ensures sellers == [] && products == [] && invoices == []
    {
      sellers, products, invoices := [], [], [];
    }

    /** `create_Seller`: the input is stored with its password replaced by a
        hash of it. `id` is the fresh uuid4 the table draws. */
    method CreateSeller(input: SellerInput, id: Id, h: Hasher, salt: nat) returns (seller: Seller)
      requires Valid()
      requires forall k :: 0 <= k < |sellers| ==> sellers[k].id != id
      modifies this
      ensures Valid()
      ensures seller == NewSeller(input, id, h.hash(salt, input.password))
      ensures seller.id == id && seller.password == h.hash(salt, input.password)
      ensures seller.phoneNumber == input.details.phoneNumber && seller.email == EmailOf(input.details)
      ensures seller.name == ValueOr(input.details.name, None)
      ensures seller.storeName == ValueOr(input.details.storeName, None)
      ensures seller.storeDescription == ValueOr(input.details.storeDescription, None)
      ensures seller.storeAddress == ValueOr(input.details.storeAddress, None)
      ensures seller.instaLink == ValueOr(input.details.instaLink, None)
      ensures sellers == old(sellers) + [seller]
      ensures products == old(products) && invoices == old(invoices)
    {
      seller := NewSeller(input, id, h.hash(salt, input.password));
      sellers := sellers + [seller];
    }

    /** `session.add(seller); session.commit()` for a seller record read
        from this session: the record is written back over its row. */
    method SaveSeller(s: Seller)
      requires Valid()
      requires SellerIndex(sellers, s.id).Some?
      modifies this
      ensures Valid()
      ensures sellers == old(sellers)[SellerIndex(old(sellers), s.id).value := s]
      ensures products == old(products) && invoices == old(invoices)
    {
      var i := SellerIndex(sellers, s.id).value;
      sellers := sellers[i := s];
    }

    /** `update_user`: `None` for an unknown id; otherwise every field the
        payload carries is assigned in turn (the password verbatim) and the
        row is written back. */
    method UpdateUser(userId: Id, data: SellerInput) returns (r: Option<Seller>)
      requires Valid()
      modifies this
      ensures Valid()
      ensures products == old(products) && invoices == old(invoices)
      ensures match SellerIndex(old(sellers), userId)
        case None => r.None? && sellers == old(sellers)
        case Some(i) =>
          && r == Some(WithDetails(old(sellers)[i], data.details).(password := data.password))
          && sellers == old(sellers)[i := r.value]
    {
      var found := SellerIndex(sellers, userId);
      if found.None? {
        return None;
      }
      var i := found.value;
      var row := sellers[i];
      var user := AssignFields(row, InputItems(data));
      InputPayloadWritesPasswordVerbatim(row, data);
      ReplaceSeller(sellers, i, user);
      sellers := sellers[i := user];
      r := Some(user);
    }

    /** `create_product`: every candidate becomes a row owned by `sellerId`,
        all committed together. A failing commit is printed and swallowed:
        then no row is added and nothing is raised. */
    method CreateProducts(candidates: seq<InputProduct>, sellerId: Id, ids: seq<Id>, commitFails: bool)
      requires Valid()
      requires |ids| >= |candidates| && FreshProductIds(products, ids)
      modifies this
      ensures Valid()
      ensures products == old(products) + (if commitFails then [] else Stamp(candidates, sellerId, ids))
      ensures sellers == old(sellers) && invoices == old(invoices)
    {
      var pending: seq<Product> := [];
      var k := 0;
      while k < |candidates|
        invariant 0 <= k <= |candidates|
        invariant pending == Stamp(candidates[..k], sellerId, ids)
      {
        pending := pending + [NewProduct(candidates[k], ids[k], sellerId)];
        k := k + 1;
      }
      assert candidates[..|candidates|] == candidates;
      if !commitFails {
        var added := products + pending;
        forall i, j | 0 <= i < j < |added| ensures added[i].id != added[j].id {
          if j >= |products| && i < |products| {
            assert added[i] in products;
          }
        }
        products := added;
      }
    }

    /** `create_invoice`: the owner is the caller and the creation date the
        server's clock, whatever the body holds. */
    method CreateInvoice(input: InvoiceInput, userId: Id, id: Id, now: Timestamp) returns (inv: Invoice)
      requires Valid()
      requires forall k :: 0 <= k < |invoices| ==> invoices[k].id != id
      modifies this
      ensures Valid()
      ensures inv == NewInvoice(input, id, userId, now)
      ensures inv.id == id && inv.sellerId == userId && inv.createdDate == now
      ensures inv.totalPrice == input.totalPrice && inv.items == input.items
      ensures inv.customerName == ValueOr(input.customerName, None)
      ensures inv.customerPhoneNumber == ValueOr(input.customerPhoneNumber, None)
      ensures inv.customerEmail == ValueOr(input.customerEmail, None)
      ensures inv.customerAddress == ValueOr(input.customerAddress, None)
      ensures inv.status == ValueOr(input.status, Some(DefaultStatus))
      ensures inv.paymentMode == ValueOr(input.paymentMode, Some(DefaultPaymentMode))
      ensures invoices == old(invoices) + [inv]
      ensures sellers == old(sellers) && products == old(products)
    {
      inv := NewInvoice(input, id, userId, now);
      invoices := invoices + [inv];
    }

    /** `update_invoice`: on 404 or 403 nothing changes; otherwise the row is
        replaced by the patched invoice. */
    method UpdateInvoice(patch: InvoicePatch, userId: Id) returns (r: Result<Invoice>)
      requires Valid()
      modifies this
      ensures Valid()
      ensures r == InvoiceUpdate(old(invoices), patch, userId)
      ensures r.Err? ==> invoices == old(invoices)
      ensures r.Ok? ==> invoices == old(invoices)[InvoiceIndex(old(invoices), patch.id).value := r.value]
      ensures sellers == old(sellers) && products == old(products)
    {
      r := InvoiceUpdate(invoices, patch, userId);
      if r.Ok? {
        var i := InvoiceIndex(invoices, patch.id).value;
        invoices := invoices[i := r.value];
      }
    }

    /** `delete_invoice`: nothing for an unknown id. Otherwise the invoice is
        deleted and committed; the relationship declares no delete cascade, so
        the flush first sets each line item's `invoice_id` to NULL, which the
        NOT NULL column refuses: an invoice with line items cannot be deleted
        and the commit raises. An invoice without items is removed. */
    method DeleteInvoice(invoiceId: Id) returns (r: Result<()>)
      requires Valid()
      modifies this
      ensures Valid()
      ensures sellers == old(sellers) && products == old(products)
      ensures match InvoiceIndex(old(invoices), invoiceId)
        case None => r == Ok(()) && invoices == old(invoices)
        case Some(i) =>
          if |old(invoices)[i].items| > 0 then r == Err(UnhandledError) && invoices == old(invoices)
          else r == Ok(()) && invoices == old(invoices)[..i] + old(invoices)[i + 1..]
      ensures r.Ok? ==> forall k :: 0 <= k < |invoices| ==> invoices[k].id != invoiceId
    {
      var found := InvoiceIndex(invoices, invoiceId);
      if found.None? {
        return Ok(());
      }
      var i := found.value;
      if |invoices[i].items| > 0 {
        return Err(UnhandledError);
      }
      RemoveInvoiceRow(invoices, i);
      invoices := invoices[..i] + invoices[i + 1..];
      r := Ok(());
    }
  }
}

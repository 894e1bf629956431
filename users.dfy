/** app/api/routers/users.py: the routes a signed-in seller calls to register
    products, list invoices, change the password and edit the profile.
    `currentUser` is always the seller `_get_current_user` returned, that is
    the stored row with that id. */
module Users {
  import opened Outcomes
  import opened Models
  import opened Tables
  import opened Security
  import opened Crud

  // ------------------------------------------------------ product batches

  /** Some product in `ps` carries `name`. */
  predicate HasName(ps: seq<InputProduct>, name: string) {
    exists k :: 0 <= k < |ps| && ps[k].name == name
  }

  /** The test "is called `name`", for `Find`. */
  function NameIs(name: string): InputProduct -> bool {
    (p: InputProduct) => p.name == name
  }

  /** `x` is the first product of `batch` with its name. */
  ghost predicate IsFirstOccurrence(batch: seq<InputProduct>, x: InputProduct) {
    var f := Find(batch, NameIs(x.name));
    f.Some? && batch[f.value] == x
  }

  /** `r` holds one product per name of `batch`, the first one sent with
      that name. */
  ghost predicate DedupOf(batch: seq<InputProduct>, r: seq<InputProduct>) {
    && |r| <= |batch|
    && (forall i, j :: 0 <= i < j < |r| ==> r[i].name != r[j].name)
    && (forall i :: 0 <= i < |r| ==> IsFirstOccurrence(batch, r[i]))
    && (forall k {:trigger HasName(r, batch[k].name)} :: 0 <= k < |batch| ==> HasName(r, batch[k].name))
  }

  /** Appending a product keeps every first occurrence a first occurrence. */
  lemma FirstOccurrencesStay(init: seq<InputProduct>, last: InputProduct, rest: seq<InputProduct>)
    requires forall i :: 0 <= i < |rest| ==> IsFirstOccurrence(init, rest[i])
    ensures forall i :: 0 <= i < |rest| ==> IsFirstOccurrence(init + [last], rest[i])
  {
    forall i | 0 <= i < |rest| ensures IsFirstOccurrence(init + [last], rest[i]) {
      FindAppend(init, last, NameIs(rest[i].name));
    }
  }

  /** A product whose name was never sent before is its own first occurrence. */
  lemma NewNameIsFirst(init: seq<InputProduct>, last: InputProduct)
    requires !HasName(init, last.name)
    ensures IsFirstOccurrence(init + [last], last)
  {
    assert Find(init, NameIs(last.name)).None? by {
      forall k | 0 <= k < |init| ensures !NameIs(last.name)(init[k]) {
        assert init[k].name != last.name;
      }
    }
    FindAppend(init, last, NameIs(last.name));
    assert (init + [last])[|init|] == last;
  }

  /** A product whose name was seen already adds nothing. */
  lemma DedupKeep(init: seq<InputProduct>, last: InputProduct, rest: seq<InputProduct>)
    requires DedupOf(init, rest) && HasName(rest, last.name)
    ensures DedupOf(init + [last], rest)
  {
    var batch := init + [last];
    FirstOccurrencesStay(init, last, rest);
    forall k | 0 <= k < |batch| ensures HasName(rest, batch[k].name) {
      if k < |init| {
        assert batch[k] == init[k] && HasName(rest, init[k].name);
      }
    }
  }

  /** A product with a new name is kept, after the ones kept before it. */
  lemma DedupAdd(init: seq<InputProduct>, last: InputProduct, rest: seq<InputProduct>)
    requires DedupOf(init, rest) && !HasName(rest, last.name)
    ensures DedupOf(init + [last], rest + [last])
  {
    var batch := init + [last];
    var r := rest + [last];
    FirstOccurrencesStay(init, last, rest);
    forall k | 0 <= k < |init| ensures init[k].name != last.name {
      assert HasName(rest, init[k].name);
    }
    NewNameIsFirst(init, last);
    assert forall i :: 0 <= i < |r| ==> IsFirstOccurrence(batch, r[i]) by {
      forall i | 0 <= i < |r| ensures IsFirstOccurrence(batch, r[i]) {
        if i < |rest| {
          assert r[i] == rest[i];
        }
      }
    }
    forall k | 0 <= k < |batch| ensures HasName(r, batch[k].name) {
      if k < |init| {
        assert batch[k] == init[k] && HasName(rest, init[k].name);
        var i :| 0 <= i < |rest| && rest[i].name == init[k].name;
        assert r[i] == rest[i];
      } else {
        assert r[|rest|] == batch[k];
      }
    }
  }

  /** `set(products)`: products are equal exactly when their names are, and a
      set keeps the element it saw first, so one product per name survives,
      the first one sent. Here in order of first appearance. */
  function Dedup(batch: seq<InputProduct>): (r: seq<InputProduct>)
    ensures DedupOf(batch, r)
  {
    if |batch| == 0 then []
    else
      var init := batch[..|batch| - 1];
      var last := batch[|batch| - 1];
      assert batch == init + [last];
      var rest := Dedup(init);
      if HasName(rest, last.name) then
        DedupKeep(init, last, rest);
        rest
      else
        DedupAdd(init, last, rest);
        rest + [last]
  }

  /** For every name sent, the product kept is the first one sent with it. */
  lemma FirstOccurrenceWins(batch: seq<InputProduct>, k: nat)
    requires k < |batch|
    requires forall j :: 0 <= j < k ==> batch[j].name != batch[k].name
    ensures batch[k] in Dedup(batch)
  {
    var r := Dedup(batch);
    assert HasName(r, batch[k].name);
    var i :| 0 <= i < |r| && r[i].name == batch[k].name;
    assert IsFirstOccurrence(batch, r[i]);
    assert Find(batch, NameIs(batch[k].name)) == Some(k) by {
      var first := Find(batch, NameIs(batch[k].name)).value;
      assert !(first < k) && !(k < first);
    }
    assert r[i] == batch[k];
  }

  /** What `set(products)` promises under `InputProduct`'s equality: no two
      kept products are equal, and every product sent equals a kept one. */
  lemma DedupIsProductSet(batch: seq<InputProduct>)
    ensures var r := Dedup(batch);
      && (forall i, j :: 0 <= i < j < |r| ==> !SameProduct(r[i], r[j]))
      && (forall k :: 0 <= k < |batch| ==> exists i :: 0 <= i < |r| && SameProduct(r[i], batch[k]))
  {
    var r := Dedup(batch);
    forall i, j | 0 <= i < j < |r| ensures !SameProduct(r[i], r[j]) {
      ProductIdentityIsName(r[i], r[j]);
    }
    forall k | 0 <= k < |batch| ensures exists i :: 0 <= i < |r| && SameProduct(r[i], batch[k]) {
      assert HasName(r, batch[k].name);
      var i :| 0 <= i < |r| && r[i].name == batch[k].name;
      ProductIdentityIsName(r[i], batch[k]);
    }
  }

  /** A later duplicate is dropped, whatever its description and price. */
  lemma LaterDuplicateIsDropped(a: InputProduct, b: InputProduct)
    requires a.name == b.name && a != b
    ensures Dedup([a, b]) == [a]
  {
    assert [a, b][..1] == [a];
    assert Dedup([a]) == [a];
  }

  /** The seller already owns a product called `name`. */
  predicate Owned(existing: seq<Product>, name: string) {
    exists i :: 0 <= i < |existing| && existing[i].name == name
  }

  /** The test "not owned yet", for `Where`. */
  function IsNew(existing: seq<Product>): InputProduct -> bool {
    (p: InputProduct) => !Owned(existing, p.name)
  }

  /** Every name sent and not owned yet survives de-duplication and the
      existence filter. */
  lemma UnownedNamesAreKept(existing: seq<Product>, batch: seq<InputProduct>, k: nat)
    requires k < |batch| && !Owned(existing, batch[k].name)
    ensures HasName(Where(Dedup(batch), IsNew(existing)), batch[k].name)
  {
    var unique := Dedup(batch);
    assert HasName(unique, batch[k].name);
    var i :| 0 <= i < |unique| && unique[i].name == batch[k].name;
    var kept := Where(unique, IsNew(existing));
    assert unique[i] in kept;
    var j :| 0 <= j < |kept| && kept[j] == unique[i];
  }

  /** The filter leaves nothing exactly when every name sent is owned. */
  lemma NothingKeptIffAllOwned(existing: seq<Product>, batch: seq<InputProduct>)
    ensures Where(Dedup(batch), IsNew(existing)) == []
        <==> forall k :: 0 <= k < |batch| ==> Owned(existing, batch[k].name)
  {
    var unique := Dedup(batch);
    var kept := Where(unique, IsNew(existing));
    if kept != [] {
      var x := kept[0];
      assert x in unique;
      var i :| 0 <= i < |unique| && unique[i] == x;
      assert IsFirstOccurrence(batch, unique[i]);
      var k := Find(batch, NameIs(x.name)).value;
      assert !Owned(existing, batch[k].name);
    } else {
      forall k | 0 <= k < |batch| ensures Owned(existing, batch[k].name) {
        if !Owned(existing, batch[k].name) {
          UnownedNamesAreKept(existing, batch, k);
        }
      }
    }
  }

  const AllExist := HttpError(BadRequest, "All Products already exist for this seller.")

  /** What `create_product` decides to insert, given the seller's products:
      the de-duplicated batch, less (only when the seller owns products at
      all) every name already owned; nothing left is a 400. */
  function ProductBatch(existing: seq<Product>, batch: seq<InputProduct>): (r: Result<seq<InputProduct>>)
    ensures r.Err? ==> r.error == AllExist
    ensures r.Err? <==> |existing| > 0 && forall k :: 0 <= k < |batch| ==> Owned(existing, batch[k].name)
    ensures |existing| == 0 ==> r == Ok(Dedup(batch))
    ensures r.Ok? ==> |r.value| <= |batch|
    ensures r.Ok? ==> forall i, j :: 0 <= i < j < |r.value| ==> r.value[i].name != r.value[j].name
    ensures r.Ok? ==> forall i :: 0 <= i < |r.value| ==> r.value[i] in Dedup(batch) && !Owned(existing, r.value[i].name)
    ensures r.Ok? ==> forall k {:trigger HasName(r.value, batch[k].name)} ::
              0 <= k < |batch| && !Owned(existing, batch[k].name) ==> HasName(r.value, batch[k].name)
  {
    var unique := Dedup(batch);
    if |existing| == 0 then
      assert forall i :: 0 <= i < |unique| ==> unique[i] in unique;
      Ok(unique)
    else
      var kept := Where(unique, IsNew(existing));
      KeptNames(existing, batch);
      if kept == [] then Err(AllExist) else Ok(kept)
  }

  /** What the existence filter leaves of the de-duplicated batch. */
  lemma KeptNames(existing: seq<Product>, batch: seq<InputProduct>)
    ensures var kept := Where(Dedup(batch), IsNew(existing));
      && (kept == [] <==> forall k :: 0 <= k < |batch| ==> Owned(existing, batch[k].name))
      && |kept| <= |batch|
      && (forall i, j :: 0 <= i < j < |kept| ==> kept[i].name != kept[j].name)
      && (forall i :: 0 <= i < |kept| ==> kept[i] in Dedup(batch) && !Owned(existing, kept[i].name))
      && (forall k {:trigger HasName(kept, batch[k].name)} ::
            0 <= k < |batch| && !Owned(existing, batch[k].name) ==> HasName(kept, batch[k].name))
  {
    var unique := Dedup(batch);
    var kept := Where(unique, IsNew(existing));
    WhereDistinct(unique, IsNew(existing), (p: InputProduct) => p.name);
    NothingKeptIffAllOwned(existing, batch);
    forall k | 0 <= k < |batch| && !Owned(existing, batch[k].name) ensures HasName(kept, batch[k].name) {
      UnownedNamesAreKept(existing, batch, k);
    }
  }

  /** A seller with no products may send an empty batch: nothing is refused
      and nothing is added. */
  lemma FirstEmptyBatchIsAccepted(products: seq<Product>, sellerId: Id, ids: seq<Id>)
    requires GetSellerProduct(products, sellerId) == []
    ensures ProductBatch(GetSellerProduct(products, sellerId), []) == Ok([])
    ensures GetSellerProduct(products + Stamp([], sellerId, ids), sellerId) == []
  {
    assert products + Stamp([], sellerId, ids) == products;
  }

  /** A seller who owns products and sends an empty batch gets the 400. */
  lemma LaterEmptyBatchIsRefused(existing: seq<Product>)
    requires |existing| > 0
    ensures ProductBatch(existing, []) == Err(AllExist)
  {
  }

  /** The list returned after a registration is the seller's earlier list
      followed by the new rows, not only the new rows. */
  lemma ListAfterRegistration(products: seq<Product>, sellerId: Id, batch: seq<InputProduct>, ids: seq<Id>)
    requires |ids| >= |batch|
    requires ProductBatch(GetSellerProduct(products, sellerId), batch).Ok?
    ensures var added := Stamp(ProductBatch(GetSellerProduct(products, sellerId), batch).value, sellerId, ids);
      GetSellerProduct(products + added, sellerId) == GetSellerProduct(products, sellerId) + added
  {
    var added := Stamp(ProductBatch(GetSellerProduct(products, sellerId), batch).value, sellerId, ids);
    GetSellerProductAppend(products, added, sellerId);
    StampedAreOwned(ProductBatch(GetSellerProduct(products, sellerId), batch).value, sellerId, ids);
  }

  /** No two products of `ps` share a name. */
  ghost predicate DistinctNames(ps: seq<Product>) {
    forall i, j :: 0 <= i < j < |ps| ==> ps[i].name != ps[j].name
  }

  /** Appending products whose names are new and pairwise distinct keeps
      the names of a list distinct. */
  lemma AppendDistinctNames(before: seq<Product>, chosen: seq<InputProduct>, added: seq<Product>)
    requires DistinctNames(before) && |added| == |chosen|
    requires forall k :: 0 <= k < |added| ==> added[k].name == chosen[k].name
    requires forall i, j :: 0 <= i < j < |chosen| ==> chosen[i].name != chosen[j].name
    requires forall i :: 0 <= i < |chosen| ==> !Owned(before, chosen[i].name)
    ensures DistinctNames(before + added)
  {
    var after := before + added;
    forall i, j | 0 <= i < j < |after| ensures after[i].name != after[j].name {
      if i >= |before| {
        assert after[i] == added[i - |before|] && after[j] == added[j - |before|];
      } else if j >= |before| {
        assert after[i] == before[i] && after[j] == added[j - |before|];
      }
    }
  }

  /** If the seller's product names were distinct before a registration,
      they still are after it. */
  lemma NamesStayDistinct(products: seq<Product>, sellerId: Id, batch: seq<InputProduct>, ids: seq<Id>)
    requires |ids| >= |batch|
    requires DistinctNames(GetSellerProduct(products, sellerId))
    requires ProductBatch(GetSellerProduct(products, sellerId), batch).Ok?
    ensures var added := Stamp(ProductBatch(GetSellerProduct(products, sellerId), batch).value, sellerId, ids);
      DistinctNames(GetSellerProduct(products + added, sellerId))
  {
    var before := GetSellerProduct(products, sellerId);
    var chosen := ProductBatch(before, batch).value;
    var added := Stamp(chosen, sellerId, ids);
    ListAfterRegistration(products, sellerId, batch, ids);
    AppendDistinctNames(before, chosen, added);
  }

  /** The names of some products. */
  function ProductNames(ps: seq<Product>): set<string> {
    set p | p in ps :: p.name
  }

  /** Every product kept is one that was sent. */
  lemma DedupFromBatch(batch: seq<InputProduct>)
    ensures forall i :: 0 <= i < |Dedup(batch)| ==> Dedup(batch)[i] in batch
  {
    var r := Dedup(batch);
    forall i | 0 <= i < |r| ensures r[i] in batch {
      assert IsFirstOccurrence(batch, r[i]);
    }
  }

  /** Appending products named after the sent ones, covering every sent name
      not owned yet, gives the owned names plus the sent names. */
  lemma AppendNames(before: seq<Product>, chosen: seq<InputProduct>, added: seq<Product>, batch: seq<InputProduct>)
    requires |added| == |chosen|
    requires forall k :: 0 <= k < |added| ==> added[k].name == chosen[k].name
    requires forall i :: 0 <= i < |chosen| ==> chosen[i] in batch
    requires forall k {:trigger HasName(chosen, batch[k].name)} ::
               0 <= k < |batch| && !Owned(before, batch[k].name) ==> HasName(chosen, batch[k].name)
    ensures ProductNames(before + added) == ProductNames(before) + (set p | p in batch :: p.name)
  {
    var after := before + added;
    var sent := set p | p in batch :: p.name;
    forall n | n in ProductNames(after) ensures n in ProductNames(before) + sent {
      var p :| p in after && p.name == n;
      if p !in before {
        var k :| 0 <= k < |added| && added[k] == p;
        assert chosen[k] in batch;
      }
    }
    forall n | n in ProductNames(before) + sent ensures n in ProductNames(after) {
      if n !in ProductNames(before) {
        var p :| p in batch && p.name == n;
        var k :| 0 <= k < |batch| && batch[k] == p;
        assert HasName(chosen, batch[k].name);
        var i :| 0 <= i < |chosen| && chosen[i].name == n;
        assert added[i] in after;
      }
    }
  }

  /** After a registration the seller owns a product of every name it held
      before and of every name it sent, and of no other name. */
  lemma NamesAfterRegistration(products: seq<Product>, sellerId: Id, batch: seq<InputProduct>, ids: seq<Id>)
    requires |ids| >= |batch|
    requires ProductBatch(GetSellerProduct(products, sellerId), batch).Ok?
    ensures var added := Stamp(ProductBatch(GetSellerProduct(products, sellerId), batch).value, sellerId, ids);
      ProductNames(GetSellerProduct(products + added, sellerId))
        == ProductNames(GetSellerProduct(products, sellerId)) + (set p | p in batch :: p.name)
  {
    var before := GetSellerProduct(products, sellerId);
    var chosen := ProductBatch(before, batch).value;
    var added := Stamp(chosen, sellerId, ids);
    ListAfterRegistration(products, sellerId, batch, ids);
    DedupFromBatch(batch);
    AppendNames(before, chosen, added, batch);
  }

  /** `create_product`. `ids` are the uuid4 ids the new rows draw and
      `commitFails` whether the commit raised: the failure is swallowed and
      nothing is added, but the session is then left needing a rollback, so
      the query that follows raises and the request ends in a server error. */
  method CreateProduct(db: Database, currentUser: Seller, batch: seq<InputProduct>, ids: seq<Id>,
                       commitFails: bool) returns (r: Result<seq<Product>>)
    requires db.Valid()
    requires |ids| >= |batch| && FreshProductIds(db.products, ids)
    modifies db
    ensures db.Valid()
    ensures db.sellers == old(db.sellers) && db.invoices == old(db.invoices)
    ensures match ProductBatch(GetSellerProduct(old(db.products), currentUser.id), batch)
      case Err(e) => r == Err(e) && db.products == old(db.products)
      case Ok(chosen) =>
        && db.products == old(db.products) + (if commitFails then [] else Stamp(chosen, currentUser.id, ids))
        && r == (if commitFails then Err(UnhandledError) else Ok(GetSellerProduct(db.products, currentUser.id)))
  {
    var existing := GetSellerProduct(db.products, currentUser.id);
    var decision := ProductBatch(existing, batch);
    if decision.Err? {
      return Err(decision.error);
    }
    db.CreateProducts(decision.value, currentUser.id, ids, commitFails);
    if commitFails {
      return Err(UnhandledError);
    }
    r := Ok(GetSellerProduct(db.products, currentUser.id));
  }

  // ------------------------------------------------------ invoice listing

  const NoInvoicesFound := HttpError(NotFound, "No invoices found")

  /** The declared bound on `limit`, which is also its default. */
  const MaxPageSize := 10

  /** `get_invoices` as written: `offset` defaults to 0 and `limit` to 10,
      a `limit` above 10 is refused by validation, and an empty page is a
      404. Only `le=10` is declared, so a negative `limit` is let through
      and SQLite then returns every remaining invoice. */
  function GetInvoices(invoices: seq<Invoice>, userId: Id, offset: Field<int>, limit: Field<int>)
    : (r: Result<seq<Invoice>>)
    ensures r == Err(ValidationFailed) <==> ValueOr(limit, MaxPageSize) > MaxPageSize
    ensures r.Err? ==> r.error == ValidationFailed || r.error == NoInvoicesFound
    ensures r.Ok? ==> |r.value| > 0 && NewestFirst(r.value)
    ensures r.Ok? ==> forall k :: 0 <= k < |r.value| ==> r.value[k] in invoices && r.value[k].sellerId == userId
    ensures r.Ok? && 0 <= ValueOr(limit, MaxPageSize) ==> |r.value| <= MaxPageSize
    ensures r.Ok? ==> r.value == GetSellerInvoices(invoices, userId, ValueOr(offset, 0), ValueOr(limit, MaxPageSize))
    ensures r == Err(NoInvoicesFound) <==>
              ValueOr(limit, MaxPageSize) <= MaxPageSize
              && GetSellerInvoices(invoices, userId, ValueOr(offset, 0), ValueOr(limit, MaxPageSize)) == []
  {
    var lim := ValueOr(limit, MaxPageSize);
    if lim > MaxPageSize then Err(ValidationFailed)
    else
      var page := GetSellerInvoices(invoices, userId, ValueOr(offset, 0), lim);
      if page == [] then Err(NoInvoicesFound) else Ok(page)
  }

  /** With no parameters the first ten of the seller's invoices, newest
      first, are returned. */
  lemma DefaultPageIsNewestTen(invoices: seq<Invoice>, userId: Id)
    requires |Where(invoices, (inv: Invoice) => inv.sellerId == userId)| >= MaxPageSize
    ensures var r := GetInvoices(invoices, userId, Unset, Unset);
      && r.Ok? && |r.value| == MaxPageSize
      && r.value == SellerInvoicesNewestFirst(invoices, userId)[..MaxPageSize]
  {
    var all := SellerInvoicesNewestFirst(invoices, userId);
    var page := GetSellerInvoices(invoices, userId, 0, MaxPageSize);
    assert page == Page(all, 0, MaxPageSize);
    assert all[0..] == all;
    assert page == all[..MaxPageSize];
    assert GetInvoices(invoices, userId, Unset, Unset) == Ok(page);
  }

  /** The bug: `limit=-1` passes validation and lists every invoice of the
      seller, however many there are. */
  lemma NegativeLimitListsEverything(invoices: seq<Invoice>, userId: Id)
    requires |Where(invoices, (inv: Invoice) => inv.sellerId == userId)| > MaxPageSize
    ensures var r := GetInvoices(invoices, userId, Unset, Set(-1));
      r.Ok? && |r.value| > MaxPageSize
  {
    var all := SellerInvoicesNewestFirst(invoices, userId);
    var page := GetSellerInvoices(invoices, userId, 0, -1);
    assert page == Page(all, 0, -1);
    assert all[0..] == all;
    assert page == all;
    assert GetInvoices(invoices, userId, Unset, Set(-1)) == Ok(page);
  }

  /** `get_invoices` with the evidently intended bound `0 <= limit <= 10`:
      a page is never longer than ten. */
  function GetInvoicesChecked(invoices: seq<Invoice>, userId: Id, offset: Field<int>, limit: Field<int>)
    : (r: Result<seq<Invoice>>)
    ensures r == Err(ValidationFailed) <==> !(0 <= ValueOr(limit, MaxPageSize) <= MaxPageSize)
    ensures r.Ok? ==> 1 <= |r.value| <= MaxPageSize
    ensures r.Ok? ==> NewestFirst(r.value)
    ensures r.Ok? ==> forall k :: 0 <= k < |r.value| ==> r.value[k] in invoices && r.value[k].sellerId == userId
    ensures 0 <= ValueOr(limit, MaxPageSize) ==> r == GetInvoices(invoices, userId, offset, limit)
  {
    if ValueOr(limit, MaxPageSize) < 0 then Err(ValidationFailed)
    else GetInvoices(invoices, userId, offset, limit)
  }

  // ------------------------------------------------------ password change

  const IncorrectPassword := HttpError(BadRequest, "Incorrect password")
  const SamePassword := HttpError(BadRequest, "New password cannot be the same as the current one")
  const PasswordUpdated := "Password updated successfully."

  /** The two guards of `update_user_password`, in order: the current
      password must verify against the stored hash, then the new one must
      differ from it. */
  function PasswordChangeCheck(h: Hasher, stored: string, currentPassword: string, newPassword: string)
    : (r: Option<HttpError>)
    ensures r == Some(IncorrectPassword) <==> !h.verify(currentPassword, stored)
    ensures r == Some(SamePassword) <==> h.verify(currentPassword, stored) && currentPassword == newPassword
    ensures r.None? <==> h.verify(currentPassword, stored) && currentPassword != newPassword
  {
    if !h.verify(currentPassword, stored) then Some(IncorrectPassword)
    else if currentPassword == newPassword then Some(SamePassword)
    else None
  }

  /** `update_user_password`: on either error nothing changes; otherwise the
      caller's row is rewritten with the hash of the new password and nothing
      else. */
  method UpdateUserPassword(db: Database, currentUser: Seller, currentPassword: string, newPassword: string,
                            h: Hasher, salt: nat) returns (r: Result<string>)
    requires db.Valid()
    requires GetSeller(db.sellers, currentUser.id) == Some(currentUser)
    modifies db
    ensures db.Valid()
    ensures db.products == old(db.products) && db.invoices == old(db.invoices)
    ensures var check := PasswordChangeCheck(h, currentUser.password, currentPassword, newPassword);
      && (check.Some? ==> r == Err(check.value) && db.sellers == old(db.sellers))
      && (check.None? ==>
            && r == Ok(PasswordUpdated)
            && db.sellers == old(db.sellers)[SellerIndex(old(db.sellers), currentUser.id).value
                                             := currentUser.(password := h.hash(salt, newPassword))])
  {
    var check := PasswordChangeCheck(h, currentUser.password, currentPassword, newPassword);
    if check.Some? {
      return Err(check.value);
    }
    db.SaveSeller(currentUser.(password := h.hash(salt, newPassword)));
    r := Ok(PasswordUpdated);
  }

  /** After a password change, logging in with the phone number and the new
      password finds the updated seller (when that phone number led to this
      seller before). */
  lemma NewPasswordAuthenticates(sellers: seq<Seller>, s: Seller, h: Hasher, salt: nat, newPassword: string,
                                 email: Option<string>)
    requires Sound(h) && UniqueSellerIds(sellers)
    requires GetSeller(sellers, s.id) == Some(s)
    requires GetUserByPhoneNumber(sellers, s.phoneNumber) == Some(s) && s.phoneNumber != ""
    ensures var updated := s.(password := h.hash(salt, newPassword));
      Authenticate(sellers[SellerIndex(sellers, s.id).value := updated], h, Some(s.phoneNumber), email, newPassword)
        == Some(updated)
  {
    var updated := s.(password := h.hash(salt, newPassword));
    var i := SellerIndex(sellers, s.id).value;
    var byPhone := (x: Seller) => x.phoneNumber == s.phoneNumber;
    var j := Find(sellers, byPhone).value;
    assert sellers[j] == s;
    assert j == i by {
      assert !(i < j) && !(j < i);
    }
    FindAfterUpdate(sellers, i, updated, byPhone);
  }

  // ------------------------------------------------------ profile update

  const EmailInUse := HttpError(Conflict, "User with this email already exists")

  /** The guard of `update_user_me`: only a non-empty email is checked, and
      only the first seller stored with it counts; it is a conflict when
      that seller is someone else. The phone number is not checked. */
  function EmailConflict(sellers: seq<Seller>, currentUserId: Id, d: SellerDetails): (r: Option<HttpError>)
    ensures r.Some? ==> r.value == EmailInUse
    ensures r.Some? <==>
              && Truthy(EmailOf(d))
              && exists k :: 0 <= k < |sellers| && sellers[k].email == EmailOf(d) && sellers[k].id != currentUserId
                             && forall j :: 0 <= j < k ==> sellers[j].email != EmailOf(d)
    ensures Truthy(EmailOf(d))
            && (forall k :: 0 <= k < |sellers| && sellers[k].email == EmailOf(d) ==> sellers[k].id == currentUserId)
            ==> r.None?
  {
    if !Truthy(EmailOf(d)) then None
    else match Find(sellers, (s: Seller) => s.email == EmailOf(d))
      case Some(k) => if sellers[k].id != currentUserId then Some(EmailInUse) else None
      case None => None
  }

  /** For the first seller holding an email, sending that email again is
      never a conflict, whoever else shares it further down the table. A
      later holder of the same email gets the 409. */
  lemma OwnEmailIsAllowed(sellers: seq<Seller>, s: Seller, d: SellerDetails)
    requires UniqueSellerIds(sellers) && GetUserByEmail(sellers, s.email) == Some(s)
    requires EmailOf(d) == s.email
    ensures EmailConflict(sellers, s.id, d).None?
  {
    var k := Find(sellers, (x: Seller) => x.email == EmailOf(d)).value;
    assert sellers[k] == s;
  }

  /** `update_user_me`: on a conflict nothing changes; otherwise the caller's
      row gets the payload's sent fields and its phone number, keeps its id
      and password, and is returned. */
  method UpdateUserMe(db: Database, currentUser: Seller, details: SellerDetails) returns (r: Result<Seller>)
    requires db.Valid()
    requires GetSeller(db.sellers, currentUser.id) == Some(currentUser)
    modifies db
    ensures db.Valid()
    ensures db.products == old(db.products) && db.invoices == old(db.invoices)
    ensures var conflict := EmailConflict(old(db.sellers), currentUser.id, details);
      && (conflict.Some? ==> r == Err(conflict.value) && db.sellers == old(db.sellers))
      && (conflict.None? ==>
            && r == Ok(WithDetails(currentUser, details))
            && db.sellers == old(db.sellers)[SellerIndex(old(db.sellers), currentUser.id).value := r.value])
    ensures r.Ok? ==> r.value.id == currentUser.id && r.value.password == currentUser.password
                      && r.value.phoneNumber == details.phoneNumber
  {
    var conflict := EmailConflict(db.sellers, currentUser.id, details);
    if conflict.Some? {
      return Err(conflict.value);
    }
    var updated := WithDetails(currentUser, details);
    ProfilePayloadFrame(currentUser, details);
    db.SaveSeller(updated);
    r := Ok(updated);
  }

  /** The handler never checks the phone number: with no email sent, a phone
      number another seller already has passes the only guard and is what
      the handler writes. Whether the commit then succeeds is up to the
      database's unique constraint, which is not modelled. */
  lemma PhoneCollisionIsNotChecked(sellers: seq<Seller>, me: Seller, other: Seller, d: SellerDetails)
    requires other in sellers && other.id != me.id
    requires d.phoneNumber == other.phoneNumber && d.email.Unset?
    ensures EmailConflict(sellers, me.id, d).None?
    ensures WithDetails(me, d).phoneNumber == other.phoneNumber
  {
    ProfilePayloadFrame(me, d);
  }
}

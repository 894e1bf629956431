# Invoice Management API — business rules in Dafny

This project models the request handlers and the data-access layer of a
small FastAPI/SQLModel service. The service lets sellers sign up, log in,
register their products, and create, list and update invoices. The model
runs everything against an in-memory store of three tables:

- sellers, keyed by id;
- products, each carrying its seller's id;
- invoices, keyed by id, each carrying its seller's id and holding its line items.

Each table is a sequence of rows in insertion order. `.first()` is therefore
the first matching row, and `.all()` lists the matching rows in table order.

Files and modules follow the source:

| file | module | source |
|---|---|---|
| `outcomes.dfy` | `Outcomes` | `Option`, pydantic's sent/unsent `Field`, Python truthiness, HTTP errors |
| `tables.dfy` | `Tables` | `select(...).where(...)`, `.first()`, `.all()`, `.offset().limit()` |
| `models.dfy` | `Models` | `app/models.py` |
| `security.dfy` | `Security` | the bcrypt and JWT calls of `app/utils/security.py`, as parameters |
| `crud.dfy` | `Crud` | `app/crud.py`; the writes are methods of `class Database` |
| `deps.dfy` | `Deps` | `_get_current_user` of `app/api/deps.py` |
| `signup.dfy` | `Signup` | `app/api/routers/signup.py` |
| `users.dfy` | `Users` | `app/api/routers/users.py` |

Modelling choices:

- Ids, salts and timestamps come in as arguments.
- bcrypt is a `Hasher` value. The one property the handlers rely on, that a
  password verifies against any hash of it, is the predicate `Sound` and is
  a precondition where it is needed.
- Decoding a token is an uninterpreted outcome (`JwtDecode`).
- Store failures are boolean arguments where the code handles them:
  the lookup in `_get_current_user` and the commit in `create_product`.
- Each handler that writes is a method. Beside it is the pure decision
  function it is proved against, and the lemmas are stated about those
  functions.

Where the code and its own description disagree, the model follows the code:

- Duplicate product names in one request keep the FIRST product sent. A Python set keeps
  the element it saw first; it is not "last write wins".
- A token that fails to decode gives 403, not 401. `decode_access_token`
  turns every decode failure into a 403 before `_get_current_user` could
  raise its 401 (`Deps.BadTokenIsForbiddenNotUnauthorized`).
- Deleting an invoice does not cascade to its line items. The database
  column declares `ondelete="CASCADE"`, but the ORM relationship has no
  delete cascade. On `session.delete`, the ORM first sets each item's
  `invoice_id` to NULL, and the column is NOT NULL. So an invoice with
  line items cannot be deleted, and the commit raises
  (`Crud.Database.DeleteInvoice`).
- An update payload's `invoiceitems` is ignored: `sqlmodel_update` writes
  columns only, and line items are a relationship (`Models.InvoicePatchFrame`).

## Model

| member | source | states |
|---|---|---|
| Tables.Find | app/crud.py:38-43 | the index of the first row satisfying the condition, and `None` exactly when no row does |
| Tables.Where | app/crud.py:121-127 | the rows returned all satisfy the condition and come from the table, every matching row is returned, and each as often as the table holds it (no repeats, nothing extra) |
| Tables.WhereDistinct | app/crud.py:121-127 | filtering keeps rows distinct by any key |
| Tables.FindAfterUpdate | app/api/routers/users.py:114-116 | rewriting a row without changing what the lookup tests leaves the lookup's result where it was |
| Tables.Page | app/crud.py:169 | OFFSET/LIMIT as SQLite reads them: a negative offset counts as zero; with `limit >= 0` exactly `limit` rows, or all remaining rows when fewer remain; with a negative `limit` all remaining rows; the rows are the contiguous run from the offset on |
| Tables.PagesAreConsecutive | app/crud.py:169 | two consecutive pages read one after the other are the page spanning both |
| Tables.PagesDoNotOverlap | app/crud.py:169 | with distinct rows, no row appears on two consecutive pages |
| Models.AssignDetails | app/crud.py:95-96 | one `setattr` per sent field, in order, is the field-by-field partial update |
| Models.ProfilePayloadFrame | app/models.py:9-22 | a `BaseSeller` payload can never change id or password; sent fields are written and unsent ones are kept; the phone number is always written |
| Models.InputPayloadWritesPasswordVerbatim | app/crud.py:92-100 | updating with an `InputSellers` payload writes its password as given, unhashed |
| Models.ProductIdentityIsName | app/models.py:134-140 | two input products are equal exactly when their hash keys are equal, which is exactly when their names are; description and price are ignored |
| Models.NewInvoiceDefaults | app/models.py:60-72 | a new invoice gets the caller as owner and the server's clock as its date; it carries the sent total, line items, customer fields, status and payment mode; an unsent customer field is `None`, and status and payment mode default to "Pending" and "Cash" |
| Models.InvoicePatchFrame | app/crud.py:189-191 | an update payload never changes the owner or the line items (a sent `invoiceitems` is dropped, since it is a relationship and not a column), writes the creation date and total price it carries, and for each of the six optional columns writes the sent value and keeps the stored one when unsent |
| Models.PhoneNumberShape | app/models.py:12-18 | the declared constraint accepts exactly 10 to 15 digits not starting with 0, or a plus followed by 9 to 14 digits not starting with 0 |
| Models.PhoneNumberExamples | app/models.py:12-18 | the documented example number passes the constraint; the same number with a leading 0 fails it |
| Models.PasswordPatternUnanchored | app/models.py:27-29 | the password pattern is not anchored, so a password with characters outside the class passes; length is 8 to 30 |
| Security.DecodeAccessToken | app/utils/security.py:29-37 | every decode failure becomes 403 "Could not validate credentials"; a raw `InvalidTokenError` never escapes |
| Crud.GetSeller | app/api/deps.py:43 | the seller with that id, or `None` exactly when no seller has it |
| Crud.SellerIndex | app/crud.py:92 | the row `GetSeller` reads |
| Crud.GetStoredSeller | app/api/deps.py:43-48 | with unique ids, looking a stored seller up by its id gives that seller |
| Crud.GetUserByEmail | app/crud.py:34-43 | a seller with that email (a missing email matches sellers stored without one), or `None` exactly when there is none |
| Crud.GetUserByPhoneNumber | app/crud.py:46-58 | a seller with that phone number, or `None` exactly when there is none |
| Crud.Authenticate | app/crud.py:66-83 | a non-empty phone number decides the lookup, with no fallback to the email; otherwise the email does; with neither the result is `None`; the seller the lookup finds is returned exactly when the password verifies against its stored hash, and no other seller is ever returned |
| Crud.GetSellerProduct | app/crud.py:121-127 | exactly the products carrying that seller id, each as often as the table holds it |
| Crud.GetSellerProductAppend | app/crud.py:121-127 | new rows extend a seller's list by that seller's new rows only |
| Crud.Stamp | app/crud.py:113-115 | one row per candidate, in order: each row has its own new id and the caller's seller id, and copies the candidate's name, description and price |
| Crud.StampedAreOwned | app/crud.py:113-115 | every stamped row shows up in the caller's product list |
| Crud.InvoiceIndex | app/crud.py:180 | the row of the invoice with that id, or `None` exactly when no invoice has it |
| Crud.GetInvoiceById | app/crud.py:148-155 | the invoice with that id, or `None` exactly when there is none |
| Crud.GetStoredInvoice | app/crud.py:148-155 | with unique ids, looking a stored invoice up by its id gives that invoice |
| Crud.InsertByDate | app/crud.py:167 | inserting into a newest-first list keeps it newest first and adds exactly that invoice |
| Crud.OrderByCreatedDesc | app/crud.py:167 | `ORDER BY created_date DESC`: newest first, and a permutation of the input |
| Crud.SellerInvoicesNewestFirst | app/crud.py:167-168 | the seller's invoices, newest first, a permutation of the seller's rows |
| Crud.GetSellerInvoices | app/crud.py:158-171 | only invoices of the caller, from the table, newest first; exactly the window of the caller's newest-first invoices that starts at `offset` and holds `limit` of them, or all remaining when fewer remain or `limit` is negative |
| Crud.SellerInvoicePagesAreConsecutive | app/crud.py:169 | paging through the seller's invoices neither skips nor repeats one |
| Crud.InvoiceUpdate | app/crud.py:180-191 | 404 exactly when no invoice has the payload's id, checked first; 403 only for an invoice owned by someone else; otherwise the caller's invoice with the payload's sent columns written over it and its line items kept |
| Crud.ForeignInvoiceIsForbidden | app/crud.py:184-188 | another seller's invoice is always refused with 403, whatever the payload |
| Crud.RemoveInvoiceRow | app/crud.py:205 | deleting a row removes that id and keeps every other row |
| Models.NewSellerFields | app/crud.py:26-31 | a new seller row keeps every input field: each sent field is stored as sent, an unsent one is `None`, and the password column holds the value the caller stores |
| Crud.Database.CreateSeller | app/crud.py:22-31 | exactly one seller is added, and nothing else changes; it keeps the input's name, email, phone number and store fields, and its password is a hash of the one sent |
| Crud.Database.SaveSeller | app/api/routers/users.py:114-117 | the session's seller record is written back over its own row, and no other row changes |
| Crud.AssignFields | app/crud.py:95-96 | the `setattr` loop leaves the record with each sent field assigned in turn, in the payload's order |
| Crud.Database.UpdateUser | app/crud.py:86-100 | `None` and no change for an unknown id; otherwise exactly the sent fields are overwritten (the password verbatim), and nothing else changes |
| Crud.Database.CreateProducts | app/crud.py:108-118 | every candidate is added, stamped with the caller's id, all in one commit; a failed commit adds nothing and raises nothing |
| Crud.Database.CreateInvoice | app/crud.py:135-145 | one invoice is added, and nothing else changes; it is owned by the caller and dated by the server, and it carries the sent customer fields, total and line items, with status and payment mode defaulting to "Pending" and "Cash" |
| Crud.Database.UpdateInvoice | app/crud.py:174-195 | the outcome is `InvoiceUpdate`'s; on 404 or 403 no row changes; on success only that invoice's row is replaced |
| Crud.Database.DeleteInvoice | app/crud.py:198-206 | an unknown id changes nothing; an invoice with line items is not deleted and the request fails, because the ORM nulls the items' NOT NULL `invoice_id`; an invoice without items is removed and every other row stays |
| Deps.GetCurrentUser | app/api/deps.py:28-54 | decoding comes before any store access; a decoded id of a stored seller gives that seller; an unknown id gives 404 "User not found"; a store error gives 500 "SQL failed"; a raw `InvalidTokenError` gives 401; a payload whose `sub` is missing or not a UUID raises at the `UUID(...)` call and ends as an unhandled 500 |
| Deps.BadTokenIsForbiddenNotUnauthorized | app/api/deps.py:36-40 | through `decode_access_token` the 401 branch is unreachable; a bad token gives 403 whatever the store holds or does |
| Deps.TokenResolvesToItsSeller | app/api/deps.py:37-48 | a token naming a stored seller resolves to exactly that seller |
| Deps.LoginThenMe | app/api/deps.py:37-48 | the token issued for the seller `authenticate` found resolves back to that seller |
| Signup.SignupCheck | app/api/routers/signup.py:14-27 | a taken phone number gives the phone message, checked before the email; a free phone number with a taken email gives the email message; accepted exactly when neither is taken |
| Signup.SignupUser | app/api/routers/signup.py:11-29 | a refused signup leaves the store unchanged; an accepted one adds exactly the new seller with its password hashed |
| Signup.SamePhoneTwiceIsRejected | app/api/routers/signup.py:14-21 | a second signup with a phone number already used is refused, whatever the other fields are |
| Signup.SecondSignupWithoutEmailIsRejected | app/api/routers/signup.py:22-27 | once a seller without an email exists, another signup without an email is refused with the email message |
| Signup.SignupThenLogin | app/api/routers/signup.py:29 | after an accepted signup, logging in with that phone number and password finds the new seller |
| Signup.GetInvoice | app/api/routers/signup.py:32-35 | any caller gets the invoice with that id, with no authentication or ownership check; a malformed or unknown id ends as a server error, not a 404 |
| Signup.AnyInvoiceIsReadableById | app/api/routers/signup.py:32-35 | every stored invoice can be read by anyone who knows its id |
| Users.DedupKeep | app/api/routers/users.py:27 | a product whose name was already seen adds nothing to the set |
| Users.DedupAdd | app/api/routers/users.py:27 | a product with a new name is kept |
| Users.Dedup | app/api/routers/users.py:27 | one product per name sent, no name twice, each kept product the first one sent with its name |
| Users.FirstOccurrenceWins | app/api/routers/users.py:27 | the first product sent with a name is the one kept |
| Users.DedupIsProductSet | app/api/routers/users.py:27 | under `InputProduct`'s name-only equality, no two kept products are equal and every product sent equals a kept one |
| Users.LaterDuplicateIsDropped | app/api/routers/users.py:27 | a later product with the same name is dropped, whatever its description and price |
| Users.DedupFromBatch | app/api/routers/users.py:27 | every product kept was sent |
| Users.UnownedNamesAreKept | app/api/routers/users.py:36-38 | every name sent and not owned yet survives the filter |
| Users.NothingKeptIffAllOwned | app/api/routers/users.py:36-39 | the filter leaves nothing exactly when every name sent is already owned |
| Users.ProductBatch | app/api/routers/users.py:27-42 | 400 "All Products already exist for this seller." exactly when the seller owns products and owns every name sent (an empty batch included); a seller with no products gets the de-duplicated batch unfiltered; otherwise distinct, not-yet-owned names, covering every unowned name sent |
| Users.FirstEmptyBatchIsAccepted | app/api/routers/users.py:31-47 | a seller without products may send an empty batch and gets an empty list |
| Users.LaterEmptyBatchIsRefused | app/api/routers/users.py:39-42 | a seller with products sending an empty batch gets the 400 |
| Users.ListAfterRegistration | app/api/routers/users.py:43-47 | the list returned is the seller's earlier products followed by the new ones, not only the new ones |
| Users.AppendDistinctNames | app/api/routers/users.py:36-38 | adding products with new, distinct names keeps a list's names distinct |
| Users.NamesStayDistinct | app/api/routers/users.py:36-47 | if a seller's product names were distinct before a registration, they still are |
| Users.AppendNames | app/api/routers/users.py:36-43 | adding products named after every unowned sent name gives the owned names plus the sent names |
| Users.NamesAfterRegistration | app/api/routers/users.py:31-47 | afterwards the seller owns exactly the names it owned plus the names it sent |
| Users.CreateProduct | app/api/routers/users.py:19-47 | on the 400 nothing is stored; otherwise the chosen products are stored for the caller and the caller's whole product list is returned; after a failed commit nothing is stored and the request fails |
| Users.GetInvoices | app/api/routers/users.py:65-80 | 422 exactly when `limit` exceeds 10; 404 "No invoices found" exactly for an empty page; otherwise exactly the non-empty page `get_seller_invoices` returns for the defaulted offset and limit, newest first and the caller's own |
| Users.DefaultPageIsNewestTen | app/api/routers/users.py:69-70 | with no parameters, the caller's ten newest invoices |
| Users.NegativeLimitListsEverything | app/api/routers/users.py:70 | `limit=-1` passes validation and returns more than ten invoices when the caller has more than ten |
| Users.GetInvoicesChecked | app/api/routers/users.py:70 | with the bound `0 <= limit <= 10`, a page holds 1 to 10 of the caller's invoices, and it agrees with `GetInvoices` on every accepted limit |
| Users.PasswordChangeCheck | app/api/routers/users.py:107-112 | 400 "Incorrect password" exactly when the current password does not verify, checked first; then 400 for a new password equal to the current one; accepted otherwise |
| Users.UpdateUserPassword | app/api/routers/users.py:96-119 | on either error nothing changes; otherwise only the caller's password changes, to a hash of the new one |
| Users.NewPasswordAuthenticates | app/api/routers/users.py:113-117 | after the change, logging in with the phone number and the new password finds the updated seller |
| Users.EmailConflict | app/api/routers/users.py:130-135 | 409 only for a non-empty email whose first holder is another seller; the first seller holding an email may send it again; the phone number is not checked |
| Users.OwnEmailIsAllowed | app/api/routers/users.py:130-135 | for the first seller holding an email, sending that email again is never a conflict (a later holder of the same email gets the 409) |
| Users.UpdateUserMe | app/api/routers/users.py:122-141 | on 409 nothing changes; otherwise the caller's row gets the sent fields and the phone number, keeps id and password, and no other row changes |
| Users.PhoneCollisionIsNotChecked | app/api/routers/users.py:130-137 | the handler performs no phone check: a phone number another seller holds passes the email guard and is the value the handler writes (the database's unique constraint, which would then fail the commit, is listed under Left out) |

## Left out

- Floating-point prices and totals are opaque `real` values. Nothing computes with them, and invoice totals are not checked against line items.
- Crud.SellerInvoicePagesAreConsecutive: SQL leaves the order of invoices with the same `created_date` unspecified, and clients can set `created_date` on update. The model fixes one order for ties (table order), so the lemma does not cover a database that orders ties differently from one query to the next; such pages could skip or repeat an invoice.
- Python set iteration order is not modelled. `Dedup` keeps products in the order they first appear, so the model does not fix the order of new product rows, nor their order in the returned list.
- Users.CreateProduct: the session's state after a swallowed commit failure is reduced to one outcome: the following query raises and the request fails with a server error.
- Store failures are modelled only in the current-user lookup and the product commit. The "SQL failed" handler of `get_user_by_phoneNumber` and failures of the other commits are not.
- Token issue and expiry are not modelled. They depend on the wall clock and the secret key. A decode is an outcome argument.
- `app/api/routers/login.py` is not part of this model beyond `Crud.Authenticate`, which it calls. Its 401 on `None` and the token it issues are left out.
- Database-level `unique=True` on the phone number and foreign-key enforcement are not modelled. The handlers never check them, and a violation would surface as an unhandled integrity error.
- Concurrency: requests are sequential. Concurrent updates to one invoice are unguarded in the source.
- Unique ids are assumed (`Database.Valid`). Drawing uuid4 values is not modelled: fresh ids are arguments.
- Framework validation is modelled only for `limit`. `Models.PhoneNumberValid` and `Models.PasswordAccepted` state the declared constraints as standalone predicates. Signup does not require them, because the repository's tests sign up numbers with a leading 0 and expect success.
- `\d` in the phone pattern is modelled as ASCII digits. Python's `\d` also accepts other Unicode decimal digits.
- `create_invoice` and `update_invoice` in `app/api/routers/users.py` only forward to the data-access functions, which are modelled (`Crud.Database.CreateInvoice`, `Crud.Database.UpdateInvoice`).
- String ids in `get_invoice_by_id` and `delete_invoice` are modelled after parsing. A malformed id is `None` in `Signup.GetInvoice`, and the unparsed string is not modelled elsewhere.

## Findings

| source | as written | input that shows it | evidently intended | confidence | as-written member | corrected member |
|---|---|---|---|---|---|---|
| app/api/routers/users.py:70 | `limit` is declared only with `le=10`, and SQLite reads a negative LIMIT as "no limit" | `GET /user/get_invoices?limit=-1` by a seller with more than ten invoices returns all of them | pages of at most ten invoices (`ge=0` as well as `le=10`) | medium, not executed | Users.GetInvoices, Users.NegativeLimitListsEverything | Users.GetInvoicesChecked |

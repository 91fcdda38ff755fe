# Grocery store cart and stock ledger, in Dafny

This project models the cart/stock core of the grocery store's REST API:
- the `Product` stock counter and the `CartProduct` save and delete hooks (`store/products/models.py`);
- the cart serializers (`store/api/serializers.py`);
- the four cart endpoints of `CartViewSet` (`store/api/views.py`);
- the `IsAdminOrReadOnly` permission (`store/api/permissions.py`).

The model then proves what these operations do to the stock ledger. The ledger's law is conservation: for every product, `in_stock` plus the amounts that cart lines hold stays the same.

How the model is built:

- **Tables as values** (`tables.dfy`). `Db` holds the database:
  - the catalogue (product name to type and price);
  - the `in_stock` column;
  - the carts, keyed by user;
  - the `CartProduct` rows in primary-key order;
  - the next ids the database hands out.

  `Valid` states what the schema and the hooks keep true. `Reserved` sums the amounts the rows hold of one product. `Conserves` is the conservation law between two states.
- **Model instances as objects** (`models.dfy`). `Database` is the connection. `ProductInstance` is an in-memory copy of one product row: `product.save()` writes its `in_stock` back. `CartProductInstance` carries Django's cache of its related product. That cache is either the copy it was built with, or a copy loaded on first access. Through it the model captures the two effects the code depends on:
  - stale copies overwrite newer stock;
  - two names for the same copy each move the stock.
- **Each operation is a method proved equal to a function.** The function gives the result and the new state in closed form in terms of the old state: `SaveEffect`, `DeleteEffect`, `CreateResult`, `UpdateResult`, `CreateViewResult`, `RemoveProductResult`, `ClearCartResult` and `UpdateProductResult`. The lemmas about those functions state the ledger properties.
- **Exceptions.**
  - A REST framework `ValidationError` becomes a 400 (`Rejected`).
  - A Django `ValidationError` raised by `full_clean` is handled by nothing and becomes a 500 (`Crashed`, `ServerError`).
  - The settings do not turn on `ATOMIC_REQUESTS`. So the serializer's `create` and `update` keep their partial writes when they raise.
  - The views' `transaction.atomic()` blocks roll back. In the model that is `Database.Rollback`.
- **Constants** come from the migration: `MIN_NUM = 1` is the least price and the least line amount; `MIN_NUM_IN_STOCK = 0`.

### Where the code departs from its evident intent

The model follows the code in every case below.

- **Adding to a cart.** The repository's own test (`store/products/pytest_tests/test.py:16`) expects a 201 when a signed-in user adds a product to the cart. With the stock the test sets up, the code answers 500 instead, because a new line is reserved twice (see Findings).
- **Stock floor.** `in_stock` carries a minimum of `MIN_NUM_IN_STOCK` (`store/products/models.py:68-73`). `update_product` checks the change against the stock (`store/api/views.py:159`), evidently so that the stock stays non-negative. Nothing enforces that minimum, because `product.save()` does not run validators, and two paths adjust the stock twice (see Findings).
- **Unknown product on add.** `validate` looks the product up with `get_object_or_404` (`store/api/serializers.py:189`), evidently to answer 404 for an unknown name. The `product` field is a `SlugRelatedField` (`store/api/serializers.py:173-174`), which has already refused such a name with a 400. So the 404 is never reached.
- **A refused add still creates a cart.** `get_serializer_context` creates the user's cart before the request is validated (`store/api/views.py:75-80`). So a POST that is refused still leaves a new, empty cart (`Views.CreateViewMakesCart`).
- **Imports.** `serializers.py` imports `Product_group`, but `models.py` defines `ProductGroup`.
- **Routes.** `store/api/urls.py` registers no viewset.

The model describes the modules as if they loaded and the cart routes were registered.

## Model

| member | source | states |
|---|---|---|
| Models.SameTypeSameGroup | store/products/models.py:84-87 | the group a product reports through its type is the same for every product of that type |
| Models.ProductInstance.DecreaseStock | store/products/models.py:89-92 | in_stock falls by the amount with no lower bound and is saved; no other column changes |
| Models.ProductInstance.IncreaseStock | store/products/models.py:94-97 | in_stock rises by the amount with no upper bound and is saved; no other column changes |
| Models.FullClean | store/products/models.py:136-161 | passes exactly when the amount is at least MIN_NUM, does not exceed the cached stock, and no other row pairs the same cart and product; the checks run in that order, so an amount below MIN_NUM is reported as such, an amount above the cached stock quotes that stock, and a duplicate pair is reported only when both earlier checks pass |
| Models.TakenByOther | store/products/models.py:147-151 | for an unsaved instance, the unique (cart, product) constraint is violated exactly when the cart already has a row for the product |
| Models.SaveEffect | store/products/models.py:163-175 | the error is full_clean's and a failed clean writes nothing; a new row is inserted under the next key and reserves its whole amount from the copy's stock; a stored row is rewritten in place and its product's stock moves by the change of amount, and is untouched when the amount is unchanged; catalogue, carts and the next cart id are kept |
| Models.CartProductInstance.Save | store/products/models.py:163-175 | full_clean, then a new row reserves its whole amount or a stored row moves the stock by the change; the new state, the error and the copy's stock are SaveEffect of the old state and the stock the cached copy shows; the cached copy is kept, or loaded once |
| Models.ResaveUnchanged | store/products/models.py:167-175 | saving a stored row again with its stored amount writes nothing; only clean can still fail, against the copy's stock |
| Models.SaveConserves | store/products/models.py:163-175 | saved through a product copy that matches the database, the hook keeps the tables valid and in_stock plus reserved of every product unchanged |
| Models.SaveNewConserves | store/products/models.py:163-167 | the INSERT path of the save hook keeps the ledger and the tables valid |
| Models.SaveStoredConserves | store/products/models.py:168-175 | the UPDATE path of the save hook keeps the ledger and the tables valid |
| Models.DeleteEffect | store/products/models.py:177-180 | the product's stock becomes the cached copy's stock plus the amount and no other product's changes; the row with the instance's primary key is removed and every other row kept in order; catalogue, carts and both next ids unchanged |
| Models.CartProductInstance.Delete | store/products/models.py:177-180 | the new state is DeleteEffect of the old one, with the stock the instance's cached or freshly loaded copy shows; the instance loses its primary key |
| Models.DeleteConserves | store/products/models.py:177-180 | deleting a row through an up-to-date copy removes exactly that row, gives exactly its amount back to its product and nothing to any other, and keeps the ledger and the tables valid |
| Models.CartProductInstance.GetProduct | store/products/models.py:135-136 | the related product is loaded on first access and the same copy is returned afterwards |
| Models.ProductInstance.Get | store/products/models.py:135-136 | `Product.objects.get` and the lazy load of `cart_product.product`: a fresh copy of the stored name, price and in_stock |
| Models.CartProductInstance.Build | store/api/serializers.py:212-216 | `CartProduct(cart, product, amount)` inside `objects.create`: unsaved, carrying the handed-in product copy as its cache |
| Models.CartProductInstance.Fetch | store/api/serializers.py:208-209 | `CartProduct.objects.get`: the stored row with no product loaded yet |
| Models.Database.Rollback | store/api/views.py:166-171 | leaving a `transaction.atomic()` block by an exception restores every table as it was when the block began |
| Models.ProductInstance.Save | store/products/models.py:89-97 | the copy's in_stock becomes the stored one and nothing else in the database changes |
| Tables.ReservedInOneCart | store/products/models.py:147-151 | under the unique (cart, product) constraint a cart holds of a product exactly the amount of its one row, or nothing |
| Tables.FindLineIsTheRow | store/products/models.py:147-151 | in a valid table, looking up a row's (cart, product) finds that row |
| Tables.WithoutCartUnique | store/products/models.py:133-134 | the rows left after a cart's cascade delete still satisfy the unique constraint |
| Tables.ReservedSplitsByCart | store/products/models.py:133-134 | what the rows hold of a product is what one cart's rows hold plus what the other rows hold |
| Tables.ReleaseAdds | store/api/views.py:130-132 | giving a list of rows back to stock adds to each product exactly the amounts the list holds of it |
| Tables.Release | store/api/views.py:130-132 | the stock after the clear_cart loop gave each row's amount back in turn; it keeps the set of products (the amounts are stated by Tables.ReleaseAdds) |
| Tables.LinesOf | store/api/views.py:130 | `cart.cartproduct_set.all()`: exactly the rows of that cart, each a row of the table |
| Tables.WithoutCart | store/products/models.py:133-134 | the cascade of `cart.delete()`: exactly the rows of other carts are left, each a row of the table |
| Serializers.Validate | store/api/serializers.py:185-199 | both checks run only when amount and product are truthy; more than the stock fails quoting it, an amount below 1 fails without; a zero amount passes |
| Serializers.CreateResult | store/api/serializers.py:201-223 | on an existing line, create succeeds exactly when the grown amount is at least MIN_NUM and within the stock, then the line grows by the amount and only its product's stock falls by it, and a failure writes nothing; on a new line it succeeds exactly when the amount is at least MIN_NUM and twice the amount is within the stock; an amount below MIN_NUM or above the stock writes nothing; otherwise the row is appended under the next key and only its product's stock falls, by twice the amount on success and once on the crash; never a REST framework error; catalogue, carts and the next cart id kept |
| Serializers.Create | store/api/serializers.py:201-223 | the outcome and the new state are CreateResult of the old state, run through the model instances (fetched line with a lazily loaded product, or a new line built on the handed-in copy, then two saves and the copy's decrement) |
| Serializers.AddToExistingLine | store/api/serializers.py:207-223 | the `try` branch: the fetched line grows by the amount, is saved, and the handed-in copy writes its stock minus the amount; the outcome and new state are CreateResult |
| Serializers.AddNewLine | store/api/serializers.py:212-223 | the `except` branch: objects.create on the handed-in copy, a second save of the unchanged line, then the copy's decrement; the outcome and new state are CreateResult |
| Serializers.CreateOnExistingLineSteps | store/api/serializers.py:207-223 | on an existing line, create is one hook save of the grown amount followed by the stale copy writing stock minus the amount |
| Serializers.CreateOnNewLineFirstSave | store/api/serializers.py:212-217 | on a new line, objects.create fails exactly when the amount is below MIN_NUM or above the stock; otherwise it inserts the row under the next key and reserves the amount |
| Serializers.CreateOnExistingLineConserves | store/api/serializers.py:207-223 | adding to an existing line keeps the ledger and the tables valid; on success the line grows and the stock falls by the amount |
| Serializers.CreateOnNewLineReservesTwice | store/api/serializers.py:212-223 | a successful add of a new product lowers the stock by twice the amount while the cart holds the amount once, so in_stock plus reserved falls by the amount |
| Serializers.CreateOnNewLineCrashKeepsRow | store/api/serializers.py:212-219 | when twice the amount exceeds the stock, the second save raises after the new row and one reservation are committed |
| Serializers.RepositoryAddTestCrashes | store/api/serializers.py:212-221 | with stock 1 and amount 1, the inputs of the repository's add-to-cart test, create raises and leaves stock 0 and the row |
| Serializers.CreateKeepsStockNonNegative | store/api/serializers.py:201-223 | create never takes a non-negative stock below zero |
| Serializers.CreateShowsInCart | store/api/serializers.py:201-223 | after a successful create the product is in the user's cart and the cart's total amount has grown by the amount |
| Serializers.CreateIntendedConserves | store/api/serializers.py:212-221 | the single-reservation create keeps the ledger and the tables valid on every path, and on success lowers the stock by the amount |
| Serializers.UpdateResult | store/api/serializers.py:225-244 | a missing or zero amount changes nothing and succeeds; an increase above the copy's stock is refused quoting it with nothing written; otherwise the stock is moved by the change, and the line's save then raises (amount below MIN_NUM or above the lowered stock) or stores the new amount and moves the stock by the change again; catalogue, carts, both next ids and the number of rows are kept |
| Serializers.Update | store/api/serializers.py:225-244 | the outcome and the new state are UpdateResult of the old state with the stock the instance's product copy shows |
| Serializers.UpdateAdjustsTwice | store/api/serializers.py:237-241 | a successful update through an up-to-date copy moves the stock by twice the change, so in_stock plus reserved moves by the change |
| Serializers.UpdateValid | store/api/serializers.py:225-244 | every path of the serializer's update, raises included, leaves the tables valid |
| Serializers.UpdateIntendedConserves | store/api/serializers.py:237-241 | the single-adjustment update keeps the ledger and the tables valid and never takes a non-negative stock below zero |
| Serializers.LinePrice | store/api/serializers.py:181-183 | a line's price is at least its amount when the price is at least MIN_NUM, and zero for a zero amount |
| Serializers.TotalAmount | store/api/serializers.py:270-272 | a cart's total amount is at least its number of lines when every line holds at least MIN_NUM, and 0 for a cart with no lines |
| Serializers.TotalPrice | store/api/serializers.py:266-268 | in valid tables a cart's total price is at least its total amount, which is at least its number of lines |
| Serializers.SumAmountsAtLeastCount | store/api/serializers.py:270-272 | a sum of line amounts each at least MIN_NUM is at least the number of lines |
| Serializers.SumsBounded | store/api/serializers.py:266-268 | over lines of amount and price at least MIN_NUM, the sum of prices is at least the sum of amounts, which is at least the number of lines |
| Serializers.CartAmountUpdate | store/api/serializers.py:270-272 | changing one line's amount changes its cart's total amount by the difference and other carts' totals not at all |
| Serializers.CartAmountAppend | store/api/serializers.py:270-272 | a new line adds its amount to its own cart's total only |
| Serializers.IsInShoppingCart | store/api/serializers.py:151-157 | true exactly when the user is signed in, has a cart, and some row pairs that cart with the product |
| Serializers.ToRepresentation | store/api/serializers.py:159-165 | name, price and stock are the product's; the cart flag is absent exactly for an anonymous user, and otherwise says whether the user has a cart and some row pairs that cart with the product |
| Views.CartFor | store/api/views.py:78-79 | the user ends up with a cart and it is the one returned; an existing cart changes nothing; a missing one is added under the next id; stock and rows untouched |
| Views.CartForValid | store/api/views.py:78-79 | creating a missing cart keeps the tables valid |
| Views.CartForIdempotent | store/api/views.py:78-79 | a second get_or_create returns the same cart and changes nothing |
| Views.SerializerContext | store/api/views.py:75-80 | for create, update and partial_update the context carries the cart the user then owns: an existing cart changes nothing, a missing one is added under the next cart id; for other actions there is no cart and nothing changes |
| Views.GetOrCreateCart | store/api/views.py:78-79 | the cart and the new state are CartFor of the old state |
| Views.GetSerializerContext | store/api/views.py:75-80 | the context cart and the new state are SerializerContext of the old state |
| Views.CreateViewResult | store/api/views.py:82-90 | an anonymous request is refused with no change; a 400 without a quoted stock happens exactly when the name does not resolve or the amount is missing or below MIN_NUM; a resolved name with an amount above the stock is a 400 quoting the stock; a 400 changes nothing but the cart get_or_create adds; an amount within the stock is 201 exactly when the line grown by it still fits the stock (existing line) or twice the amount fits (new line), and 500 otherwise, and either way the new state is the serializer create's on the user's cart; never 404 |
| Views.CreateView | store/api/views.py:82-90 | the response and the new state are CreateViewResult of the old state |
| Views.CreateResultValid | store/api/serializers.py:201-223 | every path of create, crashes included, leaves the tables valid |
| Views.CreateViewMakesCart | store/api/views.py:75-90 | every signed-in POST leaves the user with the cart get_or_create gives, whatever the body, and leaves the tables valid |
| Views.CreatedShowsInCart | store/api/views.py:82-90 | a 201 means the product is in the user's cart and the cart's total amount grew by the amount sent |
| Views.RemoveProductResult | store/api/views.py:92-115 | anything but a 204 leaves the database unchanged; anonymous is 401; a missing or empty name is 400; otherwise the answer is 404 exactly when the product, the user's cart or the row pairing them is missing, and 204 in every other case; catalogue, carts and both next ids are always kept |
| Views.RemoveProductView | store/api/views.py:92-115 | the response and the new state are RemoveProductResult of the old state, through the view's product copy and the delete hook's own copy |
| Views.RemoveProductConserves | store/api/views.py:104-113 | remove_product keeps the ledger and the tables valid, and after a 204 the product is no longer in the user's cart |
| Views.RemoveProductEffect | store/api/views.py:104-113 | a 204 gives back exactly the row's amount to its product and nothing to any other, and removes that one row while keeping every other |
| Views.ClearCartResult | store/api/views.py:117-135 | anonymous is 401; a signed-in user without a cart gets 400; the answer is 204 exactly when the user has a cart, and then only that user's cart is removed; anything else changes nothing; catalogue and keys are kept |
| Views.ReleaseLines | store/api/views.py:130-132 | each row's product, loaded afresh, gets the row's amount back: the stock becomes Release of the rows |
| Views.ClearCartView | store/api/views.py:117-135 | the response and the new state are ClearCartResult of the old state |
| Views.ClearCartConserves | store/api/views.py:129-133 | clearing removes exactly the user's cart and exactly its rows, keeps every row of every other cart, gives every product back exactly what the cart held of it, and keeps the ledger and the tables valid |
| Views.ClearCartValid | store/api/views.py:129-133 | after the cascade delete the remaining rows still fit the remaining carts and the tables stay valid |
| Views.ClearCartEmpties | store/api/views.py:133 | after clear_cart the user's cart shows no product |
| Views.UpdateProductResult | store/api/views.py:137-176 | anything but a 200 leaves the database unchanged; anonymous is 401; a missing or empty name or amount is 400; a missing cart or row is 404; a change above the stock is 400 quoting the stock; otherwise an amount below MIN_NUM or above the stock is 500, and any other amount is 200 with the line holding the new amount and the stock moved by twice the change; catalogue, carts and both next ids are always kept |
| Views.UpdateProductValid | store/api/views.py:137-176 | every answer of update_product leaves the tables valid |
| Views.UpdateProductView | store/api/views.py:137-176 | the response and the new state are UpdateProductResult of the old state, with the atomic block rolled back when full_clean raises |
| Views.UpdateProductAdjustsTwice | store/api/views.py:166-171 | a 200 moves the stock by twice the line's change, so in_stock plus reserved moves by the change |
| Views.UpdateProductCanGoNegative | store/api/views.py:166-171 | a line of 1 with 4 in stock raised to 4 answers 200 and leaves -2 in stock |
| Views.UpdateProductRefusesCoveredIncrease | store/api/views.py:158-168 | a line of 3 with 2 in stock raised to 4 answers 500, although the increase of 1 is in stock |
| Views.UpdateProductIntendedConserves | store/api/views.py:158-171 | the intended update_product keeps the ledger and the tables valid and never leaves the stock negative |
| Views.UpdateProductIntendedAccepts | store/api/views.py:158-171 | the intended update_product accepts every amount of at least MIN_NUM whose increase is in stock and moves the stock by the change once |
| Permissions.HasPermission | store/api/permissions.py:10-12 | GET, HEAD and OPTIONS are allowed to everyone; any other method exactly to a superuser; an anonymous user may only read |
| Permissions.HasObjectPermission | store/api/permissions.py:14-16 | the object rule is the view rule: reads for everyone, writes for superusers, whatever the object |
| Permissions.ObjectPermissionIgnoresObject | store/api/permissions.py:14-16 | the object check gives the same answer for any two objects |

## Left out

- HTTP framing, JSON, response messages, routing and authentication are left out. A request arrives as the user's id, or none for an anonymous user, plus the parsed body fields.
- Concurrency is left out. Each request is one step on one database, so races between requests are not modelled; the code takes no row locks.
- `SmallIntegerField` range is not modelled. Amounts, prices and stock are unbounded integers, so values outside -32768..32767 are not rejected.
- Request data is assumed to be absent or an integer. A non-integer `amount` in `update_product` would raise a `TypeError` (a 500); that path is not modelled.
- `Cart.user` is a plain foreign key, but carts are keyed by user. A second cart for one user, which would make `Cart.objects.get` raise, cannot be represented.
- Catalogue administration is left out: the product, product-group and type viewsets and serializers, images, slugs and users. `IsAdminOrReadOnly` is modelled as the rule those viewsets apply.
- `full_clean` reports every failing check. The model names only the first, because the 500 it leads to does not show which check failed.
- `cart.cartproduct_set.all()` is read in primary-key order. The database's order is unspecified; no product appears twice in one cart, so the order cannot change the result.
- The minimum of 0 on `Product.in_stock` is never enforced, because `product.save()` does not call `full_clean`. `MinNumInStock` appears only in the lemmas about non-negative stock.
- Database errors other than validation, such as an `IntegrityError` under concurrent inserts, are left out.
- The serializer's `update` is modelled although `CartViewSet` has no update route (it does not mix in `UpdateModelMixin`).
- Serializers.ToRepresentation: keeps only name, price, stock and the cart flag of the product's fields; type, slug and images are left out.
- Models.ProductInstance.Save: writes only `in_stock`, while Django's `save()` writes every column of the row. The core never changes any other column of a product copy, so the two agree on every path modelled.
- Views.UpdateProductIntended: only fixes the double adjustment and the whole-amount comparison. Every other path is the code's.

## Findings

| source | as written | input that shows it | evidently intended | confidence | as-written member | corrected member |
|---|---|---|---|---|---|---|
| store/api/serializers.py:212-221 | a new line is reserved by the save hook and again by `product.in_stock -= amount`, and the second `save()` re-checks the amount against the lowered stock | stock 1, add 1 (the repository's own test expects 201): the second save raises, giving a 500 with the row and stock 0 committed | reserve a new line once | high; not executed | Serializers.RepositoryAddTestCrashes | Serializers.CreateIntendedConserves |
| store/api/views.py:166-171 | the save hook moves the stock by the change, then the view moves the same cached copy by the change again | a line of 1, stock 4, new amount 4: 200 and stock -2 | move the stock by the change once | high; not executed | Views.UpdateProductCanGoNegative | Views.UpdateProductIntendedConserves |
| store/api/views.py:158-168 | `clean` compares the whole new amount, not the increase, with the stock left after the line's own reservation | a line of 3, stock 2, new amount 4: 500 although one more unit is in stock | check only the increase against the stock | medium; not executed | Views.UpdateProductRefusesCoveredIncrease | Views.UpdateProductIntendedAccepts |
| store/api/serializers.py:237-241 | the stock is moved by the change and saved, then `instance.save()` moves it by the change again | a line of 1, stock 5, new amount 2: the line is 2 and the stock 3, one unit lost | move the stock by the change once | high; not executed | Serializers.UpdateAdjustsTwice | Serializers.UpdateIntendedConserves |

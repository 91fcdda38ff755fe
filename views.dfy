// store/api/views.py: CartViewSet (get_serializer_context, create,
// remove_product, clear_cart, update_product), each a method on the database
// proved equal to a function of the state before the request.

module Views {
  import opened Tables
  import opened Models
  import opened Serializers

  /** The HTTP status a request ends with. */
  datatype Response =
    | Created                            // 201
    | Ok                                 // 200
    | NoContent                          // 204
    | BadRequest(available: Option<int>) // 400, quoting the stock when the message does
    | NotFound                           // 404 from get_object_or_404
    | Unauthorized                       // 401: IsAuthenticated refuses an anonymous user
    | ServerError                        // 500: an exception nothing handles

  /** The viewset action a request is routed to. */
  datatype Action = List | Create | Update | PartialUpdate | RemoveProduct | ClearCart | UpdateProduct

  // ---------------------------------------------------------------------------
  // get_serializer_context

  /** Cart.objects.get_or_create(user=user): the user's cart, created under the next id when missing. */
  function CartFor(s: Db, user: UserId): (r: (CartId, Db))
    ensures user in r.1.carts && r.1.carts[user] == r.0
    ensures r.1.catalog == s.catalog && r.1.stock == s.stock && r.1.lines == s.lines && r.1.nextLine == s.nextLine
    ensures user in s.carts <==> r.1 == s
    ensures user !in s.carts ==> r.1.carts == s.carts[user := s.nextCart] && r.0 == s.nextCart
  {
    if user in s.carts then (s.carts[user], s)
    else (s.nextCart, s.(carts := s.carts[user := s.nextCart], nextCart := s.nextCart + 1))
  }

  /** Creating a missing cart keeps the tables valid. */
  lemma CartForValid(s: Db, user: UserId)
    requires Valid(s)
    ensures Valid(CartFor(s, user).1)
  {
    var t := CartFor(s, user).1;
    if user !in s.carts {
      forall k | 0 <= k < |t.lines| ensures LineFits(t, t.lines[k]) {
        var l := t.lines[k];
        assert LineFits(s, s.lines[k]);
        var v :| v in s.carts && s.carts[v] == l.cart;
        assert t.carts[v] == l.cart;
      }
    }
  }

  /** get_or_create is idempotent: asking again returns the same cart and changes nothing. */
  lemma CartForIdempotent(s: Db, user: UserId)
    ensures var r := CartFor(s, user); CartFor(r.1, user) == r
  {
  }

  /** The actions whose serializer context carries the user's cart. */
  predicate NeedsCart(action: Action)
  {
    action == Create || action == Update || action == PartialUpdate
  }

  /** get_serializer_context: the cart, got or created, for create, update and partial_update only. */
  function SerializerContext(s: Db, user: UserId, action: Action): (r: (Option<CartId>, Db))
    ensures r.0.Some? <==> NeedsCart(action)
    ensures NeedsCart(action) ==> r == (Some(CartFor(s, user).0), CartFor(s, user).1)
    ensures !NeedsCart(action) ==> r.1 == s
    ensures NeedsCart(action) ==>
      user in r.1.carts && r.0 == Some(r.1.carts[user]) &&
      (user in s.carts ==> r.1 == s) &&
      (user !in s.carts ==> r.1 == s.(carts := s.carts[user := s.nextCart], nextCart := s.nextCart + 1))
  {
    if NeedsCart(action) then (Some(CartFor(s, user).0), CartFor(s, user).1) else (None, s)
  }

  /** Cart.objects.get_or_create on the database. */
  method GetOrCreateCart(db: Database, user: UserId) returns (cart: CartId)
    modifies db
    ensures (cart, db.State()) == CartFor(old(db.State()), user)
  {
    if user in db.carts {
      cart := db.carts[user];
    } else {
      cart := db.nextCart;
      db.carts := db.carts[user := cart];
      db.nextCart := db.nextCart + 1;
    }
  }

  /** CartViewSet.get_serializer_context on the database. */
  method GetSerializerContext(db: Database, user: UserId, action: Action) returns (cart: Option<CartId>)
    modifies db
    ensures (cart, db.State()) == SerializerContext(old(db.State()), user, action)
  {
    cart := None;
    if action == Create || action == Update || action == PartialUpdate {
      var c := GetOrCreateCart(db, user);
      cart := Some(c);
    }
  }

  // ---------------------------------------------------------------------------
  // create: POST on the cart.

  /**
   * CartViewSet.create. An anonymous user is refused first. Then the context
   * gets or creates the cart, before the body is validated, so a refused add
   * still leaves the user a cart. The declared fields come next (an unknown
   * product or an amount below MIN_NUM is a 400), then `validate` (more than the
   * stock is a 400 quoting it), then the serializer's create, whose crash is a 500.
   */
  function CreateViewResult(s: Db, user: Option<UserId>, product: Option<string>, amount: Option<int>)
    : (r: (Response, Db))
    requires Valid(s)
    ensures user.None? ==> r == (Unauthorized, s)
    ensures r.0 != NotFound
    ensures user.Some? && r.0.BadRequest? ==> r.1 == CartFor(s, user.value).1
    ensures user.Some? ==>
      (r.0 == BadRequest(None) <==> !(product.Some? && product.value in s.catalog && amount.Some? && amount.value >= MinNum))
    ensures user.Some? && (product.Some? && product.value in s.catalog && amount.Some? && amount.value >= MinNum) ==>
      (r.0.BadRequest? <==> amount.value > s.stock[product.value]) &&
      (r.0.BadRequest? ==> r.0 == BadRequest(Some(s.stock[product.value])))
    ensures user.Some? && (product.Some? && product.value in s.catalog && amount.Some? && amount.value >= MinNum) && amount.value <= s.stock[product.value] ==>
      var p := product.value;
      var a := amount.value;
      var c := CartFor(s, user.value);
      var found := FindLine(s.lines, c.0, p);
      (r.0 == Created || r.0 == ServerError) &&
      r.1 == CreateResult(c.1, c.0, p, a).1 &&
      (r.0 == Created <==> if found.Some? then s.lines[found.value].amount + a <= s.stock[p] else 2 * a <= s.stock[p])
  {
    if user.None? then (Unauthorized, s)
    else
      var c := CartFor(s, user.value);
      var cart := c.0;
      var s1 := c.1;
      match ParseFields(s1.catalog, product, amount)
      case None => (BadRequest(None), s1)
      case Some(fields) =>
        var p := fields.0;
        var a := fields.1;
        match Validate(s1.stock, Some(p), Some(a))
        case Refused(available) => (BadRequest(available), s1)
        case ProductMissing => (NotFound, s1)  // get_object_or_404 in validate: unreachable in valid tables, the field resolved the name
        case Passed =>
          var out := CreateResult(s1, cart, p, a);
          (if out.0.Saved? then Created else ServerError, out.1)
  }

  /** CartViewSet.create on the database. */
  method CreateView(db: Database, user: Option<UserId>, product: Option<string>, amount: Option<int>)
    returns (resp: Response)
    requires Valid(db.State())
    modifies db
    ensures (resp, db.State()) == CreateViewResult(old(db.State()), user, product, amount)
  {
    if user.None? {
      return Unauthorized;
    }
    ghost var s := db.State();
    CartForValid(s, user.value);
    var context := GetSerializerContext(db, user.value, Create);
    var cart := context.value;
    var fields := ParseFields(db.catalog, product, amount);
    if fields.None? {
      return BadRequest(None);
    }
    var p := fields.value.0;
    var a := fields.value.1;
    var check := Validate(db.stock, Some(p), Some(a));
    if check.Refused? {
      return BadRequest(check.available);
    }
    if check.ProductMissing? {
      return NotFound;
    }
    var instance := new ProductInstance.Get(db, p);
    var out := Serializers.Create(db, cart, instance, a);
    resp := if out.Saved? then Created else ServerError;
  }

  /** Every path of create leaves the tables valid, the partial writes of a crash included. */
  lemma CreateResultValid(s: Db, cart: CartId, p: ProductName, a: int)
    requires Valid(s) && p in s.catalog && cart in s.carts.Values
    ensures Valid(CreateResult(s, cart, p, a).1)
  {
    if FindLine(s.lines, cart, p).Some? {
      CreateOnExistingLineConserves(s, cart, p, a);
    } else {
      var r := SaveEffect(s, None, cart, p, a, s.stock[p]);
      SaveConserves(s, None, cart, p, a);
      assert !TakenByOther(s.lines, None, cart, p);
      if r.err.None? {
        assert CreateResult(s, cart, p, a).1.lines == r.db.lines;
      }
    }
  }

  /**
   * An authenticated POST always leaves the user with a cart, whatever the body,
   * and leaves the tables valid.
   */
  lemma CreateViewMakesCart(s: Db, user: UserId, product: Option<string>, amount: Option<int>)
    requires Valid(s)
    ensures var r := CreateViewResult(s, Some(user), product, amount);
      user in r.1.carts && Valid(r.1) && r.1.carts[user] == CartFor(s, user).0
  {
    var c := CartFor(s, user);
    CartForValid(s, user);
    assert c.0 in c.1.carts.Values;
    match ParseFields(c.1.catalog, product, amount)
    case None =>
    case Some(fields) =>
      CreateResultValid(c.1, c.0, fields.0, fields.1);
  }

  /** A 201 means the product is in the user's cart and the cart's total amount grew by the amount sent. */
  lemma CreatedShowsInCart(s: Db, user: UserId, product: Option<string>, amount: Option<int>)
    requires Valid(s)
    requires CreateViewResult(s, Some(user), product, amount).0 == Created
    ensures var t := CreateViewResult(s, Some(user), product, amount).1;
      product.Some? && amount.Some? &&
      IsInShoppingCart(t, Some(user), product.value) &&
      TotalAmount(t, t.carts[user]) == TotalAmount(s, t.carts[user]) + amount.value
  {
    var c := CartFor(s, user);
    CartForValid(s, user);
    var fields := ParseFields(c.1.catalog, product, amount).value;
    CreateShowsInCart(c.1, user, fields.0, fields.1);
  }

  // ---------------------------------------------------------------------------
  // remove_product: DELETE on cart/remove-product.

  /**
   * CartViewSet.remove_product. The product, the cart and the line must all
   * exist; the line's amount goes back to stock once (the view's copy and the
   * delete hook write the same value) and the line goes.
   */
  function RemoveProductResult(s: Db, user: Option<UserId>, product: Option<string>): (r: (Response, Db))
    requires Valid(s)
    ensures r.0 != NoContent ==> r.1 == s
    ensures user.None? ==> r.0 == Unauthorized
    ensures user.Some? && (product.None? || product == Some("")) ==> r.0 == BadRequest(None)
    ensures user.Some? && product.Some? && product.value != "" ==>
      (r.0 == NotFound <==> product.value !in s.catalog || user.value !in s.carts ||
                            FindLine(s.lines, s.carts[user.value], product.value).None?)
    ensures user.Some? && product.Some? && product.value != "" ==> (r.0 == NotFound || r.0 == NoContent)
    ensures r.1.catalog == s.catalog && r.1.carts == s.carts && r.1.nextCart == s.nextCart && r.1.nextLine == s.nextLine
  {
    if user.None? then (Unauthorized, s)
    else if product.None? || product.value == "" then (BadRequest(None), s)
    else if product.value !in s.catalog || user.value !in s.carts then (NotFound, s)
    else
      var p := product.value;
      match FindLine(s.lines, s.carts[user.value], p)
      case None => (NotFound, s)
      case Some(i) =>
        (NoContent, s.(stock := s.stock[p := s.stock[p] + s.lines[i].amount], lines := RemoveAt(s.lines, i)))
  }

  /** CartViewSet.remove_product on the database. */
  method RemoveProductView(db: Database, user: Option<UserId>, product: Option<string>) returns (resp: Response)
    requires Valid(db.State())
    modifies db
    ensures (resp, db.State()) == RemoveProductResult(old(db.State()), user, product)
  {
    if user.None? {
      return Unauthorized;
    }
    if product.None? || product.value == "" {
      return BadRequest(None);
    }
    var name := product.value;
    if name !in db.catalog || user.value !in db.carts {
      return NotFound;
    }
    var found := FindLine(db.lines, db.carts[user.value], name);
    if found.None? {
      return NotFound;
    }
    ghost var s := db.State();
    IndexOfIdIsTheRow(s, found.value);
    var productCopy := new ProductInstance.Get(db, name);
    var cartProduct := new CartProductInstance.Fetch(db.lines[found.value]);
    // with transaction.atomic(): nothing in the block can raise
    productCopy.inStock := productCopy.inStock + cartProduct.amount;
    cartProduct.Delete(db);
    assert db.lines == RemoveAt(s.lines, found.value);
    productCopy.Save(db);
    resp := NoContent;
    assert db.stock == s.stock[name := s.stock[name] + s.lines[found.value].amount];
  }

  /** Removing a line keeps the ledger and the tables valid, and the product leaves the cart. */
  lemma RemoveProductConserves(s: Db, user: Option<UserId>, product: Option<string>)
    requires Valid(s)
    ensures var r := RemoveProductResult(s, user, product);
      Valid(r.1) && Conserves(s, r.1) &&
      (r.0 == NoContent ==> !IsInShoppingCart(r.1, user, product.value))
  {
    var r := RemoveProductResult(s, user, product);
    if r.0 == NoContent {
      var p := product.value;
      var cart := s.carts[user.value];
      var i := FindLine(s.lines, cart, p).value;
      var l := s.lines[i];
      DeleteConserves(s, i);
      IndexOfIdIsTheRow(s, i);
      var t := r.1;
      assert t == DeleteEffect(s, l.id, l.product, l.amount, s.stock[l.product]);
      forall k | 0 <= k < |t.lines| ensures !(t.lines[k].cart == cart && t.lines[k].product == p) {
        if k < i {
          assert t.lines[k] == s.lines[k];
        } else {
          assert t.lines[k] == s.lines[k + 1];
        }
      }
    }
  }

  /**
   * A 204 gives the row's amount back to its product and to no other, and
   * removes that one row: every other row of every cart is still there.
   */
  lemma RemoveProductEffect(s: Db, user: Option<UserId>, product: Option<string>)
    requires Valid(s)
    ensures var r := RemoveProductResult(s, user, product);
      r.0 == NoContent ==>
        var p := product.value;
        var i := FindLine(s.lines, s.carts[user.value], p).value;
        r.1.stock[p] == s.stock[p] + s.lines[i].amount &&
        (forall q | q in s.stock && q != p :: r.1.stock[q] == s.stock[q]) &&
        |r.1.lines| == |s.lines| - 1 &&
        (forall k | 0 <= k < |s.lines| && k != i :: s.lines[k] in r.1.lines)
  {
    var r := RemoveProductResult(s, user, product);
    if r.0 == NoContent {
      var i := FindLine(s.lines, s.carts[user.value], product.value).value;
      var t := r.1;
      assert t.lines == RemoveAt(s.lines, i);
      forall k | 0 <= k < |s.lines| && k != i ensures s.lines[k] in t.lines {
        if k < i {
          assert t.lines[k] == s.lines[k];
        } else {
          assert t.lines[k - 1] == s.lines[k];
        }
      }
    }
  }

  // ---------------------------------------------------------------------------
  // clear_cart: DELETE on cart/clear-cart.

  lemma LinesOfFit(s: Db, cart: CartId)
    requires Valid(s)
    ensures forall k | 0 <= k < |LinesOf(s.lines, cart)| ::
      LinesOf(s.lines, cart)[k].product in s.stock && LinesOf(s.lines, cart)[k].product in s.catalog
  {
    var ls := LinesOf(s.lines, cart);
    forall k | 0 <= k < |ls| ensures ls[k].product in s.stock && ls[k].product in s.catalog {
      var j :| 0 <= j < |s.lines| && s.lines[j] == ls[k];
      assert LineFits(s, s.lines[j]);
    }
  }

  /**
   * CartViewSet.clear_cart. Without a cart the answer is 400. Otherwise every
   * line's amount goes back to its product, one line after another, and the
   * cart is deleted; the delete cascades to the lines without calling their
   * delete hook, so nothing is given back twice.
   */
  function ClearCartResult(s: Db, user: Option<UserId>): (r: (Response, Db))
    requires Valid(s)
    ensures r.0 != NoContent ==> r.1 == s
    ensures user.None? ==> r.0 == Unauthorized
    ensures user.Some? ==> (r.0 == NoContent <==> user.value in s.carts)
    ensures user.Some? && user.value !in s.carts ==> r.0 == BadRequest(None)
    ensures r.1.catalog == s.catalog && r.1.nextCart == s.nextCart && r.1.nextLine == s.nextLine
    ensures user.Some? && user.value in s.carts ==> r.1.carts == s.carts - {user.value}
  {
    if user.None? then (Unauthorized, s)
    else if user.value !in s.carts then (BadRequest(None), s)
    else
      var cart := s.carts[user.value];
      LinesOfFit(s, cart);
      (NoContent, s.(stock := Release(s.stock, LinesOf(s.lines, cart)),
                     carts := s.carts - {user.value},
                     lines := WithoutCart(s.lines, cart)))
  }

  /** The loop of clear_cart: each line's product, loaded afresh, gets the line's amount back and is saved. */
  method ReleaseLines(db: Database, items: seq<LineRow>)
    requires forall k | 0 <= k < |items| :: items[k].product in db.stock && items[k].product in db.catalog
    modifies db
    ensures db.State() == old(db.State()).(stock := Release(old(db.stock), items))
  {
    ghost var s := db.State();
    var i := 0;
    while i < |items|
      invariant 0 <= i <= |items|
      invariant db.State() == s.(stock := Release(s.stock, items[..i]))
    {
      // cart_product.product loads the product row afresh
      var productCopy := new ProductInstance.Get(db, items[i].product);
      productCopy.inStock := productCopy.inStock + items[i].amount;
      productCopy.Save(db);
      ReleaseStep(s.stock, items, i);
      i := i + 1;
    }
    assert items[..i] == items;
  }

  /** CartViewSet.clear_cart on the database. */
  method ClearCartView(db: Database, user: Option<UserId>) returns (resp: Response)
    requires Valid(db.State())
    modifies db
    ensures (resp, db.State()) == ClearCartResult(old(db.State()), user)
  {
    if user.None? {
      return Unauthorized;
    }
    if user.value !in db.carts {
      return BadRequest(None);
    }
    var cart := db.carts[user.value];
    LinesOfFit(db.State(), cart);
    // with transaction.atomic(): nothing in the block can raise
    ReleaseLines(db, LinesOf(db.lines, cart));
    // cart.delete(), cascading to the cart's lines
    db.carts := db.carts - {user.value};
    db.lines := WithoutCart(db.lines, cart);
    resp := NoContent;
  }

  /**
   * Clearing a cart keeps the ledger and the tables valid, every product gets
   * back exactly what the cart held of it, and the user no longer has a cart.
   */
  lemma ClearCartConserves(s: Db, user: UserId)
    requires Valid(s) && user in s.carts
    ensures var t := ClearCartResult(s, Some(user)).1;
      t.carts == s.carts - {user} &&
      (forall j | 0 <= j < |s.lines| && s.lines[j].cart != s.carts[user] :: s.lines[j] in t.lines) &&
      (forall k | 0 <= k < |t.lines| :: t.lines[k].cart != s.carts[user] && t.lines[k] in s.lines)
    ensures var t := ClearCartResult(s, Some(user)).1;
      Valid(t) && Conserves(s, t) && user !in t.carts &&
      forall p | p in s.stock ::
        t.stock[p] == s.stock[p] + (match FindLine(s.lines, s.carts[user], p)
                                    case Some(i) => s.lines[i].amount
                                    case None => 0)
  {
    var cart := s.carts[user];
    var t := ClearCartResult(s, Some(user)).1;
    var ls := LinesOf(s.lines, cart);
    LinesOfFit(s, cart);
    forall p | p in s.stock
      ensures t.stock[p] + Reserved(t.lines, p) == s.stock[p] + Reserved(s.lines, p)
      ensures t.stock[p] == s.stock[p] + (match FindLine(s.lines, cart, p)
                                          case Some(i) => s.lines[i].amount
                                          case None => 0)
    {
      ReleaseAdds(s.stock, ls, p);
      ReservedSplitsByCart(s.lines, cart, p);
      ReservedInOneCart(s.lines, cart, p);
    }
    ClearCartValid(s, user);
  }

  /** Clearing a cart keeps the tables valid. */
  lemma ClearCartValid(s: Db, user: UserId)
    requires Valid(s) && user in s.carts
    ensures Valid(ClearCartResult(s, Some(user)).1)
  {
    var cart := s.carts[user];
    var t := ClearCartResult(s, Some(user)).1;
    assert t.lines == WithoutCart(s.lines, cart) && t.carts == s.carts - {user};
    assert t.catalog == s.catalog && t.nextLine == s.nextLine && t.nextCart == s.nextCart;
    WithoutCartUnique(s.lines, cart);
    RemainingLinesFit(s, t, user);
  }

  /** The rows left after the cascade delete still fit the remaining carts. */
  lemma RemainingLinesFit(s: Db, t: Db, user: UserId)
    requires Valid(s) && user in s.carts
    requires t.catalog == s.catalog && t.carts == s.carts - {user} && t.nextLine == s.nextLine
    requires t.lines == WithoutCart(s.lines, s.carts[user])
    ensures forall k | 0 <= k < |t.lines| :: LineFits(t, t.lines[k])
  {
    forall k | 0 <= k < |t.lines| ensures LineFits(t, t.lines[k]) {
      var l := t.lines[k];
      var j :| 0 <= j < |s.lines| && s.lines[j] == l;
      assert LineFits(s, s.lines[j]);
      var v :| v in s.carts && s.carts[v] == l.cart;
      assert v != user;
      assert t.carts[v] == l.cart;
    }
  }

  /** After clear_cart the user's cart shows no product. */
  lemma ClearCartEmpties(s: Db, user: UserId, p: ProductName)
    requires Valid(s)
    ensures !IsInShoppingCart(ClearCartResult(s, Some(user)).1, Some(user), p)
  {
  }

  // ---------------------------------------------------------------------------
  // update_product: PATCH on cart/update-product.

  /**
   * CartViewSet.update_product. A missing or empty name or amount is a 400, a
   * missing cart or line a 404, an increase beyond the stock a 400 quoting it.
   * In the atomic block `full_clean` rejects an amount below MIN_NUM or above the
   * stock (a 500, nothing written); otherwise the save hook moves the stock by
   * `diff` and the view, through the same cached product, moves it by `diff`
   * again.
   */
  function UpdateProductResult(s: Db, user: Option<UserId>, product: Option<string>, amount: Option<int>)
    : (r: (Response, Db))
    requires Valid(s)
    ensures r.0 != Ok ==> r.1 == s
    ensures user.None? ==> r.0 == Unauthorized
    ensures user.Some? && (product.None? || product == Some("") || amount.None? || amount == Some(0)) ==>
      r.0 == BadRequest(None)
    ensures user.Some? && product.Some? && product.value != "" && amount.Some? && amount.value != 0 ==>
      (r.0 == NotFound <==> user.value !in s.carts || FindLine(s.lines, s.carts[user.value], product.value).None?)
    ensures user.Some? && product.Some? && product.value != "" && amount.Some? && amount.value != 0 &&
            user.value in s.carts && FindLine(s.lines, s.carts[user.value], product.value).Some? ==>
      var i := FindLine(s.lines, s.carts[user.value], product.value).value;
      var l := s.lines[i];
      var stock := s.stock[product.value];
      var n := amount.value;
      var diff := n - l.amount;
      (r.0.BadRequest? <==> diff > stock) &&
      (r.0.BadRequest? ==> r.0 == BadRequest(Some(stock))) &&
      (r.0 == ServerError <==> diff <= stock && (n < MinNum || n > stock)) &&
      (r.0 == Ok <==> diff <= stock && MinNum <= n <= stock) &&
      (r.0 == Ok ==> r.1.lines == s.lines[i := l.(amount := n)] &&
                     r.1.stock == s.stock[product.value := stock - 2 * diff])
    ensures r.1.catalog == s.catalog && r.1.carts == s.carts && r.1.nextCart == s.nextCart && r.1.nextLine == s.nextLine
  {
    if user.None? then (Unauthorized, s)
    else if product.None? || product.value == "" || amount.None? || amount.value == 0 then (BadRequest(None), s)
    else if user.value !in s.carts then (NotFound, s)
    else
      match FindLine(s.lines, s.carts[user.value], product.value)
      case None => (NotFound, s)
      case Some(i) =>
        var l := s.lines[i];
        assert LineFits(s, l);
        var stock := s.stock[l.product];
        var n := amount.value;
        var diff := n - l.amount;
        if diff > stock then (BadRequest(Some(stock)), s)
        else if n < MinNum || n > stock then (ServerError, s)
        else (Ok, s.(stock := s.stock[l.product := stock - 2 * diff], lines := s.lines[i := l.(amount := n)]))
  }

  /** CartViewSet.update_product on the database. */
  method UpdateProductView(db: Database, user: Option<UserId>, product: Option<string>, amount: Option<int>)
    returns (resp: Response)
    requires Valid(db.State())
    modifies db
    ensures (resp, db.State()) == UpdateProductResult(old(db.State()), user, product, amount)
  {
    if user.None? {
      return Unauthorized;
    }
    if product.None? || product.value == "" || amount.None? || amount.value == 0 {
      return BadRequest(None);
    }
    if user.value !in db.carts {
      return NotFound;
    }
    var found := FindLine(db.lines, db.carts[user.value], product.value);
    if found.None? {
      return NotFound;
    }
    ghost var s := db.State();
    var row := db.lines[found.value];
    assert LineFits(s, row);
    IndexOfIdIsTheRow(s, found.value);
    var cartProduct := new CartProductInstance.Fetch(row);
    var productCopy := cartProduct.GetProduct(db);
    var n := amount.value;
    var diff := n - cartProduct.amount;
    if diff > productCopy.inStock {
      return BadRequest(Some(productCopy.inStock));
    }
    // with transaction.atomic():
    var before := db.State();
    cartProduct.amount := n;
    assert !TakenByOther(db.lines, cartProduct.pk, cartProduct.cart, cartProduct.productName);
    var err := cartProduct.Save(db);
    if err.Some? {
      db.Rollback(before);
      assert n < MinNum || n > s.stock[row.product];
      return ServerError;
    }
    assert LineRow(row.id, row.cart, row.product, n) == row.(amount := n);
    assert db.lines == s.lines[found.value := row.(amount := n)];
    assert productCopy.inStock == s.stock[row.product] - diff;
    productCopy.inStock := productCopy.inStock - diff;
    productCopy.Save(db);
    resp := Ok;
    assert db.stock == s.stock[row.product := s.stock[row.product] - 2 * diff];
  }

  /** Every answer of update_product leaves the tables valid, so requests can follow one another. */
  lemma UpdateProductValid(s: Db, user: Option<UserId>, product: Option<string>, amount: Option<int>)
    requires Valid(s)
    ensures Valid(UpdateProductResult(s, user, product, amount).1)
  {
    var r := UpdateProductResult(s, user, product, amount);
    if r.0 == Ok {
      var i := FindLine(s.lines, s.carts[user.value], product.value).value;
      var l := s.lines[i];
      var t := r.1;
      assert t.lines == s.lines[i := l.(amount := amount.value)];
      forall k | 0 <= k < |t.lines| ensures LineFits(t, t.lines[k]) {
        assert LineFits(s, s.lines[k]);
      }
    }
  }

  /** A 200 moves the stock by twice the change of the line, so `in_stock + reserved` moves by it once. */
  lemma UpdateProductAdjustsTwice(s: Db, user: UserId, p: ProductName, n: int)
    requires Valid(s) && user in s.carts && FindLine(s.lines, s.carts[user], p).Some?
    requires UpdateProductResult(s, Some(user), Some(p), Some(n)).0 == Ok
    ensures var l := s.lines[FindLine(s.lines, s.carts[user], p).value];
      var t := UpdateProductResult(s, Some(user), Some(p), Some(n)).1;
      t.stock[p] == s.stock[p] - 2 * (n - l.amount) &&
      Provisioned(t, p) == Provisioned(s, p) - (n - l.amount)
  {
    var i := FindLine(s.lines, s.carts[user], p).value;
    var l := s.lines[i];
    assert LineFits(s, l);
    ReservedUpdate(s.lines, i, l.(amount := n), p);
  }

  /** A cart line of 1 with 4 in stock raised to 4 answers 200 and leaves -2 in stock. */
  lemma UpdateProductCanGoNegative()
    ensures var s := Db(map["Name" := ProductInfo("Type", 1)], map["Name" := 4], map[7 := 0],
                        [LineRow(0, 0, "Name", 1)], 1, 1);
      Valid(s) && UpdateProductResult(s, Some(7), Some("Name"), Some(4)) ==
        (Ok, s.(stock := map["Name" := -2], lines := [LineRow(0, 0, "Name", 4)]))
  {
    var s := Db(map["Name" := ProductInfo("Type", 1)], map["Name" := 4], map[7 := 0],
                [LineRow(0, 0, "Name", 1)], 1, 1);
    assert s.carts.Values == {0} by {
      assert s.carts[7] == 0;
    }
    assert LineFits(s, s.lines[0]);
    assert FindLine(s.lines, 0, "Name") == Some(0);
    assert s.stock["Name" := 4 - 2 * 3] == map["Name" := -2];
    assert Valid(s);
    var r := UpdateProductResult(s, Some(7), Some("Name"), Some(4));
    assert r.0 == Ok;
    assert r.1.lines == [LineRow(0, 0, "Name", 4)];
    assert r.1.stock == map["Name" := -2];
  }

  /**
   * A cart line of 3 with 2 in stock raised to 4 is refused with a 500, although
   * the increase of 1 is in stock: `clean` compares the whole amount.
   */
  lemma UpdateProductRefusesCoveredIncrease()
    ensures var s := Db(map["Name" := ProductInfo("Type", 1)], map["Name" := 2], map[7 := 0],
                        [LineRow(0, 0, "Name", 3)], 1, 1);
      Valid(s) && UpdateProductResult(s, Some(7), Some("Name"), Some(4)) == (ServerError, s)
  {
    var s := Db(map["Name" := ProductInfo("Type", 1)], map["Name" := 2], map[7 := 0],
                [LineRow(0, 0, "Name", 3)], 1, 1);
    assert s.carts.Values == {0} by {
      assert s.carts[7] == 0;
    }
    assert LineFits(s, s.lines[0]);
    assert Valid(s);
    assert FindLine(s.lines, 0, "Name") == Some(0);
  }

  /**
   * The update_product the code evidently intends: an increase is checked
   * against the stock once, and the stock moves by `diff` once.
   */
  function UpdateProductIntended(s: Db, user: Option<UserId>, product: Option<string>, amount: Option<int>)
    : (r: (Response, Db))
    requires Valid(s)
    ensures r.0 != Ok ==> r.1 == s
    ensures r.0 != Ok && r.0 != ServerError ==> r == UpdateProductResult(s, user, product, amount)
  {
    var r := UpdateProductResult(s, user, product, amount);
    if r.0 != Ok && r.0 != ServerError then r
    else
      var i := FindLine(s.lines, s.carts[user.value], product.value).value;
      var l := s.lines[i];
      assert LineFits(s, l);
      var n := amount.value;
      if n < MinNum then (ServerError, s)
      else (Ok, s.(stock := s.stock[l.product := s.stock[l.product] - (n - l.amount)], lines := s.lines[i := l.(amount := n)]))
  }

  /** The intended update keeps the ledger and the tables valid and never leaves the stock negative. */
  lemma UpdateProductIntendedConserves(s: Db, user: Option<UserId>, product: Option<string>, amount: Option<int>)
    requires Valid(s)
    ensures var r := UpdateProductIntended(s, user, product, amount);
      Valid(r.1) && Conserves(s, r.1) &&
      (r.0 == Ok ==> r.1.stock[product.value] >= MinNumInStock)
  {
    var r := UpdateProductIntended(s, user, product, amount);
    if r.0 == Ok {
      var i := FindLine(s.lines, s.carts[user.value], product.value).value;
      var l := s.lines[i];
      var n := amount.value;
      assert LineFits(s, l);
      var t := r.1;
      assert t.lines == s.lines[i := l.(amount := n)];
      forall q | q in s.stock ensures t.stock[q] + Reserved(t.lines, q) == s.stock[q] + Reserved(s.lines, q) {
        ReservedUpdate(s.lines, i, l.(amount := n), q);
      }
      forall k | 0 <= k < |t.lines| ensures LineFits(t, t.lines[k]) {
        assert LineFits(s, s.lines[k]);
      }
    }
  }

  /** The intended update accepts every amount of at least MIN_NUM whose increase is in stock. */
  lemma UpdateProductIntendedAccepts(s: Db, user: UserId, p: ProductName, n: int)
    requires Valid(s) && user in s.carts && p != "" && n != 0 && FindLine(s.lines, s.carts[user], p).Some?
    requires n >= MinNum && n - s.lines[FindLine(s.lines, s.carts[user], p).value].amount <= s.stock[p]
    ensures var i := FindLine(s.lines, s.carts[user], p).value;
      UpdateProductIntended(s, Some(user), Some(p), Some(n)) ==
        (Ok, s.(stock := s.stock[p := s.stock[p] - (n - s.lines[i].amount)], lines := s.lines[i := s.lines[i].(amount := n)]))
  {
    assert LineFits(s, s.lines[FindLine(s.lines, s.carts[user], p).value]);
  }
}

// store/products/models.py: the Product stock counter, the CartProduct save and
// delete hooks, and the in-memory model instances they work on.

module Models {
  import opened Tables

  /** The Django ValidationError that `full_clean` raises, by cause. */
  datatype ValidationError =
    | BelowMinimum                    // amount < MIN_NUM (field validator)
    | NotEnoughStock(available: int)  // CartProduct.clean
    | NotUniqueInCart                 // UniqueConstraint on (cart, product)

  /** product.type.product_group: the group of the product's type, when both links resolve. */
  function ProductGroup(catalog: map<ProductName, ProductInfo>, types: map<TypeName, GroupName>,
                        p: ProductName): (g: Option<GroupName>)
    ensures g.Some? <==> p in catalog && catalog[p].typeName in types
    ensures g.Some? ==> g.value == types[catalog[p].typeName]
  {
    if p in catalog && catalog[p].typeName in types then Some(types[catalog[p].typeName]) else None
  }

  /** Products of one type belong to one group, whatever the stock or the carts. */
  lemma SameTypeSameGroup(catalog: map<ProductName, ProductInfo>, types: map<TypeName, GroupName>,
                          p: ProductName, q: ProductName)
    requires p in catalog && q in catalog && catalog[p].typeName == catalog[q].typeName
    ensures ProductGroup(catalog, types, p) == ProductGroup(catalog, types, q)
  {
  }

  /** CartProduct.clean: the amount may not exceed the stock seen on the cached product. */
  function Clean(amount: int, inStock: int): (r: Option<ValidationError>)
    ensures r.Some? <==> amount > inStock
    ensures r.Some? ==> r.value == NotEnoughStock(inStock)
  {
    if amount > inStock then Some(NotEnoughStock(inStock)) else None
  }

  /** Another row (not the one with primary key `pk`) already pairs `cart` with `p`. */
  function TakenByOther(lines: seq<LineRow>, pk: Option<LineId>, cart: CartId, p: ProductName): (r: bool)
    ensures pk.None? ==> (r <==> FindLine(lines, cart, p).Some?)
  {
    exists k | 0 <= k < |lines| :: lines[k].cart == cart && lines[k].product == p && pk != Some(lines[k].id)
  }

  /**
   * Model.full_clean on a CartProduct: the field validator, then `clean`, then the
   * unique constraint; the first failing check names the error.
   */
  function FullClean(lines: seq<LineRow>, pk: Option<LineId>, cart: CartId, p: ProductName,
                     amount: int, seen: int): (r: Option<ValidationError>)
    ensures r.None? <==> MinNum <= amount <= seen && !TakenByOther(lines, pk, cart, p)
    ensures r == Some(BelowMinimum) <==> amount < MinNum
    ensures MinNum <= amount && amount > seen ==> r == Some(NotEnoughStock(seen))
    ensures MinNum <= amount <= seen && TakenByOther(lines, pk, cart, p) ==> r == Some(NotUniqueInCart)
  {
    if amount < MinNum then Some(BelowMinimum)
    else if Clean(amount, seen).Some? then Clean(amount, seen)
    else if TakenByOther(lines, pk, cart, p) then Some(NotUniqueInCart)
    else None
  }

  /** What CartProduct.save returns and leaves behind. */
  datatype SaveOutcome = SaveOutcome(err: Option<ValidationError>, db: Db, seen: int, pk: Option<LineId>)

  /**
   * CartProduct.save on an instance with primary key `pk`, cart `cart`, product `p`
   * and amount `amount`, whose cached product shows `seen` in stock. An unsaved
   * instance reserves its whole amount; a saved one moves the stock by the
   * difference from the stored amount (not at all when it is unchanged). The
   * product is written from the cached copy, so `seen` (not the stored stock) is
   * what the new stock is computed from.
   */
  function SaveEffect(s: Db, pk: Option<LineId>, cart: CartId, p: ProductName, amount: int, seen: int): (r: SaveOutcome)
    requires pk.Some? ==> IndexOfId(s.lines, pk.value).Some?
    ensures r.err == FullClean(s.lines, pk, cart, p, amount, seen)
    ensures r.err.Some? ==> r.db == s && r.seen == seen && r.pk == pk
    ensures r.err.None? ==> r.pk.Some? && r.db.catalog == s.catalog && r.db.carts == s.carts && r.db.nextCart == s.nextCart
    ensures r.err.None? && pk.None? ==>
      r.pk == Some(s.nextLine) && r.db.nextLine == s.nextLine + 1 &&
      r.db.lines == s.lines + [LineRow(s.nextLine, cart, p, amount)] &&
      r.db.stock == s.stock[p := seen - amount] && r.seen == seen - amount
    ensures r.err.None? && pk.Some? ==>
      var i := IndexOfId(s.lines, pk.value).value;
      var diff := amount - s.lines[i].amount;
      r.pk == pk && r.db.nextLine == s.nextLine &&
      r.db.lines == s.lines[i := LineRow(pk.value, cart, p, amount)] && r.seen == seen - diff &&
      (diff == 0 ==> r.db.stock == s.stock) &&
      (diff != 0 ==> r.db.stock == s.stock[p := seen - diff])
  {
    match FullClean(s.lines, pk, cart, p, amount, seen)
    case Some(e) => SaveOutcome(Some(e), s, seen, pk)
    case None =>
      if pk.None? then
        var row := LineRow(s.nextLine, cart, p, amount);
        SaveOutcome(None,
                    s.(stock := s.stock[p := seen - amount], lines := s.lines + [row], nextLine := s.nextLine + 1),
                    seen - amount, Some(s.nextLine))
      else
        var i := IndexOfId(s.lines, pk.value).value;
        var diff := amount - s.lines[i].amount;
        var stock := if diff == 0 then s.stock else s.stock[p := seen - diff];
        SaveOutcome(None, s.(stock := stock, lines := s.lines[i := LineRow(pk.value, cart, p, amount)]),
                    seen - diff, pk)
  }

  /**
   * CartProduct.delete on the row with primary key `id`: the cached product gets
   * the instance's amount back, then the row goes.
   */
  function DeleteEffect(s: Db, id: LineId, p: ProductName, amount: int, seen: int): (r: Db)
    ensures r.catalog == s.catalog && r.carts == s.carts && r.nextLine == s.nextLine && r.nextCart == s.nextCart
    ensures r.stock == s.stock[p := seen + amount]
    ensures IndexOfId(s.lines, id).Some? ==> r.lines == RemoveAt(s.lines, IndexOfId(s.lines, id).value)
    ensures IndexOfId(s.lines, id).None? ==> r.lines == s.lines
  {
    var stock := s.stock[p := seen + amount];
    match IndexOfId(s.lines, id)
    case None => s.(stock := stock)
    case Some(i) => s.(stock := stock, lines := RemoveAt(s.lines, i))
  }

  /**
   * Saving a stored row again with its stored amount changes nothing; only
   * `clean` can still fail, against the stock the cached copy shows.
   */
  lemma ResaveUnchanged(s: Db, i: nat, seen: int)
    requires i < |s.lines| && IndexOfId(s.lines, s.lines[i].id) == Some(i)
    requires s.lines[i].amount >= MinNum
    requires !TakenByOther(s.lines, Some(s.lines[i].id), s.lines[i].cart, s.lines[i].product)
    ensures var l := s.lines[i];
      SaveEffect(s, Some(l.id), l.cart, l.product, l.amount, seen) ==
        if l.amount > seen then SaveOutcome(Some(NotEnoughStock(seen)), s, seen, Some(l.id))
        else SaveOutcome(None, s, seen, Some(l.id))
  {
    var l := s.lines[i];
    assert LineRow(l.id, l.cart, l.product, l.amount) == l;
    assert s.lines[i := l] == s.lines;
  }

  /** The row with primary key `pk` belongs to `cart` and product `p`. */
  ghost predicate RowMatches(s: Db, pk: Option<LineId>, cart: CartId, p: ProductName)
  {
    pk.Some? ==>
      IndexOfId(s.lines, pk.value).Some? &&
      s.lines[IndexOfId(s.lines, pk.value).value].cart == cart &&
      s.lines[IndexOfId(s.lines, pk.value).value].product == p
  }

  /**
   * The save hook keeps the ledger: saved from a product copy that matches the
   * database, a line creation, an amount change or a failed save leaves
   * `in_stock + reserved` of every product as it was, and keeps the tables valid.
   */
  lemma SaveConserves(s: Db, pk: Option<LineId>, cart: CartId, p: ProductName, amount: int)
    requires Valid(s) && p in s.catalog && cart in s.carts.Values && RowMatches(s, pk, cart, p)
    ensures var r := SaveEffect(s, pk, cart, p, amount, s.stock[p]);
      Valid(r.db) && Conserves(s, r.db)
  {
    if pk.None? {
      SaveNewConserves(s, cart, p, amount);
    } else {
      SaveStoredConserves(s, pk.value, cart, p, amount);
    }
  }

  /** SaveConserves for an unsaved instance: the INSERT path. */
  lemma SaveNewConserves(s: Db, cart: CartId, p: ProductName, amount: int)
    requires Valid(s) && p in s.catalog && cart in s.carts.Values
    ensures var r := SaveEffect(s, None, cart, p, amount, s.stock[p]);
      Valid(r.db) && Conserves(s, r.db)
  {
    var r := SaveEffect(s, None, cart, p, amount, s.stock[p]);
    if r.err.None? {
      var t := r.db;
      var row := LineRow(s.nextLine, cart, p, amount);
      assert t.lines == s.lines + [row];
      assert t.stock == s.stock[p := s.stock[p] - amount];
      forall q | q in s.stock ensures t.stock[q] + Reserved(t.lines, q) == s.stock[q] + Reserved(s.lines, q) {
        ReservedAppend(s.lines, row, q);
      }
      assert !TakenByOther(s.lines, None, cart, p);
      forall k | 0 <= k < |t.lines| ensures LineFits(t, t.lines[k]) {
        if k < |s.lines| { assert LineFits(s, s.lines[k]); }
      }
    }
  }

  /** SaveConserves for a stored instance: the UPDATE path. */
  lemma SaveStoredConserves(s: Db, pk: LineId, cart: CartId, p: ProductName, amount: int)
    requires Valid(s) && p in s.catalog && cart in s.carts.Values && RowMatches(s, Some(pk), cart, p)
    ensures var r := SaveEffect(s, Some(pk), cart, p, amount, s.stock[p]);
      Valid(r.db) && Conserves(s, r.db)
  {
    var r := SaveEffect(s, Some(pk), cart, p, amount, s.stock[p]);
    if r.err.None? {
      var t := r.db;
      var i := IndexOfId(s.lines, pk).value;
      var row := LineRow(pk, cart, p, amount);
      assert t.lines == s.lines[i := row];
      forall q | q in s.stock ensures t.stock[q] + Reserved(t.lines, q) == s.stock[q] + Reserved(s.lines, q) {
        ReservedUpdate(s.lines, i, row, q);
      }
      forall k | 0 <= k < |t.lines| ensures LineFits(t, t.lines[k]) {
        assert LineFits(s, s.lines[k]);
      }
    }
  }

  /**
   * The delete hook keeps the ledger: deleting a row through an instance that
   * matches the database gives exactly the row's amount back.
   */
  lemma DeleteConserves(s: Db, k: nat)
    requires Valid(s) && k < |s.lines|
    ensures var l := s.lines[k];
      var t := DeleteEffect(s, l.id, l.product, l.amount, s.stock[l.product]);
      Valid(t) && Conserves(s, t) && |t.lines| == |s.lines| - 1 &&
      t.lines == RemoveAt(s.lines, k) && t.stock[l.product] == s.stock[l.product] + l.amount &&
      forall q | q in s.stock && q != l.product :: t.stock[q] == s.stock[q]
  {
    var l := s.lines[k];
    IndexOfIdIsTheRow(s, k);
    var t := DeleteEffect(s, l.id, l.product, l.amount, s.stock[l.product]);
    assert t.lines == RemoveAt(s.lines, k);
    forall q | q in s.stock ensures t.stock[q] + Reserved(t.lines, q) == s.stock[q] + Reserved(s.lines, q) {
      ReservedRemoveAt(s.lines, k, q);
    }
    forall a | 0 <= a < |t.lines| ensures LineFits(t, t.lines[a]) && (a < k ==> t.lines[a] == s.lines[a]) && (a >= k ==> t.lines[a] == s.lines[a + 1]) {
      if a < k { assert LineFits(s, s.lines[a]); } else { assert LineFits(s, s.lines[a + 1]); }
    }
  }

  // ---------------------------------------------------------------------------
  // The database and the model instances read from it.

  /** The database connection: every table, read and written whole. */
  class Database {
    var catalog: map<ProductName, ProductInfo>
    var stock: map<ProductName, int>
    var carts: map<UserId, CartId>
    var lines: seq<LineRow>
    var nextCart: CartId
    var nextLine: LineId

    function State(): Db
      reads this
    {
      Db(catalog, stock, carts, lines, nextCart, nextLine)
    }

    constructor (s: Db)
      ensures State() == s
    {
      catalog, stock, carts, lines, nextCart, nextLine := s.catalog, s.stock, s.carts, s.lines, s.nextCart, s.nextLine;
    }

    /** Leaving a `transaction.atomic()` block by an exception puts every table back. */
    method Rollback(s: Db)
      modifies this
      ensures State() == s
    {
      catalog, stock, carts, lines, nextCart, nextLine := s.catalog, s.stock, s.carts, s.lines, s.nextCart, s.nextLine;
    }
  }

  /** A Product instance: a copy of one row, written back by `Save`. */
  class ProductInstance {
    const name: ProductName
    const price: int
    var inStock: int

    /** Product.objects.get(name=name) */
    constructor Get(db: Database, name: ProductName)
      requires name in db.catalog && name in db.stock
      ensures this.name == name && price == db.catalog[name].price && inStock == db.stock[name]
    {
      this.name := name;
      price := db.catalog[name].price;
      inStock := db.stock[name];
    }

    /** product.save(): the copy's in_stock becomes the stored one. */
    method Save(db: Database)
      modifies db
      ensures db.State() == old(db.State()).(stock := old(db.stock)[name := inStock])
    {
      db.stock := db.stock[name := inStock];
    }

    /** Product.decrease_stock: no lower bound is checked. */
    method DecreaseStock(db: Database, amount: int)
      modifies this, db
      ensures inStock == old(inStock) - amount
      ensures db.State() == old(db.State()).(stock := old(db.stock)[name := old(inStock) - amount])
    {
      inStock := inStock - amount;
      Save(db);
    }

    /** Product.increase_stock: no upper bound is checked. */
    method IncreaseStock(db: Database, amount: int)
      modifies this, db
      ensures inStock == old(inStock) + amount
      ensures db.State() == old(db.State()).(stock := old(db.stock)[name := old(inStock) + amount])
    {
      inStock := inStock + amount;
      Save(db);
    }
  }

  /** A CartProduct instance, with Django's cache of its related product. */
  class CartProductInstance {
    var pk: Option<LineId>
    const cart: CartId
    const productName: ProductName
    var amount: int
    var product: ProductInstance?

    /** CartProduct(cart=cart, product=product, amount=amount), not yet saved. */
    constructor Build(cart: CartId, product: ProductInstance, amount: int)
      ensures pk == None && this.cart == cart && productName == product.name
      ensures this.amount == amount && this.product == product
    {
      pk := None;
      this.cart := cart;
      productName := product.name;
      this.amount := amount;
      this.product := product;
    }

    /** An instance a query returned: the related product is not loaded yet. */
    constructor Fetch(row: LineRow)
      ensures pk == Some(row.id) && cart == row.cart && productName == row.product
      ensures amount == row.amount && product == null
    {
      pk := Some(row.id);
      cart := row.cart;
      productName := row.product;
      amount := row.amount;
      product := null;
    }

    /** The instance's product exists and, when saved, its row is there. */
    ghost predicate Linked(db: Database)
      reads this, product, db
    {
      && productName in db.catalog && productName in db.stock
      && (product != null ==> product.name == productName)
      && RowMatches(db.State(), pk, cart, productName)
    }

    /** The stock this instance sees: its cached product's, or the stored one it would load. */
    ghost function SeenStock(db: Database): int
      reads this, product, db
      requires Linked(db)
    {
      if product != null then product.inStock else db.stock[productName]
    }

    /** `self.product`: loads the related row on first access, then keeps returning that copy. */
    method GetProduct(db: Database) returns (p: ProductInstance)
      requires Linked(db)
      modifies this`product
      ensures p == product && p.name == productName
      ensures old(product) != null ==> p == old(product)
      ensures old(product) == null ==> fresh(p)
      ensures p.inStock == old(SeenStock(db))
    {
      if product == null {
        product := new ProductInstance.Get(db, productName);
      }
      p := product;
    }

    /** CartProduct.save: full_clean, the stock adjustment, then the row write. */
    method Save(db: Database) returns (err: Option<ValidationError>)
      requires Linked(db)
      modifies this, db, product
      ensures product != null && product.name == productName
      ensures old(product) != null ==> product == old(product)
      ensures old(product) == null ==> fresh(product)
      ensures amount == old(amount)
      ensures var r := SaveEffect(old(db.State()), old(pk), cart, productName, amount, old(SeenStock(db)));
        err == r.err && db.State() == r.db && product.inStock == r.seen && pk == r.pk
    {
      ghost var s := db.State();
      var p := GetProduct(db);
      err := FullClean(db.lines, pk, cart, productName, amount, p.inStock);
      if err.Some? {
        return;
      }
      if pk.None? {
        p.DecreaseStock(db, amount);
        // super().save(): INSERT
        db.lines := db.lines + [LineRow(db.nextLine, cart, productName, amount)];
        pk := Some(db.nextLine);
        db.nextLine := db.nextLine + 1;
      } else {
        // original = CartProduct.objects.get(pk=self.pk)
        var i := IndexOfId(db.lines, pk.value).value;
        var diff := amount - db.lines[i].amount;
        if diff > 0 {
          p.DecreaseStock(db, diff);
        } else if diff < 0 {
          p.IncreaseStock(db, -diff);
        }
        // super().save(): UPDATE
        db.lines := db.lines[i := LineRow(pk.value, cart, productName, amount)];
      }
    }

    /** CartProduct.delete: the cached product gets the amount back, then the row is deleted. */
    method Delete(db: Database)
      requires Linked(db) && pk.Some?
      modifies this, db, product
      ensures product != null && product.name == productName
      ensures old(product) != null ==> product == old(product)
      ensures old(product) == null ==> fresh(product)
      ensures product.inStock == old(SeenStock(db)) + amount
      ensures db.State() == DeleteEffect(old(db.State()), old(pk).value, productName, amount, old(SeenStock(db)))
      ensures pk == None
    {
      var p := GetProduct(db);
      p.IncreaseStock(db, amount);
      var i := IndexOfId(db.lines, pk.value).value;
      db.lines := RemoveAt(db.lines, i);
      pk := None;
    }
  }
}

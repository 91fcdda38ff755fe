// store/api/serializers.py: ProductInCartSerializer (validate, create, update,
// get_price), CartSerializer's totals and ProductReadSerializer's
// is_in_shopping_cart.

module Serializers {
  import opened Tables
  import opened Models

  /** How a serializer call ends. */
  datatype Outcome =
    | Saved
    | Rejected(available: Option<int>)  // rest_framework ValidationError: answered with 400
    | Crashed(error: ValidationError)   // Django ValidationError out of full_clean: not handled, 500

  // ---------------------------------------------------------------------------
  // Writing: validation.

  /** The declared fields: `product` is a name that must resolve, `amount` an integer >= MIN_NUM. */
  function ParseFields(catalog: map<ProductName, ProductInfo>, product: Option<string>, amount: Option<int>)
    : (r: Option<(ProductName, int)>)
    ensures r.Some? <==> product.Some? && product.value in catalog && amount.Some? && amount.value >= MinNum
    ensures r.Some? ==> r.value == (product.value, amount.value)
  {
    if product.Some? && product.value in catalog && amount.Some? && amount.value >= MinNum
    then Some((product.value, amount.value))
    else None
  }

  /** What `validate` decides: pass, 404 for an unknown name, or a 400 (quoting the stock when it is too low). */
  datatype Check = Passed | ProductMissing | Refused(available: Option<int>)

  /**
   * ProductInCartSerializer.validate. Both checks run only when the amount and the
   * product are both truthy, so a zero or missing amount passes; the stock check
   * comes first and quotes the stock.
   */
  function Validate(stock: map<ProductName, int>, product: Option<ProductName>, amount: Option<int>): (r: Check)
    ensures r == ProductMissing <==>
      amount.Some? && amount.value != 0 && product.Some? && product.value !in stock
    ensures r.Refused? <==>
      amount.Some? && amount.value != 0 && product.Some? && product.value in stock &&
      (amount.value > stock[product.value] || amount.value < 1)
    ensures r.Refused? && amount.value > stock[product.value] ==> r.available == Some(stock[product.value])
    ensures r.Refused? && amount.value <= stock[product.value] ==> r.available == None
    ensures amount == Some(0) ==> r == Passed
  {
    if amount.Some? && amount.value != 0 && product.Some? then
      if product.value !in stock then ProductMissing
      else if amount.value > stock[product.value] then Refused(Some(stock[product.value]))
      else if amount.value < 1 then Refused(None)
      else Passed
    else Passed
  }

  // ---------------------------------------------------------------------------
  // Writing: create.

  /**
   * The net effect of ProductInCartSerializer.create(cart, p, a) on a database
   * where the product copy handed in matches the stored row. An existing line
   * grows by `a` and the stock falls by `a` (the stale copy overwrites the save
   * hook's write with the same value). A new line is reserved by the save hook
   * and again by the explicit decrement; the second `save()` re-runs `clean`
   * against the already lowered stock and, when `2a` exceeds the stock, raises
   * after the row and the first reservation are committed.
   */
  function CreateResult(s: Db, cart: CartId, p: ProductName, a: int): (r: (Outcome, Db))
    requires p in s.stock
    ensures r.1.catalog == s.catalog && r.1.carts == s.carts && r.1.stock.Keys == s.stock.Keys
    ensures r.0.Rejected? == false
    ensures FindLine(s.lines, cart, p).Some? ==>
      var total := s.lines[FindLine(s.lines, cart, p).value].amount + a;
      (r.0 == Saved <==> MinNum <= total <= s.stock[p]) && (r.0 != Saved ==> r.1 == s)
    ensures FindLine(s.lines, cart, p).None? ==>
      (r.0 == Saved <==> MinNum <= a && 2 * a <= s.stock[p]) &&
      (a < MinNum || a > s.stock[p] ==> r.1 == s)
    ensures r.1.nextCart == s.nextCart
    ensures FindLine(s.lines, cart, p).Some? && r.0 == Saved ==>
      var i := FindLine(s.lines, cart, p).value;
      r.1 == s.(stock := s.stock[p := s.stock[p] - a], lines := s.lines[i := s.lines[i].(amount := s.lines[i].amount + a)])
    ensures FindLine(s.lines, cart, p).None? && MinNum <= a <= s.stock[p] ==>
      r.1.lines == s.lines + [LineRow(s.nextLine, cart, p, a)] && r.1.nextLine == s.nextLine + 1 &&
      (forall q | q in s.stock && q != p :: r.1.stock[q] == s.stock[q]) &&
      r.1.stock[p] == s.stock[p] - (if r.0 == Saved then 2 * a else a)
  {
    var stock := s.stock[p];
    match FindLine(s.lines, cart, p)
    case Some(i) =>
      var total := s.lines[i].amount + a;
      if total < MinNum then (Crashed(BelowMinimum), s)
      else if total > stock then (Crashed(NotEnoughStock(stock)), s)
      else (Saved, s.(stock := s.stock[p := stock - a], lines := s.lines[i := s.lines[i].(amount := total)]))
    case None =>
      if a < MinNum then (Crashed(BelowMinimum), s)
      else if a > stock then (Crashed(NotEnoughStock(stock)), s)
      else
        var created := s.(stock := s.stock[p := stock - a],
                          lines := s.lines + [LineRow(s.nextLine, cart, p, a)],
                          nextLine := s.nextLine + 1);
        if a > stock - a then (Crashed(NotEnoughStock(stock - a)), created)
        else (Saved, created.(stock := s.stock[p := stock - 2 * a]))
  }

  /**
   * create on an existing line is one hook save of the grown amount followed by
   * the stale copy's write of `stock - a`.
   */
  lemma CreateOnExistingLineSteps(s: Db, cart: CartId, p: ProductName, a: int)
    requires Valid(s) && p in s.catalog && FindLine(s.lines, cart, p).Some?
    ensures var l := s.lines[FindLine(s.lines, cart, p).value];
      var r := SaveEffect(s, Some(l.id), cart, p, l.amount + a, s.stock[p]);
      RowMatches(s, Some(l.id), cart, p) &&
      (r.err.Some? ==> CreateResult(s, cart, p, a) == (Crashed(r.err.value), s)) &&
      (r.err.None? ==> CreateResult(s, cart, p, a) == (Saved, r.db.(stock := r.db.stock[p := s.stock[p] - a])))
  {
    var i := FindLine(s.lines, cart, p).value;
    var l := s.lines[i];
    IndexOfIdIsTheRow(s, i);
    assert !TakenByOther(s.lines, Some(l.id), cart, p);
    var r := SaveEffect(s, Some(l.id), cart, p, l.amount + a, s.stock[p]);
    if r.err.None? {
      assert LineRow(l.id, cart, p, l.amount + a) == l.(amount := l.amount + a);
      assert r.db.lines == s.lines[i := l.(amount := l.amount + a)];
      assert r.db.stock[p := s.stock[p] - a] == s.stock[p := s.stock[p] - a];
    }
  }

  /**
   * create on a new line starts with a hook save that inserts the row under the
   * next primary key, where it is the cart's only row for the product.
   */
  lemma CreateOnNewLineFirstSave(s: Db, cart: CartId, p: ProductName, a: int)
    requires Valid(s) && p in s.catalog && FindLine(s.lines, cart, p).None?
    ensures var r := SaveEffect(s, None, cart, p, a, s.stock[p]);
      var t := r.db;
      (r.err.Some? <==> a < MinNum || a > s.stock[p]) &&
      (r.err.Some? ==> r.err == if a < MinNum then Some(BelowMinimum) else Some(NotEnoughStock(s.stock[p]))) &&
      (r.err.None? ==>
        r.pk == Some(s.nextLine) && r.seen == s.stock[p] - a &&
        t == s.(stock := s.stock[p := s.stock[p] - a],
                lines := s.lines + [LineRow(s.nextLine, cart, p, a)],
                nextLine := s.nextLine + 1) &&
        IndexOfId(t.lines, s.nextLine) == Some(|s.lines|) &&
        !TakenByOther(t.lines, r.pk, cart, p))
  {
    var r := SaveEffect(s, None, cart, p, a, s.stock[p]);
    assert !TakenByOther(s.lines, None, cart, p);
    if r.err.None? {
      var row := LineRow(s.nextLine, cart, p, a);
      var t := r.db;
      forall k | 0 <= k < |s.lines| ensures s.lines[k].id != row.id {
        assert LineFits(s, s.lines[k]);
      }
      IndexOfIdAppended(s.lines, row);
      assert !TakenByOther(t.lines, r.pk, cart, p) by {
        forall k | 0 <= k < |t.lines| && t.lines[k].cart == cart && t.lines[k].product == p
          ensures r.pk == Some(t.lines[k].id)
        {
          assert k == |s.lines|;
        }
      }
    }
  }

  /** ProductInCartSerializer.create: the `try` branch or the `except` branch. */
  method Create(db: Database, cart: CartId, product: ProductInstance, amount: int) returns (r: Outcome)
    requires Valid(db.State()) && cart in db.carts.Values
    requires product.name in db.catalog && product.inStock == db.stock[product.name]
    modifies db, product
    ensures (r, db.State()) == CreateResult(old(db.State()), cart, product.name, amount)
  {
    var found := FindLine(db.lines, cart, product.name);
    if found.Some? {
      r := AddToExistingLine(db, cart, product, amount);
    } else {
      r := AddNewLine(db, cart, product, amount);
    }
  }

  /**
   * CartProduct.objects.get(cart=cart, product=product), amount += amount, the
   * line's save, then the handed-in copy's decrement.
   */
  method AddToExistingLine(db: Database, cart: CartId, product: ProductInstance, amount: int) returns (r: Outcome)
    requires Valid(db.State()) && cart in db.carts.Values
    requires product.name in db.catalog && product.inStock == db.stock[product.name]
    requires FindLine(db.lines, cart, product.name).Some?
    modifies db, product
    ensures (r, db.State()) == CreateResult(old(db.State()), cart, product.name, amount)
  {
    ghost var s := db.State();
    var p := product.name;
    CreateOnExistingLineSteps(s, cart, p, amount);
    var cartProduct := new CartProductInstance.Fetch(db.lines[FindLine(db.lines, cart, p).value]);
    cartProduct.amount := cartProduct.amount + amount;
    var err := cartProduct.Save(db);
    if err.Some? {
      return Crashed(err.value);
    }
    product.inStock := product.inStock - amount;
    product.Save(db);
    r := Saved;
  }

  /**
   * CartProduct.objects.create(cart=cart, product=product, amount=amount) on the
   * handed-in copy, the second save, then that copy's decrement.
   */
  method AddNewLine(db: Database, cart: CartId, product: ProductInstance, amount: int) returns (r: Outcome)
    requires Valid(db.State()) && cart in db.carts.Values
    requires product.name in db.catalog && product.inStock == db.stock[product.name]
    requires FindLine(db.lines, cart, product.name).None?
    modifies db, product
    ensures (r, db.State()) == CreateResult(old(db.State()), cart, product.name, amount)
  {
    ghost var s := db.State();
    var p := product.name;
    CreateOnNewLineFirstSave(s, cart, p, amount);
    var cartProduct := new CartProductInstance.Build(cart, product, amount);
    var err := cartProduct.Save(db);
    if err.Some? {
      return Crashed(err.value);
    }
    assert cartProduct.product == product;
    ghost var created := db.State();
    assert product.inStock == s.stock[p] - amount;
    ResaveUnchanged(created, |s.lines|, product.inStock);
    err := cartProduct.Save(db);
    if err.Some? {
      assert db.State() == created;
      return Crashed(err.value);
    }
    assert db.State() == created && product.inStock == s.stock[p] - amount;
    product.inStock := product.inStock - amount;
    product.Save(db);
    r := Saved;
    assert db.stock == s.stock[p := s.stock[p] - 2 * amount];
  }

  // ---------------------------------------------------------------------------
  // Writing: update.

  /**
   * The net effect of ProductInCartSerializer.update on line `i`, whose product
   * copy shows `seen` in stock. A missing or zero amount changes nothing. An
   * increase beyond the stock is refused. Otherwise the stock moves by `diff`
   * and is saved; then `instance.save()` re-validates against the lowered copy
   * (raising with that first write committed) and its hook moves the stock by
   * `diff` a second time.
   */
  function UpdateResult(s: Db, i: nat, newAmount: Option<int>, seen: int): (r: (Outcome, Db))
    requires i < |s.lines| && s.lines[i].product in s.stock
    ensures r.1.catalog == s.catalog && r.1.carts == s.carts && r.1.stock.Keys == s.stock.Keys
    ensures r.1.nextLine == s.nextLine && r.1.nextCart == s.nextCart && |r.1.lines| == |s.lines|
    ensures newAmount.None? || newAmount == Some(0) ==> r == (Saved, s)
    ensures newAmount.Some? && newAmount.value != 0 ==>
      var n := newAmount.value;
      var l := s.lines[i];
      var diff := n - l.amount;
      (r.0.Rejected? <==> diff > 0 && diff > seen) &&
      (r.0.Rejected? ==> r == (Rejected(Some(seen)), s)) &&
      (r.0.Crashed? <==> !(diff > 0 && diff > seen) && (n < MinNum || n > seen - diff)) &&
      (r.0.Crashed? ==> r.1.lines == s.lines && r.1.stock == s.stock[l.product := seen - diff]) &&
      (r.0.Saved? ==> r.1.lines == s.lines[i := l.(amount := n)] &&
                      r.1.stock == s.stock[l.product := seen - 2 * diff])
  {
    if newAmount.None? || newAmount.value == 0 then (Saved, s)
    else
      var n := newAmount.value;
      var l := s.lines[i];
      var diff := n - l.amount;
      if diff > 0 && diff > seen then (Rejected(Some(seen)), s)
      else
        var written := s.(stock := s.stock[l.product := seen - diff]);
        if n < MinNum then (Crashed(BelowMinimum), written)
        else if n > seen - diff then (Crashed(NotEnoughStock(seen - diff)), written)
        else (Saved, s.(stock := s.stock[l.product := seen - 2 * diff], lines := s.lines[i := l.(amount := n)]))
  }

  /** ProductInCartSerializer.update on a line instance fetched from the database. */
  method Update(db: Database, instance: CartProductInstance, newAmount: Option<int>) returns (r: Outcome)
    requires Valid(db.State()) && instance.Linked(db) && instance.pk.Some?
    requires instance.amount == db.lines[IndexOfId(db.lines, instance.pk.value).value].amount
    modifies db, instance, instance.product
    ensures (r, db.State()) ==
      UpdateResult(old(db.State()), IndexOfId(old(db.lines), old(instance.pk).value).value, newAmount,
                   old(instance.SeenStock(db)))
  {
    ghost var s := db.State();
    ghost var i := IndexOfId(db.lines, instance.pk.value).value;
    if newAmount.Some? && newAmount.value != 0 {
      var n := newAmount.value;
      var product := instance.GetProduct(db);
      var diff := n - instance.amount;
      if diff > 0 && diff > product.inStock {
        return Rejected(Some(product.inStock));
      }
      product.inStock := product.inStock - diff;
      product.Save(db);
      instance.amount := n;
      assert !TakenByOther(db.lines, instance.pk, instance.cart, instance.productName) by {
        IndexOfIdIsTheRow(s, i);
      }
      ghost var written := db.State();
      ghost var l := s.lines[i];
      assert written == s.(stock := s.stock[l.product := old(instance.SeenStock(db)) - diff]);
      assert instance.SeenStock(db) == old(instance.SeenStock(db)) - diff;
      assert LineRow(l.id, instance.cart, instance.productName, n) == l.(amount := n);
      var err := instance.Save(db);
      if err.Some? {
        assert (Crashed(err.value), db.State()) == UpdateResult(s, i, newAmount, old(instance.SeenStock(db)));
        return Crashed(err.value);
      }
      assert db.lines == s.lines[i := l.(amount := n)];
      assert db.stock == s.stock[l.product := old(instance.SeenStock(db)) - 2 * diff];
      assert db.nextLine == s.nextLine;
      assert (Saved, db.State()) == UpdateResult(s, i, newAmount, old(instance.SeenStock(db)));
    }
    r := Saved;
  }

  // ---------------------------------------------------------------------------
  // Reading.

  /** ProductInCartSerializer.get_price: the line's amount times the product's price. */
  function LinePrice(catalog: map<ProductName, ProductInfo>, l: LineRow): (r: int)
    requires l.product in catalog
    ensures l.amount >= 0 && catalog[l.product].price >= MinNum ==> r >= l.amount
    ensures l.amount == 0 ==> r == 0
  {
    l.amount * catalog[l.product].price
  }

  function SumAmounts(ls: seq<LineRow>): (r: int)
  {
    if |ls| == 0 then 0 else ls[0].amount + SumAmounts(ls[1..])
  }

  function SumPrices(catalog: map<ProductName, ProductInfo>, ls: seq<LineRow>): (r: int)
    requires forall k | 0 <= k < |ls| :: ls[k].product in catalog
  {
    if |ls| == 0 then 0 else LinePrice(catalog, ls[0]) + SumPrices(catalog, ls[1..])
  }

  lemma {:induction false} SumAmountsAtLeastCount(ls: seq<LineRow>)
    ensures (forall k | 0 <= k < |ls| :: ls[k].amount >= MinNum) ==> SumAmounts(ls) >= |ls|
  {
    if |ls| > 0 {
      SumAmountsAtLeastCount(ls[1..]);
      assert forall k | 0 <= k < |ls[1..]| :: ls[1..][k] == ls[k + 1];
    }
  }

  lemma {:induction false} SumsBounded(catalog: map<ProductName, ProductInfo>, ls: seq<LineRow>)
    requires forall k | 0 <= k < |ls| :: ls[k].product in catalog && catalog[ls[k].product].price >= MinNum
    requires forall k | 0 <= k < |ls| :: ls[k].amount >= MinNum
    ensures SumPrices(catalog, ls) >= SumAmounts(ls) >= |ls|
  {
    if |ls| > 0 {
      SumsBounded(catalog, ls[1..]);
    }
  }

  /**
   * CartSerializer.get_total_amount: the sum of the amounts of the cart's lines;
   * with every amount at least MIN_NUM it is at least the number of lines, and a
   * cart without lines totals zero.
   */
  function TotalAmount(s: Db, cart: CartId): (r: int)
    ensures (forall k | 0 <= k < |LinesOf(s.lines, cart)| :: LinesOf(s.lines, cart)[k].amount >= MinNum) ==>
      r >= |LinesOf(s.lines, cart)|
    ensures (forall k | 0 <= k < |s.lines| :: s.lines[k].cart != cart) ==> r == 0
  {
    var ls := LinesOf(s.lines, cart);
    SumAmountsAtLeastCount(ls);
    assert (forall k | 0 <= k < |s.lines| :: s.lines[k].cart != cart) ==> ls == [] by {
      if |ls| > 0 {
        var j :| 0 <= j < |s.lines| && s.lines[j] == ls[0];
      }
    }
    SumAmounts(ls)
  }

  /**
   * CartSerializer.get_total_price: the sum of amount times price over the cart's
   * lines. With prices and amounts at least MIN_NUM it is at least the cart's
   * total amount, which is at least its number of lines.
   */
  function TotalPrice(s: Db, cart: CartId): (r: int)
    requires Valid(s)
    ensures r >= TotalAmount(s, cart) >= |LinesOf(s.lines, cart)|
  {
    var ls := LinesOf(s.lines, cart);
    assert forall k | 0 <= k < |ls| ::
      ls[k].product in s.catalog && s.catalog[ls[k].product].price >= MinNum && ls[k].amount >= MinNum by {
      forall k | 0 <= k < |ls|
        ensures ls[k].product in s.catalog && s.catalog[ls[k].product].price >= MinNum && ls[k].amount >= MinNum
      {
        var j :| 0 <= j < |s.lines| && s.lines[j] == ls[k];
        assert LineFits(s, s.lines[j]);
      }
    }
    SumsBounded(s.catalog, ls);
    SumPrices(s.catalog, ls)
  }

  lemma {:induction false} SumAmountsConcat(a: seq<LineRow>, b: seq<LineRow>)
    ensures SumAmounts(a + b) == SumAmounts(a) + SumAmounts(b)
  {
    if |a| == 0 {
      assert a + b == b;
    } else {
      assert (a + b)[1..] == a[1..] + b;
      SumAmountsConcat(a[1..], b);
    }
  }

  lemma {:induction false} CartAmountUpdate(lines: seq<LineRow>, i: nat, l: LineRow, cart: CartId)
    requires i < |lines| && l.cart == lines[i].cart
    ensures SumAmounts(LinesOf(lines[i := l], cart)) ==
      SumAmounts(LinesOf(lines, cart)) + (if l.cart == cart then l.amount - lines[i].amount else 0)
  {
    var t := lines[i := l];
    var head := if t[0].cart == cart then [t[0]] else [];
    var oldHead := if lines[0].cart == cart then [lines[0]] else [];
    SumAmountsConcat(head, LinesOf(t[1..], cart));
    SumAmountsConcat(oldHead, LinesOf(lines[1..], cart));
    if i == 0 {
      assert t[1..] == lines[1..];
    } else {
      assert t[1..] == lines[1..][i - 1 := l];
      CartAmountUpdate(lines[1..], i - 1, l, cart);
    }
  }

  lemma {:induction false} CartAmountAppend(lines: seq<LineRow>, l: LineRow, cart: CartId)
    ensures SumAmounts(LinesOf(lines + [l], cart)) ==
      SumAmounts(LinesOf(lines, cart)) + (if l.cart == cart then l.amount else 0)
  {
    if |lines| == 0 {
      assert lines + [l] == [l];
      assert LinesOf([l], cart) == (if l.cart == cart then [l] else []) + LinesOf([], cart);
    } else {
      var head := if lines[0].cart == cart then [lines[0]] else [];
      assert (lines + [l])[1..] == lines[1..] + [l];
      CartAmountAppend(lines[1..], l, cart);
      SumAmountsConcat(head, LinesOf(lines[1..] + [l], cart));
      SumAmountsConcat(head, LinesOf(lines[1..], cart));
    }
  }

  /** ProductReadSerializer.get_is_in_shopping_cart: the user's cart has a line for `p`. */
  function IsInShoppingCart(s: Db, user: Option<UserId>, p: ProductName): (r: bool)
    ensures r <==> (user.Some? && user.value in s.carts &&
                    exists k | 0 <= k < |s.lines| :: s.lines[k].cart == s.carts[user.value] && s.lines[k].product == p)
  {
    user.Some? && user.value in s.carts && FindLine(s.lines, s.carts[user.value], p).Some?
  }

  /** The fields of a product as ProductReadSerializer shows them. */
  datatype ProductView = ProductView(name: ProductName, price: int, inStock: int, isInShoppingCart: Option<bool>)

  /** ProductReadSerializer.to_representation: the cart flag is dropped for anonymous users. */
  function ToRepresentation(s: Db, user: Option<UserId>, p: ProductName): (r: ProductView)
    requires p in s.catalog && p in s.stock
    ensures r.name == p && r.price == s.catalog[p].price && r.inStock == s.stock[p]
    ensures r.isInShoppingCart.None? <==> user.None?
    ensures user.Some? ==> r.isInShoppingCart == Some(IsInShoppingCart(s, user, p))
    ensures user.Some? ==>
      var holds := user.value in s.carts &&
        (exists k | 0 <= k < |s.lines| :: s.lines[k].cart == s.carts[user.value] && s.lines[k].product == p);
      r.isInShoppingCart == Some(holds)
  {
    ProductView(p, s.catalog[p].price, s.stock[p], if user.None? then None else Some(IsInShoppingCart(s, user, p)))
  }

  // ---------------------------------------------------------------------------
  // What create and update do to the ledger.

  /** Adding to a line that exists keeps the ledger: the line grows by `a`, the stock falls by `a`. */
  lemma CreateOnExistingLineConserves(s: Db, cart: CartId, p: ProductName, a: int)
    requires Valid(s) && p in s.catalog && FindLine(s.lines, cart, p).Some?
    ensures var r := CreateResult(s, cart, p, a);
      Valid(r.1) && Conserves(s, r.1) &&
      (r.0.Saved? ==> r.1.stock[p] == s.stock[p] - a &&
                      r.1.lines[FindLine(s.lines, cart, p).value].amount == s.lines[FindLine(s.lines, cart, p).value].amount + a)
  {
    var i := FindLine(s.lines, cart, p).value;
    var l := s.lines[i];
    assert LineFits(s, l);
    IndexOfIdIsTheRow(s, i);
    var total := l.amount + a;
    SaveConserves(s, Some(l.id), cart, p, total);
    if MinNum <= total <= s.stock[p] {
      assert !TakenByOther(s.lines, Some(l.id), cart, p);
      assert CreateResult(s, cart, p, a).1 == SaveEffect(s, Some(l.id), cart, p, total, s.stock[p]).db;
    }
  }

  /**
   * Adding a product that has no line yet reserves it twice: on success the stock
   * falls by `2a` while only `a` sits in the cart, so `in_stock + reserved` drops by `a`.
   */
  lemma CreateOnNewLineReservesTwice(s: Db, cart: CartId, p: ProductName, a: int)
    requires Valid(s) && p in s.catalog && FindLine(s.lines, cart, p).None?
    requires CreateResult(s, cart, p, a).0.Saved?
    ensures var t := CreateResult(s, cart, p, a).1;
      t.stock[p] == s.stock[p] - 2 * a && Reserved(t.lines, p) == Reserved(s.lines, p) + a &&
      Provisioned(t, p) == Provisioned(s, p) - a
  {
    ReservedAppend(s.lines, LineRow(s.nextLine, cart, p, a), p);
  }

  /**
   * When twice the amount exceeds the stock, adding a new product crashes in the
   * second `save()`, yet the row and its single reservation stay committed.
   */
  lemma CreateOnNewLineCrashKeepsRow(s: Db, cart: CartId, p: ProductName, a: int)
    requires Valid(s) && p in s.catalog && cart in s.carts.Values && FindLine(s.lines, cart, p).None?
    requires MinNum <= a <= s.stock[p] < 2 * a
    ensures var r := CreateResult(s, cart, p, a);
      r.0 == Crashed(NotEnoughStock(s.stock[p] - a)) && |r.1.lines| == |s.lines| + 1 &&
      r.1.lines[|s.lines|] == LineRow(s.nextLine, cart, p, a) && Valid(r.1) && Conserves(s, r.1)
  {
    SaveConserves(s, None, cart, p, a);
  }

  /** The repository's own add-to-cart test (stock 1, amount 1, expecting 201) takes the crash path. */
  lemma RepositoryAddTestCrashes()
    ensures var s := Db(map["Name" := ProductInfo("Type", 1)], map["Name" := 1], map[7 := 0], [], 1, 0);
      var r := CreateResult(s, 0, "Name", 1);
      r.0 == Crashed(NotEnoughStock(0)) && r.1.stock["Name"] == 0 && r.1.lines == [LineRow(0, 0, "Name", 1)]
  {
  }

  /** create never drives a non-negative stock below zero. */
  lemma CreateKeepsStockNonNegative(s: Db, cart: CartId, p: ProductName, a: int)
    requires Valid(s) && p in s.catalog && s.stock[p] >= MinNumInStock
    ensures CreateResult(s, cart, p, a).1.stock[p] >= MinNumInStock
  {
    match FindLine(s.lines, cart, p)
    case Some(i) => assert LineFits(s, s.lines[i]);
    case None =>
  }

  /** A successful create leaves the user's cart holding the product and its total amount `a` higher. */
  lemma CreateShowsInCart(s: Db, user: UserId, p: ProductName, a: int)
    requires Valid(s) && p in s.catalog && user in s.carts
    requires CreateResult(s, s.carts[user], p, a).0.Saved?
    ensures var t := CreateResult(s, s.carts[user], p, a).1;
      IsInShoppingCart(t, Some(user), p) && TotalAmount(t, s.carts[user]) == TotalAmount(s, s.carts[user]) + a
  {
    var cart := s.carts[user];
    var t := CreateResult(s, cart, p, a).1;
    if FindLine(s.lines, cart, p).Some? {
      var i := FindLine(s.lines, cart, p).value;
      var l := s.lines[i].(amount := s.lines[i].amount + a);
      assert t.lines == s.lines[i := l];
      CartAmountUpdate(s.lines, i, l, cart);
      assert t.lines[i].cart == cart && t.lines[i].product == p;
    } else {
      var l := LineRow(s.nextLine, cart, p, a);
      assert t.lines == s.lines + [l];
      CartAmountAppend(s.lines, l, cart);
      assert t.lines[|s.lines|].cart == cart && t.lines[|s.lines|].product == p;
    }
  }

  /** The single-reservation create the code evidently intends. */
  function CreateIntended(s: Db, cart: CartId, p: ProductName, a: int): (r: (Outcome, Db))
    requires p in s.stock
    ensures r.1.catalog == s.catalog && r.1.carts == s.carts
  {
    var stock := s.stock[p];
    match FindLine(s.lines, cart, p)
    case Some(i) => CreateResult(s, cart, p, a)
    case None =>
      if a < MinNum then (Crashed(BelowMinimum), s)
      else if a > stock then (Crashed(NotEnoughStock(stock)), s)
      else (Saved, s.(stock := s.stock[p := stock - a],
                      lines := s.lines + [LineRow(s.nextLine, cart, p, a)],
                      nextLine := s.nextLine + 1))
  }

  /** The intended create keeps the ledger and the tables valid on every path. */
  lemma CreateIntendedConserves(s: Db, cart: CartId, p: ProductName, a: int)
    requires Valid(s) && p in s.catalog && cart in s.carts.Values
    ensures var r := CreateIntended(s, cart, p, a);
      Valid(r.1) && Conserves(s, r.1) && (r.0.Saved? ==> r.1.stock[p] == s.stock[p] - a)
  {
    if FindLine(s.lines, cart, p).Some? {
      CreateOnExistingLineConserves(s, cart, p, a);
    } else {
      SaveConserves(s, None, cart, p, a);
      assert !TakenByOther(s.lines, None, cart, p);
    }
  }

  /**
   * update moves the stock by `diff` twice: on success with an up-to-date product
   * copy the line changes by `diff` and the stock by `-2 * diff`.
   */
  lemma UpdateAdjustsTwice(s: Db, i: nat, n: int)
    requires Valid(s) && i < |s.lines|
    requires UpdateResult(s, i, Some(n), s.stock[s.lines[i].product]).0.Saved? && n != 0
    ensures var p := s.lines[i].product;
      var diff := n - s.lines[i].amount;
      var t := UpdateResult(s, i, Some(n), s.stock[p]).1;
      t.stock[p] == s.stock[p] - 2 * diff && Provisioned(t, p) == Provisioned(s, p) - diff
  {
    var l := s.lines[i];
    assert LineFits(s, l);
    ReservedUpdate(s.lines, i, l.(amount := n), l.product);
  }

  /** Every path of update, the crash with its committed stock write included, keeps the tables valid. */
  lemma UpdateValid(s: Db, i: nat, newAmount: Option<int>, seen: int)
    requires Valid(s) && i < |s.lines|
    ensures Valid(UpdateResult(s, i, newAmount, seen).1)
  {
    var l := s.lines[i];
    assert LineFits(s, l);
    var t := UpdateResult(s, i, newAmount, seen).1;
    if t.lines != s.lines {
      var n := newAmount.value;
      assert t.lines == s.lines[i := l.(amount := n)];
      forall k | 0 <= k < |t.lines| ensures LineFits(t, t.lines[k]) {
        assert LineFits(s, s.lines[k]);
      }
    } else {
      forall k | 0 <= k < |t.lines| ensures LineFits(t, t.lines[k]) {
        assert LineFits(s, s.lines[k]);
      }
    }
  }

  /** The update the code evidently intends: the stock moves by `diff` once. */
  function UpdateIntended(s: Db, i: nat, newAmount: Option<int>): (r: (Outcome, Db))
    requires i < |s.lines| && s.lines[i].product in s.stock
    ensures r.1.catalog == s.catalog && r.1.carts == s.carts && r.1.stock.Keys == s.stock.Keys
    ensures !r.0.Saved? ==> r.1 == s
  {
    if newAmount.None? || newAmount.value == 0 then (Saved, s)
    else
      var n := newAmount.value;
      var l := s.lines[i];
      var stock := s.stock[l.product];
      var diff := n - l.amount;
      if diff > 0 && diff > stock then (Rejected(Some(stock)), s)
      else if n < MinNum then (Crashed(BelowMinimum), s)
      else (Saved, s.(stock := s.stock[l.product := stock - diff], lines := s.lines[i := l.(amount := n)]))
  }

  /** The intended update keeps the ledger and the tables valid, and a non-negative stock stays so. */
  lemma UpdateIntendedConserves(s: Db, i: nat, newAmount: Option<int>)
    requires Valid(s) && i < |s.lines|
    ensures var p := s.lines[i].product;
      var r := UpdateIntended(s, i, newAmount);
      Valid(r.1) && Conserves(s, r.1) && (s.stock[p] >= MinNumInStock ==> r.1.stock[p] >= MinNumInStock)
  {
    var l := s.lines[i];
    assert LineFits(s, l);
    var r := UpdateIntended(s, i, newAmount);
    if r.1 != s {
      var n := newAmount.value;
      var t := r.1;
      assert t.lines == s.lines[i := l.(amount := n)];
      forall q | q in s.stock ensures t.stock[q] + Reserved(t.lines, q) == s.stock[q] + Reserved(s.lines, q) {
        ReservedUpdate(s.lines, i, l.(amount := n), q);
      }
      forall k | 0 <= k < |t.lines| ensures LineFits(t, t.lines[k]) {
        assert LineFits(s, s.lines[k]);
      }
    }
  }
}

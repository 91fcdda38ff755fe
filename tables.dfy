// The database tables behind the cart/stock ledger (store/products/models.py),
// as plain values, with the sums and lookups the rest of the model is stated in.

module Tables {

  /** MIN_NUM: the least line amount and the least price (MinValueValidator). */
  const MinNum: int := 1
  /** MIN_NUM_IN_STOCK: the declared least in_stock; product.save() never checks it. */
  const MinNumInStock: int := 0

  datatype Option<T> = None | Some(value: T)

  /** Products are identified by their unique name, the key every request uses. */
  type ProductName = string
  type TypeName = string
  type GroupName = string
  type UserId = nat
  type CartId = nat
  type LineId = nat

  /** The Product columns the core reads but never writes. */
  datatype ProductInfo = ProductInfo(typeName: TypeName, price: int)

  /** One CartProduct row. */
  datatype LineRow = LineRow(id: LineId, cart: CartId, product: ProductName, amount: int)

  /**
   * The state of the database: the catalogue, the in_stock column, the Cart table
   * (a user's cart), the CartProduct table in primary-key order, and the next ids
   * the database will hand out.
   */
  datatype Db = Db(
    catalog: map<ProductName, ProductInfo>,
    stock: map<ProductName, int>,
    carts: map<UserId, CartId>,
    lines: seq<LineRow>,
    nextCart: CartId,
    nextLine: LineId)

  /** No two rows share a primary key, and a cart holds at most one row per product. */
  ghost predicate UniqueLines(lines: seq<LineRow>)
  {
    forall i, j | 0 <= i < j < |lines| ::
      lines[i].id != lines[j].id &&
      (lines[i].cart != lines[j].cart || lines[i].product != lines[j].product)
  }

  /** A row's foreign keys resolve, its id was handed out, and its amount meets MIN_NUM. */
  ghost predicate LineFits(s: Db, l: LineRow)
  {
    l.product in s.catalog && l.cart in s.carts.Values && l.id < s.nextLine && l.amount >= MinNum
  }

  /** What the schema and the save hooks keep true of every committed state. */
  ghost predicate Valid(s: Db)
  {
    && s.stock.Keys == s.catalog.Keys
    && (forall n | n in s.catalog :: s.catalog[n].price >= MinNum)
    && (forall u | u in s.carts :: s.carts[u] < s.nextCart)
    && (forall u, v | u in s.carts && v in s.carts && u != v :: s.carts[u] != s.carts[v])
    && (forall k | 0 <= k < |s.lines| :: LineFits(s, s.lines[k]))
    && UniqueLines(s.lines)
  }

  /** The row of `cart` for product `p` (the unique constraint makes it the only one). */
  function FindLine(lines: seq<LineRow>, cart: CartId, p: ProductName): (r: Option<nat>)
    ensures r.Some? ==> r.value < |lines| && lines[r.value].cart == cart && lines[r.value].product == p
    ensures r.Some? ==> forall k | 0 <= k < r.value :: !(lines[k].cart == cart && lines[k].product == p)
    ensures r.None? ==> forall k | 0 <= k < |lines| :: !(lines[k].cart == cart && lines[k].product == p)
  {
    if |lines| == 0 then None
    else if lines[0].cart == cart && lines[0].product == p then Some(0)
    else match FindLine(lines[1..], cart, p)
      case None => None
      case Some(k) => Some(k + 1)
  }

  /** The position of the row whose primary key is `id`. */
  function IndexOfId(lines: seq<LineRow>, id: LineId): (r: Option<nat>)
    ensures r.Some? ==> r.value < |lines| && lines[r.value].id == id
    ensures r.None? ==> forall k | 0 <= k < |lines| :: lines[k].id != id
  {
    if |lines| == 0 then None
    else if lines[0].id == id then Some(0)
    else match IndexOfId(lines[1..], id)
      case None => None
      case Some(k) => Some(k + 1)
  }

  lemma FindLineIsTheRow(s: Db, k: nat)
    requires Valid(s) && k < |s.lines|
    ensures FindLine(s.lines, s.lines[k].cart, s.lines[k].product) == Some(k)
  {
  }

  lemma IndexOfIdIsTheRow(s: Db, k: nat)
    requires Valid(s) && k < |s.lines|
    ensures IndexOfId(s.lines, s.lines[k].id) == Some(k)
  {
  }

  /** A row appended under a fresh primary key is found at the end. */
  lemma {:induction false} IndexOfIdAppended(lines: seq<LineRow>, row: LineRow)
    requires forall k | 0 <= k < |lines| :: lines[k].id != row.id
    ensures IndexOfId(lines + [row], row.id) == Some(|lines|)
  {
    if |lines| > 0 {
      assert (lines + [row])[1..] == lines[1..] + [row];
      IndexOfIdAppended(lines[1..], row);
    }
  }

  function RemoveAt(lines: seq<LineRow>, i: nat): (r: seq<LineRow>)
    requires i < |lines|
  {
    lines[..i] + lines[i + 1..]
  }

  /** The rows of one cart, in table order: `cart.cartproduct_set.all()`. */
  function LinesOf(lines: seq<LineRow>, cart: CartId): (r: seq<LineRow>)
    ensures forall k | 0 <= k < |r| :: r[k].cart == cart && r[k] in lines
    ensures forall k | 0 <= k < |lines| && lines[k].cart == cart :: lines[k] in r
  {
    if |lines| == 0 then []
    else (if lines[0].cart == cart then [lines[0]] else []) + LinesOf(lines[1..], cart)
  }

  /** The rows left once a cart is deleted and the delete cascades to its rows. */
  function WithoutCart(lines: seq<LineRow>, cart: CartId): (r: seq<LineRow>)
    ensures forall k | 0 <= k < |r| :: r[k].cart != cart && r[k] in lines
    ensures forall k | 0 <= k < |lines| && lines[k].cart != cart :: lines[k] in r
  {
    if |lines| == 0 then []
    else (if lines[0].cart != cart then [lines[0]] else []) + WithoutCart(lines[1..], cart)
  }

  lemma {:induction false} WithoutCartUnique(lines: seq<LineRow>, cart: CartId)
    requires UniqueLines(lines)
    ensures UniqueLines(WithoutCart(lines, cart))
  {
    if |lines| > 0 {
      var rest := WithoutCart(lines[1..], cart);
      WithoutCartUnique(lines[1..], cart);
      forall k | 0 <= k < |rest|
        ensures rest[k].id != lines[0].id
        ensures rest[k].cart != lines[0].cart || rest[k].product != lines[0].product
      {
        var j :| 0 <= j < |lines[1..]| && lines[1..][j] == rest[k];
        assert lines[j + 1] == rest[k];
      }
    }
  }

  // ---------------------------------------------------------------------------
  // The ledger: how much of a product the cart rows hold.

  /** The part of row `l` that reserves product `p`. */
  function Share(l: LineRow, p: ProductName): (r: int)
  {
    if l.product == p then l.amount else 0
  }

  /** The sum of the amounts of the rows for product `p`. */
  function Reserved(lines: seq<LineRow>, p: ProductName): (r: int)
  {
    if |lines| == 0 then 0 else Share(lines[0], p) + Reserved(lines[1..], p)
  }

  /** in_stock plus every unit of the product that sits in a cart. */
  function Provisioned(s: Db, p: ProductName): (r: int)
    requires p in s.stock
  {
    s.stock[p] + Reserved(s.lines, p)
  }

  /** The conservation law: no product gains or loses units between `s` and `t`. */
  ghost predicate Conserves(s: Db, t: Db)
  {
    && t.stock.Keys == s.stock.Keys
    && forall p | p in s.stock :: t.stock[p] + Reserved(t.lines, p) == s.stock[p] + Reserved(s.lines, p)
  }

  lemma {:induction false} ReservedConcat(a: seq<LineRow>, b: seq<LineRow>, p: ProductName)
    ensures Reserved(a + b, p) == Reserved(a, p) + Reserved(b, p)
  {
    if |a| == 0 {
      assert a + b == b;
    } else {
      assert (a + b)[1..] == a[1..] + b;
      ReservedConcat(a[1..], b, p);
    }
  }

  lemma ReservedAppend(lines: seq<LineRow>, l: LineRow, p: ProductName)
    ensures Reserved(lines + [l], p) == Reserved(lines, p) + Share(l, p)
  {
    ReservedConcat(lines, [l], p);
    assert Reserved([l], p) == Share(l, p) + Reserved([], p);
  }

  lemma {:induction false} ReservedUpdate(lines: seq<LineRow>, i: nat, l: LineRow, p: ProductName)
    requires i < |lines|
    ensures Reserved(lines[i := l], p) == Reserved(lines, p) - Share(lines[i], p) + Share(l, p)
  {
    if i == 0 {
      assert lines[i := l][1..] == lines[1..];
    } else {
      assert lines[i := l][1..] == lines[1..][i - 1 := l];
      ReservedUpdate(lines[1..], i - 1, l, p);
    }
  }

  lemma ReservedRemoveAt(lines: seq<LineRow>, i: nat, p: ProductName)
    requires i < |lines|
    ensures Reserved(RemoveAt(lines, i), p) == Reserved(lines, p) - Share(lines[i], p)
  {
    assert lines == lines[..i] + [lines[i]] + lines[i + 1..];
    ReservedConcat(lines[..i] + [lines[i]], lines[i + 1..], p);
    ReservedAppend(lines[..i], lines[i], p);
    ReservedConcat(lines[..i], lines[i + 1..], p);
  }

  lemma {:induction false} ReservedSplitsByCart(lines: seq<LineRow>, cart: CartId, p: ProductName)
    ensures Reserved(lines, p) == Reserved(LinesOf(lines, cart), p) + Reserved(WithoutCart(lines, cart), p)
  {
    if |lines| > 0 {
      var head := if lines[0].cart == cart then [lines[0]] else [];
      var other := if lines[0].cart != cart then [lines[0]] else [];
      ReservedSplitsByCart(lines[1..], cart, p);
      ReservedConcat(head, LinesOf(lines[1..], cart), p);
      ReservedConcat(other, WithoutCart(lines[1..], cart), p);
      assert Reserved([lines[0]], p) == Share(lines[0], p) + Reserved([], p);
    }
  }

  /** Within one cart the unique constraint leaves at most one row per product. */
  lemma {:induction false} ReservedInOneCart(lines: seq<LineRow>, cart: CartId, p: ProductName)
    requires UniqueLines(lines)
    ensures FindLine(lines, cart, p).None? ==> Reserved(LinesOf(lines, cart), p) == 0
    ensures FindLine(lines, cart, p).Some? ==>
      Reserved(LinesOf(lines, cart), p) == lines[FindLine(lines, cart, p).value].amount
  {
    if |lines| > 0 {
      var head := if lines[0].cart == cart then [lines[0]] else [];
      ReservedInOneCart(lines[1..], cart, p);
      ReservedConcat(head, LinesOf(lines[1..], cart), p);
      assert Reserved([lines[0]], p) == Share(lines[0], p) + Reserved([], p);
      if lines[0].cart == cart && lines[0].product == p {
        assert FindLine(lines[1..], cart, p).None? by {
          forall k | 0 <= k < |lines[1..]|
            ensures !(lines[1..][k].cart == cart && lines[1..][k].product == p)
          {
            assert lines[1..][k] == lines[k + 1];
          }
        }
      }
    }
  }

  // ---------------------------------------------------------------------------
  // Giving a cart's rows back to stock, row by row.

  /** in_stock after each row of `ls`, in order, has added its amount to its product. */
  function Release(stock: map<ProductName, int>, ls: seq<LineRow>): (r: map<ProductName, int>)
    requires forall k | 0 <= k < |ls| :: ls[k].product in stock
    ensures r.Keys == stock.Keys
  {
    if |ls| == 0 then stock
    else
      var before := Release(stock, ls[..|ls| - 1]);
      var l := ls[|ls| - 1];
      before[l.product := before[l.product] + l.amount]
  }

  /** Releasing one more row of `ls` adds that row's amount to its product. */
  lemma ReleaseStep(stock: map<ProductName, int>, ls: seq<LineRow>, i: nat)
    requires forall k | 0 <= k < |ls| :: ls[k].product in stock
    requires i < |ls|
    ensures var before := Release(stock, ls[..i]);
      Release(stock, ls[..i + 1]) == before[ls[i].product := before[ls[i].product] + ls[i].amount]
  {
    assert ls[..i + 1][..i] == ls[..i];
  }

  lemma {:induction false} ReleaseAdds(stock: map<ProductName, int>, ls: seq<LineRow>, p: ProductName)
    requires forall k | 0 <= k < |ls| :: ls[k].product in stock
    requires p in stock
    ensures Release(stock, ls)[p] == stock[p] + Reserved(ls, p)
  {
    if |ls| > 0 {
      var init := ls[..|ls| - 1];
      ReleaseAdds(stock, init, p);
      ReservedAppend(init, ls[|ls| - 1], p);
      assert init + [ls[|ls| - 1]] == ls;
    }
  }
}

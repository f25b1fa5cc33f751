/**
 * Cart pricing (processCart): checks a requested cart against the product rows
 * read for it and either rejects it (404 missing product, 409 short stock) or
 * returns the rows read and the cart total. The database read is the function
 * FindMany over the product table, so pricing changes no product.
 */
module CartService {
  import opened Domain

  const NotFoundMessage := "Um ou mais produtos não foram encontrados."
  const ShortStockPrefix := "Estoque insuficiente para o produto: "

  /** The outcome of pricing: the rows read and the total, or an error and its status. */
  datatype CartResult = Priced(products: seq<Product>, total: int) | Rejected(error: string, status: int)

  function ShortStockMessage(name: string): (r: string)
  {
    ShortStockPrefix + name
  }

  /** The set of values in a sequence. */
  function Elements<T>(s: seq<T>): (r: set<T>)
  {
    set x | x in s
  }

  /**
   * `findMany({ where: { id: { in: ids } } })`: the table rows whose id is
   * requested, each row once, in table order.
   */
  function FindMany(catalog: seq<Product>, ids: seq<Id>): (r: seq<Product>)
  {
    if catalog == [] then []
    else (if catalog[0].id in ids then [catalog[0]] else []) + FindMany(catalog[1..], ids)
  }

  /** Every requested product exists, and no product is requested twice. */
  predicate ListedOnce(items: seq<CartItem>, catalog: seq<Product>)
  {
    && Distinct(Ids(items))
    && forall i :: 0 <= i < |items| ==> items[i].productId in ProductIds(catalog)
  }

  /** The line asks for more units than the row read for its product holds. */
  predicate Short(item: CartItem, ps: seq<Product>)
  {
    match Find(ps, item.productId)
    case Some(p) => p.stock < item.quantity
    case None => false
  }

  /** Unit price times quantity for one line (zero when its product is not among the rows). */
  function LineTotal(item: CartItem, ps: seq<Product>): (r: int)
  {
    match Find(ps, item.productId)
    case Some(p) => p.price * item.quantity
    case None => 0
  }

  /** Sum of the line totals, accumulated left to right. */
  function Subtotal(items: seq<CartItem>, ps: seq<Product>): (r: int)
  {
    if items == [] then 0
    else Subtotal(items[..|items| - 1], ps) + LineTotal(items[|items| - 1], ps)
  }

  /** The index of the first short line, in cart order. */
  function FirstShort(items: seq<CartItem>, ps: seq<Product>): (r: Option<nat>)
    ensures r.Some? ==> r.value < |items| && Short(items[r.value], ps)
    ensures r.Some? ==> forall j :: 0 <= j < r.value ==> !Short(items[j], ps)
    ensures r.None? ==> forall j :: 0 <= j < |items| ==> !Short(items[j], ps)
  {
    if items == [] then None
    else if Short(items[0], ps) then Some(0)
    else match FirstShort(items[1..], ps)
      case Some(k) => Some(k + 1)
      case None => None
  }

  function NameOf(ps: seq<Product>, id: Id): (r: string)
  {
    match Find(ps, id)
    case Some(p) => p.name
    case None => ""
  }

  /** What processCart answers for a cart, given the product table it reads. */
  function PriceCart(items: seq<CartItem>, catalog: seq<Product>): (r: CartResult)
  {
    var fetched := FindMany(catalog, Ids(items));
    if |fetched| != |items| then Rejected(NotFoundMessage, 404)
    else match FirstShort(items, fetched)
      case Some(i) => Rejected(ShortStockMessage(NameOf(fetched, items[i].productId)), 409)
      case None => Priced(fetched, Subtotal(items, fetched))
  }

  /**
   * processCart: one read, the count check, then a loop that stops at the
   * first short line and otherwise accumulates the total.
   */
  method ProcessCart(items: seq<CartItem>, catalog: seq<Product>) returns (r: CartResult)
    requires UniqueIds(catalog)
    ensures r == PriceCart(items, catalog)
  {
    var productIds := Ids(items);
    var fetched := FindMany(catalog, productIds);
    if |fetched| != |productIds| {
      return Rejected(NotFoundMessage, 404);
    }
    FetchedAllExactly(items, catalog);
    var total := 0;
    for i := 0 to |items|
      invariant total == Subtotal(items[..i], fetched)
      invariant forall j :: 0 <= j < i ==> !Short(items[j], fetched)
    {
      FindFound(fetched, items[i].productId);
      var product := Find(fetched, items[i].productId).value;
      if product.stock < items[i].quantity {
        assert Short(items[i], fetched);
        assert FirstShort(items, fetched) == Some(i);
        return Rejected(ShortStockMessage(product.name), 409);
      }
      total := total + product.price * items[i].quantity;
      assert items[..i + 1][..i] == items[..i];
    }
    assert items[..|items|] == items;
    assert FirstShort(items, fetched) == None;
    return Priced(fetched, total);
  }

  // ---------------------------------------------------------------------------
  // Counting what the read returns

  lemma {:induction false} ElementsCard<T>(s: seq<T>)
    ensures |Elements(s)| <= |s|
    ensures |Elements(s)| == |s| <==> Distinct(s)
  {
    if s != [] {
      var t := s[1..];
      ElementsCard(t);
      assert s == [s[0]] + t;
      assert Elements(s) == {s[0]} + Elements(t);
      if s[0] in t {
        var k :| 0 <= k < |t| && t[k] == s[0];
        assert s[0] == s[k + 1];
        assert Elements(s) == Elements(t);
      } else {
        assert Distinct(s) <==> Distinct(t) by {
          if Distinct(t) {
            forall i, j | 0 <= i < j < |s| ensures s[i] != s[j] {
              if i == 0 { assert s[j] == t[j - 1]; } else { assert s[i] == t[i - 1] && s[j] == t[j - 1]; }
            }
          }
          if Distinct(s) {
            forall i, j | 0 <= i < j < |t| ensures t[i] != t[j] {
              assert t[i] == s[i + 1] && t[j] == s[j + 1];
            }
          }
        }
      }
    }
  }

  lemma SubsetCard<T>(a: set<T>, b: set<T>)
    requires a <= b
    ensures |a| <= |b|
    ensures |a| == |b| ==> a == b
  {
    assert b == a + (b - a);
    assert a !! (b - a);
  }

  /** Dropping the first row of a table keeps its ids unique, and the first id is not among the rest. */
  lemma UniqueTail(catalog: seq<Product>)
    requires catalog != [] && UniqueIds(catalog)
    ensures UniqueIds(catalog[1..])
    ensures catalog[0].id !in Elements(ProductIds(catalog[1..]))
    ensures Elements(ProductIds(catalog)) == {catalog[0].id} + Elements(ProductIds(catalog[1..]))
  {
    var rest := catalog[1..];
    assert ProductIds(catalog) == [catalog[0].id] + ProductIds(rest);
    forall i, j | 0 <= i < j < |rest| ensures ProductIds(rest)[i] != ProductIds(rest)[j] {
      assert ProductIds(catalog)[i + 1] != ProductIds(catalog)[j + 1];
    }
  }

  lemma {:induction false} FindManyCount(catalog: seq<Product>, ids: seq<Id>)
    requires UniqueIds(catalog)
    ensures |FindMany(catalog, ids)| == |Elements(ProductIds(catalog)) * Elements(ids)|
  {
    if catalog != [] {
      var rest := catalog[1..];
      var c := catalog[0].id;
      UniqueTail(catalog);
      FindManyCount(rest, ids);
      var known := Elements(ProductIds(rest));
      var common := known * Elements(ids);
      if c in ids {
        assert Elements(ProductIds(catalog)) * Elements(ids) == {c} + common;
        assert c !in common;
        assert |{c} + common| == |common| + 1;
        assert FindMany(catalog, ids) == [catalog[0]] + FindMany(rest, ids);
      } else {
        assert Elements(ProductIds(catalog)) * Elements(ids) == common;
        assert FindMany(catalog, ids) == FindMany(rest, ids);
      }
    }
  }

  /**
   * The 404 check of processCart compares the number of rows read with the
   * number of lines: they agree exactly when every product exists and none is
   * requested twice. A repeated id is therefore reported as "not found".
   */
  lemma FetchedAllExactly(items: seq<CartItem>, catalog: seq<Product>)
    requires UniqueIds(catalog)
    ensures |FindMany(catalog, Ids(items))| == |items| <==> ListedOnce(items, catalog)
    ensures ListedOnce(items, catalog) ==>
      forall i :: 0 <= i < |items| ==> items[i].productId in ProductIds(FindMany(catalog, Ids(items)))
  {
    var ids := Ids(items);
    var known := Elements(ProductIds(catalog));
    var asked := Elements(ids);
    FindManyCount(catalog, ids);
    ElementsCard(ids);
    SubsetCard(known * asked, asked);
    if ListedOnce(items, catalog) {
      assert known * asked == asked;
      forall i | 0 <= i < |items|
        ensures items[i].productId in ProductIds(FindMany(catalog, ids))
      {
        var k :| 0 <= k < |catalog| && ProductIds(catalog)[k] == items[i].productId;
        FindManyRows(catalog, ids, catalog[k]);
        var m :| 0 <= m < |FindMany(catalog, ids)| && FindMany(catalog, ids)[m] == catalog[k];
        assert ProductIds(FindMany(catalog, ids))[m] == items[i].productId;
      }
    }
    if |FindMany(catalog, ids)| == |items| {
      assert known * asked == asked;
      forall i | 0 <= i < |items| ensures items[i].productId in ProductIds(catalog) {
        assert ids[i] in asked;
      }
    }
  }

  /** A row is read exactly when it is in the table and its id is requested. */
  lemma {:induction false} FindManyRows(catalog: seq<Product>, ids: seq<Id>, p: Product)
    ensures p in FindMany(catalog, ids) <==> p in catalog && p.id in ids
  {
    if catalog != [] {
      FindManyRows(catalog[1..], ids, p);
      assert catalog == [catalog[0]] + catalog[1..];
    }
  }

  /** Looking a requested id up among the rows read finds the table's row. */
  lemma {:induction false} FindManyFind(catalog: seq<Product>, ids: seq<Id>, id: Id)
    requires id in ids
    ensures Find(FindMany(catalog, ids), id) == Find(catalog, id)
  {
    if catalog != [] {
      var rest := catalog[1..];
      FindManyFind(rest, ids, id);
      if catalog[0].id in ids {
        var r := FindMany(catalog, ids);
        assert r == [catalog[0]] + FindMany(rest, ids);
        assert r[0] == catalog[0] && r[1..] == FindMany(rest, ids);
      } else {
        assert FindMany(catalog, ids) == FindMany(rest, ids);
      }
    }
  }

  lemma {:induction false} SubtotalFetched(items: seq<CartItem>, catalog: seq<Product>, ids: seq<Id>)
    requires forall i :: 0 <= i < |items| ==> items[i].productId in ids
    ensures Subtotal(items, FindMany(catalog, ids)) == Subtotal(items, catalog)
  {
    if items != [] {
      var n := |items| - 1;
      SubtotalFetched(items[..n], catalog, ids);
      FindManyFind(catalog, ids, items[n].productId);
    }
  }

  // ---------------------------------------------------------------------------
  // What processCart answers

  /** 404 exactly when a product is missing or repeated; the message is fixed. */
  lemma PriceCartNotFound(items: seq<CartItem>, catalog: seq<Product>)
    requires UniqueIds(catalog)
    ensures PriceCart(items, catalog).Rejected? && PriceCart(items, catalog).status == 404
        <==> !ListedOnce(items, catalog)
    ensures !ListedOnce(items, catalog) ==> PriceCart(items, catalog) == Rejected(NotFoundMessage, 404)
  {
    FetchedAllExactly(items, catalog);
  }

  /**
   * 409 exactly when every product is listed once and some line asks for more
   * than its stock; the message names the product of the first such line.
   * A quantity equal to the stock is not short.
   */
  lemma PriceCartShortStock(items: seq<CartItem>, catalog: seq<Product>)
    requires UniqueIds(catalog)
    ensures PriceCart(items, catalog).Rejected? && PriceCart(items, catalog).status == 409
        <==> ListedOnce(items, catalog) && exists i :: 0 <= i < |items| && Short(items[i], catalog)
    ensures PriceCart(items, catalog).Rejected? && PriceCart(items, catalog).status == 409 ==>
      exists i :: 0 <= i < |items| && Short(items[i], catalog)
        && (forall j :: 0 <= j < i ==> !Short(items[j], catalog))
        && PriceCart(items, catalog).error == ShortStockMessage(Find(catalog, items[i].productId).value.name)
  {
    var ids := Ids(items);
    var fetched := FindMany(catalog, ids);
    FetchedAllExactly(items, catalog);
    forall i | 0 <= i < |items| ensures Find(fetched, items[i].productId) == Find(catalog, items[i].productId) {
      assert ids[i] == items[i].productId;
      FindManyFind(catalog, ids, items[i].productId);
    }
  }

  /**
   * Success exactly when every product is listed once and no line is short;
   * then the rows are those read, the total is the sum of price times
   * quantity, and every quantity is at most its product's stock.
   */
  lemma PriceCartSuccess(items: seq<CartItem>, catalog: seq<Product>)
    requires UniqueIds(catalog)
    ensures PriceCart(items, catalog).Priced?
        <==> ListedOnce(items, catalog) && forall i :: 0 <= i < |items| ==> !Short(items[i], catalog)
    ensures PriceCart(items, catalog).Priced? ==>
      && PriceCart(items, catalog).products == FindMany(catalog, Ids(items))
      && PriceCart(items, catalog).total == Subtotal(items, catalog)
      && forall i :: 0 <= i < |items| ==>
           Find(catalog, items[i].productId).Some?
           && items[i].quantity <= Find(catalog, items[i].productId).value.stock
  {
    var ids := Ids(items);
    var fetched := FindMany(catalog, ids);
    FetchedAllExactly(items, catalog);
    forall i | 0 <= i < |items| ensures Find(fetched, items[i].productId) == Find(catalog, items[i].productId) {
      assert ids[i] == items[i].productId;
      FindManyFind(catalog, ids, items[i].productId);
    }
    forall i | 0 <= i < |items| ensures items[i].productId in ids {
      assert ids[i] == items[i].productId;
    }
    forall i | 0 <= i < |items| ensures items[i].productId in ProductIds(catalog) ==> Find(catalog, items[i].productId).Some? {
      FindFound(catalog, items[i].productId);
    }
    SubtotalFetched(items, catalog, ids);
  }

  /** In integer cents, three lines of 10.10 at quantity 1 cost exactly 30.30, with no float rounding. */
  lemma ExactCentTotal()
    ensures PriceCart(
      [CartItem("a", 1), CartItem("b", 1), CartItem("c", 1)],
      [Product("a", "A", 1010, 5), Product("b", "B", 1010, 5), Product("c", "C", 1010, 5)])
      == Priced([Product("a", "A", 1010, 5), Product("b", "B", 1010, 5), Product("c", "C", 1010, 5)], 3030)
  {
    var items := [CartItem("a", 1), CartItem("b", 1), CartItem("c", 1)];
    var catalog := [Product("a", "A", 1010, 5), Product("b", "B", 1010, 5), Product("c", "C", 1010, 5)];
    ExampleRead(items, catalog);
    ExampleTotal(items, catalog);
  }

  lemma ExampleRead(items: seq<CartItem>, catalog: seq<Product>)
    requires items == [CartItem("a", 1), CartItem("b", 1), CartItem("c", 1)]
    requires catalog == [Product("a", "A", 1010, 5), Product("b", "B", 1010, 5), Product("c", "C", 1010, 5)]
    ensures FindMany(catalog, Ids(items)) == catalog
  {
    var ids := Ids(items);
    assert ids == ["a", "b", "c"];
    assert FindMany(catalog[2..], ids) == catalog[2..];
    assert FindMany(catalog[1..], ids) == [catalog[1]] + catalog[2..];
  }

  lemma ExampleTotal(items: seq<CartItem>, catalog: seq<Product>)
    requires items == [CartItem("a", 1), CartItem("b", 1), CartItem("c", 1)]
    requires catalog == [Product("a", "A", 1010, 5), Product("b", "B", 1010, 5), Product("c", "C", 1010, 5)]
    ensures FirstShort(items, catalog) == None
    ensures Subtotal(items, catalog) == 3030
  {
    assert catalog[1..][1..] == catalog[2..];
    assert Find(catalog[2..], "c") == Some(catalog[2]);
    assert Find(catalog[1..], "c") == Some(catalog[2]);
    assert Find(catalog, "c") == Some(catalog[2]);
    assert Find(catalog[1..], "b") == Some(catalog[1]);
    assert Find(catalog, "b") == Some(catalog[1]);
    assert FirstShort(items[2..], catalog) == None;
    assert FirstShort(items[1..], catalog) == None;
    assert LineTotal(items[0], catalog) == 1010;
    assert LineTotal(items[1], catalog) == 1010;
    assert LineTotal(items[2], catalog) == 1010;
    assert items[..1][..0] == [];
    assert Subtotal(items[..1], catalog) == 1010;
    assert items[..2][..1] == items[..1];
    assert Subtotal(items[..2], catalog) == 2020;
    assert items[..|items| - 1] == items[..2];
  }
}

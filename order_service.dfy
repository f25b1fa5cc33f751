/**
 * Order placement (createOrderInDb): inside one transaction, create the order,
 * then for every requested line create an order line priced from the rows
 * read during pricing and decrement that product's stock. Nothing is kept
 * unless every write succeeds.
 */
module OrderService {
  import opened Domain

  /** The unit price recorded for a line: that of the matching row read during pricing. */
  function PriceAtPurchase(productsFromDb: seq<Product>, id: Id): (r: int)
  {
    match Find(productsFromDb, id)
    case Some(p) => p.price
    case None => 0
  }

  /** The order lines the transaction creates for `items`, in item order. */
  function LinesFor(orderId: nat, items: seq<CartItem>, productsFromDb: seq<Product>): (r: seq<OrderLine>)
  {
    seq(|items|, i requires 0 <= i < |items| =>
      OrderLine(orderId, items[i].productId, items[i].quantity, PriceAtPurchase(productsFromDb, items[i].productId)))
  }

  /**
   * The stock table after the per-line decrements, applied in item order.
   * A product named on two lines is decremented twice.
   */
  function Decremented(stock: map<Id, int>, items: seq<CartItem>): (r: map<Id, int>)
  {
    if items == [] then stock
    else
      var before := Decremented(stock, items[..|items| - 1]);
      var item := items[|items| - 1];
      if item.productId in before then before[item.productId := before[item.productId] - item.quantity]
      else before
  }

  /** The total quantity the lines request of one product. */
  function Demand(items: seq<CartItem>, id: Id): (r: int)
  {
    if items == [] then 0
    else Demand(items[..|items| - 1], id)
         + (if items[|items| - 1].productId == id then items[|items| - 1].quantity else 0)
  }

  /**
   * Every line can be written: its product is among the rows read during
   * pricing (otherwise reading its price throws) and has a row in the
   * product table (otherwise the stock update throws).
   */
  predicate Writable(items: seq<CartItem>, productsFromDb: seq<Product>, stock: map<Id, int>)
  {
    forall i :: 0 <= i < |items| ==>
      Find(productsFromDb, items[i].productId).Some? && items[i].productId in stock
  }

  /**
   * `fault` names the database write that fails, if any: write 0 creates the
   * order, write 2i+1 the line of item i, write 2i+2 the stock update of item i.
   * No write fails when no fault is named or it lies past the last write.
   */
  predicate NoFault(fault: Option<nat>, n: nat)
  {
    fault.None? || fault.value > 2 * n
  }

  /** The product table's stock, the orders and the order lines. */
  class OrderStore {
    var stock: map<Id, int>
    var orders: seq<Order>
    var lines: seq<OrderLine>
    var nextOrderId: nat

    /** Every order id and every line's order id was issued before `nextOrderId`. */
    ghost predicate Valid()
      reads this
    {
      && (forall o :: o in orders ==> o.id < nextOrderId)
      && (forall l :: l in lines ==> l.orderId < nextOrderId)
    }

    constructor (stock: map<Id, int>)
      ensures Valid()
      ensures this.stock == stock && orders == [] && lines == []
    {
      this.stock := stock;
      orders := [];
      lines := [];
      nextOrderId := 0;
    }

    /**
     * createOrderInDb. On success exactly one order and one line per item are
     * added, and each named product loses the requested quantity; on any
     * failure the store is as it was.
     */
    method CreateOrderInDb(
      userId: Id, total: int, shippingAddress: Address,
      items: seq<CartItem>, productsFromDb: seq<Product>,
      now: int, fault: Option<nat>)
      returns (r: Option<Order>)
      requires Valid()
      modifies this
      ensures Valid()
      ensures r.Some? <==> Writable(items, productsFromDb, old(stock)) && NoFault(fault, |items|)
      ensures r.Some? ==>
        && r.value == Order(old(nextOrderId), userId, total, shippingAddress, Pendente, now)
        && (forall o :: o in old(orders) ==> o.id != r.value.id)
        && orders == old(orders) + [r.value]
        && lines == old(lines) + LinesFor(r.value.id, items, productsFromDb)
        && stock == Decremented(old(stock), items)
        && nextOrderId == old(nextOrderId) + 1
      ensures r.None? ==> unchanged(this)
    {
      var order := Order(nextOrderId, userId, total, shippingAddress, Pendente, now);
      var ok, txLines, txStock := RunTransaction(order.id, items, productsFromDb, lines, stock, fault);
      if !ok {
        return None;
      }
      LinesForOrder(order.id, items, productsFromDb);
      orders := orders + [order];
      lines := txLines;
      stock := txStock;
      nextOrderId := nextOrderId + 1;
      return Some(order);
    }
  }

  /**
   * The writes of the transaction, applied to working copies of the line
   * table and the stock table: the order (write 0), then per item its line
   * and its stock decrement. `ok` turns false at the first write that
   * fails, and no later write is attempted.
   */
  method RunTransaction(
    orderId: nat, items: seq<CartItem>, productsFromDb: seq<Product>,
    lines: seq<OrderLine>, stock: map<Id, int>, fault: Option<nat>)
    returns (ok: bool, txLines: seq<OrderLine>, txStock: map<Id, int>)
    ensures ok <==> Writable(items, productsFromDb, stock) && NoFault(fault, |items|)
    ensures ok ==> txLines == lines + LinesFor(orderId, items, productsFromDb)
    ensures ok ==> txStock == Decremented(stock, items)
  {
    txLines := lines;
    txStock := stock;
    ok := fault != Some(0);
    var i := 0;
    while ok && i < |items|
      invariant 0 <= i <= |items|
      invariant txLines == lines + LinesFor(orderId, items[..i], productsFromDb)
      invariant txStock == Decremented(stock, items[..i])
      invariant Writable(items[..i], productsFromDb, stock)
      invariant ok ==> fault.None? || fault.value > 2 * i
      invariant !ok ==> !(Writable(items, productsFromDb, stock) && NoFault(fault, |items|))
      decreases |items| - i, if ok then 1 else 0
    {
      var item := items[i];
      DecrementedAt(stock, items[..i], item.productId);
      var product := Find(productsFromDb, item.productId);
      // The first write that throws aborts the transaction: the line's read
      // of the price, the line itself, or the stock update.
      if product.None? || fault == Some(2 * i + 1) || item.productId !in txStock || fault == Some(2 * i + 2) {
        AbortAt(items, productsFromDb, stock, fault, i);
        ok := false;
      } else {
        WritableSnoc(items, productsFromDb, stock, i);
        StepWrites(stock, orderId, items, productsFromDb, lines, txLines, txStock, i);
        assert fault.None? || fault.value > 2 * (i + 1);
        txLines := txLines + [OrderLine(orderId, item.productId, item.quantity, product.value.price)];
        txStock := txStock[item.productId := txStock[item.productId] - item.quantity];
        i := i + 1;
      }
    }
    if ok {
      assert items[..|items|] == items;
    }
  }

  /** A write that throws at item i means the transaction as a whole cannot succeed. */
  lemma AbortAt(items: seq<CartItem>, productsFromDb: seq<Product>, stock: map<Id, int>, fault: Option<nat>, i: nat)
    requires i < |items|
    requires || Find(productsFromDb, items[i].productId).None? || items[i].productId !in stock
             || fault == Some(2 * i + 1) || fault == Some(2 * i + 2)
    ensures !(Writable(items, productsFromDb, stock) && NoFault(fault, |items|))
  {
  }

  lemma WritableSnoc(items: seq<CartItem>, productsFromDb: seq<Product>, stock: map<Id, int>, i: nat)
    requires i < |items| && Writable(items[..i], productsFromDb, stock)
    requires Find(productsFromDb, items[i].productId).Some? && items[i].productId in stock
    ensures Writable(items[..i + 1], productsFromDb, stock)
  {
    assert forall j :: 0 <= j < i ==> items[..i + 1][j] == items[..i][j];
  }

  /** The two writes of item i take the working copies from the first i items to the first i + 1. */
  lemma StepWrites(
    stock: map<Id, int>, orderId: nat, items: seq<CartItem>, productsFromDb: seq<Product>,
    lines: seq<OrderLine>, txLines: seq<OrderLine>, txStock: map<Id, int>, i: nat)
    requires i < |items|
    requires txLines == lines + LinesFor(orderId, items[..i], productsFromDb)
    requires txStock == Decremented(stock, items[..i])
    requires Find(productsFromDb, items[i].productId).Some? && items[i].productId in txStock
    ensures txLines + [OrderLine(orderId, items[i].productId, items[i].quantity, Find(productsFromDb, items[i].productId).value.price)]
         == lines + LinesFor(orderId, items[..i + 1], productsFromDb)
    ensures txStock[items[i].productId := txStock[items[i].productId] - items[i].quantity]
         == Decremented(stock, items[..i + 1])
  {
    TransactionStep(stock, orderId, items, productsFromDb, i);
  }

  /** How the lines and the stock table of the first i + 1 items extend those of the first i. */
  lemma TransactionStep(stock: map<Id, int>, orderId: nat, items: seq<CartItem>, productsFromDb: seq<Product>, i: nat)
    requires i < |items|
    ensures LinesFor(orderId, items[..i + 1], productsFromDb)
         == LinesFor(orderId, items[..i], productsFromDb)
            + [OrderLine(orderId, items[i].productId, items[i].quantity, PriceAtPurchase(productsFromDb, items[i].productId))]
    ensures Decremented(stock, items[..i + 1])
         == var before := Decremented(stock, items[..i]);
            if items[i].productId in before
            then before[items[i].productId := before[items[i].productId] - items[i].quantity]
            else before
  {
    assert items[..i + 1][..i] == items[..i];
  }

  /** Every line created for an order refers to that order. */
  lemma LinesForOrder(orderId: nat, items: seq<CartItem>, productsFromDb: seq<Product>)
    ensures forall l :: l in LinesFor(orderId, items, productsFromDb) ==> l.orderId == orderId
  {
  }

  // ---------------------------------------------------------------------------
  // What the decrements do to stock

  /** Each product's stock drops by exactly the total quantity requested of it; no product appears or vanishes. */
  lemma {:induction false} DecrementedAt(stock: map<Id, int>, items: seq<CartItem>, id: Id)
    ensures Decremented(stock, items).Keys == stock.Keys
    ensures id in stock ==> Decremented(stock, items)[id] == stock[id] - Demand(items, id)
  {
    if items != [] {
      DecrementedAt(stock, items[..|items| - 1], id);
    }
  }

  /** A product no line names is not demanded, whatever the lines are. */
  lemma {:induction false} DemandUnnamed(items: seq<CartItem>, id: Id)
    requires id !in Ids(items)
    ensures Demand(items, id) == 0
  {
    if items != [] {
      var n := |items| - 1;
      assert Ids(items[..n]) == Ids(items)[..n];
      DemandUnnamed(items[..n], id);
      assert Ids(items)[n] == items[n].productId;
    }
  }

  /** With distinct product ids, a named product's demand is its line's quantity and an unnamed one's is zero. */
  lemma {:induction false} DemandOfDistinct(items: seq<CartItem>, id: Id)
    requires Distinct(Ids(items))
    ensures forall k :: 0 <= k < |items| && items[k].productId == id ==> Demand(items, id) == items[k].quantity
    ensures id !in Ids(items) ==> Demand(items, id) == 0
  {
    if id !in Ids(items) {
      DemandUnnamed(items, id);
    }
    if items != [] {
      var n := |items| - 1;
      var init := items[..n];
      assert Distinct(Ids(init)) by {
        forall i, j | 0 <= i < j < |init| ensures Ids(init)[i] != Ids(init)[j] {
          assert Ids(items)[i] != Ids(items)[j];
        }
      }
      DemandOfDistinct(init, id);
      if items[n].productId == id {
        assert id !in Ids(init);
      } else {
        assert id in Ids(init) ==> id in Ids(items) by {
          if id in Ids(init) {
            var k :| 0 <= k < |init| && Ids(init)[k] == id;
            assert Ids(items)[k] == id;
          }
        }
        assert id !in Ids(items) ==> id !in Ids(init);
        forall k | 0 <= k < n && items[k].productId == id ensures Demand(items, id) == items[k].quantity {
          assert init[k] == items[k];
        }
      }
    }
  }

  /**
   * The decrement has no lower-bound check of its own: stock stays
   * non-negative when the ids are distinct and every quantity is at most the
   * product's stock, which is what a successful pricing guarantees.
   */
  lemma StockStaysNonNegative(stock: map<Id, int>, items: seq<CartItem>)
    requires forall id :: id in stock ==> stock[id] >= 0
    requires Distinct(Ids(items))
    requires forall i :: 0 <= i < |items| && items[i].productId in stock ==>
               items[i].quantity <= stock[items[i].productId]
    ensures forall id :: id in Decremented(stock, items) ==> Decremented(stock, items)[id] >= 0
  {
    forall id | id in Decremented(stock, items) ensures Decremented(stock, items)[id] >= 0 {
      DecrementedAt(stock, items, id);
      DemandOfDistinct(items, id);
      if id in Ids(items) {
        var k :| 0 <= k < |items| && Ids(items)[k] == id;
      }
    }
  }

  /** Without distinct ids the decrement oversells: two lines of one unit each take a stock of 1 to -1. */
  lemma RepeatedLineOversells()
    ensures "a" in Decremented(map["a" := 1], [CartItem("a", 1), CartItem("a", 1)])
    ensures Decremented(map["a" := 1], [CartItem("a", 1), CartItem("a", 1)])["a"] == -1
  {
    var items := [CartItem("a", 1), CartItem("a", 1)];
    assert items[..1][..0] == [];
    assert Decremented(map["a" := 1], items[..1]) == map["a" := 0];
  }
}

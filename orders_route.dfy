/**
 * The orders API route. POST is a chain of guards (session, body, schema,
 * address ownership, pricing), each answering with its own status, and only
 * when all pass does it place the order. GET answers the caller's orders,
 * newest first. The session, the address table, the product table and the
 * order table are inputs; the order placement runs against an OrderStore.
 */
module OrdersRoute {
  import opened Domain
  import opened Schema
  import opened ValidationError
  import opened OrderValidation
  import opened AddressService
  import opened CartService
  import opened OrderService

  const AddressRefusedMessage := "Endereço inválido ou não pertence ao usuário."

  /** `session?.user?.id` is truthy: there is a session and its user id is not empty. */
  predicate SignedIn(session: Option<Session>)
  {
    session.Some? && session.value.userId != ""
  }

  /** What the guards decide: an early reply, or the arguments of createOrderInDb. */
  datatype Plan =
    | Respond(reply: Reply<Order>)
    | Place(userId: Id, total: int, address: Address, items: seq<CartItem>, productsFromDb: seq<Product>)

  /**
   * POST's guards in source order. `body` is None when the request body is
   * not JSON (`request.json()` throws, and the catch answers 500);
   * `addresses` is the address table keyed by id; `catalog` is the product
   * table pricing reads.
   */
  function PostOrderPlan(
    session: Option<Session>, body: Option<Json>, isUuid: string -> bool,
    addresses: map<Id, Address>, catalog: seq<Product>): (r: Plan)
  {
    if !SignedIn(session) then Respond(Reply(401, Message(UnauthorizedMessage)))
    else if body.None? then Respond(InternalError())
    else
      match ParseCreateOrder(body.value, isUuid)
      case Failure(issues) => Respond(Reply(400, FieldErrors(FieldErrorMap(issues))))
      case Success(req) =>
        if req.addressId !in addresses || addresses[req.addressId].userId != session.value.userId then
          Respond(Reply(403, Message(AddressRefusedMessage)))
        else
          match PriceCart(req.items, catalog)
          case Rejected(error, status) => Respond(Reply(status, Message(error)))
          case Priced(products, total) =>
            Place(session.value.userId, total, addresses[req.addressId], req.items, products)
  }

  /**
   * POST: run the guards; when they all pass, create the order in the store
   * and answer 201 with it, or 500 when the transaction fails. An early reply
   * leaves the store untouched.
   */
  method PostOrder(
    store: OrderStore, session: Option<Session>, body: Option<Json>, isUuid: string -> bool,
    addresses: map<Id, Address>, catalog: seq<Product>, now: int, fault: Option<nat>)
    returns (reply: Reply<Order>)
    requires store.Valid()
    modifies store
    ensures store.Valid()
    ensures PostOrderPlan(session, body, isUuid, addresses, catalog).Respond? ==>
      reply == PostOrderPlan(session, body, isUuid, addresses, catalog).reply && unchanged(store)
    ensures PostOrderPlan(session, body, isUuid, addresses, catalog).Place? ==>
      var p := PostOrderPlan(session, body, isUuid, addresses, catalog);
      if Writable(p.items, p.productsFromDb, old(store.stock)) && NoFault(fault, |p.items|) then
        var order := Order(old(store.nextOrderId), p.userId, p.total, p.address, Pendente, now);
        && reply == Reply(201, Data(order))
        && store.orders == old(store.orders) + [order]
        && store.lines == old(store.lines) + LinesFor(order.id, p.items, p.productsFromDb)
        && store.stock == Decremented(old(store.stock), p.items)
      else
        reply == InternalError() && unchanged(store)
  {
    var plan := PostOrderPlan(session, body, isUuid, addresses, catalog);
    match plan {
      case Respond(r) =>
        return r;
      case Place(userId, total, address, items, productsFromDb) =>
        var newOrder := store.CreateOrderInDb(userId, total, address, items, productsFromDb, now, fault);
        if newOrder.None? {
          return InternalError();
        }
        return Reply(201, Data(newOrder.value));
    }
  }

  // ---------------------------------------------------------------------------
  // GET

  /** `where: { userId }`: the orders of one user, in table order. */
  function OwnedBy(orders: seq<Order>, userId: Id): (r: seq<Order>)
  {
    if orders == [] then []
    else (if orders[0].userId == userId then [orders[0]] else []) + OwnedBy(orders[1..], userId)
  }

  /** `orderBy: { createdAt: 'desc' }`: no order is older than one after it. */
  predicate NewestFirstOrder(orders: seq<Order>)
  {
    forall i, j :: 0 <= i < j < |orders| ==> orders[i].createdAt >= orders[j].createdAt
  }

  /** Place one order into a list already newest first, before the first order not newer than it. */
  function Insert(o: Order, orders: seq<Order>): (r: seq<Order>)
  {
    if orders == [] then [o]
    else if o.createdAt >= orders[0].createdAt then [o] + orders
    else [orders[0]] + Insert(o, orders[1..])
  }

  /** The orders sorted newest first. */
  function NewestFirst(orders: seq<Order>): (r: seq<Order>)
  {
    if orders == [] then []
    else Insert(orders[0], NewestFirst(orders[1..]))
  }

  /**
   * GET: 401 without a signed-in user; otherwise 200 with the caller's
   * orders, newest first. `table` is None when the read throws (500).
   */
  function GetOrders(session: Option<Session>, table: Option<seq<Order>>): (r: Reply<seq<Order>>)
  {
    if !SignedIn(session) then Reply(401, Message(UnauthorizedMessage))
    else if table.None? then InternalError()
    else Reply(200, Data(NewestFirst(OwnedBy(table.value, session.value.userId))))
  }

  // ---------------------------------------------------------------------------
  // Properties: the POST guards

  /** Without a signed-in user the answer is 401, whatever the body, the addresses and the products. */
  lemma PostOrderUnauthorized(
    session: Option<Session>, body: Option<Json>, body2: Option<Json>, isUuid: string -> bool,
    addresses: map<Id, Address>, addresses2: map<Id, Address>, catalog: seq<Product>, catalog2: seq<Product>)
    requires !SignedIn(session)
    ensures PostOrderPlan(session, body, isUuid, addresses, catalog) == Respond(Reply(401, Message(UnauthorizedMessage)))
    ensures PostOrderPlan(session, body, isUuid, addresses, catalog) == PostOrderPlan(session, body2, isUuid, addresses2, catalog2)
  {
  }

  /** A body failing the schema gets 400 with the field errors, whatever the addresses and the products. */
  lemma PostOrderInvalid(
    session: Option<Session>, body: Json, isUuid: string -> bool,
    addresses: map<Id, Address>, addresses2: map<Id, Address>, catalog: seq<Product>, catalog2: seq<Product>)
    requires SignedIn(session) && ParseCreateOrder(body, isUuid).Failure?
    ensures PostOrderPlan(session, Some(body), isUuid, addresses, catalog)
         == Respond(Reply(400, FieldErrors(FieldErrorMap(ParseCreateOrder(body, isUuid).issues))))
    ensures PostOrderPlan(session, Some(body), isUuid, addresses, catalog)
         == PostOrderPlan(session, Some(body), isUuid, addresses2, catalog2)
  {
  }

  /**
   * 403 comes exactly from the address guard: a valid body whose address is
   * missing or belongs to someone else, which is when verifyAddressOwner
   * would refuse it too. The products are not looked at.
   */
  lemma PostOrderAddressRefused(
    session: Option<Session>, body: Option<Json>, isUuid: string -> bool,
    addresses: map<Id, Address>, catalog: seq<Product>, catalog2: seq<Product>)
    ensures PostOrderPlan(session, body, isUuid, addresses, catalog) == Respond(Reply(403, Message(AddressRefusedMessage)))
        <==> && SignedIn(session) && body.Some?
             && ParseCreateOrder(body.value, isUuid).Success?
             && !VerifyAddressOwner(addresses, session.value.userId, ParseCreateOrder(body.value, isUuid).data.addressId).Owned?
    ensures PostOrderPlan(session, body, isUuid, addresses, catalog) == Respond(Reply(403, Message(AddressRefusedMessage))) ==>
      PostOrderPlan(session, body, isUuid, addresses, catalog2) == PostOrderPlan(session, body, isUuid, addresses, catalog)
  {
    if SignedIn(session) && body.Some? && ParseCreateOrder(body.value, isUuid).Success? {
      PricingStatuses(ParseCreateOrder(body.value, isUuid).data.items, catalog);
    }
  }

  /** Pricing only ever refuses with 404 or 409. */
  lemma PricingStatuses(items: seq<CartItem>, catalog: seq<Product>)
    ensures PriceCart(items, catalog).Rejected? ==>
      PriceCart(items, catalog).status == 404 || PriceCart(items, catalog).status == 409
  {
  }

  /** Once the caller owns the address, a pricing refusal is answered with exactly its status and its message. */
  lemma PostOrderPricingRefused(
    session: Option<Session>, body: Json, isUuid: string -> bool,
    addresses: map<Id, Address>, catalog: seq<Product>)
    requires SignedIn(session) && ParseCreateOrder(body, isUuid).Success?
    requires VerifyAddressOwner(addresses, session.value.userId, ParseCreateOrder(body, isUuid).data.addressId).Owned?
    requires PriceCart(ParseCreateOrder(body, isUuid).data.items, catalog).Rejected?
    ensures var cart := PriceCart(ParseCreateOrder(body, isUuid).data.items, catalog);
      PostOrderPlan(session, Some(body), isUuid, addresses, catalog) == Respond(Reply(cart.status, Message(cart.error)))
  {
  }

  /**
   * The order is placed exactly when every guard passes, in the order
   * session, body, schema, address, pricing.
   */
  lemma PostOrderPlaced(
    session: Option<Session>, body: Option<Json>, isUuid: string -> bool,
    addresses: map<Id, Address>, catalog: seq<Product>)
    ensures PostOrderPlan(session, body, isUuid, addresses, catalog).Place? <==>
      && SignedIn(session) && body.Some?
      && ParseCreateOrder(body.value, isUuid).Success?
      && VerifyAddressOwner(addresses, session.value.userId, ParseCreateOrder(body.value, isUuid).data.addressId).Owned?
      && PriceCart(ParseCreateOrder(body.value, isUuid).data.items, catalog).Priced?
  {
  }

  /**
   * What createOrderInDb receives: the caller's id, the caller's stored
   * address, the validated items, the rows pricing read and the cart total.
   * By then the body was good, every product is listed once and every line
   * asks for at least one unit and at most its product's stock.
   */
  lemma PlacedOrderArguments(
    session: Session, body: Json, isUuid: string -> bool,
    addresses: map<Id, Address>, catalog: seq<Product>)
    requires UniqueIds(catalog)
    requires PostOrderPlan(Some(session), Some(body), isUuid, addresses, catalog).Place?
    ensures
      var p := PostOrderPlan(Some(session), Some(body), isUuid, addresses, catalog);
      var req := ParseCreateOrder(body, isUuid).data;
      && GoodOrderBody(body, isUuid)
      && p.userId == session.userId
      && VerifyAddressOwner(addresses, session.userId, req.addressId) == Owned(p.address)
      && p.items == req.items && |p.items| >= 1
      && p.productsFromDb == FindMany(catalog, Ids(p.items))
      && p.total == Subtotal(p.items, catalog)
      && ListedOnce(p.items, catalog)
      && forall i :: 0 <= i < |p.items| ==>
           && 1 <= p.items[i].quantity
           && Find(catalog, p.items[i].productId).Some?
           && p.items[i].quantity <= Find(catalog, p.items[i].productId).value.stock
  {
    var req := ParseCreateOrder(body, isUuid).data;
    PlacedPlan(session, body, isUuid, addresses, catalog);
    CreateOrderAccepted(body, isUuid);
    CreateOrderData(body, isUuid);
    PriceCartSuccess(req.items, catalog);
  }

  /** A placed order's plan, spelled out from the parse and the pricing. */
  lemma PlacedPlan(
    session: Session, body: Json, isUuid: string -> bool,
    addresses: map<Id, Address>, catalog: seq<Product>)
    requires PostOrderPlan(Some(session), Some(body), isUuid, addresses, catalog).Place?
    ensures ParseCreateOrder(body, isUuid).Success?
    ensures
      var req := ParseCreateOrder(body, isUuid).data;
      var cart := PriceCart(req.items, catalog);
      && req.addressId in addresses && addresses[req.addressId].userId == session.userId
      && cart.Priced?
      && PostOrderPlan(Some(session), Some(body), isUuid, addresses, catalog)
         == Place(session.userId, cart.total, addresses[req.addressId], req.items, cart.products)
  {
  }

  /** The product table and the stock the store holds agree: every row's stock is the stored one. */
  predicate SameStock(catalog: seq<Product>, stock: map<Id, int>)
  {
    forall p :: p in catalog ==> p.id in stock && stock[p.id] == p.stock
  }

  /**
   * A cart that prices successfully against the table the store holds can be
   * written in full, and no product's stock goes below zero after the
   * decrements.
   */
  lemma PricedCartWritable(items: seq<CartItem>, catalog: seq<Product>, stock: map<Id, int>)
    requires UniqueIds(catalog) && SameStock(catalog, stock)
    requires forall id :: id in stock ==> stock[id] >= 0
    requires PriceCart(items, catalog).Priced?
    ensures Writable(items, PriceCart(items, catalog).products, stock)
    ensures forall id :: id in Decremented(stock, items) ==> Decremented(stock, items)[id] >= 0
  {
    PriceCartSuccess(items, catalog);
    var ids := Ids(items);
    var fetched := PriceCart(items, catalog).products;
    forall i | 0 <= i < |items|
      ensures Find(fetched, items[i].productId).Some?
      ensures items[i].productId in stock && items[i].quantity <= stock[items[i].productId]
    {
      var id := items[i].productId;
      assert ids[i] == id;
      FindManyFind(catalog, ids, id);
      assert Find(catalog, id).value in catalog;
    }
    StockStaysNonNegative(stock, items);
  }

  /**
   * When pricing and placement see the same product table, a placed order
   * can be written in full (every line has its row and its stock entry), and
   * no product's stock goes below zero after the decrements.
   */
  lemma PlacedOrderKeepsStock(
    session: Session, body: Json, isUuid: string -> bool,
    addresses: map<Id, Address>, catalog: seq<Product>, stock: map<Id, int>)
    requires UniqueIds(catalog) && SameStock(catalog, stock)
    requires forall id :: id in stock ==> stock[id] >= 0
    requires PostOrderPlan(Some(session), Some(body), isUuid, addresses, catalog).Place?
    ensures var p := PostOrderPlan(Some(session), Some(body), isUuid, addresses, catalog);
      && Writable(p.items, p.productsFromDb, stock)
      && forall id :: id in Decremented(stock, p.items) ==> Decremented(stock, p.items)[id] >= 0
  {
    var req := ParseCreateOrder(body, isUuid).data;
    PricedCartWritable(req.items, catalog, stock);
  }

  // ---------------------------------------------------------------------------
  // Properties: GET

  /** The filter keeps exactly the user's orders, each as often as the table holds it. */
  lemma {:induction false} OwnedByExactly(orders: seq<Order>, userId: Id)
    ensures forall o :: o in OwnedBy(orders, userId) <==> o in orders && o.userId == userId
    ensures forall o: Order :: o.userId == userId ==> multiset(OwnedBy(orders, userId))[o] == multiset(orders)[o]
  {
    if orders != [] {
      OwnedByExactly(orders[1..], userId);
      assert orders == [orders[0]] + orders[1..];
    }
  }

  /** An order no older than any in a list newest first can go in front of it. */
  lemma PrependNewest(h: Order, r: seq<Order>)
    requires NewestFirstOrder(r)
    requires forall x :: x in r ==> x.createdAt <= h.createdAt
    ensures NewestFirstOrder([h] + r)
  {
    var s := [h] + r;
    forall i, j | 0 <= i < j < |s| ensures s[i].createdAt >= s[j].createdAt {
      assert s[j] == r[j - 1];
      if i > 0 {
        assert s[i] == r[i - 1];
      } else {
        assert r[j - 1] in r;
      }
    }
  }

  /** The first order of a list newest first is no older than any order in it. */
  lemma HeadIsNewest(orders: seq<Order>)
    requires NewestFirstOrder(orders) && orders != []
    ensures forall x :: x in orders ==> x.createdAt <= orders[0].createdAt
    ensures NewestFirstOrder(orders[1..])
  {
    forall x | x in orders ensures x.createdAt <= orders[0].createdAt {
      var k :| 0 <= k < |orders| && orders[k] == x;
    }
    var rest := orders[1..];
    forall i, j | 0 <= i < j < |rest| ensures rest[i].createdAt >= rest[j].createdAt {
      assert rest[i] == orders[i + 1] && rest[j] == orders[j + 1];
    }
  }

  /** Inserting adds exactly the one order. */
  lemma {:induction false} InsertPermutes(o: Order, orders: seq<Order>)
    ensures multiset(Insert(o, orders)) == multiset(orders) + multiset{o}
  {
    if orders != [] && o.createdAt < orders[0].createdAt {
      InsertPermutes(o, orders[1..]);
      assert orders == [orders[0]] + orders[1..];
    }
  }

  /** Inserting keeps the list newest first. */
  lemma {:induction false} InsertSorted(o: Order, orders: seq<Order>)
    requires NewestFirstOrder(orders)
    ensures NewestFirstOrder(Insert(o, orders))
  {
    if orders != [] {
      HeadIsNewest(orders);
      if o.createdAt >= orders[0].createdAt {
        PrependNewest(o, orders);
      } else {
        var rest := orders[1..];
        InsertSorted(o, rest);
        InsertPermutes(o, rest);
        var r := Insert(o, rest);
        forall x | x in r ensures x.createdAt <= orders[0].createdAt {
          assert x in multiset(r);
          assert x == o || x in multiset(rest);
        }
        PrependNewest(orders[0], r);
      }
    }
  }

  /** The sort returns the same orders, newest first. */
  lemma {:induction false} NewestFirstSorted(orders: seq<Order>)
    ensures NewestFirstOrder(NewestFirst(orders))
    ensures multiset(NewestFirst(orders)) == multiset(orders)
  {
    if orders != [] {
      NewestFirstSorted(orders[1..]);
      InsertSorted(orders[0], NewestFirst(orders[1..]));
      InsertPermutes(orders[0], NewestFirst(orders[1..]));
      assert orders == [orders[0]] + orders[1..];
    }
  }

  /**
   * A signed-in caller gets 200 with a list newest first that holds exactly
   * their orders, each as often as the table does; without a session, 401.
   */
  lemma GetOrdersReply(session: Option<Session>, table: seq<Order>)
    ensures !SignedIn(session) ==> GetOrders(session, Some(table)) == Reply(401, Message(UnauthorizedMessage))
    ensures SignedIn(session) ==>
      var r := GetOrders(session, Some(table));
      && r.status == 200 && r.payload.Data?
      && NewestFirstOrder(r.payload.value)
      && (forall o :: o in r.payload.value <==> o in table && o.userId == session.value.userId)
      && (forall o: Order :: o.userId == session.value.userId ==> multiset(r.payload.value)[o] == multiset(table)[o])
      && (forall o: Order :: o.userId != session.value.userId ==> multiset(r.payload.value)[o] == 0)
  {
    if SignedIn(session) {
      var mine := OwnedBy(table, session.value.userId);
      OwnedByExactly(table, session.value.userId);
      NewestFirstSorted(mine);
      forall o: Order | o.userId != session.value.userId ensures multiset(NewestFirst(mine))[o] == 0 {
        assert o !in mine;
      }
    }
  }

  // ---------------------------------------------------------------------------
  // The route's scenarios

  /** No session: 401 and no order placed. */
  lemma NoSessionExample(body: Option<Json>, isUuid: string -> bool, addresses: map<Id, Address>, catalog: seq<Product>)
    ensures PostOrderPlan(None, body, isUuid, addresses, catalog) == Respond(Reply(401, Message(UnauthorizedMessage)))
    ensures GetOrders(None, None) == Reply(401, Message(UnauthorizedMessage))
  {
  }

  /** An empty items array: 400, with the minimum-size message under "items", and no order placed. */
  lemma EmptyItemsExample(addressId: string, isUuid: string -> bool, addresses: map<Id, Address>, catalog: seq<Product>)
    ensures
      var body := JObj(map["items" := JArr([]), "addressId" := JStr(addressId)]);
      var plan := PostOrderPlan(Some(Session("user-123", false)), Some(body), isUuid, addresses, catalog);
      && plan.Respond? && plan.reply.status == 400 && plan.reply.payload.FieldErrors?
      && "items" in plan.reply.payload.errors && plan.reply.payload.errors["items"] == ItemsMessage
  {
    EmptyItemsRejected(addressId, isUuid);
    EmptyItemsErrors(isUuid(addressId));
  }

  /** The field record of the empty-items issues. */
  lemma EmptyItemsErrors(addressValid: bool)
    ensures
      var issues := [Issue([Key("items")], ItemsMessage)]
                    + if addressValid then [] else [Issue([Key("addressId")], AddressIdMessage)];
      "items" in FieldErrorMap(issues) && FieldErrorMap(issues)["items"] == ItemsMessage
  {
    var issues := [Issue([Key("items")], ItemsMessage)]
                  + if addressValid then [] else [Issue([Key("addressId")], AddressIdMessage)];
    assert JoinPath([Key("items")]) == "items";
    assert JoinPath([Key("addressId")]) == "addressId";
    FieldErrorMapLastWins(issues, 0);
  }
}

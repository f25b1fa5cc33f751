/**
 * The client cart store: a list of cart lines, one per product, replaced by
 * each action. The functions say what each action makes of the list; the
 * class holds the list and its actions.
 */
module CartStore {
  import opened Domain

  /** The store's invariant: one line per product, each for at least one unit. */
  predicate WellFormed(items: seq<CartItem>)
  {
    && Distinct(Ids(items))
    && forall i :: 0 <= i < |items| ==> items[i].quantity >= 1
  }

  /** How many units of a product the cart holds: the quantity of its first line, or 0. */
  function Quantity(items: seq<CartItem>, id: Id): (r: int)
  {
    if items == [] then 0
    else if items[0].productId == id then items[0].quantity
    else Quantity(items[1..], id)
  }

  /** `items.map(...)` raising the product's line by one. */
  function Incremented(items: seq<CartItem>, id: Id): (r: seq<CartItem>)
  {
    seq(|items|, i requires 0 <= i < |items| =>
      if items[i].productId == id then items[i].(quantity := items[i].quantity + 1) else items[i])
  }

  /** addToCart: raise the product's line by one, or append a line of one unit. */
  function Added(items: seq<CartItem>, id: Id): (r: seq<CartItem>)
  {
    if id in Ids(items) then Incremented(items, id) else items + [CartItem(id, 1)]
  }

  /** removeFromCart: `items.filter(...)` keeping the lines of other products. */
  function Removed(items: seq<CartItem>, id: Id): (r: seq<CartItem>)
  {
    if items == [] then []
    else (if items[0].productId == id then [] else [items[0]]) + Removed(items[1..], id)
  }

  /** `items.map(...)` setting the product's line to `quantity`. */
  function Updated(items: seq<CartItem>, id: Id, quantity: int): (r: seq<CartItem>)
  {
    seq(|items|, i requires 0 <= i < |items| =>
      if items[i].productId == id then items[i].(quantity := quantity) else items[i])
  }

  /** The cart store's state. */
  class Cart {
    var items: seq<CartItem>

    ghost predicate Valid()
      reads this
    {
      WellFormed(items)
    }

    constructor ()
      ensures Valid() && items == []
    {
      items := [];
    }

    method AddToCart(productId: Id)
      requires Valid()
      modifies this
      ensures Valid()
      ensures items == Added(old(items), productId)
    {
      if productId in Ids(items) {
        items := Incremented(items, productId);
      } else {
        items := items + [CartItem(productId, 1)];
      }
      AddedWellFormed(old(items), productId);
    }

    method RemoveFromCart(productId: Id)
      requires Valid()
      modifies this
      ensures Valid()
      ensures items == Removed(old(items), productId)
    {
      RemovedWellFormed(items, productId);
      items := Removed(items, productId);
    }

    /** A quantity below one removes the line, exactly as removeFromCart does. */
    method UpdateQuantity(productId: Id, quantity: int)
      requires Valid()
      modifies this
      ensures Valid()
      ensures items == if quantity < 1 then Removed(old(items), productId) else Updated(old(items), productId, quantity)
    {
      if quantity < 1 {
        RemoveFromCart(productId);
      } else {
        UpdatedWellFormed(items, productId, quantity);
        items := Updated(items, productId, quantity);
      }
    }

    method ClearCart()
      modifies this
      ensures Valid() && items == []
    {
      items := [];
    }
  }

  // ---------------------------------------------------------------------------
  // What the actions do to the lines

  /**
   * addToCart on a product already in the cart raises only its line by one,
   * keeping the length and the order; on a new product it appends a line of
   * one unit at the end.
   */
  lemma AddedLines(items: seq<CartItem>, id: Id)
    ensures id in Ids(items) ==>
      && |Added(items, id)| == |items|
      && Ids(Added(items, id)) == Ids(items)
      && forall i :: 0 <= i < |items| ==>
           Added(items, id)[i].quantity == items[i].quantity + (if items[i].productId == id then 1 else 0)
    ensures id !in Ids(items) ==> Added(items, id) == items + [CartItem(id, 1)]
  {
  }

  /** Every action keeps the invariant. */
  lemma AddedWellFormed(items: seq<CartItem>, id: Id)
    requires WellFormed(items)
    ensures WellFormed(Added(items, id))
  {
    var r := Added(items, id);
    if id in Ids(items) {
      assert Ids(r) == Ids(items);
    } else {
      assert Ids(r) == Ids(items) + [id];
    }
  }

  /** The remaining lines are exactly the other products' lines; a product without a line leaves the list as it is. */
  lemma {:induction false} RemovedLines(items: seq<CartItem>, id: Id)
    ensures forall l :: l in Removed(items, id) <==> l in items && l.productId != id
    ensures |Removed(items, id)| <= |items|
    ensures id !in Ids(items) ==> Removed(items, id) == items
  {
    if items != [] {
      var rest := items[1..];
      RemovedLines(rest, id);
      assert items == [items[0]] + rest;
      assert Ids(items) == [items[0].productId] + Ids(rest);
    }
  }

  /** With one line per product, removal deletes exactly the product's line and closes the gap. */
  lemma {:induction false} RemovedExactly(items: seq<CartItem>, id: Id, k: nat)
    requires Distinct(Ids(items))
    requires k < |items| && items[k].productId == id
    ensures Removed(items, id) == items[..k] + items[k + 1..]
  {
    DistinctTail(items);
    if k == 0 {
      RemovedLines(items[1..], id);
    } else {
      RemovedExactly(items[1..], id, k - 1);
      assert items[0].productId != id by { assert Ids(items)[0] != Ids(items)[k]; }
      assert items[1..][..k - 1] == items[1..k];
      assert items[1..][k..] == items[k + 1..];
      assert items[..k] == [items[0]] + items[1..k];
    }
  }

  lemma {:induction false} RemovedWellFormed(items: seq<CartItem>, id: Id)
    requires WellFormed(items)
    ensures WellFormed(Removed(items, id))
  {
    if items != [] {
      var rest := items[1..];
      DistinctTail(items);
      RemovedWellFormed(rest, id);
      var r := Removed(rest, id);
      if items[0].productId != id {
        RemovedLines(rest, id);
        forall j | 0 <= j < |r| ensures Ids(r)[j] != items[0].productId {
          InIds(rest, r[j]);
        }
        ConsWellFormed(items[0], r);
      }
    }
  }

  /** A line for a new product, of at least one unit, can go in front of a well-formed list. */
  lemma ConsWellFormed(item: CartItem, items: seq<CartItem>)
    requires WellFormed(items) && item.quantity >= 1 && item.productId !in Ids(items)
    ensures WellFormed([item] + items)
  {
    var s := [item] + items;
    forall i, j | 0 <= i < j < |s| ensures Ids(s)[i] != Ids(s)[j] {
      assert Ids(s)[j] == Ids(items)[j - 1];
      if i > 0 {
        assert Ids(s)[i] == Ids(items)[i - 1];
      }
    }
  }

  /** The lines after the first have distinct ids, none of them the first line's. */
  lemma DistinctTail(items: seq<CartItem>)
    requires Distinct(Ids(items)) && items != []
    ensures Distinct(Ids(items[1..])) && items[0].productId !in Ids(items[1..])
  {
    forall a, b | 0 <= a < b < |items| - 1 ensures Ids(items[1..])[a] != Ids(items[1..])[b] {
      assert Ids(items)[a + 1] != Ids(items)[b + 1];
    }
    forall j | 0 <= j < |items| - 1 ensures Ids(items[1..])[j] != items[0].productId {
      assert Ids(items)[j + 1] != Ids(items)[0];
    }
  }

  lemma InIds(items: seq<CartItem>, l: CartItem)
    requires l in items
    ensures l.productId in Ids(items)
  {
    var k :| 0 <= k < |items| && items[k] == l;
    assert Ids(items)[k] == l.productId;
  }

  /** updateQuantity with a quantity of at least one sets only that product's line; the products and their order stay. */
  lemma UpdatedLines(items: seq<CartItem>, id: Id, quantity: int)
    ensures |Updated(items, id, quantity)| == |items| && Ids(Updated(items, id, quantity)) == Ids(items)
    ensures forall i :: 0 <= i < |items| ==>
      Updated(items, id, quantity)[i].quantity == if items[i].productId == id then quantity else items[i].quantity
    ensures id !in Ids(items) ==> Updated(items, id, quantity) == items
  {
  }

  lemma UpdatedWellFormed(items: seq<CartItem>, id: Id, quantity: int)
    requires WellFormed(items) && quantity >= 1
    ensures WellFormed(Updated(items, id, quantity))
  {
    assert Ids(Updated(items, id, quantity)) == Ids(items);
  }

  // ---------------------------------------------------------------------------
  // The cart as a product -> units map

  /** With one line per product, a product's units are those of its line, and 0 when it has none. */
  lemma {:induction false} QuantityAt(items: seq<CartItem>, id: Id)
    requires Distinct(Ids(items))
    ensures forall k :: 0 <= k < |items| && items[k].productId == id ==> Quantity(items, id) == items[k].quantity
    ensures id !in Ids(items) ==> Quantity(items, id) == 0
  {
    if items != [] {
      DistinctTail(items);
      QuantityAt(items[1..], id);
      forall k | 0 <= k < |items| && items[k].productId == id ensures Quantity(items, id) == items[k].quantity {
        if k > 0 {
          assert Ids(items)[0] != Ids(items)[k];
          assert items[1..][k - 1] == items[k];
        }
      }
      if id !in Ids(items) {
        assert Ids(items)[0] != id;
        forall j | 0 <= j < |items| - 1 ensures Ids(items[1..])[j] != id { assert Ids(items)[j + 1] != id; }
      }
    }
  }

  /** addToCart adds one unit of that product and changes no other product's units. */
  lemma QuantityAfterAdd(items: seq<CartItem>, id: Id, x: Id)
    requires WellFormed(items)
    ensures Quantity(Added(items, id), x) == Quantity(items, x) + (if x == id then 1 else 0)
  {
    AddedWellFormed(items, id);
    var r := Added(items, id);
    QuantityAt(items, x);
    QuantityAt(r, x);
    if id in Ids(items) {
      assert Ids(r) == Ids(items);
      if x in Ids(items) {
        var k :| 0 <= k < |items| && Ids(items)[k] == x;
        assert r[k].productId == x;
      }
    } else {
      assert Ids(r) == Ids(items) + [id];
      if x in Ids(items) {
        var k :| 0 <= k < |items| && Ids(items)[k] == x;
        assert r[k] == items[k];
      } else if x == id {
        assert r[|items|].productId == id;
      } else {
        assert x !in Ids(r);
      }
    }
  }
}

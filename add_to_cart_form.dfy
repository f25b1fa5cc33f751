/**
 * The add-to-cart form on a product page: a quantity stepper clamped to the
 * product's stock, the buttons it disables, and the add action, which puts
 * the chosen quantity into the cart one unit at a time.
 */
module AddToCartForm {
  import opened Domain
  import opened CartStore

  /** handleQuantityChange: step the quantity, then clamp it below at 1 and above at the stock. */
  function StepQuantity(prev: int, amount: int, stock: int): (r: int)
  {
    var next := prev + amount;
    if next < 1 then 1
    else if next > stock then stock
    else next
  }

  /** The add button is disabled for a sold-out product. */
  predicate AddDisabled(stock: int)
  {
    stock == 0
  }

  /** The plus button is disabled once the quantity reaches the stock. */
  predicate PlusDisabled(quantity: int, stock: int)
  {
    quantity >= stock
  }

  /**
   * With stock on hand, every step lands in [1, stock], whatever the
   * quantity before: inside the range the step is taken as it is, below it
   * the quantity is 1 and above it the stock.
   */
  lemma StepClamps(prev: int, amount: int, stock: int)
    requires stock >= 1
    ensures 1 <= StepQuantity(prev, amount, stock) <= stock
    ensures 1 <= prev + amount <= stock ==> StepQuantity(prev, amount, stock) == prev + amount
    ensures prev + amount < 1 ==> StepQuantity(prev, amount, stock) == 1
    ensures prev + amount > stock ==> StepQuantity(prev, amount, stock) == stock
  {
  }

  /**
   * For a sold-out product the two bounds clash and the upper one wins: a
   * step up from 1 gives 0. The add button is disabled then, and so is plus.
   */
  lemma SoldOutStep(quantity: int)
    requires quantity >= 0
    ensures StepQuantity(1, 1, 0) == 0
    ensures AddDisabled(0) && PlusDisabled(quantity, 0)
  {
  }

  /** Within [1, stock], plus is disabled exactly when a step up would leave the quantity where it is. */
  lemma PlusDisabledAtLimit(quantity: int, stock: int)
    requires 1 <= quantity <= stock
    ensures PlusDisabled(quantity, stock) <==> StepQuantity(quantity, 1, stock) == quantity
  {
  }

  /**
   * handleAddToCart: call addToCart `quantity` times. The product's units
   * rise by exactly `quantity` (none for a quantity below one) and no other
   * product's units change.
   */
  method HandleAddToCart(cart: Cart, productId: Id, quantity: int)
    requires cart.Valid()
    modifies cart
    ensures cart.Valid()
    ensures forall x :: (Quantity(cart.items, x)
      == Quantity(old(cart.items), x) + (if x == productId && quantity > 0 then quantity else 0))
  {
    var i := 0;
    while i < quantity
      invariant cart.Valid()
      invariant 0 <= i <= (if quantity > 0 then quantity else 0)
      invariant forall x :: Quantity(cart.items, x) == Quantity(old(cart.items), x) + (if x == productId then i else 0)
    {
      ghost var before := cart.items;
      cart.AddToCart(productId);
      forall x ensures Quantity(cart.items, x) == Quantity(before, x) + (if x == productId then 1 else 0) {
        QuantityAfterAdd(before, productId, x);
      }
      i := i + 1;
    }
  }
}

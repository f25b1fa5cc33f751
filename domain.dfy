/** Entities shared by the storefront's services, stores and routes. */
module Domain {

  datatype Option<+T> = None | Some(value: T)

  /** Success with a value, or failure with the message the source throws or returns. */
  datatype Result<+T> = Ok(value: T) | Err(message: string)

  /** Product and user identifiers are opaque strings (UUIDs in the database). */
  type Id = string

  /** One requested cart line: a product and how many units of it. */
  datatype CartItem = CartItem(productId: Id, quantity: int)

  /** A product row. `price` is in integer cents; `stock` is the plain integer column. */
  datatype Product = Product(id: Id, name: string, price: int, stock: int)

  /** A shipping address row, owned by exactly one user. */
  datatype Address = Address(
    id: Id, userId: Id,
    street: string, number: string, neighborhood: string,
    city: string, state: string, zipCode: string, complement: Option<string>)

  /** The order status enumeration (StatusPedido). */
  datatype Status = Pendente | Processando | Enviado | Entregue | Cancelado

  /** An order row; `shippingAddress` is a copy of the address, not a reference. */
  datatype Order = Order(
    id: nat, userId: Id, total: int, shippingAddress: Address, status: Status, createdAt: int)

  /** An order line (orderProduct): the unit price is the one captured at purchase time. */
  datatype OrderLine = OrderLine(orderId: nat, productId: Id, quantity: int, priceAtPurchase: int)

  /** What the session resolves to: the caller's id and whether they are an administrator. */
  datatype Session = Session(userId: Id, admin: bool)

  /** The JSON body of a response. */
  datatype Payload<+T> = Message(text: string) | FieldErrors(errors: map<string, string>) | Data(value: T)

  /** An HTTP response: status code and body. */
  datatype Reply<+T> = Reply(status: int, payload: Payload<T>)

  const UnauthorizedMessage := "Não autorizado"
  const InternalErrorMessage := "Ocorreu um erro inesperado no servidor."

  /** The response every route sends for an error it catches (errorHandler). */
  function InternalError<T>(): (r: Reply<T>)
  {
    Reply(500, Message(InternalErrorMessage))
  }

  /** A character of the class `[0-9]`; `\D` is everything else. */
  predicate IsDigit(c: char)
  {
    '0' <= c <= '9'
  }

  predicate AllDigits(s: string)
  {
    forall i :: 0 <= i < |s| ==> IsDigit(s[i])
  }

  /** Membership in, and emptiness of, a five-way concatenation. */
  lemma FiveParts<T>(a: seq<T>, b: seq<T>, c: seq<T>, d: seq<T>, e: seq<T>)
    ensures forall x :: x in a + b + c + d + e <==> x in a || x in b || x in c || x in d || x in e
    ensures a + b + c + d + e == [] <==> a == [] && b == [] && c == [] && d == [] && e == []
  {
  }

  /** True when no value occurs twice in `s`. */
  predicate Distinct<T(==)>(s: seq<T>)
  {
    forall i, j :: 0 <= i < j < |s| ==> s[i] != s[j]
  }

  /** The product ids named by the cart lines, in cart order (`items.map(item => item.productId)`). */
  function Ids(items: seq<CartItem>): (r: seq<Id>)
    ensures |r| == |items|
    ensures forall i :: 0 <= i < |items| ==> r[i] == items[i].productId
  {
    seq(|items|, i requires 0 <= i < |items| => items[i].productId)
  }

  /** The ids of a list of product rows, in row order. */
  function ProductIds(ps: seq<Product>): (r: seq<Id>)
    ensures |r| == |ps|
    ensures forall i :: 0 <= i < |ps| ==> r[i] == ps[i].id
  {
    seq(|ps|, i requires 0 <= i < |ps| => ps[i].id)
  }

  /** The product table's primary-key property: no id occurs twice. */
  predicate UniqueIds(ps: seq<Product>)
  {
    Distinct(ProductIds(ps))
  }

  /** `ps.find(p => p.id === id)`: the first row with that id, if any. */
  function Find(ps: seq<Product>, id: Id): (r: Option<Product>)
    ensures r.Some? ==> r.value in ps && r.value.id == id
  {
    if ps == [] then None
    else if ps[0].id == id then Some(ps[0])
    else Find(ps[1..], id)
  }

  /** `find` succeeds exactly when some row carries the id. */
  lemma {:induction false} FindFound(ps: seq<Product>, id: Id)
    ensures Find(ps, id).Some? <==> id in ProductIds(ps)
  {
    if ps != [] {
      FindFound(ps[1..], id);
      assert ProductIds(ps) == [ps[0].id] + ProductIds(ps[1..]);
    }
  }
}

/**
 * The order schemas: createOrderSchema (items and address), orderItemSchema,
 * and updateOrderSchema (the status enumeration). Zod's UUID check is the
 * parameter `isUuid`.
 */
module OrderValidation {
  import opened Domain
  import opened Schema

  const ProductIdMessage := "ID do produto inválido."
  const QuantityMessage := "A quantidade deve ser no mínimo 1."
  const ItemsMessage := "O pedido deve conter ao menos um item."
  const AddressIdMessage := "ID do endereço inválido."
  const StatusMessage := "Status do pedido inválido."
  /** Zod's default message for `.int()`. */
  const IntMessage := "Invalid input: expected int, received number"

  /** The data of a valid order request. */
  datatype OrderRequest = OrderRequest(items: seq<CartItem>, addressId: Id)

  // ---------------------------------------------------------------------------
  // createOrderSchema

  /** `z.uuid(message)`: every failure, wrong type included, carries `message`. */
  function UuidIssues(v: Option<Json>, isUuid: string -> bool, message: string): (r: seq<Issue>)
  {
    match v
    case Some(JStr(s)) => if isUuid(s) then [] else Here(message)
    case _ => Here(message)
  }

  /**
   * `z.number().int().positive(...)`: a failed `.int()` aborts the field, so
   * the sign is checked only on a whole number.
   */
  function QuantityIssues(v: Option<Json>): (r: seq<Issue>)
  {
    match v
    case Some(JNum(n)) =>
      if !IsInteger(n) then Here(IntMessage)
      else if n > 0.0 then [] else Here(QuantityMessage)
    case _ => Here(InvalidType("number", v))
  }

  /** orderItemSchema. */
  function ItemIssues(v: Json, isUuid: string -> bool): (r: seq<Issue>)
  {
    match v
    case JObj(f) =>
      Under(Key("productId"), UuidIssues(Field(f, "productId"), isUuid, ProductIdMessage))
      + Under(Key("quantity"), QuantityIssues(Field(f, "quantity")))
    case _ => Here(InvalidType("object", Some(v)))
  }

  /** The issues of every element, each under its index. */
  function ElementIssues(elems: seq<Json>, isUuid: string -> bool): (r: seq<Issue>)
  {
    if elems == [] then []
    else
      var n := |elems| - 1;
      ElementIssues(elems[..n], isUuid) + Under(Index(n), ItemIssues(elems[n], isUuid))
  }

  /** `z.array(orderItemSchema).min(1, ...)`. */
  function ItemsIssues(v: Option<Json>, isUuid: string -> bool): (r: seq<Issue>)
  {
    match v
    case Some(JArr(es)) => ElementIssues(es, isUuid) + (if |es| < 1 then Here(ItemsMessage) else [])
    case _ => Here(InvalidType("array", v))
  }

  /** createOrderSchema: items first, then addressId. */
  function CreateOrderIssues(body: Json, isUuid: string -> bool): (r: seq<Issue>)
  {
    match body
    case JObj(f) =>
      Under(Key("items"), ItemsIssues(Field(f, "items"), isUuid))
      + Under(Key("addressId"), UuidIssues(Field(f, "addressId"), isUuid, AddressIdMessage))
    case _ => Here(InvalidType("object", Some(body)))
  }

  function ItemOf(v: Json): (r: CartItem)
  {
    match v
    case JObj(f) => CartItem(StringAt(f, "productId"), WholeAt(f, "quantity"))
    case _ => CartItem("", 0)
  }

  function ItemsOf(body: Json): (r: seq<CartItem>)
  {
    match body
    case JObj(f) =>
      (match Field(f, "items")
       case Some(JArr(es)) => seq(|es|, i requires 0 <= i < |es| => ItemOf(es[i]))
       case _ => [])
    case _ => []
  }

  /** `createOrderSchema.safeParse(body)`. */
  function ParseCreateOrder(body: Json, isUuid: string -> bool): (r: Parsed<OrderRequest>)
  {
    var issues := CreateOrderIssues(body, isUuid);
    if issues != [] then Failure(issues)
    else Success(OrderRequest(ItemsOf(body), if body.JObj? then StringAt(body.fields, "addressId") else ""))
  }

  // ---------------------------------------------------------------------------
  // What createOrderSchema accepts, stated independently

  /** An item: an object whose productId is a UUID string and whose quantity is a whole number at least 1. */
  predicate GoodItem(v: Json, isUuid: string -> bool)
  {
    && v.JObj?
    && (match Field(v.fields, "productId") case Some(JStr(s)) => isUuid(s) case _ => false)
    && (match Field(v.fields, "quantity") case Some(JNum(n)) => IsInteger(n) && n >= 1.0 case _ => false)
  }

  /** A body with a non-empty items array of good items and a UUID addressId. */
  predicate GoodOrderBody(body: Json, isUuid: string -> bool)
  {
    && body.JObj?
    && (match Field(body.fields, "items")
        case Some(JArr(es)) => |es| >= 1 && AllGood(es, isUuid)
        case _ => false)
    && (match Field(body.fields, "addressId") case Some(JStr(s)) => isUuid(s) case _ => false)
  }

  /** "Integer and positive" is "integer and at least 1". */
  lemma PositiveWhole(n: real)
    requires IsInteger(n)
    ensures n > 0.0 <==> n >= 1.0
  {
    if n > 0.0 {
      assert n.Floor >= 1;
    }
  }

  /** A quantity field reports at most one issue; on a number that is not whole it is the `.int()` one. */
  lemma QuantityIssueFirst(v: Option<Json>)
    ensures |QuantityIssues(v)| <= 1
    ensures v.Some? && v.value.JNum? && !IsInteger(v.value.n) ==> QuantityIssues(v) == [Issue([], IntMessage)]
  {
  }

  /** Quantity -1.5 under a valid productId: only the `.int()` issue, under "quantity". */
  lemma NegativeFractionQuantity(id: string, isUuid: string -> bool)
    requires isUuid(id)
    ensures ItemIssues(JObj(map["productId" := JStr(id), "quantity" := JNum(-1.5)]), isUuid)
         == [Issue([Key("quantity")], IntMessage)]
  {
    var f := map["productId" := JStr(id), "quantity" := JNum(-1.5)];
    assert Field(f, "productId") == Some(JStr(id));
    assert Field(f, "quantity") == Some(JNum(-1.5));
    assert (-1.5).Floor == -2;
    assert UuidIssues(Field(f, "productId"), isUuid, ProductIdMessage) == [];
    assert QuantityIssues(Field(f, "quantity")) == Here(IntMessage);
    assert Under(Key("productId"), []) == [];
    assert Under(Key("quantity"), Here(IntMessage))[0] == Issue([Key("quantity")], IntMessage);
  }

  lemma ItemIssuesNone(v: Json, isUuid: string -> bool)
    ensures ItemIssues(v, isUuid) == [] <==> GoodItem(v, isUuid)
  {
    if v.JObj? {
      match Field(v.fields, "quantity") {
        case Some(JNum(n)) =>
          if IsInteger(n) { PositiveWhole(n); }
        case _ =>
      }
    }
  }

  lemma {:induction false} ElementIssuesNone(elems: seq<Json>, isUuid: string -> bool)
    ensures ElementIssues(elems, isUuid) == [] <==> AllGood(elems, isUuid)
  {
    if elems != [] {
      var n := |elems| - 1;
      ElementIssuesNone(elems[..n], isUuid);
      ItemIssuesNone(elems[n], isUuid);
      ElementIssuesLast(elems, isUuid);
      NoIssuesUnder(ElementIssues(elems[..n], isUuid), Index(n), ItemIssues(elems[n], isUuid));
      AllGoodSnoc(elems, isUuid);
    }
  }

  /** The issues of a non-empty list: those of all but the last element, then the last one's under its index. */
  lemma ElementIssuesLast(elems: seq<Json>, isUuid: string -> bool)
    requires elems != []
    ensures ElementIssues(elems, isUuid)
         == ElementIssues(elems[..|elems| - 1], isUuid) + Under(Index(|elems| - 1), ItemIssues(elems[|elems| - 1], isUuid))
  {
  }

  /** Every element is a good item. */
  predicate AllGood(elems: seq<Json>, isUuid: string -> bool)
  {
    forall i :: 0 <= i < |elems| ==> GoodItem(elems[i], isUuid)
  }

  lemma AllGoodSnoc(elems: seq<Json>, isUuid: string -> bool)
    requires elems != []
    ensures AllGood(elems, isUuid) <==> AllGood(elems[..|elems| - 1], isUuid) && GoodItem(elems[|elems| - 1], isUuid)
  {
    var n := |elems| - 1;
    assert forall i :: 0 <= i < n ==> elems[..n][i] == elems[i];
  }

  /** createOrderSchema accepts exactly the good bodies. */
  lemma CreateOrderAccepted(body: Json, isUuid: string -> bool)
    ensures ParseCreateOrder(body, isUuid).Success? <==> GoodOrderBody(body, isUuid)
  {
    if body.JObj? {
      var f := body.fields;
      var items := ItemsIssues(Field(f, "items"), isUuid);
      var address := UuidIssues(Field(f, "addressId"), isUuid, AddressIdMessage);
      assert CreateOrderIssues(body, isUuid) == Under(Key("items"), items) + Under(Key("addressId"), address);
      assert |Under(Key("items"), items)| == |items| && |Under(Key("addressId"), address)| == |address|;
      ItemsAccepted(Field(f, "items"), isUuid);
    }
  }

  /** The items field passes exactly when it is a non-empty array of good items. */
  lemma ItemsAccepted(v: Option<Json>, isUuid: string -> bool)
    ensures ItemsIssues(v, isUuid) == [] <==> match v case Some(JArr(es)) => |es| >= 1 && AllGood(es, isUuid) case _ => false
  {
    match v {
      case Some(JArr(es)) =>
        ElementIssuesNone(es, isUuid);
        var tail: seq<Issue> := if |es| < 1 then Here(ItemsMessage) else [];
        assert |ElementIssues(es, isUuid) + tail| == |ElementIssues(es, isUuid)| + |tail|;
      case _ =>
    }
  }

  /**
   * What the route may rely on after a successful parse: at least one item,
   * every quantity a whole number at least 1, and both kinds of id passed
   * the UUID check.
   */
  lemma CreateOrderData(body: Json, isUuid: string -> bool)
    requires ParseCreateOrder(body, isUuid).Success?
    ensures
      var data := ParseCreateOrder(body, isUuid).data;
      && |data.items| >= 1
      && isUuid(data.addressId)
      && forall i :: 0 <= i < |data.items| ==> data.items[i].quantity >= 1 && isUuid(data.items[i].productId)
  {
    CreateOrderAccepted(body, isUuid);
    var es := Field(body.fields, "items").value.elems;
    var data := ParseCreateOrder(body, isUuid).data;
    assert data.items == seq(|es|, i requires 0 <= i < |es| => ItemOf(es[i]));
    forall i | 0 <= i < |data.items|
      ensures data.items[i].quantity >= 1 && isUuid(data.items[i].productId)
    {
      assert GoodItem(es[i], isUuid);
      assert data.items[i] == ItemOf(es[i]);
      GoodItemOf(es[i], isUuid);
    }
  }

  /** A good item is read as a line for a UUID product of at least one unit. */
  lemma GoodItemOf(v: Json, isUuid: string -> bool)
    requires GoodItem(v, isUuid)
    ensures ItemOf(v).quantity >= 1 && isUuid(ItemOf(v).productId)
  {
    var n := v.fields["quantity"].n;
    assert WholeAt(v.fields, "quantity") == n.Floor;
  }

  /**
   * An empty items array is rejected with the minimum-size message under
   * "items", followed by the address message when the address is no UUID.
   */
  lemma EmptyItemsRejected(addressId: string, isUuid: string -> bool)
    ensures
      var body := JObj(map["items" := JArr([]), "addressId" := JStr(addressId)]);
      ParseCreateOrder(body, isUuid)
        == Failure([Issue([Key("items")], ItemsMessage)]
                   + if isUuid(addressId) then [] else [Issue([Key("addressId")], AddressIdMessage)])
  {
    var body := JObj(map["items" := JArr([]), "addressId" := JStr(addressId)]);
    assert Field(body.fields, "items") == Some(JArr([]));
    assert Field(body.fields, "addressId") == Some(JStr(addressId));
    assert ItemsIssues(Some(JArr([])), isUuid) == Here(ItemsMessage);
    assert [Key("items")] + [] == [Key("items")] && [Key("addressId")] + [] == [Key("addressId")];
    assert Under(Key("items"), Here(ItemsMessage)) == [Issue([Key("items")], ItemsMessage)];
    assert Under(Key("addressId"), UuidIssues(Some(JStr(addressId)), isUuid, AddressIdMessage))
        == if isUuid(addressId) then [] else [Issue([Key("addressId")], AddressIdMessage)];
  }

  // ---------------------------------------------------------------------------
  // updateOrderSchema

  function StatusName(s: Status): (r: string)
  {
    match s
    case Pendente => "PENDENTE"
    case Processando => "PROCESSANDO"
    case Enviado => "ENVIADO"
    case Entregue => "ENTREGUE"
    case Cancelado => "CANCELADO"
  }

  function StatusNamed(name: string): (r: Option<Status>)
  {
    if name == "PENDENTE" then Some(Pendente)
    else if name == "PROCESSANDO" then Some(Processando)
    else if name == "ENVIADO" then Some(Enviado)
    else if name == "ENTREGUE" then Some(Entregue)
    else if name == "CANCELADO" then Some(Cancelado)
    else None
  }

  /**
   * `updateOrderSchema.safeParse(body)`: the new status alone decides; the
   * order's current status is not an input.
   */
  function ParseStatusUpdate(body: Json): (r: Parsed<Status>)
  {
    match body
    case JObj(f) =>
      (match Field(f, "status")
       case Some(JStr(s)) =>
         (match StatusNamed(s)
          case Some(st) => Success(st)
          case None => Failure(Under(Key("status"), Here(StatusMessage))))
       case _ => Failure(Under(Key("status"), Here(StatusMessage))))
    case _ => Failure(Here(InvalidType("object", Some(body))))
  }

  /** The enumeration's names and values correspond one to one. */
  lemma StatusNamesRoundTrip(s: Status, name: string)
    ensures StatusNamed(StatusName(s)) == Some(s)
    ensures StatusNamed(name) == Some(s) ==> StatusName(s) == name
  {
  }

  /** A status update is accepted exactly for the five enumeration names. */
  lemma StatusUpdateAccepted(name: string)
    ensures ParseStatusUpdate(JObj(map["status" := JStr(name)])).Success?
        <==> name in {"PENDENTE", "PROCESSANDO", "ENVIADO", "ENTREGUE", "CANCELADO"}
    ensures ParseStatusUpdate(JObj(map["status" := JStr(name)])).Success? ==>
        StatusName(ParseStatusUpdate(JObj(map["status" := JStr(name)])).data) == name
  {
    assert Field(map["status" := JStr(name)], "status") == Some(JStr(name));
  }
}

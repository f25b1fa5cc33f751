/**
 * productSchema and its partial form updateProductSchema. Zod's URL check is
 * the parameter `isUrl`; string lengths are counted in characters.
 */
module ProductValidation {
  import opened Domain
  import opened Schema
  import opened ValidationError

  const NameShortMessage := "O nome deve ter no mínimo 3 caracteres."
  const NameLongMessage := "O nome deve ter no máximo 50 caracteres."
  const DescriptionShortMessage := "Descrição é obrigatória."
  const DescriptionLongMessage := "Descrição não pode exceder 500 caracteres"
  const PriceMessage := "Preço deve ser um número positivo."
  const ImageMessage := "URL da imagem deve ser válida."
  const StockIntMessage := "O estoque deve ser um número inteiro."
  const StockNegativeMessage := "O estoque não pode ser negativo."

  /** The bounds the schema enforces on the name and the description. */
  const NameMin := 5
  const NameMax := 50
  const DescriptionMin := 10
  const DescriptionMax := 500

  /** The schema's keys, in declaration order. */
  const ProductKeys := ["name", "description", "price", "image", "stock"]

  /** The data of a valid product body. */
  datatype ProductData = ProductData(name: string, description: string, price: real, image: string, stock: int)

  /** The data of a valid update body: only the keys present. */
  datatype ProductPatch = ProductPatch(
    name: Option<string>, description: Option<string>, price: Option<real>,
    image: Option<string>, stock: Option<int>)

  /** `z.string().min(lo, ...).max(hi, ...)`: both bounds are checked. */
  function LengthIssues(v: Option<Json>, lo: nat, hi: nat, loMessage: string, hiMessage: string): (r: seq<Issue>)
  {
    match v
    case Some(JStr(s)) =>
      (if |s| < lo then Here(loMessage) else []) + (if |s| > hi then Here(hiMessage) else [])
    case _ => Here(InvalidType("string", v))
  }

  /** `z.number().positive(...)`. */
  function PriceIssues(v: Option<Json>): (r: seq<Issue>)
  {
    match v
    case Some(JNum(n)) => if n > 0.0 then [] else Here(PriceMessage)
    case _ => Here(InvalidType("number", v))
  }

  /** `z.url(message)`: every failure, wrong type included, carries `message`. */
  function ImageIssues(v: Option<Json>, isUrl: string -> bool): (r: seq<Issue>)
  {
    match v
    case Some(JStr(s)) => if isUrl(s) then [] else Here(ImageMessage)
    case _ => Here(ImageMessage)
  }

  /**
   * `z.number().int(...).nonnegative(...)`: a failed `.int()` aborts the
   * field, so the sign is checked only on a whole number.
   */
  function StockIssues(v: Option<Json>): (r: seq<Issue>)
  {
    match v
    case Some(JNum(n)) =>
      if !IsInteger(n) then Here(StockIntMessage)
      else if n >= 0.0 then [] else Here(StockNegativeMessage)
    case _ => Here(InvalidType("number", v))
  }

  /** The rule the schema attaches to each key. */
  function RuleIssues(key: string, v: Option<Json>, isUrl: string -> bool): (r: seq<Issue>)
  {
    if key == "name" then LengthIssues(v, NameMin, NameMax, NameShortMessage, NameLongMessage)
    else if key == "description" then LengthIssues(v, DescriptionMin, DescriptionMax, DescriptionShortMessage, DescriptionLongMessage)
    else if key == "price" then PriceIssues(v)
    else if key == "image" then ImageIssues(v, isUrl)
    else StockIssues(v)
  }

  /** One key's issues, under its name; in the partial schema an absent key has none. */
  function KeyIssues(f: map<string, Json>, key: string, isUrl: string -> bool, partial: bool): (r: seq<Issue>)
  {
    if partial && key !in f then [] else Under(Key(key), RuleIssues(key, Field(f, key), isUrl))
  }

  /** All keys' issues, in declaration order. */
  function ProductIssues(body: Json, isUrl: string -> bool, partial: bool): (r: seq<Issue>)
  {
    match body
    case JObj(f) =>
      KeyIssues(f, "name", isUrl, partial) + KeyIssues(f, "description", isUrl, partial)
      + KeyIssues(f, "price", isUrl, partial) + KeyIssues(f, "image", isUrl, partial)
      + KeyIssues(f, "stock", isUrl, partial)
    case _ => Here(InvalidType("object", Some(body)))
  }

  /** `productSchema.safeParse(body)`. */
  function ParseProduct(body: Json, isUrl: string -> bool): (r: Parsed<ProductData>)
  {
    var issues := ProductIssues(body, isUrl, false);
    if issues != [] || !body.JObj? then Failure(issues)
    else
      var f := body.fields;
      Success(ProductData(StringAt(f, "name"), StringAt(f, "description"), NumAt(f, "price"),
                          StringAt(f, "image"), WholeAt(f, "stock")))
  }

  function Present<T>(f: map<string, Json>, key: string, value: T): (r: Option<T>)
  {
    if key in f then Some(value) else None
  }

  /** `updateProductSchema.safeParse(body)`. */
  function ParseProductUpdate(body: Json, isUrl: string -> bool): (r: Parsed<ProductPatch>)
  {
    var issues := ProductIssues(body, isUrl, true);
    if issues != [] || !body.JObj? then Failure(issues)
    else
      var f := body.fields;
      Success(ProductPatch(
        Present(f, "name", StringAt(f, "name")), Present(f, "description", StringAt(f, "description")),
        Present(f, "price", NumAt(f, "price")), Present(f, "image", StringAt(f, "image")),
        Present(f, "stock", WholeAt(f, "stock"))))
  }

  // ---------------------------------------------------------------------------
  // What the schemas accept, stated independently

  /** The value satisfies the rule of its key. */
  predicate Satisfies(key: string, v: Option<Json>, isUrl: string -> bool)
  {
    match v
    case Some(JStr(s)) =>
      if key == "name" then NameMin <= |s| <= NameMax
      else if key == "description" then DescriptionMin <= |s| <= DescriptionMax
      else key == "image" && isUrl(s)
    case Some(JNum(n)) =>
      if key == "price" then n > 0.0
      else key == "stock" && IsInteger(n) && n >= 0.0
    case _ => false
  }

  lemma RuleIssuesNone(key: string, v: Option<Json>, isUrl: string -> bool)
    requires key in ProductKeys
    ensures RuleIssues(key, v, isUrl) == [] <==> Satisfies(key, v, isUrl)
  {
  }

  /** A stock field reports at most one issue; on a number that is not whole it is the `.int()` one. */
  lemma StockIssueFirst(v: Option<Json>)
    ensures |StockIssues(v)| <= 1
    ensures v.Some? && v.value.JNum? && !IsInteger(v.value.n) ==> StockIssues(v) == [Issue([], StockIntMessage)]
  {
  }

  /** Stock -1.5 gets the integer message, not the sign message. */
  lemma NegativeFractionStock()
    ensures StockIssues(Some(JNum(-1.5))) == [Issue([], StockIntMessage)]
  {
    assert (-1.5).Floor == -2;
  }

  /** One key contributes no issue exactly when it is absent from a partial body or satisfies its rule. */
  lemma KeyIssuesNone(f: map<string, Json>, key: string, isUrl: string -> bool, partial: bool)
    requires key in ProductKeys
    ensures KeyIssues(f, key, isUrl, partial) == [] <==> ((partial && key !in f) || Satisfies(key, Field(f, key), isUrl))
  {
    RuleIssuesNone(key, Field(f, key), isUrl);
  }

  /** The body's issues are none exactly when no key contributes one. */
  lemma ProductIssuesNone(f: map<string, Json>, isUrl: string -> bool, partial: bool)
    ensures ProductIssues(JObj(f), isUrl, partial) == [] <==>
      forall key :: key in ProductKeys ==> (partial && key !in f) || Satisfies(key, Field(f, key), isUrl)
  {
    ProductIssuesParts(f, isUrl, partial);
    KeyIssuesNone(f, "name", isUrl, partial);
    KeyIssuesNone(f, "description", isUrl, partial);
    KeyIssuesNone(f, "price", isUrl, partial);
    KeyIssuesNone(f, "image", isUrl, partial);
    KeyIssuesNone(f, "stock", isUrl, partial);
  }

  /** A body's issues are empty exactly when each key's are. */
  lemma ProductIssuesParts(f: map<string, Json>, isUrl: string -> bool, partial: bool)
    ensures ProductIssues(JObj(f), isUrl, partial) == [] <==>
      && KeyIssues(f, "name", isUrl, partial) == [] && KeyIssues(f, "description", isUrl, partial) == []
      && KeyIssues(f, "price", isUrl, partial) == [] && KeyIssues(f, "image", isUrl, partial) == []
      && KeyIssues(f, "stock", isUrl, partial) == []
  {
    FiveParts(KeyIssues(f, "name", isUrl, partial), KeyIssues(f, "description", isUrl, partial),
      KeyIssues(f, "price", isUrl, partial), KeyIssues(f, "image", isUrl, partial), KeyIssues(f, "stock", isUrl, partial));
  }

  /** productSchema accepts an object exactly when every key is present and satisfies its rule. */
  lemma ProductAccepted(f: map<string, Json>, isUrl: string -> bool)
    ensures ParseProduct(JObj(f), isUrl).Success?
        <==> forall key :: key in ProductKeys ==> Satisfies(key, Field(f, key), isUrl)
  {
    ProductIssuesNone(f, isUrl, false);
  }

  /**
   * The accepted data keeps the checked values: the lengths are within bounds,
   * the price is positive, the image passed the URL check and the stock is a
   * non-negative whole number equal to the one sent.
   */
  lemma ProductDataChecked(f: map<string, Json>, isUrl: string -> bool)
    requires ParseProduct(JObj(f), isUrl).Success?
    ensures
      var d := ParseProduct(JObj(f), isUrl).data;
      && NameMin <= |d.name| <= NameMax
      && DescriptionMin <= |d.description| <= DescriptionMax
      && d.price > 0.0
      && isUrl(d.image)
      && d.stock >= 0
      && Field(f, "stock") == Some(JNum(d.stock as real))
  {
    ProductAccepted(f, isUrl);
    assert Satisfies("name", Field(f, "name"), isUrl);
    assert Satisfies("description", Field(f, "description"), isUrl);
    assert Satisfies("price", Field(f, "price"), isUrl);
    assert Satisfies("image", Field(f, "image"), isUrl);
    assert Satisfies("stock", Field(f, "stock"), isUrl);
  }

  /** updateProductSchema accepts an object exactly when every key it does carry satisfies its rule. */
  lemma ProductUpdateAccepted(f: map<string, Json>, isUrl: string -> bool)
    ensures ParseProductUpdate(JObj(f), isUrl).Success?
        <==> forall key :: key in ProductKeys && key in f ==> Satisfies(key, Field(f, key), isUrl)
  {
    ProductIssuesNone(f, isUrl, true);
  }

  /** On an object carrying every key, the partial schema decides as the full one does. */
  lemma PartialAgreesWhenComplete(f: map<string, Json>, isUrl: string -> bool)
    requires forall key :: key in ProductKeys ==> key in f
    ensures ParseProductUpdate(JObj(f), isUrl).Success? <==> ParseProduct(JObj(f), isUrl).Success?
  {
    ProductAccepted(f, isUrl);
    ProductUpdateAccepted(f, isUrl);
  }

  /** An empty update is valid and changes nothing. */
  lemma EmptyUpdateAccepted(isUrl: string -> bool)
    ensures ParseProductUpdate(JObj(map[]), isUrl) == Success(ProductPatch(None, None, None, None, None))
  {
  }

  /** The invalid-product test's body. */
  function InvalidProductBody(): (r: Json)
  {
    JObj(map["name" := JStr("V"), "description" := JStr("Curto"), "price" := JNum(-50.0),
             "image" := JStr("nao-e-uma-url"), "stock" := JNum(10.5)])
  }

  /** Every key of the invalid-product body fails its first check, in declaration order. */
  lemma InvalidProductIssues(isUrl: string -> bool)
    requires !isUrl("nao-e-uma-url")
    ensures ProductIssues(InvalidProductBody(), isUrl, false)
         == [Issue([Key("name")], NameShortMessage), Issue([Key("description")], DescriptionShortMessage),
             Issue([Key("price")], PriceMessage), Issue([Key("image")], ImageMessage),
             Issue([Key("stock")], StockIntMessage)]
  {
    InvalidProductRules(isUrl);
    UnderHere(Key("name"), NameShortMessage);
    UnderHere(Key("description"), DescriptionShortMessage);
    UnderHere(Key("price"), PriceMessage);
    UnderHere(Key("image"), ImageMessage);
    UnderHere(Key("stock"), StockIntMessage);
  }

  /** Each value of the invalid-product body fails its key's first check. */
  lemma InvalidProductRules(isUrl: string -> bool)
    requires !isUrl("nao-e-uma-url")
    ensures var f := InvalidProductBody().fields;
      && RuleIssues("name", Field(f, "name"), isUrl) == Here(NameShortMessage)
      && RuleIssues("description", Field(f, "description"), isUrl) == Here(DescriptionShortMessage)
      && RuleIssues("price", Field(f, "price"), isUrl) == Here(PriceMessage)
      && RuleIssues("image", Field(f, "image"), isUrl) == Here(ImageMessage)
      && RuleIssues("stock", Field(f, "stock"), isUrl) == Here(StockIntMessage)
  {
    assert !IsInteger(10.5) by { assert (10.5).Floor == 10; }
  }

  /**
   * The invalid-product test: the parse fails and the record of field errors
   * holds one message per key. The name rule rejects fewer than five
   * characters although its message speaks of three.
   */
  lemma InvalidProductErrors(isUrl: string -> bool)
    requires !isUrl("nao-e-uma-url")
    ensures ParseProduct(InvalidProductBody(), isUrl).Failure?
    ensures FieldErrorMap(ParseProduct(InvalidProductBody(), isUrl).issues)
         == map["name" := NameShortMessage, "description" := DescriptionShortMessage, "price" := PriceMessage,
                "image" := ImageMessage, "stock" := StockIntMessage]
  {
    InvalidProductIssues(isUrl);
    InvalidProductMap();
  }

  /** The record the five issues of the invalid-product body fold into. */
  lemma InvalidProductMap()
    ensures FieldErrorMap([Issue([Key("name")], NameShortMessage), Issue([Key("description")], DescriptionShortMessage),
                           Issue([Key("price")], PriceMessage), Issue([Key("image")], ImageMessage),
                           Issue([Key("stock")], StockIntMessage)])
         == map["name" := NameShortMessage, "description" := DescriptionShortMessage, "price" := PriceMessage,
                "image" := ImageMessage, "stock" := StockIntMessage]
  {
    var i1, i2, i3 := Issue([Key("name")], NameShortMessage), Issue([Key("description")], DescriptionShortMessage),
                      Issue([Key("price")], PriceMessage);
    var i4, i5 := Issue([Key("image")], ImageMessage), Issue([Key("stock")], StockIntMessage);
    FieldErrorMapSnoc([], i1);
    assert [] + [i1] == [i1];
    FieldErrorMapSnoc([i1], i2);
    FieldErrorMapSnoc([i1, i2], i3);
    FieldErrorMapSnoc([i1, i2, i3], i4);
    FieldErrorMapSnoc([i1, i2, i3, i4], i5);
    assert [i1] + [i2] == [i1, i2] && [i1, i2] + [i3] == [i1, i2, i3];
    assert [i1, i2, i3] + [i4] == [i1, i2, i3, i4] && [i1, i2, i3, i4] + [i5] == [i1, i2, i3, i4, i5];
  }

  /** A single issue placed under one segment. */
  lemma UnderHere(seg: PathSeg, message: string)
    ensures Under(seg, Here(message)) == [Issue([seg], message)]
  {
    assert [seg] + [] == [seg];
  }

  /** A body missing a required key is rejected. */
  lemma MissingKeyRejected(f: map<string, Json>, key: string, isUrl: string -> bool)
    requires key in ProductKeys && key !in f
    ensures ParseProduct(JObj(f), isUrl).Failure?
  {
    ProductAccepted(f, isUrl);
    assert !Satisfies(key, Field(f, key), isUrl);
  }
}

# A verified model of the e-commerce-velas storefront core

This project models, in Dafny, the logic under a small Next.js candle shop:

- **Cart pricing (`processCart`).** It reads the product rows for a cart. It rejects the cart with 404 when the number of rows differs from the number of lines. It rejects with 409 at the first line that asks for more than its product's stock. Otherwise it returns the rows read and the total.
- **Order placement (`createOrderInDb`).** One transaction creates the order. Then, per item, it creates an order line priced from the pricing snapshot and decrements that product's stock. Nothing is kept unless every write succeeds.
- **The orders API route.**
  - `POST` is a chain of guards: session (401), JSON body (500), `createOrderSchema` (400 with field errors), address ownership (403), pricing (404/409). An order is created and answered with 201 only when every guard passes.
  - `GET` answers the caller's orders, newest first.
- **The products API route.**
  - `GET` derives the page read from the search parameters: `parseInt` of page and limit, the `sortBy` split on `_`, the name filter, skip/take, and `Math.ceil` for the page count.
  - `POST` lets only an administrator create a product from a body that passes `productSchema`.
- **The client cart store.** The `items` list is replaced by `addToCart`, `removeFromCart`, `updateQuantity` and `clearCart`. It keeps one line per product, each for at least one unit.
- **The add-to-cart form.** The quantity stepper clamps into `[1, stock]`. Adding to the cart calls `addToCart` once per unit.
- **The validators.**
  - The order, product and registration Zod schemas, as the issues each reports.
  - `verifyAddressOwner`.
  - `handleZodValidationError`, which folds issues into a field → message record.
- **`fetchCep`.** It strips a Brazilian postal code to its digits, requires eight of them, and maps the ViaCEP reply to an error or to the data.

Modelling choices:

- **Money** is integer cents. JSON numbers in request bodies are reals, so `10.5` fails an integer check.
- **Zod's formats** (UUID, URL, email) are function parameters (`isUuid`, `isUrl`, `isEmail`).
- **Database reads** are inputs:
  - the product table is a `seq<Product>` with unique ids;
  - the address table is a map keyed by id;
  - the order table is a `seq<Order>`.
- **Database writes** go to an `OrderStore` object: a stock map, the order list, the line list and the next order id.
- **A failing write** is named by an index (`fault`):
  - write 0 creates the order;
  - write 2i+1 creates the line of item i;
  - write 2i+2 is the stock update of item i.
- **A thrown error** is the 500 reply of `errorHandler`.
- **Zod behaviour.** The length and sign checks of a field all run, and each reports its own issue. A failed `.int()` is the exception: it ends that field's checks, so a number that is not whole gets only the integer message. A message given to `z.uuid`, `z.url`, `z.email` or `z.enum` is used for every failure of that schema, including a wrong type. Other type errors carry Zod's "Invalid input: expected …, received …" text.

Files:

- `domain.dfy`: shared entities.
- `schema.dfy`: JSON values, Zod issues.
- `validation_error.dfy`
- `order_validation.dfy`
- `product_validation.dfy`
- `user_validation.dfy`
- `address_service.dfy`
- `cep_service.dfy`
- `cart_service.dfy`
- `order_service.dfy`
- `cart_store.dfy`
- `add_to_cart_form.dfy`
- `products_route.dfy`
- `orders_route.dfy`

## Model

| member | source | states |
|---|---|---|
| Domain.Find | src/services/cartService.ts:16 | A row `find` returns is in the list and carries the id looked for |
| Domain.FindFound | src/services/orderService.ts:24 | `find` by id succeeds exactly when some row has that id |
| Domain.Ids | src/services/cartService.ts:5 | The id list has one entry per cart line, the i-th line's product id |
| Schema.Under | src/lib/validationError.ts:6 | A nested issue keeps its message and gets the enclosing key or index prepended to its path |
| ValidationError.Digits | src/lib/validationError.ts:6 | An array index is written as a non-empty run of decimal digits |
| ValidationError.HandleZodValidationError | src/lib/validationError.ts:4-12 | The reduce loop builds exactly the record `FieldErrorMap` of the issues, and the reply is 400 with `{errors}` |
| ValidationError.FieldErrorMapKeys | src/lib/validationError.ts:5-9 | The record's keys are exactly the joined paths of the issues |
| ValidationError.FieldErrorMapLastWins | src/lib/validationError.ts:7 | A field's message is that of the last issue with that joined path |
| ValidationError.FieldErrorMapSnoc | src/lib/validationError.ts:7 | Folding one more issue writes its message under its joined path, overwriting |
| ValidationError.FieldErrorMapNonEmpty | src/lib/validationError.ts:5-11 | A failed parse always yields at least one field error |
| OrderValidation.QuantityIssueFirst | src/lib/schemas/orderValidation.ts:13 | The quantity reports at most one issue; for a number that is not whole it is the `.int()` message alone, since a failed `.int()` ends the field's checks |
| OrderValidation.NegativeFractionQuantity | src/lib/schemas/orderValidation.ts:11-14 | An item with quantity -1.5 reports only the `.int()` issue under "quantity", not the minimum message |
| OrderValidation.ItemIssuesNone | src/lib/schemas/orderValidation.ts:11-14 | orderItemSchema reports nothing exactly for an object with a UUID productId and a whole quantity of at least 1 |
| OrderValidation.ElementIssuesNone | src/lib/schemas/orderValidation.ts:17 | An items array reports no element issue exactly when every element is a good item |
| OrderValidation.ItemsAccepted | src/lib/schemas/orderValidation.ts:17 | The items field passes exactly when it is an array of at least one good item |
| OrderValidation.PositiveWhole | src/lib/schemas/orderValidation.ts:13 | For a whole number, `.positive()` is "at least 1" |
| OrderValidation.CreateOrderAccepted | src/lib/schemas/orderValidation.ts:16-19 | createOrderSchema accepts a body exactly when it has a non-empty array of good items and a UUID addressId |
| OrderValidation.CreateOrderData | src/lib/schemas/orderValidation.ts:11-19 | Parsed data has at least one item, every quantity is at least 1, and every productId and the addressId passed the UUID check |
| OrderValidation.GoodItemOf | src/lib/schemas/orderValidation.ts:11-14 | A good item is read as a line for a UUID product of at least one unit |
| OrderValidation.EmptyItemsRejected | src/lib/schemas/orderValidation.ts:17-18 | An empty items array fails with the minimum-size message under "items", followed by the address message when the address is no UUID |
| OrderValidation.StatusNamesRoundTrip | src/lib/schemas/orderValidation.ts:3-9 | The five enumeration names and statuses correspond one to one |
| OrderValidation.StatusUpdateAccepted | src/lib/schemas/orderValidation.ts:21-23 | A status update is accepted exactly for PENDENTE, PROCESSANDO, ENVIADO, ENTREGUE, CANCELADO, and yields the status of that name |
| ProductValidation.StockIssueFirst | src/lib/schemas/ProductValidation.ts:12-15 | The stock reports at most one issue; for a number that is not whole it is the integer message alone |
| ProductValidation.NegativeFractionStock | src/lib/schemas/ProductValidation.ts:12-15 | Stock -1.5 gets "O estoque deve ser um número inteiro.", not the sign message |
| ProductValidation.RuleIssuesNone | src/lib/schemas/ProductValidation.ts:3-16 | Each key's rule reports nothing exactly when the value satisfies it: the length bounds, a positive price, a URL, a non-negative whole stock |
| ProductValidation.KeyIssuesNone | src/lib/schemas/ProductValidation.ts:18 | A key contributes no issue exactly when it is absent from a partial body or satisfies its rule |
| ProductValidation.ProductIssuesNone | src/lib/schemas/ProductValidation.ts:3-18 | A body reports no issue exactly when every key is absent (partial schema only) or satisfies its rule |
| ProductValidation.ProductAccepted | src/lib/schemas/ProductValidation.ts:3-16 | productSchema accepts an object exactly when all five keys are present and satisfy their rules |
| ProductValidation.ProductDataChecked | src/lib/schemas/ProductValidation.ts:4-15 | Accepted data has name length in [5, 50], description length in [10, 500], positive price, a URL image, and a non-negative stock equal to the number sent |
| ProductValidation.ProductUpdateAccepted | src/lib/schemas/ProductValidation.ts:18 | updateProductSchema accepts an object exactly when every key it carries satisfies its rule |
| ProductValidation.PartialAgreesWhenComplete | src/lib/schemas/ProductValidation.ts:18 | On a body carrying every key, the partial schema decides as the full one |
| ProductValidation.EmptyUpdateAccepted | src/lib/schemas/ProductValidation.ts:18 | An empty update is valid and carries no field |
| ProductValidation.InvalidProductIssues | src/app/api/products/route.test.ts:159-197 | The test's invalid body yields, in key order, the short-name, short-description, price, URL and integer-stock issues |
| ProductValidation.InvalidProductErrors | src/app/api/products/route.test.ts:180-197 | That body fails, and its field record holds exactly those five messages; the name message says "3 caracteres" although the bound is 5 |
| ProductValidation.MissingKeyRejected | src/app/api/products/route.test.ts:200-222 | A body lacking any required key is rejected |
| UserValidation.PasswordMessages | src/lib/schemas/creatUserValidation.ts:6-11 | Each password message is reported exactly when its rule fails, and the password passes exactly when all five rules hold |
| UserValidation.PasswordRules | src/lib/schemas/creatUserValidation.ts:7-11 | For any outcomes of the five rules, the issue list has each rule's message exactly when that rule failed, and is empty exactly when all hold |
| UserValidation.RegisterAccepted | src/lib/schemas/creatUserValidation.ts:3-12 | registerSchema accepts exactly a name of at least 3 characters, an email passing the email check, and a strong password |
| UserValidation.ExampleStrongPassword | src/lib/schemas/creatUserValidation.ts:7-11 | "Senha@123" meets all five rules |
| UserValidation.AccentCountsAsSpecial | src/lib/schemas/creatUserValidation.ts:8-11 | A non-ASCII letter such as 'ç' counts as the special character and not as an upper-case letter |
| AddressService.VerifyAddressOwner | src/services/addressService.ts:18-29 | Missing gives 404 "Endereço não encontrado", another user's gives 403 "Não autorizado", and the caller's own address comes back unchanged; not-found is checked first |
| AddressService.OwnerExclusive | src/services/addressService.ts:25-28 | At most one user passes the check for an address |
| AddressService.NotFoundForEveryone | src/services/addressService.ts:22-24 | Whether an address is reported missing does not depend on the caller |
| CepService.CleanCep | src/services/cepService.ts:16 | The cleaned code holds only digits and is no longer than the input; a single non-digit cleans to nothing |
| CepService.CleanCepDigitsOf | src/services/cepService.ts:16 | A character is in the cleaned code exactly when it is in the input and is a digit |
| CepService.CleanCepDropsNonDigits | src/services/cepService.ts:16 | A string without digits cleans to the empty string |
| CepService.ReadCepReply | src/services/cepService.ts:24-34 | Non-ok gives "Falha ao buscar o CEP.", `erro` gives "CEP não encontrado.", otherwise the data is returned unchanged |
| CepService.CleanCepIdempotent | src/services/cepService.ts:16 | Cleaning twice is cleaning once |
| CepService.CleanCepKeepsDigitsAll | src/services/cepService.ts:16 | A string of digits is left as it is |
| CepService.CleanCepConcat | src/services/cepService.ts:16 | Cleaning works character by character: it distributes over concatenation |
| CepService.CleanFormattedCep | src/services/cepService.ts:16 | "01310-100" cleans to "01310100" |
| CepService.ShortCepNeverFetched | src/services/cepService.ts:18-20 | Without eight digits the result is "CEP deve ter 8 dígitos." whatever the service would answer |
| CepService.CepRequestAddress | src/services/cepService.ts:22 | The request address is the ViaCEP prefix, the eight cleaned digits and "/json/", and the outcome depends on the reply to it alone |
| CartService.FirstShort | src/services/cartService.ts:15-18 | The index found is that of a short line with no short line before it; none means no line is short |
| CartService.ProcessCart | src/services/cartService.ts:4-24 | The loop with its early return computes exactly `PriceCart` of the cart against the product table |
| CartService.ElementsCard | src/services/cartService.ts:10 | A list has as many distinct values as entries exactly when no value repeats |
| CartService.FindManyCount | src/services/cartService.ts:6-8 | The read returns one row per requested id that exists in the table |
| CartService.FindManyRows | src/services/cartService.ts:6-8 | A row is read exactly when it is in the table and its id is requested |
| CartService.FindManyFind | src/services/cartService.ts:16 | Looking a requested id up among the rows read finds the table's row |
| CartService.FetchedAllExactly | src/services/cartService.ts:5-11 | The count check passes exactly when every product exists and none is named twice, so a repeated id is reported as not found |
| CartService.SubtotalFetched | src/services/cartService.ts:14-20 | Summing against the rows read equals summing against the table |
| CartService.PriceCartNotFound | src/services/cartService.ts:10-12 | 404 with "Um ou mais produtos não foram encontrados." exactly when a product is missing or repeated |
| CartService.PriceCartShortStock | src/services/cartService.ts:15-18 | 409 exactly when every product is listed once and some line is short; the message names the first short line's product; quantity equal to stock is not short |
| CartService.PriceCartSuccess | src/services/cartService.ts:14-23 | Success exactly when listed once and no line is short. The rows are those read, the total is the sum of price × quantity, and every quantity is at most its stock |
| CartService.ExactCentTotal | src/services/cartService.ts:20 | In the cents model, three lines at 10.10 total exactly 30.30; the source's float sum differs here (see "## Left out") |
| OrderService.OrderStore.constructor | src/services/orderService.ts:15-41 | A store starts with the given stock and no orders or lines |
| OrderService.OrderStore.CreateOrderInDb | src/services/orderService.ts:15-41 | Succeeds exactly when every line is writable and no write fails. It then adds one order (the given user, total and address copy, a fresh id), one line per item in item order, and the decrements, and the next id moves on by one. On failure nothing changes |
| OrderService.RunTransaction | src/services/orderService.ts:18-39 | The loop stops at the first failing write. On success the new lines and stock are exactly `LinesFor` and `Decremented` of the items |
| OrderService.AbortAt | src/services/orderService.ts:24-37 | A failing price read, line create or stock update at item i means the transaction cannot succeed |
| OrderService.TransactionStep | src/services/orderService.ts:23-37 | Each item appends its line, priced from the snapshot, and applies its own decrement |
| OrderService.LinesForOrder | src/services/orderService.ts:27 | Every created line refers to the new order |
| OrderService.DecrementedAt | src/services/orderService.ts:34-37 | Each product's stock drops by exactly the total quantity requested of it, and no product appears or vanishes |
| OrderService.DemandUnnamed | src/services/orderService.ts:34-37 | A product that no line names is not decremented at all, for any lines |
| OrderService.DemandOfDistinct | src/services/orderService.ts:34-37 | With distinct ids a product's demand is its line's quantity, and zero when it is not named |
| OrderService.StockStaysNonNegative | src/services/orderService.ts:36 | The decrement keeps stock non-negative given distinct ids and quantity ≤ stock |
| OrderService.RepeatedLineOversells | src/services/orderService.ts:36 | Without distinct ids two one-unit lines take a stock of 1 to -1 |
| CartStore.Cart.constructor | src/store/cartStore.ts:16 | The store starts with no lines |
| CartStore.Cart.AddToCart | src/store/cartStore.ts:17-30 | Items become `Added` of the old items, and the one-line-per-product invariant holds |
| CartStore.Cart.RemoveFromCart | src/store/cartStore.ts:31-35 | Items become `Removed` of the old items, and the invariant holds |
| CartStore.Cart.UpdateQuantity | src/store/cartStore.ts:36-46 | Below 1 it is exactly a removal; otherwise that line's quantity is set; the invariant holds |
| CartStore.Cart.ClearCart | src/store/cartStore.ts:47 | Items become empty |
| CartStore.AddedLines | src/store/cartStore.ts:19-28 | On a present id only that line rises by one, with length and order kept; on an absent id `{productId, 1}` is appended |
| CartStore.AddedWellFormed | src/store/cartStore.ts:17-29 | addToCart keeps ids unique and quantities ≥ 1 |
| CartStore.RemovedLines | src/store/cartStore.ts:31-34 | The remaining lines are exactly the other products' lines; an absent id leaves the list unchanged |
| CartStore.RemovedExactly | src/store/cartStore.ts:33 | With unique ids removal deletes exactly that product's line and keeps the others in order |
| CartStore.RemovedWellFormed | src/store/cartStore.ts:31-34 | removeFromCart keeps ids unique and quantities ≥ 1 |
| CartStore.UpdatedLines | src/store/cartStore.ts:40-44 | Only the matching line's quantity is set; ids and order are kept; an absent id leaves items unchanged |
| CartStore.UpdatedWellFormed | src/store/cartStore.ts:40-44 | updateQuantity with quantity ≥ 1 keeps the invariant |
| CartStore.QuantityAt | src/store/cartStore.ts:19 | With unique ids a product's units are those of its line, or 0 |
| CartStore.QuantityAfterAdd | src/store/cartStore.ts:17-29 | addToCart adds one unit of that product and changes no other product's units |
| AddToCartForm.StepClamps | src/components/shared/AddToCartForm.tsx:26-34 | With stock ≥ 1 the step lands in [1, stock]. Below it gives 1, above it gives stock, inside it gives prev + amount |
| AddToCartForm.SoldOutStep | src/components/shared/AddToCartForm.tsx:28-32 | At stock 0 the upper clamp wins (a step up from 1 gives 0), and add and plus are both disabled |
| AddToCartForm.PlusDisabledAtLimit | src/components/shared/AddToCartForm.tsx:59 | Within [1, stock], plus is disabled exactly when a step up would not change the quantity |
| AddToCartForm.HandleAddToCart | src/components/shared/AddToCartForm.tsx:19-22 | The loop raises that product's units by exactly `quantity`, by none below 1, and changes no other product |
| ProductsRoute.TrimStart | src/app/api/products/route.ts:13-14 | The trimmed text is no longer than the input and does not start with white space |
| ProductsRoute.TrimStartSuffix | src/app/api/products/route.ts:13-14 | The trimmed text is a suffix of the input, and everything dropped in front of it is white space |
| ProductsRoute.LeadingDigits | src/app/api/products/route.ts:13-14 | The digits `parseInt` reads are a prefix made only of digits |
| ProductsRoute.ParseIntDigits | src/app/api/products/route.ts:13-14 | `parseInt` reads back a decimal numeral and stops at the first non-digit |
| ProductsRoute.ParseIntNegative | src/app/api/products/route.ts:13-14 | A leading minus reads as the negated number |
| ProductsRoute.ParseIntMinus | src/app/api/products/route.ts:13-14 | A minus sign in front of unsigned text that reads as v reads as -v |
| ProductsRoute.ParseIntNaN | src/app/api/products/route.ts:13-14 | Text without digits ("abc", "", "-") is NaN |
| ProductsRoute.Split | src/app/api/products/route.ts:17 | `split` yields at least one piece, none containing the separator |
| ProductsRoute.SplitJoin | src/app/api/products/route.ts:17 | Joining the pieces gives back the sort parameter |
| ProductsRoute.JoinSplit | src/app/api/products/route.ts:17 | Splitting a join of separator-free pieces gives back the pieces |
| ProductsRoute.SortNameAsc | src/app/api/products/route.ts:15-18 | The default "name_asc" sorts on field "name", direction "asc" |
| ProductsRoute.SortFieldWithUnderscore | src/app/api/products/route.ts:17 | "created_at_desc" is cut at every underscore, so the field read is "created" |
| ProductsRoute.ListDefaults | src/app/api/products/route.ts:13-44 | With no parameters: no filter, skip 0, take 10, name ascending, page 1, and ceil(total / 10) pages |
| ProductsRoute.FilterChoice | src/app/api/products/route.ts:19-26 | An absent or empty q means no filter; otherwise the name-contains filter on q |
| ProductsRoute.WindowOfRow | src/app/api/products/route.ts:31-32 | The window skip (p-1)·l, take l holds row k exactly when p = k / l + 1, so every row is on one page |
| ProductsRoute.PagingOf | src/app/api/products/route.ts:13-14 | take is the limit and skip is (page - 1) · limit, NaN when either is NaN |
| ProductsRoute.TotalPagesCount | src/app/api/products/route.ts:43 | For a positive limit, the page count is non-negative and a page p ≥ 1 holds rows exactly when p ≤ ceil(total / limit) |
| ProductsRoute.GetProductsReply | src/app/api/products/route.ts:28-48 | 500 exactly when a read throws; otherwise 200 with the page read for the derived query and the count for its filter |
| ProductsRoute.PostProductForbidden | src/app/api/products/route.ts:53-56 | A non-administrator gets 403 whatever the body, and nothing is created |
| ProductsRoute.PostProductInvalid | src/app/api/products/route.ts:57-61 | An invalid body gets 400 with the field errors, and the create is never consulted |
| ProductsRoute.PostProductCreated | src/app/api/products/route.ts:63-66 | A valid body is created exactly as validated and returned with 201 (500 when the create throws) |
| ProductsRoute.ValidProductExample | src/app/api/products/route.test.ts:95-139 | The test's product body is valid and its data is passed on unchanged |
| OrdersRoute.PostOrder | src/app/api/orders/route.ts:41-79 | An early guard reply is returned with the store untouched. When all guards pass, the order is created in the store and answered with 201 (or 500 with nothing changed when a write fails) |
| OrdersRoute.PostOrderUnauthorized | src/app/api/orders/route.ts:43-46 | Without a session user id, 401 whatever the body, addresses and products |
| OrdersRoute.PostOrderInvalid | src/app/api/orders/route.ts:49-53 | A body failing the schema gets 400 with its field errors, whatever the addresses and products |
| OrdersRoute.PostOrderAddressRefused | src/app/api/orders/route.ts:56-59 | 403 exactly when a valid body's address is missing or someone else's, and the products are not consulted |
| OrdersRoute.PricingStatuses | src/services/cartService.ts:11-18 | Pricing refuses only with 404 or 409 |
| OrdersRoute.PostOrderPricingRefused | src/app/api/orders/route.ts:61-64 | A pricing refusal is answered with exactly its status and message |
| OrdersRoute.PostOrderPlaced | src/app/api/orders/route.ts:43-66 | The order is placed exactly when session, body, schema, address and pricing all pass |
| OrdersRoute.PlacedPlan | src/app/api/orders/route.ts:54-72 | A placed order's arguments are the caller's id, the stored address, the validated items, and the priced rows and total |
| OrdersRoute.PlacedOrderArguments | src/app/api/orders/route.ts:66-72 | createOrderInDb receives the caller's id, owned address, validated items, the rows read and the cart total. Every product is listed once, with 1 ≤ quantity ≤ stock |
| OrdersRoute.PricedCartWritable | src/services/cartService.ts:10-18 | A cart priced against the store's own table can be written in full, and no stock goes below zero |
| OrdersRoute.PlacedOrderKeepsStock | src/services/orderService.ts:34-37 | When pricing and placement see the same table, a placed order can be written in full, and no stock goes negative |
| OrdersRoute.OwnedByExactly | src/app/api/orders/route.ts:18-21 | The user filter keeps exactly the caller's orders, each as often as the table holds it |
| OrdersRoute.InsertPermutes | src/app/api/orders/route.ts:29-31 | Inserting adds exactly the one order |
| OrdersRoute.InsertSorted | src/app/api/orders/route.ts:29-31 | Inserting keeps the list newest first |
| OrdersRoute.NewestFirstSorted | src/app/api/orders/route.ts:29-31 | The sort returns a permutation of its input, newest first |
| OrdersRoute.GetOrdersReply | src/app/api/orders/route.ts:11-33 | 401 without a session. Otherwise 200 with a newest-first list holding exactly the caller's orders, with the table's multiplicities, and no other user's |
| OrdersRoute.NoSessionExample | src/app/api/orders/route.test.ts:191-201 | No session gives 401 for POST and GET |
| OrdersRoute.EmptyItemsExample | src/app/api/orders/route.test.ts:202-223 | An empty items array gives 400 with the minimum-size message under "items", and no order |

## Left out

- Database isolation, the check-then-act race between pricing and placement, and Prisma's transaction internals. The cross-file lemmas assume pricing and placement see the same product table.
- In the POST orders route, the address read and the product read inside `processCart` are inputs that always succeed; their 500 reply is not modelled. Only the writes of `createOrderInDb` can fail there (as `fault`). The GET orders read can fail (`None`, answered with 500).
- next-auth and bcrypt. The session is an optional `(userId, admin)` input; an empty user id counts as no session.
- Zod's UUID, URL and email formats are parameters, not definitions.
- Floating-point money. Prices and totals are integer cents, so JavaScript rounding in `price.toNumber() * quantity` is not modelled.
- CartService.ExactCentTotal: states the exact cent total of the model. The source's float sum of three 10.10 lines is 30.299999999999997, not 30.30, so this lemma holds for the model and not for the source as written.
- The row order of Prisma's `findMany` without `orderBy` is undefined. `CartService.FindMany` returns rows in table order, and no property depends on that order.
- String lengths are counted in Dafny characters, not UTF-16 code units.
- Numbers are unbounded. JavaScript's safe-integer range is not modelled.
- The network part of `fetchCep`. The request is the parameter `fetch`; a fetch that rejects and a body that is not JSON are not modelled.
- All rendering, toasts, the `persist` middleware of the cart store, and the quantity input's `Number(e.target.value)`, which can give non-integer or NaN quantities.
- How Prisma treats a NaN or negative `skip`/`take`, a sort field that is no column, and an undefined sort direction. The model only states the arguments it is given.
- `parseInt` treats as white space the ASCII spaces, no-break space, BOM and line/paragraph separators. Other Unicode space separators are not modelled.
- The GET orders `include` of order lines and products; orders are returned without them.
- The relative order of orders with equal `createdAt`.
- `getAddressesByUserId`, `deleteAddress`, `createAddress` and `getOrdersByUser`: fetch and database wrappers with no logic of their own.
- The email and password rules of `loginSchema` and the address schemas: they are not part of this model.
- The `errorHandler` logging; only its 500 reply is modelled.

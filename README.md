# Ecommerce-API order core in Dafny

This project models the service layer of the Ecommerce-API Spring Boot shop and proves properties of that model. The service layer has four parts:

- **The order service.** It places an order for a customer identified by e-mail. It prices every line from the product's current price and sums the subtotals into the total. It then decides, all or nothing, between PENDING (some line is short of stock, and no stock moves) and CONFIRMED (every line's stock is decremented, one edit at a time). It also edits an order's status by a case-insensitive name and cancels an order, giving stock back when the order is CONFIRMED or CREATED.
- **The product table.** It offers create with a SKU check, lookups by key and by SKU, a full edit, and `editStock`, which refuses negative values and through which every stock change of the order service passes.
- **The customer and category tables.** These are small uniqueness-checked tables with lookups and edits.

Modules follow the source:

- `Base` holds the failures (NotFound, BadRequest and Conflict are the HTTP statuses the services throw), a failure-compatible `Result`, Java's 32-bit int, and the two kinds of repository lookup.
- `OrderStatuses` holds the five order statuses, their names, and the two status decisions.
- `Entities` holds the persisted records, the request records, the constructor defaults and the declared field constraints.
- `CategoryServices`, `CustomerServices` and `ProductServices` each hold a class over a `map` table, plus the functions that specify its lookups.
- `OrderRules` states `createNewOrder` and `deleteOrder` as functions of the tables they read, together with the lemmas about them.
- `OrderServices` holds the class `OrderService`, whose loops are proved to compute exactly what `OrderRules` states.

Modelling choices:

- **Money.** Money is `BigDecimal` with scale 2, so it is an integer number of cents here.
- **Stock and quantity.** These are Java `Integer`s. The arithmetic on them (`stock - quantity` when placing, `stock + quantity` when cancelling) wraps to 32 bits. A wrapped, negative target is refused by `editStock`.
- **Transactions.** Every `@Transactional` method is all or nothing. On any failure the model restores every table it touched, including the early save of the CREATED order.
- **Single-row lookups.** A derived single-row query (`findBySku`, `findByEmail`, `findByDocument`, `findByName`) finds no row (NotFound), one row, or several rows (`NonUniqueResult`).
  - Several rows can happen for categories: `editCategory` does not re-check the name, and `Category.java` declares no unique name.
  - For customers this model can also reach several rows: `editCustomer` does not re-check either. But the model leaves out the unique column constraints on e-mail and document (`Customer.java:28`, `Customer.java:34`). With those constraints the database refuses such a save, so the program never stores a second row.
  - For products several rows cannot happen while the SKU-uniqueness invariant holds. Every write to the product table preserves it: `CreateNewProduct`, `EditProduct`, `EditStock`, and the stock edits of placing and cancelling an order (`MoveStockKeepsSkusUnique`, and the ensures of `CreateNewOrder` and `DeleteOrder`).
- **Entity constraints.** Saving an entity enforces its declared constraints (Bean Validation at persist). This concerns the order items and the categories. A refused save is the `InvalidEntity` failure.
- **Product references.** An item's product reference is required (`OrderItem.java:36-38`), and no service deletes a product. `ItemsReferenceProducts` states that every stored line references a stored product. Every writer of the product table keeps its keys (`CreateNewProduct`, `EditProduct` and `EditStock` ensure the keys only grow; `KeyGrowthKeepsReferences`), and placing and cancelling an order keep the references (the ensures of `CreateNewOrder`, `EditStatusOrder` and `DeleteOrder`). While they hold, a cancellation never fails for a missing product (`ReferencedCancelFindsProducts`).
- **Repository methods.** The services call the customer repository's `findByEmail` and `findByDocument` and the category repository's `findByName`. The repository interfaces in the source declare only `findByEmailAndIsActiveTrue`, `findByDocumentAndIsActiveTrue` and `findByNameAndIsActiveTrue`. The model follows the service code: the lookups range over every row. No modelled operation ever makes a row inactive, so the two readings agree on every table the model can build.
- **Duplicate SKUs in one order.** The sufficiency check runs against the stock read before any decrement, but each decrement reads the stock the earlier ones left. So two lines of one SKU can both pass the check while the second decrement goes negative. That decrement aborts the whole order (`DuplicateSkuAbortsOrder`, `DuplicateSkuExample`).

## Model

Source cells give paths relative to the repository root.

| member | source | states |
|---|---|---|
| Base.Wrap32 | ecommerce/src/main/java/com/erikm/ecommerce/service/OrderService.java:148-151 | Java int addition and subtraction: the exact value when it fits 32 bits, otherwise shifted by 2^32 into the int range |
| Base.SingleRow | ecommerce/src/main/java/com/erikm/ecommerce/repository/ProductRepository.java:15 | a single-row derived query succeeds exactly when one row matches and returns that row; no match is NotFound, two or more are NonUniqueResult, and there is no other failure |
| Base.FindById | ecommerce/src/main/java/com/erikm/ecommerce/service/OrderService.java:163-166 | a lookup by primary key returns the stored row exactly when the key is present, else NotFound |
| OrderStatuses.Name | ecommerce/src/main/java/com/erikm/ecommerce/service/OrderService.java:118 | the name under which a status is stored and reported; NamesAreUpperCase and NamesAreDistinct state that names are upper case and tell the statuses apart |
| OrderStatuses.IsTerminal | ecommerce/src/main/java/com/erikm/ecommerce/service/OrderService.java:116 | DELIVERED and CANCELLED, the two statuses from which EditStatus and CancelDecision both refuse (TerminalIsSticky) |
| OrderStatuses.UpperAscii | ecommerce/src/main/java/com/erikm/ecommerce/service/OrderService.java:124 | upper-casing maps each lower-case ASCII letter to its upper-case counterpart (code point 32 lower), leaves no lower-case letter, and keeps every other character |
| OrderStatuses.ToUpper | ecommerce/src/main/java/com/erikm/ecommerce/service/OrderService.java:124 | `toUpperCase` keeps the length and upper-cases each character in place |
| OrderStatuses.NamesAreUpperCase | ecommerce/src/main/java/com/erikm/ecommerce/service/OrderService.java:124 | every status name is its own upper-case form |
| OrderStatuses.NamesAreDistinct | ecommerce/src/main/java/com/erikm/ecommerce/model/Order.java:36-38 | statuses are stored by name, and two statuses with the same name are the same status |
| OrderStatuses.ParseStatus | ecommerce/src/main/java/com/erikm/ecommerce/service/OrderService.java:124-129 | `valueOf(toUpperCase(s))` yields the status whose name is the upper-cased request, and fails exactly when no status has that name |
| OrderStatuses.ParseName | ecommerce/src/main/java/com/erikm/ecommerce/service/OrderService.java:124 | every status parses back from its own name |
| OrderStatuses.ParseIgnoresCase | ecommerce/src/main/java/com/erikm/ecommerce/service/OrderService.java:124 | any spelling that upper-cases to a status name, such as "confirmed", parses to that status |
| OrderStatuses.BogusIsUnknown | ecommerce/src/main/java/com/erikm/ecommerce/service/OrderService.java:126-129 | an unknown name such as "bogus" does not parse |
| OrderStatuses.EditStatus | ecommerce/src/main/java/com/erikm/ecommerce/service/OrderService.java:116-133 | from DELIVERED or CANCELLED it is BadRequest naming the status, checked before parsing; otherwise it succeeds exactly when the name parses, with the parsed status whatever the current one is; an unknown name is BadRequest |
| OrderStatuses.CancelDecision | ecommerce/src/main/java/com/erikm/ecommerce/service/OrderService.java:144-157 | stock goes back exactly from CONFIRMED or CREATED; PENDING cancels without stock; DELIVERED and CANCELLED, and only those, fail with BadRequest naming the status |
| OrderStatuses.TerminalIsSticky | ecommerce/src/main/java/com/erikm/ecommerce/service/OrderService.java:116-119 | from DELIVERED or CANCELLED both the status edit and the cancellation fail, whatever name is requested |
| Entities.NewCategory | ecommerce/src/main/java/com/erikm/ecommerce/model/Category.java:34-36 | a new category is active |
| Entities.NewCustomer | ecommerce/src/main/java/com/erikm/ecommerce/model/Customer.java:37-38 | a new customer is active |
| Entities.NewProduct | ecommerce/src/main/java/com/erikm/ecommerce/model/Product.java:35-46 | a new product has stock 0 and is active |
| Entities.NewOrder | ecommerce/src/main/java/com/erikm/ecommerce/model/Order.java:50-54 | a freshly constructed order is PENDING |
| Entities.CategoryWith | ecommerce/src/main/java/com/erikm/ecommerce/service/CategoryService.java:70-71 | the edit overwrites name and description and keeps key and active flag; CategoryService.EditCategory states the stored result |
| Entities.CustomerWith | ecommerce/src/main/java/com/erikm/ecommerce/service/CustomerService.java:76-80 | the edit overwrites the five customer fields and keeps the active flag; CustomerService.EditCustomer states the stored result |
| Entities.ProductWith | ecommerce/src/main/java/com/erikm/ecommerce/service/ProductService.java:84-88 | the setters overwrite name, description, price, stock and category and keep SKU and active flag; ProductService.EditProduct states the stored result |
| Entities.CategoryValid | ecommerce/src/main/java/com/erikm/ecommerce/model/Category.java:25-32 | the declared category constraints that CreateNewCategory and EditCategory enforce with InvalidEntity |
| Entities.ItemValid | ecommerce/src/main/java/com/erikm/ecommerce/model/OrderItem.java:40-53 | the declared item constraints that the item save enforces; ValidPricedItemHasPositiveQuantity and PlaceOrderEarlyFailures state their effect on an order |
| Entities.ValidPricedItemHasPositiveQuantity | ecommerce/src/main/java/com/erikm/ecommerce/model/OrderItem.java:40-53 | for an item whose subtotal is price times quantity, the declared constraints (quantity ≥ 0, unit price and subtotal ≥ 0.01) force a quantity of at least 1, so a zero-quantity line is refused |
| CategoryServices.FindCategoryById | ecommerce/src/main/java/com/erikm/ecommerce/service/CategoryService.java:53-57 | the stored category exactly when the key is present, else NotFound |
| CategoryServices.NameMatches | ecommerce/src/main/java/com/erikm/ecommerce/service/CategoryService.java:59-63 | the rows the name query matches: exactly the stored categories with that name |
| CategoryServices.FindCategoryByName | ecommerce/src/main/java/com/erikm/ecommerce/service/CategoryService.java:59-63 | success returns the one stored category with that name; NotFound exactly when no category has the name; NonUniqueResult exactly when two or more do |
| CategoryServices.LookupWithUniqueNames | ecommerce/src/main/java/com/erikm/ecommerce/service/CategoryService.java:59-63 | while names are unique, the name lookup succeeds exactly when some category has the name |
| CategoryServices.FreshNameKeepsNamesUnique | ecommerce/src/main/java/com/erikm/ecommerce/service/CategoryService.java:32-43 | storing a category whose name nobody has, under a fresh key, keeps names unique |
| CategoryServices.CategoryService.constructor | ecommerce/src/main/java/com/erikm/ecommerce/service/CategoryService.java:25-28 | the table starts empty and valid |
| CategoryServices.CategoryService.CreateNewCategory | ecommerce/src/main/java/com/erikm/ecommerce/service/CategoryService.java:30-44 | a name the lookup finds is Conflict with nothing saved; a name or description breaking the declared constraints is InvalidEntity; success exactly otherwise, storing an active category with the request's name and description under a fresh key; unique names stay unique, and with unique names a taken name is always Conflict |
| CategoryServices.CategoryService.EditCategory | ecommerce/src/main/java/com/erikm/ecommerce/service/CategoryService.java:65-74 | an unknown key is NotFound; fields breaking the constraints are InvalidEntity with nothing changed; otherwise name and description are overwritten, the active flag is kept, and no other row changes |
| CategoryServices.EditCanMakeNameAmbiguous | ecommerce/src/main/java/com/erikm/ecommerce/service/CategoryService.java:65-74 | the edit does not re-check the name: renaming a category to another's name breaks uniqueness, and the lookup by that name then fails with NonUniqueResult |
| CustomerServices.EmailMatches | ecommerce/src/main/java/com/erikm/ecommerce/service/CustomerService.java:65-69 | the rows the e-mail query matches: exactly the stored customers with that e-mail |
| CustomerServices.DocumentMatches | ecommerce/src/main/java/com/erikm/ecommerce/service/CustomerService.java:30 | the rows the document query matches: exactly the stored customers with that document |
| CustomerServices.FindCustomerById | ecommerce/src/main/java/com/erikm/ecommerce/service/CustomerService.java:59-63 | the stored customer exactly when the key is present, else NotFound |
| CustomerServices.FindCustomerByEmail | ecommerce/src/main/java/com/erikm/ecommerce/service/CustomerService.java:65-69 | success returns the one stored customer with that e-mail; NotFound exactly when no customer has it; NonUniqueResult exactly when two or more do |
| CustomerServices.FindCustomerByDocument | ecommerce/src/main/java/com/erikm/ecommerce/service/CustomerService.java:30 | success returns the one stored customer with that document; NotFound exactly when no customer has it; NonUniqueResult exactly when two or more do |
| CustomerServices.AdmitCustomer | ecommerce/src/main/java/com/erikm/ecommerce/service/CustomerService.java:30-41 | the checks before the save pass exactly when neither the e-mail nor the document is taken; NonUniqueResult exactly when either query is ambiguous; otherwise a found e-mail is the e-mail Conflict, and a found document with a fresh e-mail is the document Conflict |
| CustomerServices.EmailConflictWins | ecommerce/src/main/java/com/erikm/ecommerce/service/CustomerService.java:33-41 | when both the e-mail and the document are found, the e-mail Conflict is reported |
| CustomerServices.FreshCustomerKeepsUnique | ecommerce/src/main/java/com/erikm/ecommerce/service/CustomerService.java:43-50 | storing a customer whose e-mail and document nobody has, under a fresh key, keeps e-mails and documents unique |
| CustomerServices.CustomerService.constructor | ecommerce/src/main/java/com/erikm/ecommerce/service/CustomerService.java:23-26 | the table starts empty and valid |
| CustomerServices.CustomerService.CreateNewCustomer | ecommerce/src/main/java/com/erikm/ecommerce/service/CustomerService.java:28-51 | fails exactly when AdmitCustomer fails, with its error and nothing saved; otherwise stores an active customer with the request's five fields under a fresh key; unique e-mails and unique documents stay unique |
| CustomerServices.CustomerService.EditCustomer | ecommerce/src/main/java/com/erikm/ecommerce/service/CustomerService.java:71-84 | an unknown key is NotFound with nothing changed; otherwise the five fields are overwritten, the active flag is kept, and no other row changes |
| CustomerServices.EditCanMakeEmailAmbiguous | ecommerce/src/main/java/com/erikm/ecommerce/service/CustomerService.java:71-84 | in this model, which leaves out the unique column constraints of Customer.java:28 and :34, the edit does not re-check: giving a customer another's e-mail breaks uniqueness, and the lookup by that e-mail then fails with NonUniqueResult |
| ProductServices.SkuMatches | ecommerce/src/main/java/com/erikm/ecommerce/service/ProductService.java:60-64 | the rows the SKU query matches: exactly the stored products with that SKU |
| ProductServices.FindProductById | ecommerce/src/main/java/com/erikm/ecommerce/service/ProductService.java:54-58 | the stored product exactly when the key is present, else NotFound |
| ProductServices.FindProductBySku | ecommerce/src/main/java/com/erikm/ecommerce/service/ProductService.java:60-64 | success returns the one stored product with that SKU; NotFound exactly when no product has it; NonUniqueResult exactly when two or more do |
| ProductServices.LookupWithUniqueSkus | ecommerce/src/main/java/com/erikm/ecommerce/model/Product.java:42-43 | with unique SKUs the SKU lookup succeeds exactly when some product has the SKU |
| ProductServices.SetStock | ecommerce/src/main/java/com/erikm/ecommerce/service/ProductService.java:93-105 | a negative value is BadRequest before any lookup; an unknown key is NotFound; success exactly otherwise, with that product's stock set to the value (so ≥ 0) and every other field and product unchanged |
| ProductServices.SameSkuUpdateKeepsSkusUnique | ecommerce/src/main/java/com/erikm/ecommerce/service/ProductService.java:84-90 | overwriting a product while keeping its SKU keeps SKUs unique |
| ProductServices.FreshSkuKeepsSkusUnique | ecommerce/src/main/java/com/erikm/ecommerce/service/ProductService.java:43-51 | storing a product whose SKU nobody has, under a fresh key, keeps SKUs unique |
| ProductServices.SetStockKeepsSkusUnique | ecommerce/src/main/java/com/erikm/ecommerce/service/ProductService.java:103-104 | a stock edit keeps SKUs unique |
| ProductServices.ProductService.constructor | ecommerce/src/main/java/com/erikm/ecommerce/service/ProductService.java:25-30 | the table starts empty and valid |
| ProductServices.ProductService.CreateNewProduct | ecommerce/src/main/java/com/erikm/ecommerce/service/ProductService.java:32-52 | a SKU the lookup finds is Conflict before the category lookup; an unresolved category name is that lookup's failure; success exactly when the SKU is free and the category resolves, storing the request's fields, active, under a fresh key; nothing changes on failure; unique SKUs stay unique, and with unique SKUs a taken SKU is always Conflict; product keys only grow |
| ProductServices.ProductService.EditProduct | ecommerce/src/main/java/com/erikm/ecommerce/service/ProductService.java:77-91 | an unknown key is NotFound, then an unresolved category is that lookup's failure; success exactly when the key exists and the category resolves, and then name, description, price, stock (unchecked for negativity) and category are overwritten, SKU and active flag kept; unique SKUs stay unique; product keys only grow |
| ProductServices.ProductService.EditStock | ecommerce/src/main/java/com/erikm/ecommerce/service/ProductService.java:93-105 | the table becomes what SetStock gives and the saved product is returned; on SetStock's failure the table is unchanged and its error returned; product keys only grow |
| OrderRules.FindOrderById | ecommerce/src/main/java/com/erikm/ecommerce/service/OrderService.java:163-166 | the stored order exactly when the key is present, else NotFound |
| OrderRules.OrdersOfCustomer | ecommerce/src/main/java/com/erikm/ecommerce/service/OrderService.java:168-172 | NotFound exactly when the customer is unknown; otherwise exactly the orders of that customer |
| OrderRules.LineFor | ecommerce/src/main/java/com/erikm/ecommerce/service/OrderService.java:75-80 | the item built for one request: it belongs to the order, references the resolved product, copies the quantity, snapshots the current price, and has subtotal price times quantity; PriceLines states this as PricedFrom for every line |
| OrderRules.PriceLines | ecommerce/src/main/java/com/erikm/ecommerce/service/OrderService.java:66-84 | succeeds exactly when every requested SKU resolves, with one line per request referencing the SKU's product, the requested quantity, the product's current price and the subtotal price times quantity |
| OrderRules.PriceLinesExtends | ecommerce/src/main/java/com/erikm/ecommerce/service/OrderService.java:66-84 | pricing one more request appends that request's line |
| OrderRules.FirstUnresolvedSkuAborts | ecommerce/src/main/java/com/erikm/ecommerce/service/OrderService.java:68 | the first SKU that does not resolve aborts the pricing with that lookup's failure |
| OrderRules.Total | ecommerce/src/main/java/com/erikm/ecommerce/service/OrderService.java:83 | the running sum of subtotals; TotalAppend, TotalIsOrderIndependent and PriceRequests state its meaning and that the loop computes it |
| OrderRules.TotalAppend | ecommerce/src/main/java/com/erikm/ecommerce/service/OrderService.java:83 | the total of concatenated lines is the sum of their totals |
| OrderRules.TotalIsOrderIndependent | ecommerce/src/main/java/com/erikm/ecommerce/service/OrderService.java:83-88 | any rearrangement of the lines (the same multiset of lines) has the same total |
| OrderRules.IsShort | ecommerce/src/main/java/com/erikm/ecommerce/service/OrderService.java:70 | one line asks for more than its product's stock as read before any decrement |
| OrderRules.AnyShort | ecommerce/src/main/java/com/erikm/ecommerce/service/OrderService.java:64-73 | the `hasInsufficientStock` flag; AnyShortMeans states it is set exactly when some line IsShort |
| OrderRules.AnyShortMeans | ecommerce/src/main/java/com/erikm/ecommerce/service/OrderService.java:64-73 | the shortage flag is set exactly when some line's quantity exceeds its product's stock as read before any decrement |
| OrderRules.AppendLine | ecommerce/src/main/java/com/erikm/ecommerce/service/OrderService.java:70-83 | each line adds its subtotal to the running total and may set, never clear, the shortage flag |
| OrderRules.AllValid | ecommerce/src/main/java/com/erikm/ecommerce/service/OrderService.java:87 | the item constraints of OrderItem.java:40-53 on every line, which the `saveAll` of the items enforces; PlaceOrderEarlyFailures states that a breach is InvalidEntity |
| OrderRules.StockTarget | ecommerce/src/main/java/com/erikm/ecommerce/service/OrderService.java:99 | the value sent to `editStock`: stock minus (or, at OrderService.java:151, plus) the quantity, exact when it fits the int range; an overflowing give-back is negative and an underflowing decrement positive |
| OrderRules.MoveOne | ecommerce/src/main/java/com/erikm/ecommerce/service/OrderService.java:99 | one line's stock edit: NotFound for a missing product, otherwise `editStock` of the current stock moved by the line's quantity in int arithmetic |
| OrderRules.MoveStock | ecommerce/src/main/java/com/erikm/ecommerce/service/OrderService.java:97-100 | the stock loops of placing and (OrderService.java:146-152) cancelling; its meaning is in the MoveStock* lemmas, DecrementIsExact, RestoreIsExact and RestoreWithinRangeSucceeds, and MoveStockFor computes it |
| OrderRules.MoveStockExtends | ecommerce/src/main/java/com/erikm/ecommerce/service/OrderService.java:97-100 | each edit of the loop reads the stock the earlier edits left |
| OrderRules.MoveStockStopsAtFailure | ecommerce/src/main/java/com/erikm/ecommerce/service/OrderService.java:97-100 | once an edit is refused, later lines are never reached and the run fails with that refusal |
| OrderRules.MoveStockKeepsSkusUnique | ecommerce/src/main/java/com/erikm/ecommerce/service/OrderService.java:97-100 | a successful run of stock edits changes no SKU, so unique SKUs stay unique |
| OrderRules.MoveOneShape | ecommerce/src/main/java/com/erikm/ecommerce/service/ProductService.java:103-104 | one successful edit sets only its product's stock, to 0 or more |
| OrderRules.MoveStockKeepsKeys | ecommerce/src/main/java/com/erikm/ecommerce/service/OrderService.java:97-100 | a successful run keeps the set of products, and every line's product exists |
| OrderRules.MoveStockOnlyMovesStock | ecommerce/src/main/java/com/erikm/ecommerce/service/OrderService.java:97-100 | a successful run changes only stock fields, and every stock it changes ends at 0 or more |
| OrderRules.MoveStockLeavesOthers | ecommerce/src/main/java/com/erikm/ecommerce/service/OrderService.java:97-100 | a successful run leaves every product on no line exactly as it was |
| OrderRules.MoveStockShape | ecommerce/src/main/java/com/erikm/ecommerce/service/OrderService.java:97-100 | the three facts above together |
| OrderRules.DecrementIsExact | ecommerce/src/main/java/com/erikm/ecommerce/service/OrderService.java:94-100 | when no line is short and the run succeeds, each product loses exactly the summed quantity of its lines |
| OrderRules.RestoreIsExact | ecommerce/src/main/java/com/erikm/ecommerce/service/OrderService.java:146-152 | a successful run of give-backs adds to each product exactly the summed quantity of its lines |
| OrderRules.DistinctFittingLinesDecrement | ecommerce/src/main/java/com/erikm/ecommerce/service/OrderService.java:94-100 | lines that fit and name pairwise different products are all decremented without refusal |
| OrderRules.PlacedOrder | ecommerce/src/main/java/com/erikm/ecommerce/service/OrderService.java:55-96 | the order as finally saved; PlacementIsConsistent states its customer, address, total and status |
| OrderRules.PlaceOrder | ecommerce/src/main/java/com/erikm/ecommerce/service/OrderService.java:44-53 | an unknown or ambiguous customer e-mail fails with the lookup's error before the items are examined; an empty item list is then BadRequest; the later outcomes are stated by the lemmas below |
| OrderRules.PricedOrderIsConsistent | ecommerce/src/main/java/com/erikm/ecommerce/service/OrderService.java:75-88 | the priced, validated lines make a consistent order: non-empty, each valid, belonging to the order, subtotal price times quantity, total their sum |
| OrderRules.AddOrderKeepsTablesConsistent | ecommerce/src/main/java/com/erikm/ecommerce/service/OrderService.java:87-103 | storing a consistent order and its lines under the next key keeps the order and item tables consistent |
| OrderRules.RestatusKeepsTablesConsistent | ecommerce/src/main/java/com/erikm/ecommerce/service/OrderService.java:131-132 | changing an order's status keeps the tables consistent |
| OrderRules.PlacementIsConsistent | ecommerce/src/main/java/com/erikm/ecommerce/service/OrderService.java:48-96 | a placed order belongs to the e-mail's customer, carries the shipping address, has one priced line per request and total the sum of subtotals, and is PENDING exactly when some line is short, CONFIRMED otherwise |
| OrderRules.PendingMovesNoStock | ecommerce/src/main/java/com/erikm/ecommerce/service/OrderService.java:90-93 | a PENDING order moves no stock |
| OrderRules.ConfirmedTakesExactStock | ecommerce/src/main/java/com/erikm/ecommerce/service/OrderService.java:94-101 | a CONFIRMED order takes from each product exactly the summed quantity of its lines and changes nothing else |
| OrderRules.PlacementKeepsStockNonNegative | ecommerce/src/main/java/com/erikm/ecommerce/service/OrderService.java:99 | placing an order leaves every stock it changes at 0 or more |
| OrderRules.DistinctFittingOrderIsConfirmed | ecommerce/src/main/java/com/erikm/ecommerce/service/OrderService.java:90-101 | with pairwise different SKUs, resolved lines that satisfy the item constraints and all fit give a CONFIRMED order |
| OrderRules.ShortOrderIsPending | ecommerce/src/main/java/com/erikm/ecommerce/service/OrderService.java:64-93 | when some line is short, the order is saved PENDING with its priced lines and the product table unchanged |
| OrderRules.FittingOrderIsDecided | ecommerce/src/main/java/com/erikm/ecommerce/service/OrderService.java:94-103 | when no line is short, a refused decrement aborts with its failure, and otherwise the order is saved CONFIRMED with the stock the decrements left |
| OrderRules.PlaceOrderEarlyFailures | ecommerce/src/main/java/com/erikm/ecommerce/service/OrderService.java:66-87 | an unresolved SKU fails with its lookup failure, and lines breaking the item constraints with InvalidEntity |
| OrderRules.PlaceOrderSucceedsIff | ecommerce/src/main/java/com/erikm/ecommerce/service/OrderService.java:44-104 | placing succeeds exactly when the customer resolves, items are given, every SKU resolves, the lines satisfy the item constraints, and some line is short or every decrement is accepted |
| OrderRules.LookupInSingleton | ecommerce/src/main/java/com/erikm/ecommerce/service/ProductService.java:60-64 | in a table of one product its SKU resolves to it |
| OrderRules.RepeatedRequestPricesTwice | ecommerce/src/main/java/com/erikm/ecommerce/service/OrderService.java:66-84 | a request repeated twice prices to the same line twice |
| OrderRules.RepeatedLineOverdraws | ecommerce/src/main/java/com/erikm/ecommerce/service/OrderService.java:97-100 | the same line twice, fitting once but not twice, is refused on the second decrement |
| OrderRules.DuplicateSkuAbortsOrder | ecommerce/src/main/java/com/erikm/ecommerce/service/OrderService.java:66-101 | two equal lines each fitting the pre-decrement stock but not together pass the shortage check, and the order fails with BadRequest rather than ending PENDING |
| OrderRules.DuplicateSkuExample | ecommerce/src/main/java/com/erikm/ecommerce/service/OrderService.java:66-101 | stock 5 and two lines of 3 of the same SKU abort the order with BadRequest |
| OrderRules.ItemsOf | ecommerce/src/main/java/com/erikm/ecommerce/service/OrderService.java:143 | the items `findAllByOrder` returns, none for an order without stored items |
| OrderRules.CancelOrder | ecommerce/src/main/java/com/erikm/ecommerce/service/OrderService.java:137-161 | an unknown order is NotFound; DELIVERED or CANCELLED is BadRequest naming the status; a refused give-back aborts with its failure; success exactly when the order exists, is not terminal, and, from CONFIRMED or CREATED, every give-back is accepted; the order is then CANCELLED |
| OrderRules.CancelRestoresStock | ecommerce/src/main/java/com/erikm/ecommerce/service/OrderService.java:144-152 | cancelling a CONFIRMED or CREATED order gives each product exactly the summed quantity of the order's lines for it and changes nothing else |
| OrderRules.RestoreWithinRangeSucceeds | ecommerce/src/main/java/com/erikm/ecommerce/service/OrderService.java:146-152 | give-backs of non-negative quantities to existing products are all accepted when every product on the lines starts at 0 or more and its stock plus what it gets back stays within the int maximum |
| OrderRules.CancelWithinRangeRestoresStock | ecommerce/src/main/java/com/erikm/ecommerce/service/OrderService.java:144-152 | under that range condition on the products of the order's lines, cancelling a CONFIRMED or CREATED order succeeds and gives each product exactly the summed quantity of its lines |
| OrderRules.CancelPendingMovesNoStock | ecommerce/src/main/java/com/erikm/ecommerce/service/OrderService.java:154-160 | cancelling a PENDING order succeeds and moves no stock |
| OrderRules.CancelKeepsStockNonNegative | ecommerce/src/main/java/com/erikm/ecommerce/service/OrderService.java:151 | a successful cancellation leaves every stock it changes at 0 or more |
| OrderRules.CancelTwiceFails | ecommerce/src/main/java/com/erikm/ecommerce/service/OrderService.java:154-157 | cancelling the result of a successful cancellation fails with BadRequest naming CANCELLED |
| OrderRules.RestoreOverflowAbortsCancel | ecommerce/src/main/java/com/erikm/ecommerce/service/OrderService.java:148-151 | stock 2147483646 plus 5 wraps negative in int arithmetic, `editStock` refuses it, and the cancellation fails |
| OrderRules.EditToConfirmedThenCancelAddsStock | ecommerce/src/main/java/com/erikm/ecommerce/service/OrderService.java:110-161 | the edit of a PENDING order to "confirmed" is accepted; that order, whose stock was never taken, when then cancelled still gives its quantities back, so its products' stock grows |
| OrderRules.ItemsReferenceProducts | ecommerce/src/main/java/com/erikm/ecommerce/model/OrderItem.java:36-38 | every stored line references a stored product, the required product reference of an item |
| OrderRules.KeyGrowthKeepsReferences | ecommerce/src/main/java/com/erikm/ecommerce/service/ProductService.java:32-105 | no product-table operation removes a key, and references to stored products stay valid while the keys only grow |
| OrderRules.PlacementKeepsReferences | ecommerce/src/main/java/com/erikm/ecommerce/service/OrderService.java:75-103 | the lines a placement stores reference products, and its stock edits keep every product key |
| OrderRules.CancelKeepsReferences | ecommerce/src/main/java/com/erikm/ecommerce/service/OrderService.java:143-152 | a cancellation keeps every product key, so the stored lines still reference products |
| OrderRules.StoredLinesReferenceProducts | ecommerce/src/main/java/com/erikm/ecommerce/service/OrderService.java:143-147 | the lines `findAllByOrder` returns for any order reference stored products |
| OrderRules.MoveStockOnStoredProducts | ecommerce/src/main/java/com/erikm/ecommerce/service/ProductService.java:93-105 | stock edits on lines whose products all exist are refused only with the negative-stock BadRequest |
| OrderRules.ReferencedCancelFindsProducts | ecommerce/src/main/java/com/erikm/ecommerce/service/OrderService.java:137-161 | while lines reference stored products, a cancellation fails only for an unknown order or with BadRequest, never for a missing product |
| OrderServices.OrderService.constructor | ecommerce/src/main/java/com/erikm/ecommerce/service/OrderService.java:34-42 | the service starts with empty order and item tables over the given customer and product services |
| OrderServices.OrderService.PriceRequests | ecommerce/src/main/java/com/erikm/ecommerce/service/OrderService.java:62-84 | the first loop computes exactly PriceLines, together with the shortage flag of those lines and their total |
| OrderServices.OrderService.MoveOneStock | ecommerce/src/main/java/com/erikm/ecommerce/service/OrderService.java:99 | one line's `editStock` leaves the product table as MoveOne gives, or unchanged with its error |
| OrderServices.OrderService.MoveStockFor | ecommerce/src/main/java/com/erikm/ecommerce/service/OrderService.java:97-100 | the stock loop leaves the product table as MoveStock gives; on a refused edit the table is rolled back and the error returned; unique SKUs stay unique |
| OrderServices.OrderService.CreateNewOrder | ecommerce/src/main/java/com/erikm/ecommerce/service/OrderService.java:44-104 | the tables end as PlaceOrder says, the order stored under the next key with its lines; on any failure no order, item or stock changes; the tables stay consistent; unique SKUs stay unique; stored lines keep referencing stored products |
| OrderServices.OrderService.EditStatusOrder | ecommerce/src/main/java/com/erikm/ecommerce/service/OrderService.java:110-134 | an unknown order is NotFound; otherwise the result is EditStatus's, the status is set to it on success and unchanged on failure; no stock, item or other order changes; stored lines keep referencing stored products |
| OrderServices.OrderService.DeleteOrder | ecommerce/src/main/java/com/erikm/ecommerce/service/OrderService.java:137-161 | the order and product tables end as CancelOrder says, the order kept CANCELLED with its items; on any failure nothing changes; unique SKUs stay unique; stored lines keep referencing stored products |

## Left out

- Controllers, the user and token services, DTO mapping, paging, list, search and price-range queries: routing, foreign libraries and database queries outside the service logic.
- Creation and update timestamps: they depend on the clock.
- Concurrency: each service method is one atomic step, modelled without interleavings. Spring's transaction machinery is reduced to "on failure, tables as on entry".
- Database constraints: the unique, length, precision and not-null column constraints. In particular the unique e-mail and document columns of customers are not enforced, so in this model `editCustomer` can store a duplicate that the database would refuse. Only the uniqueness the services check themselves is modelled, plus the Bean Validation constraints of order items and categories. String lengths count Dafny characters, not UTF-16 code units.
- Nulls: a null request field becomes the empty string, and a null item list is the empty list. A null quantity (a NullPointerException in the source) is not modelled.
- Primary keys: they come from a counter per table. The order key taken by the early save is handed back on rollback, whereas a database identity sequence would not reuse it. Item keys are not modelled; items are stored as the sequence `findAllByOrder` returns.
- Order status enum: its file is not part of this model. The five values are those the order service uses, and `toUpperCase` is ASCII upper-casing.
- CategoryServices.CategoryService.CreateNewCategory: the NotBlank check takes "blank" to mean every character is at most U+0020, as after Java's `trim`.

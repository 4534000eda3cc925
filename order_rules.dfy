/**
 * What the order service computes, as functions of the tables it reads:
 * the priced lines of a new order, its total, the all-or-nothing stock
 * decision, the sequential stock edits, and the cancellation. The methods
 * of OrderServices.OrderService are proved to do exactly this; the lemmas
 * here state what it means.
 */
module OrderRules {
  import opened Base
  import opened OrderStatuses
  import opened Entities
  import opened CustomerServices
  import opened ProductServices

  type Products = map<ProductId, Product>

  // ---------------------------------------------------------------------
  // Lookups of the order table

  /** `findOrderById`: the stored order, or NotFound. */
  function FindOrderById(orders: map<OrderId, Order>, id: OrderId): (r: Result<Order>)
    ensures r.Ok? <==> id in orders
    ensures r.Ok? ==> r.value == orders[id]
    ensures r.Err? ==> r.error == NotFound(OrderNotFound)
  {
    FindById(orders, id, OrderNotFound)
  }

  /**
   * `findOrdersByCustomerId`: NotFound for an unknown customer, otherwise
   * the keys of that customer's orders (paging is not modelled).
   */
  function OrdersOfCustomer(customers: map<CustomerId, Customer>, orders: map<OrderId, Order>, customerId: CustomerId)
    : (r: Result<set<OrderId>>)
    ensures r.Err? <==> customerId !in customers
    ensures r.Err? ==> r.error == NotFound(CustomerNotFound)
    ensures r.Ok? ==> forall id :: id in r.value <==> id in orders && orders[id].customerId == customerId
  {
    var _ :- FindCustomerById(customers, customerId);
    Ok(set id | id in orders && orders[id].customerId == customerId)
  }

  // ---------------------------------------------------------------------
  // Pricing

  /** The line built for one request from the product its SKU resolved to. */
  function LineFor(orderId: OrderId, product: Row<Product>, quantity: Int32): OrderItem
  {
    OrderItem(orderId, product.id, quantity, product.entity.price, product.entity.price * quantity)
  }

  /**
   * `it` is the line for request `req`: it references the product the SKU
   * resolves to, copies the quantity, snapshots the product's current
   * price, and its subtotal is that price times the quantity.
   */
  predicate PricedFrom(products: Products, orderId: OrderId, req: ItemRequest, it: OrderItem)
  {
    && it.orderId == orderId
    && it.productId in products
    && products[it.productId].sku == req.sku
    && it.quantity == req.quantity
    && it.unitPrice == products[it.productId].price
    && it.subtotal == it.unitPrice * it.quantity
  }

  /**
   * The first loop of `createNewOrder`: each requested SKU is resolved in
   * order and priced; the first SKU that does not resolve aborts with its
   * lookup failure.
   */
  function PriceLines(products: Products, orderId: OrderId, requests: seq<ItemRequest>): (r: Result<seq<OrderItem>>)
    ensures r.Ok? <==> forall i :: 0 <= i < |requests| ==> FindProductBySku(products, requests[i].sku).Ok?
    ensures r.Ok? ==> |r.value| == |requests|
    ensures r.Ok? ==> forall i :: 0 <= i < |requests| ==> PricedFrom(products, orderId, requests[i], r.value[i])
    decreases |requests|
  {
    if requests == [] then
      Ok([])
    else
      var n := |requests| - 1;
      assert forall i :: 0 <= i < n ==> requests[..n][i] == requests[i];
      var init :- PriceLines(products, orderId, requests[..n]);
      var product :- FindProductBySku(products, requests[n].sku);
      Ok(init + [LineFor(orderId, product, requests[n].quantity)])
  }

  /** Pricing one more request appends its line to the lines priced so far. */
  lemma PriceLinesExtends(products: Products, orderId: OrderId, requests: seq<ItemRequest>, k: nat)
    requires k < |requests|
    requires PriceLines(products, orderId, requests[..k]).Ok?
    requires FindProductBySku(products, requests[k].sku).Ok?
    ensures PriceLines(products, orderId, requests[..k + 1])
            == Ok(PriceLines(products, orderId, requests[..k]).value
                  + [LineFor(orderId, FindProductBySku(products, requests[k].sku).value, requests[k].quantity)])
  {
    assert requests[..k + 1][..k] == requests[..k];
  }

  /**
   * Pricing stops at the first SKU that does not resolve: when every earlier
   * request priced, the whole list fails with that SKU's lookup failure.
   */
  lemma {:induction false} FirstUnresolvedSkuAborts(products: Products, orderId: OrderId, requests: seq<ItemRequest>, k: nat)
    requires k < |requests|
    requires PriceLines(products, orderId, requests[..k]).Ok?
    requires FindProductBySku(products, requests[k].sku).Err?
    ensures PriceLines(products, orderId, requests) == Err(FindProductBySku(products, requests[k].sku).error)
    decreases |requests|
  {
    var n := |requests| - 1;
    if k == n {
      assert requests[..n] == requests[..k];
    } else {
      assert requests[..n][..k] == requests[..k];
      assert requests[..n][k] == requests[k];
      FirstUnresolvedSkuAborts(products, orderId, requests[..n], k);
    }
  }

  /** The order total: the running sum of the subtotals, in line order. */
  function Total(lines: seq<OrderItem>): Cents
  {
    if lines == [] then 0 else Total(lines[..|lines| - 1]) + lines[|lines| - 1].subtotal
  }

  /** Summing is split-wise: the total of a concatenation is the sum of the totals. */
  lemma {:induction false} TotalAppend(a: seq<OrderItem>, b: seq<OrderItem>)
    ensures Total(a + b) == Total(a) + Total(b)
    decreases |b|
  {
    if b == [] {
      assert a + b == a;
    } else {
      var n := |b| - 1;
      assert (a + b)[..|a + b| - 1] == a + b[..n];
      TotalAppend(a, b[..n]);
    }
  }

  /** The total does not depend on the order of the lines: any rearrangement of them has the same total. */
  lemma {:induction false} TotalIsOrderIndependent(a: seq<OrderItem>, b: seq<OrderItem>)
    requires multiset(a) == multiset(b)
    ensures Total(a) == Total(b)
    decreases |a|
  {
    if a == [] {
      assert |b| == |multiset(b)| == 0;
    } else {
      var n := |a| - 1;
      var x := a[n];
      assert a == a[..n] + [x];
      assert x in multiset(b);
      var j :| 0 <= j < |b| && b[j] == x;
      var rest := b[..j] + b[j + 1..];
      assert b == b[..j] + [x] + b[j + 1..];
      assert multiset(rest) == multiset(a[..n]) by {
        assert multiset(b) == multiset(b[..j]) + multiset{x} + multiset(b[j + 1..]);
        assert multiset(rest) == multiset(b[..j]) + multiset(b[j + 1..]);
        assert multiset(rest) == multiset(b) - multiset{x};
        assert multiset(a) == multiset(a[..n]) + multiset{x};
        assert multiset(a[..n]) == multiset(a) - multiset{x};
      }
      TotalIsOrderIndependent(a[..n], rest);
      TotalAppend(b[..j] + [x], b[j + 1..]);
      TotalAppend(b[..j], [x]);
      TotalAppend(b[..j], b[j + 1..]);
      assert Total([x]) == x.subtotal by {
        assert [x][..0] == [];
      }
    }
  }

  /** The summed quantity of the lines for product `id`. */
  function QtyFor(lines: seq<OrderItem>, id: ProductId): int
  {
    if lines == [] then 0
    else QtyFor(lines[..|lines| - 1], id) + (if lines[|lines| - 1].productId == id then lines[|lines| - 1].quantity else 0)
  }

  predicate OnSomeLine(lines: seq<OrderItem>, id: ProductId)
  {
    exists i :: 0 <= i < |lines| && lines[i].productId == id
  }

  // ---------------------------------------------------------------------
  // The stock decision

  /** The check of one line against the product's stock as it was before any decrement. */
  predicate IsShort(products: Products, it: OrderItem)
  {
    it.productId in products && products[it.productId].stockQuantity < it.quantity
  }

  /** The `hasInsufficientStock` flag after the first loop. */
  function AnyShort(products: Products, lines: seq<OrderItem>): bool
  {
    if lines == [] then false
    else AnyShort(products, lines[..|lines| - 1]) || IsShort(products, lines[|lines| - 1])
  }

  /** The flag is set exactly when some line asks for more than its product's stock. */
  lemma {:induction false} AnyShortMeans(products: Products, lines: seq<OrderItem>)
    ensures AnyShort(products, lines) <==> exists i :: 0 <= i < |lines| && IsShort(products, lines[i])
    decreases |lines|
  {
    if lines != [] {
      var n := |lines| - 1;
      assert forall i :: 0 <= i < n ==> lines[..n][i] == lines[i];
      AnyShortMeans(products, lines[..n]);
    }
  }

  /** The running total and the shortage flag extend line by line. */
  lemma AppendLine(products: Products, lines: seq<OrderItem>, line: OrderItem)
    ensures Total(lines + [line]) == Total(lines) + line.subtotal
    ensures AnyShort(products, lines + [line]) == (AnyShort(products, lines) || IsShort(products, line))
  {
    assert (lines + [line])[..|lines|] == lines;
  }

  /** The declared item constraints, which the save of the items enforces. */
  predicate AllValid(lines: seq<OrderItem>)
  {
    forall i :: 0 <= i < |lines| ==> ItemValid(lines[i])
  }

  /**
   * The value a line asks `editStock` to set: the current stock minus (or,
   * on cancellation, plus) the line's quantity, in Java int arithmetic.
   */
  function StockTarget(current: Int32, quantity: Int32, giveBack: bool): (r: Int32)
    ensures giveBack && MinInt32 <= current + quantity <= MaxInt32 ==> r == current + quantity
    ensures giveBack && current + quantity > MaxInt32 ==> r < 0
    ensures !giveBack && MinInt32 <= current - quantity <= MaxInt32 ==> r == current - quantity
    ensures !giveBack && current - quantity < MinInt32 ==> r > 0
  {
    if giveBack then Wrap32(current + quantity) else Wrap32(current - quantity)
  }

  /** One line's stock edit: the product's current stock moved by the line's quantity. */
  function MoveOne(products: Products, it: OrderItem, giveBack: bool): (r: Result<Products>)
    ensures it.productId !in products ==> r == Err(NotFound(ProductNotFound))
    ensures it.productId in products ==>
              r == SetStock(products, it.productId, StockTarget(products[it.productId].stockQuantity, it.quantity, giveBack))
  {
    var product :- FindProductById(products, it.productId);
    SetStock(products, it.productId, StockTarget(product.stockQuantity, it.quantity, giveBack))
  }

  /**
   * The stock loops of `createNewOrder` and `deleteOrder`: one `editStock`
   * per line, in order, each reading the stock as the earlier lines left it.
   * The first refused edit aborts.
   */
  function MoveStock(products: Products, lines: seq<OrderItem>, giveBack: bool): (r: Result<Products>)
    decreases |lines|
  {
    if lines == [] then
      Ok(products)
    else
      var now :- MoveStock(products, lines[..|lines| - 1], giveBack);
      MoveOne(now, lines[|lines| - 1], giveBack)
  }

  /** Extending a run of stock edits by the next line is that line's edit on the run's result. */
  lemma MoveStockExtends(products: Products, lines: seq<OrderItem>, i: nat, giveBack: bool)
    requires i < |lines|
    requires MoveStock(products, lines[..i], giveBack).Ok?
    ensures MoveStock(products, lines[..i + 1], giveBack)
            == MoveOne(MoveStock(products, lines[..i], giveBack).value, lines[i], giveBack)
  {
    assert lines[..i + 1][..i] == lines[..i];
  }

  /** A run of stock edits that fails on a prefix of the lines fails the same way on all of them: later lines are never reached. */
  lemma {:induction false} MoveStockStopsAtFailure(products: Products, lines: seq<OrderItem>, k: nat, giveBack: bool)
    requires k <= |lines|
    requires MoveStock(products, lines[..k], giveBack).Err?
    ensures MoveStock(products, lines, giveBack) == MoveStock(products, lines[..k], giveBack)
    decreases |lines|
  {
    if k == |lines| {
      assert lines[..k] == lines;
    } else {
      var n := |lines| - 1;
      assert lines[..n][..k] == lines[..k];
      MoveStockStopsAtFailure(products, lines[..n], k, giveBack);
    }
  }

  /**
   * A successful run of stock edits changes nothing but stock, touches only
   * the products on the lines, and leaves every stock it changes at 0 or more.
   */
  lemma MoveStockShape(products: Products, lines: seq<OrderItem>, giveBack: bool)
    requires MoveStock(products, lines, giveBack).Ok?
    ensures var after := MoveStock(products, lines, giveBack).value;
            && after.Keys == products.Keys
            && (forall i :: 0 <= i < |lines| ==> lines[i].productId in products)
            && (forall id :: id in products ==> after[id] == products[id].(stockQuantity := after[id].stockQuantity))
            && (forall id :: id in products ==>
                  after[id].stockQuantity == products[id].stockQuantity || after[id].stockQuantity >= 0)
            && (forall id :: id in products && !OnSomeLine(lines, id) ==> after[id] == products[id])
  {
    MoveStockKeepsKeys(products, lines, giveBack);
    MoveStockOnlyMovesStock(products, lines, giveBack);
    MoveStockLeavesOthers(products, lines, giveBack);
  }

  /** A successful run keeps the product keys, and every line's product exists. */
  lemma {:induction false} MoveStockKeepsKeys(products: Products, lines: seq<OrderItem>, giveBack: bool)
    requires MoveStock(products, lines, giveBack).Ok?
    ensures MoveStock(products, lines, giveBack).value.Keys == products.Keys
    ensures forall i :: 0 <= i < |lines| ==> lines[i].productId in products
    decreases |lines|
  {
    if lines != [] {
      var n := |lines| - 1;
      assert forall i :: 0 <= i < n ==> lines[..n][i] == lines[i];
      MoveStockKeepsKeys(products, lines[..n], giveBack);
      MoveOneShape(MoveStock(products, lines[..n], giveBack).value, lines[n], giveBack);
    }
  }

  /** A successful run changes only stock, and each stock it changes ends at 0 or more. */
  lemma {:induction false} MoveStockOnlyMovesStock(products: Products, lines: seq<OrderItem>, giveBack: bool)
    requires MoveStock(products, lines, giveBack).Ok?
    ensures var after := MoveStock(products, lines, giveBack).value;
            forall id :: id in products ==>
              && id in after
              && after[id] == products[id].(stockQuantity := after[id].stockQuantity)
              && (after[id].stockQuantity == products[id].stockQuantity || after[id].stockQuantity >= 0)
    decreases |lines|
  {
    if lines != [] {
      var n := |lines| - 1;
      MoveStockOnlyMovesStock(products, lines[..n], giveBack);
      MoveOneShape(MoveStock(products, lines[..n], giveBack).value, lines[n], giveBack);
    }
  }

  /** A successful run leaves every product that is on no line exactly as it was. */
  lemma {:induction false} MoveStockLeavesOthers(products: Products, lines: seq<OrderItem>, giveBack: bool)
    requires MoveStock(products, lines, giveBack).Ok?
    ensures var after := MoveStock(products, lines, giveBack).value;
            forall id :: id in products && !OnSomeLine(lines, id) ==> id in after && after[id] == products[id]
    decreases |lines|
  {
    if lines != [] {
      var n := |lines| - 1;
      assert forall i :: 0 <= i < n ==> lines[..n][i] == lines[i];
      MoveStockLeavesOthers(products, lines[..n], giveBack);
      MoveOneShape(MoveStock(products, lines[..n], giveBack).value, lines[n], giveBack);
    }
  }

  /** A successful run of stock edits changes no SKU, so unique SKUs stay unique. */
  lemma MoveStockKeepsSkusUnique(products: Products, lines: seq<OrderItem>, giveBack: bool)
    requires SkusUnique(products)
    requires MoveStock(products, lines, giveBack).Ok?
    ensures SkusUnique(MoveStock(products, lines, giveBack).value)
  {
    var after := MoveStock(products, lines, giveBack).value;
    MoveStockKeepsKeys(products, lines, giveBack);
    MoveStockOnlyMovesStock(products, lines, giveBack);
    forall a, b | a in after && b in after && SkuOf(after[a]) == SkuOf(after[b]) ensures a == b {
      assert SkuOf(after[a]) == SkuOf(products[a]) && SkuOf(after[b]) == SkuOf(products[b]);
    }
  }

  /** One successful stock edit changes only the stock of its line's product, to 0 or more. */
  lemma MoveOneShape(products: Products, it: OrderItem, giveBack: bool)
    requires MoveOne(products, it, giveBack).Ok?
    ensures var after := MoveOne(products, it, giveBack).value;
            && after.Keys == products.Keys
            && it.productId in products
            && after[it.productId] == products[it.productId].(stockQuantity := after[it.productId].stockQuantity)
            && after[it.productId].stockQuantity >= 0
            && (forall id :: id in products && id != it.productId ==> after[id] == products[id])
  {
  }

  /**
   * With every line fitting the stock read before any decrement and no
   * negative quantity, a successful run takes from each product exactly the
   * summed quantity of its lines.
   */
  lemma {:induction false} DecrementIsExact(products: Products, lines: seq<OrderItem>)
    requires MoveStock(products, lines, false).Ok?
    requires forall i :: 0 <= i < |lines| ==> lines[i].quantity >= 0
    requires !AnyShort(products, lines)
    ensures var after := MoveStock(products, lines, false).value;
            && after.Keys == products.Keys
            && forall id :: id in products ==> after[id].stockQuantity == products[id].stockQuantity - QtyFor(lines, id)
    decreases |lines|
  {
    if lines != [] {
      var n := |lines| - 1;
      var init := lines[..n];
      assert forall i :: 0 <= i < n ==> init[i] == lines[i];
      DecrementIsExact(products, init);
      MoveStockShape(products, init, false);
      MoveStockShape(products, lines, false);
      var now := MoveStock(products, init, false).value;
      var it := lines[n];
      var x := it.productId;
      assert !IsShort(products, it);
      assert 0 <= now[x].stockQuantity;
      assert StockTarget(now[x].stockQuantity, it.quantity, false) == now[x].stockQuantity - it.quantity;
    }
  }

  /**
   * A successful run of give-backs adds to each product exactly the summed
   * quantity of its lines: a sum past the int range would have wrapped to a
   * negative value and been refused.
   */
  lemma {:induction false} RestoreIsExact(products: Products, lines: seq<OrderItem>)
    requires MoveStock(products, lines, true).Ok?
    requires forall i :: 0 <= i < |lines| ==> lines[i].quantity >= 0
    ensures var after := MoveStock(products, lines, true).value;
            && after.Keys == products.Keys
            && forall id :: id in products ==> after[id].stockQuantity == products[id].stockQuantity + QtyFor(lines, id)
    decreases |lines|
  {
    if lines != [] {
      var n := |lines| - 1;
      var init := lines[..n];
      assert forall i :: 0 <= i < n ==> init[i] == lines[i];
      RestoreIsExact(products, init);
      MoveStockShape(products, init, true);
      var now := MoveStock(products, init, true).value;
      var it := lines[n];
      var x := it.productId;
      var target := StockTarget(now[x].stockQuantity, it.quantity, true);
      assert target >= 0;
      assert target == now[x].stockQuantity + it.quantity;
    }
  }

  /**
   * When the lines fit and name pairwise different products, no edit goes
   * negative: the run of decrements succeeds.
   */
  lemma {:induction false} DistinctFittingLinesDecrement(products: Products, lines: seq<OrderItem>)
    requires forall i :: 0 <= i < |lines| ==> lines[i].productId in products && lines[i].quantity >= 0
    requires !AnyShort(products, lines)
    requires forall i, j :: 0 <= i < j < |lines| ==> lines[i].productId != lines[j].productId
    ensures MoveStock(products, lines, false).Ok?
    decreases |lines|
  {
    if lines != [] {
      var n := |lines| - 1;
      var init := lines[..n];
      assert forall i :: 0 <= i < n ==> init[i] == lines[i];
      DistinctFittingLinesDecrement(products, init);
      MoveStockShape(products, init, false);
      var now := MoveStock(products, init, false).value;
      var it := lines[n];
      assert !OnSomeLine(init, it.productId);
      assert now[it.productId] == products[it.productId];
      assert !IsShort(products, it);
    }
  }

  // ---------------------------------------------------------------------
  // Order creation

  /** The order as `createNewOrder` finally saves it. */
  function PlacedOrder(customerId: CustomerId, req: OrderRequest, lines: seq<OrderItem>, status: OrderStatus): Order
  {
    NewOrder().(customerId := customerId, shippingAddress := req.shippingAddress, status := status,
                totalAmount := Total(lines))
  }

  datatype Placement = Placement(order: Order, lines: seq<OrderItem>, products: Products)

  /**
   * `createNewOrder` as one transaction: the customer is looked up by e-mail,
   * an empty item list is refused, the lines are priced, the item save
   * enforces the item constraints, and then either some line is short (the
   * order is PENDING and no stock moves) or every line is decremented in
   * turn (the order is CONFIRMED), a refused decrement aborting everything.
   */
  function PlaceOrder(customers: map<CustomerId, Customer>, products: Products, orderId: OrderId, req: OrderRequest)
    : (r: Result<Placement>)
    ensures FindCustomerByEmail(customers, req.customerEmail).Err? ==>
              r == Err(FindCustomerByEmail(customers, req.customerEmail).error)
    ensures FindCustomerByEmail(customers, req.customerEmail).Ok? && req.items == [] ==>
              r == Err(BadRequest(EmptyOrder))
  {
    var customer :- FindCustomerByEmail(customers, req.customerEmail);
    if req.items == [] then
      Err(BadRequest(EmptyOrder))
    else
      var lines :- PriceLines(products, orderId, req.items);
      if !AllValid(lines) then
        Err(InvalidEntity)
      else if AnyShort(products, lines) then
        Ok(Placement(PlacedOrder(customer.id, req, lines, Pending), lines, products))
      else
        var after :- MoveStock(products, lines, false);
        Ok(Placement(PlacedOrder(customer.id, req, lines, Confirmed), lines, after))
  }

  /** What every stored order satisfies: its lines are valid, priced and belong to it, and its total is their sum. */
  predicate OrderConsistent(id: OrderId, order: Order, lines: seq<OrderItem>)
  {
    && |lines| > 0
    && order.totalAmount == Total(lines)
    && forall i :: 0 <= i < |lines| ==>
         && ItemValid(lines[i])
         && lines[i].orderId == id
         && lines[i].subtotal == lines[i].unitPrice * lines[i].quantity
  }

  /** The order and item tables of a consistent store: every order has its consistent lines, and keys lie below the next key. */
  ghost predicate TablesConsistent(orders: map<OrderId, Order>, items: map<OrderId, seq<OrderItem>>, next: OrderId)
  {
    && items.Keys == orders.Keys
    && (forall id :: id in orders ==> id < next)
    && (forall id :: id in orders ==> OrderConsistent(id, orders[id], items[id]))
  }

  /** The lines PriceLines produces, once validated, make a consistent order with any status. */
  lemma PricedOrderIsConsistent(products: Products, orderId: OrderId, req: OrderRequest, customerId: CustomerId, status: OrderStatus)
    requires req.items != []
    requires PriceLines(products, orderId, req.items).Ok?
    requires AllValid(PriceLines(products, orderId, req.items).value)
    ensures var lines := PriceLines(products, orderId, req.items).value;
            OrderConsistent(orderId, PlacedOrder(customerId, req, lines, status), lines)
  {
    var lines := PriceLines(products, orderId, req.items).value;
    assert forall i :: 0 <= i < |lines| ==> PricedFrom(products, orderId, req.items[i], lines[i]);
  }

  /** Storing a consistent order under the next key keeps the tables consistent. */
  lemma AddOrderKeepsTablesConsistent(
    orders: map<OrderId, Order>, items: map<OrderId, seq<OrderItem>>, next: OrderId, order: Order, lines: seq<OrderItem>)
    requires TablesConsistent(orders, items, next)
    requires OrderConsistent(next, order, lines)
    ensures TablesConsistent(orders[next := order], items[next := lines], next + 1)
  {
  }

  /** A status change keeps the tables consistent: consistency does not depend on status. */
  lemma RestatusKeepsTablesConsistent(
    orders: map<OrderId, Order>, items: map<OrderId, seq<OrderItem>>, next: OrderId, id: OrderId, status: OrderStatus)
    requires TablesConsistent(orders, items, next) && id in orders
    ensures TablesConsistent(orders[id := orders[id].(status := status)], items, next)
  {
    var after := orders[id := orders[id].(status := status)];
    forall o | o in after ensures OrderConsistent(o, after[o], items[o]) {
      assert after[o].totalAmount == orders[o].totalAmount;
    }
  }

  /**
   * A placed order belongs to the customer with that e-mail, has one line
   * per request with the product's current price and subtotal price times
   * quantity, totals its subtotals, and is PENDING exactly when some line is
   * short of stock, CONFIRMED otherwise.
   */
  lemma PlacementIsConsistent(customers: map<CustomerId, Customer>, products: Products, orderId: OrderId, req: OrderRequest)
    requires PlaceOrder(customers, products, orderId, req).Ok?
    ensures var p := PlaceOrder(customers, products, orderId, req).value;
            && FindCustomerByEmail(customers, req.customerEmail).Ok?
            && p.order.customerId == FindCustomerByEmail(customers, req.customerEmail).value.id
            && p.order.shippingAddress == req.shippingAddress
            && |p.lines| == |req.items|
            && (forall i :: 0 <= i < |req.items| ==> PricedFrom(products, orderId, req.items[i], p.lines[i]))
            && OrderConsistent(orderId, p.order, p.lines)
            && (p.order.status == Pending <==> exists i :: 0 <= i < |p.lines| && IsShort(products, p.lines[i]))
            && (p.order.status == Pending || p.order.status == Confirmed)
  {
    AnyShortMeans(products, PriceLines(products, orderId, req.items).value);
  }

  /** A PENDING outcome moves no stock at all. */
  lemma PendingMovesNoStock(customers: map<CustomerId, Customer>, products: Products, orderId: OrderId, req: OrderRequest)
    requires PlaceOrder(customers, products, orderId, req).Ok?
    requires PlaceOrder(customers, products, orderId, req).value.order.status == Pending
    ensures PlaceOrder(customers, products, orderId, req).value.products == products
  {
  }

  /**
   * A CONFIRMED outcome takes from each product exactly the summed quantity
   * of its lines and changes nothing else in the table.
   */
  lemma ConfirmedTakesExactStock(customers: map<CustomerId, Customer>, products: Products, orderId: OrderId, req: OrderRequest)
    requires PlaceOrder(customers, products, orderId, req).Ok?
    requires PlaceOrder(customers, products, orderId, req).value.order.status == Confirmed
    ensures var p := PlaceOrder(customers, products, orderId, req).value;
            && p.products.Keys == products.Keys
            && forall id :: id in products ==>
                 && p.products[id].stockQuantity == products[id].stockQuantity - QtyFor(p.lines, id)
                 && p.products[id] == products[id].(stockQuantity := p.products[id].stockQuantity)
  {
    var lines := PriceLines(products, orderId, req.items).value;
    MoveStockShape(products, lines, false);
    DecrementIsExact(products, lines);
  }

  /** No placed order leaves a stock it changed below 0, so non-negative stock stays non-negative. */
  lemma PlacementKeepsStockNonNegative(customers: map<CustomerId, Customer>, products: Products, orderId: OrderId, req: OrderRequest)
    requires PlaceOrder(customers, products, orderId, req).Ok?
    ensures var after := PlaceOrder(customers, products, orderId, req).value.products;
            && after.Keys == products.Keys
            && forall id :: id in products ==>
                 after[id].stockQuantity == products[id].stockQuantity || after[id].stockQuantity >= 0
  {
    var lines := PriceLines(products, orderId, req.items).value;
    if !AnyShort(products, lines) {
      MoveStockShape(products, lines, false);
    }
  }

  /**
   * With pairwise different SKUs, an order whose customer resolves, whose
   * lines resolve and satisfy the item constraints, and whose every line
   * fits, is confirmed: it cannot abort on a decrement.
   */
  lemma DistinctFittingOrderIsConfirmed(customers: map<CustomerId, Customer>, products: Products, orderId: OrderId, req: OrderRequest)
    requires FindCustomerByEmail(customers, req.customerEmail).Ok?
    requires req.items != []
    requires PriceLines(products, orderId, req.items).Ok?
    requires AllValid(PriceLines(products, orderId, req.items).value)
    requires !AnyShort(products, PriceLines(products, orderId, req.items).value)
    requires forall i, j :: 0 <= i < j < |req.items| ==> req.items[i].sku != req.items[j].sku
    ensures PlaceOrder(customers, products, orderId, req).Ok?
    ensures PlaceOrder(customers, products, orderId, req).value.order.status == Confirmed
  {
    var lines := PriceLines(products, orderId, req.items).value;
    forall i, j | 0 <= i < j < |lines| ensures lines[i].productId != lines[j].productId {
      assert PricedFrom(products, orderId, req.items[i], lines[i]);
      assert PricedFrom(products, orderId, req.items[j], lines[j]);
    }
    DistinctFittingLinesDecrement(products, lines);
  }

  /**
   * When some line is short of stock, the order is saved PENDING with its
   * priced lines and no stock moves, whatever the other lines ask for.
   */
  lemma ShortOrderIsPending(customers: map<CustomerId, Customer>, products: Products, orderId: OrderId, req: OrderRequest)
    requires FindCustomerByEmail(customers, req.customerEmail).Ok?
    requires req.items != []
    requires PriceLines(products, orderId, req.items).Ok?
    requires AllValid(PriceLines(products, orderId, req.items).value)
    requires exists i :: 0 <= i < |req.items| && IsShort(products, PriceLines(products, orderId, req.items).value[i])
    ensures var lines := PriceLines(products, orderId, req.items).value;
            var customer := FindCustomerByEmail(customers, req.customerEmail).value;
            PlaceOrder(customers, products, orderId, req)
              == Ok(Placement(PlacedOrder(customer.id, req, lines, Pending), lines, products))
  {
    AnyShortMeans(products, PriceLines(products, orderId, req.items).value);
  }

  /**
   * When no line is short, the decrements decide: a refused one aborts the
   * order with its failure; otherwise the order is saved CONFIRMED with the
   * stock the decrements left.
   */
  lemma FittingOrderIsDecided(customers: map<CustomerId, Customer>, products: Products, orderId: OrderId, req: OrderRequest)
    requires FindCustomerByEmail(customers, req.customerEmail).Ok?
    requires req.items != []
    requires PriceLines(products, orderId, req.items).Ok?
    requires AllValid(PriceLines(products, orderId, req.items).value)
    requires forall i :: 0 <= i < |req.items| ==> !IsShort(products, PriceLines(products, orderId, req.items).value[i])
    ensures var lines := PriceLines(products, orderId, req.items).value;
            var customer := FindCustomerByEmail(customers, req.customerEmail).value;
            && (MoveStock(products, lines, false).Err? ==>
                  PlaceOrder(customers, products, orderId, req) == Err(MoveStock(products, lines, false).error))
            && (MoveStock(products, lines, false).Ok? ==>
                  PlaceOrder(customers, products, orderId, req)
                    == Ok(Placement(PlacedOrder(customer.id, req, lines, Confirmed), lines, MoveStock(products, lines, false).value)))
  {
    AnyShortMeans(products, PriceLines(products, orderId, req.items).value);
  }

  /** The failures before the stock decision: an unresolved SKU gives its lookup failure, a line breaking the item constraints InvalidEntity. */
  lemma PlaceOrderEarlyFailures(customers: map<CustomerId, Customer>, products: Products, orderId: OrderId, req: OrderRequest)
    requires FindCustomerByEmail(customers, req.customerEmail).Ok?
    requires req.items != []
    ensures PriceLines(products, orderId, req.items).Err? ==>
              PlaceOrder(customers, products, orderId, req) == Err(PriceLines(products, orderId, req.items).error)
    ensures PriceLines(products, orderId, req.items).Ok? && !AllValid(PriceLines(products, orderId, req.items).value) ==>
              PlaceOrder(customers, products, orderId, req) == Err(InvalidEntity)
  {
  }

  /**
   * Placement succeeds exactly when the customer resolves, the request lists
   * items, every SKU resolves, the lines satisfy the item constraints, and
   * either some line is short or every decrement is accepted.
   */
  lemma PlaceOrderSucceedsIff(customers: map<CustomerId, Customer>, products: Products, orderId: OrderId, req: OrderRequest)
    ensures PlaceOrder(customers, products, orderId, req).Ok? <==>
              && FindCustomerByEmail(customers, req.customerEmail).Ok?
              && req.items != []
              && PriceLines(products, orderId, req.items).Ok?
              && AllValid(PriceLines(products, orderId, req.items).value)
              && ((exists i :: 0 <= i < |req.items| && IsShort(products, PriceLines(products, orderId, req.items).value[i]))
                  || MoveStock(products, PriceLines(products, orderId, req.items).value, false).Ok?)
  {
    if FindCustomerByEmail(customers, req.customerEmail).Ok? && req.items != [] && PriceLines(products, orderId, req.items).Ok? {
      AnyShortMeans(products, PriceLines(products, orderId, req.items).value);
    }
  }

  /** A table holding a single product: its SKU resolves to it. */
  lemma LookupInSingleton(id: ProductId, product: Product)
    ensures FindProductBySku(map[id := product], product.sku) == Ok(Row(id, product))
  {
    var m := map[id := product];
    assert SkuMatches(m, product.sku) == {id};
  }

  /**
   * Two lines of one SKU are each checked against the stock before any
   * decrement, so both pass when each alone fits; the second decrement then
   * goes negative and the whole order is aborted rather than left PENDING.
   */
  lemma DuplicateSkuAbortsOrder(customers: map<CustomerId, Customer>, products: Products, orderId: OrderId, req: OrderRequest)
    requires FindCustomerByEmail(customers, req.customerEmail).Ok?
    requires |req.items| == 2 && req.items[0] == req.items[1]
    requires FindProductBySku(products, req.items[0].sku).Ok?
    requires var product := FindProductBySku(products, req.items[0].sku).value.entity;
             && 1 <= req.items[0].quantity <= product.stockQuantity < 2 * req.items[0].quantity
             && product.price >= 1
    ensures PlaceOrder(customers, products, orderId, req) == Err(BadRequest(NegativeStock))
  {
    var row := FindProductBySku(products, req.items[0].sku).value;
    var q := req.items[0].quantity;
    var line := LineFor(orderId, row, q);
    RepeatedRequestPricesTwice(products, orderId, req.items);
    assert row.entity.price * q >= 1 by {
      assert row.entity.price * q >= row.entity.price * 1;
    }
    assert AllValid([line, line]);
    assert !IsShort(products, line);
    AppendLine(products, [], line);
    AppendLine(products, [line], line);
    assert [] + [line] == [line] && [line] + [line] == [line, line];
    RepeatedLineOverdraws(products, line);
  }

  /** A request list of one request twice prices to its line twice. */
  lemma RepeatedRequestPricesTwice(products: Products, orderId: OrderId, requests: seq<ItemRequest>)
    requires |requests| == 2 && requests[0] == requests[1]
    requires FindProductBySku(products, requests[0].sku).Ok?
    ensures var line := LineFor(orderId, FindProductBySku(products, requests[0].sku).value, requests[0].quantity);
            PriceLines(products, orderId, requests) == Ok([line, line])
  {
    var line := LineFor(orderId, FindProductBySku(products, requests[0].sku).value, requests[0].quantity);
    assert requests[..0] == [];
    PriceLinesExtends(products, orderId, requests, 0);
    assert [] + [line] == [line];
    PriceLinesExtends(products, orderId, requests, 1);
    assert [line] + [line] == [line, line];
    assert requests[..2] == requests;
  }

  /** The same line twice, when it fits once but not twice, fails on the second decrement. */
  lemma RepeatedLineOverdraws(products: Products, line: OrderItem)
    requires line.productId in products
    requires 1 <= line.quantity <= products[line.productId].stockQuantity < 2 * line.quantity
    ensures MoveStock(products, [line, line], false) == Err(BadRequest(NegativeStock))
  {
    var lines := [line, line];
    assert lines[..0] == [];
    MoveStockExtends(products, lines, 0, false);
    assert lines[..1] == [line];
    var once := MoveStock(products, [line], false).value;
    assert once[line.productId].stockQuantity == products[line.productId].stockQuantity - line.quantity;
    MoveStockExtends(products, lines, 1, false);
    assert lines[..2] == lines;
  }

  /** For instance stock 5 and two lines of 3 for the same SKU. */
  lemma DuplicateSkuExample()
    ensures var customers := map[1 := Customer("Ana", "Lima", "ana@x", "", "123", true)];
            var products := map[7 := Product("Widget", "", 1000, 5, 0, "ABC", true)];
            var req := OrderRequest("ana@x", "Rua 1", [ItemRequest("ABC", 3), ItemRequest("ABC", 3)]);
            PlaceOrder(customers, products, 0, req) == Err(BadRequest(NegativeStock))
  {
    var customers := map[1 := Customer("Ana", "Lima", "ana@x", "", "123", true)];
    var products := map[7 := Product("Widget", "", 1000, 5, 0, "ABC", true)];
    var req := OrderRequest("ana@x", "Rua 1", [ItemRequest("ABC", 3), ItemRequest("ABC", 3)]);
    assert EmailMatches(customers, "ana@x") == {1};
    LookupInSingleton(7, products[7]);
    DuplicateSkuAbortsOrder(customers, products, 0, req);
  }

  // ---------------------------------------------------------------------
  // Cancellation

  datatype Cancellation = Cancellation(order: Order, products: Products)

  /** The items `findAllByOrder` returns: none for an order without stored items. */
  function ItemsOf(items: map<OrderId, seq<OrderItem>>, id: OrderId): seq<OrderItem>
  {
    if id in items then items[id] else []
  }

  /**
   * `deleteOrder` as one transaction: NotFound for an unknown order; from
   * CONFIRMED or CREATED every item's quantity goes back to its product in
   * turn, from PENDING no stock moves, from DELIVERED or CANCELLED it fails;
   * a successful cancellation leaves the order CANCELLED.
   */
  function CancelOrder(orders: map<OrderId, Order>, items: map<OrderId, seq<OrderItem>>, products: Products, id: OrderId)
    : (r: Result<Cancellation>)
    ensures id !in orders ==> r == Err(NotFound(OrderNotFound))
    ensures id in orders && IsTerminal(orders[id].status) ==>
              r == Err(BadRequest(CannotCancel(Name(orders[id].status))))
    ensures r.Ok? <==>
              && id in orders
              && !IsTerminal(orders[id].status)
              && (CancelDecision(orders[id].status) == Ok(true) ==> MoveStock(products, ItemsOf(items, id), true).Ok?)
    ensures id in orders && CancelDecision(orders[id].status) == Ok(true) && MoveStock(products, ItemsOf(items, id), true).Err? ==>
              r == Err(MoveStock(products, ItemsOf(items, id), true).error)
    ensures r.Ok? ==> r.value.order == orders[id].(status := Cancelled)
  {
    var order :- FindOrderById(orders, id);
    var giveBack :- CancelDecision(order.status);
    var after :- if giveBack then MoveStock(products, ItemsOf(items, id), true) else Ok(products);
    Ok(Cancellation(order.(status := Cancelled), after))
  }

  /** Cancelling a CONFIRMED or CREATED order gives each product back exactly the summed quantity of the order's lines for it. */
  lemma CancelRestoresStock(orders: map<OrderId, Order>, items: map<OrderId, seq<OrderItem>>, products: Products, id: OrderId)
    requires CancelOrder(orders, items, products, id).Ok?
    requires orders[id].status == Confirmed || orders[id].status == Created
    requires forall i :: 0 <= i < |ItemsOf(items, id)| ==> ItemsOf(items, id)[i].quantity >= 0
    ensures var after := CancelOrder(orders, items, products, id).value.products;
            && after.Keys == products.Keys
            && forall pid :: pid in products ==>
                 && after[pid].stockQuantity == products[pid].stockQuantity + QtyFor(ItemsOf(items, id), pid)
                 && after[pid] == products[pid].(stockQuantity := after[pid].stockQuantity)
  {
    MoveStockShape(products, ItemsOf(items, id), true);
    RestoreIsExact(products, ItemsOf(items, id));
  }

  /**
   * A run of give-backs is accepted when every line's product exists, no
   * quantity is negative, every stock starts at 0 or more, and no product's
   * stock plus everything given back to it passes the int range.
   */
  lemma {:induction false} RestoreWithinRangeSucceeds(products: Products, lines: seq<OrderItem>)
    requires forall i :: 0 <= i < |lines| ==> lines[i].productId in products && lines[i].quantity >= 0
    requires forall pid :: pid in products && OnSomeLine(lines, pid) ==>
               0 <= products[pid].stockQuantity && products[pid].stockQuantity + QtyFor(lines, pid) <= MaxInt32
    ensures MoveStock(products, lines, true).Ok?
    decreases |lines|
  {
    if lines != [] {
      var n := |lines| - 1;
      var init := lines[..n];
      var it := lines[n];
      assert forall i :: 0 <= i < n ==> init[i] == lines[i];
      forall pid | pid in products && OnSomeLine(init, pid)
        ensures 0 <= products[pid].stockQuantity && products[pid].stockQuantity + QtyFor(init, pid) <= MaxInt32
      {
        var j :| 0 <= j < |init| && init[j].productId == pid;
        assert lines[j].productId == pid;
        QtyForIsNonNegative(init, pid);
        assert QtyFor(lines, pid) == QtyFor(init, pid) + (if it.productId == pid then it.quantity else 0);
      }
      RestoreWithinRangeSucceeds(products, init);
      RestoreIsExact(products, init);
      var now := MoveStock(products, init, true).value;
      var x := it.productId;
      assert OnSomeLine(lines, x) by {
        assert lines[n].productId == x;
      }
      QtyForIsNonNegative(init, x);
      assert QtyFor(lines, x) == QtyFor(init, x) + it.quantity;
      assert 0 <= now[x].stockQuantity + it.quantity <= MaxInt32;
      assert StockTarget(now[x].stockQuantity, it.quantity, true) >= 0;
    }
  }

  /**
   * Cancelling a CONFIRMED or CREATED order whose give-backs stay within the
   * int range succeeds, and each product gets back exactly the summed
   * quantity of the order's lines for it.
   */
  lemma CancelWithinRangeRestoresStock(orders: map<OrderId, Order>, items: map<OrderId, seq<OrderItem>>, products: Products, id: OrderId)
    requires id in orders && (orders[id].status == Confirmed || orders[id].status == Created)
    requires forall i :: 0 <= i < |ItemsOf(items, id)| ==>
               ItemsOf(items, id)[i].productId in products && ItemsOf(items, id)[i].quantity >= 0
    requires forall pid :: pid in products && OnSomeLine(ItemsOf(items, id), pid) ==>
               0 <= products[pid].stockQuantity && products[pid].stockQuantity + QtyFor(ItemsOf(items, id), pid) <= MaxInt32
    ensures CancelOrder(orders, items, products, id).Ok?
    ensures var after := CancelOrder(orders, items, products, id).value.products;
            && after.Keys == products.Keys
            && forall pid :: pid in products ==>
                 after[pid].stockQuantity == products[pid].stockQuantity + QtyFor(ItemsOf(items, id), pid)
  {
    RestoreWithinRangeSucceeds(products, ItemsOf(items, id));
    CancelRestoresStock(orders, items, products, id);
  }

  /** Cancelling a PENDING order succeeds and moves no stock. */
  lemma CancelPendingMovesNoStock(orders: map<OrderId, Order>, items: map<OrderId, seq<OrderItem>>, products: Products, id: OrderId)
    requires id in orders && orders[id].status == Pending
    ensures CancelOrder(orders, items, products, id) == Ok(Cancellation(orders[id].(status := Cancelled), products))
  {
  }

  /** A cancellation that succeeds leaves every stock it changed at 0 or more. */
  lemma CancelKeepsStockNonNegative(orders: map<OrderId, Order>, items: map<OrderId, seq<OrderItem>>, products: Products, id: OrderId)
    requires CancelOrder(orders, items, products, id).Ok?
    ensures var after := CancelOrder(orders, items, products, id).value.products;
            forall pid :: pid in products ==>
              pid in after && (after[pid].stockQuantity == products[pid].stockQuantity || after[pid].stockQuantity >= 0)
  {
    if CancelDecision(orders[id].status) == Ok(true) {
      MoveStockShape(products, ItemsOf(items, id), true);
    }
  }

  /** A second cancellation of the same order fails and changes nothing. */
  lemma CancelTwiceFails(orders: map<OrderId, Order>, items: map<OrderId, seq<OrderItem>>, products: Products, id: OrderId)
    requires CancelOrder(orders, items, products, id).Ok?
    ensures var c := CancelOrder(orders, items, products, id).value;
            CancelOrder(orders[id := c.order], items, c.products, id) == Err(BadRequest(CannotCancel("CANCELLED")))
  {
  }

  /**
   * Giving back stock is Java int addition: a product at 2147483646 cannot
   * take back 5 units, the sum wraps negative, `editStock` refuses it, and
   * the cancellation fails.
   */
  lemma RestoreOverflowAbortsCancel()
    ensures var orders := map[4 := Order(1, Confirmed, 5000, "Rua 1")];
            var items := map[4 := [OrderItem(4, 7, 5, 1000, 5000)]];
            var products := map[7 := Product("Widget", "", 1000, MaxInt32 - 1, 0, "ABC", true)];
            CancelOrder(orders, items, products, 4) == Err(BadRequest(NegativeStock))
  {
    var line := OrderItem(4, 7, 5, 1000, 5000);
    assert [line][..0] == [];
    assert StockTarget(MaxInt32 - 1, 5, true) < 0;
  }

  /**
   * The status edit accepts any status, bypassing the stock rules: a PENDING
   * order (whose stock was never taken) edited to CONFIRMED and then
   * cancelled gives its quantities back all the same, so stock grows.
   */
  lemma EditToConfirmedThenCancelAddsStock(
    orders: map<OrderId, Order>, items: map<OrderId, seq<OrderItem>>, products: Products, id: OrderId, k: nat)
    requires id in orders && orders[id].status == Pending
    requires forall i :: 0 <= i < |ItemsOf(items, id)| ==> ItemsOf(items, id)[i].quantity >= 1
    requires k < |ItemsOf(items, id)|
    requires CancelOrder(orders[id := orders[id].(status := Confirmed)], items, products, id).Ok?
    ensures EditStatus(orders[id].status, "confirmed") == Ok(Confirmed)
    ensures var pid := ItemsOf(items, id)[k].productId;
            var after := CancelOrder(orders[id := orders[id].(status := Confirmed)], items, products, id).value.products;
            pid in products && pid in after && after[pid].stockQuantity > products[pid].stockQuantity
  {
    ParseIgnoresCase(Confirmed, "confirmed");
    var lines := ItemsOf(items, id);
    var edited := orders[id := orders[id].(status := Confirmed)];
    MoveStockShape(products, lines, true);
    CancelRestoresStock(edited, items, products, id);
    QtyForIsPositive(lines, lines[k].productId, k);
  }

  // ---------------------------------------------------------------------
  // Product references of stored items

  /** Every stored line references a stored product: an item's product reference is required. */
  ghost predicate ItemsReferenceProducts(items: map<OrderId, seq<OrderItem>>, products: Products)
  {
    forall id, i :: id in items && 0 <= i < |items[id]| ==> items[id][i].productId in products
  }

  /** Product keys are never removed, so references stay valid while the product table only grows. */
  lemma KeyGrowthKeepsReferences(items: map<OrderId, seq<OrderItem>>, before: Products, after: Products)
    requires ItemsReferenceProducts(items, before)
    requires before.Keys <= after.Keys
    ensures ItemsReferenceProducts(items, after)
  {
  }

  /** The lines a placement stores reference products, and the stock edits keep every product key. */
  lemma PlacementKeepsReferences(
    customers: map<CustomerId, Customer>, products: Products, orderId: OrderId, req: OrderRequest, items: map<OrderId, seq<OrderItem>>)
    requires ItemsReferenceProducts(items, products)
    requires PlaceOrder(customers, products, orderId, req).Ok?
    ensures var p := PlaceOrder(customers, products, orderId, req).value;
            ItemsReferenceProducts(items[orderId := p.lines], p.products)
  {
    var p := PlaceOrder(customers, products, orderId, req).value;
    PlacementIsConsistent(customers, products, orderId, req);
    PlacementKeepsStockNonNegative(customers, products, orderId, req);
    assert forall i :: 0 <= i < |p.lines| ==> p.lines[i].productId in products by {
      forall i | 0 <= i < |p.lines| ensures p.lines[i].productId in products {
        assert PricedFrom(products, orderId, req.items[i], p.lines[i]);
      }
    }
  }

  /** A cancellation keeps every product key, so the stored lines still reference products. */
  lemma CancelKeepsReferences(orders: map<OrderId, Order>, items: map<OrderId, seq<OrderItem>>, products: Products, id: OrderId)
    requires ItemsReferenceProducts(items, products)
    requires CancelOrder(orders, items, products, id).Ok?
    ensures ItemsReferenceProducts(items, CancelOrder(orders, items, products, id).value.products)
  {
    CancelKeepsStockNonNegative(orders, items, products, id);
    KeyGrowthKeepsReferences(items, products, CancelOrder(orders, items, products, id).value.products);
  }

  /** The lines of a stored order reference stored products. */
  lemma StoredLinesReferenceProducts(items: map<OrderId, seq<OrderItem>>, products: Products, id: OrderId)
    requires ItemsReferenceProducts(items, products)
    ensures forall i :: 0 <= i < |ItemsOf(items, id)| ==> ItemsOf(items, id)[i].productId in products
  {
  }

  /** Stock edits on lines whose products all exist are refused only for a negative target. */
  lemma {:induction false} MoveStockOnStoredProducts(products: Products, lines: seq<OrderItem>, giveBack: bool)
    requires forall i :: 0 <= i < |lines| ==> lines[i].productId in products
    ensures MoveStock(products, lines, giveBack).Err? ==> MoveStock(products, lines, giveBack).error == BadRequest(NegativeStock)
    decreases |lines|
  {
    if lines != [] {
      var n := |lines| - 1;
      var init := lines[..n];
      assert forall i :: 0 <= i < n ==> init[i] == lines[i];
      MoveStockOnStoredProducts(products, init, giveBack);
      if MoveStock(products, init, giveBack).Ok? {
        MoveStockKeepsKeys(products, init, giveBack);
      }
    }
  }

  /**
   * While stored lines reference stored products, a cancellation never fails
   * for a missing product: it fails only for an unknown order or with
   * BadRequest (a terminal status or a refused give-back).
   */
  lemma ReferencedCancelFindsProducts(orders: map<OrderId, Order>, items: map<OrderId, seq<OrderItem>>, products: Products, id: OrderId)
    requires ItemsReferenceProducts(items, products)
    ensures var c := CancelOrder(orders, items, products, id);
            c.Err? ==> c.error == NotFound(OrderNotFound) || c.error.BadRequest?
  {
    StoredLinesReferenceProducts(items, products, id);
    MoveStockOnStoredProducts(products, ItemsOf(items, id), true);
  }

  lemma {:induction false} QtyForIsPositive(lines: seq<OrderItem>, id: ProductId, k: nat)
    requires forall i :: 0 <= i < |lines| ==> lines[i].quantity >= 1
    requires k < |lines| && lines[k].productId == id
    ensures QtyFor(lines, id) >= 1
    decreases |lines|
  {
    var n := |lines| - 1;
    assert forall i :: 0 <= i < n ==> lines[..n][i] == lines[i];
    QtyForIsNonNegative(lines[..n], id);
    if k < n {
      QtyForIsPositive(lines[..n], id, k);
    }
  }

  lemma {:induction false} QtyForIsNonNegative(lines: seq<OrderItem>, id: ProductId)
    requires forall i :: 0 <= i < |lines| ==> lines[i].quantity >= 0
    ensures QtyFor(lines, id) >= 0
    decreases |lines|
  {
    if lines != [] {
      var n := |lines| - 1;
      assert forall i :: 0 <= i < n ==> lines[..n][i] == lines[i];
      QtyForIsNonNegative(lines[..n], id);
    }
  }
}

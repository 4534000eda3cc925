/**
 * The order service: the order and order-item tables, with the customer and
 * product services it calls. Each operation is one transaction: when it
 * fails, every table it touched is restored to its state on entry.
 */
module OrderServices {
  import opened Base
  import opened OrderStatuses
  import opened Entities
  import opened CustomerServices
  import opened ProductServices
  import opened OrderRules

  class OrderService {
    const customerService: CustomerService
    const productService: ProductService
    var orders: map<OrderId, Order>
    /** The result of `findAllByOrder` for each stored order. */
    var orderItems: map<OrderId, seq<OrderItem>>
    var nextOrderId: OrderId

    /**
     * Every stored order has its items stored, non-empty, valid, priced and
     * summed into its total; keys are handed out in increasing order.
     */
    ghost predicate Valid()
      reads this, productService
    {
      && productService.Valid()
      && TablesConsistent(orders, orderItems, nextOrderId)
    }

    constructor (customers: CustomerService, products: ProductService)
      requires products.Valid()
      ensures Valid()
      ensures customerService == customers && productService == products
      ensures orders == map[] && orderItems == map[]
    {
      customerService := customers;
      productService := products;
      orders := map[];
      orderItems := map[];
      nextOrderId := 0;
    }

    /**
     * The first loop of `createNewOrder`: each request is priced against the
     * product table as it stands, noting whether any line exceeds its
     * product's stock, and the subtotals are summed.
     */
    method PriceRequests(orderId: OrderId, requests: seq<ItemRequest>)
      returns (r: Result<seq<OrderItem>>, insufficient: bool, total: Cents)
      ensures r == PriceLines(productService.products, orderId, requests)
      ensures r.Ok? ==> insufficient == AnyShort(productService.products, r.value) && total == Total(r.value)
    {
      var lines: seq<OrderItem> := [];
      insufficient, total := false, 0;
      var k := 0;
      while k < |requests|
        invariant 0 <= k <= |requests|
        invariant PriceLines(productService.products, orderId, requests[..k]) == Ok(lines)
        invariant total == Total(lines)
        invariant insufficient == AnyShort(productService.products, lines)
      {
        var item := requests[k];
        var product := FindProductBySku(productService.products, item.sku);
        if product.Err? {
          FirstUnresolvedSkuAborts(productService.products, orderId, requests, k);
          return Err(product.error), insufficient, total;
        }
        var row := product.value;
        if row.entity.stockQuantity < item.quantity {
          insufficient := true;
        }
        var line := LineFor(orderId, row, item.quantity);
        PriceLinesExtends(productService.products, orderId, requests, k);
        AppendLine(productService.products, lines, line);
        lines := lines + [line];
        total := total + line.subtotal;
        k := k + 1;
      }
      assert requests[..k] == requests;
      r := Ok(lines);
    }

    /** One line's `editStock`: the product table ends as MoveOne says, or is unchanged when the edit is refused. */
    method MoveOneStock(it: OrderItem, giveBack: bool) returns (r: Result<()>)
      requires productService.Valid()
      modifies productService
      ensures productService.Valid() && productService.nextId == old(productService.nextId)
      ensures r.Ok? <==> MoveOne(old(productService.products), it, giveBack).Ok?
      ensures r.Ok? ==> productService.products == MoveOne(old(productService.products), it, giveBack).value
      ensures r.Err? ==>
                && r.error == MoveOne(old(productService.products), it, giveBack).error
                && productService.products == old(productService.products)
    {
      var current := FindProductById(productService.products, it.productId);
      if current.Err? {
        return Err(current.error);
      }
      var res := productService.EditStock(it.productId, StockTarget(current.value.stockQuantity, it.quantity, giveBack));
      if res.Err? {
        return Err(res.error);
      }
      r := Ok(());
    }

    /**
     * The stock loops of `createNewOrder` and `deleteOrder`: one `editStock`
     * per line, each from the stock the earlier lines left; the product table
     * ends as MoveStock says, or is restored when an edit is refused.
     */
    method MoveStockFor(lines: seq<OrderItem>, giveBack: bool) returns (r: Result<()>)
      requires productService.Valid()
      modifies productService
      ensures productService.Valid() && productService.nextId == old(productService.nextId)
      ensures r.Ok? <==> MoveStock(old(productService.products), lines, giveBack).Ok?
      ensures r.Ok? ==> productService.products == MoveStock(old(productService.products), lines, giveBack).value
      ensures r.Err? ==>
                && r.error == MoveStock(old(productService.products), lines, giveBack).error
                && productService.products == old(productService.products)
      ensures SkusUnique(old(productService.products)) ==> SkusUnique(productService.products)
    {
      var snapshot := productService.products;
      var i := 0;
      while i < |lines|
        invariant 0 <= i <= |lines|
        invariant MoveStock(snapshot, lines[..i], giveBack) == Ok(productService.products)
        invariant productService.Valid() && productService.nextId == old(productService.nextId)
      {
        MoveStockExtends(snapshot, lines, i, giveBack);
        var step := MoveOneStock(lines[i], giveBack);
        if step.Err? {
          MoveStockStopsAtFailure(snapshot, lines, i + 1, giveBack);
          productService.products := snapshot;
          return Err(step.error);
        }
        i := i + 1;
      }
      assert lines[..i] == lines;
      if SkusUnique(snapshot) {
        MoveStockKeepsSkusUnique(snapshot, lines, giveBack);
      }
      r := Ok(());
    }

    /**
     * `createNewOrder`: the tables end as PlaceOrder says, under the next
     * order key; on any failure nothing is left changed.
     */
    method CreateNewOrder(req: OrderRequest) returns (r: Result<Row<Order>>)
      requires Valid()
      modifies this, productService
      ensures Valid()
      ensures ItemsReferenceProducts(old(orderItems), old(productService.products)) ==>
                ItemsReferenceProducts(orderItems, productService.products)
      ensures productService.nextId == old(productService.nextId)
      ensures var placed := PlaceOrder(customerService.customers, old(productService.products), old(nextOrderId), req);
              && (r.Ok? <==> placed.Ok?)
              && (placed.Err? ==>
                    && r == Err(placed.error)
                    && orders == old(orders) && orderItems == old(orderItems) && nextOrderId == old(nextOrderId)
                    && productService.products == old(productService.products))
              && (placed.Ok? ==>
                    && r == Ok(Row(old(nextOrderId), placed.value.order))
                    && orders == old(orders)[old(nextOrderId) := placed.value.order]
                    && orderItems == old(orderItems)[old(nextOrderId) := placed.value.lines]
                    && nextOrderId == old(nextOrderId) + 1
                    && productService.products == placed.value.products)
      ensures SkusUnique(old(productService.products)) ==> SkusUnique(productService.products)
    {
      var found := FindCustomerByEmail(customerService.customers, req.customerEmail);
      if found.Err? {
        return Err(found.error);
      }
      if req.items == [] {
        return Err(BadRequest(EmptyOrder));
      }
      var savedOrders, savedNext := orders, nextOrderId;

      // The order is saved first, CREATED with a zero total.
      var id := nextOrderId;
      orders := orders[id := PlacedOrder(found.value.id, req, [], Created)];
      nextOrderId := nextOrderId + 1;

      var priced, insufficient, total := PriceRequests(id, req.items);
      if priced.Err? {
        orders, nextOrderId := savedOrders, savedNext;
        return Err(priced.error);
      }
      var lines := priced.value;

      // Saving the items enforces their declared constraints.
      if !AllValid(lines) {
        orders, nextOrderId := savedOrders, savedNext;
        return Err(InvalidEntity);
      }

      var status := Pending;
      if !insufficient {
        var moved := MoveStockFor(lines, false);
        if moved.Err? {
          orders, nextOrderId := savedOrders, savedNext;
          return Err(moved.error);
        }
        status := Confirmed;
      }
      var order := PlacedOrder(found.value.id, req, lines, status);
      assert order.totalAmount == total;
      PricedOrderIsConsistent(old(productService.products), id, req, found.value.id, status);
      AddOrderKeepsTablesConsistent(savedOrders, orderItems, id, order, lines);
      if ItemsReferenceProducts(old(orderItems), old(productService.products)) {
        PlacementKeepsReferences(customerService.customers, old(productService.products), id, req, old(orderItems));
      }
      orders := savedOrders[id := order];
      orderItems := orderItems[id := lines];
      r := Ok(Row(id, order));
    }

    /**
     * `editStatusOrder`: NotFound for an unknown order, otherwise the order's
     * status becomes EditStatus's result, or nothing changes on its failure.
     * The product table is outside the frame: no stock moves.
     */
    method EditStatusOrder(id: OrderId, statusName: string) returns (r: Result<OrderStatus>)
      requires Valid()
      modifies this
      ensures Valid()
      ensures ItemsReferenceProducts(old(orderItems), old(productService.products)) ==>
                ItemsReferenceProducts(orderItems, productService.products)
      ensures id !in old(orders) ==> r == Err(NotFound(OrderNotFound))
      ensures id in old(orders) ==> r == EditStatus(old(orders)[id].status, statusName)
      ensures r.Ok? ==> orders == old(orders)[id := old(orders)[id].(status := r.value)]
      ensures r.Err? ==> orders == old(orders)
      ensures orderItems == old(orderItems) && nextOrderId == old(nextOrderId)
      ensures productService.products == old(productService.products)
    {
      var found := FindOrderById(orders, id);
      if found.Err? {
        return Err(found.error);
      }
      r := EditStatus(found.value.status, statusName);
      if r.Ok? {
        RestatusKeepsTablesConsistent(orders, orderItems, nextOrderId, id, r.value);
        orders := orders[id := found.value.(status := r.value)];
      }
    }

    /**
     * `deleteOrder`: the order table and the product table end as
     * CancelOrder says; on any failure nothing is left changed. The order
     * row is kept, CANCELLED, and its items stay stored.
     */
    method DeleteOrder(id: OrderId) returns (r: Result<Order>)
      requires Valid()
      modifies this, productService
      ensures Valid()
      ensures ItemsReferenceProducts(old(orderItems), old(productService.products)) ==>
                ItemsReferenceProducts(orderItems, productService.products)
      ensures orderItems == old(orderItems) && nextOrderId == old(nextOrderId)
      ensures productService.nextId == old(productService.nextId)
      ensures var c := CancelOrder(old(orders), old(orderItems), old(productService.products), id);
              && (c.Err? ==>
                    && r == Err(c.error)
                    && orders == old(orders) && productService.products == old(productService.products))
              && (c.Ok? ==>
                    && r == Ok(c.value.order)
                    && orders == old(orders)[id := c.value.order]
                    && productService.products == c.value.products)
      ensures SkusUnique(old(productService.products)) ==> SkusUnique(productService.products)
    {
      var found := FindOrderById(orders, id);
      if found.Err? {
        return Err(found.error);
      }
      var order := found.value;
      if order.status == Confirmed || order.status == Created {
        // Give every item's quantity back to its product, in order.
        var moved := MoveStockFor(ItemsOf(orderItems, id), true);
        if moved.Err? {
          return Err(moved.error);
        }
      } else if order.status == Delivered || order.status == Cancelled {
        return Err(BadRequest(CannotCancel(Name(order.status))));
      }
      if ItemsReferenceProducts(orderItems, old(productService.products)) {
        CancelKeepsReferences(old(orders), orderItems, old(productService.products), id);
      }
      RestatusKeepsTablesConsistent(orders, orderItems, nextOrderId, id, Cancelled);
      order := order.(status := Cancelled);
      orders := orders[id := order];
      r := Ok(order);
    }
  }
}

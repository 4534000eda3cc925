/**
 * The persisted records and the request records the services receive.
 * Money is BigDecimal with two decimal places in the source, so it is an
 * integer number of cents here; Integer columns are Java ints.
 */
module Entities {
  import opened Base
  import opened OrderStatuses

  /** A BigDecimal amount of scale 2, counted in cents. */
  type Cents = int

  type CategoryId = nat
  type CustomerId = nat
  type ProductId = nat
  type OrderId = nat

  datatype Category = Category(name: string, description: string, isActive: bool)

  datatype Customer = Customer(
    firstName: string, lastName: string, email: string, phone: string, document: string,
    isActive: bool)

  /** The product row; `categoryId` is the key of its category. */
  datatype Product = Product(
    name: string, description: string, price: Cents, stockQuantity: Int32,
    categoryId: CategoryId, sku: string, isActive: bool)

  /** The order row; `customerId` is the key of the customer who placed it. */
  datatype Order = Order(
    customerId: CustomerId, status: OrderStatus, totalAmount: Cents, shippingAddress: string)

  /** One line of an order, with the price captured when the order was placed. */
  datatype OrderItem = OrderItem(
    orderId: OrderId, productId: ProductId, quantity: Int32, unitPrice: Cents, subtotal: Cents)

  datatype CategoryDto = CategoryDto(name: string, description: string)

  datatype CustomerDto = CustomerDto(
    firstName: string, lastName: string, email: string, phone: string, document: string)

  /** The product request; `category` is a category name. */
  datatype ProductDto = ProductDto(
    name: string, description: string, price: Cents, stockQuantity: Int32,
    category: string, sku: string, isActive: bool)

  datatype ItemRequest = ItemRequest(sku: string, quantity: Int32)

  datatype OrderRequest = OrderRequest(customerEmail: string, shippingAddress: string, items: seq<ItemRequest>)

  /**
   * `new Category()`: active by default. The other fields are null in the
   * source until a setter runs; every service sets them before saving.
   */
  function NewCategory(): (c: Category)
    ensures c.isActive
  {
    Category("", "", true)
  }

  /** `new Customer()`: active by default. */
  function NewCustomer(): (c: Customer)
    ensures c.isActive
  {
    Customer("", "", "", "", "", true)
  }

  /** `new Product()`: stock 0 and active by default. */
  function NewProduct(): (p: Product)
    ensures p.stockQuantity == 0 && p.isActive
  {
    Product("", "", 0, 0, 0, "", true)
  }

  /** `new Order()`: the constructor makes every order PENDING. */
  function NewOrder(): (o: Order)
    ensures o.status == Pending
  {
    Order(0, Pending, 0, "")
  }

  /** The setters of the category services: name and description from the request. */
  function CategoryWith(c: Category, dto: CategoryDto): Category
  {
    c.(name := dto.name, description := dto.description)
  }

  /** The five setters of the customer services. */
  function CustomerWith(c: Customer, dto: CustomerDto): Customer
  {
    c.(firstName := dto.firstName, lastName := dto.lastName, email := dto.email,
       phone := dto.phone, document := dto.document)
  }

  /** The setters shared by createNewProduct and editProduct (everything but the SKU and the active flag). */
  function ProductWith(p: Product, dto: ProductDto, category: CategoryId): Product
  {
    p.(name := dto.name, description := dto.description, price := dto.price,
       stockQuantity := dto.stockQuantity, categoryId := category)
  }

  /**
   * The declared constraints of a category: a name of 3 to 30 characters
   * that is not blank (some character above the space, as after `trim`),
   * and a description of at most 500 characters.
   */
  predicate CategoryValid(c: Category)
  {
    && 3 <= |c.name| <= 30
    && (exists i :: 0 <= i < |c.name| && c.name[i] > ' ')
    && |c.description| <= 500
  }

  /**
   * The declared constraints of an order item: quantity at least 0, unit
   * price and subtotal at least 0.01. The order and product references are
   * keys here, so they are never null.
   */
  predicate ItemValid(it: OrderItem)
  {
    it.quantity >= 0 && it.unitPrice >= 1 && it.subtotal >= 1
  }

  /**
   * An item whose subtotal is its price times its quantity satisfies the
   * constraints only with a positive quantity: a zero-quantity line is refused.
   */
  lemma ValidPricedItemHasPositiveQuantity(it: OrderItem)
    requires it.subtotal == it.unitPrice * it.quantity
    ensures ItemValid(it) ==> it.quantity >= 1
    ensures it.quantity == 0 ==> !ItemValid(it)
  {
  }
}

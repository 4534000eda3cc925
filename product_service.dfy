/**
 * The product table: create with a SKU-uniqueness check, lookups by key and
 * by SKU, a full edit, and the stock edit through which every stock change
 * of the order service passes.
 */
module ProductServices {
  import opened Base
  import opened Entities
  import opened CategoryServices

  function SkuOf(p: Product): string { p.sku }

  predicate SkuTaken(products: map<ProductId, Product>, sku: string)
  {
    exists id :: id in products && products[id].sku == sku
  }

  /** The SKU column is unique: no two stored products share one. */
  ghost predicate SkusUnique(products: map<ProductId, Product>)
  {
    forall a, b {:trigger SkuOf(products[a]), SkuOf(products[b])} ::
      a in products && b in products && SkuOf(products[a]) == SkuOf(products[b]) ==> a == b
  }

  /** The keys of the products with that SKU. */
  function SkuMatches(products: map<ProductId, Product>, sku: string): (ids: set<ProductId>)
    ensures ids <= products.Keys
    ensures forall id :: id in ids <==> id in products && products[id].sku == sku
  {
    set id | id in products && products[id].sku == sku
  }

  /** `findProductById`: the stored product, or NotFound. */
  function FindProductById(products: map<ProductId, Product>, id: ProductId): (r: Result<Product>)
    ensures r.Ok? <==> id in products
    ensures r.Ok? ==> r.value == products[id]
    ensures r.Err? ==> r.error == NotFound(ProductNotFound)
  {
    FindById(products, id, ProductNotFound)
  }

  /** `findProductBySku`: the one product with that SKU, NotFound if none, NonUniqueResult if several. */
  function FindProductBySku(products: map<ProductId, Product>, sku: string): (r: Result<Row<Product>>)
    ensures r.Ok? ==> r.value.id in products && products[r.value.id] == r.value.entity && r.value.entity.sku == sku
    ensures r.Ok? ==> SkuMatches(products, sku) == {r.value.id}
    ensures r == Err(NotFound(ProductNotFound)) <==> !SkuTaken(products, sku)
    ensures r == Err(NonUniqueResult) <==> |SkuMatches(products, sku)| >= 2
    ensures r.Err? ==> r.error == NotFound(ProductNotFound) || r.error == NonUniqueResult
  {
    var ids := SkuMatches(products, sku);
    assert SkuTaken(products, sku) <==> ids != {} by {
      if SkuTaken(products, sku) {
        var id :| id in products && products[id].sku == sku;
        assert id in ids;
      }
    }
    SingleRow(products, ids, ProductNotFound)
  }

  /** While the SKUs are unique, a SKU lookup succeeds exactly when some product has that SKU. */
  lemma LookupWithUniqueSkus(products: map<ProductId, Product>, sku: string)
    requires SkusUnique(products)
    ensures FindProductBySku(products, sku).Ok? <==> SkuTaken(products, sku)
  {
    if SkuTaken(products, sku) {
      var id :| id in products && products[id].sku == sku;
      forall b | b in SkuMatches(products, sku) ensures b == id {
        assert SkuOf(products[b]) == SkuOf(products[id]);
      }
      OnlyElement(SkuMatches(products, sku), id);
    }
  }

  /**
   * The effect of `editStock(id, quantity)` on the table: a negative value is
   * refused before the product is looked up; otherwise exactly that
   * product's stock becomes the given value.
   */
  function SetStock(products: map<ProductId, Product>, id: ProductId, quantity: Int32): (r: Result<map<ProductId, Product>>)
    ensures quantity < 0 ==> r == Err(BadRequest(NegativeStock))
    ensures quantity >= 0 && id !in products ==> r == Err(NotFound(ProductNotFound))
    ensures r.Ok? <==> quantity >= 0 && id in products
    ensures r.Ok? ==> r.value.Keys == products.Keys && r.value[id].stockQuantity == quantity >= 0
    ensures r.Ok? ==> r.value[id] == products[id].(stockQuantity := r.value[id].stockQuantity)
    ensures r.Ok? ==> forall other :: other in products && other != id ==> r.value[other] == products[other]
  {
    if quantity < 0 then
      Err(BadRequest(NegativeStock))
    else
      var product :- FindProductById(products, id);
      Ok(products[id := product.(stockQuantity := quantity)])
  }

  /** Replacing a product by one with the same SKU keeps the SKUs unique. */
  lemma SameSkuUpdateKeepsSkusUnique(products: map<ProductId, Product>, id: ProductId, product: Product)
    requires SkusUnique(products) && id in products && product.sku == products[id].sku
    ensures SkusUnique(products[id := product])
  {
    var after := products[id := product];
    forall a, b | a in after && b in after && SkuOf(after[a]) == SkuOf(after[b]) ensures a == b {
      assert SkuOf(after[a]) == SkuOf(products[a]) && SkuOf(after[b]) == SkuOf(products[b]);
    }
  }

  /** Adding a product under a fresh key with a SKU no product has keeps the SKUs unique. */
  lemma FreshSkuKeepsSkusUnique(products: map<ProductId, Product>, id: ProductId, product: Product)
    requires SkusUnique(products) && id !in products && !SkuTaken(products, product.sku)
    ensures SkusUnique(products[id := product])
  {
    var after := products[id := product];
    forall a, b | a in after && b in after && SkuOf(after[a]) == SkuOf(after[b]) ensures a == b {
      if a != id && b != id {
        assert SkuOf(after[a]) == SkuOf(products[a]) && SkuOf(after[b]) == SkuOf(products[b]);
      }
    }
  }

  /** A stock edit touches only stock, so the SKUs stay unique. */
  lemma SetStockKeepsSkusUnique(products: map<ProductId, Product>, id: ProductId, quantity: Int32)
    requires SkusUnique(products) && SetStock(products, id, quantity).Ok?
    ensures SkusUnique(SetStock(products, id, quantity).value)
  {
    SameSkuUpdateKeepsSkusUnique(products, id, SetStock(products, id, quantity).value[id]);
  }

  class ProductService {
    var products: map<ProductId, Product>
    var nextId: ProductId
    const categoryService: CategoryService

    /** Keys are handed out in increasing order, so the next one is always free. */
    ghost predicate Valid()
      reads this
    {
      forall id :: id in products ==> id < nextId
    }

    constructor (categories: CategoryService)
      ensures Valid() && products == map[] && categoryService == categories
    {
      products := map[];
      nextId := 0;
      categoryService := categories;
    }

    /**
     * `createNewProduct`: Conflict when the SKU lookup finds a product (before
     * the category is looked up), the category lookup's failure when the
     * category name does not resolve, otherwise a new active product with the
     * request's fields. The request's active flag is not copied. Unique SKUs
     * stay unique.
     */
    method CreateNewProduct(dto: ProductDto) returns (r: Result<Row<Product>>)
      requires Valid()
      modifies this
      ensures old(products).Keys <= products.Keys
      ensures Valid()
      ensures FindProductBySku(old(products), dto.sku).Ok? ==> r == Err(Conflict(DuplicateSku))
      ensures FindProductBySku(old(products), dto.sku) == Err(NonUniqueResult) ==> r == Err(NonUniqueResult)
      ensures !SkuTaken(old(products), dto.sku) && FindCategoryByName(categoryService.categories, dto.category).Err? ==>
                r == Err(FindCategoryByName(categoryService.categories, dto.category).error)
      ensures r.Ok? <==> !SkuTaken(old(products), dto.sku) && FindCategoryByName(categoryService.categories, dto.category).Ok?
      ensures r.Err? ==> products == old(products) && nextId == old(nextId)
      ensures r.Ok? ==>
                && var p := r.value.entity;
                && r.value.id == old(nextId) && r.value.id !in old(products)
                && p.name == dto.name && p.description == dto.description && p.price == dto.price
                && p.stockQuantity == dto.stockQuantity && p.sku == dto.sku && p.isActive
                && p.categoryId == FindCategoryByName(categoryService.categories, dto.category).value.id
                && products == old(products)[r.value.id := p]
                && nextId == old(nextId) + 1
      ensures SkusUnique(old(products)) ==> SkusUnique(products)
      ensures SkusUnique(old(products)) && SkuTaken(old(products), dto.sku) ==> r == Err(Conflict(DuplicateSku))
    {
      var found := FindProductBySku(products, dto.sku);
      if SkusUnique(products) {
        LookupWithUniqueSkus(products, dto.sku);
      }
      if found.Ok? {
        return Err(Conflict(DuplicateSku));
      } else if found.error == NonUniqueResult {
        return Err(NonUniqueResult);
      }
      var category := FindCategoryByName(categoryService.categories, dto.category);
      if category.Err? {
        return Err(category.error);
      }
      var product := ProductWith(NewProduct(), dto, category.value.id).(sku := dto.sku);
      if SkusUnique(products) {
        FreshSkuKeepsSkusUnique(products, nextId, product);
      }
      r := Ok(Row(nextId, product));
      products := products[nextId := product];
      nextId := nextId + 1;
    }

    /**
     * `editProduct`: NotFound for an unknown key, then the category lookup's
     * failure; otherwise name, description, price, stock and category are
     * overwritten. The stock is not checked for negativity here.
     */
    method EditProduct(id: ProductId, dto: ProductDto) returns (r: Result<Product>)
      requires Valid()
      modifies this
      ensures old(products).Keys <= products.Keys
      ensures Valid() && nextId == old(nextId)
      ensures id !in old(products) ==> r == Err(NotFound(ProductNotFound))
      ensures id in old(products) && FindCategoryByName(categoryService.categories, dto.category).Err? ==>
                r == Err(FindCategoryByName(categoryService.categories, dto.category).error)
      ensures r.Ok? <==> id in old(products) && FindCategoryByName(categoryService.categories, dto.category).Ok?
      ensures r.Err? ==> products == old(products)
      ensures r.Ok? ==>
                && id in old(products)
                && FindCategoryByName(categoryService.categories, dto.category).Ok?
                && r.value == ProductWith(old(products)[id], dto,
                                          FindCategoryByName(categoryService.categories, dto.category).value.id)
                && r.value.stockQuantity == dto.stockQuantity
                && r.value.sku == old(products)[id].sku && r.value.isActive == old(products)[id].isActive
                && products == old(products)[id := r.value]
      ensures SkusUnique(old(products)) ==> SkusUnique(products)
    {
      var found := FindProductById(products, id);
      if found.Err? {
        return Err(found.error);
      }
      var category := FindCategoryByName(categoryService.categories, dto.category);
      if category.Err? {
        return Err(category.error);
      }
      var product := ProductWith(found.value, dto, category.value.id);
      if SkusUnique(products) {
        SameSkuUpdateKeepsSkusUnique(products, id, product);
      }
      products := products[id := product];
      r := Ok(product);
    }

    /** `editStock`: the table becomes SetStock's result, or stays as it was on failure. */
    method EditStock(id: ProductId, quantity: Int32) returns (r: Result<Product>)
      requires Valid()
      modifies this
      ensures old(products).Keys <= products.Keys
      ensures Valid() && nextId == old(nextId)
      ensures SetStock(old(products), id, quantity).Ok? ==>
                && products == SetStock(old(products), id, quantity).value
                && r == Ok(products[id])
      ensures SetStock(old(products), id, quantity).Err? ==>
                && products == old(products)
                && r == Err(SetStock(old(products), id, quantity).error)
    {
      if quantity < 0 {
        return Err(BadRequest(NegativeStock));
      }
      var found := FindProductById(products, id);
      if found.Err? {
        return Err(found.error);
      }
      var product := found.value.(stockQuantity := quantity);
      products := products[id := product];
      r := Ok(product);
    }
  }
}

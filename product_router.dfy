/**
 * The product router: list, create, delete and edit rows of the product
 * table, with the input constraints zod checks first.
 */
module ProductRouter {
  import opened Common
  import opened Tables

  const MinNameLength: nat := 3
  const MinPrice: int := 1000

  /** `editProduct` writes this image URL whatever the caller had. */
  const PlaceholderImageUrl: string := "https://placehold.co/600x400"

  /** zod: `name` has at least 3 characters and `price` is at least 1000. */
  predicate NameAndPriceValid(name: string, price: int) {
    |name| >= MinNameLength && price >= MinPrice
  }

  datatype CreateProductInput = CreateProductInput(name: string, price: int, categoryId: Id, imageUrl: string)

  datatype EditProductInput = EditProductInput(id: Id, name: string, price: int, categoryId: Id)

  /** The `category: { select: { id, name } }` part of a listed product. */
  datatype CategoryRef = CategoryRef(id: Id, name: string)

  datatype ProductView = ProductView(id: Id, name: string, price: int, imageUrl: string, category: Option<CategoryRef>)

  /** The category a product row points to, joined from the category table. */
  function CategoryOf(categories: seq<Category>, categoryId: Id): (r: Option<CategoryRef>)
    ensures r.None? <==> !HasKey(categories, CategoryKey, categoryId)
    ensures r.Some? ==> r.value.id == categoryId &&
                        exists i :: 0 <= i < |categories| && categories[i] == Category(categoryId, r.value.name)
  {
    match IndexOf(categories, CategoryKey, categoryId)
    case None => None
    case Some(i) => Some(CategoryRef(categories[i].id, categories[i].name))
  }

  /** `getProducts`: every product, in table order, with its category's id and name. */
  function GetProducts(products: seq<Product>, categories: seq<Category>): (r: seq<ProductView>)
    ensures |r| == |products|
    ensures forall k :: 0 <= k < |r| ==>
      && r[k].id == products[k].id && r[k].name == products[k].name
      && r[k].price == products[k].price && r[k].imageUrl == products[k].imageUrl
      && r[k].category == CategoryOf(categories, products[k].categoryId)
  {
    seq(|products|, k requires 0 <= k < |products| =>
      var p := products[k];
      ProductView(p.id, p.name, p.price, p.imageUrl, CategoryOf(categories, p.categoryId)))
  }

  /**
   * `createProduct`. `newId` is the id the database assigns; `isUrl` stands
   * for zod's `.url()` check. Connecting a category that does not exist makes
   * Prisma throw.
   */
  method CreateProduct(db: Db, input: CreateProductInput, isUrl: string -> bool, newId: Id)
    returns (r: Result<Product, ApiError>)
    requires db.Valid()
    requires !HasKey(db.products, ProductKey, newId)
    modifies db
    ensures db.Valid()
    ensures db.categories == old(db.categories) && db.orders == old(db.orders)
    ensures db.orderItems == old(db.orderItems)
    ensures !(NameAndPriceValid(input.name, input.price) && isUrl(input.imageUrl)) ==>
      r == Err(BadRequest) && db.products == old(db.products)
    ensures NameAndPriceValid(input.name, input.price) && isUrl(input.imageUrl) &&
            !HasKey(old(db.categories), CategoryKey, input.categoryId) ==>
      r == Err(InternalServerError(RecordNotFound)) && db.products == old(db.products)
    ensures NameAndPriceValid(input.name, input.price) && isUrl(input.imageUrl) &&
            HasKey(old(db.categories), CategoryKey, input.categoryId) ==>
      && r == Ok(Product(newId, input.name, input.price, input.imageUrl, input.categoryId))
      && db.products == old(db.products) + [r.value]
  {
    if !(NameAndPriceValid(input.name, input.price) && isUrl(input.imageUrl)) {
      return Err(BadRequest);
    }
    if IndexOf(db.categories, CategoryKey, input.categoryId).None? {
      return Err(InternalServerError(RecordNotFound));
    }
    var newProduct := Product(newId, input.name, input.price, input.imageUrl, input.categoryId);
    UniqueAppend(db.products, ProductKey, newProduct);
    db.products := db.products + [newProduct];
    return Ok(newProduct);
  }

  /** `deleteProductById`: removes exactly the row with that id and returns it. */
  method DeleteProductById(db: Db, id: Id) returns (r: Result<Product, ApiError>)
    requires db.Valid()
    modifies db
    ensures db.Valid()
    ensures db.categories == old(db.categories) && db.orders == old(db.orders)
    ensures db.orderItems == old(db.orderItems)
    ensures !HasKey(old(db.products), ProductKey, id) ==>
      r == Err(InternalServerError(RecordNotFound)) && db.products == old(db.products)
    ensures HasKey(old(db.products), ProductKey, id) ==>
      var k := IndexOf(old(db.products), ProductKey, id).value;
      && r == Ok(old(db.products)[k])
      && db.products == RemoveAt(old(db.products), k)
      && !HasKey(db.products, ProductKey, id)
  {
    var found := IndexOf(db.products, ProductKey, id);
    if found.None? {
      return Err(InternalServerError(RecordNotFound));
    }
    var k := found.value;
    var product := db.products[k];
    UniqueRemove(db.products, ProductKey, k);
    db.products := RemoveAt(db.products, k);
    return Ok(product);
  }

  /**
   * `editProduct`: replaces name, price and category of the row with that id
   * and always sets its image URL to the placeholder.
   */
  method EditProduct(db: Db, input: EditProductInput) returns (r: Result<Product, ApiError>)
    requires db.Valid()
    modifies db
    ensures db.Valid()
    ensures db.categories == old(db.categories) && db.orders == old(db.orders)
    ensures db.orderItems == old(db.orderItems)
    ensures !NameAndPriceValid(input.name, input.price) ==>
      r == Err(BadRequest) && db.products == old(db.products)
    ensures NameAndPriceValid(input.name, input.price) &&
            !(HasKey(old(db.products), ProductKey, input.id) && HasKey(old(db.categories), CategoryKey, input.categoryId)) ==>
      r == Err(InternalServerError(RecordNotFound)) && db.products == old(db.products)
    ensures NameAndPriceValid(input.name, input.price) &&
            HasKey(old(db.products), ProductKey, input.id) && HasKey(old(db.categories), CategoryKey, input.categoryId) ==>
      var k := IndexOf(old(db.products), ProductKey, input.id).value;
      && r == Ok(Product(input.id, input.name, input.price, PlaceholderImageUrl, input.categoryId))
      && db.products == old(db.products)[k := r.value]
  {
    if !NameAndPriceValid(input.name, input.price) {
      return Err(BadRequest);
    }
    var found := IndexOf(db.products, ProductKey, input.id);
    if found.None? || IndexOf(db.categories, CategoryKey, input.categoryId).None? {
      return Err(InternalServerError(RecordNotFound));
    }
    var k := found.value;
    var product := Product(input.id, input.name, input.price, PlaceholderImageUrl, input.categoryId);
    ReplaceSameKey(db.products, ProductKey, k, product);
    db.products := db.products[k := product];
    return Ok(product);
  }
}

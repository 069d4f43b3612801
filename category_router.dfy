/**
 * The category router: list categories with their product counts, and
 * create, edit and delete rows of the category table.
 */
module CategoryRouter {
  import opened Common
  import opened Tables

  const MinNameLength: nat := 3

  /** zod: `name` has at least 3 characters. */
  predicate NameValid(name: string) {
    |name| >= MinNameLength
  }

  /** A listed category with `_count.products`. */
  datatype CategoryView = CategoryView(id: Id, name: string, productCount: nat)

  /** The number of product rows that point to category `categoryId`. */
  function ProductCount(products: seq<Product>, categoryId: Id): nat {
    if |products| == 0 then 0
    else ProductCount(products[..|products| - 1], categoryId)
         + (if products[|products| - 1].categoryId == categoryId then 1 else 0)
  }

  /** `getCategories`: every category, in table order, with the number of its products. */
  function GetCategories(categories: seq<Category>, products: seq<Product>): (r: seq<CategoryView>)
    ensures |r| == |categories|
    ensures forall k :: 0 <= k < |r| ==>
      && r[k].id == categories[k].id && r[k].name == categories[k].name
      && r[k].productCount == ProductCount(products, categories[k].id)
  {
    seq(|categories|, k requires 0 <= k < |categories| =>
      CategoryView(categories[k].id, categories[k].name, ProductCount(products, categories[k].id)))
  }

  /** A category's count is bounded by the table, and is zero when no product points to it. */
  lemma {:induction false} ProductCountBounds(products: seq<Product>, categoryId: Id)
    ensures ProductCount(products, categoryId) <= |products|
    ensures ProductCount(products, categoryId) == 0 <==>
      forall k :: 0 <= k < |products| ==> products[k].categoryId != categoryId
  {
    if |products| > 0 {
      var n := |products| - 1;
      ProductCountBounds(products[..n], categoryId);
      assert forall k :: 0 <= k < n ==> products[..n][k] == products[k];
    }
  }

  /** Adding a product (a successful `createProduct`) raises its category's count by one and no other. */
  lemma ProductCountAfterInsert(products: seq<Product>, p: Product, categoryId: Id)
    ensures ProductCount(products + [p], categoryId)
         == ProductCount(products, categoryId) + (if p.categoryId == categoryId then 1 else 0)
  {
    assert (products + [p])[..|products|] == products;
  }

  /** Removing row `k` (a successful `deleteProductById`) lowers its category's count by one and no other. */
  lemma {:induction false} ProductCountAfterRemove(products: seq<Product>, k: nat, categoryId: Id)
    requires k < |products|
    ensures ProductCount(RemoveAt(products, k), categoryId) + (if products[k].categoryId == categoryId then 1 else 0)
         == ProductCount(products, categoryId)
  {
    var n := |products| - 1;
    var rest := RemoveAt(products, k);
    if k == n {
      assert rest == products[..n];
    } else {
      ProductCountAfterRemove(products[..n], k, categoryId);
      assert rest[..n - 1] == RemoveAt(products[..n], k);
      assert rest[n - 1] == products[n];
    }
  }

  /** `createCategory`. `newId` is the id the database assigns. */
  method CreateCategory(db: Db, name: string, newId: Id) returns (r: Result<Category, ApiError>)
    requires db.Valid()
    requires !HasKey(db.categories, CategoryKey, newId)
    modifies db
    ensures db.Valid()
    ensures db.products == old(db.products) && db.orders == old(db.orders)
    ensures db.orderItems == old(db.orderItems)
    ensures !NameValid(name) ==> r == Err(BadRequest) && db.categories == old(db.categories)
    ensures NameValid(name) ==>
      r == Ok(Category(newId, name)) && db.categories == old(db.categories) + [r.value]
  {
    if !NameValid(name) {
      return Err(BadRequest);
    }
    var newCategory := Category(newId, name);
    UniqueAppend(db.categories, CategoryKey, newCategory);
    db.categories := db.categories + [newCategory];
    return Ok(newCategory);
  }

  /** `editCategory`: renames the row with that id and changes nothing else. */
  method EditCategory(db: Db, id: Id, name: string) returns (r: Result<Category, ApiError>)
    requires db.Valid()
    modifies db
    ensures db.Valid()
    ensures db.products == old(db.products) && db.orders == old(db.orders)
    ensures db.orderItems == old(db.orderItems)
    ensures !NameValid(name) ==> r == Err(BadRequest) && db.categories == old(db.categories)
    ensures NameValid(name) && !HasKey(old(db.categories), CategoryKey, id) ==>
      r == Err(InternalServerError(RecordNotFound)) && db.categories == old(db.categories)
    ensures NameValid(name) && HasKey(old(db.categories), CategoryKey, id) ==>
      var k := IndexOf(old(db.categories), CategoryKey, id).value;
      && r == Ok(old(db.categories)[k].(name := name))
      && db.categories == old(db.categories)[k := r.value]
  {
    if !NameValid(name) {
      return Err(BadRequest);
    }
    var found := IndexOf(db.categories, CategoryKey, id);
    if found.None? {
      return Err(InternalServerError(RecordNotFound));
    }
    var k := found.value;
    var updated := db.categories[k].(name := name);
    ReplaceSameKey(db.categories, CategoryKey, k, updated);
    db.categories := db.categories[k := updated];
    return Ok(updated);
  }

  /** `deleteCategory`: removes exactly the row with that id. */
  method DeleteCategory(db: Db, id: Id) returns (r: Result<(), ApiError>)
    requires db.Valid()
    modifies db
    ensures db.Valid()
    ensures db.products == old(db.products) && db.orders == old(db.orders)
    ensures db.orderItems == old(db.orderItems)
    ensures !HasKey(old(db.categories), CategoryKey, id) ==>
      r == Err(InternalServerError(RecordNotFound)) && db.categories == old(db.categories)
    ensures HasKey(old(db.categories), CategoryKey, id) ==>
      && r == Ok(())
      && db.categories == RemoveAt(old(db.categories), IndexOf(old(db.categories), CategoryKey, id).value)
      && !HasKey(db.categories, CategoryKey, id)
  {
    var found := IndexOf(db.categories, CategoryKey, id);
    if found.None? {
      return Err(InternalServerError(RecordNotFound));
    }
    UniqueRemove(db.categories, CategoryKey, found.value);
    db.categories := RemoveAt(db.categories, found.value);
    return Ok(());
  }
}

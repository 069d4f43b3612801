/**
 * The database the routers work on: four tables held in memory, each a
 * sequence of rows in table order, plus the row-level helpers every router
 * uses (lookup by id, filter, removal).
 */
module Tables {
  import opened Common

  datatype OrderStatus = AwaitingPayment | Processing | Done

  datatype Category = Category(id: Id, name: string)

  /** `price` is in the smallest currency unit. */
  datatype Product = Product(id: Id, name: string, price: int, imageUrl: string, categoryId: Id)

  /** `paidAt` and `createdAt` are timestamps; `paidAt` is set outside this code (the payment webhook). */
  datatype Order = Order(
    id: Id,
    status: OrderStatus,
    subtotal: real,
    tax: real,
    grandTotal: real,
    externalTransactionId: Option<string>,
    paymentMethodId: Option<string>,
    paidAt: Option<int>,
    createdAt: int)

  /** `price` is the product's price copied when the order was created. */
  datatype OrderItem = OrderItem(orderId: Id, productId: Id, price: int, quantity: int)

  function CategoryKey(c: Category): Id { c.id }
  function ProductKey(p: Product): Id { p.id }
  function OrderKey(o: Order): Id { o.id }

  /** No two rows share a primary key. */
  predicate UniqueKeys<T>(s: seq<T>, key: T -> Id) {
    forall i, j :: 0 <= i < j < |s| ==> key(s[i]) != key(s[j])
  }

  predicate HasKey<T>(s: seq<T>, key: T -> Id, id: Id) {
    exists i :: 0 <= i < |s| && key(s[i]) == id
  }

  /** The position of the first row whose key is `id` (`findUnique`, `find`). */
  function IndexOf<T>(s: seq<T>, key: T -> Id, id: Id): (r: Option<nat>)
    ensures r.None? <==> !HasKey(s, key, id)
    ensures r.Some? ==> r.value < |s| && key(s[r.value]) == id
    ensures r.Some? ==> forall j :: 0 <= j < r.value ==> key(s[j]) != id
  {
    if |s| == 0 then None
    else if key(s[0]) == id then Some(0)
    else
      var rest := IndexOf(s[1..], key, id);
      assert forall j :: 1 <= j < |s| ==> s[j] == s[1..][j - 1];
      match rest
      case None => None
      case Some(k) => Some(k + 1)
  }

  /** With unique keys, the lookup of a row's own key finds that row. */
  lemma IndexOfUnique<T>(s: seq<T>, key: T -> Id, k: nat)
    requires UniqueKeys(s, key) && k < |s|
    ensures IndexOf(s, key, key(s[k])) == Some(k)
  {
    var r := IndexOf(s, key, key(s[k]));
    assert r.Some?;
  }

  /** The lookup finds the first row with that key. */
  lemma IndexOfFirst<T>(s: seq<T>, key: T -> Id, id: Id, k: nat)
    requires k < |s| && key(s[k]) == id
    requires forall j :: 0 <= j < k ==> key(s[j]) != id
    ensures IndexOf(s, key, id) == Some(k)
  {
    var r := IndexOf(s, key, id);
    assert r.Some?;
  }

  /** The rows of `s` that satisfy `keep`, in order (a `findMany` with a `where` clause). */
  function Filter<T(!new)>(s: seq<T>, keep: T -> bool): (r: seq<T>)
    ensures |r| <= |s|
    ensures forall x :: x in r <==> x in s && keep(x)
  {
    if |s| == 0 then []
    else
      var init := s[..|s| - 1];
      assert s == init + [s[|s| - 1]];
      Filter(init, keep) + (if keep(s[|s| - 1]) then [s[|s| - 1]] else [])
  }

  /** Filtering a table with one row appended: the old result, then that row if it is kept. */
  lemma FilterSnoc<T(!new)>(s: seq<T>, keep: T -> bool, x: T)
    ensures Filter(s + [x], keep) == Filter(s, keep) + (if keep(x) then [x] else [])
  {
    assert (s + [x])[..|s|] == s;
  }

  /** Each kept row appears in the result as often as in the table, and a dropped row not at all. */
  lemma {:induction false} FilterMultiset<T(!new)>(s: seq<T>, keep: T -> bool, x: T)
    ensures multiset(Filter(s, keep))[x] == if keep(x) then multiset(s)[x] else 0
  {
    if |s| > 0 {
      var init := s[..|s| - 1];
      FilterMultiset(init, keep, x);
      assert s == init + [s[|s| - 1]];
    }
  }

  /** Filters by two conditions that agree on every row give the same rows. */
  lemma {:induction false} FilterSameCondition<T(!new)>(s: seq<T>, keep: T -> bool, keep': T -> bool)
    requires forall x :: keep(x) == keep'(x)
    ensures Filter(s, keep) == Filter(s, keep')
  {
    if |s| > 0 {
      FilterSameCondition(s[..|s| - 1], keep, keep');
    }
  }

  function RemoveAt<T>(s: seq<T>, k: nat): (r: seq<T>)
    requires k < |s|
    ensures |r| == |s| - 1
    ensures forall j :: 0 <= j < k ==> r[j] == s[j]
    ensures forall j :: k <= j < |r| ==> r[j] == s[j + 1]
  {
    s[..k] + s[k + 1..]
  }

  lemma HasKeyAppend<T>(s: seq<T>, key: T -> Id, x: T, id: Id)
    ensures HasKey(s + [x], key, id) <==> HasKey(s, key, id) || key(x) == id
  {
    if HasKey(s, key, id) {
      var i :| 0 <= i < |s| && key(s[i]) == id;
      assert (s + [x])[i] == s[i];
    }
    if key(x) == id {
      assert (s + [x])[|s|] == x;
    }
  }

  lemma UniqueAppend<T>(s: seq<T>, key: T -> Id, x: T)
    requires UniqueKeys(s, key) && !HasKey(s, key, key(x))
    ensures UniqueKeys(s + [x], key)
  {
    var t := s + [x];
    forall i, j | 0 <= i < j < |t| ensures key(t[i]) != key(t[j]) {
      if j == |s| {
        assert t[i] == s[i];
      } else {
        assert t[i] == s[i] && t[j] == s[j];
      }
    }
  }

  /** Replacing a row by one with the same key keeps keys unique and keeps the same key set. */
  lemma ReplaceSameKey<T>(s: seq<T>, key: T -> Id, k: nat, x: T)
    requires UniqueKeys(s, key) && k < |s| && key(x) == key(s[k])
    ensures UniqueKeys(s[k := x], key)
    ensures forall id :: HasKey(s[k := x], key, id) <==> HasKey(s, key, id)
  {
    var t := s[k := x];
    forall id ensures HasKey(t, key, id) <==> HasKey(s, key, id) {
      if HasKey(s, key, id) {
        var i :| 0 <= i < |s| && key(s[i]) == id;
        assert key(t[i]) == id;
      }
      if HasKey(t, key, id) {
        var i :| 0 <= i < |t| && key(t[i]) == id;
        assert key(s[i]) == id;
      }
    }
  }

  lemma UniqueRemove<T>(s: seq<T>, key: T -> Id, k: nat)
    requires UniqueKeys(s, key) && k < |s|
    ensures UniqueKeys(RemoveAt(s, k), key)
    ensures forall id :: HasKey(RemoveAt(s, k), key, id) <==> HasKey(s, key, id) && id != key(s[k])
  {
    var t := RemoveAt(s, k);
    forall i, j | 0 <= i < j < |t| ensures key(t[i]) != key(t[j]) {
      var i' := if i < k then i else i + 1;
      var j' := if j < k then j else j + 1;
      assert t[i] == s[i'] && t[j] == s[j'];
    }
    forall id ensures HasKey(t, key, id) <==> HasKey(s, key, id) && id != key(s[k]) {
      if HasKey(t, key, id) {
        var i :| 0 <= i < |t| && key(t[i]) == id;
        var i' := if i < k then i else i + 1;
        assert key(s[i']) == id;
      }
      if HasKey(s, key, id) && id != key(s[k]) {
        var i :| 0 <= i < |s| && key(s[i]) == id;
        assert i != k;
        if i < k { assert key(t[i]) == id; } else { assert key(t[i - 1]) == id; }
      }
    }
  }

  /** The set of keys present in `s`. */
  function KeySet<T>(s: seq<T>, key: T -> Id): set<Id> {
    set i | 0 <= i < |s| :: key(s[i])
  }

  /** With unique keys there are exactly as many distinct keys as rows. */
  lemma {:induction false} UniqueKeysCardinality<T>(s: seq<T>, key: T -> Id)
    requires UniqueKeys(s, key)
    ensures |KeySet(s, key)| == |s|
  {
    if |s| > 0 {
      var n := |s| - 1;
      var init := s[..n];
      assert forall j :: 0 <= j < n ==> init[j] == s[j];
      UniqueKeysCardinality(init, key);
      assert KeySet(s, key) == KeySet(init, key) + {key(s[n])} by {
        forall id | id in KeySet(s, key) ensures id in KeySet(init, key) + {key(s[n])} {
          var i :| 0 <= i < |s| && key(s[i]) == id;
          if i < n { assert key(init[i]) == id; }
        }
      }
      assert key(s[n]) !in KeySet(init, key);
    }
  }

  /** Dropping a predicate's complement: the two filters split the rows. */
  lemma {:induction false} FilterSplit<T(!new)>(s: seq<T>, keep: T -> bool, drop: T -> bool)
    requires forall x :: drop(x) == !keep(x)
    ensures |Filter(s, keep)| + |Filter(s, drop)| == |s|
  {
    if |s| > 0 {
      FilterSplit(s[..|s| - 1], keep, drop);
    }
  }

  /** A filter that keeps everything is the identity. */
  lemma {:induction false} FilterAll<T(!new)>(s: seq<T>, keep: T -> bool)
    requires forall x :: keep(x)
    ensures Filter(s, keep) == s
  {
    if |s| > 0 {
      var init := s[..|s| - 1];
      FilterAll(init, keep);
      assert keep(s[|s| - 1]);
      assert Filter(s, keep) == Filter(init, keep) + [s[|s| - 1]];
      assert s == init + [s[|s| - 1]];
    }
  }

  predicate ItemsReferToOrders(items: seq<OrderItem>, orders: seq<Order>) {
    forall k :: 0 <= k < |items| ==> HasKey(orders, OrderKey, items[k].orderId)
  }

  /** The whole database. The routers are methods that read and write these four tables. */
  class Db {
    var categories: seq<Category>
    var products: seq<Product>
    var orders: seq<Order>
    var orderItems: seq<OrderItem>

    /**
     * Primary keys are unique in every table, and every order item belongs to
     * an existing order (orders are never deleted by this code).
     */
    ghost predicate Valid()
      reads this
    {
      && UniqueKeys(categories, CategoryKey)
      && UniqueKeys(products, ProductKey)
      && UniqueKeys(orders, OrderKey)
      && ItemsReferToOrders(orderItems, orders)
    }

    constructor ()
      ensures Valid()
      ensures categories == [] && products == [] && orders == [] && orderItems == []
    {
      categories, products, orders, orderItems := [], [], [], [];
    }
  }
}

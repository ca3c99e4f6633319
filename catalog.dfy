/**
 * Looking cart and order items up in the catalogue, and the totals of a
 * cart over the items that resolve. Both the order routes and the two cart
 * views resolve an item the same way: the first product with the item's
 * product id, then that product's first storage option with the item's
 * capacity (`Array.prototype.find`).
 */
module Catalog {
  import opened Wrappers
  import opened Schema

  /** `products.find(p => p.id === id)` */
  function FindProduct(products: seq<Product>, id: string): (r: Option<Product>)
    ensures r.None? <==> forall i :: 0 <= i < |products| ==> products[i].id != id
    ensures r.Some? ==> r.value in products && r.value.id == id
    ensures r.Some? ==> exists i :: FirstProductWithId(products, id, i) && products[i] == r.value
  {
    if products == [] then None
    else if products[0].id == id then
      assert FirstProductWithId(products, id, 0);
      Some(products[0])
    else
      var r := FindProduct(products[1..], id);
      if r.Some? then
        var i :| FirstProductWithId(products[1..], id, i) && products[1..][i] == r.value;
        assert FirstProductWithId(products, id, i + 1);
        r
      else r
  }

  /** Index `i` holds the first product whose id is `id`. */
  predicate FirstProductWithId(products: seq<Product>, id: string, i: int) {
    0 <= i < |products| && products[i].id == id && forall j :: 0 <= j < i ==> products[j].id != id
  }

  /** `storageOptions.find(s => s.capacity === capacity)` */
  function FindStorageOption(options: seq<StorageOption>, capacity: string): (r: Option<StorageOption>)
    ensures r.None? <==> forall i :: 0 <= i < |options| ==> options[i].capacity != capacity
    ensures r.Some? ==> r.value in options && r.value.capacity == capacity
    ensures r.Some? ==> exists i :: FirstOptionWithCapacity(options, capacity, i) && options[i] == r.value
  {
    if options == [] then None
    else if options[0].capacity == capacity then
      assert FirstOptionWithCapacity(options, capacity, 0);
      Some(options[0])
    else
      var r := FindStorageOption(options[1..], capacity);
      if r.Some? then
        var i :| FirstOptionWithCapacity(options[1..], capacity, i) && options[1..][i] == r.value;
        assert FirstOptionWithCapacity(options, capacity, i + 1);
        r
      else r
  }

  /** Index `i` holds the first storage option with that capacity. */
  predicate FirstOptionWithCapacity(options: seq<StorageOption>, capacity: string, i: int) {
    0 <= i < |options| && options[i].capacity == capacity &&
    forall j :: 0 <= j < i ==> options[j].capacity != capacity
  }

  /** The unit price of a cart item when both its product and its storage
      option resolve, and `None` otherwise. */
  function UnitPrice(config: StoreConfig, item: CartItem): Option<int> {
    var product := FindProduct(config.products, item.productId);
    if product.None? then None
    else
      var option := FindStorageOption(product.value.storageOptions, item.storage);
      if option.None? then None else Some(option.value.price)
  }

  predicate Resolves(config: StoreConfig, item: CartItem) {
    UnitPrice(config, item).Some?
  }

  /** What one item adds to the subtotal: price times quantity, or nothing
      when it does not resolve. */
  function LineAmount(config: StoreConfig, item: CartItem): int {
    match UnitPrice(config, item)
    case Some(price) => price * item.quantity
    case None => 0
  }

  /** What one item adds to the item count. */
  function LineCount(config: StoreConfig, item: CartItem): int {
    if Resolves(config, item) then item.quantity else 0
  }

  /** Σ price × quantity over the resolved items, accumulated front to back. */
  function Subtotal(config: StoreConfig, items: seq<CartItem>): int
  {
    if items == [] then 0
    else Subtotal(config, items[..|items| - 1]) + LineAmount(config, items[|items| - 1])
  }

  /** Σ quantity over the resolved items, accumulated front to back. */
  function ItemCount(config: StoreConfig, items: seq<CartItem>): int
  {
    if items == [] then 0
    else ItemCount(config, items[..|items| - 1]) + LineCount(config, items[|items| - 1])
  }

  /** Both totals add up over a concatenation of carts. */
  lemma {:induction false} TotalsAppend(config: StoreConfig, a: seq<CartItem>, b: seq<CartItem>)
    ensures Subtotal(config, a + b) == Subtotal(config, a) + Subtotal(config, b)
    ensures ItemCount(config, a + b) == ItemCount(config, a) + ItemCount(config, b)
  {
    if b == [] {
      assert a + b == a;
    } else {
      var n := |b| - 1;
      assert (a + b)[..|a + b| - 1] == a + b[..n];
      assert (a + b)[|a + b| - 1] == b[n];
      TotalsAppend(config, a, b[..n]);
    }
  }

  /** An item that does not resolve contributes to neither total: removing
      it leaves both unchanged. */
  lemma UnresolvedItemIgnored(config: StoreConfig, a: seq<CartItem>, item: CartItem, b: seq<CartItem>)
    requires !Resolves(config, item)
    ensures Subtotal(config, a + [item] + b) == Subtotal(config, a + b)
    ensures ItemCount(config, a + [item] + b) == ItemCount(config, a + b)
  {
    TotalsAppend(config, a + [item], b);
    TotalsAppend(config, a, [item]);
    TotalsAppend(config, a, b);
    assert [item][..0] == [];
  }

  /** The number of items that resolve. */
  function ResolvedCount(config: StoreConfig, items: seq<CartItem>): nat
  {
    if items == [] then 0
    else ResolvedCount(config, items[..|items| - 1]) + (if Resolves(config, items[|items| - 1]) then 1 else 0)
  }

  predicate NonNegativePrices(config: StoreConfig) {
    forall p, o :: p in config.products && o in p.storageOptions ==> o.price >= 0
  }

  /** With non-negative prices and quantities of at least one, the subtotal
      is non-negative and the item count is at least the number of items
      that resolve. */
  lemma {:induction false} TotalsBounds(config: StoreConfig, items: seq<CartItem>)
    requires forall i :: 0 <= i < |items| ==> IsCartItem(items[i])
    requires NonNegativePrices(config)
    ensures Subtotal(config, items) >= 0
    ensures ItemCount(config, items) >= ResolvedCount(config, items)
  {
    if items != [] {
      var n := |items| - 1;
      TotalsBounds(config, items[..n]);
      LineBounds(config, items[n]);
    }
  }

  lemma LineBounds(config: StoreConfig, item: CartItem)
    requires IsCartItem(item) && NonNegativePrices(config)
    ensures LineAmount(config, item) >= 0
    ensures LineCount(config, item) >= (if Resolves(config, item) then 1 else 0)
  {
    if Resolves(config, item) {
      var p := FindProduct(config.products, item.productId).value;
      var o := FindStorageOption(p.storageOptions, item.storage).value;
      assert p in config.products && o in p.storageOptions;
      assert o.price >= 0;
      MulNonNegative(o.price, item.quantity);
    }
  }

  lemma MulNonNegative(a: int, b: int)
    requires a >= 0 && b >= 0
    ensures a * b >= 0
  {
  }
}

/**
 * The cart page: looking a cart line up in the catalogue, the totals shown
 * under the cart, and the quantity buttons. The cart and the configuration
 * arrive from queries and may still be missing.
 */
module CartPage {
  import opened Wrappers
  import opened Schema
  import opened Catalog
  import opened Routes

  /** `{ product, storageOption }`, either of which may be `undefined`. */
  datatype ProductDetails = ProductDetails(product: Option<Product>, storageOption: Option<StorageOption>)

  /** `getProductDetails(productId, storage)`: the first product with the
      id, then its first option with the capacity. */
  function GetProductDetails(config: Option<StoreConfig>, productId: string, storage: string): (d: ProductDetails)
    ensures config.None? ==> d.product.None?
    ensures d.storageOption.Some? ==> d.product.Some?
    ensures d.product.Some? ==> d.product.value in config.value.products && d.product.value.id == productId
    ensures d.storageOption.Some? ==>
      d.storageOption.value in d.product.value.storageOptions && d.storageOption.value.capacity == storage
  {
    var product := if config.None? then None else FindProduct(config.value.products, productId);
    var storageOption := if product.None? then None else FindStorageOption(product.value.storageOptions, storage);
    ProductDetails(product, storageOption)
  }

  /** A cart line shows (and counts) exactly when both lookups succeed, and
      then at the price the totals use. */
  lemma DetailsResolve(config: StoreConfig, item: CartItem)
    ensures var d := GetProductDetails(Some(config), item.productId, item.storage);
      && (d.product.Some? && d.storageOption.Some? <==> Resolves(config, item))
      && (Resolves(config, item) ==> UnitPrice(config, item) == Some(d.storageOption.value.price))
  {
  }

  datatype Totals = Totals(subtotal: int, total: int, items: int)

  /** `calculateTotals()`: zeros while the cart or the configuration is
      missing, otherwise the sums over the lines that resolve; the total is
      the subtotal. */
  method CalculateTotals(cartItems: Option<seq<CartItem>>, config: Option<StoreConfig>) returns (t: Totals)
    ensures cartItems.None? || config.None? ==> t == Totals(0, 0, 0)
    ensures cartItems.Some? && config.Some? ==>
      && t.subtotal == Subtotal(config.value, cartItems.value)
      && t.items == ItemCount(config.value, cartItems.value)
      && t.total == t.subtotal
  {
    if cartItems.None? || config.None? {
      return Totals(0, 0, 0);
    }
    var cart := cartItems.value;
    var subtotal := 0;
    var items := 0;
    for i := 0 to |cart|
      invariant subtotal == Subtotal(config.value, cart[..i])
      invariant items == ItemCount(config.value, cart[..i])
    {
      var item := cart[i];
      assert cart[..i + 1][..i] == cart[..i];
      var details := GetProductDetails(config, item.productId, item.storage);
      DetailsResolve(config.value, item);
      if details.product.Some? && details.storageOption.Some? {
        subtotal := subtotal + details.storageOption.value.price * item.quantity;
        items := items + item.quantity;
      }
    }
    assert cart[..|cart|] == cart;
    return Totals(subtotal, subtotal, items);
  }

  /** `handleQuantityChange(item, delta)`: the `PATCH` it sends (item id and
      new quantity), or nothing when the new quantity would drop below one. */
  function HandleQuantityChange(item: CartItem, delta: int): (request: Option<(string, int)>)
    ensures request.None? <==> item.quantity + delta < 1
    ensures request.Some? ==> request.value == (item.id, item.quantity + delta)
  {
    var newQuantity := item.quantity + delta;
    if newQuantity < 1 then None else Some((item.id, newQuantity))
  }

  /** The decrease button: disabled at quantity one or while an update is
      pending. */
  predicate DecreaseDisabled(item: CartItem, pending: bool) {
    item.quantity <= 1 || pending
  }

  /** Every request the buttons send passes the server's quantity guard,
      and an enabled decrease button always sends one, as does the increase
      button for a stored line. */
  lemma QuantityRequestsAccepted(item: CartItem, delta: int, update: int -> Option<CartItem>)
    ensures HandleQuantityChange(item, delta).Some? ==>
      PatchCartRoute(Num(HandleQuantityChange(item, delta).value.1), update) != Failure(HttpError(400, "Invalid quantity"))
    ensures !DecreaseDisabled(item, false) ==> HandleQuantityChange(item, -1).Some?
    ensures IsCartItem(item) ==> HandleQuantityChange(item, 1).Some?
  {
  }
}

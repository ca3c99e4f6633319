/**
 * The order summary card of checkout: one line per cart item that resolves
 * against the catalogue, and the item count and subtotal under them.
 */
module OrderSummary {
  import opened Wrappers
  import opened Schema
  import opened Catalog

  datatype SummaryTotals = SummaryTotals(subtotal: int, itemsCount: int)

  /** `calculateTotals()`: the sums over the items that resolve. */
  method CalculateTotals(cartItems: seq<CartItem>, config: StoreConfig) returns (t: SummaryTotals)
    ensures t.subtotal == Subtotal(config, cartItems)
    ensures t.itemsCount == ItemCount(config, cartItems)
  {
    var subtotal := 0;
    var itemsCount := 0;
    for i := 0 to |cartItems|
      invariant subtotal == Subtotal(config, cartItems[..i])
      invariant itemsCount == ItemCount(config, cartItems[..i])
    {
      var item := cartItems[i];
      assert cartItems[..i + 1][..i] == cartItems[..i];
      var product := FindProduct(config.products, item.productId);
      var storageOption := if product.None? then None else FindStorageOption(product.value.storageOptions, item.storage);
      if product.Some? && storageOption.Some? {
        subtotal := subtotal + storageOption.value.price * item.quantity;
        itemsCount := itemsCount + item.quantity;
      }
    }
    assert cartItems[..|cartItems|] == cartItems;
    t := SummaryTotals(subtotal, itemsCount);
  }

  /** One rendered summary line: product name, quantity, storage and the
      line price. */
  datatype SummaryLine = SummaryLine(itemId: string, productName: string, quantity: int, storage: string, amount: int)

  /** The line rendered for an item, or nothing (`return null`) when its
      product or storage option is missing. */
  function LineFor(config: StoreConfig, item: CartItem): seq<SummaryLine> {
    var product := FindProduct(config.products, item.productId);
    if product.None? then []
    else
      var storageOption := FindStorageOption(product.value.storageOptions, item.storage);
      if storageOption.None? then []
      else [SummaryLine(item.id, product.value.displayName, item.quantity, item.storage, storageOption.value.price * item.quantity)]
  }

  /** `cartItems.map(...)` with the `null` entries rendering nothing. */
  function SummaryLines(config: StoreConfig, cartItems: seq<CartItem>): seq<SummaryLine> {
    if cartItems == [] then []
    else SummaryLines(config, cartItems[..|cartItems| - 1]) + LineFor(config, cartItems[|cartItems| - 1])
  }

  function SumAmounts(lines: seq<SummaryLine>): int {
    if lines == [] then 0 else SumAmounts(lines[..|lines| - 1]) + lines[|lines| - 1].amount
  }

  function SumQuantities(lines: seq<SummaryLine>): int {
    if lines == [] then 0 else SumQuantities(lines[..|lines| - 1]) + lines[|lines| - 1].quantity
  }

  lemma {:induction false} SumsAppend(a: seq<SummaryLine>, b: seq<SummaryLine>)
    ensures SumAmounts(a + b) == SumAmounts(a) + SumAmounts(b)
    ensures SumQuantities(a + b) == SumQuantities(a) + SumQuantities(b)
  {
    if b == [] {
      assert a + b == a;
    } else {
      assert (a + b)[..|a + b| - 1] == a + b[..|b| - 1];
      SumsAppend(a, b[..|b| - 1]);
    }
  }

  /** The card is consistent: one line per item that resolves, and the
      subtotal and item count under the lines are the sums of the line
      prices and quantities shown above them. */
  lemma {:induction false} SummaryMatchesTotals(config: StoreConfig, cartItems: seq<CartItem>)
    ensures |SummaryLines(config, cartItems)| == ResolvedCount(config, cartItems)
    ensures SumAmounts(SummaryLines(config, cartItems)) == Subtotal(config, cartItems)
    ensures SumQuantities(SummaryLines(config, cartItems)) == ItemCount(config, cartItems)
  {
    if cartItems != [] {
      var n := |cartItems| - 1;
      SummaryMatchesTotals(config, cartItems[..n]);
      var line := LineFor(config, cartItems[n]);
      SumsAppend(SummaryLines(config, cartItems[..n]), line);
      if line != [] {
        assert SumAmounts(line) == line[0].amount by {
          assert line[..0] == [];
        }
        assert SumQuantities(line) == line[0].quantity by {
          assert line[..0] == [];
        }
      }
    }
  }

  /** Every summary line belongs to a cart item that resolves, at that
      item's line amount. */
  lemma {:induction false} SummaryLinesResolve(config: StoreConfig, cartItems: seq<CartItem>)
    ensures forall l :: l in SummaryLines(config, cartItems) ==>
      exists item :: item in cartItems && Resolves(config, item) && l.itemId == item.id &&
                     l.quantity == item.quantity && l.amount == LineAmount(config, item)
  {
    if cartItems != [] {
      var n := |cartItems| - 1;
      SummaryLinesResolve(config, cartItems[..n]);
      forall l | l in SummaryLines(config, cartItems)
        ensures exists item :: item in cartItems && Resolves(config, item) && l.itemId == item.id &&
                               l.quantity == item.quantity && l.amount == LineAmount(config, item)
      {
        if l in SummaryLines(config, cartItems[..n]) {
          var item :| item in cartItems[..n] && Resolves(config, item) && l.itemId == item.id &&
                      l.quantity == item.quantity && l.amount == LineAmount(config, item);
          assert item in cartItems;
        } else {
          assert l in LineFor(config, cartItems[n]);
          assert cartItems[n] in cartItems;
        }
      }
    }
  }
}

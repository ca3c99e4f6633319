/**
 * The request handling of the order, cart and admin product routes that
 * does more than hand a request to the store: the input guards, pricing an
 * order line against the catalogue, building the records of a batch order,
 * and deriving a storage option's price from its original price and
 * discount.
 *
 * Store operations that live outside the order store (the cart store,
 * `createOrders`, the product catalogue writes) are not modelled: where a
 * route calls one, the model returns what the route would pass to it, or
 * takes what it returns as a parameter.
 */
module Routes {
  import opened Wrappers
  import opened Schema
  import opened Catalog
  import opened Storage

  /** An HTTP error answer: its status code, its `error` message and the
      `details` the schema answers add (the issues of the failed parse). */
  datatype HttpError = HttpError(status: int, message: string, details: seq<Issue> := [])

  // ---------------------------------------------------------------------
  // Pricing one order line
  // ---------------------------------------------------------------------

  datatype Amounts = Amounts(fullPrice: int, paidAmount: int, remainingBalance: int)

  /** The amounts of one order line whose storage option costs `price`: a
      full payment pays the price, every other payment type pays the
      configured advance, and the balance is what is left. Nothing checks
      that the balance is non-negative. */
  function PriceLine(price: int, paymentType: string, advance: int): (a: Amounts)
    ensures a.fullPrice == price
    ensures a.fullPrice == a.paidAmount + a.remainingBalance
    ensures paymentType == "full" ==> a.paidAmount == price && a.remainingBalance == 0
    ensures paymentType != "full" ==> a.paidAmount == advance
  {
    var paid := if paymentType == "full" then price else advance;
    Amounts(price, paid, price - paid)
  }

  // ---------------------------------------------------------------------
  // POST /api/orders/batch
  // ---------------------------------------------------------------------

  /** One element of the parsed `items` array. */
  datatype BatchItem = BatchItem(productId: string, storage: string, color: Option<string>)

  /** What `JSON.parse(items)` produced: an array of items, or something else. */
  datatype ParsedItems = ItemArray(items: seq<BatchItem>) | NotAnArray

  /** The customer fields of the request body, passed through unvalidated. */
  datatype Customer = Customer(customerName: string, phone: string, address: string, pinCode: string, paymentType: string)

  datatype BatchRequest = BatchRequest(screenshot: Option<string>, items: Option<string>, customer: Customer)

  /** The record the batch route builds for one item, or its 404 when the
      product or the storage option is missing from the catalogue. */
  function BatchRecord(config: StoreConfig, c: Customer, screenshot: string, item: BatchItem): (r: Result<OrderData, HttpError>)
  {
    var product := FindProduct(config.products, item.productId);
    if product.None? then
      Failure(HttpError(404, "Product " + item.productId + " not found"))
    else
      var option := FindStorageOption(product.value.storageOptions, item.storage);
      if option.None? then
        Failure(HttpError(404, "Storage option " + item.storage + " not found for product " + item.productId))
      else
        var a := PriceLine(option.value.price, c.paymentType, config.paymentConfig.defaultAdvancePayment);
        Success(OrderData(c.customerName, c.phone, c.address, c.pinCode, item.productId,
                          product.value.displayName, item.storage, item.color, a.fullPrice,
                          a.paidAmount, a.remainingBalance, c.paymentType, screenshot))
  }

  /** The record of an item whose product and storage option were found:
      priced by the option, paid in full or by the configured advance. */
  lemma BatchRecordResolved(config: StoreConfig, c: Customer, screenshot: string, item: BatchItem,
                            p: Product, o: StorageOption, a: Amounts)
    requires FindProduct(config.products, item.productId) == Some(p)
    requires FindStorageOption(p.storageOptions, item.storage) == Some(o)
    requires a == PriceLine(o.price, c.paymentType, config.paymentConfig.defaultAdvancePayment)
    ensures BatchRecord(config, c, screenshot, item) ==
      Success(OrderData(c.customerName, c.phone, c.address, c.pinCode, item.productId,
                        p.displayName, item.storage, item.color, a.fullPrice,
                        a.paidAmount, a.remainingBalance, c.paymentType, screenshot))
  {
  }

  /** A batch record resolves its item against the catalogue: it exists
      exactly when the product and one of its storage options match, it is
      priced by the first matching option, and it carries the item and the
      shared customer fields. */
  lemma BatchRecordSpec(config: StoreConfig, c: Customer, screenshot: string, item: BatchItem)
    ensures var r := BatchRecord(config, c, screenshot, item);
      && (r.Success? <==> exists p, o :: p in config.products && p.id == item.productId &&
                                       o in p.storageOptions && o.capacity == item.storage &&
                                       p == FindProduct(config.products, item.productId).value)
      && (r.Failure? ==> r.error.status == 404)
      && (r.Success? ==>
           var p := FindProduct(config.products, item.productId).value;
           var o := FindStorageOption(p.storageOptions, item.storage).value;
           && r.value.fullPrice == o.price
           && r.value.fullPrice == r.value.paidAmount + r.value.remainingBalance
           && r.value.productId == item.productId && r.value.storage == item.storage
           && r.value.color == item.color && r.value.productName == p.displayName
           && SharesRequest(r.value, c, screenshot))
  {
    var r := BatchRecord(config, c, screenshot, item);
    var product := FindProduct(config.products, item.productId);
    if product.Some? {
      var p := product.value;
      var option := FindStorageOption(p.storageOptions, item.storage);
      if option.Some? {
        assert option.value in p.storageOptions;
      }
    }
  }

  /** The record carries the request's customer fields, payment type and
      screenshot filename. */
  predicate SharesRequest(d: OrderData, c: Customer, screenshot: string) {
    && d.customerName == c.customerName && d.phone == c.phone && d.address == c.address
    && d.pinCode == c.pinCode && d.paymentType == c.paymentType && d.paymentScreenshot == screenshot
  }

  /** The outcome of each item, in input order. */
  function ItemOutcomes(config: StoreConfig, c: Customer, screenshot: string, items: seq<BatchItem>): (rs: seq<Result<OrderData, HttpError>>)
    ensures |rs| == |items|
    ensures forall i :: 0 <= i < |items| ==> rs[i] == BatchRecord(config, c, screenshot, items[i])
  {
    seq(|items|, i requires 0 <= i < |items| => BatchRecord(config, c, screenshot, items[i]))
  }

  /** A loop that walks the outcomes front to back and returns at the first
      failure: the first error, or all the values. */
  function Collect<T>(rs: seq<Result<T, HttpError>>): Result<seq<T>, HttpError>
  {
    if rs == [] then Success([])
    else
      match Collect(rs[..|rs| - 1])
      case Failure(e) => Failure(e)
      case Success(vs) =>
        match rs[|rs| - 1]
        case Failure(e) => Failure(e)
        case Success(v) => Success(vs + [v])
  }

  /** Collecting succeeds exactly when every outcome does, and then it holds
      their values in order. */
  lemma {:induction false} CollectSuccess<T>(rs: seq<Result<T, HttpError>>)
    ensures Collect(rs).Success? <==> (forall i :: 0 <= i < |rs| ==> rs[i].Success?)
    ensures Collect(rs).Success? ==>
      (&& |Collect(rs).value| == |rs|
       && forall i :: 0 <= i < |rs| ==> Collect(rs).value[i] == rs[i].value)
  {
    if rs != [] {
      var n := |rs| - 1;
      CollectSuccess(rs[..n]);
      assert forall i :: 0 <= i < n ==> rs[i] == rs[..n][i];
    }
  }

  /** Outcome `i` is the first failure. */
  predicate FirstFailure<T>(rs: seq<Result<T, HttpError>>, i: int) {
    && 0 <= i < |rs|
    && rs[i].Failure?
    && forall j :: 0 <= j < i ==> rs[j].Success?
  }

  /** Collecting fails with the error of the first failure. */
  lemma {:induction false} CollectFailure<T>(rs: seq<Result<T, HttpError>>, i: int)
    requires FirstFailure(rs, i)
    ensures Collect(rs) == Failure(rs[i].error)
  {
    var n := |rs| - 1;
    if i < n {
      assert FirstFailure(rs[..n], i);
      CollectFailure(rs[..n], i);
    } else {
      CollectSuccess(rs[..n]);
    }
  }

  lemma FirstFailureAfterSuccess<T>(rs: seq<Result<T, HttpError>>, i: int)
    requires 0 <= i < |rs| && Collect(rs[..i]).Success? && rs[i].Failure?
    ensures FirstFailure(rs, i)
  {
    CollectSuccess(rs[..i]);
    assert forall j :: 0 <= j < i ==> rs[..i][j] == rs[j];
  }

  /** Walking the outcomes stops at a failure reached after successes. */
  lemma CollectStops<T>(rs: seq<Result<T, HttpError>>, i: int)
    requires 0 <= i < |rs| && Collect(rs[..i]).Success? && rs[i].Failure?
    ensures Collect(rs) == Failure(rs[i].error)
  {
    FirstFailureAfterSuccess(rs, i);
    CollectFailure(rs, i);
  }

  lemma CollectStep<T>(rs: seq<Result<T, HttpError>>, i: int, vs: seq<T>)
    requires 0 <= i < |rs| && Collect(rs[..i]) == Success(vs) && rs[i].Success?
    ensures Collect(rs[..i + 1]) == Success(vs + [rs[i].value])
  {
    assert rs[..i + 1][..i] == rs[..i];
  }

  /** The records built for `items` front to back, or the error of the first
      item that fails. */
  function BatchRecords(config: StoreConfig, c: Customer, screenshot: string, items: seq<BatchItem>): Result<seq<OrderData>, HttpError>
  {
    Collect(ItemOutcomes(config, c, screenshot, items))
  }

  /** The batch succeeds exactly when every item resolves; then it holds one
      record per item, in input order, and otherwise it fails with the 404 of
      the first item that does not resolve. */
  lemma BatchRecordsSpec(config: StoreConfig, c: Customer, screenshot: string, items: seq<BatchItem>)
    ensures BatchRecords(config, c, screenshot, items).Success? <==>
      (forall i :: 0 <= i < |items| ==> BatchRecord(config, c, screenshot, items[i]).Success?)
    ensures BatchRecords(config, c, screenshot, items).Success? ==>
      (&& |BatchRecords(config, c, screenshot, items).value| == |items|
       && forall i :: 0 <= i < |items| ==>
            BatchRecords(config, c, screenshot, items).value[i] == BatchRecord(config, c, screenshot, items[i]).value)
    ensures forall i :: FirstFailure(ItemOutcomes(config, c, screenshot, items), i) ==>
      BatchRecords(config, c, screenshot, items) == Failure(BatchRecord(config, c, screenshot, items[i]).error)
  {
    var rs := ItemOutcomes(config, c, screenshot, items);
    CollectSuccess(rs);
    forall i | FirstFailure(rs, i)
      ensures Collect(rs) == Failure(BatchRecord(config, c, screenshot, items[i]).error)
    {
      CollectFailure(rs, i);
    }
  }

  /** Every record of a successful batch shares the request's customer
      fields and screenshot, and its amounts add up. */
  lemma BatchRecordsShareRequest(config: StoreConfig, c: Customer, screenshot: string, items: seq<BatchItem>)
    requires BatchRecords(config, c, screenshot, items).Success?
    ensures forall d :: d in BatchRecords(config, c, screenshot, items).value ==>
      SharesRequest(d, c, screenshot) && d.fullPrice == d.paidAmount + d.remainingBalance
  {
    BatchRecordsSpec(config, c, screenshot, items);
    var records := BatchRecords(config, c, screenshot, items).value;
    forall d | d in records ensures SharesRequest(d, c, screenshot) && d.fullPrice == d.paidAmount + d.remainingBalance {
      var i :| 0 <= i < |records| && records[i] == d;
      BatchRecordSpec(config, c, screenshot, items[i]);
    }
  }

  /** The batch route up to its call of `createOrders`: the 400 answers of
      its guards, the 404 of the first item that does not resolve, or the
      records it hands to the store. */
  function BatchRoute(req: BatchRequest, parseJson: string -> Option<ParsedItems>, config: StoreConfig): Result<seq<OrderData>, HttpError>
  {
    if req.screenshot.None? then Failure(HttpError(400, "Payment screenshot is required"))
    else if req.items.None? || req.items.value == "" then Failure(HttpError(400, "Items are required"))
    else
      match parseJson(req.items.value)
      case None => Failure(HttpError(400, "Invalid items format"))
      case Some(parsed) =>
        if parsed.NotAnArray? || parsed.items == [] then Failure(HttpError(400, "Items must be a non-empty array"))
        else BatchRecords(config, req.customer, req.screenshot.value, parsed.items)
  }

  /** `POST /api/orders/batch`: the guards, then one record pushed per cart
      item, returning at the first item that does not resolve. */
  method PostOrdersBatch(req: BatchRequest, parseJson: string -> Option<ParsedItems>, config: StoreConfig)
    returns (r: Result<seq<OrderData>, HttpError>)
    ensures r == BatchRoute(req, parseJson, config)
    ensures r.Success? ==> |r.value| >= 1
  {
    if req.screenshot.None? {
      return Failure(HttpError(400, "Payment screenshot is required"));
    }
    if req.items.None? || req.items.value == "" {
      return Failure(HttpError(400, "Items are required"));
    }
    var parsed := parseJson(req.items.value);
    if parsed.None? {
      return Failure(HttpError(400, "Invalid items format"));
    }
    if parsed.value.NotAnArray? || parsed.value.items == [] {
      return Failure(HttpError(400, "Items must be a non-empty array"));
    }
    r := BuildBatchRecords(config, req.customer, req.screenshot.value, parsed.value.items);
    BatchRecordsSpec(config, req.customer, req.screenshot.value, parsed.value.items);
  }

  /** The loop of the batch route: one record pushed per item, returning the
      404 of the first item whose product or storage option is missing. */
  method BuildBatchRecords(config: StoreConfig, c: Customer, screenshot: string, items: seq<BatchItem>)
    returns (r: Result<seq<OrderData>, HttpError>)
    ensures r == BatchRecords(config, c, screenshot, items)
  {
    var records: seq<OrderData> := [];
    for i := 0 to |items|
      invariant Collect(ItemOutcomes(config, c, screenshot, items)[..i]) == Success(records)
    {
      var item := items[i];
      var product := FindProduct(config.products, item.productId);
      if product.None? {
        var err := HttpError(404, "Product " + item.productId + " not found");
        BatchRecordNoProduct(config, c, screenshot, item);
        BatchStops(config, c, screenshot, items, i, records, err);
        return Failure(err);
      }
      var option := FindStorageOption(product.value.storageOptions, item.storage);
      if option.None? {
        var err := HttpError(404, "Storage option " + item.storage + " not found for product " + item.productId);
        BatchRecordNoOption(config, c, screenshot, item, product.value);
        BatchStops(config, c, screenshot, items, i, records, err);
        return Failure(err);
      }
      var a := PriceLine(option.value.price, c.paymentType, config.paymentConfig.defaultAdvancePayment);
      var record := OrderData(c.customerName, c.phone, c.address, c.pinCode, item.productId,
                              product.value.displayName, item.storage, item.color, a.fullPrice,
                              a.paidAmount, a.remainingBalance, c.paymentType, screenshot);
      BatchRecordResolved(config, c, screenshot, item, product.value, option.value, a);
      BatchContinues(config, c, screenshot, items, i, records, record);
      records := records + [record];
    }
    BatchDone(config, c, screenshot, items, records);
    r := Success(records);
  }

  /** The loop stops at the first item that fails, with that item's error. */
  lemma BatchStops(config: StoreConfig, c: Customer, screenshot: string, items: seq<BatchItem>, i: int,
                   records: seq<OrderData>, err: HttpError)
    requires 0 <= i < |items|
    requires Collect(ItemOutcomes(config, c, screenshot, items)[..i]) == Success(records)
    requires BatchRecord(config, c, screenshot, items[i]) == Failure(err)
    ensures BatchRecords(config, c, screenshot, items) == Failure(err)
  {
    CollectStops(ItemOutcomes(config, c, screenshot, items), i);
  }

  /** A resolved item appends its record. */
  lemma BatchContinues(config: StoreConfig, c: Customer, screenshot: string, items: seq<BatchItem>, i: int,
                       records: seq<OrderData>, record: OrderData)
    requires 0 <= i < |items|
    requires Collect(ItemOutcomes(config, c, screenshot, items)[..i]) == Success(records)
    requires BatchRecord(config, c, screenshot, items[i]) == Success(record)
    ensures Collect(ItemOutcomes(config, c, screenshot, items)[..i + 1]) == Success(records + [record])
  {
    CollectStep(ItemOutcomes(config, c, screenshot, items), i, records);
  }

  lemma BatchDone(config: StoreConfig, c: Customer, screenshot: string, items: seq<BatchItem>, records: seq<OrderData>)
    requires Collect(ItemOutcomes(config, c, screenshot, items)[..|items|]) == Success(records)
    ensures BatchRecords(config, c, screenshot, items) == Success(records)
  {
    var rs := ItemOutcomes(config, c, screenshot, items);
    assert rs[..|items|] == rs;
  }

  lemma BatchRecordNoProduct(config: StoreConfig, c: Customer, screenshot: string, item: BatchItem)
    requires FindProduct(config.products, item.productId).None?
    ensures BatchRecord(config, c, screenshot, item) == Failure(HttpError(404, "Product " + item.productId + " not found"))
  {
  }

  lemma BatchRecordNoOption(config: StoreConfig, c: Customer, screenshot: string, item: BatchItem, p: Product)
    requires FindProduct(config.products, item.productId) == Some(p)
    requires FindStorageOption(p.storageOptions, item.storage).None?
    ensures BatchRecord(config, c, screenshot, item) ==
      Failure(HttpError(404, "Storage option " + item.storage + " not found for product " + item.productId))
  {
  }

  // ---------------------------------------------------------------------
  // POST /api/orders
  // ---------------------------------------------------------------------

  /** The single-order route up to its call of `createOrder`: the answer
      for a missing screenshot, for a body the order schema rejects, and for
      a product or storage option missing from the catalogue, or else the
      order data to store. */
  function OrderRoute(screenshot: Option<string>, body: OrderInput, config: StoreConfig): Result<OrderData, HttpError>
  {
    if screenshot.None? then Failure(HttpError(400, "Payment screenshot is required"))
    else
      match ParseInsertOrder(body)
      case Failure(issues) => Failure(HttpError(400, "Invalid order data", issues))
      case Success(o) =>
        var product := FindProduct(config.products, o.productId);
        if product.None? then Failure(HttpError(404, "Product not found"))
        else
          var option := FindStorageOption(product.value.storageOptions, o.storage);
          if option.None? then Failure(HttpError(404, "Storage option not found"))
          else
            var a := PriceLine(option.value.price, o.paymentType, config.paymentConfig.defaultAdvancePayment);
            Success(OrderData(o.customerName, o.phone, o.address, o.pinCode, o.productId,
                              product.value.displayName, o.storage, o.color, a.fullPrice,
                              a.paidAmount, a.remainingBalance, o.paymentType, screenshot.value))
  }

  /** With a screenshot, a body the order schema rejects is answered with 400
      "Invalid order data" and, as `details`, an issue for exactly the
      fields that break their rules. */
  lemma OrderRouteRejects(screenshot: Option<string>, body: OrderInput, config: StoreConfig)
    requires screenshot.Some? && !OrderInputValid(body)
    ensures var r := OrderRoute(screenshot, body, config);
      && r.Failure? && r.error.status == 400 && r.error.message == "Invalid order data"
      && r.error.details != []
      && (forall iss :: iss in r.error.details ==> iss.path in OrderFields && !OrderFieldValid(body, iss.path))
      && (forall f :: f in OrderFields && !OrderFieldValid(body, f) ==> HasIssue(r.error.details, f))
  {
  }

  /** A single order is accepted only with a screenshot and a body the order
      schema accepts; it is then priced exactly as the batch route prices
      the same item for the same customer. */
  lemma OrderRouteMatchesBatch(screenshot: Option<string>, body: OrderInput, config: StoreConfig)
    ensures var r := OrderRoute(screenshot, body, config);
      && (r.Success? ==> screenshot.Some? && OrderInputValid(body) && IsPaymentType(r.value.paymentType))
      && (screenshot.Some? && OrderInputValid(body) ==>
            var o := ParseInsertOrder(body).value;
            var c := Customer(o.customerName, o.phone, o.address, o.pinCode, o.paymentType);
            var b := BatchRecord(config, c, screenshot.value, BatchItem(o.productId, o.storage, o.color));
            r.Success? == b.Success? && (r.Success? ==> r.value == b.value))
  {
  }

  /** `POST /api/orders`: stores the order only when the route accepts it,
      and leaves the store untouched otherwise. */
  method PostOrder(store: MemStorage, screenshot: Option<string>, body: OrderInput, config: StoreConfig,
                   id: string, createdAt: string)
    returns (r: Result<Order, HttpError>)
    requires store.Valid()
    modifies store
    ensures store.Valid()
    ensures OrderRoute(screenshot, body, config).Failure? ==>
      r == Failure(OrderRoute(screenshot, body, config).error) &&
      store.orders == old(store.orders) && store.ids == old(store.ids)
    ensures OrderRoute(screenshot, body, config).Success? ==>
      r == Success(Stamp(OrderRoute(screenshot, body, config).value, id, createdAt)) &&
      store.orders == old(store.orders)[id := r.value] &&
      store.ids == SetKey(old(store.ids), id)
  {
    var data := OrderRoute(screenshot, body, config);
    if data.Failure? {
      return Failure(data.error);
    }
    var order := store.CreateOrder(data.value, id, createdAt);
    r := Success(order);
  }

  // ---------------------------------------------------------------------
  // GET /api/orders/:id
  // ---------------------------------------------------------------------

  /** `GET /api/orders/:id`: the stored order, or 404 for an unknown id. */
  function GetOrderRoute(store: MemStorage, id: string): (r: Result<Order, HttpError>)
    reads store
    requires store.Valid()
    ensures r.Failure? <==> id !in store.orders
    ensures r.Failure? ==> r.error == HttpError(404, "Order not found")
    ensures r.Success? ==> r.value == store.orders[id] && r.value.id == id
  {
    match store.GetOrder(id)
    case None => Failure(HttpError(404, "Order not found"))
    case Some(o) => Success(o)
  }

  // ---------------------------------------------------------------------
  // Cart routes
  // ---------------------------------------------------------------------

  /** `POST /api/cart` up to `addCartItem`: 400 when the cart item schema
      rejects the body, else the item to add (quantity at least one). */
  function PostCartRoute(body: CartInput): (r: Result<InsertCartItem, HttpError>)
    ensures r.Failure? <==> ParseInsertCartItem(body).Failure?
    ensures r.Failure? ==> r.error == HttpError(400, "Invalid cart item data", ParseInsertCartItem(body).error)
    ensures r.Success? ==> r.value.quantity >= 1
  {
    match ParseInsertCartItem(body)
    case Failure(issues) => Failure(HttpError(400, "Invalid cart item data", issues))
    case Success(item) => Success(item)
  }

  /** `PATCH /api/cart/:id`: the quantity must be a number of at least one
      (else 400, and the store is not asked); then `update`, the store's
      `updateCartItem`, answers, and a missing item is a 404. */
  function PatchCartRoute(quantity: Value, update: int -> Option<CartItem>): (r: Result<CartItem, HttpError>)
    ensures r == Failure(HttpError(400, "Invalid quantity")) <==> !(quantity.Num? && quantity.n >= 1)
    ensures r == Failure(HttpError(404, "Cart item not found")) <==>
      quantity.Num? && quantity.n >= 1 && update(quantity.n).None?
    ensures r.Success? ==> quantity.Num? && quantity.n >= 1 && r == Success(update(quantity.n).value)
  {
    if !quantity.Num? || quantity.n < 1 then Failure(HttpError(400, "Invalid quantity"))
    else
      match update(quantity.n)
      case None => Failure(HttpError(404, "Cart item not found"))
      case Some(item) => Success(item)
  }

  /** `DELETE /api/cart/:id`: 204 when the store removed the item, else 404. */
  function DeleteCartItemStatus(deleted: bool): (status: int)
    ensures status == 404 <==> !deleted
    ensures status == 204 <==> deleted
  {
    if !deleted then 404 else 204
  }

  // ---------------------------------------------------------------------
  // Admin product routes: deriving option prices
  // ---------------------------------------------------------------------

  /** A storage option as the admin product form sends it. */
  datatype OptionInput = OptionInput(capacity: string, originalPrice: int, discount: Option<int>)

  /** `Math.round(originalPrice * (1 - (discount || 0) / 100))`, computed
      exactly: the integer nearest to originalPrice × (100 − discount) / 100,
      with halves rounded up as `Math.round` does. */
  function DiscountedPrice(originalPrice: int, discount: Option<int>): (price: int)
    ensures var d := discount.GetOr(0);
      100 * price - 50 <= originalPrice * (100 - d) < 100 * price + 50
  {
    var d := discount.GetOr(0);
    (2 * originalPrice * (100 - d) + 100) / 200
  }

  /** Without a discount the price is the original price; with a discount
      between 0 and 100 it lies between 0 and the original price; and a
      larger discount never gives a higher price. */
  lemma DiscountedPriceBounds(originalPrice: int, d: int, e: int)
    requires originalPrice >= 0 && 0 <= d <= e <= 100
    ensures DiscountedPrice(originalPrice, None) == originalPrice
    ensures DiscountedPrice(originalPrice, Some(0)) == originalPrice
    ensures 0 <= DiscountedPrice(originalPrice, Some(d)) <= originalPrice
    ensures DiscountedPrice(originalPrice, Some(e)) <= DiscountedPrice(originalPrice, Some(d))
  {
    var pd := DiscountedPrice(originalPrice, Some(d));
    var pe := DiscountedPrice(originalPrice, Some(e));
    assert originalPrice * (100 - e) <= originalPrice * (100 - d) by {
      MulMonotone(originalPrice, 100 - e, 100 - d);
    }
    assert 0 <= originalPrice * (100 - d) <= originalPrice * 100 by {
      MulMonotone(originalPrice, 0, 100 - d);
      MulMonotone(originalPrice, 100 - d, 100);
    }
  }

  lemma MulMonotone(a: int, x: int, y: int)
    requires a >= 0 && x <= y
    ensures a * x <= a * y
  {
  }

  /** The option the product routes store: capacity, original price and
      discount carried over, and the derived price. */
  function DeriveOption(opt: OptionInput): (o: StorageOption)
    ensures o.capacity == opt.capacity && o.originalPrice == Some(opt.originalPrice)
    ensures o.discount == opt.discount
    ensures o.price == DiscountedPrice(opt.originalPrice, opt.discount)
  {
    StorageOption(opt.capacity, DiscountedPrice(opt.originalPrice, opt.discount), Some(opt.originalPrice), opt.discount)
  }

  /** `storageOptions.map(...)` of the add and update product routes; an
      update without storage options leaves them out. */
  function DeriveOptions(opts: Option<seq<OptionInput>>): (r: Option<seq<StorageOption>>)
    ensures r.Some? <==> opts.Some?
    ensures r.Some? ==>
      (&& |r.value| == |opts.value|
       && forall i :: 0 <= i < |opts.value| ==> r.value[i] == DeriveOption(opts.value[i]))
  {
    match opts
    case None => None
    case Some(os) => Some(seq(|os|, i requires 0 <= i < |os| => DeriveOption(os[i])))
  }
}

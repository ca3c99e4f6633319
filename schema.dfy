/**
 * The shared data model of the storefront (products, storage options, the
 * store configuration, cart items, orders) and the field rules of the
 * request schemas that guard the order, cart and price-override routes.
 *
 * A schema `parse` either returns the parsed record or fails with the list
 * of issues, one per failing field, in the order the fields are declared.
 */
module Schema {
  import opened Wrappers
  import opened JsString

  // ---------------------------------------------------------------------
  // Data model
  // ---------------------------------------------------------------------

  /** A (capacity, price) variant of a product; prices are in rupees. */
  datatype StorageOption = StorageOption(
    capacity: string,
    price: int,
    originalPrice: Option<int>,
    discount: Option<int>)

  datatype Product = Product(
    id: string,
    deviceName: string,
    displayName: string,
    model: string,
    colorOptions: Option<seq<string>>,
    storageOptions: seq<StorageOption>,
    specs: seq<string>,
    releaseDate: Option<string>,
    imagePath: Option<string>)

  datatype PaymentConfig = PaymentConfig(upiId: string, qrCodeUrl: string, defaultAdvancePayment: int)

  datatype StoreConfig = StoreConfig(products: seq<Product>, paymentConfig: PaymentConfig)

  datatype CartItem = CartItem(
    id: string,
    productId: string,
    storage: string,
    color: Option<string>,
    quantity: int,
    addedAt: string)

  /** An order before the store stamps it with an id and a creation time. */
  datatype OrderData = OrderData(
    customerName: string,
    phone: string,
    address: string,
    pinCode: string,
    productId: string,
    productName: string,
    storage: string,
    color: Option<string>,
    fullPrice: int,
    paidAmount: int,
    remainingBalance: int,
    paymentType: string,
    paymentScreenshot: string)

  datatype Order = Order(
    id: string,
    customerName: string,
    phone: string,
    address: string,
    pinCode: string,
    productId: string,
    productName: string,
    storage: string,
    color: Option<string>,
    fullPrice: int,
    paidAmount: int,
    remainingBalance: int,
    paymentType: string,
    paymentScreenshot: string,
    createdAt: string)

  /** The rule of the stored cart item schema: a quantity of at least one. */
  predicate IsCartItem(c: CartItem) {
    c.quantity >= 1
  }

  /** The payment types the order schema admits. */
  predicate IsPaymentType(t: string) {
    t == "full" || t == "advance"
  }

  // ---------------------------------------------------------------------
  // Request values and schema issues
  // ---------------------------------------------------------------------

  /** A JavaScript value as it arrives in a request body. */
  datatype Value = Str(s: string) | Num(n: int) | Bool(b: bool) | Null | Undefined | Obj | Arr

  /** One schema issue: the failing field and its message. */
  datatype Issue = Issue(path: string, message: string)

  /** The name zod gives the type of a value in its messages. */
  function TypeName(v: Value): string {
    match v
    case Str(_) => "string"
    case Num(_) => "number"
    case Bool(_) => "boolean"
    case Null => "null"
    case Undefined => "undefined"
    case Obj => "object"
    case Arr => "array"
  }

  /** zod's `invalid_type` issue with its default message: "Required" for a
      missing value, otherwise what was expected and what was received. */
  function InvalidTypeIssue(path: string, expected: string, v: Value): (iss: Issue)
    ensures iss.path == path
    ensures v.Undefined? <==> iss.message == "Required"
  {
    Issue(path, if v.Undefined? then "Required" else "Expected " + expected + ", received " + TypeName(v))
  }

  function StringTypeIssue(path: string, v: Value): Issue {
    InvalidTypeIssue(path, "string", v)
  }

  function NumberTypeIssue(path: string, v: Value): Issue {
    InvalidTypeIssue(path, "number", v)
  }

  /** `z.string()` */
  function CheckString(path: string, v: Value): (r: seq<Issue>)
    ensures r == [] <==> v.Str?
    ensures forall iss :: iss in r ==> iss.path == path
  {
    if v.Str? then [] else [StringTypeIssue(path, v)]
  }

  /** `z.string().optional()` */
  function CheckOptionalString(path: string, v: Value): (r: seq<Issue>)
    ensures r == [] <==> v.Str? || v.Undefined?
    ensures forall iss :: iss in r ==> iss.path == path
  {
    if v.Str? || v.Undefined? then [] else [StringTypeIssue(path, v)]
  }

  /** `z.string().min(n, message)` */
  function CheckMinLength(path: string, v: Value, n: nat, message: string): (r: seq<Issue>)
    ensures r == [] <==> v.Str? && |v.s| >= n
    ensures forall iss :: iss in r ==> iss.path == path
  {
    if !v.Str? then [StringTypeIssue(path, v)]
    else if |v.s| < n then [Issue(path, message)]
    else []
  }

  /** `z.number().optional()` */
  function CheckOptionalNumber(path: string, v: Value): seq<Issue> {
    if v.Num? || v.Undefined? then [] else [NumberTypeIssue(path, v)]
  }

  function OptionalString(v: Value): Option<string> {
    if v.Str? then Some(v.s) else None
  }

  function OptionalNumber(v: Value): Option<int> {
    if v.Num? then Some(v.n) else None
  }

  // ---------------------------------------------------------------------
  // The two patterns, matched the way the regular expressions read
  // ---------------------------------------------------------------------

  /** `\d{n}$`: exactly `n` ASCII digits, then the end of the string. */
  predicate MatchDigitsToEnd(s: string, n: nat) {
    if n == 0 then s == [] else s != [] && IsDigit(s[0]) && MatchDigitsToEnd(s[1..], n - 1)
  }

  /** `/^[6-9]\d{9}$/.test(s)` */
  predicate MatchesMobilePattern(s: string) {
    s != [] && '6' <= s[0] <= '9' && MatchDigitsToEnd(s[1..], 9)
  }

  /** `/^\d{6}$/.test(s)` */
  predicate MatchesPinCodePattern(s: string) {
    MatchDigitsToEnd(s, 6)
  }

  /** An Indian mobile number: ten ASCII digits, the first of them 6 to 9. */
  predicate IsIndianMobile(s: string) {
    |s| == 10 && '6' <= s[0] <= '9' && AllDigits(s)
  }

  /** An Indian PIN code: six ASCII digits. */
  predicate IsPinCode(s: string) {
    |s| == 6 && AllDigits(s)
  }

  lemma {:induction false} MatchDigitsToEndIff(s: string, n: nat)
    ensures MatchDigitsToEnd(s, n) <==> |s| == n && AllDigits(s)
  {
    if n > 0 && s != [] {
      MatchDigitsToEndIff(s[1..], n - 1);
      if AllDigits(s[1..]) && IsDigit(s[0]) {
        assert forall i :: 1 <= i < |s| ==> s[i] == s[1..][i - 1];
      }
    }
  }

  /** The mobile-number pattern accepts exactly the ten-digit numbers whose
      first digit is 6, 7, 8 or 9. */
  lemma MobilePatternIff(s: string)
    ensures MatchesMobilePattern(s) <==> IsIndianMobile(s)
  {
    if s != [] {
      MatchDigitsToEndIff(s[1..], 9);
      assert forall i :: 1 <= i < |s| ==> s[i] == s[1..][i - 1];
    }
  }

  /** The PIN-code pattern accepts exactly the six-digit strings. */
  lemma PinCodePatternIff(s: string)
    ensures MatchesPinCodePattern(s) <==> IsPinCode(s)
  {
    MatchDigitsToEndIff(s, 6);
  }

  /** `z.string().regex(/^[6-9]\d{9}$/, message)` */
  function CheckMobile(path: string, v: Value): (r: seq<Issue>)
    ensures r == [] <==> v.Str? && IsIndianMobile(v.s)
    ensures forall iss :: iss in r ==> iss.path == path
  {
    if !v.Str? then [StringTypeIssue(path, v)]
    else if !MatchesMobilePattern(v.s) then
      MobilePatternIff(v.s);
      [Issue(path, "Enter a valid 10-digit Indian mobile number")]
    else
      MobilePatternIff(v.s);
      []
  }

  /** `z.string().regex(/^\d{6}$/, message)` */
  function CheckPinCode(path: string, v: Value): (r: seq<Issue>)
    ensures r == [] <==> v.Str? && IsPinCode(v.s)
    ensures forall iss :: iss in r ==> iss.path == path
  {
    if !v.Str? then [StringTypeIssue(path, v)]
    else if !MatchesPinCodePattern(v.s) then
      PinCodePatternIff(v.s);
      [Issue(path, "Enter a valid 6-digit PIN code")]
    else
      PinCodePatternIff(v.s);
      []
  }

  /** `z.enum(["full", "advance"])` */
  function CheckPaymentType(path: string, v: Value): (r: seq<Issue>)
    ensures r == [] <==> v.Str? && IsPaymentType(v.s)
    ensures forall iss :: iss in r ==> iss.path == path
  {
    if !v.Str? then [InvalidTypeIssue(path, "'full' | 'advance'", v)]
    else if !IsPaymentType(v.s) then [Issue(path, "Invalid enum value. Expected 'full' | 'advance', received '" + v.s + "'")]
    else []
  }

  // ---------------------------------------------------------------------
  // insertOrderSchema
  // ---------------------------------------------------------------------

  datatype OrderInput = OrderInput(
    customerName: Value,
    phone: Value,
    address: Value,
    pinCode: Value,
    productId: Value,
    storage: Value,
    color: Value,
    paymentType: Value)

  datatype InsertOrder = InsertOrder(
    customerName: string,
    phone: string,
    address: string,
    pinCode: string,
    productId: string,
    storage: string,
    color: Option<string>,
    paymentType: string)

  /** The rule each field of the order schema imposes. */
  predicate OrderFieldValid(x: OrderInput, field: string) {
    match field
    case "customerName" => x.customerName.Str? && |x.customerName.s| >= 2
    case "phone" => x.phone.Str? && IsIndianMobile(x.phone.s)
    case "address" => x.address.Str? && |x.address.s| >= 10
    case "pinCode" => x.pinCode.Str? && IsPinCode(x.pinCode.s)
    case "productId" => x.productId.Str?
    case "storage" => x.storage.Str?
    case "color" => x.color.Str? || x.color.Undefined?
    case "paymentType" => x.paymentType.Str? && IsPaymentType(x.paymentType.s)
    case _ => true
  }

  /** Every field of the order schema obeys its rule. */
  predicate OrderInputValid(x: OrderInput) {
    && x.customerName.Str? && |x.customerName.s| >= 2
    && x.phone.Str? && IsIndianMobile(x.phone.s)
    && x.address.Str? && |x.address.s| >= 10
    && x.pinCode.Str? && IsPinCode(x.pinCode.s)
    && x.productId.Str?
    && x.storage.Str?
    && (x.color.Str? || x.color.Undefined?)
    && x.paymentType.Str? && IsPaymentType(x.paymentType.s)
  }

  const OrderFields: seq<string> :=
    ["customerName", "phone", "address", "pinCode", "productId", "storage", "color", "paymentType"]

  /** The issues of the order schema, in the order of its fields. */
  function OrderIssues(x: OrderInput): seq<Issue> {
    OrderIssuesHead(x) + OrderIssuesTail(x)
  }

  /** The checks of the first four fields of the order schema. */
  function OrderIssuesHead(x: OrderInput): seq<Issue> {
    CheckMinLength("customerName", x.customerName, 2, "Name must be at least 2 characters")
    + CheckMobile("phone", x.phone)
    + CheckMinLength("address", x.address, 10, "Please provide a complete delivery address")
    + CheckPinCode("pinCode", x.pinCode)
  }

  /** The checks of the last four fields of the order schema. */
  function OrderIssuesTail(x: OrderInput): seq<Issue> {
    CheckString("productId", x.productId)
    + CheckString("storage", x.storage)
    + CheckOptionalString("color", x.color)
    + CheckPaymentType("paymentType", x.paymentType)
  }

  /** Every issue of the order schema names a field that breaks its rule. */
  lemma OrderIssuesName(x: OrderInput)
    ensures forall iss :: iss in OrderIssues(x) ==> iss.path in OrderFields && !OrderFieldValid(x, iss.path)
  {
    OrderFieldRules(x);
  }

  /** Some issue in the list names `path`. */
  predicate HasIssue(issues: seq<Issue>, path: string) {
    exists iss :: iss in issues && iss.path == path
  }

  /** A list of issues names `path` when either of its halves does. */
  lemma HasIssueAppend(a: seq<Issue>, b: seq<Issue>, path: string)
    ensures HasIssue(a + b, path) <==> HasIssue(a, path) || HasIssue(b, path)
  {
    if HasIssue(a + b, path) {
      var iss :| iss in a + b && iss.path == path;
      assert iss in a || iss in b;
    }
    if HasIssue(a, path) {
      var iss :| iss in a && iss.path == path;
      assert iss in a + b;
    }
    if HasIssue(b, path) {
      var iss :| iss in b && iss.path == path;
      assert iss in a + b;
    }
  }

  /** A non-empty check result names its own path. */
  lemma FailedCheckHasIssue(part: seq<Issue>, path: string)
    requires part != [] && forall iss :: iss in part ==> iss.path == path
    ensures HasIssue(part, path)
  {
    assert part[0] in part;
  }

  /** Each of the first four fields that breaks its rule has an issue. */
  lemma OrderIssuesHeadFields(x: OrderInput)
    ensures !(x.customerName.Str? && |x.customerName.s| >= 2) ==> HasIssue(OrderIssuesHead(x), "customerName")
    ensures !(x.phone.Str? && IsIndianMobile(x.phone.s)) ==> HasIssue(OrderIssuesHead(x), "phone")
    ensures !(x.address.Str? && |x.address.s| >= 10) ==> HasIssue(OrderIssuesHead(x), "address")
    ensures !(x.pinCode.Str? && IsPinCode(x.pinCode.s)) ==> HasIssue(OrderIssuesHead(x), "pinCode")
  {
    var a := CheckMinLength("customerName", x.customerName, 2, "Name must be at least 2 characters");
    var b := CheckMobile("phone", x.phone);
    var c := CheckMinLength("address", x.address, 10, "Please provide a complete delivery address");
    var d := CheckPinCode("pinCode", x.pinCode);
    if a != [] { FailedCheckHasIssue(a, "customerName"); }
    if b != [] { FailedCheckHasIssue(b, "phone"); }
    if c != [] { FailedCheckHasIssue(c, "address"); }
    if d != [] { FailedCheckHasIssue(d, "pinCode"); }
    forall p | p in ["customerName", "phone", "address", "pinCode"]
      ensures HasIssue(a, p) || HasIssue(b, p) || HasIssue(c, p) || HasIssue(d, p) ==> HasIssue(a + b + c + d, p)
    {
      HasIssueAppend(a, b, p);
      HasIssueAppend(a + b, c, p);
      HasIssueAppend(a + b + c, d, p);
    }
  }

  /** Each of the last four fields that breaks its rule has an issue. */
  lemma OrderIssuesTailFields(x: OrderInput)
    ensures !x.productId.Str? ==> HasIssue(OrderIssuesTail(x), "productId")
    ensures !x.storage.Str? ==> HasIssue(OrderIssuesTail(x), "storage")
    ensures !(x.color.Str? || x.color.Undefined?) ==> HasIssue(OrderIssuesTail(x), "color")
    ensures !(x.paymentType.Str? && IsPaymentType(x.paymentType.s)) ==> HasIssue(OrderIssuesTail(x), "paymentType")
  {
    var e := CheckString("productId", x.productId);
    var g := CheckString("storage", x.storage);
    var h := CheckOptionalString("color", x.color);
    var k := CheckPaymentType("paymentType", x.paymentType);
    if e != [] { FailedCheckHasIssue(e, "productId"); }
    if g != [] { FailedCheckHasIssue(g, "storage"); }
    if h != [] { FailedCheckHasIssue(h, "color"); }
    if k != [] { FailedCheckHasIssue(k, "paymentType"); }
    forall p | p in ["productId", "storage", "color", "paymentType"]
      ensures HasIssue(e, p) || HasIssue(g, p) || HasIssue(h, p) || HasIssue(k, p) ==> HasIssue(e + g + h + k, p)
    {
      HasIssueAppend(e, g, p);
      HasIssueAppend(e + g, h, p);
      HasIssueAppend(e + g + h, k, p);
    }
  }

  /** Every field of the order schema that breaks its rule has an issue. */
  lemma OrderIssuesCover(x: OrderInput)
    ensures forall f :: f in OrderFields && !OrderFieldValid(x, f) ==> HasIssue(OrderIssues(x), f)
  {
    OrderFieldRules(x);
    OrderIssuesHeadFields(x);
    OrderIssuesTailFields(x);
    forall f | f in OrderFields
      ensures HasIssue(OrderIssuesHead(x), f) || HasIssue(OrderIssuesTail(x), f) ==> HasIssue(OrderIssues(x), f)
    {
      HasIssueAppend(OrderIssuesHead(x), OrderIssuesTail(x), f);
    }
  }

  /** The rule of each named field, one by one. */
  lemma OrderFieldRules(x: OrderInput)
    ensures OrderFieldValid(x, "customerName") == (x.customerName.Str? && |x.customerName.s| >= 2)
    ensures OrderFieldValid(x, "phone") == (x.phone.Str? && IsIndianMobile(x.phone.s))
    ensures OrderFieldValid(x, "address") == (x.address.Str? && |x.address.s| >= 10)
    ensures OrderFieldValid(x, "pinCode") == (x.pinCode.Str? && IsPinCode(x.pinCode.s))
    ensures OrderFieldValid(x, "productId") == x.productId.Str?
    ensures OrderFieldValid(x, "storage") == x.storage.Str?
    ensures OrderFieldValid(x, "color") == (x.color.Str? || x.color.Undefined?)
    ensures OrderFieldValid(x, "paymentType") == (x.paymentType.Str? && IsPaymentType(x.paymentType.s))
  {
  }

  /** The order schema reports no issue exactly when every field obeys its
      rule. */
  lemma OrderIssuesEmptyIff(x: OrderInput)
    ensures OrderIssues(x) == [] <==> OrderInputValid(x)
  {
    var a := CheckMinLength("customerName", x.customerName, 2, "Name must be at least 2 characters");
    var b := CheckMobile("phone", x.phone);
    var c := CheckMinLength("address", x.address, 10, "Please provide a complete delivery address");
    var d := CheckPinCode("pinCode", x.pinCode);
    assert (a + b + c + d == []) <==> (a == [] && b == [] && c == [] && d == []);
  }

  /** `insertOrderSchema.parse`: succeeds exactly when every field obeys its
      rule, and then carries the fields over unchanged; otherwise it reports
      an issue for each failing field and for no other. */
  function ParseInsertOrder(x: OrderInput): (r: Result<InsertOrder, seq<Issue>>)
    ensures r.Success? <==> OrderInputValid(x)
    ensures r.Success? ==> (
      && r.value.customerName == x.customerName.s && r.value.phone == x.phone.s
      && r.value.address == x.address.s && r.value.pinCode == x.pinCode.s
      && r.value.productId == x.productId.s && r.value.storage == x.storage.s
      && r.value.color == OptionalString(x.color) && r.value.paymentType == x.paymentType.s)
    ensures r.Failure? ==> r.error != []
    ensures r.Failure? ==> forall iss :: iss in r.error ==> iss.path in OrderFields && !OrderFieldValid(x, iss.path)
    ensures r.Failure? ==> forall f :: f in OrderFields && !OrderFieldValid(x, f) ==> HasIssue(r.error, f)
  {
    var issues := OrderIssues(x);
    OrderIssuesName(x);
    OrderIssuesCover(x);
    OrderIssuesEmptyIff(x);
    if issues == [] then
      Success(InsertOrder(x.customerName.s, x.phone.s, x.address.s, x.pinCode.s,
                          x.productId.s, x.storage.s, OptionalString(x.color), x.paymentType.s))
    else Failure(issues)
  }

  // ---------------------------------------------------------------------
  // insertCartItemSchema
  // ---------------------------------------------------------------------

  datatype CartInput = CartInput(productId: Value, storage: Value, color: Value, quantity: Value)

  datatype InsertCartItem = InsertCartItem(productId: string, storage: string, color: Option<string>, quantity: int)

  /** `z.number().min(1).default(1)` */
  function CheckQuantity(path: string, v: Value): seq<Issue> {
    if v.Undefined? then []
    else if !v.Num? then [NumberTypeIssue(path, v)]
    else if v.n < 1 then [Issue(path, "Number must be greater than or equal to 1")]
    else []
  }

  /** `insertCartItemSchema.parse`: the quantity defaults to 1 when absent and
      is otherwise kept, and a parsed item always has a quantity of at least
      one, as the stored cart item schema demands. */
  function ParseInsertCartItem(x: CartInput): (r: Result<InsertCartItem, seq<Issue>>)
    ensures r.Success? <==>
      x.productId.Str? && x.storage.Str? && (x.color.Str? || x.color.Undefined?) &&
      (x.quantity.Undefined? || (x.quantity.Num? && x.quantity.n >= 1))
    ensures r.Success? ==> (
      && r.value.productId == x.productId.s && r.value.storage == x.storage.s
      && r.value.color == OptionalString(x.color)
      && r.value.quantity == (if x.quantity.Undefined? then 1 else x.quantity.n)
      && r.value.quantity >= 1)
    ensures r.Failure? ==> r.error != []
  {
    var issues := CheckString("productId", x.productId) + CheckString("storage", x.storage)
      + CheckOptionalString("color", x.color) + CheckQuantity("quantity", x.quantity);
    if issues == [] then
      Success(InsertCartItem(x.productId.s, x.storage.s, OptionalString(x.color),
                             if x.quantity.Undefined? then 1 else x.quantity.n))
    else Failure(issues)
  }

  // ---------------------------------------------------------------------
  // insertProductPriceOverrideSchema
  // ---------------------------------------------------------------------

  datatype PriceOverrideInput = PriceOverrideInput(
    productId: Value, storage: Value, price: Value, originalPrice: Value, discount: Value)

  datatype PriceOverride = PriceOverride(
    productId: string, storage: string, price: int, originalPrice: Option<int>, discount: Option<int>)

  /** `z.number().min(0, message)` */
  function CheckPrice(path: string, v: Value): seq<Issue> {
    if !v.Num? then [NumberTypeIssue(path, v)]
    else if v.n < 0 then [Issue(path, "Price must be positive")]
    else []
  }

  /** `insertProductPriceOverrideSchema.parse`: a price is accepted only when
      it is a number of at least zero. */
  function ParseInsertPriceOverride(x: PriceOverrideInput): (r: Result<PriceOverride, seq<Issue>>)
    ensures r.Success? <==>
      x.productId.Str? && x.storage.Str? && x.price.Num? && x.price.n >= 0 &&
      (x.originalPrice.Num? || x.originalPrice.Undefined?) &&
      (x.discount.Num? || x.discount.Undefined?)
    ensures r.Success? ==> (
      && r.value.price == x.price.n && r.value.price >= 0
      && r.value.productId == x.productId.s && r.value.storage == x.storage.s
      && r.value.originalPrice == OptionalNumber(x.originalPrice)
      && r.value.discount == OptionalNumber(x.discount))
    ensures r.Failure? ==> r.error != []
  {
    var issues := CheckString("productId", x.productId) + CheckString("storage", x.storage)
      + CheckPrice("price", x.price) + CheckOptionalNumber("originalPrice", x.originalPrice)
      + CheckOptionalNumber("discount", x.discount);
    if issues == [] then
      Success(PriceOverride(x.productId.s, x.storage.s, x.price.n,
                            OptionalNumber(x.originalPrice), OptionalNumber(x.discount)))
    else Failure(issues)
  }
}

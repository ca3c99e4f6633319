# iPhone storefront — a Dafny model of its core

The storefront sells iPhones from a catalogue held in a JSON store
configuration. Customers fill a cart, enter a delivery address and pay in
full or in advance by UPI. The server validates each order, prices it from
the catalogue, stores it and posts a Telegram notification. A sync script
rebuilds the catalogue from the MobileAPI device database.

This project models the core of that system and proves what it promises:

- `Schema` (`shared/schema.ts`): the records and the zod rules for new
  orders, cart items and price overrides. Parsing a body succeeds exactly
  when every field rule holds, and each reported issue names a field that
  breaks its rule.
- `Catalog`: the catalogue lookups shared by the server and the pages (first
  product with an id, first storage option with a capacity), and the sums
  over the cart lines that resolve.
- `Storage` (`server/storage.ts`): the `MemStorage` class, whose order map
  and insertion order are fields that its methods update in place.
- `Routes` (`server/routes.ts`): the order, batch-order, cart and
  admin-product handlers, each with every status code and error message of
  the source, and with the schema issues as `details` in the 400 answers of
  a failed parse.
- `Telegram` (`server/telegram.ts`): HTML escaping and the two notification
  texts, line by line.
- `AddressStep`, `CartPage`, `OrderSummary` and `HomePage`: the checkout
  address check, the cart totals and quantity buttons, the order summary
  card, and the home page ordering of the catalogue.
- `SyncMobileApi` (`server/scripts/sync-mobileapi.ts`): slugs, storage
  options and their prices, specs, release dates, the main loop, and the
  configuration it writes.
- `JsString` and `Wrappers`: the parts of the JavaScript string library the
  core relies on (`trim`, `toLowerCase`, `includes`, `split`, `join`,
  `replace`, `parseInt`), and `Option`/`Result`.

Numbers are mathematical integers. The network, the file system, the clock,
`Math.random`, `randomUUID`, JSON parsing and locale formatting are
parameters of the operations that use them.

## Model

| member | source | states |
|---|---|---|
| Schema.InvalidTypeIssue | shared/schema.ts:86-95 | a wrong-typed field's issue sits at its own path and reads "Required" exactly when the value is missing |
| Schema.CheckString | shared/schema.ts:91-92 | a string field reports issues only at its own path |
| Schema.CheckOptionalString | shared/schema.ts:93 | an optional string field reports issues only at its own path |
| Schema.CheckMinLength | shared/schema.ts:87-89 | a `min(n)` field reports issues only at its own path |
| Schema.MobilePatternIff | shared/schema.ts:88 | `/^[6-9]\d{9}$/` matches exactly ten ASCII digits whose first is 6 to 9 |
| Schema.PinCodePatternIff | shared/schema.ts:90 | `/^\d{6}$/` matches exactly six ASCII digits |
| Schema.MatchDigitsToEndIff | shared/schema.ts:88-90 | the anchored digit run `\d{n}$` matches exactly n digits |
| Schema.CheckMobile | shared/schema.ts:88 | the phone passes iff it is a string that is a valid Indian mobile number |
| Schema.CheckPinCode | shared/schema.ts:90 | the PIN passes iff it is a string of six digits |
| Schema.CheckPaymentType | shared/schema.ts:94 | the payment type reports issues only at its own path |
| Schema.OrderIssuesName | shared/schema.ts:86-95 | every issue names an order field that breaks its rule |
| Schema.OrderIssuesEmptyIff | shared/schema.ts:86-95 | the order schema reports no issue exactly when every field obeys its rule |
| Schema.OrderIssuesCover | shared/schema.ts:86-95 | every order field that breaks its rule has an issue |
| Schema.ParseInsertOrder | shared/schema.ts:86-95 | parsing succeeds iff every field rule holds, keeps the values, and a failure lists an issue for every failing field and for no other |
| Schema.ParseInsertCartItem | shared/schema.ts:55-60 | succeeds iff the ids are strings, the colour is absent or a string and the quantity is absent or a number of at least one; the quantity defaults to 1 |
| Schema.ParseInsertPriceOverride | shared/schema.ts:159-165 | succeeds iff the ids are strings, the price is a number of at least 0 and the optional numbers are absent or numbers |
| Catalog.FindProduct | server/routes.ts:209 | `find` by id: nothing iff no product has the id, otherwise the first one that does |
| Catalog.FindStorageOption | server/routes.ts:214 | `find` by capacity: nothing iff no option has it, otherwise the first one that does |
| Catalog.TotalsAppend | client/src/pages/CartPage.tsx:78-84 | the subtotal and item count of a cart split in two are the sums of the parts |
| Catalog.UnresolvedItemIgnored | client/src/pages/CartPage.tsx:80 | a line whose product or storage option is missing changes neither total |
| Catalog.TotalsBounds | client/src/pages/CartPage.tsx:72-87 | with valid quantities and non-negative prices the subtotal is non-negative and the item count is at least the number of lines that resolve |
| Catalog.LineBounds | client/src/pages/CartPage.tsx:80-83 | one resolved line adds a non-negative amount and at least one item |
| Storage.Stamp | server/storage.ts:44-49 | the new order carries the given id and timestamp and otherwise exactly the submitted data |
| Storage.Values | server/storage.ts:35 | `Array.from(orders.values())` lists the stored orders in insertion order |
| Storage.LoadIndexed | server/storage.ts:27 | loading saved orders keeps the map and its key order consistent: every key listed once, every order filed under its own id |
| Storage.LoadKeys | server/storage.ts:27 | the keys after loading are the old keys plus the ids of the loaded orders |
| Storage.LoadLastWins | server/storage.ts:27 | with repeated ids in the file, the last order with an id is the one kept |
| Storage.LoadKeepsOthers | server/storage.ts:27 | loading leaves an id absent from the file as it was |
| Storage.SaveThenLoad | server/storage.ts:22-37 | loading what `saveOrders` wrote restores the same map and the same order |
| Storage.ValuesAfterFreshSet | server/storage.ts:50 | setting a new key appends its order at the end of the listing |
| Storage.MemStorage.constructor | server/storage.ts:16-20 | the store starts as the saved orders loaded into an empty map |
| Storage.MemStorage.LoadOrders | server/storage.ts:22-32 | each saved order is set under its id, in file order |
| Storage.MemStorage.GetOrder | server/storage.ts:39-41 | an order is returned iff its id is stored, and it is the stored one |
| Storage.MemStorage.GetAllOrders | server/storage.ts:55-57 | lists exactly the stored orders, one per key |
| Storage.MemStorage.CreateOrder | server/storage.ts:43-53 | stores the stamped order under its id, changes no other entry and, for a fresh id, appends it to the listing |
| Routes.PriceLine | server/routes.ts:219-223 | the full price is the option price, paid plus remaining is the full price, full payment pays everything, otherwise the advance is paid |
| Routes.BatchRecordSpec | server/routes.ts:208-240 | an item fails with the 404 for a missing product or storage option, otherwise yields the order data built from the request and the option price |
| Routes.ItemOutcomes | server/routes.ts:208-240 | one outcome per cart item, each the item's record |
| Routes.CollectSuccess | server/routes.ts:208-240 | the loop succeeds iff every item does, with the records in item order |
| Routes.CollectFailure | server/routes.ts:210-217 | the loop returns the error of the first failing item |
| Routes.BatchRecordsSpec | server/routes.ts:206-240 | the batch records succeed iff every item resolves, are then one per item, and otherwise carry the first item's error |
| Routes.BatchRecordsShareRequest | server/routes.ts:225-239 | every record carries the request's customer, payment type and screenshot, and its amounts add up |
| Routes.BuildBatchRecords | server/routes.ts:206-240 | the `for` loop computes the batch records, stopping at the first failing item |
| Routes.PostOrdersBatch | server/routes.ts:179-249 | the handler returns the 400s for a missing screenshot, missing items, unparsable items or an empty array, then the records; a success holds at least one order |
| Routes.OrderRouteRejects | server/routes.ts:266-327 | with a screenshot, a body the order schema rejects gets 400 "Invalid order data" with `details` naming exactly the failing fields |
| Routes.OrderRouteMatchesBatch | server/routes.ts:266-321 | a valid single order is priced exactly as the same item in a batch |
| Routes.PostOrder | server/routes.ts:266-327 | a rejected order leaves the store unchanged; an accepted one is stored under the new id with the route's pricing, and the id is appended to the store's key order unless it is already there |
| Routes.GetOrderRoute | server/routes.ts:332-344 | 404 "Order not found" iff the id is not stored, otherwise the stored order |
| Routes.PostCartRoute | server/routes.ts:124-135 | 400 "Invalid cart item data" iff the body fails the schema, with the schema's issues as `details`; accepted items have quantity at least 1 |
| Routes.PatchCartRoute | server/routes.ts:138-153 | 400 "Invalid quantity" iff the quantity is not a number of at least 1, 404 iff the item is unknown, otherwise the updated item |
| Routes.DeleteCartItemStatus | server/routes.ts:155-166 | 204 iff an item was deleted, 404 otherwise |
| Routes.DiscountedPrice | server/routes.ts:441 | `Math.round(originalPrice * (1 - discount/100))` is within half a unit of the exact discounted price |
| Routes.DiscountedPriceBounds | server/routes.ts:441 | no discount keeps the original price, a discount from 0 to 100 gives a price from 0 to the original, and a larger discount never gives a higher price |
| Routes.DeriveOption | server/routes.ts:438-442 | a submitted option keeps its capacity, original price and discount and gets the discounted price |
| Routes.DeriveOptions | server/routes.ts:468-479 | options are derived iff they were submitted, one per submitted option |
| Telegram.EscapeHtmlCharwise | server/telegram.ts:7-14 | the chain of five `replace` calls escapes each special character on its own, `&` before the entities are written |
| Telegram.EscapeHtmlNoMarkup | server/telegram.ts:7-14 | escaped text contains no `<`, `>`, `"` or `'` |
| Telegram.EscapeHtmlPlain | server/telegram.ts:7-14 | text without special characters is unchanged |
| Telegram.EscapeRoundTrip | server/telegram.ts:7-14 | unescaping the five entities, `&amp;` last, gives the original text back |
| Telegram.PaymentLabel | server/telegram.ts:116 | "Full Payment" iff the payment type is `full`, "Advance Payment" otherwise |
| Telegram.OrderMessageTrim | server/telegram.ts:98-129 | the trimmed template is exactly its lines joined by newlines |
| Telegram.OrderLinesShape | server/telegram.ts:93-129 | the message has 26 lines plus one for a colour and one for a balance; the colour line is present iff the colour is non-empty, the balance line iff the remaining balance is positive |
| Telegram.BatchTotalsAddUp | server/telegram.ts:137-138 | for orders whose amounts add up, total paid plus total balance is the total price |
| Telegram.BatchTotalsAppend | server/telegram.ts:137-138 | the `reduce` totals of a split list are the sums of the parts |
| Telegram.ColorSuffix | server/telegram.ts:141 | the colour suffix is empty iff the order has no colour |
| Telegram.ItemLines | server/telegram.ts:140-143 | one line per order, numbered from 1 in order |
| Telegram.ItemNumbering | server/telegram.ts:142 | the number before the first `.` of line i reads back as i + 1 |
| Telegram.BatchMessage | server/telegram.ts:132-133 | the batch message is empty iff there are no orders |
| Telegram.BatchMessageTrim | server/telegram.ts:149-180 | the trimmed template is exactly its lines joined by newlines |
| Telegram.BatchLinesShape | server/telegram.ts:149-180 | the batch message states the item count, the numbered item list and the total paid at fixed lines |
| Telegram.BatchBalanceShown | server/telegram.ts:145-147 | the total-balance line is present iff the total balance is positive |
| AddressStep.HandleChange | client/src/components/checkout/AddressStep.tsx:19-21 | the changed field takes the new value and every other field is kept |
| AddressStep.HandleChangeUndo | client/src/components/checkout/AddressStep.tsx:19-21 | writing the old value back restores the data |
| AddressStep.ValidAddressPassesSchema | client/src/components/checkout/AddressStep.tsx:23-26 | data that enables the button passes the server's order schema unchanged |
| AddressStep.ClientStricterThanSchema | client/src/components/checkout/AddressStep.tsx:23 | a padded one-letter name is refused by the button but accepted by the schema |
| AddressStep.PaddingIrrelevant | client/src/components/checkout/AddressStep.tsx:23-26 | white space around the name or the address never changes whether the button is enabled |
| CartPage.GetProductDetails | client/src/pages/CartPage.tsx:66-70 | the product, if any, is a catalogue product with the id; the option, if any, is one of its options with the capacity |
| CartPage.DetailsResolve | client/src/pages/CartPage.tsx:79-83 | both lookups succeed iff the line resolves, at the catalogue price |
| CartPage.CalculateTotals | client/src/pages/CartPage.tsx:72-87 | zeros while the cart or configuration is missing; otherwise the subtotal and item count over the resolving lines, and the total equals the subtotal |
| CartPage.HandleQuantityChange | client/src/pages/CartPage.tsx:60-64 | a PATCH is sent iff the new quantity is at least 1, and carries the item id and the new quantity |
| CartPage.QuantityRequestsAccepted | client/src/pages/CartPage.tsx:160-176 | every PATCH the buttons send passes the server's quantity check; an enabled decrease button and the increase button always send one |
| OrderSummary.CalculateTotals | client/src/components/checkout/OrderSummary.tsx:12-26 | the loop computes the subtotal and item count over the resolving lines |
| OrderSummary.SumsAppend | client/src/components/checkout/OrderSummary.tsx:41-63 | line sums of a split list are the sums of the parts |
| OrderSummary.SummaryMatchesTotals | client/src/components/checkout/OrderSummary.tsx:11-84 | one line is shown per resolving item, and the line prices and quantities add up to the subtotal and item count under them |
| OrderSummary.SummaryLinesResolve | client/src/components/checkout/OrderSummary.tsx:41-58 | every shown line belongs to a resolving cart item, at its quantity and line amount |
| HomePage.ModelNumberWithoutIPhone | client/src/pages/HomePage.tsx:13-16 | a name without `iPhone` has model number 0 |
| HomePage.ModelNumberExamples | client/src/pages/HomePage.tsx:14-15 | "iPhone 15" has model number 15; "iPhone15" has none, since the pattern needs white space |
| HomePage.ProMaxIsPro | client/src/pages/HomePage.tsx:25-26 | every Pro Max name is also a Pro name |
| HomePage.TierIgnoresCase | client/src/pages/HomePage.tsx:25-26 | names that differ only in letter case have the same Pro and Pro Max flags |
| HomePage.CompareIsKeyOrder | client/src/pages/HomePage.tsx:12-34 | the comparator is negative iff a has the higher model or the same model and a higher tier, zero iff model and tier are equal, positive in the mirror case |
| HomePage.CompareTotalPreorder | client/src/pages/HomePage.tsx:12-34 | the comparator is antisymmetric and transitive |
| HomePage.NoModelLast | client/src/pages/HomePage.tsx:15-22 | a product without a model number sorts after every product with one |
| HomePage.Insert | client/src/pages/HomePage.tsx:12 | insertion adds exactly one element to the multiset |
| HomePage.SortProducts | client/src/pages/HomePage.tsx:12 | the sorted copy is a permutation of the products |
| HomePage.SortProductsSpec | client/src/pages/HomePage.tsx:12-34 | the listing is a permutation in which models descend and, within a model, Pro Max comes before Pro before the rest |
| SyncMobileApi.SlugSpec | server/scripts/sync-mobileapi.ts:107-110 | a slug holds only `a`-`z`, `0`-`9` and `-`, and the slug of a slug is itself |
| SyncMobileApi.CollapseRun | server/scripts/sync-mobileapi.ts:109 | a run of white space becomes exactly one `-` |
| SyncMobileApi.CollapseWord | server/scripts/sync-mobileapi.ts:109 | characters other than white space are copied unchanged |
| SyncMobileApi.KeepSlugCharsAppend | server/scripts/sync-mobileapi.ts:110 | the filter works character by character: filtering two pieces and joining them is filtering the whole |
| SyncMobileApi.KeepSlugCharsOne | server/scripts/sync-mobileapi.ts:110 | one character is kept exactly when it is `a`-`z`, `0`-`9` or `-` |
| SyncMobileApi.SlugKeepsSlugChars | server/scripts/sync-mobileapi.ts:107-110 | every `a`-`z`, `0`-`9` and `-` left after lower-casing and collapsing white space reaches the slug, in its original order |
| SyncMobileApi.SlugJoinsWords | server/scripts/sync-mobileapi.ts:107-110 | two slug-safe words apart by white space give the lower-cased words joined by one `-` |
| SyncMobileApi.StorageMatchAt | server/scripts/sync-mobileapi.ts:148 | a match at `i` spans a non-empty digit run, then white space, then `GB storage` in any ASCII case; its capture is that digit run, which is maximal, and its end is just after `storage` |
| SyncMobileApi.StorageMatchAtComplete | server/scripts/sync-mobileapi.ts:148 | any span of the pattern starting at `i` is the match found there, so no match is missed and the greedy digit run is the one captured |
| SyncMobileApi.StorageMatches | server/scripts/sync-mobileapi.ts:148-154 | every capacity read from the description is a non-empty digit string |
| SyncMobileApi.DedupSpec | server/scripts/sync-mobileapi.ts:152-156 | deduplication keeps every capacity, each exactly once |
| SyncMobileApi.DedupOrder | server/scripts/sync-mobileapi.ts:152-156 | the kept capacities are in the order of their first occurrences |
| SyncMobileApi.Discount | server/scripts/sync-mobileapi.ts:159 | for a draw taken as an exact real in [0, 1), every generated discount lies in 25..29 |
| SyncMobileApi.DefaultStorageOptions | server/scripts/sync-mobileapi.ts:171-184 | exactly 128GB, 256GB and 512GB at 50000, 65000 and 80000, each with an original price 20000 higher |
| SyncMobileApi.DeriveStorageOptions | server/scripts/sync-mobileapi.ts:148-185 | the loop with its set of seen capacities yields the options of the distinct capacities in first-occurrence order, or the defaults |
| SyncMobileApi.StorageOptionsDefaultIff | server/scripts/sync-mobileapi.ts:151-171 | the defaults are used iff the description names no capacity, otherwise there is one option per distinct capacity |
| SyncMobileApi.StorageOptionsPrices | server/scripts/sync-mobileapi.ts:157-166 | a capacity is labelled with its digits and `GB`, priced 40000 + 200 per gigabyte, with an original price 20000 higher |
| SyncMobileApi.StorageOptionsDistinct | server/scripts/sync-mobileapi.ts:152-167 | no two options share a label, and every capacity found is offered |
| SyncMobileApi.StorageOptionsDiscounts | server/scripts/sync-mobileapi.ts:159-176 | every option, found or default, has the discount `Discount` computes from its draw, so in 25..29 for exact real draws |
| SyncMobileApi.FindSeparator | server/scripts/sync-mobileapi.ts:137 | the separator found lies inside the description, at or after the search start |
| SyncMobileApi.KeepSpecs | server/scripts/sync-mobileapi.ts:141 | the filter keeps only pieces of length 1 to 99, all taken from its input |
| SyncMobileApi.SpecsSpec | server/scripts/sync-mobileapi.ts:136-146 | the specs are the two defaults or one to four trimmed comma pieces of the feature text, each 1 to 99 characters; without `Features` or `Announced` they are the defaults |
| SyncMobileApi.ModelNumber | server/scripts/sync-mobileapi.ts:187 | for a draw taken as an exact real in [0, 1), the model number is `A` and a four-digit number from 2000 to 2999 |
| SyncMobileApi.ReleaseDateAt | server/scripts/sync-mobileapi.ts:190-191 | a captured date starts with a letter and ends with four digits |
| SyncMobileApi.ReleaseDateSpec | server/scripts/sync-mobileapi.ts:190-191 | the release date, if any, starts with an ASCII letter and ends with four digits; without `Announced` there is none |
| SyncMobileApi.BuildProductSpec | server/scripts/sync-mobileapi.ts:193-203 | a built product's id is the slug of its name, and it has storage options and specs |
| SyncMobileApi.SyncIdsDistinct | server/scripts/sync-mobileapi.ts:107-117 | the processed set is exactly the set of product ids, no two products share an id, and at most one product comes from each model name |
| SyncMobileApi.SyncProductsWellFormed | server/scripts/sync-mobileapi.ts:97-206 | every product the loop pushes is well formed |
| SyncMobileApi.SyncProducts | server/scripts/sync-mobileapi.ts:94-206 | the loop yields the products of the model list, with distinct slug ids, at most one per model, all well formed |
| SyncMobileApi.MergeConfig | server/scripts/sync-mobileapi.ts:214-217 | the written configuration has the new products and the old payment settings |
| SyncMobileApi.MergeConfigSpec | server/scripts/sync-mobileapi.ts:214-217 | merging is idempotent and depends on the old configuration only through its payment settings |
| JsString.TrimIsInfix | server/telegram.ts:129 | `trim` removes only white space from the two ends |
| JsString.TrimIgnoresPadding | client/src/components/checkout/AddressStep.tsx:23-25 | trimming ignores white space added at either end |
| JsString.IncludesIff | client/src/pages/HomePage.tsx:25-26 | `includes` holds iff the pattern occurs at some index |
| JsString.SplitJoin | server/telegram.ts:143 | splitting a join on a separator that occurs in no part gives the parts back |
| JsString.DecimalValueOfNatToString | server/telegram.ts:142 | printing a number then parsing it gives the number back |
| JsString.ReplaceAllAbsent | server/telegram.ts:9-13 | a global `replace` of a character that is absent leaves the text as it was |

## Left out

- I/O is left out: the Telegram and MobileAPI `fetch` calls, the credential checks before them, file reads and writes, image saving, `setTimeout` and `process.exit`. The results of these calls become parameters.
- Express and multer plumbing is left out: request parsing, uploads and the `catch` branches that answer 500. Only whether a screenshot was uploaded is modelled.
- The admin PIN check, the admin settings and the config/products GET routes hold no logic beyond I/O and are left out.
- Store methods that `server/storage.ts` does not define (`createOrders`, the cart methods, `addProduct`, `updateProduct`, `deleteProduct`) are left out. The routes take their results as parameters, or return the data they would store.
- Routes.PostOrdersBatch: the batch body fields other than the items are not validated by the source, and the model takes them as strings, so `undefined` fields are not distinguished.
- Routes.BuildBatchRecords: each element of the parsed `items` array is taken as a record with a string `productId`, a string `storage` and an optional string `color`. The source does not check this. A numeric `productId` such as 5 gives "Product 5 not found", a missing one gives "Product undefined not found", and a `color` of any JSON type is copied into the order. The model does not capture these cases.
- Routes.DiscountedPrice: floating-point rounding is left out. `Math.round` is taken over exact rationals (round half up), so IEEE effects at .5 boundaries are not modelled.
- The sync script's `rating` is left out, because it is floating point and is not part of the configuration record.
- SyncMobileApi.Discount: `Math.random()` is taken as an exact real in [0, 1). IEEE double arithmetic can round the top draws up, so `Math.floor(25 + r * 5)` can give 30 (for example with r = 1 - 2^-52). The bound 25..29 holds only for the exact real model, and `SyncMobileApi.StorageOptionsDiscounts` inherits this.
- SyncMobileApi.ModelNumber: for the same reason, `Math.floor(2000 + r * 1000)` can give 3000 under IEEE rounding, and so model number `A3000`. The range 2000..2999 holds only for the exact real model.
- Schema issues keep only the path (one field name) and the message. zod's `code`, `expected` and `received` fields, and the path as an array, are not modelled in the `details` of a 400 answer. The default messages follow zod 3's error map: "Required", "Expected string, received number" and the like, and "Invalid enum value. Expected 'full' | 'advance', received 'x'".
- Locale formatting (`toLocaleString('en-IN')`, the Asia/Kolkata date) is a parameter of the message functions.
- Numbers are unbounded integers. Fractional prices and quantities, `NaN`, and the loss of precision of very large `parseInt` results are not modelled.
- JsString.ToLower: lower-casing is exact for ASCII and for the two code points whose lower case contains an ASCII letter. Other characters are kept as they are, which is all the model's uses can observe.
- Strings are sequences of code points rather than UTF-16 code units, so the length limits of the schema and the specs count code points.
- HomePage.SortProducts: `Array.prototype.sort` is modelled by a stable insertion sort. Permutation and order are proved, but the relative order of products with equal keys is not stated. The `undefined` product list before the query loads is left out.
- React rendering, toasts, navigation and query invalidation are left out. Only the values the pages compute are modelled.
- The random draws (`Math.random`) are parameters indexed by iteration and option, so the exact sequence of draws across one run of the sync script is not modelled.

/**
 * The order in which the home page lists the catalogue: a copy of the
 * products sorted by descending iPhone model number, and within one model
 * number Pro Max first, then Pro, then the rest.
 */
module HomePage {
  import opened Wrappers
  import opened JsString
  import opened Schema

  // ---------------------------------------------------------------------
  // getModelNumber: the first match of /iPhone\s+(\d+)/
  // ---------------------------------------------------------------------

  /** The number the pattern captures when a match starts at `i`: `iPhone`,
      at least one white-space character, and the longest run of digits
      after them (`\s+` cannot give characters back to `\d+`, so a match
      exists exactly when a digit follows the white space). */
  function MatchAt(s: string, i: nat): Option<nat>
    requires i <= |s|
  {
    if StartsWith(s[i..], "iPhone") then
      var j := i + 6;
      var k := SkipWhitespace(s, j);
      if k > j && k < |s| && IsDigit(s[k]) then Some(DecimalValue(s[k..DigitRun(s, k)])) else None
    else None
  }

  /** The leftmost match at or after `i`, or 0 without one. */
  function FirstModel(s: string, i: nat): nat
    requires i <= |s|
    decreases |s| - i
  {
    match MatchAt(s, i)
    case Some(n) => n
    case None => if i == |s| then 0 else FirstModel(s, i + 1)
  }

  /** `getModelNumber(name)`. */
  function ModelNumber(name: string): nat {
    FirstModel(name, 0)
  }

  lemma {:induction false} FirstModelWithoutIPhone(s: string, i: nat)
    requires i <= |s|
    requires forall m :: i <= m <= |s| ==> !StartsWith(s[m..], "iPhone")
    ensures FirstModel(s, i) == 0
    decreases |s| - i
  {
    if i < |s| {
      FirstModelWithoutIPhone(s, i + 1);
    }
  }

  /** A name that does not contain `iPhone` has model number 0. */
  lemma ModelNumberWithoutIPhone(name: string)
    requires !Includes(name, "iPhone")
    ensures ModelNumber(name) == 0
  {
    IncludesIff(name, "iPhone");
    forall m | 0 <= m <= |name| ensures !StartsWith(name[m..], "iPhone") {
      if StartsWith(name[m..], "iPhone") {
        assert OccursAt(name, "iPhone", m);
      }
    }
    FirstModelWithoutIPhone(name, 0);
  }

  /** The captured number is read after the white space, and the pattern
      needs that white space: "iPhone 15" is model 15, "iPhone15" has no
      model number. */
  lemma ModelNumberExamples()
    ensures ModelNumber("iPhone 15") == 15
    ensures ModelNumber("iPhone15") == 0
  {
    var s := "iPhone 15";
    assert StartsWith(s[0..], "iPhone");
    assert SkipWhitespace(s, 6) == 7;
    assert DigitRun(s, 7) == 9;
    assert s[7..9] == "15";
    assert DecimalValue("15") == 15 by {
      assert "15"[..1] == "1";
      assert "1"[..0] == "";
    }
    var t := "iPhone15";
    assert StartsWith(t[0..], "iPhone");
    assert SkipWhitespace(t, 6) == 6;
    forall m | 1 <= m <= |t| ensures !StartsWith(t[m..], "iPhone") {
      assert |t[m..]| < 6 || t[m..][0] != 'i';
    }
    FirstModelWithoutIPhone(t, 1);
  }

  // ---------------------------------------------------------------------
  // isPro / isProMax and the comparator
  // ---------------------------------------------------------------------

  /** `name.toLowerCase().includes('pro')` */
  predicate IsPro(name: string) {
    Includes(ToLower(name), "pro")
  }

  /** `name.toLowerCase().includes('pro max')` */
  predicate IsProMax(name: string) {
    Includes(ToLower(name), "pro max")
  }

  /** Every Pro Max name is also a Pro name. */
  lemma ProMaxIsPro(name: string)
    ensures IsProMax(name) ==> IsPro(name)
  {
    var l := ToLower(name);
    IncludesIff(l, "pro max");
    IncludesIff(l, "pro");
    if IsProMax(name) {
      var i :| OccursAt(l, "pro max", i);
      assert l[i..i + 3] == l[i..i + 7][..3];
      assert OccursAt(l, "pro", i);
    }
  }

  lemma {:induction false} ToLowerIgnoresCase(a: string, b: string)
    requires |a| == |b| && forall i :: 0 <= i < |a| ==> LowerChar(a[i]) == LowerChar(b[i])
    ensures ToLower(a) == ToLower(b)
  {
    if a != [] {
      ToLowerIgnoresCase(a[1..], b[1..]);
    }
  }

  /** Names that differ only in letter case are the same tier. */
  lemma TierIgnoresCase(a: string, b: string)
    requires |a| == |b| && forall i :: 0 <= i < |a| ==> LowerChar(a[i]) == LowerChar(b[i])
    ensures IsPro(a) == IsPro(b) && IsProMax(a) == IsProMax(b) && Tier(a) == Tier(b)
  {
    ToLowerIgnoresCase(a, b);
  }

  /** The rank within one model number: Pro Max 2, Pro 1, the rest 0. */
  function Tier(name: string): nat {
    if IsProMax(name) then 2 else if IsPro(name) then 1 else 0
  }

  /** The comparator passed to `sort`, branch by branch. */
  function Compare(a: Product, b: Product): int {
    var modelA := ModelNumber(a.deviceName);
    var modelB := ModelNumber(b.deviceName);
    if modelA != modelB then modelB - modelA
    else if IsProMax(a.deviceName) && !IsProMax(b.deviceName) then -1
    else if !IsProMax(a.deviceName) && IsProMax(b.deviceName) then 1
    else if IsPro(a.deviceName) && !IsPro(b.deviceName) then -1
    else if !IsPro(a.deviceName) && IsPro(b.deviceName) then 1
    else 0
  }

  /** `a` sorts strictly before `b` on the key (model descending, tier
      descending). */
  predicate KeyBefore(a: Product, b: Product) {
    var modelA := ModelNumber(a.deviceName);
    var modelB := ModelNumber(b.deviceName);
    modelA > modelB || (modelA == modelB && Tier(a.deviceName) > Tier(b.deviceName))
  }

  predicate SameKey(a: Product, b: Product) {
    ModelNumber(a.deviceName) == ModelNumber(b.deviceName) && Tier(a.deviceName) == Tier(b.deviceName)
  }

  /** The comparator is the lexicographic comparison of the keys: negative
      exactly when `a` comes first, zero exactly on equal keys, positive
      exactly when `b` comes first. */
  lemma CompareIsKeyOrder(a: Product, b: Product)
    ensures Compare(a, b) < 0 <==> KeyBefore(a, b)
    ensures Compare(a, b) == 0 <==> SameKey(a, b)
    ensures Compare(a, b) > 0 <==> KeyBefore(b, a)
  {
    ProMaxIsPro(a.deviceName);
    ProMaxIsPro(b.deviceName);
  }

  /** The comparator is antisymmetric and transitive: a total preorder, as
      `sort` requires. */
  lemma CompareTotalPreorder(a: Product, b: Product, c: Product)
    ensures Compare(a, b) < 0 <==> Compare(b, a) > 0
    ensures Compare(a, b) == 0 <==> Compare(b, a) == 0
    ensures Compare(a, b) <= 0 && Compare(b, c) <= 0 ==> Compare(a, c) <= 0
    ensures Compare(a, b) < 0 && Compare(b, c) <= 0 ==> Compare(a, c) < 0
  {
    CompareIsKeyOrder(a, b);
    CompareIsKeyOrder(b, a);
    CompareIsKeyOrder(b, c);
    CompareIsKeyOrder(a, c);
  }

  /** A product without a model number comes after every product with one. */
  lemma NoModelLast(a: Product, b: Product)
    requires ModelNumber(a.deviceName) > 0 && ModelNumber(b.deviceName) == 0
    ensures Compare(a, b) < 0
  {
  }

  // ---------------------------------------------------------------------
  // products.slice().sort(compare)
  // ---------------------------------------------------------------------

  /** `x` placed after every element that does not sort strictly after it. */
  function Insert(x: Product, sorted: seq<Product>): (r: seq<Product>)
    ensures multiset(r) == multiset(sorted) + multiset{x}
  {
    if sorted == [] then [x]
    else if Compare(x, sorted[0]) < 0 then [x] + sorted
    else
      assert sorted == [sorted[0]] + sorted[1..];
      [sorted[0]] + Insert(x, sorted[1..])
  }

  /** The sorted copy; the array it was made from is left as it was. */
  function SortProducts(products: seq<Product>): (r: seq<Product>)
    ensures multiset(r) == multiset(products)
  {
    if products == [] then []
    else
      assert products == products[..|products| - 1] + [products[|products| - 1]];
      Insert(products[|products| - 1], SortProducts(products[..|products| - 1]))
  }

  predicate SortedAdjacent(s: seq<Product>) {
    forall i :: 0 < i < |s| ==> Compare(s[i - 1], s[i]) <= 0
  }

  predicate Sorted(s: seq<Product>) {
    forall i, j :: 0 <= i < j < |s| ==> Compare(s[i], s[j]) <= 0
  }

  lemma {:induction false} InsertSorted(x: Product, sorted: seq<Product>)
    requires SortedAdjacent(sorted)
    ensures SortedAdjacent(Insert(x, sorted))
    ensures Insert(x, sorted) != [] && (Insert(x, sorted)[0] == x || (sorted != [] && Insert(x, sorted)[0] == sorted[0]))
  {
    if sorted != [] && Compare(x, sorted[0]) >= 0 {
      InsertSorted(x, sorted[1..]);
      var r := Insert(x, sorted[1..]);
      CompareTotalPreorder(x, sorted[0], x);
      if sorted[1..] != [] {
        assert Compare(sorted[0], sorted[1]) <= 0;
      }
      assert Compare(sorted[0], r[0]) <= 0;
    }
  }

  lemma {:induction false} AdjacentToPairwise(s: seq<Product>)
    requires SortedAdjacent(s)
    ensures Sorted(s)
  {
    if |s| > 1 {
      var t := s[1..];
      AdjacentToPairwise(t);
      forall i, j | 0 <= i < j < |s| ensures Compare(s[i], s[j]) <= 0 {
        if i > 0 {
          assert Compare(t[i - 1], t[j - 1]) <= 0;
        } else if j > 1 {
          assert Compare(t[0], t[j - 1]) <= 0;
          CompareTotalPreorder(s[0], s[1], s[j]);
        }
      }
    }
  }

  lemma {:induction false} SortProductsAdjacent(products: seq<Product>)
    ensures SortedAdjacent(SortProducts(products))
  {
    if products != [] {
      SortProductsAdjacent(products[..|products| - 1]);
      InsertSorted(products[|products| - 1], SortProducts(products[..|products| - 1]));
    }
  }

  /** The listing is a reordering of the products in which every product
      sorts no later than the ones after it: higher model numbers first, and
      within one model number Pro Max, then Pro, then the rest. */
  lemma SortProductsSpec(products: seq<Product>)
    ensures multiset(SortProducts(products)) == multiset(products)
    ensures Sorted(SortProducts(products))
    ensures forall i, j :: 0 <= i < j < |SortProducts(products)| ==>
      var r := SortProducts(products);
      ModelNumber(r[i].deviceName) >= ModelNumber(r[j].deviceName) &&
      (ModelNumber(r[i].deviceName) == ModelNumber(r[j].deviceName) ==> Tier(r[i].deviceName) >= Tier(r[j].deviceName))
  {
    var r := SortProducts(products);
    SortProductsAdjacent(products);
    AdjacentToPairwise(r);
    forall i, j | 0 <= i < j < |r|
      ensures ModelNumber(r[i].deviceName) >= ModelNumber(r[j].deviceName) &&
        (ModelNumber(r[i].deviceName) == ModelNumber(r[j].deviceName) ==> Tier(r[i].deviceName) >= Tier(r[j].deviceName))
    {
      CompareIsKeyOrder(r[i], r[j]);
    }
  }
}

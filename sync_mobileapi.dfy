/**
 * The catalogue sync script: for each iPhone model name it looks the device
 * up in MobileAPI, derives a product (slug id, storage options and prices,
 * specs, release date) and finally writes a configuration that keeps the
 * existing payment settings. The lookup and the random draws are parameters.
 */
module SyncMobileApi {
  import opened Wrappers
  import opened JsString
  import opened Schema

  /** The fields of a MobileAPI device the script reads. */
  datatype Device = Device(id: int, name: string, brand: string, description: string, imageB64: string)

  /** A value of `Math.random()`. */
  newtype Draw = r: real | 0.0 <= r < 1.0

  /** The random draws of one run: the discount of option `k` of the product
      derived in iteration `i` is `discount(i, k)`, its model-number draw is
      `model(i)`. */
  datatype Randomness = Randomness(discount: (nat, nat) -> Draw, model: nat -> Draw)

  const IPhoneModels: seq<string> := [
    "iPhone 13", "iPhone 13 Pro", "iPhone 13 Pro Max",
    "iPhone 14", "iPhone 14 Pro", "iPhone 14 Pro Max",
    "iPhone 15", "iPhone 15 Pro", "iPhone 15 Pro Max",
    "iPhone 16", "iPhone 16 Pro", "iPhone 16 Pro Max"]

  // ---------------------------------------------------------------------
  // The slug: toLowerCase, /\s+/g -> "-", then drop /[^a-z0-9-]/g
  // ---------------------------------------------------------------------

  predicate SlugChar(c: char) {
    'a' <= c <= 'z' || '0' <= c <= '9' || c == '-'
  }

  predicate IsSlug(s: string) {
    forall k :: 0 <= k < |s| ==> SlugChar(s[k])
  }

  /** Every maximal run of white space replaced by one `-`; `inRun` says the
      character before `s` was white space already replaced. */
  function CollapseWhitespace(s: string, inRun: bool): (r: string)
    ensures forall k :: 0 <= k < |r| ==> !IsWhitespace(r[k])
  {
    if s == [] then []
    else if IsWhitespace(s[0]) then
      if inRun then CollapseWhitespace(s[1..], true) else "-" + CollapseWhitespace(s[1..], true)
    else [s[0]] + CollapseWhitespace(s[1..], false)
  }

  /** The characters of `s` that are lower-case ASCII letters, digits or `-`. */
  function KeepSlugChars(s: string): (r: string)
    ensures IsSlug(r) && |r| <= |s|
  {
    if s == [] then []
    else if SlugChar(s[0]) then [s[0]] + KeepSlugChars(s[1..])
    else KeepSlugChars(s[1..])
  }

  /** The product id derived from the device name. */
  function Slug(name: string): string {
    KeepSlugChars(CollapseWhitespace(ToLower(name), false))
  }

  lemma {:induction false} ToLowerOfSlug(s: string)
    requires IsSlug(s)
    ensures ToLower(s) == s
  {
    if s != [] {
      ToLowerOfSlug(s[1..]);
    }
  }

  lemma {:induction false} CollapseOfSlug(s: string, inRun: bool)
    requires IsSlug(s)
    ensures CollapseWhitespace(s, inRun) == s
  {
    if s != [] {
      assert !IsWhitespace(s[0]);
      CollapseOfSlug(s[1..], false);
    }
  }

  lemma {:induction false} KeepOfSlug(s: string)
    requires IsSlug(s)
    ensures KeepSlugChars(s) == s
  {
    if s != [] {
      KeepOfSlug(s[1..]);
    }
  }

  /** A slug holds only `a`-`z`, `0`-`9` and `-`, and deriving the slug of a
      slug changes nothing. */
  lemma SlugSpec(name: string)
    ensures IsSlug(Slug(name))
    ensures Slug(Slug(name)) == Slug(name)
  {
    var s := Slug(name);
    ToLowerOfSlug(s);
    CollapseOfSlug(s, false);
    KeepOfSlug(s);
  }

  lemma {:induction false} CollapseSkipsRun(w: string, b: string)
    requires AllWhitespace(w)
    ensures CollapseWhitespace(w + b, true) == CollapseWhitespace(b, true)
  {
    if w != [] {
      assert (w + b)[0] == w[0] && (w + b)[1..] == w[1..] + b;
      assert AllWhitespace(w[1..]);
      CollapseSkipsRun(w[1..], b);
    } else {
      assert w + b == b;
    }
  }

  /** A run of white space after a character that is not white space
      becomes exactly one `-`, whatever follows it. */
  lemma CollapseRun(w: string, b: string)
    requires |w| >= 1 && AllWhitespace(w)
    ensures CollapseWhitespace(w + b, false) == "-" + CollapseWhitespace(b, true)
  {
    assert (w + b)[0] == w[0] && (w + b)[1..] == w[1..] + b;
    assert AllWhitespace(w[1..]);
    CollapseSkipsRun(w[1..], b);
  }

  /** Characters that are not white space are copied, and end a run. */
  lemma {:induction false} CollapseWord(a: string, b: string, inRun: bool)
    requires |a| >= 1 && forall k :: 0 <= k < |a| ==> !IsWhitespace(a[k])
    ensures CollapseWhitespace(a + b, inRun) == a + CollapseWhitespace(b, false)
  {
    assert (a + b)[0] == a[0] && (a + b)[1..] == a[1..] + b;
    if |a| > 1 {
      CollapseWord(a[1..], b, false);
    } else {
      assert a[1..] + b == b;
    }
  }

  /** The filter works character by character: filtering two pieces and
      joining them is filtering the whole. */
  lemma {:induction false} KeepSlugCharsAppend(a: string, b: string)
    ensures KeepSlugChars(a + b) == KeepSlugChars(a) + KeepSlugChars(b)
  {
    if a == [] {
      assert a + b == b;
    } else {
      assert (a + b)[0] == a[0] && (a + b)[1..] == a[1..] + b;
      KeepSlugCharsAppend(a[1..], b);
    }
  }

  /** A single character is kept exactly when it is a lower-case ASCII
      letter, a digit or `-`. */
  lemma KeepSlugCharsOne(c: char)
    ensures KeepSlugChars([c]) == if SlugChar(c) then [c] else []
  {
    assert [c][1..] == [];
  }

  /** The white space that lower-casing leaves as it is. */
  lemma {:induction false} ToLowerOfWhitespace(w: string)
    requires AllWhitespace(w)
    ensures ToLower(w) == w
  {
    if w != [] {
      assert AllWhitespace(w[1..]);
      ToLowerOfWhitespace(w[1..]);
    }
  }

  /** A kept character at `i` of `t` sits in the filtered string after
      exactly the kept characters before it. */
  lemma KeepSlugCharsAt(t: string, i: nat)
    requires i < |t| && SlugChar(t[i])
    ensures |KeepSlugChars(t[..i])| < |KeepSlugChars(t)|
    ensures KeepSlugChars(t)[|KeepSlugChars(t[..i])|] == t[i]
  {
    assert t == t[..i] + t[i..];
    KeepSlugCharsAppend(t[..i], t[i..]);
    assert t[i..][0] == t[i];
  }

  /** A later prefix holds more kept characters than an earlier one when
      the character between them is kept. */
  lemma KeepSlugCharsGrows(t: string, i: nat, j: nat)
    requires i < j <= |t| && SlugChar(t[i])
    ensures |KeepSlugChars(t[..i])| < |KeepSlugChars(t[..j])|
  {
    assert t[..j] == t[..i] + t[i..j];
    KeepSlugCharsAppend(t[..i], t[i..j]);
    assert t[i..j][0] == t[i];
  }

  /** Each kept character of `t` sits in the filtered string after exactly
      the kept characters before it. */
  lemma KeepSlugCharsPositions(t: string)
    ensures forall i :: 0 <= i < |t| && SlugChar(t[i]) ==>
      |KeepSlugChars(t[..i])| < |KeepSlugChars(t)| && KeepSlugChars(t)[|KeepSlugChars(t[..i])|] == t[i]
    ensures forall i, j :: 0 <= i < j <= |t| && SlugChar(t[i]) ==>
      |KeepSlugChars(t[..i])| < |KeepSlugChars(t[..j])|
  {
    forall i | 0 <= i < |t| && SlugChar(t[i])
      ensures |KeepSlugChars(t[..i])| < |KeepSlugChars(t)| && KeepSlugChars(t)[|KeepSlugChars(t[..i])|] == t[i]
    {
      KeepSlugCharsAt(t, i);
    }
    forall i, j | 0 <= i < j <= |t| && SlugChar(t[i])
      ensures |KeepSlugChars(t[..i])| < |KeepSlugChars(t[..j])|
    {
      KeepSlugCharsGrows(t, i, j);
    }
  }

  /** Every lower-case ASCII letter, digit and `-` left after lower-casing
      and collapsing white space reaches the slug, and in order: the one at
      `i` sits in the slug after exactly the ones before `i`. */
  lemma SlugKeepsSlugChars(name: string)
    ensures var t := CollapseWhitespace(ToLower(name), false);
      forall i :: 0 <= i < |t| && SlugChar(t[i]) ==>
        |KeepSlugChars(t[..i])| < |Slug(name)| && Slug(name)[|KeepSlugChars(t[..i])|] == t[i]
    ensures var t := CollapseWhitespace(ToLower(name), false);
      forall i, j :: 0 <= i < j <= |t| && SlugChar(t[i]) ==>
        |KeepSlugChars(t[..i])| < |KeepSlugChars(t[..j])|
  {
    KeepSlugCharsPositions(CollapseWhitespace(ToLower(name), false));
  }

  lemma IsSlugAppend(x: string, y: string)
    requires IsSlug(x) && IsSlug(y)
    ensures IsSlug(x + y)
  {
    forall k | 0 <= k < |x + y| ensures SlugChar((x + y)[k]) {
      if k >= |x| { assert (x + y)[k] == y[k - |x|]; }
    }
  }

  /** Lower-casing two words apart by white space keeps the white space. */
  lemma ToLowerOfWords(a: string, w: string, b: string)
    requires AllWhitespace(w)
    ensures ToLower(a + w + b) == ToLower(a) + (w + ToLower(b))
  {
    var la, lb := ToLower(a), ToLower(b);
    assert ToLower(a + w + b) == (la + w) + lb by {
      ToLowerWordSpace(a, w);
      ToLowerAppend(a + w, b);
    }
    ConcatAssociates(la, w, lb);
  }

  lemma ConcatAssociates(x: string, y: string, z: string)
    ensures (x + y) + z == x + (y + z)
  {
  }

  lemma ToLowerWordSpace(a: string, w: string)
    requires AllWhitespace(w)
    ensures ToLower(a + w) == ToLower(a) + w
  {
    ToLowerAppend(a, w);
    ToLowerOfWhitespace(w);
  }

  /** Collapsing the white space between two slug words leaves one `-`. */
  lemma CollapseOfWords(la: string, w: string, lb: string)
    requires |la| >= 1 && IsSlug(la) && IsSlug(lb)
    requires |w| >= 1 && AllWhitespace(w)
    ensures CollapseWhitespace(la + (w + lb), false) == la + ("-" + lb)
  {
    assert forall k :: 0 <= k < |la| ==> !IsWhitespace(la[k]) by {
      forall k | 0 <= k < |la| ensures !IsWhitespace(la[k]) { assert SlugChar(la[k]); }
    }
    CollapseWord(la, w + lb, false);
    CollapseRun(w, lb);
    CollapseOfSlug(lb, true);
  }

  /** Two words apart by white space: lower-cased, joined by one `-`. */
  lemma SlugJoinsWords(a: string, w: string, b: string)
    requires |a| >= 1 && IsSlug(ToLower(a)) && IsSlug(ToLower(b))
    requires |w| >= 1 && AllWhitespace(w)
    ensures Slug(a + w + b) == ToLower(a) + "-" + ToLower(b)
  {
    var la, lb := ToLower(a), ToLower(b);
    var t := ToLower(a + w + b);
    assert t == la + (w + lb) by { ToLowerOfWords(a, w, b); }
    var c := CollapseWhitespace(t, false);
    assert c == la + ("-" + lb) by { CollapseOfWords(la, w, lb); }
    assert KeepSlugChars(c) == c by {
      IsSlugAppend("-", lb);
      IsSlugAppend(la, "-" + lb);
      KeepOfSlug(c);
    }
    assert c == la + "-" + lb;
  }

  // ---------------------------------------------------------------------
  // Storage capacities: description.match(/(\d+)\s*GB storage/gi)
  // ---------------------------------------------------------------------

  /** `c` matches the lower-case pattern character `p` under the `i` flag
      (ASCII case folding). */
  predicate CharMatchesIgnoringCase(c: char, p: char) {
    c == p || ('a' <= p <= 'z' && c as int == p as int - 32)
  }

  predicate StartsWithIgnoringCase(s: string, p: string) {
    |p| <= |s| && forall k :: 0 <= k < |p| ==> CharMatchesIgnoringCase(s[k], p[k])
  }

  /** `s[i..k + 10]` has the shape `\d+\s*GB storage` under the `i` flag:
      digits in `s[i..e]`, white space in `s[e..k]`, and `gb storage` in any
      case from `k`. */
  predicate StorageSpan(s: string, i: nat, e: nat, k: nat) {
    && i < e <= k && k + 10 <= |s|
    && AllDigits(s[i..e]) && AllWhitespace(s[e..k])
    && StartsWithIgnoringCase(s[k..], "gb storage")
  }

  /** A match starting at `i`: a digit run, optional white space and
      `gb storage` in any case. Its digits and its end. */
  function StorageMatchAt(s: string, i: nat): (r: Option<(string, nat)>)
    requires i <= |s|
    ensures r.Some? ==>
      var e := i + |r.value.0|;
      && r.value.1 >= 10 && StorageSpan(s, i, e, r.value.1 - 10)
      && r.value.0 == s[i..e] && (e == |s| || !IsDigit(s[e]))
  {
    if i < |s| && IsDigit(s[i]) then
      var e := DigitRun(s, i);
      var k := SkipWhitespace(s, e);
      if StartsWithIgnoringCase(s[k..], "gb storage") then Some((s[i..e], k + 10)) else None
    else None
  }

  /** Any span of the pattern starting at `i` is the one `StorageMatchAt`
      finds: the digit run and the white space are both maximal, so there
      is at most one, and none is missed. */
  lemma StorageMatchAtComplete(s: string, i: nat, e: nat, k: nat)
    requires StorageSpan(s, i, e, k)
    ensures StorageMatchAt(s, i) == Some((s[i..e], k + 10))
  {
    assert IsDigit(s[i]) by { assert s[i..e][0] == s[i]; }
    var e' := DigitRun(s, i);
    var k' := SkipWhitespace(s, e');
    forall j | i <= j < e ensures IsDigit(s[j]) { assert s[i..e][j - i] == s[j]; }
    forall j | i <= j < e' ensures IsDigit(s[j]) { assert s[i..e'][j - i] == s[j]; }
    forall j | e <= j < k ensures IsWhitespace(s[j]) { assert s[e..k][j - e] == s[j]; }
    forall j | e' <= j < k' ensures IsWhitespace(s[j]) { assert s[e'..k'][j - e'] == s[j]; }
    assert CharMatchesIgnoringCase(s[k], 'g') by { assert s[k..][0] == s[k]; }
    assert !IsDigit(s[k]) && !IsWhitespace(s[k]);
    assert e < k ==> IsWhitespace(s[e]);
    assert e == e';
    assert k == k';
  }

  /** The digits of every match, left to right, searching on after each
      match's end. The first `\d+` of a match is its leading digit run, so
      these are the `capacity` strings the script reads. */
  function StorageMatches(s: string, p: nat): (caps: seq<string>)
    requires p <= |s|
    ensures forall k :: 0 <= k < |caps| ==> |caps[k]| >= 1 && AllDigits(caps[k])
    decreases |s| - p
  {
    if p == |s| then []
    else match StorageMatchAt(s, p)
      case Some(m) => [m.0] + StorageMatches(s, m.1)
      case None => StorageMatches(s, p + 1)
  }

  /** The capacities in first-occurrence order, each once. */
  function Dedup(caps: seq<string>): (r: seq<string>)
    ensures forall k :: 0 <= k < |r| ==> r[k] in caps
  {
    if caps == [] then []
    else
      var last := caps[|caps| - 1];
      var front := caps[..|caps| - 1];
      if last in front then Dedup(front) else Dedup(front) + [last]
  }

  predicate DistinctStrings(s: seq<string>) {
    forall i, j :: 0 <= i < j < |s| ==> s[i] != s[j]
  }

  /** Deduplication keeps each capacity exactly once: no repeats, and every
      capacity found is kept. */
  lemma {:induction false} DedupSpec(caps: seq<string>)
    ensures DistinctStrings(Dedup(caps))
    ensures forall x :: x in caps ==> x in Dedup(caps)
    ensures |Dedup(caps)| == 0 <==> |caps| == 0
  {
    if caps != [] {
      var front := caps[..|caps| - 1];
      DedupSpec(front);
      assert caps == front + [caps[|caps| - 1]];
      if caps[|caps| - 1] !in front {
        forall i, j | 0 <= i < j < |Dedup(caps)| ensures Dedup(caps)[i] != Dedup(caps)[j] {
          if j == |Dedup(caps)| - 1 {
            assert Dedup(caps)[i] == Dedup(front)[i];
          }
        }
      }
    }
  }

  /** The index of the first occurrence of `x` in `caps`. */
  function FirstIndex(caps: seq<string>, x: string): (k: nat)
    requires x in caps
    ensures k < |caps| && caps[k] == x && forall j :: 0 <= j < k ==> caps[j] != x
  {
    if caps[0] == x then 0
    else
      var k := 1 + FirstIndex(caps[1..], x);
      assert forall j :: 1 <= j < k ==> caps[j] == caps[1..][j - 1];
      k
  }

  /** Appending to a list leaves the first occurrences already in it where
      they were. */
  lemma FirstIndexAppend(front: seq<string>, y: string, x: string)
    requires x in front
    ensures FirstIndex(front + [y], x) == FirstIndex(front, x)
  {
    var k := FirstIndex(front, x);
    var k' := FirstIndex(front + [y], x);
    assert (front + [y])[k] == x;
  }

  /** Deduplication keeps the capacities in the order of their first
      occurrences. */
  lemma {:induction false} DedupOrder(caps: seq<string>)
    ensures forall i, j :: 0 <= i < j < |Dedup(caps)| ==>
      FirstIndex(caps, Dedup(caps)[i]) < FirstIndex(caps, Dedup(caps)[j])
  {
    if caps != [] {
      var front := caps[..|caps| - 1];
      var last := caps[|caps| - 1];
      var d := Dedup(front);
      DedupOrder(front);
      assert caps == front + [last];
      forall x | x in front ensures FirstIndex(caps, x) == FirstIndex(front, x) {
        FirstIndexAppend(front, last, x);
      }
      if last !in front {
        assert FirstIndex(caps, last) == |front|;
        assert Dedup(caps) == d + [last];
        forall i, j | 0 <= i < j < |Dedup(caps)|
          ensures FirstIndex(caps, Dedup(caps)[i]) < FirstIndex(caps, Dedup(caps)[j])
        {
          assert Dedup(caps)[i] == d[i];
          if j < |d| {
            assert Dedup(caps)[j] == d[j];
          }
        }
      }
    }
  }

  /** `Math.floor(25 + Math.random() * 5)`. */
  function Discount(r: Draw): (d: int)
    ensures 25 <= d <= 29
  {
    (25.0 + r as real * 5.0).Floor
  }

  /** The option pushed for a new capacity. */
  function OptionFor(capacity: string, r: Draw): StorageOption
    requires AllDigits(capacity)
  {
    var basePrice := 40000 + DecimalValue(capacity) * 200;
    StorageOption(capacity + "GB", basePrice, Some(basePrice + 20000), Some(Discount(r)))
  }

  function OptionsFor(caps: seq<string>, draw: nat -> Draw): (r: seq<StorageOption>)
    requires forall k :: 0 <= k < |caps| ==> AllDigits(caps[k])
    ensures |r| == |caps|
    ensures forall k :: 0 <= k < |caps| ==> r[k] == OptionFor(caps[k], draw(k))
  {
    seq(|caps|, k requires 0 <= k < |caps| => OptionFor(caps[k], draw(k)))
  }

  /** The three options used when the description names no capacity. */
  function DefaultStorageOptions(draw: nat -> Draw): (r: seq<StorageOption>)
    ensures |r| == 3
    ensures r[0].capacity == "128GB" && r[1].capacity == "256GB" && r[2].capacity == "512GB"
    ensures forall k :: 0 <= k < 3 ==>
      && r[k].price == 50000 + k * 15000
      && r[k].originalPrice == Some(r[k].price + 20000)
      && r[k].discount == Some(Discount(draw(k)))
  {
    var capacities := ["128GB", "256GB", "512GB"];
    seq(3, k requires 0 <= k < 3 =>
      StorageOption(capacities[k], 50000 + k * 15000, Some(50000 + k * 15000 + 20000), Some(Discount(draw(k)))))
  }

  /** The storage options derived from a description. */
  function StorageOptionsFor(description: string, draw: nat -> Draw): seq<StorageOption> {
    var caps := Dedup(StorageMatches(description, 0));
    if caps != [] then OptionsFor(caps, draw) else DefaultStorageOptions(draw)
  }

  /** The storage-option block of the script: the capacities found, once
      each in first-occurrence order, or the defaults when none is found. */
  method DeriveStorageOptions(description: string, draw: nat -> Draw) returns (options: seq<StorageOption>)
    ensures options == StorageOptionsFor(description, draw)
  {
    var storageMatches := StorageMatches(description, 0);
    options := [];
    if |storageMatches| > 0 {
      var uniqueStorages: set<string> := {};
      for i := 0 to |storageMatches|
        invariant uniqueStorages == Seen(storageMatches[..i])
        invariant options == OptionsFor(Dedup(storageMatches[..i]), draw)
      {
        var capacity := storageMatches[i];
        OptionsStep(storageMatches, i, draw);
        if capacity !in uniqueStorages {
          uniqueStorages := uniqueStorages + {capacity};
          options := options + [OptionFor(capacity, draw(|options|))];
        }
      }
      assert storageMatches[..|storageMatches|] == storageMatches;
    }
    if |options| == 0 {
      options := DefaultStorageOptions(draw);
    }
  }

  /** The set of capacities a list holds (the script's `Set`). */
  function Seen(caps: seq<string>): (r: set<string>)
    ensures forall x :: x in r <==> x in caps
  {
    set x | x in caps
  }

  /** One step of the storage-option loop: a capacity not seen before
      appends its option, a repeated one changes nothing. */
  lemma OptionsStep(caps: seq<string>, i: nat, draw: nat -> Draw)
    requires i < |caps| && forall k :: 0 <= k < |caps| ==> AllDigits(caps[k])
    ensures Seen(caps[..i + 1]) == Seen(caps[..i]) + {caps[i]}
    ensures caps[i] in Seen(caps[..i]) <==> caps[i] in caps[..i]
    ensures caps[i] in caps[..i] ==> Dedup(caps[..i + 1]) == Dedup(caps[..i])
    ensures caps[i] !in caps[..i] ==>
      OptionsFor(Dedup(caps[..i + 1]), draw) ==
      OptionsFor(Dedup(caps[..i]), draw) + [OptionFor(caps[i], draw(|Dedup(caps[..i])|))]
  {
    assert caps[..i + 1] == caps[..i] + [caps[i]];
    assert caps[..i + 1][..i] == caps[..i];
  }

  /** With no capacity in the description the options are exactly the
      three defaults, and otherwise one option per distinct capacity. */
  lemma StorageOptionsDefaultIff(description: string, draw: nat -> Draw)
    ensures var caps := StorageMatches(description, 0);
      && (caps == [] ==> StorageOptionsFor(description, draw) == DefaultStorageOptions(draw))
      && (caps != [] ==> |StorageOptionsFor(description, draw)| == |Dedup(caps)| >= 1)
  {
    DedupSpec(StorageMatches(description, 0));
  }

  /** A found capacity is offered under its digits and `GB`, at 40000 + 200
      per gigabyte with an original price 20000 higher. */
  lemma StorageOptionsPrices(description: string, draw: nat -> Draw)
    requires StorageMatches(description, 0) != []
    ensures var caps := Dedup(StorageMatches(description, 0));
      var r := StorageOptionsFor(description, draw);
      && |r| == |caps|
      && forall k :: 0 <= k < |caps| ==>
        && r[k].capacity == caps[k] + "GB"
        && r[k].price == 40000 + 200 * DecimalValue(caps[k])
        && r[k].originalPrice == Some(r[k].price + 20000)
  {
    var caps := Dedup(StorageMatches(description, 0));
    DedupSpec(StorageMatches(description, 0));
    assert StorageOptionsFor(description, draw) == OptionsFor(caps, draw);
    OptionsForPrices(caps, draw);
  }

  lemma OptionsForPrices(caps: seq<string>, draw: nat -> Draw)
    requires forall k :: 0 <= k < |caps| ==> AllDigits(caps[k])
    ensures var r := OptionsFor(caps, draw);
      forall k :: 0 <= k < |caps| ==>
        && r[k].capacity == caps[k] + "GB"
        && r[k].price == 40000 + 200 * DecimalValue(caps[k])
        && r[k].originalPrice == Some(r[k].price + 20000)
  {
  }

  /** No two options share a capacity label, and every capacity the
      description names is offered. */
  lemma StorageOptionsDistinct(description: string, draw: nat -> Draw)
    ensures var r := StorageOptionsFor(description, draw);
      && DistinctStrings(Capacities(r))
      && forall x :: x in StorageMatches(description, 0) ==> x + "GB" in Capacities(r)
  {
    var caps := StorageMatches(description, 0);
    DedupSpec(caps);
    var d := Dedup(caps);
    if caps != [] {
      FoundLabels(d, draw);
      var labels := Capacities(OptionsFor(d, draw));
      forall x | x in caps ensures x + "GB" in labels {
        var k :| 0 <= k < |d| && d[k] == x;
        assert labels[k] == x + "GB";
      }
    } else {
      assert Capacities(DefaultStorageOptions(draw)) == ["128GB", "256GB", "512GB"];
    }
  }

  /** Distinct capacities give distinct labels, each the capacity with
      `GB` appended. */
  lemma FoundLabels(d: seq<string>, draw: nat -> Draw)
    requires forall k :: 0 <= k < |d| ==> AllDigits(d[k])
    requires DistinctStrings(d)
    ensures var labels := Capacities(OptionsFor(d, draw));
      && (forall k :: 0 <= k < |d| ==> labels[k] == d[k] + "GB")
      && DistinctStrings(labels)
  {
    var labels := Capacities(OptionsFor(d, draw));
    forall i, j | 0 <= i < j < |labels| ensures labels[i] != labels[j] {
      if labels[i] == labels[j] {
        LabelInjective(d[i], d[j]);
      }
    }
  }

  lemma LabelInjective(a: string, b: string)
    requires a + "GB" == b + "GB"
    ensures a == b
  {
    assert a == (a + "GB")[..|a|];
    assert b == (b + "GB")[..|b|];
  }

  /** Every generated discount, found or default, is 25 to 29. */
  lemma StorageOptionsDiscounts(description: string, draw: nat -> Draw)
    ensures forall o :: o in StorageOptionsFor(description, draw) ==>
      o.discount.Some? && 25 <= o.discount.value <= 29
  {
  }

  function Capacities(options: seq<StorageOption>): (r: seq<string>)
    ensures |r| == |options| && forall k :: 0 <= k < |r| ==> r[k] == options[k].capacity
  {
    seq(|options|, k requires 0 <= k < |options| => options[k].capacity)
  }

  // ---------------------------------------------------------------------
  // Specs: description.split(/Features|Announced/)[1], comma pieces
  // ---------------------------------------------------------------------

  /** The leftmost occurrence of `Features` or `Announced` at or after `p`:
      its start and end. */
  function FindSeparator(s: string, p: nat): (r: Option<(nat, nat)>)
    requires p <= |s|
    ensures r.Some? ==> p <= r.value.0 < r.value.1 <= |s|
    decreases |s| - p
  {
    if StartsWith(s[p..], "Features") then Some((p, p + 8))
    else if StartsWith(s[p..], "Announced") then Some((p, p + 9))
    else if p == |s| then None
    else FindSeparator(s, p + 1)
  }

  /** `descParts[1]` when the split gives more than one part: the text
      between the first separator and the next one (or the end). */
  function FeatureText(description: string): Option<string> {
    match FindSeparator(description, 0)
    case None => None
    case Some(first) =>
      match FindSeparator(description, first.1)
      case None => Some(description[first.1..])
      case Some(second) => Some(description[first.1..second.0])
  }

  /** `features.filter(f => f.length > 0 && f.length < 100)` */
  function KeepSpecs(features: seq<string>): (r: seq<string>)
    ensures |r| <= |features|
    ensures forall k :: 0 <= k < |r| ==> 0 < |r[k]| < 100 && r[k] in features
  {
    if features == [] then []
    else if 0 < |features[0]| < 100 then [features[0]] + KeepSpecs(features[1..])
    else KeepSpecs(features[1..])
  }

  function TrimAll(xs: seq<string>): (r: seq<string>)
    ensures |r| == |xs| && forall k :: 0 <= k < |r| ==> r[k] == Trim(xs[k])
  {
    seq(|xs|, k requires 0 <= k < |xs| => Trim(xs[k]))
  }

  function Take<T>(xs: seq<T>, n: nat): (r: seq<T>)
    ensures |r| <= n && |r| <= |xs| && r == xs[..|r|]
    ensures |xs| >= n ==> |r| == n
  {
    if |xs| <= n then xs else xs[..n]
  }

  const DefaultSpecs: seq<string> := ["Advanced features", "Premium build quality"]

  /** The specs array: the first four comma pieces of the feature text,
      trimmed, without the empty and the overlong ones; the two default
      strings when that leaves nothing. */
  function Specs(description: string): seq<string> {
    var specs :=
      match FeatureText(description)
      case None => []
      case Some(text) => KeepSpecs(TrimAll(Take(SplitOn(text, ','), 4)));
    if |specs| == 0 then DefaultSpecs else specs
  }

  /** The stored specs (`specs.slice(0, 4)` keeps them all) are the two
      defaults, or one to four non-empty entries shorter than 100
      characters, each a trimmed comma piece of the feature text. */
  lemma SpecsSpec(description: string)
    ensures var r := Take(Specs(description), 4);
      && r == Specs(description)
      && (|| r == DefaultSpecs
          || (&& 1 <= |r| <= 4
              && FeatureText(description).Some?
              && forall k :: 0 <= k < |r| ==> SpecFromText(r[k], FeatureText(description).value)))
    ensures FeatureText(description).None? ==> Specs(description) == DefaultSpecs
  {
    var r := Specs(description);
    if FeatureText(description).Some? && r != DefaultSpecs {
      SpecsFromFeatureText(FeatureText(description).value, r);
    }
  }

  /** A non-empty trimmed comma piece of `text`, shorter than 100. */
  ghost predicate SpecFromText(spec: string, text: string) {
    0 < |spec| < 100 && exists piece :: piece in SplitOn(text, ',') && spec == Trim(piece)
  }

  lemma SpecsFromFeatureText(text: string, r: seq<string>)
    requires r == KeepSpecs(TrimAll(Take(SplitOn(text, ','), 4)))
    ensures forall k :: 0 <= k < |r| ==> SpecFromText(r[k], text)
  {
    var pieces := SplitOn(text, ',');
    var taken := Take(pieces, 4);
    forall k | 0 <= k < |r| ensures SpecFromText(r[k], text) {
      var j :| 0 <= j < |taken| && TrimAll(taken)[j] == r[k];
      assert taken[j] in pieces;
    }
  }

  // ---------------------------------------------------------------------
  // Model number and release date
  // ---------------------------------------------------------------------

  lemma NatToStringFourDigits(n: nat)
    requires 1000 <= n < 10000
    ensures |NatToString(n)| == 4
  {
    assert |NatToString(n / 1000)| == 1;
    assert |NatToString(n / 100)| == 2 by {
      assert n / 100 / 10 == n / 1000;
    }
    assert |NatToString(n / 10)| == 3 by {
      assert n / 10 / 10 == n / 100;
    }
  }

  /** `A${Math.floor(2000 + Math.random() * 1000)}`: `A` and a four-digit
      number from 2000 to 2999. */
  function ModelNumber(r: Draw): (m: string)
    ensures |m| == 5 && m[0] == 'A' && AllDigits(m[1..])
    ensures 2000 <= DecimalValue(m[1..]) <= 2999
  {
    var n := (2000.0 + r as real * 1000.0).Floor;
    assert 2000 <= n <= 2999;
    NatToStringFourDigits(n);
    DecimalValueOfNatToString(n);
    assert ("A" + NatToString(n))[1..] == NatToString(n);
    "A" + NatToString(n)
  }

  predicate IsAsciiLetter(c: char) {
    'A' <= c <= 'Z' || 'a' <= c <= 'z'
  }

  function LetterRun(s: string, k: nat): (e: nat)
    requires k <= |s|
    ensures k <= e <= |s| && (forall m :: k <= m < e ==> IsAsciiLetter(s[m])) && (e == |s| || !IsAsciiLetter(s[e]))
    decreases |s| - k
  {
    if k < |s| && IsAsciiLetter(s[k]) then LetterRun(s, k + 1) else k
  }

  /** The capture of /Announced\s+([A-Za-z]+\s+\d{4})/ for a match at `i`:
      the month, the white space after it and four digits. */
  function ReleaseDateAt(s: string, i: nat): (r: Option<string>)
    requires i <= |s|
    ensures r.Some? ==> |r.value| >= 6 && IsAsciiLetter(r.value[0]) && AllDigits(r.value[|r.value| - 4..])
  {
    if StartsWith(s[i..], "Announced") then
      var j := SkipWhitespace(s, i + 9);
      var l := LetterRun(s, j);
      var m := SkipWhitespace(s, l);
      if j > i + 9 && l > j && m > l && m + 4 <= |s| && AllDigits(s[m..m + 4]) then
        assert s[j..m + 4][m + 4 - j - 4..] == s[m..m + 4];
        Some(s[j..m + 4])
      else None
    else None
  }

  /** The leftmost match at or after `i`. */
  function ReleaseDateFrom(s: string, i: nat): (r: Option<string>)
    requires i <= |s|
    ensures r.Some? ==> |r.value| >= 6 && IsAsciiLetter(r.value[0]) && AllDigits(r.value[|r.value| - 4..])
    decreases |s| - i
  {
    match ReleaseDateAt(s, i)
    case Some(d) => Some(d)
    case None => if i == |s| then None else ReleaseDateFrom(s, i + 1)
  }

  function ReleaseDate(description: string): (r: Option<string>) {
    ReleaseDateFrom(description, 0)
  }

  lemma {:induction false} ReleaseDateFromWithoutAnnounced(s: string, i: nat)
    requires i <= |s|
    requires forall m :: i <= m <= |s| ==> !StartsWith(s[m..], "Announced")
    ensures ReleaseDateFrom(s, i) == None
    decreases |s| - i
  {
    if i < |s| {
      ReleaseDateFromWithoutAnnounced(s, i + 1);
    }
  }

  /** A release date, when there is one, is a month name and a four-digit
      year; a description that never says `Announced` has none. */
  lemma ReleaseDateSpec(description: string)
    ensures ReleaseDate(description).Some? ==>
      var d := ReleaseDate(description).value;
      |d| >= 6 && IsAsciiLetter(d[0]) && AllDigits(d[|d| - 4..])
    ensures !Includes(description, "Announced") ==> ReleaseDate(description) == None
  {
    if !Includes(description, "Announced") {
      IncludesIff(description, "Announced");
      forall m | 0 <= m <= |description| ensures !StartsWith(description[m..], "Announced") {
        if StartsWith(description[m..], "Announced") {
          assert OccursAt(description, "Announced", m);
        }
      }
      ReleaseDateFromWithoutAnnounced(description, 0);
    }
  }

  // ---------------------------------------------------------------------
  // The main loop
  // ---------------------------------------------------------------------

  /** The product pushed for a device whose slug is new, in iteration `i`. */
  function BuildProduct(phone: Device, slug: string, i: nat, rnd: Randomness): Product {
    Product(
      slug,
      phone.name,
      "Buy Apple " + phone.name,
      ModelNumber(rnd.model(i)),
      None,
      StorageOptionsFor(phone.description, (k: nat) => rnd.discount(i, k)),
      Take(Specs(phone.description), 4),
      ReleaseDate(phone.description),
      Some("/images/iphones/" + slug + ".jpg"))
  }

  datatype SyncState = SyncState(products: seq<Product>, processed: set<string>)

  /** One iteration: skip a failed lookup and a repeated slug, otherwise
      record the slug and push the product. */
  function SyncStep(st: SyncState, i: nat, fetch: string -> Option<Device>, rnd: Randomness): SyncState
    requires i < |IPhoneModels|
  {
    match fetch(IPhoneModels[i])
    case None => st
    case Some(phone) =>
      var slug := Slug(phone.name);
      if slug in st.processed then st
      else SyncState(st.products + [BuildProduct(phone, slug, i, rnd)], st.processed + {slug})
  }

  /** The state after the first `n` model names. */
  function SyncFrom(n: nat, fetch: string -> Option<Device>, rnd: Randomness): SyncState
    requires n <= |IPhoneModels|
  {
    if n == 0 then SyncState([], {}) else SyncStep(SyncFrom(n - 1, fetch, rnd), n - 1, fetch, rnd)
  }

  function Ids(products: seq<Product>): (r: seq<string>)
    ensures |r| == |products| && forall k :: 0 <= k < |r| ==> r[k] == products[k].id
  {
    seq(|products|, k requires 0 <= k < |products| => products[k].id)
  }

  /** A built product is keyed by the slug of its device name and always
      has storage options and specs. */
  lemma BuildProductSpec(phone: Device, i: nat, rnd: Randomness)
    ensures WellFormed(BuildProduct(phone, Slug(phone.name), i, rnd))
  {
    SlugSpec(phone.name);
    StorageOptionsDefaultIff(phone.description, (k: nat) => rnd.discount(i, k));
  }

  /** What every synced product satisfies: its id is the slug of its device
      name, and it has storage options and specs. */
  predicate WellFormed(p: Product) {
    p.id == Slug(p.deviceName) && IsSlug(p.id) && |p.storageOptions| >= 1 && |p.specs| >= 1
  }

  /** After any number of iterations the processed set is exactly the set
      of product ids, no two products share an id, and at most one product
      was pushed per model name. */
  lemma {:induction false} SyncIdsDistinct(n: nat, fetch: string -> Option<Device>, rnd: Randomness)
    requires n <= |IPhoneModels|
    ensures TracksIds(SyncFrom(n, fetch, rnd))
    ensures |SyncFrom(n, fetch, rnd).products| <= n
  {
    if n > 0 {
      var prev := SyncFrom(n - 1, fetch, rnd);
      SyncIdsDistinct(n - 1, fetch, rnd);
      SyncStepIds(prev, n - 1, fetch, rnd);
      assert SyncFrom(n, fetch, rnd) == SyncStep(prev, n - 1, fetch, rnd);
    }
  }

  /** The processed set is exactly the set of product ids, and no two
      products share an id. */
  ghost predicate TracksIds(st: SyncState) {
    (forall id :: id in st.processed <==> id in Ids(st.products)) && DistinctStrings(Ids(st.products))
  }

  lemma SyncStepIds(st: SyncState, i: nat, fetch: string -> Option<Device>, rnd: Randomness)
    requires i < |IPhoneModels|
    requires TracksIds(st)
    ensures TracksIds(SyncStep(st, i, fetch, rnd))
    ensures |SyncStep(st, i, fetch, rnd).products| <= |st.products| + 1
  {
    var next := SyncStep(st, i, fetch, rnd);
    if next != st {
      var phone := fetch(IPhoneModels[i]).value;
      var p := BuildProduct(phone, Slug(phone.name), i, rnd);
      assert next.products == st.products + [p];
      assert p.id == Slug(phone.name) && p.id !in st.processed;
      assert Ids(next.products) == Ids(st.products) + [p.id];
    }
  }

  /** Every product the loop pushes is well formed. */
  lemma {:induction false} SyncProductsWellFormed(n: nat, fetch: string -> Option<Device>, rnd: Randomness)
    requires n <= |IPhoneModels|
    ensures forall p :: p in SyncFrom(n, fetch, rnd).products ==> WellFormed(p)
  {
    if n > 0 {
      SyncProductsWellFormed(n - 1, fetch, rnd);
      SyncStepWellFormed(SyncFrom(n - 1, fetch, rnd), n - 1, fetch, rnd);
    }
  }

  lemma SyncStepWellFormed(st: SyncState, i: nat, fetch: string -> Option<Device>, rnd: Randomness)
    requires i < |IPhoneModels|
    requires forall p :: p in st.products ==> WellFormed(p)
    ensures forall p :: p in SyncStep(st, i, fetch, rnd).products ==> WellFormed(p)
  {
    var next := SyncStep(st, i, fetch, rnd);
    if next != st {
      var phone := fetch(IPhoneModels[i]).value;
      var p := BuildProduct(phone, Slug(phone.name), i, rnd);
      BuildProductSpec(phone, i, rnd);
      assert next.products == st.products + [p];
    }
  }

  /** `syncMobileAPI()`'s loop over the model names. */
  method SyncProducts(fetch: string -> Option<Device>, rnd: Randomness) returns (products: seq<Product>)
    ensures products == SyncFrom(|IPhoneModels|, fetch, rnd).products
    ensures DistinctStrings(Ids(products))
    ensures |products| <= |IPhoneModels|
    ensures forall p :: p in products ==> WellFormed(p)
  {
    products := [];
    var processedPhones: set<string> := {};
    for i := 0 to |IPhoneModels|
      invariant products == SyncFrom(i, fetch, rnd).products
      invariant processedPhones == SyncFrom(i, fetch, rnd).processed
    {
      var phone := fetch(IPhoneModels[i]);
      if phone.None? {
        continue;
      }
      var slug := Slug(phone.value.name);
      if slug in processedPhones {
        continue;
      }
      processedPhones := processedPhones + {slug};
      var storageOptions := DeriveStorageOptions(phone.value.description, (k: nat) => rnd.discount(i, k));
      products := products + [Product(
        slug,
        phone.value.name,
        "Buy Apple " + phone.value.name,
        ModelNumber(rnd.model(i)),
        None,
        storageOptions,
        Take(Specs(phone.value.description), 4),
        ReleaseDate(phone.value.description),
        Some("/images/iphones/" + slug + ".jpg"))];
    }
    SyncIdsDistinct(|IPhoneModels|, fetch, rnd);
    SyncProductsWellFormed(|IPhoneModels|, fetch, rnd);
  }

  /** The configuration written back: the new products replace the old ones
      wholesale, and the existing payment settings are kept. */
  function MergeConfig(existing: StoreConfig, products: seq<Product>): (r: StoreConfig)
    ensures r.products == products
    ensures r.paymentConfig == existing.paymentConfig
  {
    StoreConfig(products, existing.paymentConfig)
  }

  /** Syncing again over a synced configuration writes the same payment
      settings, and the result depends on the old configuration only
      through them. */
  lemma MergeConfigSpec(existing: StoreConfig, other: StoreConfig, products: seq<Product>)
    ensures MergeConfig(MergeConfig(existing, products), products) == MergeConfig(existing, products)
    ensures other.paymentConfig == existing.paymentConfig ==> MergeConfig(other, products) == MergeConfig(existing, products)
  {
  }
}

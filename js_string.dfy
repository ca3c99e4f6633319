/**
 * The parts of JavaScript's string library the storefront relies on:
 * `trim`, `toLowerCase`, `includes`, `startsWith`, `split`, `join`,
 * the `\s` and `\d` character classes, `parseInt` on digit strings and
 * decimal number-to-string conversion. A JavaScript string is modelled as
 * a sequence of characters.
 */
module JsString {

  /** The characters JavaScript counts as white space: what `trim` strips
      and what `\s` matches (WhiteSpace, LineTerminator and category Zs). */
  predicate IsWhitespace(c: char) {
    c == '\t' || c == '\n' || c == '\U{B}' || c == '\U{C}' || c == '\r' || c == ' ' ||
    c == '\U{A0}' || c == '\U{1680}' || ('\U{2000}' <= c <= '\U{200A}') ||
    c == '\U{2028}' || c == '\U{2029}' || c == '\U{202F}' || c == '\U{205F}' ||
    c == '\U{3000}' || c == '\U{FEFF}'
  }

  /** `\d` without the `u` flag: the ASCII digits only. */
  predicate IsDigit(c: char) {
    '0' <= c <= '9'
  }

  predicate AllWhitespace(s: string) {
    forall i :: 0 <= i < |s| ==> IsWhitespace(s[i])
  }

  predicate AllDigits(s: string) {
    forall i :: 0 <= i < |s| ==> IsDigit(s[i])
  }

  // ---------------------------------------------------------------------
  // trim
  // ---------------------------------------------------------------------

  /** Drops the leading white space: the result is the suffix of `s` that
      starts at its first non-white-space character. */
  function TrimStart(s: string): (r: string)
    ensures |r| <= |s| && r == s[|s| - |r|..]
    ensures AllWhitespace(s[..|s| - |r|])
    ensures r == [] || !IsWhitespace(r[0])
  {
    if s != [] && IsWhitespace(s[0]) then TrimStart(s[1..]) else s
  }

  /** Drops the trailing white space: the result is the prefix of `s` that
      ends at its last non-white-space character. */
  function TrimEnd(s: string): (r: string)
    ensures |r| <= |s| && r == s[..|r|]
    ensures AllWhitespace(s[|r|..])
    ensures r == [] || !IsWhitespace(r[|r| - 1])
  {
    if s != [] && IsWhitespace(s[|s| - 1]) then TrimEnd(s[..|s| - 1]) else s
  }

  /** `String.prototype.trim`. */
  function Trim(s: string): (r: string)
  {
    TrimEnd(TrimStart(s))
  }

  /** Where the trimmed string sits inside `s`. */
  lemma TrimBounds(s: string) returns (i: nat, j: nat)
    ensures i <= j <= |s| && Trim(s) == s[i..j]
    ensures AllWhitespace(s[..i]) && AllWhitespace(s[j..])
  {
    var t := TrimStart(s);
    i := |s| - |t|;
    var u := TrimEnd(t);
    j := i + |u|;
    assert s[i..j] == u by {
      assert t == s[i..];
      assert u == t[..|u|];
    }
    assert s[j..] == t[|u|..];
  }

  /** The trimmed string is the infix of `s` left after removing white space
      at both ends, and it neither starts nor ends with white space. */
  lemma TrimIsInfix(s: string)
    ensures exists i, j :: 0 <= i <= j <= |s| && Trim(s) == s[i..j] &&
                           AllWhitespace(s[..i]) && AllWhitespace(s[j..])
    ensures Trim(s) == [] || (!IsWhitespace(Trim(s)[0]) && !IsWhitespace(Trim(s)[|Trim(s)| - 1]))
    ensures |Trim(s)| <= |s|
  {
    var i, j := TrimBounds(s);
    var t := TrimStart(s);
    var u := TrimEnd(t);
    if u != [] {
      assert u[0] == t[0];
    }
  }

  lemma {:induction false} TrimStartOfWhitespacePrefix(a: string, s: string)
    requires AllWhitespace(a)
    ensures TrimStart(a + s) == TrimStart(s)
  {
    if a != [] {
      assert (a + s)[1..] == a[1..] + s;
      TrimStartOfWhitespacePrefix(a[1..], s);
    } else {
      assert a + s == s;
    }
  }

  lemma {:induction false} TrimEndOfWhitespaceSuffix(s: string, b: string)
    requires AllWhitespace(b)
    ensures TrimEnd(s + b) == TrimEnd(s)
  {
    if b != [] {
      var k := |b| - 1;
      assert (s + b)[..|s + b| - 1] == s + b[..k];
      TrimEndOfWhitespaceSuffix(s, b[..k]);
    } else {
      assert s + b == s;
    }
  }

  lemma {:induction false} TrimStartKeepsTail(s: string, b: string)
    requires exists i :: 0 <= i < |s| && !IsWhitespace(s[i])
    ensures TrimStart(s + b) == TrimStart(s) + b
  {
    if IsWhitespace(s[0]) {
      var i :| 0 <= i < |s| && !IsWhitespace(s[i]);
      assert !IsWhitespace(s[1..][i - 1]);
      assert (s + b)[1..] == s[1..] + b;
      TrimStartKeepsTail(s[1..], b);
    }
  }

  lemma TrimStartOfWhitespace(s: string)
    requires AllWhitespace(s)
    ensures TrimStart(s) == []
  {
    TrimStartOfWhitespacePrefix(s, []);
    assert s + [] == s;
  }

  /** White space added before or after a string never changes its trimmed
      form, so it never counts toward a length computed after `trim`. */
  lemma TrimIgnoresPadding(a: string, s: string, b: string)
    requires AllWhitespace(a) && AllWhitespace(b)
    ensures Trim(a + s + b) == Trim(s)
  {
    assert a + s + b == a + (s + b);
    TrimStartOfWhitespacePrefix(a, s + b);
    if exists i :: 0 <= i < |s| && !IsWhitespace(s[i]) {
      TrimStartKeepsTail(s, b);
      TrimEndOfWhitespaceSuffix(TrimStart(s), b);
    } else {
      assert AllWhitespace(s + b);
      TrimStartOfWhitespace(s + b);
      TrimStartOfWhitespace(s);
    }
  }

  // ---------------------------------------------------------------------
  // toLowerCase
  // ---------------------------------------------------------------------

  /** Lower-cases one character. ASCII letters are mapped exactly, and so are
      the two code points whose lower case contains an ASCII letter
      (U+212A KELVIN SIGN, and U+0130, which lower-cases to `i` followed by a
      combining dot). Every other character is kept: its real lower case is
      again outside ASCII, which is all that the model's uses observe. */
  function LowerChar(c: char): (r: string)
    ensures |r| >= 1
  {
    if 'A' <= c <= 'Z' then [(c as int + 32) as char]
    else if c == '\U{212A}' then "k"
    else if c == '\U{130}' then "i\U{307}"
    else [c]
  }

  /** `String.prototype.toLowerCase`, up to the limit stated at `LowerChar`. */
  function ToLower(s: string): (r: string)
    ensures |r| >= |s|
  {
    if s == [] then [] else LowerChar(s[0]) + ToLower(s[1..])
  }

  lemma {:induction false} ToLowerAppend(a: string, b: string)
    ensures ToLower(a + b) == ToLower(a) + ToLower(b)
  {
    if a == [] {
      assert a + b == b;
    } else {
      assert (a + b)[1..] == a[1..] + b;
      ToLowerAppend(a[1..], b);
    }
  }

  // ---------------------------------------------------------------------
  // startsWith / includes
  // ---------------------------------------------------------------------

  predicate StartsWith(s: string, p: string) {
    |p| <= |s| && s[..|p|] == p
  }

  /** `String.prototype.includes`, computed by sliding along `s`. */
  predicate Includes(s: string, p: string)
    decreases |s|
  {
    StartsWith(s, p) || (s != [] && Includes(s[1..], p))
  }

  predicate OccursAt(s: string, p: string, i: int) {
    0 <= i <= |s| - |p| && s[i..i + |p|] == p
  }

  /** `Includes` holds exactly when `p` occurs at some index of `s`. */
  lemma {:induction false} IncludesIff(s: string, p: string)
    ensures Includes(s, p) <==> exists i :: OccursAt(s, p, i)
    decreases |s|
  {
    if s == [] {
      if Includes(s, p) {
        assert OccursAt(s, p, 0);
      }
      if exists i :: OccursAt(s, p, i) {
        var i :| OccursAt(s, p, i);
        assert StartsWith(s, p);
      }
    } else {
      IncludesIff(s[1..], p);
      if Includes(s, p) {
        if StartsWith(s, p) {
          assert OccursAt(s, p, 0);
        } else {
          var i :| OccursAt(s[1..], p, i);
          assert s[1..][i..i + |p|] == s[i + 1..i + 1 + |p|];
          assert OccursAt(s, p, i + 1);
        }
      }
      if exists i :: OccursAt(s, p, i) {
        var i :| OccursAt(s, p, i);
        if i == 0 {
          assert StartsWith(s, p);
        } else {
          assert s[1..][i - 1..i - 1 + |p|] == s[i..i + |p|];
          assert OccursAt(s[1..], p, i - 1);
        }
      }
    }
  }

  // ---------------------------------------------------------------------
  // split / join
  // ---------------------------------------------------------------------

  /** `String.prototype.split` on a one-character separator: the pieces
      between consecutive separators, always at least one. */
  function SplitOn(s: string, sep: char): (parts: seq<string>)
    ensures |parts| >= 1
    ensures forall k :: 0 <= k < |parts| ==> sep !in parts[k]
    decreases |s|
  {
    if sep in s then
      var i := IndexOf(s, sep);
      [s[..i]] + SplitOn(s[i + 1..], sep)
    else [s]
  }

  /** The first index of `c` in `s`. */
  function IndexOf(s: string, c: char): (i: nat)
    requires c in s
    ensures i < |s| && s[i] == c && c !in s[..i]
  {
    if s[0] == c then 0 else IndexOf(s[1..], c) + 1
  }

  /** `Array.prototype.join`. */
  function Join(parts: seq<string>, sep: string): string
  {
    if |parts| == 0 then ""
    else if |parts| == 1 then parts[0]
    else parts[0] + sep + Join(parts[1..], sep)
  }

  lemma {:induction false} IndexOfAfter(a: string, c: char, b: string)
    requires c !in a
    ensures c in a + [c] + b && IndexOf(a + [c] + b, c) == |a|
  {
    assert (a + [c] + b)[|a|] == c;
    if a != [] {
      assert (a + [c] + b)[1..] == a[1..] + [c] + b;
      IndexOfAfter(a[1..], c, b);
    }
  }

  /** Joining then splitting on a separator that occurs in no part gives the
      parts back. */
  lemma {:induction false} SplitJoin(parts: seq<string>, sep: char)
    requires |parts| >= 1
    requires forall k :: 0 <= k < |parts| ==> sep !in parts[k]
    ensures SplitOn(Join(parts, [sep]), sep) == parts
  {
    if |parts| > 1 {
      var rest := Join(parts[1..], [sep]);
      var s := parts[0] + [sep] + rest;
      IndexOfAfter(parts[0], sep, rest);
      assert s[..|parts[0]|] == parts[0];
      assert s[|parts[0]| + 1..] == rest;
      SplitJoin(parts[1..], sep);
    }
  }

  /** The first character of a join is the first character of its first part. */
  lemma JoinFirst(parts: seq<string>, sep: string)
    requires |parts| >= 1 && parts[0] != []
    ensures Join(parts, sep) != [] && Join(parts, sep)[0] == parts[0][0]
  {
  }

  /** The last character of a join is the last character of its last part. */
  lemma {:induction false} JoinLast(parts: seq<string>, sep: string)
    requires |parts| >= 1 && parts[|parts| - 1] != []
    ensures Join(parts, sep) != []
    ensures Join(parts, sep)[|Join(parts, sep)| - 1] == parts[|parts| - 1][|parts[|parts| - 1]| - 1]
  {
    if |parts| > 1 {
      JoinLast(parts[1..], sep);
    }
  }

  /** A string that neither starts nor ends with white space, wrapped in one
      newline on each side (a template literal that opens and closes on its
      own line), trims back to itself. */
  lemma TrimTemplate(s: string)
    requires s != [] && !IsWhitespace(s[0]) && !IsWhitespace(s[|s| - 1])
    ensures Trim("\n" + s + "\n") == s
  {
    TrimIgnoresPadding("\n", s, "\n");
    assert TrimStart(s) == s;
    assert TrimEnd(s) == s;
  }

  /** A template of lines that starts and ends with visible characters,
      written between two newlines, is trimmed back to its lines. */
  lemma TrimJoinedTemplate(lines: seq<string>, sep: string)
    requires |lines| >= 1 && lines[0] != [] && lines[|lines| - 1] != []
    requires !IsWhitespace(lines[0][0])
    requires !IsWhitespace(lines[|lines| - 1][|lines[|lines| - 1]| - 1])
    ensures var j := Join(lines, sep);
      j != [] && !IsWhitespace(j[0]) && !IsWhitespace(j[|j| - 1])
    ensures Trim("\n" + Join(lines, sep) + "\n") == Join(lines, sep)
  {
    JoinFirst(lines, sep);
    JoinLast(lines, sep);
    TrimTemplate(Join(lines, sep));
  }

  // ---------------------------------------------------------------------
  // replace with a global pattern
  // ---------------------------------------------------------------------

  /** `s.replace(/c/g, rep)`: every occurrence of the character `c` replaced
      by `rep`. */
  function ReplaceAll(s: string, c: char, rep: string): (r: string)
    ensures c !in rep ==> c !in r
  {
    if s == [] then [] else (if s[0] == c then rep else [s[0]]) + ReplaceAll(s[1..], c, rep)
  }

  lemma {:induction false} ReplaceAllAppend(a: string, b: string, c: char, rep: string)
    ensures ReplaceAll(a + b, c, rep) == ReplaceAll(a, c, rep) + ReplaceAll(b, c, rep)
  {
    if a == [] {
      assert a + b == b;
    } else {
      assert (a + b)[1..] == a[1..] + b;
      ReplaceAllAppend(a[1..], b, c, rep);
    }
  }

  lemma {:induction false} ReplaceAllAbsent(s: string, c: char, rep: string)
    requires c !in s
    ensures ReplaceAll(s, c, rep) == s
  {
    if s != [] {
      ReplaceAllAbsent(s[1..], c, rep);
    }
  }

  /** `s.replace(/pat/g, c)` for a literal pattern: scanning left to right,
      each occurrence is replaced by `c` and the scan resumes after it. */
  function ReplaceStr(s: string, pat: string, c: char): (r: string)
    requires |pat| >= 1
    ensures |r| <= |s|
    decreases |s|
  {
    if s == [] then []
    else if StartsWith(s, pat) then [c] + ReplaceStr(s[|pat|..], pat, c)
    else [s[0]] + ReplaceStr(s[1..], pat, c)
  }

  /** An occurrence of the pattern at the front becomes the character. */
  lemma ReplaceStrAtMatch(pat: string, b: string, c: char)
    requires |pat| >= 1
    ensures ReplaceStr(pat + b, pat, c) == [c] + ReplaceStr(b, pat, c)
  {
    assert StartsWith(pat + b, pat);
    assert (pat + b)[|pat|..] == b;
  }

  /** A prefix that differs from the pattern at its second character, and
      does not contain the pattern's first character after its own first,
      is passed over unchanged. */
  lemma ReplaceStrMismatch(a: string, b: string, pat: string, c: char)
    requires |pat| >= 2 && |a| >= 2 && a[1] != pat[1] && pat[0] !in a[1..]
    ensures ReplaceStr(a + b, pat, c) == a + ReplaceStr(b, pat, c)
  {
    var t := a + b;
    assert t[1] == a[1];
    assert !StartsWith(t, pat);
    assert t[1..] == a[1..] + b;
    ReplaceStrSkip(a[1..], b, pat, c);
    assert a == [a[0]] + a[1..];
  }

  /** A prefix without the pattern's first character is passed over
      unchanged. */
  lemma {:induction false} ReplaceStrSkip(a: string, b: string, pat: string, c: char)
    requires |pat| >= 1 && pat[0] !in a
    ensures ReplaceStr(a + b, pat, c) == a + ReplaceStr(b, pat, c)
  {
    if a == [] {
      assert a + b == b;
    } else {
      assert (a + b)[0] == a[0];
      assert (a + b)[1..] == a[1..] + b;
      ReplaceStrSkip(a[1..], b, pat, c);
    }
  }

  // ---------------------------------------------------------------------
  // Scanning runs of one character class (regular-expression `\s+`, `\d+`)
  // ---------------------------------------------------------------------

  /** The end of the white-space run that starts at `j`. */
  function SkipWhitespace(s: string, j: nat): (k: nat)
    requires j <= |s|
    ensures j <= k <= |s| && AllWhitespace(s[j..k]) && (k == |s| || !IsWhitespace(s[k]))
    decreases |s| - j
  {
    if j < |s| && IsWhitespace(s[j]) then SkipWhitespace(s, j + 1) else j
  }

  /** The end of the digit run that starts at `k`. */
  function DigitRun(s: string, k: nat): (e: nat)
    requires k <= |s|
    ensures k <= e <= |s| && AllDigits(s[k..e]) && (e == |s| || !IsDigit(s[e]))
    decreases |s| - k
  {
    if k < |s| && IsDigit(s[k]) then DigitRun(s, k + 1) else k
  }

  // ---------------------------------------------------------------------
  // Decimal numbers
  // ---------------------------------------------------------------------

  function DigitValue(c: char): nat
    requires IsDigit(c)
  {
    c as int - '0' as int
  }

  /** `parseInt` of a string of ASCII digits (leading zeros allowed). */
  function DecimalValue(s: string): nat
    requires AllDigits(s)
  {
    if s == [] then 0 else 10 * DecimalValue(s[..|s| - 1]) + DigitValue(s[|s| - 1])
  }

  /** The decimal digits of `n` without leading zeros: what template
      interpolation `${n}` prints for a non-negative integer. */
  function NatToString(n: nat): (r: string)
    ensures |r| >= 1 && AllDigits(r)
    ensures r[0] != '0' || n == 0
  {
    if n < 10 then [('0' as int + n) as char]
    else NatToString(n / 10) + [('0' as int + n % 10) as char]
  }

  /** Printing then parsing a number gives it back. */
  lemma {:induction false} DecimalValueOfNatToString(n: nat)
    ensures DecimalValue(NatToString(n)) == n
  {
    var s := NatToString(n);
    if n >= 10 {
      assert s[..|s| - 1] == NatToString(n / 10);
      DecimalValueOfNatToString(n / 10);
    }
  }
}

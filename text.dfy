/** The JavaScript string operations the charter code relies on, restricted to what it uses:
    `trim`, `toLowerCase`, `indexOf`/`includes`, `lastIndexOf`, `startsWith`/`endsWith`,
    `join`, and number-to-string for small counts. */
module Text {
  import opened Wrappers

  /** ECMAScript WhiteSpace and LineTerminator code points: the set that `trim` removes
      and that the regular-expression class `\s` matches. */
  predicate IsWhitespace(c: char)
  {
    || c == '\t' || c == '\n' || c == '\U{000B}' || c == '\U{000C}' || c == '\r' || c == ' '
    || c == '\U{00A0}' || c == '\U{1680}' || ('\U{2000}' <= c <= '\U{200A}')
    || c == '\U{2028}' || c == '\U{2029}' || c == '\U{202F}' || c == '\U{205F}'
    || c == '\U{3000}' || c == '\U{FEFF}'
  }

  /** The line terminators, which the regular-expression `.` does not match. */
  predicate IsLineTerminator(c: char)
  {
    c == '\n' || c == '\r' || c == '\U{2028}' || c == '\U{2029}'
  }

  predicate AllWhite(s: string)
  {
    forall i :: 0 <= i < |s| ==> IsWhitespace(s[i])
  }

  /** `s.trim().length === 0`. */
  predicate IsBlank(s: string)
  {
    AllWhite(s)
  }

  /** Number of leading white-space characters of `s`. */
  function LeadingWhite(s: string): (n: nat)
    ensures n <= |s|
    ensures AllWhite(s[..n])
    ensures n < |s| ==> !IsWhitespace(s[n])
  {
    if |s| == 0 || !IsWhitespace(s[0]) then 0
    else
      var n := 1 + LeadingWhite(s[1..]);
      assert s[..n] == [s[0]] + s[1..][..n - 1];
      n
  }

  /** Length of `s` without its trailing white space. */
  function TrailingEnd(s: string): (m: nat)
    ensures m <= |s|
    ensures AllWhite(s[m..])
    ensures m > 0 ==> !IsWhitespace(s[m - 1])
  {
    if |s| == 0 || !IsWhitespace(s[|s| - 1]) then |s|
    else
      var m := TrailingEnd(s[..|s| - 1]);
      assert s[m..] == s[..|s| - 1][m..] + [s[|s| - 1]];
      m
  }

  /** Leading white space of a concatenation. */
  lemma {:induction false} LeadingWhiteAppend(x: string, y: string)
    ensures LeadingWhite(x + y) == if AllWhite(x) then |x| + LeadingWhite(y) else LeadingWhite(x)
  {
    if |x| > 0 {
      LeadingWhiteAppend(x[1..], y);
      assert (x + y)[1..] == x[1..] + y;
      assert AllWhite(x) <==> IsWhitespace(x[0]) && AllWhite(x[1..]);
    } else {
      assert x + y == y;
    }
  }

  /** White space followed by a visible character: the leading white space is exactly the
      first part. */
  lemma LeadingWhiteExact(x: string, y: string)
    requires AllWhite(x)
    requires |y| > 0 && !IsWhitespace(y[0])
    ensures LeadingWhite(x + y) == |x|
  {
    LeadingWhiteAppend(x, y);
  }

  /** `s.trimEnd()`. */
  function TrimEnd(s: string): (r: string)
    ensures r == s[..TrailingEnd(s)]
    ensures r == [] || !IsWhitespace(r[|r| - 1])
  {
    s[..TrailingEnd(s)]
  }

  /** Where the text kept by `trim` begins. */
  function TrimStartIndex(s: string): (n: nat)
    ensures n <= |s|
  {
    LeadingWhite(s)
  }

  /** `s.trim()`: the longest slice of `s` that neither begins nor ends with white space,
      obtained by removing only white space on either side. */
  function Trim(s: string): (r: string)
    ensures TrimStartIndex(s) + |r| <= |s|
    ensures r == s[TrimStartIndex(s)..TrimStartIndex(s) + |r|]
    ensures AllWhite(s[..TrimStartIndex(s)]) && AllWhite(s[TrimStartIndex(s) + |r|..])
    ensures r == [] || (!IsWhitespace(r[0]) && !IsWhitespace(r[|r| - 1]))
    ensures r == [] <==> AllWhite(s)
  {
    var n := LeadingWhite(s);
    var rest := s[n..];
    var m := TrailingEnd(rest);
    assert m > 0 ==> rest[0] == s[n];
    assert s[n + m..] == rest[m..];
    assert AllWhite(s) ==> n == |s|;
    assert n == |s| ==> AllWhite(s) by {
      if n == |s| { assert s == s[..n]; }
    }
    rest[..m]
  }

  /** Trimming after the leading white space is already gone gives the same text. */
  lemma TrimAfterLeading(s: string)
    ensures Trim(s[LeadingWhite(s)..]) == Trim(s)
  {
    var rest := s[LeadingWhite(s)..];
    assert LeadingWhite(rest) == 0;
    assert rest[0..] == rest;
  }

  /** `c.toLowerCase()` for ASCII and Latin-1 upper-case letters; every other character
      is left as it is. */
  function LowerChar(c: char): char
  {
    if 'A' <= c <= 'Z' || ('\U{00C0}' <= c <= '\U{00DE}' && c != '\U{00D7}') then
      (c as int + 32) as char
    else c
  }

  /** `s.toLowerCase()`, character by character. */
  function Lower(s: string): (r: string)
    ensures |r| == |s|
    ensures forall i :: 0 <= i < |s| ==> r[i] == LowerChar(s[i])
  {
    seq(|s|, i requires 0 <= i < |s| => LowerChar(s[i]))
  }

  /** Lower-casing a slice is slicing the lower-cased text. */
  lemma LowerSlice(s: string, i: nat, j: nat)
    requires i <= j <= |s|
    ensures Lower(s[i..j]) == Lower(s)[i..j]
  {
  }

  /** A slice of a slice is a slice of the whole. */
  lemma SliceOfSlice(s: string, a: nat, b: nat, i: nat, j: nat)
    requires a <= b <= |s| && i <= j <= b - a
    ensures s[a..b][i..j] == s[a + i..a + j]
  {
    forall k | 0 <= k < j - i
      ensures s[a..b][i..j][k] == s[a + i..a + j][k]
    {
    }
  }

  /** Dropping past a prefix and then some more leaves the rest of the suffix. */
  lemma DropOfAppend(p: string, t: string, i: nat)
    requires i <= |t|
    ensures (p + t)[|p| + i..] == t[i..]
  {
    forall k | 0 <= k < |t| - i
      ensures (p + t)[|p| + i..][k] == t[i..][k]
    {
    }
  }

  /** `needle` occurs in `hay` at index `i`. */
  predicate OccursAt(hay: string, needle: string, i: int)
  {
    0 <= i && i + |needle| <= |hay| && hay[i..i + |needle|] == needle
  }

  /** `hay.indexOf(needle, from)`: the first occurrence at or after `from`, or -1. */
  function IndexOfFrom(hay: string, needle: string, from: nat): (r: int)
    ensures r == -1 || (from <= r && OccursAt(hay, needle, r))
    ensures r != -1 ==> forall i :: from <= i < r ==> !OccursAt(hay, needle, i)
    ensures r == -1 ==> forall i :: from <= i ==> !OccursAt(hay, needle, i)
    decreases |hay| - from
  {
    if from + |needle| > |hay| then -1
    else if hay[from..from + |needle|] == needle then from
    else IndexOfFrom(hay, needle, from + 1)
  }

  /** `hay.indexOf(needle)`. */
  function IndexOf(hay: string, needle: string): (r: int)
    ensures r == -1 || OccursAt(hay, needle, r)
    ensures r != -1 ==> forall i :: 0 <= i < r ==> !OccursAt(hay, needle, i)
    ensures r == -1 <==> forall i :: !OccursAt(hay, needle, i)
  {
    IndexOfFrom(hay, needle, 0)
  }

  /** `hay.includes(needle)`: `needle` occurs somewhere in `hay`. */
  predicate Contains(hay: string, needle: string)
  {
    exists i :: 0 <= i <= |hay| - |needle| && OccursAt(hay, needle, i)
  }

  /** `includes` agrees with `indexOf`. */
  lemma ContainsIndexOf(hay: string, needle: string)
    ensures Contains(hay, needle) <==> IndexOf(hay, needle) != -1
  {
  }

  /** `s.lastIndexOf(c)` for a one-character string `c`. */
  function LastIndexOfChar(s: string, c: char): (r: int)
    ensures -1 <= r < |s|
    ensures r != -1 ==> s[r] == c
    ensures forall j :: r < j < |s| ==> s[j] != c
  {
    if |s| == 0 then -1
    else if s[|s| - 1] == c then |s| - 1
    else LastIndexOfChar(s[..|s| - 1], c)
  }

  predicate StartsWith(s: string, prefix: string)
  {
    |prefix| <= |s| && s[..|prefix|] == prefix
  }

  predicate EndsWith(s: string, suffix: string)
  {
    |suffix| <= |s| && s[|s| - |suffix|..] == suffix
  }

  /** `parts.join(sep)`. */
  function Join(parts: seq<string>, sep: string): string
  {
    if |parts| == 0 then ""
    else if |parts| == 1 then parts[0]
    else parts[0] + sep + Join(parts[1..], sep)
  }

  /** Decimal rendering of a natural number, as template literals print it. */
  function NatToString(n: nat): string
  {
    var d := "0123456789"[n % 10];
    if n < 10 then [d] else NatToString(n / 10) + [d]
  }

  /** The value stored under `key` in a table of (key, value) pairs, as an object literal
      lookup gives it; `None` when the key is absent. */
  function Lookup<V>(table: seq<(string, V)>, key: string): (r: Option<V>)
    ensures r.None? <==> forall k :: 0 <= k < |table| ==> table[k].0 != key
    ensures r.Some? ==> exists k :: 0 <= k < |table| && table[k] == (key, r.value)
  {
    if |table| == 0 then None
    else if table[0].0 == key then Some(table[0].1)
    else
      var r := Lookup(table[1..], key);
      assert r.Some? ==> exists k :: 0 <= k < |table[1..]| && table[1..][k] == (key, r.value);
      r
  }
}

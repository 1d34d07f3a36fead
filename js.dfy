/** The slice of JavaScript semantics the storefront relies on: primitive values
    with their truthiness, case conversion, whitespace trimming, substring
    search, `Array.prototype.slice` index clamping, decimal number printing and a
    decimal `parseInt`. */
module Js {

  datatype Option<T> = None | Some(value: T)

  /** A primitive JavaScript value as it appears in a product record or a form.
      Numbers are integers (money is kept in integer cents elsewhere). */
  datatype Value = Undefined | Null | Bool(b: bool) | Num(n: int) | NaN | Str(s: string)

  /** JavaScript truthiness: `undefined`, `null`, `false`, `0`, `NaN` and `''` are falsy. */
  predicate Truthy(v: Value)
  {
    match v
    case Bool(b) => b
    case Num(n) => n != 0
    case Str(s) => s != ""
    case _ => false
  }

  /** The value of `a || b`. */
  function Or(a: Value, b: Value): (r: Value)
    ensures Truthy(a) ==> r == a
    ensures !Truthy(a) ==> r == b
  {
    if Truthy(a) then a else b
  }

  /** `typeof v` for the values above. */
  function TypeOf(v: Value): string
  {
    match v
    case Undefined => "undefined"
    case Null => "object"
    case Bool(_) => "boolean"
    case Num(_) => "number"
    case NaN => "number"
    case Str(_) => "string"
  }

  /** The ASCII letter and digit classes `[A-Z]`, `[a-z]` and `\d` of a regular expression. */
  predicate IsUpper(c: char) { 'A' <= c <= 'Z' }
  predicate IsLower(c: char) { 'a' <= c <= 'z' }
  predicate IsDigit(c: char) { '0' <= c <= '9' }

  /** The capitals of the Latin-1 block, `À` to `Þ` without `×`, whose small
      letter lies 32 code points higher. */
  predicate IsLatin1Capital(c: char) { '\U{C0}' <= c <= '\U{DE}' && c != '\U{D7}' }
  predicate IsLatin1Small(c: char) { '\U{E0}' <= c <= '\U{FE}' && c != '\U{F7}' }

  /** The capital letters the case mapping below knows: ASCII, Latin-1 and `Ÿ`. */
  predicate IsCapital(c: char) { IsUpper(c) || IsLatin1Capital(c) || c == '\U{178}' }
  /** Their small letters: ASCII, Latin-1 and `ÿ`. */
  predicate IsSmall(c: char) { IsLower(c) || IsLatin1Small(c) || c == '\U{FF}' }

  /** `toLowerCase` on one character. */
  function LowerChar(c: char): (r: char)
    ensures IsCapital(c) ==> IsSmall(r)
    ensures !IsCapital(c) ==> r == c
  {
    if IsUpper(c) || IsLatin1Capital(c) then (c as int + 32) as char
    else if c == '\U{178}' then '\U{FF}'
    else c
  }

  /** `toUpperCase` on one character. */
  function UpperChar(c: char): (r: char)
    ensures IsSmall(c) ==> IsCapital(r)
    ensures !IsSmall(c) ==> r == c
  {
    if IsLower(c) || IsLatin1Small(c) then (c as int - 32) as char
    else if c == '\U{FF}' then '\U{178}'
    else c
  }

  /** `s.toLowerCase()`, character by character. */
  function Lower(s: string): (r: string)
    ensures |r| == |s|
    ensures forall i :: 0 <= i < |s| ==> r[i] == LowerChar(s[i])
  {
    if s == [] then [] else [LowerChar(s[0])] + Lower(s[1..])
  }

  /** Replacing one character by another of the same lower case keeps the lower case. */
  lemma LowerOneLetter(s: string, k: nat, c: char)
    requires k < |s| && LowerChar(c) == LowerChar(s[k])
    ensures Lower(s[k := c]) == Lower(s)
  {
    var t := s[k := c];
    assert forall i :: 0 <= i < |t| ==> LowerChar(t[i]) == LowerChar(s[i]);
  }

  /** `s.toUpperCase()`, character by character. */
  function Upper(s: string): (r: string)
    ensures |r| == |s|
    ensures forall i :: 0 <= i < |s| ==> r[i] == UpperChar(s[i])
  {
    if s == [] then [] else [UpperChar(s[0])] + Upper(s[1..])
  }

  lemma LowerIdempotent(s: string)
    ensures Lower(Lower(s)) == Lower(s)
  {
  }

  /** On one character, the upper-cased forms agree exactly when the
      lower-cased forms do. */
  lemma CharCaseEq(x: char, y: char)
    ensures (UpperChar(x) == UpperChar(y)) <==> (LowerChar(x) == LowerChar(y))
  {
  }

  /** Comparing upper-cased forms is the same as comparing lower-cased forms. */
  lemma {:induction false} UpperEqIffLowerEq(a: string, b: string)
    ensures (Upper(a) == Upper(b)) <==> (Lower(a) == Lower(b))
  {
    if |a| == |b| {
      forall i | 0 <= i < |a|
        ensures (Upper(a)[i] == Upper(b)[i]) <==> (Lower(a)[i] == Lower(b)[i])
      {
        CharCaseEq(a[i], b[i]);
      }
      if Upper(a) == Upper(b) {
        assert forall i :: 0 <= i < |a| ==> Upper(a)[i] == Upper(b)[i];
        assert Lower(a) == Lower(b);
      }
      if Lower(a) == Lower(b) {
        assert forall i :: 0 <= i < |a| ==> Lower(a)[i] == Lower(b)[i];
        assert Upper(a) == Upper(b);
      }
    } else {
      assert |Upper(a)| != |Upper(b)| && |Lower(a)| != |Lower(b)|;
    }
  }

  /** The characters `trim()` and `\s` treat as white space: ECMAScript's
      WhiteSpace (tab, vertical tab, form feed, space, no-break space, the byte
      order mark and the space separators U+1680, U+2000 to U+200A, U+202F,
      U+205F and U+3000) and LineTerminator (line feed, carriage return, U+2028
      and U+2029). validator.js trims with `\s`, so both agree. */
  predicate IsSpace(c: char)
  {
    c == ' ' || c == '\t' || c == '\n' || c == '\r' || c == '\U{0B}' || c == '\U{0C}'
    || c == '\U{A0}' || c == '\U{1680}' || ('\U{2000}' <= c <= '\U{200A}')
    || c == '\U{2028}' || c == '\U{2029}' || c == '\U{202F}' || c == '\U{205F}'
    || c == '\U{3000}' || c == '\U{FEFF}'
  }

  function TrimStart(s: string): (r: string)
    ensures |r| <= |s| && r == s[|s| - |r|..]
    ensures r == [] || !IsSpace(r[0])
    ensures forall i :: 0 <= i < |s| - |r| ==> IsSpace(s[i])
  {
    if s != [] && IsSpace(s[0]) then TrimStart(s[1..]) else s
  }

  function TrimEnd(s: string): (r: string)
    ensures |r| <= |s| && r == s[..|r|]
    ensures r == [] || !IsSpace(r[|r| - 1])
    ensures forall i :: |r| <= i < |s| ==> IsSpace(s[i])
  {
    if s != [] && IsSpace(s[|s| - 1]) then TrimEnd(s[..|s| - 1]) else s
  }

  /** `s.trim()`. */
  function Trim(s: string): (r: string)
    ensures |r| <= |s|
    ensures r == [] || (!IsSpace(r[0]) && !IsSpace(r[|r| - 1]))
  {
    TrimEnd(TrimStart(s))
  }

  lemma TrimIdempotent(s: string)
    ensures Trim(Trim(s)) == Trim(s)
  {
    var t := Trim(s);
    if t != [] {
      assert TrimStart(t) == t;
      assert TrimEnd(t) == t;
    }
  }

  /** `sub` occurs in `s` starting at index `i`. */
  predicate OccursAt(s: string, sub: string, i: int)
  {
    0 <= i <= |s| - |sub| && s[i..i + |sub|] == sub
  }

  /** `s.includes(sub)`. */
  predicate Contains(s: string, sub: string)
  {
    exists i :: 0 <= i <= |s| - |sub| && OccursAt(s, sub, i)
  }

  /** Clamps a (possibly negative) `slice` index into [0, n], as JavaScript does. */
  function ClampIndex(i: int, n: nat): (r: nat)
    ensures r <= n
    ensures 0 <= i <= n ==> r == i
  {
    if i < 0 then (if n + i < 0 then 0 else n + i) else if i > n then n else i
  }

  /** `s.slice(start, end)`. */
  function Slice<T>(s: seq<T>, start: int, end: int): (r: seq<T>)
    ensures 0 <= start <= end <= |s| ==> r == s[start..end]
    ensures |r| <= |s|
    ensures forall i :: 0 <= i < |r| ==> r[i] in s
  {
    var a := ClampIndex(start, |s|);
    var b := ClampIndex(end, |s|);
    if a < b then s[a..b] else []
  }

  /** A slice is never wider than the distance between its two indices. */
  lemma SliceWidth<T>(s: seq<T>, start: int, end: int)
    requires start <= end
    ensures |Slice(s, start, end)| <= end - start
  {
  }

  function DigitChar(d: nat): (c: char)
    requires d < 10
    ensures IsDigit(c)
  {
    ('0' as int + d) as char
  }

  /** Decimal representation of a natural number, as `n.toString()`. */
  function NatToString(n: nat): (r: string)
    ensures r != []
    ensures forall i :: 0 <= i < |r| ==> IsDigit(r[i])
    decreases n
  {
    if n < 10 then [DigitChar(n)] else NatToString(n / 10) + [DigitChar(n % 10)]
  }

  /** Decimal representation of an integer, as `n.toString()`. */
  function IntToString(n: int): (r: string)
    ensures r != []
  {
    if n < 0 then "-" + NatToString(-n) else NatToString(n)
  }

  /** String conversion of a value, as `String(v)` for the cases the model uses. */
  function ToString(v: Value): string
  {
    match v
    case Undefined => "undefined"
    case Null => "null"
    case Bool(b) => if b then "true" else "false"
    case Num(n) => IntToString(n)
    case NaN => "NaN"
    case Str(s) => s
  }

  /** Length of the longest prefix of `s` made of decimal digits. */
  function DigitPrefix(s: string): (k: nat)
    ensures k <= |s|
    ensures forall i :: 0 <= i < k ==> IsDigit(s[i])
    ensures k < |s| ==> !IsDigit(s[k])
  {
    if s != [] && IsDigit(s[0]) then 1 + DigitPrefix(s[1..]) else 0
  }

  /** The value of a string of decimal digits. */
  function DigitsValue(s: string): (n: nat)
    requires forall i :: 0 <= i < |s| ==> IsDigit(s[i])
  {
    if s == [] then 0
    else
      assert IsDigit(s[|s| - 1]);
      10 * DigitsValue(s[..|s| - 1]) + (s[|s| - 1] as int - '0' as int)
  }

  /** `parseInt` in base 10: leading whitespace is skipped, an optional sign is read,
      then the longest run of digits; no digit at all gives `NaN` (here `None`). */
  function ParseIntString(s: string): (r: Option<int>)
    ensures s != [] && IsDigit(s[0]) ==> r.Some?
    ensures s == [] ==> r == None
  {
    var t := TrimStart(s);
    var neg := t != [] && t[0] == '-';
    var u := if t != [] && (t[0] == '-' || t[0] == '+') then t[1..] else t;
    var k := DigitPrefix(u);
    if k == 0 then None
    else
      var magnitude: int := DigitsValue(u[..k]);
      if neg then Some(-magnitude) else Some(magnitude)
  }

  /** `parseInt(v)` for a value: numbers are already integral here, other values
      are converted to a string first. */
  function ParseInt(v: Value): (r: Option<int>)
    ensures v.Num? ==> r == Some(v.n)
  {
    match v
    case Num(n) => Some(n)
    case _ => ParseIntString(ToString(v))
  }

  /** `a` is obtained from `b` by deleting elements, keeping the order. */
  ghost predicate Subsequence<T>(a: seq<T>, b: seq<T>)
    decreases |b|
  {
    if a == [] then true
    else if b == [] then false
    else (a[0] == b[0] && Subsequence(a[1..], b[1..])) || Subsequence(a, b[1..])
  }

  lemma {:induction false} SubsequenceTransitive<T>(a: seq<T>, b: seq<T>, c: seq<T>)
    requires Subsequence(a, b) && Subsequence(b, c)
    ensures Subsequence(a, c)
    decreases |c|
  {
    if a != [] {
      if Subsequence(b, c[1..]) {
        SubsequenceTransitive(a, b, c[1..]);
      } else if a[0] == b[0] && Subsequence(a[1..], b[1..]) {
        SubsequenceTransitive(a[1..], b[1..], c[1..]);
      } else {
        SubsequenceTransitive(a, b[1..], c[1..]);
      }
    }
  }

  lemma {:induction false} SubsequenceReflexive<T>(s: seq<T>)
    ensures Subsequence(s, s)
  {
    if s != [] {
      SubsequenceReflexive(s[1..]);
    }
  }

  /** `s.filter(p)`. */
  function Filter<T(!new)>(s: seq<T>, p: T -> bool): (r: seq<T>)
    ensures forall x :: x in r <==> x in s && p(x)
    ensures |r| <= |s|
  {
    if s == [] then []
    else
      assert s == [s[0]] + s[1..];
      if p(s[0]) then [s[0]] + Filter(s[1..], p) else Filter(s[1..], p)
  }

  /** A filter keeps the order of what it keeps. */
  lemma {:induction false} FilterSubsequence<T(!new)>(s: seq<T>, p: T -> bool)
    ensures Subsequence(Filter(s, p), s)
  {
    if s != [] {
      FilterSubsequence(s[1..], p);
      var r := Filter(s, p);
      if p(s[0]) {
        assert r[0] == s[0] && r[1..] == Filter(s[1..], p);
      } else if r != [] {
        assert Subsequence(r, s[1..]);
      }
    }
  }

  /** A filter that accepts everything returns the list itself. */
  lemma {:induction false} FilterKeepsAll<T(!new)>(s: seq<T>, p: T -> bool)
    requires forall i :: 0 <= i < |s| ==> p(s[i])
    ensures Filter(s, p) == s
  {
    if s != [] {
      FilterKeepsAll(s[1..], p);
    }
  }

  /** Filtering distributes over concatenation. */
  lemma {:induction false} FilterAppend<T(!new)>(a: seq<T>, b: seq<T>, p: T -> bool)
    ensures Filter(a + b, p) == Filter(a, p) + Filter(b, p)
  {
    if a == [] {
      assert a + b == b;
    } else {
      assert (a + b)[0] == a[0] && (a + b)[1..] == a[1..] + b;
      FilterAppend(a[1..], b, p);
    }
  }

  /** Every element passes exactly one of a filter and its negation. */
  lemma {:induction false} FilterSplitCount<T(!new)>(s: seq<T>, p: T -> bool, q: T -> bool)
    requires forall x :: q(x) == !p(x)
    ensures |Filter(s, p)| + |Filter(s, q)| == |s|
  {
    if s != [] {
      FilterSplitCount(s[1..], p, q);
    }
  }

  /** The elements passing one of two exclusive tests are counted by adding the
      two counts. */
  lemma {:induction false} FilterUnionCount<T(!new)>(s: seq<T>, p: T -> bool, q: T -> bool, pq: T -> bool)
    requires forall x :: pq(x) == (p(x) || q(x)) && !(p(x) && q(x))
    ensures |Filter(s, p)| + |Filter(s, q)| == |Filter(s, pq)|
  {
    if s != [] {
      FilterUnionCount(s[1..], p, q, pq);
    }
  }

  /** Appending one element adds one to a count exactly when it passes. */
  lemma FilterCountAppend<T(!new)>(s: seq<T>, x: T, p: T -> bool)
    ensures |Filter(s + [x], p)| == |Filter(s, p)| + (if p(x) then 1 else 0)
  {
    FilterAppend(s, [x], p);
    assert Filter([x], p) == if p(x) then [x] else [];
  }
}

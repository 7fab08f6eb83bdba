/**
 * The string operations of Rust's standard library that the puzzle parsers
 * rely on: `split`, `split_whitespace`, `trim`, `parse`, `to_string` and
 * `join`, on `string` = `seq<char>`.
 */
module Text {
  import opened Wrappers

  predicate IsDigit(c: char) { '0' <= c <= '9' }

  function DigitValue(c: char): (d: nat)
    requires IsDigit(c)
    ensures d < 10
  {
    (c as int) - ('0' as int)
  }

  function DigitChar(d: nat): (c: char)
    requires d < 10
    ensures IsDigit(c) && DigitValue(c) == d
  {
    (('0' as int) + d) as char
  }

  /** ASCII part of `char::is_whitespace`. */
  predicate IsWhitespace(c: char)
  {
    c == ' ' || c == '\t' || c == '\n' || c == '\r' || c == '\U{0B}' || c == '\U{0C}'
  }

  predicate AllDigits(s: string)
  {
    forall i :: 0 <= i < |s| ==> IsDigit(s[i])
  }

  /** Index of the first occurrence of `c` in `s`. */
  function IndexOf(s: string, c: char): (i: nat)
    requires c in s
    ensures i < |s| && s[i] == c && c !in s[..i]
  {
    if s[0] == c then 0 else 1 + IndexOf(s[1..], c)
  }

  /** `str::split(char)`: always at least one piece, no piece holds the separator. */
  function Split(s: string, sep: char): (r: seq<string>)
    ensures |r| >= 1
    ensures forall i :: 0 <= i < |r| ==> sep !in r[i]
    ensures sep !in s ==> r == [s]
    ensures sep in s ==> |r| >= 2
    decreases |s|
  {
    if sep !in s then [s]
    else
      var i := IndexOf(s, sep);
      [s[..i]] + Split(s[i + 1..], sep)
  }

  /** `[..].join(sep)` for a one-character separator. */
  function Join(parts: seq<string>, sep: char): string
  {
    if |parts| == 0 then ""
    else if |parts| == 1 then parts[0]
    else parts[0] + [sep] + Join(parts[1..], sep)
  }

  /** Joining separator-free pieces and splitting again gives the pieces back. */
  lemma {:induction false} SplitJoin(parts: seq<string>, sep: char)
    requires |parts| >= 1
    requires forall i :: 0 <= i < |parts| ==> sep !in parts[i]
    ensures Split(Join(parts, sep), sep) == parts
  {
    if |parts| > 1 {
      var s := Join(parts, sep);
      var rest := Join(parts[1..], sep);
      assert s == parts[0] + [sep] + rest;
      assert s[|parts[0]|] == sep;
      assert s[..|parts[0]|] == parts[0];
      assert sep in s;
      var i := IndexOf(s, sep);
      assert i == |parts[0]|;
      assert s[i + 1..] == rest;
      SplitJoin(parts[1..], sep);
    }
  }

  /** Splitting at the first separator peels off the text before it. */
  lemma SplitFirst(a: string, sep: char, b: string)
    requires sep !in a
    ensures Split(a + [sep] + b, sep) == [a] + Split(b, sep)
  {
    var s := a + [sep] + b;
    assert s[|a|] == sep;
    var i := IndexOf(s, sep);
    assert s[..|a|] == a;
    assert i == |a|;
    assert s[..i] == a;
    assert s[i + 1..] == b;
  }

  /** Text with a separator is the text before its first one, the separator and the rest. */
  lemma AroundFirst(a: string, sep: char)
    requires sep in a
    ensures a == a[..IndexOf(a, sep)] + [sep] + a[IndexOf(a, sep) + 1..]
  {
  }

  /** Splitting peels off the text before a's first separator, whatever follows a. */
  lemma SplitPeel(a: string, sep: char, b: string)
    requires sep in a
    ensures Split(a + [sep] + b, sep) == [a[..IndexOf(a, sep)]] + Split(a[IndexOf(a, sep) + 1..] + [sep] + b, sep)
  {
    var i := IndexOf(a, sep);
    var head, tail := a[..i], a[i + 1..];
    AroundFirst(a, sep);
    AppendRegroup(head + [sep], tail, [sep], b);
    SplitFirst(head, sep, tail + [sep] + b);
  }

  /** Regrouping a four-part concatenation (stated apart to keep Split's unfoldings out of it). */
  lemma AppendRegroup<T>(x: seq<T>, z: seq<T>, u: seq<T>, w: seq<T>)
    ensures x + z + u + w == x + (z + u + w)
  {
  }

  /** Regrouping a concatenation that starts with one element. */
  lemma ConsAssoc<T>(h: T, q: seq<T>, r: seq<T>)
    ensures [h] + (q + r) == ([h] + q) + r
  {
  }

  /** Split of text with a separator, unfolded once. */
  lemma SplitHead(a: string, sep: char)
    requires sep in a
    ensures Split(a, sep) == [a[..IndexOf(a, sep)]] + Split(a[IndexOf(a, sep) + 1..], sep)
  {
  }

  /** SplitAppend for a with a separator, given SplitAppend for the text after its first one. */
  lemma SplitAppendStep(a: string, sep: char, b: string)
    requires sep in a
    requires Split(a[IndexOf(a, sep) + 1..] + [sep] + b, sep) == Split(a[IndexOf(a, sep) + 1..], sep) + Split(b, sep)
    ensures Split(a + [sep] + b, sep) == Split(a, sep) + Split(b, sep)
  {
    var i := IndexOf(a, sep);
    SplitPeel(a, sep, b);
    SplitHead(a, sep);
    ConsAssoc(a[..i], Split(a[i + 1..], sep), Split(b, sep));
  }

  /** Splitting text joined at a separator gives the pieces of both sides. */
  lemma {:induction false} SplitAppend(a: string, sep: char, b: string)
    ensures Split(a + [sep] + b, sep) == Split(a, sep) + Split(b, sep)
    decreases |a|
  {
    if sep !in a {
      SplitFirst(a, sep, b);
    } else {
      var i := IndexOf(a, sep);
      SplitAppend(a[i + 1..], sep, b);
      SplitAppendStep(a, sep, b);
    }
  }

  /** Position of the first occurrence of the (non-empty) pattern `pat`. */
  function Find(s: string, pat: string): (r: Option<nat>)
    requires |pat| > 0
    ensures r.Some? ==> r.value + |pat| <= |s| && s[r.value..r.value + |pat|] == pat
    decreases |s|
  {
    if |s| < |pat| then None
    else if s[..|pat|] == pat then Some(0)
    else match Find(s[1..], pat)
      case None => None
      case Some(k) => Some(k + 1)
  }

  /** `str::split(&str)` for a non-empty pattern. */
  function SplitStr(s: string, pat: string): (r: seq<string>)
    requires |pat| > 0
    ensures |r| >= 1
    decreases |s|
  {
    match Find(s, pat)
    case None => [s]
    case Some(i) => [s[..i]] + SplitStr(s[i + |pat|..], pat)
  }

  function TrimStart(s: string): (r: string)
    ensures |r| <= |s|
    ensures r == [] || !IsWhitespace(r[0])
  {
    if s != [] && IsWhitespace(s[0]) then TrimStart(s[1..]) else s
  }

  function TrimEnd(s: string): (r: string)
    ensures |r| <= |s|
    ensures r == [] || !IsWhitespace(r[|r| - 1])
  {
    if s != [] && IsWhitespace(s[|s| - 1]) then TrimEnd(s[..|s| - 1]) else s
  }

  /** `str::trim`. */
  function Trim(s: string): string
  {
    TrimStart(TrimEnd(s))
  }

  /** `.map(|s| s.trim())` over a list of pieces. */
  function TrimAll(parts: seq<string>): (r: seq<string>)
    ensures |r| == |parts|
    ensures forall i :: 0 <= i < |r| ==> r[i] == Trim(parts[i])
  {
    if parts == [] then [] else [Trim(parts[0])] + TrimAll(parts[1..])
  }

  /** Text without surrounding whitespace is left alone by `trim`. */
  lemma TrimNoop(s: string)
    requires s == [] || (!IsWhitespace(s[0]) && !IsWhitespace(s[|s| - 1]))
    ensures Trim(s) == s
  {
  }

  /** Length of the leading run of non-whitespace characters. */
  function TokenEnd(s: string): (k: nat)
    ensures k <= |s|
    ensures forall i :: 0 <= i < k ==> !IsWhitespace(s[i])
    ensures k < |s| ==> IsWhitespace(s[k])
  {
    if s == [] || IsWhitespace(s[0]) then 0 else 1 + TokenEnd(s[1..])
  }

  /** `str::split_whitespace`: the maximal runs of non-whitespace characters. */
  function SplitWhitespace(s: string): (r: seq<string>)
    ensures forall i :: 0 <= i < |r| ==> |r[i]| > 0
    decreases |s|
  {
    var t := TrimStart(s);
    if t == [] then []
    else
      var k := TokenEnd(t);
      [t[..k]] + SplitWhitespace(t[k..])
  }

  /** Value of a run of decimal digits, most significant first. */
  function DigitsValue(s: string): nat
    requires AllDigits(s)
  {
    if s == [] then 0 else DigitsValue(s[..|s| - 1]) * 10 + DigitValue(s[|s| - 1])
  }

  /** `str::parse::<usize>()`: an optional '+' and at least one digit. */
  function ParseNat(s: string): (r: Option<nat>)
    ensures r.Some? ==> |s| > 0
  {
    var body := if |s| > 0 && s[0] == '+' then s[1..] else s;
    if |body| > 0 && AllDigits(body) then Some(DigitsValue(body)) else None
  }

  /** `str::parse::<i64>()`: an optional sign and at least one digit. */
  function ParseInt(s: string): (r: Option<int>)
  {
    if |s| > 0 && s[0] == '-' then
      (if |s| > 1 && AllDigits(s[1..]) then (var v: int := DigitsValue(s[1..]); Some(-v)) else None)
    else match ParseNat(s)
      case Some(v) => Some(v)
      case None => None
  }

  /** `usize::to_string`: decimal digits without leading zeros. */
  function NatToString(n: nat): (s: string)
    ensures |s| > 0 && AllDigits(s)
  {
    if n < 10 then [DigitChar(n)] else NatToString(n / 10) + [DigitChar(n % 10)]
  }

  lemma {:induction false} NatToStringValue(n: nat)
    ensures DigitsValue(NatToString(n)) == n
  {
    var s := NatToString(n);
    if n < 10 {
      assert s[..0] == [];
    } else {
      NatToStringValue(n / 10);
      assert s[..|s| - 1] == NatToString(n / 10);
    }
  }

  /** Printing a number and parsing it back gives the number. */
  lemma ParseNatToString(n: nat)
    ensures ParseNat(NatToString(n)) == Some(n)
  {
    NatToStringValue(n);
  }

  predicate IsHexDigit(c: char)
  {
    IsDigit(c) || 'a' <= c <= 'f' || 'A' <= c <= 'F'
  }

  function HexValue(c: char): (d: nat)
    requires IsHexDigit(c)
    ensures d < 16
  {
    if IsDigit(c) then DigitValue(c)
    else if 'a' <= c <= 'f' then (c as int) - ('a' as int) + 10
    else (c as int) - ('A' as int) + 10
  }

  function HexDigitsValue(s: string): nat
    requires forall i :: 0 <= i < |s| ==> IsHexDigit(s[i])
  {
    if s == [] then 0 else HexDigitsValue(s[..|s| - 1]) * 16 + HexValue(s[|s| - 1])
  }

  /** `i64::from_str_radix(s, 16)`: an optional sign and at least one hex digit. */
  function ParseHex(s: string): Option<int>
  {
    var neg := |s| > 0 && s[0] == '-';
    var body := if |s| > 0 && (s[0] == '-' || s[0] == '+') then s[1..] else s;
    if |body| > 0 && forall i :: 0 <= i < |body| ==> IsHexDigit(body[i]) then
      var v: int := HexDigitsValue(body);
      Some(if neg then -v else v)
    else None
  }
}

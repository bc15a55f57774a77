/**
 * String helpers standing for the Python built-ins the console relies on:
 * `str(n)`, `int(s)`, `format(n, "03")`, `sub in s`, `s.replace(m, "")`,
 * `sep.join(xs)`, `s.split(sep)`, `s.split()`.
 */
module Text {
  import opened Wrappers

  // ---------------------------------------------------------------- digits

  predicate IsDigit(c: char) { '0' <= c <= '9' }

  predicate AllDigits(s: string) { forall i :: 0 <= i < |s| ==> IsDigit(s[i]) }

  function DigitChar(d: nat): (c: char)
    requires d < 10
    ensures IsDigit(c)
  {
    ('0' as int + d) as char
  }

  function DigitValue(c: char): (d: nat)
    requires IsDigit(c)
    ensures d < 10 && DigitChar(d) == c
  {
    c as int - '0' as int
  }

  /** `str(n)` for n >= 0: decimal digits without a leading zero (except "0" itself). */
  function NatToString(n: nat): (s: string)
    ensures |s| >= 1 && AllDigits(s)
    ensures s[0] == '0' <==> n == 0
    decreases n
  {
    if n < 10 then [DigitChar(n)] else NatToString(n / 10) + [DigitChar(n % 10)]
  }

  /** The number a digit string denotes; leading zeros are allowed. */
  function DigitsValue(s: string): nat
    requires AllDigits(s)
    decreases |s|
  {
    if s == [] then 0 else DigitsValue(s[..|s| - 1]) * 10 + DigitValue(s[|s| - 1])
  }

  lemma {:induction false} NatToStringValue(n: nat)
    ensures DigitsValue(NatToString(n)) == n
    decreases n
  {
    if n >= 10 {
      var s := NatToString(n);
      assert s[..|s| - 1] == NatToString(n / 10);
      NatToStringValue(n / 10);
    }
  }

  function Zeros(k: nat): (s: string)
    ensures |s| == k && forall i :: 0 <= i < k ==> s[i] == '0'
  {
    seq(k, _ => '0')
  }

  lemma {:induction false} ZerosValue(k: nat)
    ensures AllDigits(Zeros(k)) && DigitsValue(Zeros(k)) == 0
  {
    if k > 0 {
      assert Zeros(k)[..k - 1] == Zeros(k - 1);
      ZerosValue(k - 1);
    }
  }

  lemma {:induction false} LeadingZerosValue(k: nat, s: string)
    requires AllDigits(s)
    ensures AllDigits(Zeros(k) + s) && DigitsValue(Zeros(k) + s) == DigitsValue(s)
    decreases |s|
  {
    ZerosValue(k);
    if s == [] {
      assert Zeros(k) + s == Zeros(k);
    } else {
      var t := Zeros(k) + s;
      assert t[..|t| - 1] == Zeros(k) + s[..|s| - 1];
      LeadingZerosValue(k, s[..|s| - 1]);
    }
  }

  /** Left-pads a digit string with '0' to at least `width` characters. */
  function PadDigits(s: string, width: int): (r: string)
    ensures |r| == if |s| < width then width else |s|
    ensures AllDigits(s) ==> AllDigits(r)
  {
    if |s| < width then Zeros(width - |s|) + s else s
  }

  /**
   * `format(i, "0<width>")`: a minus sign for a negative number, then the
   * digits, zero-padded so that the whole text is at least `width` wide.
   */
  function ZeroPad(i: int, width: nat): (r: string)
    ensures |r| >= width
    ensures i >= 0 ==> AllDigits(r)
    ensures i < 0 ==> |r| > 0 && r[0] == '-' && AllDigits(r[1..])
  {
    if i < 0 then "-" + PadDigits(NatToString(-i), width - 1)
    else PadDigits(NatToString(i), width)
  }

  /** `str(i)`. */
  function IntToString(i: int): (s: string)
    ensures |s| >= 1
  {
    if i < 0 then "-" + NatToString(-i) else NatToString(i)
  }

  /** `int(s)` for a run of decimal digits. */
  function ParseNat(s: string): (r: Option<nat>)
    ensures r.Some? <==> |s| > 0 && AllDigits(s)
  {
    if |s| > 0 && AllDigits(s) then Some(DigitsValue(s)) else None
  }

  /** `int(s)` for an optional sign followed by decimal digits. */
  function ParseInt(s: string): Option<int>
  {
    if |s| > 0 && (s[0] == '-' || s[0] == '+') then
      match ParseNat(s[1..])
      case Some(n) => Some(if s[0] == '-' then -(n as int) else n as int)
      case None => None
    else
      match ParseNat(s)
      case Some(n) => Some(n)
      case None => None
  }

  lemma ParseZeroPad(n: nat, width: nat)
    ensures ParseNat(ZeroPad(n, width)) == Some(n)
  {
    NatToStringValue(n);
    var s := NatToString(n);
    if |s| < width {
      LeadingZerosValue(width - |s|, s);
    }
  }

  /** Reading back `str(i)` gives i: the text keys of a JSON object recover their int keys. */
  lemma ParseIntToString(i: int)
    ensures ParseInt(IntToString(i)) == Some(i)
  {
    var s := IntToString(i);
    if i < 0 {
      var d := NatToString(-i);
      NatToStringValue(-i);
      assert s == "-" + d && s[0] == '-' && s[1..] == d;
      assert ParseNat(d) == Some(-i);
    } else {
      var d := NatToString(i);
      NatToStringValue(i);
      assert s == d && IsDigit(d[0]);
      assert ParseNat(d) == Some(i);
    }
  }

  lemma IntToStringInjective(i: int, j: int)
    ensures IntToString(i) == IntToString(j) ==> i == j
  {
    ParseIntToString(i);
    ParseIntToString(j);
  }

  /** The text a zero-padded rendering reads back to, for any width: `int(format(i, "0w")) == i`. */
  lemma ParseIntZeroPad(i: int, width: nat)
    ensures ParseInt(ZeroPad(i, width)) == Some(i)
  {
    if i < 0 {
      var p := PadDigits(NatToString(-i), width - 1);
      assert ZeroPad(i, width)[1..] == p;
      NatToStringValue(-i);
      if |NatToString(-i)| < width - 1 {
        LeadingZerosValue(width - 1 - |NatToString(-i)|, NatToString(-i));
      }
    } else {
      ParseZeroPad(i, width);
      assert ZeroPad(i, width)[0] != '-' && ZeroPad(i, width)[0] != '+' by {
        assert IsDigit(ZeroPad(i, width)[0]);
      }
    }
  }

  // ------------------------------------------------------------ substrings

  predicate StartsWith(s: string, prefix: string)
  {
    |prefix| <= |s| && s[..|prefix|] == prefix
  }

  /** Python `sub in s`. */
  predicate Contains(s: string, sub: string)
    decreases |s|
  {
    StartsWith(s, sub) || (|s| > 0 && Contains(s[1..], sub))
  }

  lemma {:induction false} ContainsSuffix(a: string, b: string)
    ensures Contains(a + b, b)
    decreases |a|
  {
    if |a| == 0 {
      assert a + b == b;
    } else {
      assert (a + b)[1..] == a[1..] + b;
      ContainsSuffix(a[1..], b);
    }
  }

  lemma {:induction false} ContainsExtend(a: string, b: string, sub: string)
    requires Contains(a, sub)
    ensures Contains(a + b, sub)
    decreases |a|
  {
    if StartsWith(a, sub) {
      assert (a + b)[..|sub|] == a[..|sub|];
    } else {
      assert (a + b)[1..] == a[1..] + b;
      ContainsExtend(a[1..], b, sub);
    }
  }

  /**
   * Python `s.replace(marker, "")`: scans left to right and removes each
   * occurrence of `marker` that does not overlap an earlier removed one.
   */
  function RemoveAll(s: string, marker: string): (r: string)
    requires |marker| > 0
    ensures |r| <= |s|
    decreases |s|
  {
    if StartsWith(s, marker) then RemoveAll(s[|marker|..], marker)
    else if |s| == 0 then s
    else [s[0]] + RemoveAll(s[1..], marker)
  }

  /** Removal shortens the text exactly when the marker occurs in it. */
  lemma {:induction false} RemoveAllShortensIffContains(s: string, marker: string)
    requires |marker| > 0
    ensures |RemoveAll(s, marker)| < |s| <==> Contains(s, marker)
    decreases |s|
  {
    if StartsWith(s, marker) {
    } else if |s| == 0 {
    } else {
      RemoveAllShortensIffContains(s[1..], marker);
    }
  }

  /** Text without the marker passes through `replace` unchanged. */
  lemma {:induction false} RemoveAllWithoutMarker(s: string, marker: string)
    requires |marker| > 0
    requires !Contains(s, marker)
    ensures RemoveAll(s, marker) == s
    decreases |s|
  {
    if |s| > 0 {
      RemoveAllWithoutMarker(s[1..], marker);
    }
  }

  // ------------------------------------------------------- joining, splitting

  function IndexOf(s: string, c: char): (i: nat)
    requires c in s
    ensures i < |s| && s[i] == c && c !in s[..i]
  {
    if s[0] == c then 0 else 1 + IndexOf(s[1..], c)
  }

  lemma {:induction false} IndexOfAfter(a: string, c: char, b: string)
    requires c !in a
    ensures c in a + [c] + b && IndexOf(a + [c] + b, c) == |a|
    decreases |a|
  {
    var s := a + [c] + b;
    assert s[|a|] == c;
    if |a| > 0 {
      assert s[0] == a[0] && s[1..] == a[1..] + [c] + b;
      IndexOfAfter(a[1..], c, b);
    }
  }

  /** Python `sep.join(parts)` for a one-character separator. */
  function Join(parts: seq<string>, sep: char): string
  {
    if |parts| == 0 then ""
    else if |parts| == 1 then parts[0]
    else parts[0] + [sep] + Join(parts[1..], sep)
  }

  /** Python `s.split(sep)` for a one-character separator: never an empty list. */
  function Split(s: string, sep: char): (parts: seq<string>)
    ensures |parts| >= 1
    decreases |s|
  {
    if sep in s then
      var i := IndexOf(s, sep);
      [s[..i]] + Split(s[i + 1..], sep)
    else [s]
  }

  /** A join of two or more parts: the first part, the separator, then the join of the rest. */
  lemma JoinCons(parts: seq<string>, sep: char)
    requires |parts| >= 2
    ensures Join(parts, sep) == parts[0] + [sep] + Join(parts[1..], sep)
  {
  }

  /** Text up to the first separator is split off as the first part. */
  lemma SplitCons(head: string, sep: char, rest: string)
    requires sep !in head
    ensures Split(head + [sep] + rest, sep) == [head] + Split(rest, sep)
  {
    var s := head + [sep] + rest;
    IndexOfAfter(head, sep, rest);
    assert s[..|head|] == head && s[|head| + 1..] == rest;
  }

  /** Splitting a join recovers the parts when no part holds the separator. */
  lemma {:induction false} SplitJoin(parts: seq<string>, sep: char)
    requires |parts| >= 1
    requires forall k :: 0 <= k < |parts| ==> sep !in parts[k]
    ensures Split(Join(parts, sep), sep) == parts
    decreases |parts|
  {
    if |parts| > 1 {
      var head, rest := parts[0], Join(parts[1..], sep);
      JoinCons(parts, sep);
      SplitCons(head, sep, rest);
      forall k | 0 <= k < |parts[1..]| ensures sep !in parts[1..][k] {
        assert parts[1..][k] == parts[k + 1];
      }
      SplitJoin(parts[1..], sep);
      assert parts == [head] + parts[1..];
    }
  }

  /** `s.split("\n", 1)[0]`: the text before the first line break. */
  function FirstLine(s: string): (r: string)
    ensures '\n' !in r
    ensures |r| <= |s| && r == s[..|r|]
    ensures r == s || s[|r|] == '\n'
  {
    if '\n' in s then s[..IndexOf(s, '\n')] else s
  }

  lemma FirstLineIsHeadOfSplit(s: string)
    ensures FirstLine(s) == Split(s, '\n')[0]
  {
  }

  // --------------------------------------------------------------- whitespace

  /** Python's `str.isspace` for one character. */
  predicate IsSpace(c: char)
  {
    c == ' ' || ('\t' <= c <= '\r') || ('\U{1c}' <= c <= '\U{1f}') || c == '\U{85}' || c == '\U{a0}'
    || c == '\U{1680}' || ('\U{2000}' <= c <= '\U{200a}') || c == '\U{2028}' || c == '\U{2029}'
    || c == '\U{202f}' || c == '\U{205f}' || c == '\U{3000}'
  }

  predicate NoSpace(t: string) { forall k :: 0 <= k < |t| ==> !IsSpace(t[k]) }

  function TokenLength(s: string): (n: nat)
    ensures n <= |s| && NoSpace(s[..n])
    ensures n == |s| || IsSpace(s[n])
  {
    if |s| == 0 || IsSpace(s[0]) then 0 else 1 + TokenLength(s[1..])
  }

  /** Python `s.split()`: the maximal runs of non-whitespace characters, in order. */
  function SplitWhitespace(s: string): (tokens: seq<string>)
    ensures forall k :: 0 <= k < |tokens| ==> |tokens[k]| > 0 && NoSpace(tokens[k])
    decreases |s|
  {
    if |s| == 0 then []
    else if IsSpace(s[0]) then SplitWhitespace(s[1..])
    else
      var n := TokenLength(s);
      [s[..n]] + SplitWhitespace(s[n..])
  }

  /** `s.split()` is empty exactly when s is blank. */
  lemma {:induction false} SplitWhitespaceEmptyIffBlank(s: string)
    ensures SplitWhitespace(s) == [] <==> forall k :: 0 <= k < |s| ==> IsSpace(s[k])
    decreases |s|
  {
    if |s| > 0 && IsSpace(s[0]) {
      SplitWhitespaceEmptyIffBlank(s[1..]);
      if forall k :: 0 <= k < |s[1..]| ==> IsSpace(s[1..][k]) {
        forall k | 0 <= k < |s| ensures IsSpace(s[k]) {
          if k > 0 { assert s[k] == s[1..][k - 1]; }
        }
      }
    }
  }

  /** Python truthiness of an optional string: present and non-empty. */
  predicate Truthy(s: Option<string>)
  {
    s.Some? && s.value != ""
  }
}

/** Text helpers for the JavaScript string operations the logger relies on:
    the decimal rendering of an integer (what a template literal or
    `Number.prototype.toString` produces for an integer), `padStart`, and a
    separator split with its inverse join. The parsers here are not part of
    the program; they are the partners against which the renderings are
    proved injective. */
module Text {
  import opened Wrappers

  predicate IsDigit(c: char) {
    '0' <= c <= '9'
  }

  predicate AllDigits(s: string) {
    forall i :: 0 <= i < |s| ==> IsDigit(s[i])
  }

  function DigitChar(d: nat): (c: char)
    requires d < 10
    ensures IsDigit(c)
    ensures DigitValue(c) == d
  {
    (('0' as int) + d) as char
  }

  function DigitValue(c: char): nat
    requires IsDigit(c)
  {
    (c as int) - ('0' as int)
  }

  /** A rendering without leading zeros: a '0' in front only of "0" itself. */
  predicate NoLeadingZero(s: string) {
    |s| > 1 ==> s[0] != '0'
  }

  /** Decimal rendering of a natural number, without leading zeros. */
  function NatToString(n: nat): (s: string)
    ensures 1 <= |s|
    ensures AllDigits(s)
    ensures n < 10 <==> |s| == 1
    ensures NoLeadingZero(s)
    decreases n
  {
    if n < 10 then [DigitChar(n)] else NatToString(n / 10) + [DigitChar(n % 10)]
  }

  /** Decimal rendering of an integer: a '-' in front of negative values. */
  function IntToString(i: int): (s: string)
    ensures 1 <= |s|
    ensures i >= 0 ==> AllDigits(s)
    ensures i < 0 ==> s[0] == '-' && AllDigits(s[1..])
    ensures NoLeadingZero(s)
  {
    if i < 0 then "-" + NatToString(-i) else NatToString(i)
  }

  /** The value of a string of decimal digits (leading zeros allowed). */
  function DigitsValue(s: string): nat
    requires AllDigits(s)
  {
    if s == [] then 0 else DigitsValue(s[..|s| - 1]) * 10 + DigitValue(s[|s| - 1])
  }

  function ParseNat(s: string): Option<nat> {
    if s != [] && AllDigits(s) then Some(DigitsValue(s)) else None
  }

  function ParseInt(s: string): Option<int> {
    if s != [] && s[0] == '-' then
      var k :- ParseNat(s[1..]);
      var v: int := 0 - (k as int);
      Some(v)
    else
      var k :- ParseNat(s);
      var v: int := k;
      Some(v)
  }

  lemma {:induction false} NatToStringRoundTrip(n: nat)
    ensures ParseNat(NatToString(n)) == Some(n)
    decreases n
  {
    var s := NatToString(n);
    if n >= 10 {
      NatToStringRoundTrip(n / 10);
      assert s[..|s| - 1] == NatToString(n / 10);
      assert DigitsValue(s) == (n / 10) * 10 + n % 10;
    }
  }

  lemma IntToStringRoundTrip(i: int)
    ensures ParseInt(IntToString(i)) == Some(i)
  {
    var s := IntToString(i);
    if i < 0 {
      assert s[1..] == NatToString(-i);
      NatToStringRoundTrip(-i);
    } else {
      NatToStringRoundTrip(i);
    }
  }

  /** Rendering is injective: different integers never print the same. */
  lemma IntToStringInjective(i: int, j: int)
    requires IntToString(i) == IntToString(j)
    ensures i == j
  {
    IntToStringRoundTrip(i);
    IntToStringRoundTrip(j);
  }

  /** `s.padStart(width, fill)`: fill characters in front until `width` is reached;
      a string already that long is returned unchanged (never truncated). */
  function PadStart(s: string, width: nat, fill: char): (r: string)
    ensures |r| == if |s| >= width then |s| else width
    ensures r[|r| - |s|..] == s
    ensures forall i :: 0 <= i < |r| - |s| ==> r[i] == fill
  {
    if |s| >= width then s else seq(width - |s|, _ => fill) + s
  }

  /** `n.toString().padStart(2, '0')`: only digits, at least two of them. */
  function Pad2(n: nat): (r: string)
    ensures |r| >= 2
    ensures AllDigits(r)
  {
    var d := NatToString(n);
    var r := PadStart(d, 2, '0');
    assert forall i :: |r| - |d| <= i < |r| ==> r[i] == d[i - (|r| - |d|)];
    r
  }

  lemma Pad2Width(n: nat)
    requires n < 100
    ensures |Pad2(n)| == 2
    ensures AllDigits(Pad2(n))
  {
    var d := NatToString(n);
    if n >= 10 {
      assert |d| == 2 by {
        assert d == NatToString(n / 10) + [DigitChar(n % 10)];
      }
    }
  }

  /** Padding loses nothing: the leading '0' of a one-digit field reads back
      as nothing, and a wider field is not padded at all. */
  lemma Pad2RoundTrip(n: nat)
    ensures ParseNat(Pad2(n)) == Some(n)
  {
    NatToStringRoundTrip(n);
    if n < 10 {
      var p := Pad2(n);
      assert p == ['0', DigitChar(n)];
      assert p[..1] == ['0'];
      assert DigitsValue(p[..1]) == 0;
    }
  }

  /** Cuts `s` at every occurrence of `sep`; always at least one part. */
  function Split(s: string, sep: char): (parts: seq<string>)
    ensures |parts| >= 1
  {
    if s == [] then [[]]
    else if s[0] == sep then [[]] + Split(s[1..], sep)
    else
      var rest := Split(s[1..], sep);
      [[s[0]] + rest[0]] + rest[1..]
  }

  /** Glues the parts back together with `sep` between them. */
  function Join(parts: seq<string>, sep: char): string
    requires |parts| >= 1
  {
    if |parts| == 1 then parts[0] else parts[0] + [sep] + Join(parts[1..], sep)
  }

  predicate Free(s: string, sep: char) {
    forall i :: 0 <= i < |s| ==> s[i] != sep
  }

  /** Splitting `a + [sep] + b` with `sep` absent from `a` yields `a` first. */
  lemma {:induction false} SplitFront(a: string, b: string, sep: char)
    requires Free(a, sep)
    ensures Split(a + [sep] + b, sep) == [a] + Split(b, sep)
    decreases |a|
  {
    if a == [] {
      assert a + [sep] + b == [sep] + b;
      assert ([sep] + b)[1..] == b;
    } else {
      var s := a + [sep] + b;
      assert s[1..] == a[1..] + [sep] + b;
      SplitFront(a[1..], b, sep);
      assert [a[0]] + a[1..] == a;
    }
  }

  /** A string without `sep` splits into itself alone. */
  lemma {:induction false} SplitWhole(a: string, sep: char)
    requires Free(a, sep)
    ensures Split(a, sep) == [a]
    decreases |a|
  {
    if a != [] {
      SplitWhole(a[1..], sep);
      assert [a[0]] + a[1..] == a;
    }
  }

  /** Split undoes Join when no part contains the separator. */
  lemma {:induction false} SplitJoin(parts: seq<string>, sep: char)
    requires |parts| >= 1
    requires forall k :: 0 <= k < |parts| ==> Free(parts[k], sep)
    ensures Split(Join(parts, sep), sep) == parts
    decreases |parts|
  {
    if |parts| == 1 {
      SplitWhole(parts[0], sep);
    } else {
      SplitJoin(parts[1..], sep);
      SplitFront(parts[0], Join(parts[1..], sep), sep);
      assert [parts[0]] + parts[1..] == parts;
    }
  }

  lemma FreeConcat(a: string, b: string, c: char)
    requires Free(a, c) && Free(b, c)
    ensures Free(a + b, c)
  {
    forall i | 0 <= i < |a + b| ensures (a + b)[i] != c {
      if i >= |a| {
        assert (a + b)[i] == b[i - |a|];
      }
    }
  }

  /** Joining parts that avoid `c` with a separator other than `c` avoids `c`. */
  lemma {:induction false} JoinFree(parts: seq<string>, sep: char, c: char)
    requires |parts| >= 1
    requires sep != c
    requires forall k :: 0 <= k < |parts| ==> Free(parts[k], c)
    ensures Free(Join(parts, sep), c)
    decreases |parts|
  {
    if |parts| > 1 {
      JoinFree(parts[1..], sep, c);
      FreeConcat(parts[0], [sep], c);
      FreeConcat(parts[0] + [sep], Join(parts[1..], sep), c);
    }
  }

  /** Three fields joined by `sep`: split back apart, and free of any other
      character none of them contains. */
  lemma JoinThree(a: string, b: string, c: string, sep: char, other: char)
    requires Free(a, sep) && Free(b, sep) && Free(c, sep)
    requires Free(a, other) && Free(b, other) && Free(c, other)
    requires sep != other
    ensures Join([a, b, c], sep) == a + [sep] + b + [sep] + c
    ensures Split(a + [sep] + b + [sep] + c, sep) == [a, b, c]
    ensures Free(a + [sep] + b + [sep] + c, other)
  {
    assert [a, b, c][1..] == [b, c] && [b, c][1..] == [c];
    assert Join([b, c], sep) == b + [sep] + c;
    SplitJoin([a, b, c], sep);
    JoinFree([a, b, c], sep, other);
  }

  /** Digit strings contain none of the punctuation used as separators. */
  lemma DigitsFree(s: string, sep: char)
    requires AllDigits(s)
    requires !IsDigit(sep)
    ensures Free(s, sep)
  {
  }

  lemma IntToStringFree(i: int, sep: char)
    requires !IsDigit(sep) && sep != '-'
    ensures Free(IntToString(i), sep)
  {
    var s := IntToString(i);
    if i < 0 {
      forall k | 1 <= k < |s| ensures s[k] != sep {
        assert s[k] == s[1..][k - 1];
      }
    }
  }
}

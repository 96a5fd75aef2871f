/** The global `parseInt(string, radix)` of ECMAScript (section 19.2.5 of
    ECMA-262) for radix 10 and a string argument: skip leading white space,
    take an optional sign, take the longest run of decimal digits and read it
    as a number, or yield NaN when that run is empty. */
module ParseInt {

  /** The Number `parseInt` returns: NaN, or an integral value. The value is
      kept as a mathematical integer; a double never rounds a nonzero integer
      to zero, and -0 === 0, so the test "=== 0" is exact on this model. */
  datatype Number = NaN | Int(value: int)

  /** StrWhiteSpaceChar of ECMA-262: the WhiteSpace code points (tab,
      vertical tab, form feed, ZWNBSP and every space separator Zs) and the
      LineTerminator code points. */
  predicate IsStrWhiteSpace(c: char) {
    c == '\t' || c == '\n' || c == '\U{B}' || c == '\U{C}' || c == '\r'
    || c == ' ' || c == '\U{A0}' || c == '\U{1680}'
    || ('\U{2000}' <= c <= '\U{200A}')
    || c == '\U{2028}' || c == '\U{2029}' || c == '\U{202F}' || c == '\U{205F}'
    || c == '\U{3000}' || c == '\U{FEFF}'
  }

  /** A radix-10 digit. */
  predicate IsDecimalDigit(c: char) {
    '0' <= c <= '9'
  }

  /** A string made only of decimal digits. */
  predicate AllDigits(d: string) {
    forall i :: 0 <= i < |d| ==> IsDecimalDigit(d[i])
  }

  /** TrimString(s, start): `s` without its leading white space. */
  function TrimStart(s: string): string {
    if s != [] && IsStrWhiteSpace(s[0]) then TrimStart(s[1..]) else s
  }

  /** TrimStart keeps a suffix of `s` and removes the longest all-white-space
      prefix: every removed character is white space and the rest does not
      start with white space. */
  lemma {:induction false} TrimStartRemovesWhiteSpace(s: string)
    ensures |TrimStart(s)| <= |s| && TrimStart(s) == s[|s| - |TrimStart(s)|..]
    ensures forall k :: 0 <= k < |s| - |TrimStart(s)| ==> IsStrWhiteSpace(s[k])
    ensures TrimStart(s) == [] || !IsStrWhiteSpace(TrimStart(s)[0])
  {
    if s != [] && IsStrWhiteSpace(s[0]) {
      TrimStartRemovesWhiteSpace(s[1..]);
      assert forall k :: 1 <= k < |s| ==> s[k] == s[1..][k - 1];
    }
  }

  /** The longest prefix of `s` made of decimal digits. */
  function DigitPrefix(s: string): (r: string)
    ensures |r| <= |s| && r == s[..|r|]
    ensures AllDigits(r)
    ensures |r| == |s| || !IsDecimalDigit(s[|r|])
  {
    if s != [] && IsDecimalDigit(s[0]) then [s[0]] + DigitPrefix(s[1..]) else []
  }

  /** The value of one decimal digit. */
  function DigitValue(c: char): (v: nat)
    requires IsDecimalDigit(c)
    ensures v < 10
  {
    c as int - '0' as int
  }

  /** The mathematical value of a digit string, most significant digit first
      (0 for the empty string). */
  function DecimalValue(d: string): nat
    requires AllDigits(d)
  {
    if d == [] then 0 else DecimalValue(d[..|d| - 1]) * 10 + DigitValue(d[|d| - 1])
  }

  /** The string after an optional leading sign. */
  function DropSign(s: string): string {
    if s != [] && (s[0] == '+' || s[0] == '-') then s[1..] else s
  }

  /** The digit run parseInt reads from `input`: after the leading white
      space and the optional sign. */
  function ScannedDigits(input: string): (r: string)
    ensures AllDigits(r)
  {
    DigitPrefix(DropSign(TrimStart(input)))
  }

  /** parseInt(input, 10) for a string input. */
  function ParseInt10(input: string): Number {
    ParseTrimmed(TrimStart(input))
  }

  /** parseInt once the leading white space is gone: the sign, then the
      digit run, or NaN when there are no digits. */
  function ParseTrimmed(s: string): Number {
    var digits := DigitPrefix(DropSign(s));
    if digits == [] then NaN
    else if s[0] == '-' then Int(-(DecimalValue(digits) as int))
    else Int(DecimalValue(digits))
  }

  /** `parseInt(input, 10) === 0`. NaN is not equal to 0. */
  predicate ParsesToZero(input: string) {
    ParseInt10(input) == Int(0)
  }

  /** `s` is spelled as white space `s[..i]`, an optional sign `s[i..j]`,
      one or more zeros `s[j..e]`, and then the end or a non-digit. */
  ghost predicate ZeroSpelling(s: string, i: int, j: int, e: int) {
    && 0 <= i <= j < e <= |s|
    && (forall k :: 0 <= k < i ==> IsStrWhiteSpace(s[k]))
    && (j == i || (j == i + 1 && (s[i] == '+' || s[i] == '-')))
    && (forall k :: j <= k < e ==> s[k] == '0')
    && (e == |s| || !IsDecimalDigit(s[e]))
  }

  /** A digit string has value 0 exactly when every digit is '0'. */
  lemma {:induction false} DecimalValueZeroIff(d: string)
    requires AllDigits(d)
    ensures DecimalValue(d) == 0 <==> forall k :: 0 <= k < |d| ==> d[k] == '0'
  {
    if d != [] {
      var init := d[..|d| - 1];
      assert AllDigits(init);
      DecimalValueZeroIff(init);
      assert forall k :: 0 <= k < |init| ==> init[k] == d[k];
      assert DecimalValue(d) == 0 <==> DecimalValue(init) == 0 && d[|d| - 1] == '0';
    }
  }

  /** Leading white space is exactly `s[..i]` when `s[i]` is not white space. */
  lemma {:induction false} TrimStartAt(s: string, i: int)
    requires 0 <= i <= |s|
    requires forall k :: 0 <= k < i ==> IsStrWhiteSpace(s[k])
    requires i == |s| || !IsStrWhiteSpace(s[i])
    ensures TrimStart(s) == s[i..]
  {
    if i > 0 {
      TrimStartAt(s[1..], i - 1);
      assert s[1..][i - 1..] == s[i..];
    }
  }

  /** The digit run is exactly `s[..n]` when `s[n]` is not a digit. */
  lemma {:induction false} DigitPrefixAt(s: string, n: int)
    requires 0 <= n <= |s|
    requires forall k :: 0 <= k < n ==> IsDecimalDigit(s[k])
    requires n == |s| || !IsDecimalDigit(s[n])
    ensures DigitPrefix(s) == s[..n]
  {
    if n > 0 {
      DigitPrefixAt(s[1..], n - 1);
      assert [s[0]] + s[1..][..n - 1] == s[..n];
    }
  }

  /** Where the white space and the sign end: parseInt scans its digits
      from `s[j..]`. */
  lemma ScanStart(s: string) returns (i: int, j: int)
    ensures 0 <= i <= j <= |s|
    ensures forall k :: 0 <= k < i ==> IsStrWhiteSpace(s[k])
    ensures j == i || (j == i + 1 && (s[i] == '+' || s[i] == '-'))
    ensures DropSign(TrimStart(s)) == s[j..]
  {
    var t := TrimStart(s);
    TrimStartRemovesWhiteSpace(s);
    i := |s| - |t|;
    j := if t != [] && (t[0] == '+' || t[0] == '-') then i + 1 else i;
    assert t != [] ==> t[0] == s[i];
    assert t[j - i..] == s[j..];
  }

  /** parseInt yields 0 exactly when its digit run is non-empty and has
      value 0. */
  lemma ZeroScan(s: string)
    ensures ParsesToZero(s) <==> ScannedDigits(s) != [] && DecimalValue(ScannedDigits(s)) == 0
  {
  }

  /** If parseInt(s, 10) === 0, then `s` is spelled as a zero. */
  lemma ZeroIsSpelledAsZero(s: string)
    requires ParsesToZero(s)
    ensures exists i, j, e :: ZeroSpelling(s, i, j, e)
  {
    ZeroScan(s);
    var z := ScannedDigits(s);
    DecimalValueZeroIff(z);
    var i, j := ScanStart(s);
    var e := j + |z|;
    assert ZeroSpelling(s, i, j, e) by {
      assert z == DigitPrefix(s[j..]);
      assert forall k :: j <= k < e ==> s[k] == z[k - j];
      assert e < |s| ==> s[e] == s[j..][|z|];
    }
  }

  /** A zero spelling ends its white space at `i`. */
  lemma SpellingTrimsTo(s: string, i: int, j: int, e: int)
    requires ZeroSpelling(s, i, j, e)
    ensures TrimStart(s) == s[i..]
  {
    TrimStartAt(s, i);
  }

  /** A zero spelling reads its zeros `s[j..e]` as the digit run. */
  lemma SpellingDigitsAre(s: string, i: int, j: int, e: int)
    requires ZeroSpelling(s, i, j, e)
    ensures DigitPrefix(s[j..]) == s[j..e]
  {
    DigitPrefixAt(s[j..], e - j);
  }

  /** A string spelled as a zero makes parseInt(s, 10) yield 0. */
  lemma SpelledZeroParsesToZero(s: string, i: int, j: int, e: int)
    requires ZeroSpelling(s, i, j, e)
    ensures ParsesToZero(s)
  {
    SpellingTrimsTo(s, i, j, e);
    assert DropSign(s[i..]) == s[j..];
    SpellingDigitsAre(s, i, j, e);
    var z := ScannedDigits(s);
    assert z == s[j..e];
    assert forall k :: 0 <= k < |z| ==> z[k] == '0';
    DecimalValueZeroIff(z);
    ZeroScan(s);
  }

  /** parseInt(s, 10) === 0 exactly when `s` is spelled as white space, an
      optional sign, one or more zeros, and then the end or a non-digit:
      "0", " -00", "+0x1f" and "0.5" parse to 0; "", "1", "abc" and "- 0" do
      not. */
  lemma ParsesToZeroIff(s: string)
    ensures ParsesToZero(s) <==> exists i, j, e :: ZeroSpelling(s, i, j, e)
  {
    if ParsesToZero(s) {
      ZeroIsSpelledAsZero(s);
    }
    if exists i, j, e :: ZeroSpelling(s, i, j, e) {
      var i, j, e :| ZeroSpelling(s, i, j, e);
      SpelledZeroParsesToZero(s, i, j, e);
    }
  }

  /** White space in front of a string is removed with the rest. */
  lemma {:induction false} TrimStartSkips(w: string, s: string)
    requires forall k :: 0 <= k < |w| ==> IsStrWhiteSpace(w[k])
    ensures TrimStart(w + s) == TrimStart(s)
  {
    if w == [] {
      assert w + s == s;
    } else {
      assert (w + s)[0] == w[0];
      assert (w + s)[1..] == w[1..] + s;
      TrimStartSkips(w[1..], s);
    }
  }

  /** Leading white space never changes what parseInt yields. */
  lemma ParseIntSkipsWhiteSpace(w: string, s: string)
    requires forall k :: 0 <= k < |w| ==> IsStrWhiteSpace(w[k])
    ensures ParseInt10(w + s) == ParseInt10(s)
  {
    TrimStartSkips(w, s);
    assert ParseInt10(w + s) == ParseTrimmed(TrimStart(s));
  }

  /** A plain run of digits parses to its value. */
  lemma ParseIntOfDigits(d: string)
    requires d != [] && AllDigits(d)
    ensures ParseInt10(d) == Int(DecimalValue(d))
  {
    assert TrimStart(d) == d;
    assert DigitPrefix(d) == d by {
      DigitPrefixAt(d, |d|);
      assert d[..|d|] == d;
    }
  }

  /** A run of digits after '-' parses to the negated value. */
  lemma ParseIntOfNegatedDigits(d: string)
    requires d != [] && AllDigits(d)
    ensures ParseInt10("-" + d) == Int(-(DecimalValue(d) as int))
  {
    var m := "-" + d;
    assert TrimStart(m) == m by { assert m[0] == '-'; }
    assert DropSign(m) == d by { assert m[1..] == d; }
    assert DigitPrefix(d) == d by {
      DigitPrefixAt(d, |d|);
      assert d[..|d|] == d;
    }
  }

  /** "0" and "-0" both parse to 0. */
  lemma ZeroExamples()
    ensures ParsesToZero("0") && ParsesToZero("-0")
  {
    SpelledZeroParsesToZero("0", 0, 0, 1);
    SpelledZeroParsesToZero("-0", 0, 1, 2);
  }

  /** "1" parses to 1. */
  lemma OneExample()
    ensures ParseInt10("1") == Int(1)
  {
    ParseIntOfDigits("1");
  }

  /** Strings without digits give NaN, which is not 0. */
  lemma NaNExamples()
    ensures ParseInt10("abc") == NaN && ParseInt10("") == NaN
  {
    assert TrimStart("abc") == "abc";
  }
}

/**
 * The restock quantity text field: the sanitiser run on every keystroke,
 * and the `trim` / `parseInt(…, 10)` pair the restock handler applies to
 * what the field holds.
 */
module QuantityInput {
  import opened Results

  /** The default `max` of the sanitiser: the largest quantity the field accepts. */
  const MaxQuantity: nat := 1000000000

  /** `String(max)`: what an over-large entry is replaced by. */
  const MaxQuantityText: string := "1000000000"

  predicate IsDigit(c: char) {
    '0' <= c <= '9'
  }

  predicate AllDigits(s: string) {
    forall i :: 0 <= i < |s| ==> IsDigit(s[i])
  }

  predicate AllZeros(s: string) {
    forall i :: 0 <= i < |s| ==> s[i] == '0'
  }

  /** The text with every character other than 0-9 removed (`replace(/[^0-9]/g, "")`). */
  function Digits(text: string): (d: string)
    ensures AllDigits(d)
    ensures forall c :: c in d <==> c in text && IsDigit(c)
    ensures |d| <= |text|
  {
    if text == [] then []
    else if IsDigit(text[0]) then [text[0]] + Digits(text[1..])
    else Digits(text[1..])
  }

  /** The value of one decimal digit (0 for any other character). */
  function DigitValue(c: char): (v: nat)
    ensures v <= 9
  {
    if IsDigit(c) then c as int - '0' as int else 0
  }

  /** The decimal value of a digit string, read left to right. */
  function Value(d: string): nat {
    if d == [] then 0
    else Value(d[..|d| - 1]) * 10 + DigitValue(d[|d| - 1])
  }

  /** The texts the sanitiser produces: digits only, and blank or of value at most MaxQuantity. */
  predicate IsSanitized(s: string) {
    AllDigits(s) && (s == [] || Value(s) <= MaxQuantity)
  }

  /**
   * `sanitizeIntegerInput(text)`: keep only the digits; nothing left gives "";
   * a value above MaxQuantity is replaced by MaxQuantityText. On a non-empty
   * digit string `parseInt` never yields NaN, so its guard is always true here.
   */
  function Sanitize(text: string): (r: string)
    ensures IsSanitized(r)
    ensures r == [] ==> Digits(text) == []
    ensures Digits(text) != [] && Value(Digits(text)) <= MaxQuantity ==> r == Digits(text)
    ensures Digits(text) != [] ==> Value(r) == (if Value(Digits(text)) > MaxQuantity then MaxQuantity else Value(Digits(text)))
  {
    var digits := Digits(text);
    if digits == [] then []
    else if Value(digits) > MaxQuantity then MaxQuantityTextValue(); MaxQuantityText
    else digits
  }

  // ---------------------------------------------------------------------------
  // trim and parseInt

  /** The characters JavaScript's `trim` removes, as far as this model goes. */
  predicate IsSpace(c: char) {
    c == ' ' || c == '\t' || c == '\n' || c == '\r' || c == '\U{B}' || c == '\U{C}'
    || c == '\U{A0}' || c == '\U{FEFF}' || c == '\U{2028}' || c == '\U{2029}'
  }

  /** `s` without its leading white space. */
  function TrimStart(s: string): (r: string)
    ensures r == [] || !IsSpace(r[0])
    ensures |r| <= |s| && r == s[|s| - |r|..]
    ensures forall i :: 0 <= i < |s| - |r| ==> IsSpace(s[i])
  {
    if s != [] && IsSpace(s[0]) then TrimStart(s[1..]) else s
  }

  /** `s` without its trailing white space. */
  function TrimEnd(s: string): (r: string)
    ensures r == [] || !IsSpace(r[|r| - 1])
    ensures |r| <= |s| && r == s[..|r|]
    ensures forall i :: |r| <= i < |s| ==> IsSpace(s[i])
  {
    if s != [] && IsSpace(s[|s| - 1]) then TrimEnd(s[..|s| - 1]) else s
  }

  /** `s` is `r` with only white space before it (k characters) and after it. */
  predicate SpaceAround(s: string, r: string, k: int) {
    && 0 <= k && k + |r| <= |s|
    && s[k..k + |r|] == r
    && (forall i :: 0 <= i < k ==> IsSpace(s[i]))
    && (forall i :: k + |r| <= i < |s| ==> IsSpace(s[i]))
  }

  /** `String.prototype.trim`. */
  function Trim(s: string): (r: string)
    ensures r == [] || (!IsSpace(r[0]) && !IsSpace(r[|r| - 1]))
  {
    TrimEnd(TrimStart(s))
  }

  /** `trim` removes white space from both ends and nothing else. */
  lemma TrimOnlyOuterSpace(s: string)
    ensures exists k :: SpaceAround(s, Trim(s), k)
  {
    var t := TrimStart(s);
    var r := TrimEnd(t);
    assert s[|s| - |t|..][..|r|] == s[|s| - |t|..|s| - |t| + |r|];
    assert SpaceAround(s, r, |s| - |t|);
    assert Trim(s) == r;
  }

  /** The longest prefix of `s` made of digits. */
  function LeadingDigits(s: string): (d: string)
    ensures AllDigits(d)
    ensures d <= s
    ensures d == s || !IsDigit(s[|d|])
  {
    if s != [] && IsDigit(s[0]) then [s[0]] + LeadingDigits(s[1..]) else []
  }

  /**
   * `parseInt(s, 10)`: leading white space, then an optional sign, then the
   * longest run of digits; None (NaN) when there are no such digits.
   */
  function ParseInt(s: string): (r: Option<int>)
    ensures r.None? <==> UnsignedPart(TrimStart(s)) == [] || !IsDigit(UnsignedPart(TrimStart(s))[0])
    ensures r.Some? ==> Abs(r.value) == Value(LeadingDigits(UnsignedPart(TrimStart(s))))
    ensures r.Some? ==> (r.value < 0 ==> TrimStart(s)[0] == '-')
    ensures r.Some? && TrimStart(s)[0] == '-' ==> r.value <= 0
  {
    var t := TrimStart(s);
    var d := LeadingDigits(UnsignedPart(t));
    if d == [] then None
    else
      var v: int := Value(d);
      if t[0] == '-' then Some(-v) else Some(v)
  }

  function Abs(x: int): nat {
    if x < 0 then -x else x
  }

  /** The text after a leading `+` or `-`, if there is one. */
  function UnsignedPart(t: string): (u: string)
    ensures u == t || (t != [] && u == t[1..] && (t[0] == '-' || t[0] == '+'))
    ensures t != [] && (t[0] == '-' || t[0] == '+') ==> u == t[1..]
  {
    if t != [] && (t[0] == '-' || t[0] == '+') then t[1..] else t
  }

  // ---------------------------------------------------------------------------
  // Lemmas

  /** A string of digits loses nothing to the digit filter. */
  lemma {:induction false} DigitsOfDigits(s: string)
    requires AllDigits(s)
    ensures Digits(s) == s
  {
    if s != [] {
      DigitsOfDigits(s[1..]);
    }
  }

  /** The digit filter is idempotent. */
  lemma DigitsIdempotent(text: string)
    ensures Digits(Digits(text)) == Digits(text)
  {
    DigitsOfDigits(Digits(text));
  }

  /** The digits of a concatenation are the digits of each part. */
  lemma {:induction false} DigitsAppend(a: string, b: string)
    ensures Digits(a + b) == Digits(a) + Digits(b)
  {
    if a == [] {
      assert a + b == b;
    } else {
      assert (a + b)[1..] == a[1..] + b;
      DigitsAppend(a[1..], b);
    }
  }

  /** A digit string has value zero exactly when every digit is '0' (or it is empty). */
  lemma {:induction false} ValueZeroIffAllZeros(d: string)
    requires AllDigits(d)
    ensures Value(d) == 0 <==> AllZeros(d)
  {
    if d != [] {
      var p := d[..|d| - 1];
      ValueZeroIffAllZeros(p);
      if AllZeros(d) {
        assert AllZeros(p);
      }
      if Value(d) == 0 {
        assert Value(p) == 0;
        assert forall i :: 0 <= i < |d| - 1 ==> d[i] == p[i];
      }
    }
  }

  /** Appending one digit multiplies the value by ten and adds that digit. */
  lemma ValueSnoc(p: string, c: char)
    requires AllDigits(p) && IsDigit(c)
    ensures AllDigits(p + [c])
    ensures Value(p + [c]) == Value(p) * 10 + DigitValue(c)
  {
    assert (p + [c])[..|p|] == p;
  }

  /** A one followed by n zeros stands for 10^n. */
  lemma {:induction false} OneThenZerosValue(n: nat)
    ensures AllDigits("1" + seq(n, i => '0'))
    ensures Value("1" + seq(n, i => '0')) == Pow10(n)
  {
    if n > 0 {
      OneThenZerosValue(n - 1);
      assert "1" + seq(n, i => '0') == ("1" + seq(n - 1, i => '0')) + ['0'];
      ValueSnoc("1" + seq(n - 1, i => '0'), '0');
    }
  }

  /** The clamp text stands for exactly MaxQuantity. */
  lemma MaxQuantityTextValue()
    ensures AllDigits(MaxQuantityText)
    ensures Value(MaxQuantityText) == MaxQuantity
  {
    OneThenZerosValue(9);
    assert MaxQuantityText == "1" + seq(9, i => '0');
  }

  /**
   * What the sanitiser returns: "" exactly when the text has no digit;
   * otherwise the text's digits in order when their value is at most
   * MaxQuantity, and MaxQuantityText when it is larger.
   */
  lemma SanitizeCases(text: string)
    ensures Sanitize(text) == [] <==> Digits(text) == []
    ensures Digits(text) != [] && Value(Digits(text)) <= MaxQuantity ==> Sanitize(text) == Digits(text)
    ensures Digits(text) != [] && Value(Digits(text)) > MaxQuantity ==> Sanitize(text) == MaxQuantityText
  {
  }

  /** Sanitising twice gives the same text as sanitising once. */
  lemma SanitizeIdempotent(text: string)
    ensures Sanitize(Sanitize(text)) == Sanitize(text)
  {
    var r := Sanitize(text);
    DigitsOfDigits(r);
    if r == MaxQuantityText {
      MaxQuantityTextValue();
    }
  }

  /** The texts the sanitiser leaves as they are: digit strings of value at most MaxQuantity. */
  lemma SanitizeFixedPoints(s: string)
    ensures Sanitize(s) == s <==> IsSanitized(s)
  {
    if AllDigits(s) {
      DigitsOfDigits(s);
    }
  }

  /** `parseInt` of a non-empty digit string is its decimal value. */
  lemma {:induction false} ParseIntOfDigits(s: string)
    requires AllDigits(s) && s != []
    ensures Trim(s) == s
    ensures ParseInt(s) == Some(Value(s))
  {
    assert IsDigit(s[0]) && IsDigit(s[|s| - 1]);
    assert TrimStart(s) == s;
    assert TrimEnd(s) == s;
    assert UnsignedPart(s) == s;
    LeadingDigitsOfDigits(s);
  }

  /** `parseInt` of a minus sign followed by digits is the negated value. */
  lemma ParseIntOfNegative(s: string)
    requires |s| >= 2 && s[0] == '-' && AllDigits(s[1..])
    ensures Trim(s) == s
    ensures ParseInt(s).Some? && ParseInt(s).value == -(Value(s[1..]) as int)
  {
    assert IsDigit(s[1..][|s| - 2]);
    assert !IsSpace(s[|s| - 1]);
    assert !IsSpace(s[0]);
    assert TrimStart(s) == s;
    assert UnsignedPart(s) == s[1..];
    LeadingDigitsOfDigits(s[1..]);
  }

  lemma {:induction false} LeadingDigitsOfDigits(s: string)
    requires AllDigits(s)
    ensures LeadingDigits(s) == s
  {
    if s != [] {
      LeadingDigitsOfDigits(s[1..]);
    }
  }

  /** Typing "-5" leaves "5" in the field: the minus sign never reaches the handler. */
  lemma SanitizeDropsSign()
    ensures Sanitize("-5") == "5"
  {
    assert Digits("-5") == Digits("5");
    assert Digits("5") == "5";
  }

  /**
   * Every digit entry of eleven or more digits without a leading zero, such
   * as "99999999999", is above the maximum and is replaced by "1000000000".
   */
  lemma SanitizeClampsLongEntries(text: string)
    requires AllDigits(text) && |text| >= 11 && text[0] != '0'
    ensures Sanitize(text) == MaxQuantityText
  {
    DigitsOfDigits(text);
    ValueAtLeastLeading(text);
    Pow10AtLeast(|text| - 1);
  }

  /** From ten digits on, a power of ten exceeds the maximum. */
  lemma {:induction false} Pow10AtLeast(n: nat)
    requires n >= 10
    ensures Pow10(n) > MaxQuantity
  {
    if n > 10 {
      Pow10AtLeast(n - 1);
    }
  }


  /** A digit string of length n that starts with a non-zero digit is at least 10^(n-1). */
  lemma {:induction false} ValueAtLeastLeading(d: string)
    requires AllDigits(d) && d != [] && d[0] != '0'
    ensures Value(d) >= Pow10(|d| - 1)
  {
    if |d| > 1 {
      var p := d[..|d| - 1];
      assert p[0] == d[0];
      ValueAtLeastLeading(p);
    }
  }

  function Pow10(n: nat): (p: nat)
    ensures p >= 1
  {
    if n == 0 then 1 else 10 * Pow10(n - 1)
  }
}

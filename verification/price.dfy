/** Price texts as the page scripts read them:
    `parseInt(text.replace(/[^0-9]/g, ''))`. Only the ASCII digits are kept, in
    order; a text without any digit parses to NaN. */
module PriceText {
  import opened Wrappers

  /** A JavaScript number as returned by `parseInt` on a digit-only string */
  datatype JsNumber = Finite(value: nat) | NaN

  /** Python truthiness of an optional price: `None` and `0` are false, every
      other number (NaN included) is true */
  predicate Truthy(p: Option<JsNumber>) {
    p.Some? && (p.value.NaN? || p.value.value != 0)
  }

  predicate IsDigit(c: char) {
    '0' <= c <= '9'
  }

  predicate AllDigits(s: string) {
    forall k :: 0 <= k < |s| ==> IsDigit(s[k])
  }

  predicate NoDigits(s: string) {
    forall k :: 0 <= k < |s| ==> !IsDigit(s[k])
  }

  /** `text.replace(/[^0-9]/g, '')` */
  function DigitsOnly(text: string): (r: string)
    ensures AllDigits(r)
    ensures |r| == 0 <==> NoDigits(text)
  {
    if |text| == 0 then ""
    else if IsDigit(text[0]) then [text[0]] + DigitsOnly(text[1..])
    else DigitsOnly(text[1..])
  }

  function DigitValue(c: char): (d: nat)
    requires IsDigit(c)
    ensures d < 10
  {
    c as int - '0' as int
  }

  /** The number a string of decimal digits denotes (leading zeros allowed) */
  function DecimalValue(digits: string): nat
    requires AllDigits(digits)
  {
    if |digits| == 0 then 0
    else DecimalValue(digits[..|digits| - 1]) * 10 + DigitValue(digits[|digits| - 1])
  }

  /** `parseInt` applied to the digits of `text` */
  function ParsePrice(text: string): (r: JsNumber)
    ensures r.NaN? <==> NoDigits(text)
  {
    var digits := DigitsOnly(text);
    if |digits| == 0 then NaN else Finite(DecimalValue(digits))
  }

  /** The decimal rendering of a natural number, without leading zeros */
  function Decimal(n: nat): (s: string)
    ensures |s| > 0 && AllDigits(s)
  {
    if n < 10 then ['0' + n as char]
    else Decimal(n / 10) + ['0' + (n % 10) as char]
  }

  /** Reading a rendered number back yields the number */
  lemma {:induction false} DecimalRoundTrip(n: nat)
    ensures DecimalValue(Decimal(n)) == n
  {
    var s := Decimal(n);
    if n >= 10 {
      assert s[..|s| - 1] == Decimal(n / 10);
      DecimalRoundTrip(n / 10);
    }
  }

  /** Digit extraction distributes over concatenation */
  lemma {:induction false} DigitsOnlyConcat(a: string, b: string)
    ensures DigitsOnly(a + b) == DigitsOnly(a) + DigitsOnly(b)
  {
    if |a| > 0 {
      assert (a + b)[0] == a[0];
      assert (a + b)[1..] == a[1..] + b;
      DigitsOnlyConcat(a[1..], b);
    } else {
      assert a + b == b;
    }
  }

  /** A digit-only text is kept whole */
  lemma {:induction false} DigitsOnlyOfAllDigits(s: string)
    requires AllDigits(s)
    ensures DigitsOnly(s) == s
  {
    if |s| > 0 {
      DigitsOnlyOfAllDigits(s[1..]);
    }
  }

  /** A digit-free text is removed whole */
  lemma DigitsOnlyOfNoDigits(s: string)
    requires NoDigits(s)
    ensures DigitsOnly(s) == ""
  {
  }

  /** Inserting a non-digit character anywhere in a price text, such as a
      thousands separator or currency sign, leaves the parsed price unchanged. */
  lemma ParsePriceIgnoresNonDigit(a: string, c: char, b: string)
    requires !IsDigit(c)
    ensures ParsePrice(a + [c] + b) == ParsePrice(a + b)
  {
    DigitsOnlyConcat(a + [c], b);
    DigitsOnlyConcat(a, [c]);
    DigitsOnlyConcat(a, b);
    assert [c][1..] == "";
    assert DigitsOnly([c]) == "";
    assert DigitsOnly(a + [c] + b) == DigitsOnly(a + b);
  }

  /** A number rendered in decimal and surrounded by digit-free decoration
      (currency signs, labels) parses back to itself. */
  lemma ParsePriceOfDecorated(pre: string, n: nat, post: string)
    requires NoDigits(pre) && NoDigits(post)
    ensures ParsePrice(pre + Decimal(n) + post) == Finite(n)
  {
    var d := Decimal(n);
    DigitsOnlyOfNoDigits(pre);
    DigitsOnlyOfNoDigits(post);
    DigitsOnlyOfAllDigits(d);
    DigitsOnlyConcat(pre, d);
    DigitsOnlyConcat(pre + d, post);
    assert DigitsOnly(pre + d + post) == d;
    DecimalRoundTrip(n);
  }

  /** The rendering of 1299 */
  lemma Decimal1299()
    ensures Decimal(1299) == "1299"
  {
    assert Decimal(1) == "1";
    assert Decimal(12) == "12";
    assert Decimal(129) == "129";
  }

  /** The worked example: "$1,299" is the price 1299 */
  lemma ParsePriceExample()
    ensures ParsePrice("$1,299") == Finite(1299)
  {
    ParsePriceIgnoresNonDigit("$1", ',', "299");
    assert "$1" + [','] + "299" == "$1,299";
    Decimal1299();
    assert "$1" + "299" == "$" + Decimal(1299) + "";
    ParsePriceOfDecorated("$", 1299, "");
  }
}

/** Monetary amounts, held as whole cents, and how JavaScript prints them. */
module Money {
  import opened Wrappers
  import opened Text

  /** An amount in cents: `reserveAmount`, `bidAmount` and the listing charges. */
  type Cents = int

  function Digit(d: nat): char
    requires d < 10
  {
    ('0' as int + d) as char
  }

  function DigitValue(c: char): nat
    requires IsDigit(c)
  {
    c as int - '0' as int
  }

  /** The cents after the decimal point, with trailing zeros dropped: `""`, `.5` or `.25`. */
  function CentsText(cents: nat): string
    requires cents < 100
  {
    if cents == 0 then ""
    else if cents % 10 == 0 then "." + [Digit(cents / 10)]
    else "." + [Digit(cents / 10), Digit(cents % 10)]
  }

  /**
   * A non-negative amount in dollars: the whole dollars, then the cents
   * without trailing zeros (`100`, `100.5`, `100.25`).
   */
  function UnsignedText(a: nat): (r: string)
    ensures |r| > 0 && IsDigit(r[0])
    ensures ('.' in r <==> a % 100 != 0) && ('.' in r ==> r[|r| - 1] != '0')
    ensures ParseUnsigned(r) == Some(a)
  {
    var d := NatToString(a / 100);
    var f := CentsText(a % 100);
    UnsignedParses(a / 100, a % 100);
    CentsTextParses(a % 100);
    assert '.' !in d;
    assert '.' in f <==> a % 100 != 0 by {
      if f != "" {
        assert f[0] == '.';
      }
    }
    assert (d + f)[0] == d[0];
    d + f
  }

  /**
   * `${amount}` for the dollar amount `c / 100`: a `-` for a negative amount,
   * then its magnitude. Reading the text back as dollars gives the amount again.
   */
  function MoneyText(c: Cents): (r: string)
    ensures |r| > 0 && (r[0] == '-' <==> c < 0)
    ensures var a := if c < 0 then -c else c;
      ('.' in r <==> a % 100 != 0) && ('.' in r ==> r[|r| - 1] != '0')
    ensures ParseMoney(r) == Some(c)
  {
    var a := if c < 0 then -c else c;
    var t := UnsignedText(a);
    SignParses(t, a);
    if c < 0 then "-" + t else t
  }

  /** The position of the first `.` in `s`, or `|s|` when there is none. */
  function PointAt(s: string): (p: nat)
    ensures p <= |s|
    ensures forall k :: 0 <= k < p ==> s[k] != '.'
    ensures p < |s| ==> s[p] == '.'
  {
    if |s| == 0 || s[0] == '.' then 0 else 1 + PointAt(s[1..])
  }

  /** The cents a fractional part denotes: nothing, `.d` or `.dd`. */
  function ParseCents(s: string): Option<nat> {
    if s == "" then Some(0)
    else if |s| == 2 && s[0] == '.' && IsDigit(s[1]) then Some(10 * DigitValue(s[1]))
    else if |s| == 3 && s[0] == '.' && IsDigit(s[1]) && IsDigit(s[2]) then
      Some(10 * DigitValue(s[1]) + DigitValue(s[2]))
    else None
  }

  /** The amount in cents a text of whole dollars and at most two decimals denotes. */
  function ParseUnsigned(t: string): Option<nat> {
    var p := PointAt(t);
    if p == 0 || !AllDigits(t[..p]) then None
    else match ParseCents(t[p..])
      case None => None
      case Some(cents) => Some(100 * DigitsValue(t[..p]) + cents)
  }

  /** The amount in cents a dollar text denotes: an optional `-`, then an unsigned amount. */
  function ParseMoney(s: string): Option<Cents> {
    if |s| > 0 && s[0] == '-' then
      match ParseUnsigned(s[1..])
      case None => None
      case Some(v) => Some(0 - v as Cents)
    else
      match ParseUnsigned(s)
      case None => None
      case Some(v) => Some(v)
  }

  /** The cents text reads back as those cents, and has a point exactly when there are any. */
  lemma CentsTextParses(cents: nat)
    requires cents < 100
    ensures var f := CentsText(cents);
      && ParseCents(f) == Some(cents)
      && (f == "" <==> cents == 0)
      && (f != "" ==> f[0] == '.' && f[|f| - 1] != '0' && '.' !in f[1..])
  {
  }

  /** In digits followed by a fraction, the first point is where the digits end. */
  lemma PointAfterDigits(d: string, f: string)
    requires AllDigits(d)
    requires f == "" || f[0] == '.'
    ensures PointAt(d + f) == |d|
  {
    forall k | 0 <= k < |d| ensures (d + f)[k] != '.' {
      assert (d + f)[k] == d[k];
    }
    if f != "" {
      assert (d + f)[|d|] == '.';
    }
  }

  /** Whole dollars followed by the cents text read back as the amount in cents. */
  lemma UnsignedParses(dollars: nat, cents: nat)
    requires cents < 100
    ensures ParseUnsigned(NatToString(dollars) + CentsText(cents)) == Some(100 * dollars + cents)
  {
    var d := NatToString(dollars);
    var f := CentsText(cents);
    var t := d + f;
    CentsTextParses(cents);
    PointAfterDigits(d, f);
    assert t[..|d|] == d && t[|d|..] == f;
    NatToStringValue(dollars);
  }

  /**
   * An unsigned amount starting with a digit reads as itself, and after a
   * `-` as its negation.
   */
  lemma SignParses(t: string, v: nat)
    requires |t| > 0 && IsDigit(t[0])
    requires ParseUnsigned(t) == Some(v)
    ensures ParseMoney(t) == Some(v)
    ensures ParseMoney("-" + t) == Some(0 - v as Cents)
  {
    assert ("-" + t)[1..] == t;
  }

  /** The dollar value of an amount in cents, as a frontend `Number` holds it. */
  function Dollars(c: Cents): real {
    c as real / 100.0
  }
}

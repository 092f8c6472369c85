/** Conversions of the text the user types into the values the program stores.

    Two conversions happen in the tracker: `float(...)` turns a typed amount into
    the REAL stored in the `amount` column (expense_tracker.py:44 and :115), and
    the typed expense id, bound as a parameter of `WHERE id = ?`, is compared with
    the INTEGER `id` column (expense_tracker.py:96 and :134). */
module Parse {

  datatype Option<+T> = None | Some(value: T)

  predicate IsDigit(ch: char) {
    '0' <= ch <= '9'
  }

  predicate AllDigits(s: string) {
    forall i :: 0 <= i < |s| ==> IsDigit(s[i])
  }

  /** The characters `float` ignores at either end of its argument: the ASCII
      tab, line feed, vertical tab, form feed, carriage return and space, and
      the non-ASCII characters for which `str.isspace` holds. */
  predicate IsSpace(ch: char) {
    var n := ch as int;
    (9 <= n <= 13) || n == 32 || n == 0x85 || n == 0xA0 || n == 0x1680
    || (0x2000 <= n <= 0x200A) || n == 0x2028 || n == 0x2029 || n == 0x202F
    || n == 0x205F || n == 0x3000
  }

  function Pow10(k: nat): (r: nat)
    ensures r >= 1
  {
    if k == 0 then 1 else 10 * Pow10(k - 1)
  }

  /** The value of a run of decimal digits, most significant digit first. */
  function DigitsValue(s: string): (r: nat)
    requires AllDigits(s)
    ensures r < Pow10(|s|)
  {
    if s == [] then 0
    else DigitsValue(s[..|s| - 1]) * 10 + (s[|s| - 1] as int - '0' as int)
  }

  function DigitChar(d: nat): (ch: char)
    requires d < 10
    ensures IsDigit(ch) && ch as int - '0' as int == d
  {
    ('0' as int + d) as char
  }

  /** The decimal text of a natural number, without leading zeros. */
  function NatText(n: nat): (s: string)
    ensures |s| >= 1 && AllDigits(s) && DigitsValue(s) == n
  {
    if n < 10 then [DigitChar(n)]
    else
      var s := NatText(n / 10) + [DigitChar(n % 10)];
      assert s[..|s| - 1] == NatText(n / 10);
      s
  }

  /** The decimal text of an integer, as the listing shows an id. */
  function IntText(n: int): string {
    if n < 0 then "-" + NatText(-n) else NatText(n)
  }

  function ParseNatural(s: string): Option<nat> {
    if |s| > 0 && AllDigits(s) then Some(DigitsValue(s)) else None
  }

  /** An integer literal: an optional sign followed by one or more decimal
      digits. Any other text matches no integer id. */
  function ParseInteger(s: string): (r: Option<int>)
  {
    if |s| > 0 && (s[0] == '-' || s[0] == '+') then
      match ParseNatural(s[1..])
      case None => None
      case Some(n) =>
        var v: int := n;
        Some(if s[0] == '-' then -v else v)
    else
      match ParseNatural(s)
      case None => None
      case Some(n) => Some(n)
  }

  /** Typing back the id the listing shows selects that id. */
  lemma IntTextRoundTrip(n: int)
    ensures ParseInteger(IntText(n)) == Some(n)
  {
  }

  /** Leading white space removed. */
  function TrimStart(s: string): (r: string)
    ensures |r| <= |s|
    ensures r == [] || !IsSpace(r[0])
  {
    if |s| > 0 && IsSpace(s[0]) then TrimStart(s[1..]) else s
  }

  /** TrimStart removes a prefix of white space. */
  lemma {:induction false} TrimStartRemovesSpace(s: string)
    ensures TrimStart(s) == s[|s| - |TrimStart(s)|..]
    ensures forall i :: 0 <= i < |s| - |TrimStart(s)| ==> IsSpace(s[i])
  {
    if |s| > 0 && IsSpace(s[0]) {
      TrimStartRemovesSpace(s[1..]);
      assert s[1..][|s| - 1 - |TrimStart(s)|..] == s[|s| - |TrimStart(s)|..];
      assert forall i :: 1 <= i < |s| ==> s[i] == s[1..][i - 1];
    }
  }

  /** Trailing white space removed. */
  function TrimEnd(s: string): (r: string)
    ensures |r| <= |s|
    ensures r == [] || !IsSpace(r[|r| - 1])
  {
    if |s| > 0 && IsSpace(s[|s| - 1]) then TrimEnd(s[..|s| - 1]) else s
  }

  /** TrimEnd removes a suffix of white space. */
  lemma {:induction false} TrimEndRemovesSpace(s: string)
    ensures TrimEnd(s) == s[..|TrimEnd(s)|]
    ensures forall i :: |TrimEnd(s)| <= i < |s| ==> IsSpace(s[i])
  {
    if |s| > 0 && IsSpace(s[|s| - 1]) {
      TrimEndRemovesSpace(s[..|s| - 1]);
    }
  }

  function Trim(s: string): string {
    TrimEnd(TrimStart(s))
  }

  /** Index of the first '.', or |s| when there is none. */
  function DotIndex(s: string): (k: nat)
    ensures k <= |s|
    ensures k < |s| ==> s[k] == '.'
  {
    if s == [] || s[0] == '.' then 0 else 1 + DotIndex(s[1..])
  }

  /** No '.' comes before the one DotIndex finds. */
  lemma {:induction false} DotIndexIsFirst(s: string)
    ensures forall i :: 0 <= i < DotIndex(s) ==> s[i] != '.'
  {
    if s != [] && s[0] != '.' {
      DotIndexIsFirst(s[1..]);
      assert forall i :: 1 <= i < |s| ==> s[i] == s[1..][i - 1];
    }
  }

  /** An unsigned decimal: digits, optionally followed by '.' and more digits,
      with at least one digit on one side of the point ("5", "5.", ".5", "5.25"). */
  function ParseDecimal(s: string): (r: Option<real>)
    ensures r.Some? ==> r.value >= 0.0
    ensures r.Some? ==> exists i :: 0 <= i < |s| && IsDigit(s[i])
  {
    var k := DotIndex(s);
    if k == |s| then
      if |s| > 0 && AllDigits(s) then Some(DigitsValue(s) as real) else None
    else
      var whole, frac := s[..k], s[k + 1..];
      if AllDigits(whole) && AllDigits(frac) && |whole| + |frac| > 0 then
        assert |whole| > 0 ==> IsDigit(s[0]);
        assert |frac| > 0 ==> IsDigit(s[k + 1]);
        Some(DigitsValue(whole) as real + DigitsValue(frac) as real / Pow10(|frac|) as real)
      else None
  }

  /** An unsigned decimal with one optional leading sign. */
  function ParseSigned(t: string): (r: Option<real>)
    ensures r.Some? ==> exists i :: 0 <= i < |t| && IsDigit(t[i])
  {
    if |t| > 0 && (t[0] == '-' || t[0] == '+') then
      match ParseDecimal(t[1..])
      case None => None
      case Some(x) =>
        assert exists i :: 0 <= i < |t| - 1 && IsDigit(t[1..][i]);
        Some(if t[0] == '-' then -x else x)
    else
      ParseDecimal(t)
  }

  /** Python's `float(text)` on the decimal forms the tracker's users type:
      surrounding white space is ignored and one optional sign is allowed.
      This conversion refuses every text without a digit; the empty answer in
      particular is a ValueError in the program too. */
  function ParseAmount(s: string): (r: Option<real>)
    ensures r.Some? ==> exists i :: 0 <= i < |s| && IsDigit(s[i])
  {
    var t := Trim(s);
    var r := ParseSigned(t);
    if r.Some? then
      DigitInTrimmed(s, t);
      r
    else r
  }

  /** A digit of the trimmed text is a digit of the text. */
  lemma DigitInTrimmed(s: string, t: string)
    requires t == Trim(s)
    requires exists i :: 0 <= i < |t| && IsDigit(t[i])
    ensures exists i :: 0 <= i < |s| && IsDigit(s[i])
  {
    var u := TrimStart(s);
    TrimStartRemovesSpace(s);
    TrimEndRemovesSpace(u);
    var i :| 0 <= i < |t| && IsDigit(t[i]);
    assert s[|s| - |u| + i] == t[i];
  }

  /** An amount in cents written the way the listing prints it, with two
      decimal places ("-12.05"). */
  function CentsText(c: int): string {
    if c < 0 then "-" + UnsignedCentsText(-c) else UnsignedCentsText(c)
  }

  function UnsignedCentsText(m: nat): (s: string)
    ensures |s| >= 4 && IsDigit(s[0]) && IsDigit(s[|s| - 1])
  {
    NatText(m / 100) + "." + [DigitChar(m % 100 / 10), DigitChar(m % 10)]
  }

  lemma UnsignedCentsValue(m: nat)
    ensures ParseDecimal(UnsignedCentsText(m)) == Some(m as real / 100.0)
  {
    var w := NatText(m / 100);
    var f := [DigitChar(m % 100 / 10), DigitChar(m % 10)];
    var u := UnsignedCentsText(m);
    assert u[|w|] == '.';
    DotIndexIsFirst(u);
    assert DotIndex(u) == |w|;
    assert u[..|w|] == w;
    assert u[|w| + 1..] == f;
    assert f[..1] == [f[0]];
    assert DigitsValue(f) == m % 100;
    assert Pow10(2) == 100;
    assert AllDigits(f) && AllDigits(w) && |u| == |w| + 3;
    assert ParseDecimal(u) == Some((m / 100) as real + (m % 100) as real / 100.0);
    assert m == 100 * (m / 100) + m % 100;
  }

  /** Text with no white space at either end is its own trimming. */
  lemma TrimUnpadded(s: string)
    requires |s| > 0 && !IsSpace(s[0]) && !IsSpace(s[|s| - 1])
    ensures Trim(s) == s
  {
  }

  lemma SignedCentsValue(c: int)
    ensures ParseSigned(CentsText(c)) == Some(c as real / 100.0)
  {
    var s := CentsText(c);
    if c < 0 {
      var u := UnsignedCentsText(-c);
      assert s[1..] == u;
      UnsignedCentsValue(-c);
    } else {
      UnsignedCentsValue(c);
    }
  }

  /** Which characters around an amount are ignored: a no-break space before
      and an ideographic space after are, the ASCII file separator U+001C is
      not. */
  lemma AmountSpacing()
    ensures ParseAmount("\U{A0}5\U{3000}") == Some(5.0)
    ensures ParseAmount("\U{1C}5") == None
    ensures ParseAmount(" 5\t") == Some(5.0)
  {
    assert Trim("\U{A0}5\U{3000}") == "5";
    assert Trim(" 5\t") == "5";
    assert Trim("\U{1C}5") == "\U{1C}5";
  }

  /** Typing back an amount as the listing prints it gives the same amount. */
  lemma CentsTextRoundTrip(c: int)
    ensures ParseAmount(CentsText(c)) == Some(c as real / 100.0)
  {
    var s := CentsText(c);
    TrimUnpadded(s);
    SignedCentsValue(c);
  }
}

/** The numbers of a sweep specification and their Python `str()` text, as
    used in the permutation keys.

    A sweep value is a Python int or a float. Floats are modelled as finite
    decimals `units / 10^places`, and written in positional notation the way
    `str()` writes them: no trailing zero decimals, and at least one decimal
    (`2.0`, `0.5`, `-1.25`). */
module NumberText {

  /** A Python int, or a float with finitely many decimals. */
  datatype Num = Int(i: int) | Float(units: int, places: nat)

  function Pow10(k: nat): (p: nat)
    ensures p >= 1
  {
    if k == 0 then 1 else 10 * Pow10(k - 1)
  }

  /** The value of a number, as a real. */
  function Value(n: Num): real {
    match n
    case Int(i) => i as real
    case Float(u, p) => u as real / Pow10(p) as real
  }

  /** `int(n)`: an int as it is, a float truncated toward zero. */
  function Truncate(n: Num): (r: int)
    ensures n.Int? ==> r == n.i
    ensures n.Float? && n.units >= 0 ==> 0 <= r * Pow10(n.places) <= n.units < (r + 1) * Pow10(n.places)
    ensures n.Float? && n.units < 0 ==> (r - 1) * Pow10(n.places) < n.units <= r * Pow10(n.places) <= 0
  {
    match n
    case Int(i) => i
    case Float(u, p) =>
      DivModBounds(Abs(u), Pow10(p));
      if u >= 0 then u / Pow10(p) else -((-u) / Pow10(p))
  }

  /** A float written with no trailing zero decimal, as `str()` prints it. */
  predicate Canonical(n: Num) {
    n.Float? ==> n.places == 0 || n.units % 10 != 0
  }

  /** The same number with trailing zero decimals removed. */
  function Normal(n: Num): (c: Num)
    ensures Canonical(c)
    ensures c.Int? <==> n.Int?
    ensures Canonical(n) ==> c == n
    decreases if n.Float? then n.places else 0
  {
    match n
    case Int(_) => n
    case Float(u, p) => if p > 0 && u % 10 == 0 then Normal(Float(u / 10, p - 1)) else n
  }

  /** Two sweep values that print the same: the same number, both ints or
      both floats. */
  predicate SameNumber(a: Num, b: Num) {
    Normal(a) == Normal(b)
  }

  /* ---------------------------------------------------------------------- */
  /* Digits                                                                   */

  predicate IsDigit(c: char) {
    '0' <= c <= '9'
  }

  predicate AllDigits(s: string) {
    forall i :: 0 <= i < |s| ==> IsDigit(s[i])
  }

  function DigitChar(d: nat): (c: char)
    requires d < 10
    ensures IsDigit(c)
  {
    ('0' as int + d) as char
  }

  function DigitOf(c: char): nat
    requires IsDigit(c)
  {
    c as int - '0' as int
  }

  /** The decimal digits of `n`, without leading zeros. */
  function NatText(n: nat): (s: string)
    ensures |s| >= 1 && AllDigits(s)
    decreases n
  {
    if n < 10 then [DigitChar(n)] else NatText(n / 10) + [DigitChar(n % 10)]
  }

  /** The `w` decimal digits of `n < 10^w`, with leading zeros. */
  function PaddedText(n: nat, w: nat): (s: string)
    requires n < Pow10(w)
    ensures |s| == w && AllDigits(s)
  {
    if w == 0 then [] else PaddedText(n / 10, w - 1) + [DigitChar(n % 10)]
  }

  /** The number a string of decimal digits denotes. */
  function DigitsValue(s: string): nat
    requires AllDigits(s)
  {
    if |s| == 0 then 0 else DigitsValue(s[..|s| - 1]) * 10 + DigitOf(s[|s| - 1])
  }

  /** Reading back the digits of `n` gives `n`. */
  lemma {:induction false} NatTextValue(n: nat)
    ensures DigitsValue(NatText(n)) == n
    decreases n
  {
    if n >= 10 {
      NatTextValue(n / 10);
      var s := NatText(n);
      assert s[..|s| - 1] == NatText(n / 10);
    }
  }

  /** Reading back the padded digits of `n` gives `n`. */
  lemma {:induction false} PaddedTextValue(n: nat, w: nat)
    requires n < Pow10(w)
    ensures DigitsValue(PaddedText(n, w)) == n
    decreases w
  {
    if w > 0 {
      PaddedTextValue(n / 10, w - 1);
      var s := PaddedText(n, w);
      assert s[..|s| - 1] == PaddedText(n / 10, w - 1);
    }
  }

  /* ---------------------------------------------------------------------- */
  /* str()                                                                    */

  function Abs(i: int): nat {
    if i < 0 then -i else i
  }

  /** `str()` of an int. */
  function IntText(i: int): string {
    if i < 0 then "-" + NatText(-i) else NatText(i)
  }

  lemma {:induction false} DivModBounds(m: nat, d: nat)
    requires d >= 1
    ensures 0 <= m / d && 0 <= m % d < d
    ensures (m / d) * d + m % d == m
  {
  }

  /** The whole part and the decimals of a float's magnitude. */
  function WholeText(u: int, p: nat): string {
    DivModBounds(Abs(u), Pow10(p));
    NatText(Abs(u) / Pow10(p))
  }

  function DecimalsText(u: int, p: nat): string {
    DivModBounds(Abs(u), Pow10(p));
    if p == 0 then "0" else PaddedText(Abs(u) % Pow10(p), p)
  }

  /** `str()` of a canonical float: sign, whole part, point, decimals. */
  function FloatText(u: int, p: nat): string {
    (if u < 0 then "-" else "") + WholeText(u, p) + "." + DecimalsText(u, p)
  }

  /** `str(n)` for a sweep value. */
  function Str(n: Num): string {
    match Normal(n)
    case Int(i) => IntText(i)
    case Float(u, p) => FloatText(u, p)
  }

  /** `str(b)` for a bool. */
  function BoolText(b: bool): string {
    if b then "True" else "False"
  }

  /** Python's text of a few int sweep values. */
  lemma {:induction false} StrIntExamples()
    ensures Str(Int(1)) == "1"
    ensures Str(Int(-3)) == "-3"
  {
    assert NatText(1) == "1";
    assert NatText(3) == "3";
  }

  /** Python's text of a few float sweep values: a float always shows its
      point, and a whole float shows one zero decimal. */
  lemma {:induction false} StrFloatExamples()
    ensures Str(Float(1, 1)) == "0.1"
    ensures Str(Float(20, 1)) == "2.0"
    ensures Str(Float(-125, 2)) == "-1.25"
  {
    assert Pow10(1) == 10 && Pow10(2) == 100;
    assert Normal(Float(1, 1)) == Float(1, 1);
    assert WholeText(1, 1) == NatText(0) == "0";
    assert DecimalsText(1, 1) == PaddedText(1, 1) == "1";
    assert Normal(Float(20, 1)) == Float(2, 0);
    assert WholeText(2, 0) == NatText(2) == "2";
    assert Normal(Float(-125, 2)) == Float(-125, 2);
    assert WholeText(-125, 2) == NatText(1) == "1";
    assert DecimalsText(-125, 2) == PaddedText(25, 2) == "25";
  }

  /* ---------------------------------------------------------------------- */
  /* Reading the text back                                                    */

  /** The position of the first `c` in `s`. */
  function FindChar(s: string, c: char): (r: int)
    ensures -1 <= r < |s|
    ensures r >= 0 ==> s[r] == c && forall j :: 0 <= j < r ==> s[j] != c
    ensures r == -1 ==> forall j :: 0 <= j < |s| ==> s[j] != c
  {
    if |s| == 0 then -1
    else if s[0] == c then 0
    else
      var r := FindChar(s[1..], c);
      if r == -1 then -1 else r + 1
  }

  /** Reads an unsigned number back from its text: digits, or digits, a
      point and decimals, where a lone "0" after the point means none. */
  function ParseUnsigned(body: string): Num {
    var dot := FindChar(body, '.');
    if dot == -1 then
      Int(if AllDigits(body) then DigitsValue(body) else 0)
    else
      var whole := body[..dot];
      var decimals := body[dot + 1..];
      var p := DecimalPlaces(decimals);
      var w := if AllDigits(whole) then DigitsValue(whole) else 0;
      var f := if p > 0 && AllDigits(decimals) then DigitsValue(decimals) else 0;
      Float(w * Pow10(p) + f, p)
  }

  function DecimalPlaces(decimals: string): nat {
    if decimals == "0" then 0 else |decimals|
  }

  function Negate(n: Num): Num {
    match n
    case Int(i) => Int(-i)
    case Float(u, p) => Float(-u, p)
  }

  /** Reads a number back from its `str()` text. */
  function Parse(s: string): Num {
    if |s| > 0 && s[0] == '-' then Negate(ParseUnsigned(s[1..])) else ParseUnsigned(s)
  }

  /** `FindChar` finds the first occurrence. */
  lemma {:induction false} FindCharFirst(s: string, c: char, k: nat)
    requires k < |s| && s[k] == c
    requires forall j :: 0 <= j < k ==> s[j] != c
    ensures FindChar(s, c) == k
  {
  }

  /** Reading digits, a point and decimals. */
  lemma {:induction false} ParseUnsignedFloat(whole: string, decimals: string)
    requires AllDigits(whole) && AllDigits(decimals)
    ensures ParseUnsigned(whole + "." + decimals)
         == Float(DigitsValue(whole) * Pow10(DecimalPlaces(decimals))
                  + (if DecimalPlaces(decimals) > 0 then DigitsValue(decimals) else 0),
                  DecimalPlaces(decimals))
  {
    var body := whole + "." + decimals;
    DigitsAreNotPunctuation(whole);
    assert forall j :: 0 <= j < |whole| ==> body[j] == whole[j];
    assert body[|whole|] == '.';
    FindCharFirst(body, '.', |whole|);
    assert body[..|whole|] == whole;
    assert body[|whole| + 1..] == decimals;
  }

  /** A digit string holds no sign, point or underscore. */
  lemma {:induction false} DigitsAreNotPunctuation(s: string)
    requires AllDigits(s)
    ensures forall j :: 0 <= j < |s| ==> s[j] != '-' && s[j] != '.' && s[j] != '_'
  {
  }

  /** Reading an int's text gives the int back. */
  lemma {:induction false} IntTextRoundTrip(i: int)
    ensures Parse(IntText(i)) == Int(i)
  {
    var s := IntText(i);
    var digits := NatText(Abs(i));
    DigitsAreNotPunctuation(digits);
    NatTextValue(Abs(i));
    if i < 0 {
      assert s[1..] == digits;
    }
  }

  lemma {:induction false} AbsModTen(u: int)
    ensures (Abs(u) % 10 == 0) == (u % 10 == 0)
  {
    if u < 0 {
      var q := u / 10;
      var r := u % 10;
      assert u == 10 * q + r;
      if r == 0 {
        assert Abs(u) == 10 * (-q);
      } else {
        assert Abs(u) == 10 * (-q - 1) + (10 - r);
      }
    }
  }

  /** The decimals of a canonical float never read "0" unless it has none. */
  lemma {:induction false} DecimalsNotZero(u: int, p: nat)
    requires p > 0 && u % 10 != 0
    ensures PaddedText(Abs(u) % Pow10(p), p) != "0"
  {
    var d := PaddedText(Abs(u) % Pow10(p), p);
    if p == 1 {
      assert Pow10(1) == 10;
      AbsModTen(u);
      var m := Abs(u) % 10;
      assert d == PaddedText(m / 10, 0) + [DigitChar(m % 10)];
      assert d[0] == DigitChar(m);
    } else {
      assert |d| != |"0"|;
    }
  }

  /** Reading a canonical float's text gives the float back. */
  /** Reading the unsigned part of a float's text gives its magnitude. */
  lemma {:induction false} FloatBodyRoundTrip(u: int, p: nat)
    requires Canonical(Float(u, p))
    ensures |WholeText(u, p)| > 0 && WholeText(u, p)[0] != '-'
    ensures ParseUnsigned(WholeText(u, p) + "." + DecimalsText(u, p)) == Float(Abs(u), p)
  {
    var mag := Abs(u);
    DivModBounds(mag, Pow10(p));
    var whole := WholeText(u, p);
    var decimals := DecimalsText(u, p);
    DigitsAreNotPunctuation(whole);
    ParseUnsignedFloat(whole, decimals);
    NatTextValue(mag / Pow10(p));
    if p > 0 {
      DecimalsNotZero(u, p);
      PaddedTextValue(mag % Pow10(p), p);
    }
    assert DecimalPlaces(decimals) == p;
  }

  /** A leading minus sign negates what follows it. */
  lemma {:induction false} ParseSign(negative: bool, body: string)
    requires |body| > 0 && body[0] != '-'
    ensures Parse((if negative then "-" else "") + body)
         == if negative then Negate(ParseUnsigned(body)) else ParseUnsigned(body)
  {
    if negative {
      assert ("-" + body)[1..] == body;
    } else {
      assert "" + body == body;
    }
  }

  lemma {:induction false} FloatTextRoundTrip(u: int, p: nat)
    requires Canonical(Float(u, p))
    ensures Parse(FloatText(u, p)) == Float(u, p)
  {
    var sign: string := if u < 0 then "-" else "";
    var body := WholeText(u, p) + "." + DecimalsText(u, p);
    assert FloatText(u, p) == sign + body;
    FloatBodyRoundTrip(u, p);
    ParseSign(u < 0, body);
  }

  /** `str()` loses nothing: reading it back gives the number in canonical
      form. */
  lemma {:induction false} StrRoundTrip(n: Num)
    ensures Parse(Str(n)) == Normal(n)
  {
    match Normal(n)
    case Int(i) => IntTextRoundTrip(i);
    case Float(u, p) => FloatTextRoundTrip(u, p);
  }

  /** Two sweep values with the same text are the same Python number. */
  lemma {:induction false} StrInjective(a: Num, b: Num)
    requires Str(a) == Str(b)
    ensures SameNumber(a, b)
  {
    StrRoundTrip(a);
    StrRoundTrip(b);
  }

  /** No character of `s` is an underscore, the separator of a key. */
  predicate NoUnderscore(s: string) {
    forall j :: 0 <= j < |s| ==> s[j] != '_'
  }

  lemma {:induction false} IntTextNoUnderscore(i: int)
    ensures NoUnderscore(IntText(i))
  {
    var digits := NatText(Abs(i));
    DigitsAreNotPunctuation(digits);
    if i < 0 {
      assert forall j :: 1 <= j < |IntText(i)| ==> IntText(i)[j] == digits[j - 1];
    }
  }

  lemma {:induction false} FloatTextNoUnderscore(u: int, p: nat)
    ensures NoUnderscore(FloatText(u, p))
  {
    var whole := WholeText(u, p);
    var decimals := DecimalsText(u, p);
    DigitsAreNotPunctuation(whole);
    DigitsAreNotPunctuation(decimals);
    var sign := if u < 0 then "-" else "";
    var s := sign + whole + "." + decimals;
    assert s == FloatText(u, p);
    forall j | 0 <= j < |s|
      ensures s[j] != '_'
    {
      if j < |sign| {
      } else if j < |sign| + |whole| {
        assert s[j] == whole[j - |sign|];
      } else if j == |sign| + |whole| {
      } else {
        assert s[j] == decimals[j - |sign| - |whole| - 1];
      }
    }
  }

  /** The text of a sweep value holds no underscore. */
  lemma {:induction false} StrHasNoUnderscore(n: Num)
    ensures NoUnderscore(Str(n))
  {
    match Normal(n)
    case Int(i) => IntTextNoUnderscore(i);
    case Float(u, p) => FloatTextNoUnderscore(u, p);
  }
}

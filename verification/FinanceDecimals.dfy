/**
 Exact decimal strings of the personal finance transfer: validation, addition, comparison,
 and the export summary's totals.
 */
module FinanceDecimals {
  import opened Wrappers

  // What a column may hold: null or undefined, something printed as text, or an unsupported type.
  datatype Cell = Null | Text(text: string) | Unsupported

  datatype Error = UnsupportedType | InvalidDecimal

  // ---------- digit strings ----------

  predicate IsDigit(c: char) { '0' <= c <= '9' }

  predicate AllDigits(s: string) { forall i :: 0 <= i < |s| ==> IsDigit(s[i]) }

  function Digit(d: int): (c: char)
    requires 0 <= d < 10
    ensures IsDigit(c)
  {
    "0123456789"[d]
  }

  function Number(s: string): nat
    requires AllDigits(s)
  {
    if |s| == 0 then 0 else 10 * Number(s[..|s| - 1]) + (s[|s| - 1] as int - '0' as int)
  }

  // BigInt's toString for a nonnegative number.
  function Print(n: nat): (s: string)
    ensures |s| > 0 && AllDigits(s)
  {
    if n < 10 then [Digit(n)] else Print(n / 10) + [Digit(n % 10)]
  }

  function Zeros(n: nat): (s: string)
    ensures |s| == n && AllDigits(s)
  {
    seq(n, _ => '0')
  }

  function PadStart(s: string, width: nat): string { if |s| >= width then s else Zeros(width - |s|) + s }

  function TrimEnd(s: string): (r: string)
    ensures |r| <= |s|
  {
    if |s| > 0 && s[|s| - 1] == '0' then TrimEnd(s[..|s| - 1]) else s
  }

  // Drops leading zeros but keeps one digit.
  function TrimStart(s: string): (r: string)
    ensures |r| <= |s|
  {
    if |s| > 1 && s[0] == '0' then TrimStart(s[1..]) else s
  }

  // ---------- decimals ----------

  function IndexOf(s: string, c: char): (k: nat)
    ensures k <= |s|
    ensures k < |s| ==> s[k] == c
    ensures forall i :: 0 <= i < k ==> s[i] != c
  {
    if |s| == 0 || s[0] == c then 0 else 1 + IndexOf(s[1..], c)
  }

  predicate Negative(text: string) { |text| > 0 && text[0] == '-' }

  function Unsigned(text: string): string { if Negative(text) then text[1..] else text }

  function Whole(text: string): string { Unsigned(text)[..IndexOf(Unsigned(text), '.')] }

  function Fraction(text: string): string {
    var u := Unsigned(text);
    var k := IndexOf(u, '.');
    if k == |u| then "" else u[k + 1..]
  }

  // An optional minus, digits, and optionally a point followed by digits.
  predicate IsDecimal(text: string) {
    var u := Unsigned(text);
    var k := IndexOf(u, '.');
    0 < k && AllDigits(u[..k]) && (k < |u| ==> k + 1 < |u| && AllDigits(u[k + 1..]))
  }

  function Decimal(cell: Cell): Result<Option<string>, Error> {
    match cell
    case Null => Success(None)
    case Unsupported => Failure(UnsupportedType)
    case Text(text) => if IsDecimal(text) then Success(Some(text)) else Failure(InvalidDecimal)
  }

  function Max(a: nat, b: nat): nat { if a < b then b else a }

  // The decimal times ten to the scale.
  function Scaled(text: string, scale: nat): int
    requires IsDecimal(text) && |Fraction(text)| <= scale
  {
    var n: int := Number(Whole(text) + (Fraction(text) + Zeros(scale - |Fraction(text)|)));
    if Negative(text) then -n else n
  }

  function Signed(negative: bool, whole: string, fraction: string): string {
    (if negative then "-" else "") + whole + (if |fraction| > 0 then "." + fraction else "")
  }

  // Prints a number of the given scale without leading or trailing zeros.
  function Render(sum: int, scale: nat): string {
    var digits := PadStart(Print(if sum < 0 then -sum else sum), scale + 1);
    PadStartLength(Print(if sum < 0 then -sum else sum), scale + 1);
    Signed(sum < 0, digits[..|digits| - scale], TrimEnd(digits[|digits| - scale..]))
  }

  function AddTexts(left: string, right: string): string
    requires IsDecimal(left) && IsDecimal(right)
  {
    var scale := Max(|Fraction(left)|, |Fraction(right)|);
    Render(Scaled(left, scale) + Scaled(right, scale), scale)
  }

  function OrZero(text: Option<string>): string { if text.None? then "0" else text.value }

  function AddDecimals(a: Cell, b: Cell): Result<string, Error> {
    var left :- Decimal(a);
    var right :- Decimal(b);
    DecimalIsDecimal(a);
    DecimalIsDecimal(b);
    Success(AddTexts(OrZero(left), OrZero(right)))
  }

  function Normalize(text: string): string {
    var whole, fraction := TrimStart(Whole(text)), TrimEnd(Fraction(text));
    var unsigned := Signed(false, whole, fraction);
    if unsigned == "0" then "0" else Signed(Negative(text), whole, fraction)
  }

  function NormalizeCell(cell: Cell): Result<Option<string>, Error> {
    var text :- Decimal(cell);
    Success(if text.None? then None else Some(Normalize(text.value)))
  }

  function SameDecimalValue(a: Cell, b: Cell): Result<bool, Error> {
    var x :- NormalizeCell(a);
    var y :- NormalizeCell(b);
    Success(x == y)
  }

  // ---------- the canonical form, and the number that a decimal stands for ----------

  predicate Canonical(text: string) {
    && IsDecimal(text)
    && (|Whole(text)| > 1 ==> Whole(text)[0] != '0')
    && (|Fraction(text)| > 0 ==> Fraction(text)[|Fraction(text)| - 1] != '0')
    && text != "-0"
  }

  function Power(n: nat): (p: nat)
    ensures p > 0
  {
    if n == 0 then 1 else 10 * Power(n - 1)
  }

  function Value(text: string): real
    requires IsDecimal(text)
  {
    Scaled(text, |Fraction(text)|) as real / Power(|Fraction(text)|) as real
  }

  lemma {:induction false} PadStartLength(s: string, width: nat)
    ensures |PadStart(s, width)| == Max(|s|, width)
  {
  }

  lemma {:induction false} ZeroIsDecimal()
    ensures IsDecimal("0") && Whole("0") == "0" && Fraction("0") == ""
  {
    assert IndexOf("0", '.') == 1;
  }

  lemma {:induction false} DecimalIsDecimal(cell: Cell)
    ensures Decimal(cell).Success? ==> IsDecimal(OrZero(Decimal(cell).value))
  {
    ZeroIsDecimal();
  }

  lemma {:induction false} IndexOfFirst(s: string, c: char, k: nat)
    requires k <= |s| && (k < |s| ==> s[k] == c) && forall i :: 0 <= i < k ==> s[i] != c
    ensures IndexOf(s, c) == k
  {
  }

  // Taking a printed decimal apart again.
  lemma {:induction false} SignedParts(negative: bool, whole: string, fraction: string)
    requires |whole| > 0 && AllDigits(whole) && AllDigits(fraction)
    ensures var text := Signed(negative, whole, fraction);
            IsDecimal(text) && Negative(text) == negative && Whole(text) == whole && Fraction(text) == fraction
  {
    var text := Signed(negative, whole, fraction);
    var u := whole + (if |fraction| > 0 then "." + fraction else "");
    assert IsDigit(whole[0]);
    assert text == (if negative then "-" + u else u);
    assert Unsigned(text) == u;
    IndexOfFirst(u, '.', |whole|);
    assert u[..|whole|] == whole;
    if |fraction| > 0 {
      assert u[|whole| + 1..] == fraction;
    }
  }

  lemma {:induction false} PartsSigned(text: string)
    requires IsDecimal(text)
    ensures text == Signed(Negative(text), Whole(text), Fraction(text))
    ensures |Whole(text)| > 0 && AllDigits(Whole(text)) && AllDigits(Fraction(text))
  {
    hide Signed;
    PartsJoined(text);
  }

  lemma {:induction false} PartsJoined(text: string)
    requires IsDecimal(text)
    ensures text == Signed(Negative(text), Whole(text), Fraction(text))
  {
    hide AllDigits, IsDigit;
    SplitAtPoint(Unsigned(text));
    var sign := if Negative(text) then "-" else "";
    var tail := if |Fraction(text)| > 0 then "." + Fraction(text) else "";
    assert text == sign + Unsigned(text);
    assert sign + (Whole(text) + tail) == (sign + Whole(text)) + tail;
  }

  lemma {:induction false} SplitAtPoint(u: string)
    ensures var k := IndexOf(u, '.');
            u == u[..k] + (if k == |u| then "" else "." + u[k + 1..])
  {
    var k := IndexOf(u, '.');
    assert k < |u| ==> u[k..] == "." + u[k + 1..];
  }

  // ---------- numbers and digit strings ----------

  lemma {:induction false} NumberAppend(s: string, t: string)
    requires AllDigits(s) && AllDigits(t)
    ensures AllDigits(s + t) && Number(s + t) == Number(s) * Power(|t|) + Number(t)
  {
    if |t| == 0 {
      assert s + t == s;
    } else {
      var front, last := t[..|t| - 1], t[|t| - 1];
      assert (s + t)[..|s + t| - 1] == s + front;
      NumberAppend(s, front);
      Distribute(Number(s), Power(|t| - 1));
    }
  }

  lemma {:induction false} Distribute(a: nat, p: nat)
    ensures 10 * (a * p) == a * (10 * p)
  {
  }

  lemma {:induction false} NumberOfZeros(n: nat)
    ensures Number(Zeros(n)) == 0
  {
    if n > 0 {
      assert Zeros(n)[..n - 1] == Zeros(n - 1);
      NumberOfZeros(n - 1);
    }
  }

  lemma {:induction false} NumberZero(s: string)
    requires AllDigits(s) && Number(s) == 0
    ensures s == Zeros(|s|)
  {
    if |s| > 0 {
      NumberZero(s[..|s| - 1]);
    }
  }

  lemma {:induction false} PrintIsNumber(n: nat)
    ensures Number(Print(n)) == n
  {
    if n >= 10 {
      PrintIsNumber(n / 10);
      assert Print(n)[..|Print(n)| - 1] == Print(n / 10);
    }
  }

  lemma {:induction false} PrintStart(n: nat)
    ensures |Print(n)| > 1 ==> Print(n)[0] != '0'
  {
    if n >= 10 {
      PrintStart(n / 10);
    }
  }

  // Printing the number of a digit string gives it back up to leading zeros.
  lemma {:induction false} PrintNumber(s: string)
    requires |s| > 0 && AllDigits(s)
    ensures |Print(Number(s))| <= |s|
    ensures s == Zeros(|s| - |Print(Number(s))|) + Print(Number(s))
  {
    hide Print, Zeros;
    var front, last := s[..|s| - 1], s[|s| - 1];
    assert s == front + [last];
    if Number(s) < 10 {
      NumberZero(front);
      PrintLast(last);
    } else {
      PrintNumber(front);
      PrintStep(Number(front), last);
      assert s == Zeros(|front| - |Print(Number(front))|) + (Print(Number(front)) + [last]);
    }
  }

  lemma {:induction false} PrintLast(last: char)
    requires IsDigit(last)
    ensures Print(last as int - '0' as int) == [last]
  {
  }

  lemma {:induction false} PrintStep(n: nat, last: char)
    requires n > 0 && IsDigit(last)
    ensures Print(10 * n + (last as int - '0' as int)) == Print(n) + [last]
  {
    var d := last as int - '0' as int;
    assert (10 * n + d) / 10 == n && (10 * n + d) % 10 == d;
  }

  lemma {:induction false} TrimEndParts(s: string)
    ensures s == TrimEnd(s) + Zeros(|s| - |TrimEnd(s)|)
    ensures |TrimEnd(s)| > 0 ==> TrimEnd(s)[|TrimEnd(s)| - 1] != '0'
  {
    if |s| > 0 && s[|s| - 1] == '0' {
      TrimEndParts(s[..|s| - 1]);
    }
  }

  lemma {:induction false} TrimEndOf(s: string, n: nat)
    requires |s| > 0 ==> s[|s| - 1] != '0'
    ensures TrimEnd(s + Zeros(n)) == s
  {
    if n == 0 {
      assert s + Zeros(0) == s;
    } else {
      assert (s + Zeros(n))[..|s| + n - 1] == s + Zeros(n - 1);
      TrimEndOf(s, n - 1);
    }
  }

  lemma {:induction false} TrimStartParts(s: string)
    ensures s == Zeros(|s| - |TrimStart(s)|) + TrimStart(s)
    ensures |TrimStart(s)| > 1 ==> TrimStart(s)[0] != '0'
    ensures |s| > 0 ==> |TrimStart(s)| > 0
  {
    if |s| > 1 && s[0] == '0' {
      TrimStartParts(s[1..]);
      assert s == ['0'] + s[1..];
    }
  }

  // ---------- Render prints the number, in canonical form ----------

  // The digits before the sign and the point go in.
  function Digits(n: nat, scale: nat): string { PadStart(Print(n), scale + 1) }

  lemma {:induction false} DigitsParts(n: nat, scale: nat)
    ensures |Digits(n, scale)| > scale && AllDigits(Digits(n, scale)) && Number(Digits(n, scale)) == n
    ensures |Digits(n, scale)| > scale + 1 ==> Digits(n, scale)[0] != '0'
  {
    PrintIsNumber(n);
    PrintStart(n);
    if |Print(n)| < scale + 1 {
      NumberOfZeros(scale + 1 - |Print(n)|);
      NumberAppend(Zeros(scale + 1 - |Print(n)|), Print(n));
    }
  }

  lemma {:induction false} TrimmedDigits(s: string)
    requires AllDigits(s)
    ensures AllDigits(TrimEnd(s))
  {
    if |s| > 0 && s[|s| - 1] == '0' {
      TrimmedDigits(s[..|s| - 1]);
    }
  }

  lemma {:induction false} RenderParts(sum: int, scale: nat)
    ensures var text := Render(sum, scale);
            var digits := Digits(if sum < 0 then -sum else sum, scale);
            && |digits| > scale
            && IsDecimal(text) && Negative(text) == (sum < 0)
            && Whole(text) == digits[..|digits| - scale]
            && Fraction(text) == TrimEnd(digits[|digits| - scale..])
  {
    hide Signed, Print, TrimEnd, PadStart, IsDecimal, Negative, Whole, Fraction;
    var n := if sum < 0 then -sum else sum;
    var digits := Digits(n, scale);
    DigitsParts(n, scale);
    TrimmedDigits(digits[|digits| - scale..]);
    SignedParts(sum < 0, digits[..|digits| - scale], TrimEnd(digits[|digits| - scale..]));
  }

  lemma {:induction false} RenderIsNumber(sum: int, scale: nat)
    ensures IsDecimal(Render(sum, scale)) && |Fraction(Render(sum, scale))| <= scale
    ensures Scaled(Render(sum, scale), scale) == sum
  {
    hide Render, Digits, Signed, Print, TrimEnd, PadStart, IsDecimal, Negative, Whole, Fraction;
    var n := if sum < 0 then -sum else sum;
    var digits, text := Digits(n, scale), Render(sum, scale);
    RenderParts(sum, scale);
    DigitsParts(n, scale);
    var fraction := digits[|digits| - scale..];
    TrimEndParts(fraction);
    assert Whole(text) + (Fraction(text) + Zeros(scale - |Fraction(text)|)) == digits;
  }

  lemma {:induction false} RenderIsCanonical(sum: int, scale: nat)
    ensures Canonical(Render(sum, scale))
  {
    hide Render, Digits, Signed, Print, TrimEnd, PadStart, IsDecimal, Negative, Whole, Fraction, Scaled;
    var n := if sum < 0 then -sum else sum;
    var digits, text := Digits(n, scale), Render(sum, scale);
    RenderParts(sum, scale);
    DigitsParts(n, scale);
    TrimEndParts(digits[|digits| - scale..]);
    RenderIsNumber(sum, scale);
    MinusZero();
    if text == "-0" {
      ScaledMinusZero(scale);
    }
  }

  lemma {:induction false} MinusZero()
    ensures IsDecimal("-0") && Whole("-0") == "0" && Fraction("-0") == "" && Negative("-0")
  {
    SignedParts(true, "0", "");
    assert Signed(true, "0", "") == "-0";
  }

  lemma {:induction false} ScaledMinusZero(scale: nat)
    ensures IsDecimal("-0") && |Fraction("-0")| <= scale && Scaled("-0", scale) == 0
  {
    hide IsDecimal, Negative, Whole, Fraction;
    MinusZero();
    NumberOfZeros(scale + 1);
    assert "0" + ("" + Zeros(scale)) == Zeros(scale + 1);
  }

  // A canonical decimal is what Render prints for it.
  lemma {:induction false} CanonicalIsRendered(text: string, scale: nat)
    requires Canonical(text) && |Fraction(text)| <= scale
    ensures text == Render(Scaled(text, scale), scale)
  {
    hide Render, Digits, Signed, Print, TrimEnd, PadStart, IsDecimal, Negative, Whole, Fraction, Number;
    PartsSigned(text);
    var whole, fraction := Whole(text), Fraction(text);
    var tail := fraction + Zeros(scale - |fraction|);
    var digits := whole + tail;
    var n := Number(digits);
    CanonicalDigits(digits, scale);
    TrimEndOf(fraction, scale - |fraction|);
    assert digits[..|digits| - scale] == whole && digits[|digits| - scale..] == tail;
    var sum := Scaled(text, scale);
    RenderParts(sum, scale);
    PartsSigned(Render(sum, scale));
    if n == 0 {
      CanonicalZero(text, digits, scale);
    }
  }

  lemma {:induction false} CanonicalDigits(digits: string, scale: nat)
    requires AllDigits(digits) && |digits| > scale && (|digits| > scale + 1 ==> digits[0] != '0')
    ensures Digits(Number(digits), scale) == digits
  {
    hide Print, Number;
    PrintNumber(digits);
    if |Print(Number(digits))| < |digits| {
      assert digits[0] == '0';
    }
  }

  lemma {:induction false} DigitPlaces(whole: string, fraction: string, n: nat)
    requires |whole| > 0
    ensures var digits := whole + (fraction + Zeros(n));
            && |digits| == |whole| + |fraction| + n
            && digits[0] == whole[0]
            && (|fraction| > 0 ==> digits[|whole| + |fraction| - 1] == fraction[|fraction| - 1])
  {
  }

  lemma {:induction false} CanonicalZero(text: string, digits: string, scale: nat)
    requires Canonical(text) && |Fraction(text)| <= scale
    requires digits == Whole(text) + (Fraction(text) + Zeros(scale - |Fraction(text)|))
    requires AllDigits(digits) && Number(digits) == 0
    ensures !Negative(text)
  {
    hide IsDecimal, Negative, Whole, Fraction, Number;
    PartsSigned(text);
    NumberZero(digits);
    DigitPlaces(Whole(text), Fraction(text), scale - |Fraction(text)|);
  }

  // ---------- values ----------

  lemma {:induction false} ScaledGrows(text: string, scale: nat)
    requires IsDecimal(text) && |Fraction(text)| <= scale
    ensures Scaled(text, scale + 1) == 10 * Scaled(text, scale)
  {
    hide IsDecimal, Negative, Whole, Fraction;
    PartsSigned(text);
    var k := scale - |Fraction(text)|;
    var digits := Whole(text) + (Fraction(text) + Zeros(k));
    var more := Whole(text) + (Fraction(text) + Zeros(k + 1));
    assert more[..|more| - 1] == digits && more[|more| - 1] == '0';
  }

  lemma {:induction false} ScaledIsValue(text: string, scale: nat)
    requires IsDecimal(text) && |Fraction(text)| <= scale
    ensures Scaled(text, scale) as real == Times(Value(text), Power(scale))
    decreases scale
  {
    hide IsDecimal, Fraction, Scaled;
    if scale > |Fraction(text)| {
      ScaledIsValue(text, scale - 1);
      ScaledGrows(text, scale - 1);
      TimesTen(Value(text), Power(scale - 1));
    } else {
      Undivided(Scaled(text, scale), Power(scale));
    }
  }

  function Times(v: real, p: nat): real { v * p as real }

  lemma {:induction false} TimesTen(v: real, p: nat)
    ensures Times(v, 10 * p) == 10.0 * Times(v, p)
  {
  }

  lemma {:induction false} Undivided(n: int, p: nat)
    requires p > 0
    ensures Times(n as real / p as real, p) == n as real
  {
  }

  lemma {:induction false} TimesSum(a: real, b: real, p: nat)
    ensures Times(a, p) + Times(b, p) == Times(a + b, p)
  {
  }

  lemma {:induction false} TimesPositive(v: real, p: nat)
    requires p > 0 && v > 0.0
    ensures Times(v, p) > 0.0
  {
  }

  lemma {:induction false} TimesApart(a: real, b: real, p: nat)
    requires p > 0 && a < b
    ensures Times(a, p) < Times(b, p)
  {
    hide Times;
    TimesPositive(b - a, p);
    TimesSum(a, b - a, p);
    assert a + (b - a) == b;
  }

  lemma {:induction false} TimesPlus(a: real, b: real, c: real, p: nat)
    requires p > 0
    ensures Times(a, p) + Times(b, p) == Times(c, p) <==> a + b == c
  {
    hide Times;
    TimesSum(a, b, p);
    if a + b < c {
      TimesApart(a + b, c, p);
    } else if c < a + b {
      TimesApart(c, a + b, p);
    }
  }

  // Two decimals stand for the same number exactly when they agree at a common scale.
  lemma {:induction false} SameValue(x: string, y: string, scale: nat)
    requires IsDecimal(x) && IsDecimal(y) && |Fraction(x)| <= scale && |Fraction(y)| <= scale
    ensures Value(x) == Value(y) <==> Scaled(x, scale) == Scaled(y, scale)
  {
    hide IsDecimal, Fraction, Scaled, Value, Times;
    ScaledIsValue(x, scale);
    ScaledIsValue(y, scale);
    TimesZero(Power(scale));
    TimesPlus(Value(x), 0.0, Value(y), Power(scale));
  }

  lemma {:induction false} TimesZero(p: nat)
    ensures Times(0.0, p) == 0.0
  {
  }

  // Canonical decimals with the same value are the same string.
  lemma {:induction false} CanonicalUnique(x: string, y: string)
    requires Canonical(x) && Canonical(y) && Value(x) == Value(y)
    ensures x == y
  {
    hide IsDecimal, Fraction, Whole, Scaled, Value, Render;
    var scale := Max(|Fraction(x)|, |Fraction(y)|);
    SameValue(x, y, scale);
    CanonicalIsRendered(x, scale);
    CanonicalIsRendered(y, scale);
  }

  // The sum is exact and canonical.
  lemma {:induction false} AddTextsIsExact(left: string, right: string)
    requires IsDecimal(left) && IsDecimal(right)
    ensures Canonical(AddTexts(left, right))
    ensures Value(AddTexts(left, right)) == Value(left) + Value(right)
  {
    hide IsDecimal, Fraction, Whole, Scaled, Value, Times, Render;
    var scale := Max(|Fraction(left)|, |Fraction(right)|);
    var sum := Scaled(left, scale) + Scaled(right, scale);
    RenderIsNumber(sum, scale);
    RenderIsCanonical(sum, scale);
    ScaledIsValue(left, scale);
    ScaledIsValue(right, scale);
    ScaledIsValue(Render(sum, scale), scale);
    TimesPlus(Value(left), Value(right), Value(Render(sum, scale)), Power(scale));
  }

  predicate IsValid(cell: Cell) { cell.Null? || (cell.Text? && IsDecimal(cell.text)) }

  // A missing amount counts as zero.
  function Amount(cell: Cell): real
    requires IsValid(cell)
  {
    if cell.Null? then 0.0 else Value(cell.text)
  }

  lemma {:induction false} AmountValue(cell: Cell)
    requires IsValid(cell)
    ensures Decimal(cell).Success? && IsDecimal(OrZero(Decimal(cell).value))
    ensures Value(OrZero(Decimal(cell).value)) == Amount(cell)
  {
    hide IsDecimal;
    DecimalIsDecimal(cell);
    ZeroValue();
  }

  lemma {:induction false} ZeroValue()
    ensures Canonical("0") && Value("0") == 0.0
  {
    ZeroIsDecimal();
    assert "0" + ("" + Zeros(0)) == "0";
  }

  // addDecimals fails exactly on an invalid operand; otherwise it is exact and canonical.
  lemma {:induction false} AddDecimalsIsExact(a: Cell, b: Cell)
    ensures AddDecimals(a, b).Success? <==> IsValid(a) && IsValid(b)
    ensures AddDecimals(a, b).Success? ==>
      Canonical(AddDecimals(a, b).value) && Value(AddDecimals(a, b).value) == Amount(a) + Amount(b)
  {
    hide AddTexts, Canonical, IsDecimal, Value;
    if IsValid(a) && IsValid(b) {
      AmountValue(a);
      AmountValue(b);
      AddTextsIsExact(OrZero(Decimal(a).value), OrZero(Decimal(b).value));
    }
  }

  lemma {:induction false} AddCommutes(a: Cell, b: Cell)
    requires IsValid(a) && IsValid(b)
    ensures AddDecimals(a, b) == AddDecimals(b, a)
  {
    hide AddDecimals, Canonical, Value;
    AddDecimalsIsExact(a, b);
    AddDecimalsIsExact(b, a);
    CanonicalUnique(AddDecimals(a, b).value, AddDecimals(b, a).value);
  }

  lemma {:induction false} AddAssociates(a: Cell, b: Cell, c: Cell)
    requires IsValid(a) && IsValid(b) && IsValid(c)
    ensures AddDecimals(a, b).Success? && AddDecimals(b, c).Success?
    ensures AddDecimals(Text(AddDecimals(a, b).value), c) == AddDecimals(a, Text(AddDecimals(b, c).value))
  {
    hide AddDecimals, Value, Whole, Fraction;
    AddDecimalsIsExact(a, b);
    AddDecimalsIsExact(b, c);
    var left, right := Text(AddDecimals(a, b).value), Text(AddDecimals(b, c).value);
    AddDecimalsIsExact(left, c);
    AddDecimalsIsExact(a, right);
    CanonicalUnique(AddDecimals(left, c).value, AddDecimals(a, right).value);
  }

  // ---------- comparison ----------

  lemma {:induction false} TrimmedNumber(whole: string, tail: string)
    requires |whole| > 0 && AllDigits(whole) && AllDigits(tail)
    ensures AllDigits(TrimStart(whole)) && Number(TrimStart(whole) + tail) == Number(whole + tail)
  {
    hide Number, TrimStart, IsDigit, Zeros;
    TrimStartParts(whole);
    var n := |whole| - |TrimStart(whole)|;
    assert TrimStart(whole) == whole[n..];
    assert whole + tail == Zeros(n) + (TrimStart(whole) + tail);
    NumberAppend(Zeros(n), TrimStart(whole) + tail);
    NumberOfZeros(n);
    NoTimes(Power(|TrimStart(whole) + tail|));
  }

  lemma {:induction false} NoTimes(p: nat)
    ensures 0 * p == 0
  {
  }

  lemma {:induction false} NormalizeIsCanonical(text: string)
    requires IsDecimal(text)
    ensures Canonical(Normalize(text)) && |Fraction(Normalize(text))| <= |Fraction(text)|
    ensures Value(Normalize(text)) == Value(text)
  {
    hide IsDecimal, Negative, Whole, Fraction, TrimStart, TrimEnd, Number, Value, Signed;
    PartsSigned(text);
    var whole, fraction := TrimStart(Whole(text)), TrimEnd(Fraction(text));
    TrimStartParts(Whole(text));
    TrimEndParts(Fraction(text));
    TrimmedDigits(Fraction(text));
    TrimmedNumber(Whole(text), Fraction(text));
    var r := Normalize(text);
    NormalizeParts(text);
    assert Whole(r) == whole && Fraction(r) == fraction;
    var scale := |Fraction(text)|;
    assert Fraction(text) + Zeros(0) == Fraction(text);
    if whole == "0" && fraction == "" {
      NumberOfZeros(scale + 1);
      assert "0" + Zeros(scale) == Zeros(scale + 1);
      assert whole + Fraction(text) == Zeros(scale + 1);
    }
    assert Fraction(r) + Zeros(scale - |Fraction(r)|) == Fraction(text);
    var n: int := Number(Whole(text) + Fraction(text));
    assert Scaled(text, scale) == if Negative(text) then -n else n;
    assert Scaled(r, scale) == if Negative(r) then -n else n;
    assert Negative(r) != Negative(text) ==> n == 0;
    assert Scaled(r, scale) == Scaled(text, scale);
    SameValue(r, text, scale);
  }

  lemma {:induction false} SignedZero()
    ensures Signed(false, "0", "") == "0" && Signed(true, "0", "") == "-0"
  {
  }

  lemma {:induction false} NormalizeParts(text: string)
    requires IsDecimal(text)
    ensures var whole, fraction := TrimStart(Whole(text)), TrimEnd(Fraction(text));
            var r := Normalize(text);
            && IsDecimal(r) && Whole(r) == whole && Fraction(r) == fraction
            && (Negative(r) == Negative(text) || (whole == "0" && fraction == ""))
            && r != "-0"
  {
    hide IsDecimal, Negative, Whole, Fraction, TrimStart, TrimEnd, Number;
    PartsSigned(text);
    TrimStartParts(Whole(text));
    TrimmedNumber(Whole(text), "");
    TrimmedDigits(Fraction(text));
    var whole, fraction := TrimStart(Whole(text)), TrimEnd(Fraction(text));
    SignedParts(false, whole, fraction);
    SignedParts(true, whole, fraction);
    ZeroIsDecimal();
    MinusZero();
    SignedZero();
  }

  // Two cells compare equal exactly when both are empty or both stand for the same number.
  lemma {:induction false} SameDecimalValueIsEquality(a: Cell, b: Cell)
    ensures SameDecimalValue(a, b).Success? <==> IsValid(a) && IsValid(b)
    ensures SameDecimalValue(a, b).Success? ==>
      (SameDecimalValue(a, b).value <==>
       (a.Null? && b.Null?) || (a.Text? && b.Text? && Value(a.text) == Value(b.text)))
  {
    hide Normalize, Canonical, IsDecimal, Value;
    if a.Text? && IsDecimal(a.text) {
      NormalizeIsCanonical(a.text);
    }
    if b.Text? && IsDecimal(b.text) {
      NormalizeIsCanonical(b.text);
    }
    if a.Text? && b.Text? && IsDecimal(a.text) && IsDecimal(b.text) {
      SameNormalForm(a.text, b.text);
    }
  }

  lemma {:induction false} SameNormalForm(x: string, y: string)
    requires IsDecimal(x) && IsDecimal(y)
    ensures Normalize(x) == Normalize(y) <==> Value(x) == Value(y)
  {
    hide Normalize, IsDecimal, Value, Whole, Fraction;
    NormalizeIsCanonical(x);
    NormalizeIsCanonical(y);
    if Value(x) == Value(y) {
      CanonicalUnique(Normalize(x), Normalize(y));
    }
  }

  // ---------- the export summary ----------

  // The currency is the trimmed text of its column.
  datatype Expense = Expense(deleted: bool, currency: string, amount: Cell, amountEur: Cell)

  datatype Entry = Entry(activeCount: nat, deletedCount: nat, activeOriginalTotal: string,
                         deletedOriginalTotal: string, originalTotal: string)

  datatype Summary = Summary(totalExpenses: nat, activeCount: nat, deletedCount: nat, activeEur: string,
                             currencies: map<string, Entry>)

  // The cells that the summary adds up: all amounts, and the euro amounts of active rows.
  predicate UsableRow(e: Expense) { IsValid(e.amount) && (!e.deleted ==> IsValid(e.amountEur)) }

  predicate Usable(rows: seq<Expense>) { forall i :: 0 <= i < |rows| ==> UsableRow(rows[i]) }

  function EuroSum(rows: seq<Expense>): real
    requires Usable(rows)
  {
    if |rows| == 0 then 0.0
    else
      var e := rows[|rows| - 1];
      EuroSum(rows[..|rows| - 1]) + if e.deleted then 0.0 else Amount(e.amountEur)
  }

  function Selected(e: Expense, currency: string,
      deleted: bool): bool { e.currency == currency && e.deleted == deleted }

  function OriginalSum(rows: seq<Expense>, currency: string, deleted: bool): real
    requires Usable(rows)
  {
    if |rows| == 0 then 0.0
    else
      var e := rows[|rows| - 1];
      OriginalSum(rows[..|rows| - 1], currency, deleted)
      + if Selected(e, currency, deleted) then Amount(e.amount) else 0.0
  }

  function Count(rows: seq<Expense>, currency: string, deleted: bool): nat {
    if |rows| == 0 then 0
    else Count(rows[..|rows| - 1], currency, deleted) + if Selected(rows[|rows| - 1], currency, deleted) then 1 else 0
  }

  function CountAll(rows: seq<Expense>, deleted: bool): nat {
    if |rows| == 0 then 0
    else CountAll(rows[..|rows| - 1], deleted) + if rows[|rows| - 1].deleted == deleted then 1 else 0
  }

  // The text is the canonical form of exactly this number.
  ghost predicate Prints(text: string, v: real) { Canonical(text) && Value(text) == v }

  ghost predicate ExactEntry(entry: Entry, rows: seq<Expense>, currency: string)
    requires Usable(rows)
  {
    && entry.activeCount == Count(rows, currency, false)
    && entry.deletedCount == Count(rows, currency, true)
    && Prints(entry.activeOriginalTotal, OriginalSum(rows, currency, false))
    && Prints(entry.deletedOriginalTotal, OriginalSum(rows, currency, true))
    && Prints(entry.originalTotal, OriginalSum(rows, currency, false) + OriginalSum(rows, currency, true))
  }

  ghost predicate HasCurrency(rows: seq<Expense>, currency: string) {
    exists i :: 0 <= i < |rows| && rows[i].currency == currency
  }

  ghost predicate ExactCurrencies(currencies: map<string, Entry>, rows: seq<Expense>)
    requires Usable(rows)
  {
    forall c :: (c in currencies <==> HasCurrency(rows, c))
                && (c in currencies ==> ExactEntry(currencies[c], rows, c))
  }

  ghost predicate ExactSummary(s: Summary, rows: seq<Expense>)
    requires Usable(rows)
  {
    && s.totalExpenses == |rows|
    && s.activeCount == CountAll(rows, false)
    && s.deletedCount == CountAll(rows, true)
    && Prints(s.activeEur, EuroSum(rows))
    && ExactCurrencies(s.currencies, rows)
  }

  lemma {:induction false} AddPrints(text: string, v: real, cell: Cell)
    requires Prints(text, v)
    ensures AddDecimals(Text(text), cell).Success? <==> IsValid(cell)
    ensures IsValid(cell) ==> Prints(AddDecimals(Text(text), cell).value, v + Amount(cell))
  {
    hide AddDecimals, IsDecimal, Value, Whole, Fraction;
    AddDecimalsIsExact(Text(text), cell);
  }

  const EMPTY_ENTRY: Entry := Entry(0, 0, "0", "0", "0")

  // The entry after one more row.
  ghost predicate EntryAdds(entry: Entry, row: Expense, next: Entry)
    requires Canonical(entry.activeOriginalTotal) && Canonical(entry.deletedOriginalTotal) && IsValid(row.amount)
  {
    var a := Value(entry.activeOriginalTotal) + if row.deleted then 0.0 else Amount(row.amount);
    var d := Value(entry.deletedOriginalTotal) + if row.deleted then Amount(row.amount) else 0.0;
    && next.activeCount == entry.activeCount + (if row.deleted then 0 else 1)
    && next.deletedCount == entry.deletedCount + (if row.deleted then 1 else 0)
    && Prints(next.activeOriginalTotal, a) && Prints(next.deletedOriginalTotal, d)
    && Prints(next.originalTotal, a + d)
  }

  // One row's share of its currency's entry; fails exactly on an invalid amount.
  method AddToEntry(entry: Entry, row: Expense) returns (r: Result<Entry, Error>)
    requires Canonical(entry.activeOriginalTotal) && Canonical(entry.deletedOriginalTotal)
    ensures r.Success? <==> IsValid(row.amount)
    ensures r.Success? ==> EntryAdds(entry, row, r.value)
  {
    hide AddDecimals, IsDecimal, Value, Whole, Fraction;
    var e := entry;
    if !row.deleted {
      AddPrints(e.activeOriginalTotal, Value(e.activeOriginalTotal), row.amount);
      var total :- AddDecimals(Text(e.activeOriginalTotal), row.amount);
      e := e.(activeCount := e.activeCount + 1, activeOriginalTotal := total);
    } else {
      AddPrints(e.deletedOriginalTotal, Value(e.deletedOriginalTotal), row.amount);
      var total :- AddDecimals(Text(e.deletedOriginalTotal), row.amount);
      e := e.(deletedCount := e.deletedCount + 1, deletedOriginalTotal := total);
    }
    AddPrints(e.activeOriginalTotal, Value(e.activeOriginalTotal), Text(e.deletedOriginalTotal));
    var both := AddDecimals(Text(e.activeOriginalTotal), Text(e.deletedOriginalTotal));
    return Success(e.(originalTotal := both.value));
  }

  lemma {:induction false} SumsStep(rows: seq<Expense>, i: nat, currency: string, deleted: bool)
    requires i < |rows| && Usable(rows[..i + 1])
    ensures Usable(rows[..i])
    ensures OriginalSum(rows[..i + 1], currency, deleted)
            == OriginalSum(rows[..i], currency, deleted)
               + if Selected(rows[i], currency, deleted) then Amount(rows[i].amount) else 0.0
    ensures Count(rows[..i + 1], currency, deleted)
            == Count(rows[..i], currency, deleted) + if Selected(rows[i], currency, deleted) then 1 else 0
  {
    hide Amount;
    assert rows[..i + 1][..i] == rows[..i];
    assert forall k :: 0 <= k < i ==> rows[..i + 1][k] == rows[..i][k];
  }

  lemma {:induction false} TotalsStep(rows: seq<Expense>, i: nat)
    requires i < |rows| && Usable(rows[..i + 1])
    ensures Usable(rows[..i])
    ensures EuroSum(rows[..i + 1]) == EuroSum(rows[..i]) + if rows[i].deleted then 0.0 else Amount(rows[i].amountEur)
    ensures CountAll(rows[..i + 1], false) == CountAll(rows[..i], false) + if rows[i].deleted then 0 else 1
    ensures CountAll(rows[..i + 1], true) == CountAll(rows[..i], true) + if rows[i].deleted then 1 else 0
  {
    hide Amount;
    assert rows[..i + 1][..i] == rows[..i];
    assert forall k :: 0 <= k < i ==> rows[..i + 1][k] == rows[..i][k];
  }

  lemma {:induction false} NewCurrency(rows: seq<Expense>, currency: string)
    requires Usable(rows) && forall i :: 0 <= i < |rows| ==> rows[i].currency != currency
    ensures ExactEntry(EMPTY_ENTRY, rows, currency)
  {
    hide Canonical, Value, Amount;
    ZeroValue();
    if |rows| > 0 {
      NewCurrency(rows[..|rows| - 1], currency);
    }
  }

  lemma {:induction false} CurrenciesStep(rows: seq<Expense>, i: nat, before: map<string, Entry>, entry: Entry)
    requires i < |rows| && Usable(rows[..i + 1]) && Usable(rows[..i]) && ExactCurrencies(before, rows[..i])
    requires ExactEntry(entry, rows[..i + 1], rows[i].currency)
    ensures ExactCurrencies(before[rows[i].currency := entry], rows[..i + 1])
  {
    hide Amount, Prints, OriginalSum, Count;
    var after := before[rows[i].currency := entry];
    forall c
      ensures c in after <==> HasCurrency(rows[..i + 1], c)
      ensures c in after ==> ExactEntry(after[c], rows[..i + 1], c)
    {
      SumsStep(rows, i, c, false);
      SumsStep(rows, i, c, true);
      if c == rows[i].currency {
        assert rows[..i + 1][i].currency == c;
      } else {
        assert forall k :: 0 <= k < i ==> rows[..i + 1][k] == rows[..i][k];
        assert forall k :: 0 <= k < i ==> rows[..i][k] == rows[..i + 1][k];
      }
    }
  }

  lemma {:induction false} EntryStep(rows: seq<Expense>, i: nat, entry: Entry, next: Entry)
    requires i < |rows| && Usable(rows[..i]) && UsableRow(rows[i])
    requires ExactEntry(entry, rows[..i], rows[i].currency)
    requires EntryAdds(entry, rows[i], next)
    ensures Usable(rows[..i + 1]) && ExactEntry(next, rows[..i + 1], rows[i].currency)
  {
    hide Amount, OriginalSum, Count, Value, Canonical;
    UsableStep(rows, i);
    SumsStep(rows, i, rows[i].currency, false);
    SumsStep(rows, i, rows[i].currency, true);
  }

  lemma {:induction false} UsableStep(rows: seq<Expense>, i: nat)
    requires i < |rows| && Usable(rows[..i]) && UsableRow(rows[i])
    ensures Usable(rows[..i + 1])
  {
    hide UsableRow;
    assert forall k :: 0 <= k < i ==> rows[..i + 1][k] == rows[..i][k];
  }

  lemma {:induction false} NothingExported()
    ensures Usable([]) && CountAll([], false) == 0 && CountAll([], true) == 0
    ensures Prints("0", EuroSum([])) && ExactCurrencies(map[], [])
  {
    hide Canonical, Value;
    ZeroValue();
  }

  lemma {:induction false} EntrySoFar(currencies: map<string, Entry>, rows: seq<Expense>, currency: string,
      entry: Entry)
    requires Usable(rows) && ExactCurrencies(currencies, rows)
    requires entry == if currency in currencies then currencies[currency] else EMPTY_ENTRY
    ensures ExactEntry(entry, rows, currency)
    ensures Canonical(entry.activeOriginalTotal) && Canonical(entry.deletedOriginalTotal)
  {
    hide Canonical, Value, OriginalSum, Count;
    if currency !in currencies {
      NewCurrency(rows, currency);
    }
  }

  lemma {:induction false} NullAmount()
    ensures IsValid(Null) && Amount(Null) == 0.0
  {
  }

  // The summary fails exactly when a cell that it adds is invalid; otherwise every count and total
  // is exact, and every total canonical.
  method ExportSummary(rows: seq<Expense>) returns (r: Result<Summary, Error>)
    ensures r.Success? <==> Usable(rows)
    ensures r.Success? ==> ExactSummary(r.value, rows)
  {
    hide AddDecimals, Prints, IsValid, Amount, OriginalSum, Count, EuroSum, CountAll, ExactCurrencies, ExactEntry,
      Canonical, EntryAdds;
    var currencies: map<string, Entry> := map[];
    var activeEur, activeCount, deletedCount := "0", 0, 0;
    NothingExported();
    NullAmount();
    for i := 0 to |rows|
      invariant Usable(rows[..i])
      invariant activeCount == CountAll(rows[..i], false) && deletedCount == CountAll(rows[..i], true)
      invariant Prints(activeEur, EuroSum(rows[..i]))
      invariant ExactCurrencies(currencies, rows[..i])
    {
      var row := rows[i];
      if !row.deleted {
        activeCount := activeCount + 1;
        AddPrints(activeEur, EuroSum(rows[..i]), row.amountEur);
        if !row.amountEur.Null? {
          activeEur :- AddDecimals(Text(activeEur), row.amountEur);
        }
      } else {
        deletedCount := deletedCount + 1;
      }
      var entry := if row.currency in currencies then currencies[row.currency] else EMPTY_ENTRY;
      EntrySoFar(currencies, rows[..i], row.currency, entry);
      var next :- AddToEntry(entry, row);
      EntryStep(rows, i, entry, next);
      TotalsStep(rows, i);
      CurrenciesStep(rows, i, currencies, next);
      currencies := currencies[row.currency := next];
    }
    assert rows[..|rows|] == rows;
    return Success(Summary(|rows|, activeCount, deletedCount, activeEur, currencies));
  }
}

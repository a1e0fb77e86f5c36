/** Exact decimal rendering of atomic amounts and hashrates (src/exact_amount.h, src/hashrate.h). */
module ExactAmount {
  import opened Basics
  import opened Decimal
  import opened Text

  function Pow10(d: nat): (p: nat)
    ensures p >= 1
  {
    if d == 0 then 1 else 10 * Pow10(d - 1)
  }

  function PadLeft(s: string, width: nat): (out: string) {
    if |s| >= width then s else Repeat('0', width - |s|) + s
  }

  /** format_atomic_amount: whole and fraction by division. */
  function FormatAmount(amount: nat, coin: nat, places: nat): (out: string) {
    if coin == 0 then "unavailable"
    else if places == 0 then Print(amount / coin)
    else Print(amount / coin) + "." + PadLeft(Print(amount % coin), places)
  }

  function SkipZeros(s: string): (out: string)
  {
    if s != "" && s[0] == '0' then SkipZeros(s[1..]) else s
  }

  /** A decimal point before the last places digits, with zeros in front as needed. */
  function InsertPoint(digits: string, places: nat): (out: string) {
    if places == 0 then digits
    else
      var padded := if |digits| <= places then PadLeft(digits, places + 1) else digits;
      padded[..|padded| - places] + "." + padded[|padded| - places..]
  }

  /** format_atomic_decimal_string: the same by editing the digit string. */
  method FormatDecimalString(atomic: string, places: nat) returns (out: string)
    ensures atomic == "" || !AllDigits(atomic) ==> out == "unavailable"
    ensures atomic != "" && AllDigits(atomic) ==> out == FormatAmount(Value(atomic), Pow10(places), places)
  {
    if atomic == "" || !AllDigits(atomic) {
      return "unavailable";
    }
    var normalized := SkipZeros(atomic);
    if normalized == "" {
      normalized := "0";
    }
    NormalizedIsPrint(atomic);
    hide SkipZeros, Value, Print, FormatAmount, AllDigits, Pow10, InsertPoint;
    assert normalized == Print(Value(atomic));
    PointIsDivision(Value(atomic), places);
    out := PlacePoint(normalized, places);
  }

  /** The string edits at the end of both formatters. */
  method PlacePoint(digits: string, places: nat) returns (out: string)
    ensures out == InsertPoint(digits, places)
  {
    out := digits;
    if places == 0 {
      return;
    }
    if |out| <= places {
      out := Repeat('0', places + 1 - |out|) + out;
    }
    out := out[..|out| - places] + "." + out[|out| - places..];
  }

  // --- normalising -----------------------------------------------------------------------------

  lemma {:induction false} ValueOfCons(s: string)
    requires s != "" && AllDigits(s) && s[0] == '0'
    ensures Value(s[1..]) == Value(s)
    decreases |s|
  {
    if |s| > 1 {
      var init := s[..|s| - 1];
      ValueOfCons(init);
      assert init[1..] == s[1..][..|s| - 2];
    } else {
      assert s[1..] == "" && s[..0] == "";
    }
  }

  lemma {:induction false} PrintOfValue(s: string)
    requires s != "" && AllDigits(s) && s[0] != '0'
    ensures Value(s) > 0 && Print(Value(s)) == s
    decreases |s|
  {
    var init, last := s[..|s| - 1], s[|s| - 1];
    assert s == init + [last];
    if init != "" {
      PrintOfValue(init);
      assert Value(s) / 10 == Value(init) && Value(s) % 10 == DigitValue(last);
    } else {
      assert Value(init) == 0;
      assert s == [Digit(DigitValue(last))];
    }
  }

  lemma {:induction false} NormalizedIsPrint(s: string)
    requires s != "" && AllDigits(s)
    ensures (if SkipZeros(s) == "" then "0" else SkipZeros(s)) == Print(Value(s))
    decreases |s|
  {
    if s[0] == '0' {
      ValueOfCons(s);
      if |s| > 1 {
        NormalizedIsPrint(s[1..]);
      } else {
        assert s[1..] == "";
      }
    } else {
      PrintOfValue(s);
    }
  }

  // --- the two formatters agree ----------------------------------------------------------------

  /** Exactly d digits of r. */
  function Digits(r: nat, d: nat): (s: string)
    ensures |s| == d
  {
    if d == 0 then "" else Digits(r / 10, d - 1) + [Digit(r % 10)]
  }

  lemma {:induction false} DigitsOfZero(d: nat)
    ensures Digits(0, d) == Repeat('0', d)
  {
    if d > 0 {
      DigitsOfZero(d - 1);
    }
  }

  lemma {:induction false} DigitsPadPrint(r: nat, d: nat)
    requires d > 0 && r < Pow10(d)
    ensures |Print(r)| <= d && Digits(r, d) == PadLeft(Print(r), d)
    decreases d
  {
    if r < 10 {
      DigitsOfZero(d - 1);
      assert r / 10 == 0 && Print(r) == [Digit(r)];
    } else {
      assert Pow10(1) == 10 * Pow10(0);
      DigitsPadPrint(r / 10, d - 1);
      var tail := [Digit(r % 10)];
      assert Print(r) == Print(r / 10) + tail;
      var pad := d - |Print(r)|;
      assert Repeat('0', pad) + Print(r / 10) + tail == Repeat('0', pad) + (Print(r / 10) + tail);
    }
  }

  lemma ShiftDigit(q: nat, r: nat, p: nat)
    requires q > 0 && p > 0
    ensures var n := q * (10 * p) + r; n >= 10 && n / 10 == q * p + r / 10 && n % 10 == r % 10
  {
    assert q * (10 * p) == 10 * (q * p);
    assert q * p >= 1;
  }

  lemma {:induction false} PrintSplits(q: nat, r: nat, d: nat)
    requires q > 0 && r < Pow10(d)
    ensures Print(q * Pow10(d) + r) == Print(q) + Digits(r, d)
    decreases d
  {
    var n := q * Pow10(d) + r;
    if d == 0 {
      assert n == q && Print(q) + "" == Print(q);
    } else {
      var p := Pow10(d - 1);
      ShiftDigit(q, r, p);
      PrintSplits(q, r / 10, d - 1);
      Assoc(Print(q), Digits(r / 10, d - 1), [Digit(r % 10)]);
    }
  }

  lemma PointWithWhole(n: nat, q: nat, r: nat, places: nat)
    requires places > 0 && q > 0 && r < Pow10(places) && n == q * Pow10(places) + r
    ensures InsertPoint(Print(n), places) == Print(q) + "." + PadLeft(Print(r), places)
  {
    hide Print, Digits, PadLeft, Pow10;
    DigitsPadPrint(r, places);
    PrintSplits(q, r, places);
    var s := Print(n);
    assert |s| > places;
    assert s[..|s| - places] == Print(q) && s[|s| - places..] == Digits(r, places);
  }

  lemma PointWithoutWhole(r: nat, places: nat)
    requires places > 0 && r < Pow10(places)
    ensures InsertPoint(Print(r), places) == "0" + "." + PadLeft(Print(r), places)
  {
    hide Print, Digits, Pow10;
    DigitsPadPrint(r, places);
    var pad := places - |Print(r)|;
    var padded := Repeat('0', pad + 1) + Print(r);
    assert padded[..1] == "0";
    assert padded[1..] == PadLeft(Print(r), places);
  }

  /** For every amount and number of places, inserting the point into the digits gives the same text as
      dividing by 10^places. */
  lemma PointIsDivision(n: nat, places: nat)
    ensures InsertPoint(Print(n), places) == FormatAmount(n, Pow10(places), places)
  {
    hide Print, PadLeft, InsertPoint, Pow10;
    DivMod(n, Pow10(places));
    AmountParts(n, Pow10(places), n / Pow10(places), n % Pow10(places), places);
    PointOfParts(n, n / Pow10(places), n % Pow10(places), places);
  }

  /** A whole part, a point and exactly places digits, which together read as the amount. */
  ghost predicate ReadsAs(text: string, whole: string, fraction: string, places: nat, n: nat) {
    && text == whole + "." + fraction && |fraction| == places
    && AllDigits(whole) && AllDigits(fraction) && Value(whole) * Pow10(places) + Value(fraction) == n
  }

  lemma AmountReadsBack(n: nat, places: nat)
    requires places > 0
    ensures exists whole, fraction :: ReadsAs(FormatAmount(n, Pow10(places), places), whole, fraction, places, n)
  {
    hide Print, Value, Pow10, AllDigits, PadLeft, FormatAmount;
    var coin := Pow10(places);
    var q, r := n / coin, n % coin;
    DivMod(n, coin);
    AmountParts(n, coin, q, r, places);
    FractionReadsBack(r, places);
    ValueOfPrint(q);
    assert ReadsAs(FormatAmount(n, coin, places), Print(q), PadLeft(Print(r), places), places, n);
  }

  lemma FractionReadsBack(r: nat, places: nat)
    requires places > 0 && r < Pow10(places)
    ensures var fraction := PadLeft(Print(r), places);
            |fraction| == places && AllDigits(fraction) && Value(fraction) == r
  {
    hide Print, Value, Pow10, AllDigits;
    ValueOfPrint(r);
    DigitsPadPrint(r, places);
    if |Print(r)| < places {
      ValueOfPadded(Print(r), places - |Print(r)|);
    }
  }

  lemma {:induction false} ValueOfPadded(s: string, k: nat)
    requires AllDigits(s) && s != ""
    ensures AllDigits(Repeat('0', k) + s) && Value(Repeat('0', k) + s) == Value(s)
    decreases |s|
  {
    var padded := Repeat('0', k) + s;
    var init := s[..|s| - 1];
    assert padded[..|padded| - 1] == Repeat('0', k) + init && padded[|padded| - 1] == s[|s| - 1];
    if init == "" {
      assert Repeat('0', k) + init == Repeat('0', k);
      ValueOfZeros(k);
    } else {
      ValueOfPadded(init, k);
    }
  }

  lemma {:induction false} ValueOfZeros(k: nat)
    ensures AllDigits(Repeat('0', k)) && Value(Repeat('0', k)) == 0
  {
    if k > 0 {
      ValueOfZeros(k - 1);
      var s := Repeat('0', k);
      assert s[..k - 1] == Repeat('0', k - 1) && DigitValue(s[k - 1]) == 0;
      hide Repeat;
      assert Value(s) == 10 * Value(s[..k - 1]) + DigitValue(s[k - 1]);
    }
  }

  lemma AmountParts(n: nat, coin: nat, q: nat, r: nat, places: nat)
    requires coin > 0 && q == n / coin && r == n % coin
    ensures FormatAmount(n, coin, places) ==
              if places == 0 then Print(q) else Print(q) + "." + PadLeft(Print(r), places)
  {
  }

  lemma PointOfParts(n: nat, q: nat, r: nat, places: nat)
    requires n == q * Pow10(places) + r && r < Pow10(places)
    ensures InsertPoint(Print(n), places) ==
              if places == 0 then Print(q) else Print(q) + "." + PadLeft(Print(r), places)
  {
    hide Print, PadLeft, InsertPoint, Pow10;
    if places == 0 {
      CoinOfZero(q);
      NoPoint(n);
    } else if q > 0 {
      PointWithWhole(n, q, r, places);
    } else {
      PrintZero();
      PointWithoutWhole(r, places);
    }
  }

  lemma PrintZero()
    ensures Print(0) == "0"
  {
  }

  lemma CoinOfZero(n: nat)
    ensures Pow10(0) == 1 && n * Pow10(0) == n
  {
  }

  lemma DivMod(n: nat, coin: nat)
    requires coin > 0
    ensures n == (n / coin) * coin + n % coin && n % coin < coin
  {
  }

  lemma NoPoint(n: nat)
    ensures InsertPoint(Print(n), 0) == Print(n)
  {
  }

  // --- hashrate --------------------------------------------------------------------------------

  /** decimal_ratio for three places: the exact ratio, floored. The 256-bit product cannot overflow. */
  method DecimalRatio3(numerator: u128, denominator: u128) returns (out: string)
    ensures denominator == 0 ==> out == "unavailable"
    ensures denominator != 0 ==> out == FormatAmount(numerator * 1000 / denominator, Pow10(3), 3)
  {
    hide FormatAmount, Print, InsertPoint;
    if denominator == 0 {
      return "unavailable";
    }
    var scaled := numerator * 1000 / denominator;
    PointIsDivision(scaled, 3);
    out := PlacePoint(Print(scaled), 3);
  }

  const UNITS := ["H/s", "kH/s", "MH/s", "GH/s", "TH/s", "PH/s", "EH/s"]

  /** What each unit of hashrate stands for. */
  function HashesPerSecond(unit: string): (n: nat) {
    match unit
    case "H/s" => 1
    case "kH/s" => 1_000
    case "MH/s" => 1_000_000
    case "GH/s" => 1_000_000_000
    case "TH/s" => 1_000_000_000_000
    case "PH/s" => 1_000_000_000_000_000
    case "EH/s" => 1_000_000_000_000_000_000
    case _ => 0
  }

  /** Each unit of the table stands for the power of 1000 its divisor uses. */
  lemma UnitsArePowers(unit: nat)
    requires unit < |UNITS|
    ensures HashesPerSecond(UNITS[unit]) == Thousands(unit)
  {
    assert Thousands(3) == 1000 * Thousands(2) == 1_000_000 * Thousands(1) == 1_000_000_000;
    assert Thousands(6) == 1000 * Thousands(5) == 1_000_000 * Thousands(4) == 1_000_000_000 * Thousands(3);
  }

  function Thousands(unit: nat): (p: nat)
    ensures p >= 1
  {
    if unit == 0 then 1 else 1000 * Thousands(unit - 1)
  }

  function Divisor(target: nat, unit: nat): (d: nat)
    ensures target > 0 ==> d > 0
  {
    target * Thousands(unit)
  }

  lemma DivisorFits(target: u64, unit: nat)
    requires unit <= 6
    ensures Thousands(unit) <= 1_000_000_000_000_000_000
    ensures target * Thousands(unit) < TWO_128
  {
    assert Thousands(6) == 1000 * Thousands(5) == 1_000_000 * Thousands(4) == 1_000_000_000 * Thousands(3);
    assert Thousands(3) == 1000 * Thousands(2) == 1_000_000 * Thousands(1) == 1_000_000_000;
    ThousandsGrow(unit, 6);
    MulBound(target, Thousands(unit), 1_000_000_000_000_000_000);
  }

  lemma {:induction false} ThousandsGrow(a: nat, b: nat)
    requires a <= b
    ensures Thousands(a) <= Thousands(b)
    decreases b
  {
    if a < b {
      ThousandsGrow(a, b - 1);
    }
  }

  lemma MulBound(x: u64, y: nat, bound: nat)
    requires y <= bound
    ensures x * y <= TWO_64 * bound
  {
    assert x * y <= x * bound;
  }

  /** The unit loop of format_hashrate_si. The divisor, and the product it is compared with, stay within 128
      bits; the ratio is in [1, 1000) except below the first unit and above the last. */
  method PickUnit(difficulty: u128, target: u64) returns (unit: nat, divisor: u128)
    requires target > 0
    ensures unit < 7 && divisor == Divisor(target, unit) > 0
    ensures unit < 6 ==> difficulty < 1000 * divisor
    ensures unit > 0 ==> difficulty >= divisor
  {
    unit, divisor := 0, target;
    while unit + 1 < 7
      invariant unit < 7 && divisor == target * Thousands(unit) && divisor > 0
      invariant unit > 0 ==> difficulty >= divisor
      decreases 7 - unit
    {
      DivisorFits(target, unit + 1);
      assert target * (1000 * Thousands(unit)) == 1000 * (target * Thousands(unit));
      var next: u128 := divisor * 1000;
      if difficulty < next {
        return;
      }
      divisor := next;
      unit := unit + 1;
    }
  }

  /** format_hashrate_si: the ratio to the chosen unit, floored to three places. */
  method FormatHashrate(difficulty: u128, target: u64) returns (out: string)
    ensures target == 0 ==> out == "unavailable"
    ensures target > 0 ==>
              exists unit :: RightUnit(difficulty, target, unit) && out == HashrateText(difficulty, target, unit)
  {
    hide FormatAmount, Divisor;
    if target == 0 {
      return "unavailable";
    }
    var unit, divisor := PickUnit(difficulty, target);
    assert |UNITS| == 7;
    assert RightUnit(difficulty, target, unit);
    out := DecimalRatio3(difficulty, divisor);
    out := out + " " + UNITS[unit];
  }

  /** The ratio of difficulty to the unit's divisor, floored to three places, with the unit. */
  function HashrateText(difficulty: nat, target: nat, unit: nat): (s: string)
    requires target > 0 && unit < |UNITS|
  {
    FormatAmount(difficulty * 1000 / Divisor(target, unit), Pow10(3), 3) + " " + UNITS[unit]
  }

  predicate RightUnit(difficulty: nat, target: nat, unit: nat) {
    && unit < |UNITS|
    && (unit < 6 ==> difficulty < 1000 * Divisor(target, unit))
    && (unit > 0 ==> difficulty >= Divisor(target, unit))
  }
}

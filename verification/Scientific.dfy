/** Expanding a number in scientific notation to plain decimal notation. */
module Scientific {
  import opened Wrappers
  import opened Numerals

  const I32_MAX: int := 0x7FFF_FFFF
  const I32_MIN: int := -0x8000_0000
  const MAX_LENGTH: nat := 32

  /** Index of the first character of `set`, or the length if there is none. */
  function FirstIndex(s: string, wanted: set<char>): (k: nat)
    ensures k <= |s|
    ensures forall i :: 0 <= i < k ==> s[i] !in wanted
    ensures k < |s| ==> s[k] in wanted
  {
    if s == "" || s[0] in wanted then 0 else 1 + FirstIndex(s[1..], wanted)
  }

  /** All characters but the decimal points. */
  function WithoutDots(s: string): string {
    if s == "" then "" else (if s[0] == '.' then "" else [s[0]]) + WithoutDots(s[1..])
  }

  function Zeros(n: nat): (s: string)
    ensures |s| == n && AllDigits(s) && forall i :: 0 <= i < n ==> s[i] == '0'
  {
    seq(n, _ => '0')
  }

  /** An optionally signed 32-bit integer. */
  function ParseI32(s: string): Option<int> {
    var signed := s != "" && (s[0] == '-' || s[0] == '+');
    var digits := if signed then s[1..] else s;
    if digits == "" || !AllDigits(digits) then None
    else
      var v: int := if s[0] == '-' then -(ValueOf(digits) as int) else ValueOf(digits);
      if I32_MIN <= v <= I32_MAX then Some(v) else None
  }

  /** An exponent is read with its sign, and refused beyond 32 bits. */
  lemma ExponentReadsBack(n: nat)
    ensures ParseI32(Decimal(n)) == if n <= 0x7FFF_FFFF then Some(n) else None
    ensures ParseI32("+" + Decimal(n)) == if n <= 0x7FFF_FFFF then Some(n) else None
    ensures ParseI32("-" + Decimal(n)) == if n <= 0x8000_0000 then Some(-(n as int)) else None
  {
    hide Decimal, ValueOf;
    DecimalReadsBack(n);
    assert IsDigit(Decimal(n)[0]);
    assert ("+" + Decimal(n))[1..] == Decimal(n) && ("-" + Decimal(n))[1..] == Decimal(n);
  }


  function StripPlus(s: string): string {
    if s != "" && s[0] == '+' then s[1..] else s
  }

  /** The plain digits with the decimal point at `position`, which may lie outside them. */
  function Place(digits: string, position: int): string {
    if position <= 0 then "0." + Zeros(-position) + digits
    else if position >= |digits| then digits + Zeros(position - |digits|)
    else digits[..position] + "." + digits[position..]
  }

  function ExpandScientificDecimal(value: string): Option<string> {
    var e := FirstIndex(value, {'e', 'E'});
    if e == |value| then None
    else
      match ParseI32(value[e + 1..])
      case None => None
      case Some(exponent) =>
        var negative := e > 0 && value[0] == '-';
        var sign := if negative then "-" else "";
        var mantissa := if negative then value[1..e] else StripPlus(value[..e]);
        var point := FirstIndex(mantissa, {'.'});
        var digits := WithoutDots(mantissa);
        if digits == "" || !AllDigits(digits) then None
        else if point > I32_MAX || !(I32_MIN < point + exponent <= I32_MAX) then None
        else
          var rendered := sign + Place(digits, point + exponent);
          if |rendered| <= MAX_LENGTH then Some(rendered) else None
  }

  // ---- what number a string denotes ----

  ghost function Pow10(e: int): real
    decreases if e < 0 then -e else e
  {
    if e == 0 then 1.0 else if e > 0 then 10.0 * Pow10(e - 1) else Pow10(e + 1) / 10.0
  }

  /** An integer shifted by a power of ten. */
  ghost function Scaled(n: nat, e: int): real {
    n as real * Pow10(e)
  }

  /** Value of unsigned digits with at most one decimal point. */
  ghost function ReadUnsigned(s: string): Option<real> {
    var point := FirstIndex(s, {'.'});
    var whole := s[..point];
    var fraction := if point < |s| then s[point + 1..] else "";
    if whole + fraction == "" || !AllDigits(whole + fraction) then None
    else Some(Scaled(ValueOf(whole + fraction), -|fraction|))
  }

  /** Value of an optionally signed plain decimal. */
  ghost function ReadNumber(s: string): Option<real> {
    if s != "" && s[0] == '-' then
      match ReadUnsigned(s[1..])
      case None => None
      case Some(v) => Some(-v)
    else ReadUnsigned(StripPlus(s))
  }

  ghost function Times(a: real, b: real): real {
    a * b
  }

  /** Value of a number in scientific notation: mantissa times ten to the exponent. */
  ghost function ReadScientific(s: string): Option<real> {
    var e := FirstIndex(s, {'e', 'E'});
    if e == |s| || ParseI32(s[e + 1..]).None? || ReadNumber(s[..e]).None? then None
    else Some(Times(ReadNumber(s[..e]).value, Pow10(ParseI32(s[e + 1..]).value)))
  }

  ghost function Dots(s: string): nat {
    if s == "" then 0 else (if s[0] == '.' then 1 else 0) + Dots(s[1..])
  }

  // ---- powers and digit strings ----

  lemma {:induction false} Pow10Add(a: int, b: int)
    ensures Pow10(a + b) == Pow10(a) * Pow10(b)
    decreases if b < 0 then -b else b
  {
    Pow10Zero();
    hide Pow10;
    if b == 0 {
      TimesOne(Pow10(a), Pow10(b));
    } else if b > 0 {
      Pow10Add(a, b - 1);
      Pow10Next(a + b - 1);
      Pow10Next(b - 1);
      TenTimes(Pow10(a), Pow10(b - 1), Pow10(b));
    } else {
      Pow10Add(a, b + 1);
      Pow10Next(a + b);
      Pow10Next(b);
      TenTimes(Pow10(a), Pow10(b), Pow10(b + 1));
    }
  }

  lemma Pow10Zero()
    ensures Pow10(0) == 1.0
  {
  }

  lemma TimesOne(x: real, one: real)
    requires one == 1.0
    ensures x * one == x
  {
  }

  lemma TenTimes(x: real, y: real, tenY: real)
    requires tenY == 10.0 * y
    ensures x * tenY == 10.0 * (x * y)
  {
  }

  lemma Pow10Next(e: int)
    ensures Pow10(e + 1) == 10.0 * Pow10(e)
  {
  }

  lemma AppendZero(s: string, t: string)
    requires AllDigits(s) && t == s + "0"
    ensures AllDigits(t) && ValueOf(t) == 10 * ValueOf(s)
  {
    assert t[..|t| - 1] == s;
  }

  lemma {:induction false} AppendZeros(s: string, n: nat)
    requires AllDigits(s)
    ensures AllDigits(s + Zeros(n)) && Scaled(ValueOf(s + Zeros(n)), 0) == Scaled(ValueOf(s), n)
  {
    hide Scaled, ValueOf;
    if n == 0 {
      assert s + Zeros(n) == s;
    } else {
      AppendZeros(s, n - 1);
      AppendZero(s + Zeros(n - 1), s + Zeros(n));
      ScaledTen(ValueOf(s + Zeros(n - 1)), 0);
      ScaledNext(ValueOf(s), n - 1);
    }
  }

  lemma ScaledTen(n: nat, e: int)
    ensures Scaled(10 * n, e) == 10.0 * Scaled(n, e)
  {
    var x, y := n as real, Pow10(e);
    assert (10 * n) as real == 10.0 * x;
    assert (10.0 * x) * y == 10.0 * (x * y);
  }

  lemma ScaledNext(n: nat, e: int)
    ensures Scaled(n, e + 1) == 10.0 * Scaled(n, e)
  {
    Pow10Next(e);
    hide Pow10;
    TenTimes(n as real, Pow10(e), Pow10(e + 1));
  }

  lemma ScaledShift(n: nat, a: int, b: int)
    ensures Times(Scaled(n, a), Pow10(b)) == Scaled(n, a + b)
    ensures Times(-Scaled(n, a), Pow10(b)) == -Scaled(n, a + b)
  {
    Pow10Add(a, b);
    hide Pow10;
    ShiftedProduct(n as real, Pow10(a), Pow10(b));
  }

  lemma {:induction false} LeadingZeros(n: nat, s: string)
    requires AllDigits(s)
    ensures AllDigits(Zeros(n) + s) && ValueOf(Zeros(n) + s) == ValueOf(s)
  {
    var t := Zeros(n) + s;
    if s == "" {
      OnlyZeros(n);
      assert t == Zeros(n);
    } else {
      LeadingZeros(n, s[..|s| - 1]);
      assert t[..|t| - 1] == Zeros(n) + s[..|s| - 1];
    }
  }

  lemma {:induction false} OnlyZeros(n: nat)
    ensures ValueOf(Zeros(n)) == 0
  {
    if n > 0 {
      OnlyZeros(n - 1);
      assert Zeros(n)[..n - 1] == Zeros(n - 1);
    }
  }

  lemma {:induction false} NoDots(s: string)
    ensures Dots(s) == 0 <==> FirstIndex(s, {'.'}) == |s|
    ensures Dots(s) == 0 ==> WithoutDots(s) == s
  {
    if s != "" {
      NoDots(s[1..]);
      assert s == [s[0]] + s[1..];
    }
  }

  lemma {:induction false} DigitsHaveNoDots(s: string)
    requires AllDigits(s)
    ensures Dots(s) == 0
  {
    if s != "" { DigitsHaveNoDots(s[1..]); }
  }

  /** The first point splits the digits; further points stay in the second part. */
  lemma {:induction false} SplitAtPoint(s: string)
    ensures var k := FirstIndex(s, {'.'});
            && Dots(s) == (if k < |s| then 1 + Dots(s[k + 1..]) else 0)
            && WithoutDots(s) == s[..k] + (if k < |s| then WithoutDots(s[k + 1..]) else "")
  {
    if s != "" && s[0] != '.' {
      var t := s[1..];
      SplitAtPoint(t);
      SliceTail(s, FirstIndex(t, {'.'}));
    } else if s != "" {
      assert s[..0] == "";
    }
  }

  lemma SliceTail(s: string, j: nat)
    requires s != "" && j <= |s| - 1
    ensures s[..j + 1] == [s[0]] + s[1..][..j]
    ensures j < |s| - 1 ==> s[j + 2..] == s[1..][j + 1..]
  {
  }

  lemma {:induction false} DotsRemain(s: string)
    ensures AllDigits(s) <==> Dots(s) == 0 && AllDigits(WithoutDots(s))
  {
    if s != "" {
      DotsRemain(s[1..]);
      assert s == [s[0]] + s[1..];
      assert AllDigits(s) <==> IsDigit(s[0]) && AllDigits(s[1..]);
      assert s[0] != '.' ==> WithoutDots(s)[1..] == WithoutDots(s[1..]) && WithoutDots(s)[0] == s[0];
    }
  }

  lemma ConcatDigits(a: string, b: string)
    ensures AllDigits(a + b) <==> AllDigits(a) && AllDigits(b)
  {
    if AllDigits(a + b) {
      assert forall i :: 0 <= i < |a| ==> a[i] == (a + b)[i];
      assert forall i :: 0 <= i < |b| ==> b[i] == (a + b)[|a| + i];
    }
  }

  /** Reading digits with a point: the digit value shifted by how far the point is from the end. */
  lemma ReadsAt(s: string)
    requires WithoutDots(s) != "" && AllDigits(WithoutDots(s))
    ensures ReadUnsigned(s).Some? <==> Dots(s) <= 1
    ensures Dots(s) <= 1 ==>
      ReadUnsigned(s).value == Scaled(ValueOf(WithoutDots(s)), FirstIndex(s, {'.'}) - |WithoutDots(s)|)
  {
    hide Scaled, ValueOf, FirstIndex, Dots, WithoutDots, AllDigits;
    var k := FirstIndex(s, {'.'});
    SplitAtPoint(s);
    if k < |s| {
      var whole, fraction := s[..k], s[k + 1..];
      SplitDigits(whole, fraction);
    } else {
      assert s[..k] + "" == s;
    }
  }

  lemma SplitDigits(whole: string, fraction: string)
    requires whole + WithoutDots(fraction) != "" && AllDigits(whole + WithoutDots(fraction))
    ensures whole + fraction != ""
    ensures AllDigits(whole + fraction) <==> Dots(fraction) == 0
    ensures Dots(fraction) == 0 ==> WithoutDots(fraction) == fraction
  {
    ConcatDigits(whole, WithoutDots(fraction));
    ConcatDigits(whole, fraction);
    DotsRemain(fraction);
    NoDots(fraction);
    if fraction == "" {
      assert whole + fraction == whole;
    }
  }

  lemma PlainReads(s: string)
    requires s != "" && AllDigits(s)
    ensures ReadUnsigned(s) == Some(Scaled(ValueOf(s), 0))
  {
    DigitsHaveNoDots(s);
    NoDots(s);
    assert s[..|s|] + "" == s;
  }

  /** Placing the point denotes the digit value shifted accordingly, in all three branches. */
  lemma PlaceReadsBack(digits: string, position: int)
    requires digits != "" && AllDigits(digits)
    ensures ReadUnsigned(Place(digits, position)) == Some(Scaled(ValueOf(digits), position - |digits|))
  {
    hide ReadUnsigned, Scaled, ValueOf, AllDigits;
    if position <= 0 {
      PlaceLeft(digits, -position);
    } else if position >= |digits| {
      PlaceRight(digits, position - |digits|);
    } else {
      PlaceInside(digits, position);
    }
  }

  lemma PlaceStartsWithDigit(digits: string, position: int)
    requires digits != "" && AllDigits(digits)
    ensures Place(digits, position) != "" && IsDigit(Place(digits, position)[0])
  {
  }

  lemma PlaceRight(digits: string, zeros: nat)
    requires digits != "" && AllDigits(digits)
    ensures ReadUnsigned(digits + Zeros(zeros)) == Some(Scaled(ValueOf(digits), zeros))
  {
    hide ReadUnsigned, Scaled, ValueOf;
    AppendZeros(digits, zeros);
    PlainReads(digits + Zeros(zeros));
  }

  lemma PlaceInside(digits: string, position: nat)
    requires digits != "" && AllDigits(digits) && 0 < position < |digits|
    ensures ReadUnsigned(digits[..position] + "." + digits[position..])
       == Some(Scaled(ValueOf(digits), position - |digits|))
  {
    hide ReadUnsigned, Scaled, ValueOf;
    var whole, fraction := digits[..position], digits[position..];
    assert whole + fraction == digits;
    ConcatDigits(whole, fraction);
    assert whole + "." + fraction == whole + ("." + fraction);
    PointAt(whole, fraction);
  }

  lemma PlaceLeft(digits: string, zeros: nat)
    requires digits != "" && AllDigits(digits)
    ensures ReadUnsigned("0." + Zeros(zeros) + digits) == Some(Scaled(ValueOf(digits), 0 - zeros - |digits|))
  {
    hide ReadUnsigned, Scaled, ValueOf;
    var fraction := Zeros(zeros) + digits;
    assert "0." + Zeros(zeros) + digits == "0" + ("." + fraction);
    LeadingZeros(zeros, digits);
    LeadingZeros(1, fraction);
    assert Zeros(1) == "0";
    PointAt("0", fraction);
  }

  lemma PointAt(whole: string, fraction: string)
    requires whole != "" && AllDigits(whole) && AllDigits(fraction) && AllDigits(whole + fraction)
    ensures ReadUnsigned(whole + ("." + fraction)) == Some(Scaled(ValueOf(whole + fraction), -|fraction|))
  {
    hide Scaled, ValueOf;
    var s := whole + ("." + fraction);
    var k := FirstIndex(s, {'.'});
    assert s[|whole|] == '.';
    assert forall i :: 0 <= i < |whole| ==> s[i] == whole[i] && IsDigit(s[i]);
    assert k == |whole|;
    assert s[..k] == whole && s[k + 1..] == fraction;
  }

  /** Whenever the expansion succeeds it is a plain decimal of at most 32 characters; the input denotes a
      number exactly when its mantissa has at most one point, and then both denote the same number. */
  lemma ExpansionDenotesSameNumber(value: string)
    requires ExpandScientificDecimal(value).Some?
    ensures var plain := ExpandScientificDecimal(value).value;
            var mantissa := value[..FirstIndex(value, {'e', 'E'})];
            && |plain| <= 32
            && ReadNumber(plain).Some?
            && (ReadScientific(value).Some? <==> Dots(mantissa) <= 1)
            && (Dots(mantissa) <= 1 ==> ReadNumber(plain).value == ReadScientific(value).value)
  {
    hide Pow10, Scaled, ReadUnsigned, Place, WithoutDots, ParseI32, FirstIndex, Dots, ReadNumber, ReadScientific;
    var e := FirstIndex(value, {'e', 'E'});
    var exponent := ParseI32(value[e + 1..]).value;
    var head := value[..e];
    var negative := head != "" && head[0] == '-';
    assert negative ==> head[1..] == value[1..e];
    var unsigned := if negative then head[1..] else StripPlus(head);
    var digits, point := WithoutDots(unsigned), FirstIndex(unsigned, {'.'});
    var plain := Place(digits, point + exponent);
    assert ExpandScientificDecimal(value).value == (if negative then "-" else "") + plain;
    assert digits != "" && AllDigits(digits) && e < |value|;
    hide ExpandScientificDecimal;
    ValuesAgree(value, head, exponent, negative, unsigned);
  }

  /** Further points are dropped: an input that is no number is still expanded. */
  lemma ExtraPointIsDropped()
    ensures ExpandScientificDecimal("1.2.3e0") == Some("1.23") && ReadScientific("1.2.3e0").None?
  {
    ExtraPointParts();
    assert "1.2.3e0"[..5] == "1.2.3" && "1.2.3e0"[6..] == "0" && "1.2.3e0"[0] == '1';
    hide FirstIndex, ParseI32, WithoutDots, AllDigits, ReadScientific, Dots, Place;
    assert StripPlus("1.2.3") == "1.2.3" && "" + "1.23" == "1.23" && |"1.23"| == 4;
    ExpansionDenotesSameNumber("1.2.3e0");
  }

  lemma ExtraPointParts()
    ensures FirstIndex("1.2.3e0", {'e', 'E'}) == 5 && ParseI32("0") == Some(0)
    ensures FirstIndex("1.2.3", {'.'}) == 1 && WithoutDots("1.2.3") == "123" && Dots("1.2.3") == 2
    ensures AllDigits("123") && Place("123", 1) == "1.23"
  {
    assert "123"[..1] + "." + "123"[1..] == "1.23";
  }

  /** The mantissa before the exponent letter and the exponent after it. */
  ghost predicate Parts(value: string, head: string, exponent: int) {
    var e := FirstIndex(value, {'e', 'E'});
    e < |value| && head == value[..e] && ParseI32(value[e + 1..]) == Some(exponent)
  }

  /** The mantissa without its sign. */
  ghost predicate Signs(head: string, negative: bool, unsigned: string) {
    && (negative <==> head != "" && head[0] == '-')
    && unsigned == if negative then head[1..] else StripPlus(head)
  }

  predicate IsNumeral(digits: string) {
    digits != "" && AllDigits(digits)
  }

  function PointOf(unsigned: string): nat {
    FirstIndex(unsigned, {'.'})
  }

  function SignOf(negative: bool): string {
    if negative then "-" else ""
  }

  /** Both readings give the same, or the input has a second point and is no number. */
  ghost predicate SameReading(plain: string, value: string, points: nat) {
    && ReadNumber(plain).Some?
    && (ReadScientific(value).Some? <==> points <= 1)
    && (points <= 1 ==> ReadNumber(plain) == ReadScientific(value))
  }

  lemma ValuesAgree(value: string, head: string, exponent: int, negative: bool, unsigned: string)
    requires Parts(value, head, exponent) && Signs(head, negative, unsigned) && IsNumeral(WithoutDots(unsigned))
    ensures SameReading(SignOf(negative) + Place(WithoutDots(unsigned), PointOf(unsigned) + exponent),
                        value, Dots(head))
  {
    hide *;
    var digits, point := WithoutDots(unsigned), PointOf(unsigned);
    NumeralIs(digits);
    PlacedReads(digits, point + exponent, negative);
    ScientificReads(value, head, exponent, negative, unsigned);
    ShiftReads(ValueOf(digits), point - |digits|, exponent, negative);
    SameReadingIf(SignOf(negative) + Place(digits, point + exponent), value, Dots(head),
                  if negative then -Scaled(ValueOf(digits), point + exponent - |digits|)
                  else Scaled(ValueOf(digits), point + exponent - |digits|));
  }

  lemma NumeralIs(digits: string)
    ensures IsNumeral(digits) <==> digits != "" && AllDigits(digits)
  {
  }

  lemma SameReadingIf(plain: string, value: string, points: nat, number: real)
    requires ReadNumber(plain) == Some(number)
    requires ReadScientific(value) == if points <= 1 then Some(number) else None
    ensures SameReading(plain, value, points)
  {
    hide *;
    hide ReadNumber, ReadScientific;
    SameReadingIs(plain, value, points);
  }

  lemma SameReadingIs(plain: string, value: string, points: nat)
    ensures SameReading(plain, value, points) <==>
      && ReadNumber(plain).Some?
      && (ReadScientific(value).Some? <==> points <= 1)
      && (points <= 1 ==> ReadNumber(plain) == ReadScientific(value))
  {
    hide ReadNumber, ReadScientific;
  }

  lemma PlacedReads(digits: string, position: int, negative: bool)
    requires digits != "" && AllDigits(digits)
    ensures var shifted := Scaled(ValueOf(digits), position - |digits|);
            ReadNumber(SignOf(negative) + Place(digits, position)) == Some(if negative then -shifted else shifted)
  {
    hide Place, ReadNumber, ReadUnsigned, Scaled, ValueOf, AllDigits;
    PlaceReadsBack(digits, position);
    PlaceStartsWithDigit(digits, position);
    SignedRead(negative, Place(digits, position));
  }

  lemma ScientificReads(value: string, head: string, exponent: int, negative: bool, unsigned: string)
    requires Parts(value, head, exponent) && Signs(head, negative, unsigned)
    requires WithoutDots(unsigned) != "" && AllDigits(WithoutDots(unsigned))
    ensures var digits := WithoutDots(unsigned);
            var read := Scaled(ValueOf(digits), PointOf(unsigned) - |digits|);
            ReadScientific(value) ==
              if Dots(head) <= 1 then Some(Times(if negative then -read else read, Pow10(exponent))) else None
  {
    hide *;
    HeadReads(head, negative, unsigned);
    MantissaTimesPower(value, head, exponent);
    ReadsAt(unsigned);
    PointIs(unsigned);
  }

  lemma PointIs(unsigned: string)
    ensures PointOf(unsigned) == FirstIndex(unsigned, {'.'})
  {
  }

  lemma ShiftReads(n: nat, a: int, b: int, negative: bool)
    ensures Times(if negative then -Scaled(n, a) else Scaled(n, a), Pow10(b))
         == if negative then -Scaled(n, a + b) else Scaled(n, a + b)
  {
    ScaledShift(n, a, b);
  }

  lemma HeadReads(head: string, negative: bool, unsigned: string)
    requires Signs(head, negative, unsigned)
    ensures ReadNumber(head).Some? <==> ReadUnsigned(unsigned).Some?
    ensures ReadNumber(head).Some? ==>
      ReadNumber(head).value == if negative then -ReadUnsigned(unsigned).value else ReadUnsigned(unsigned).value
    ensures Dots(unsigned) == Dots(head)
  {
    hide ReadUnsigned, Dots;
    DotsOfUnsigned(head);
  }

  lemma MantissaTimesPower(value: string, head: string, exponent: int)
    requires Parts(value, head, exponent)
    ensures ReadScientific(value).Some? <==> ReadNumber(head).Some?
    ensures ReadNumber(head).Some? ==> ReadScientific(value).value == Times(ReadNumber(head).value, Pow10(exponent))
  {
    hide FirstIndex, ParseI32, ReadNumber, Times, Pow10;
  }

  /** Reading a signed plain decimal whose first character is a digit. */
  lemma SignedRead(negative: bool, plain: string)
    requires plain != "" && IsDigit(plain[0]) && ReadUnsigned(plain).Some?
    ensures ReadNumber((if negative then "-" else "") + plain)
         == Some(if negative then -ReadUnsigned(plain).value else ReadUnsigned(plain).value)
  {
    hide ReadUnsigned;
    if negative {
      assert ("-" + plain)[1..] == plain;
    } else {
      assert "" + plain == plain;
    }
  }

  lemma ShiftedProduct(v: real, a: real, b: real)
    ensures (v * a) * b == v * (a * b)
    ensures (-(v * a)) * b == -(v * (a * b))
  {
  }

  lemma DotsOfUnsigned(head: string)
    ensures head != "" && head[0] == '-' ==> Dots(head[1..]) == Dots(head)
    ensures Dots(StripPlus(head)) == Dots(head)
  {
    if head != "" {
      assert Dots(head) == (if head[0] == '.' then 1 else 0) + Dots(head[1..]);
    }
  }

  /** Where the point falls in the digits of the mantissa once the exponent is applied. */
  function PointPosition(value: string): int {
    var e := FirstIndex(value, {'e', 'E'});
    if e == |value| || ParseI32(value[e + 1..]).None? then 0
    else FirstIndex(Unsigned(value[..e]), {'.'}) + ParseI32(value[e + 1..]).value
  }

  function Unsigned(head: string): string {
    if head != "" && head[0] == '-' then head[1..] else StripPlus(head)
  }

  lemma ReadableDigits(s: string)
    requires ReadUnsigned(s).Some?
    ensures WithoutDots(s) != "" && AllDigits(WithoutDots(s))
  {
    hide Scaled, ValueOf, FirstIndex, Dots, WithoutDots;
    var k := FirstIndex(s, {'.'});
    SplitAtPoint(s);
    if k < |s| {
      var whole, fraction := s[..k], s[k + 1..];
      ConcatDigits(whole, fraction);
      DigitsHaveNoDots(fraction);
      NoDots(fraction);
    } else {
      assert s[..k] + "" == s;
    }
  }

  function SignLength(head: string): nat {
    if head != "" && head[0] == '-' then 1 else 0
  }

  /** Characters needed for `n` digits with the point at `position`: a leading "0." and zeros, trailing
      zeros, or the point itself. */
  function PlainLength(n: nat, position: int): int {
    if position <= 0 then 2 - position + n
    else if position >= n then position
    else n + 1
  }

  lemma PlaceLength(digits: string, position: int)
    ensures |Place(digits, position)| == PlainLength(|digits|, position)
  {
  }

  /** A number in scientific notation with `n` digits is left unexpanded exactly when the shifted point
      does not fit the 32-bit range, or the sign and the plain form need more than 32 characters. */
  lemma ExpansionFailsIff(value: string)
    requires ReadScientific(value).Some?
    ensures var head := value[..FirstIndex(value, {'e', 'E'})];
            var position := PointPosition(value);
            ExpandScientificDecimal(value).None? <==>
              || FirstIndex(Unsigned(head), {'.'}) > I32_MAX
              || !(I32_MIN < position <= I32_MAX)
              || SignLength(head) + PlainLength(|WithoutDots(Unsigned(head))|, position) > 32
  {
    PlaceLength(WithoutDots(Unsigned(value[..FirstIndex(value, {'e', 'E'})])), PointPosition(value));
    hide FirstIndex, ParseI32, WithoutDots, ReadUnsigned, Place, Times, Pow10;
    var e := FirstIndex(value, {'e', 'E'});
    var head := value[..e];
    ReadableDigits(Unsigned(head));
    assert head != "" && head[0] == '-' ==> head[1..] == value[1..e];
  }
}

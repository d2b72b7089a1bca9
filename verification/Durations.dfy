/** Duration labels and the offset time codec of the LLM document. */
module Durations {
  import opened Wrappers
  import opened Numerals

  const NANOS_PER_SECOND: nat := 1_000_000_000
  const I64_MAX: nat := 0x7FFF_FFFF_FFFF_FFFF
  const U64_MAX: nat := 0xFFFF_FFFF_FFFF_FFFF

  datatype Unit = Unit(suffix: string, nanos: nat)

  /** Suffixes in the order the parser tries them. */
  const PARSE_UNITS: seq<Unit> := [
    Unit("ns", 1), Unit("us", 1_000), Unit("ms", 1_000_000), Unit("s", NANOS_PER_SECOND),
    Unit("m", 60 * NANOS_PER_SECOND), Unit("h", 3600 * NANOS_PER_SECOND), Unit("d", 86400 * NANOS_PER_SECOND)]

  /** Units in the order the formatter tries them. */
  const FORMAT_UNITS: seq<Unit> := [
    Unit("d", 86400 * NANOS_PER_SECOND), Unit("h", 3600 * NANOS_PER_SECOND), Unit("m", 60 * NANOS_PER_SECOND),
    Unit("s", NANOS_PER_SECOND), Unit("ms", 1_000_000), Unit("us", 1_000), Unit("ns", 1)]

  predicate EndsWith(s: string, suffix: string) {
    |suffix| <= |s| && s[|s| - |suffix|..] == suffix
  }

  /** The first unit whose suffix follows a non-empty rest. */
  function FindUnit(s: string, units: seq<Unit>): (r: Option<(string, nat)>)
    decreases |units|
  {
    if units == [] then None
    else if EndsWith(s, units[0].suffix) && |s| > |units[0].suffix| then
      Some((s[..|s| - |units[0].suffix|], units[0].nanos))
    else FindUnit(s, units[1..])
  }

  /** An unsigned 64-bit numeral with an optional plus sign. */
  function ParseU64(s: string): Option<nat> {
    var digits := if s != "" && s[0] == '+' then s[1..] else s;
    if digits == "" || !AllDigits(digits) || ValueOf(digits) > U64_MAX then None else Some(ValueOf(digits))
  }

  function ParseDuration(s: string): Option<nat> {
    match FindUnit(s, PARSE_UNITS)
    case None => None
    case Some((number, multiplier)) =>
      match ParseU64(number)
      case None => None
      case Some(n) =>
        if n * multiplier > U64_MAX || n * multiplier == 0 || n * multiplier > I64_MAX then None
        else Some(n * multiplier)
  }

  /** The largest unit that divides the value. */
  function BestUnit(value: nat, units: seq<Unit>): (u: Unit)
    requires units != [] && (forall i :: 0 <= i < |units| ==> units[i].nanos >= 1) && units[|units| - 1].nanos == 1
    ensures u in units && u.nanos >= 1 && value % u.nanos == 0
    decreases |units|
  {
    if value % units[0].nanos == 0 then units[0] else BestUnit(value, units[1..])
  }

  function FormatDuration(value: nat): string {
    var u := BestUnit(value, FORMAT_UNITS);
    Decimal(value / u.nanos) + u.suffix
  }

  // ---- the parser inverts the formatter ----

  /** Suffixes are one or two lower-case letters and determine their unit. */
  lemma SuffixShape(u: Unit, v: Unit)
    requires u in PARSE_UNITS && v in PARSE_UNITS
    ensures 1 <= |u.suffix| <= 2 && !IsDigit(u.suffix[0])
    ensures u.suffix == v.suffix ==> u == v
  {
  }

  lemma OtherSuffix(number: string, u: Unit, v: Unit)
    requires number != "" && AllDigits(number) && u in PARSE_UNITS && v in PARSE_UNITS && u != v
    requires |v.suffix| >= |u.suffix|
    ensures !EndsWith(number + u.suffix, v.suffix)
  {
    hide *;
    SuffixShape(u, v);
    SuffixShape(v, u);
    LongerSuffix(number, u.suffix, v.suffix);
  }

  lemma LongerSuffix(number: string, u: string, v: string)
    requires number != "" && AllDigits(number) && 1 <= |u| <= |v| <= 2 && u != v && !IsDigit(v[0])
    ensures !EndsWith(number + u, v)
  {
    var s := number + u;
    if |v| == |u| {
      assert s[|s| - |v|..] == u;
    } else {
      assert s[|s| - 2..][0] == number[|number| - 1];
      assert IsDigit(number[|number| - 1]);
    }
  }

  /** The parser tries two-letter suffixes first, so it finds the one that was printed. */
  lemma {:induction false} UnitFound(number: string, u: Unit, units: seq<Unit>)
    requires number != "" && AllDigits(number) && u in units
    requires forall v :: v in units ==> v in PARSE_UNITS
    requires forall i, j :: 0 <= i < j < |units| ==> |units[i].suffix| >= |units[j].suffix|
    ensures FindUnit(number + u.suffix, units) == Some((number, u.nanos))
    decreases |units|
  {
    hide PARSE_UNITS;
    var s, first := number + u.suffix, units[0];
    if first == u {
      assert s[|s| - |first.suffix|..] == u.suffix && s[..|s| - |first.suffix|] == number;
    } else {
      assert first in units;
      var i :| 0 <= i < |units| && units[i] == u;
      OtherSuffix(number, u, first);
      var rest := units[1..];
      assert rest[i - 1] == u;
      assert forall k :: 0 <= k < |rest| ==> rest[k] == units[k + 1];
      UnitFound(number, u, rest);
    }
  }

  lemma FormatUnitIsParsed(u: Unit)
    requires u in FORMAT_UNITS
    ensures u in PARSE_UNITS
  {
  }

  lemma ParseUnitsOrdered()
    ensures forall i, j :: 0 <= i < j < |PARSE_UNITS| ==> |PARSE_UNITS[i].suffix| >= |PARSE_UNITS[j].suffix|
  {
  }

  lemma WholeUnits(value: nat, nanos: nat)
    requires nanos >= 1 && value % nanos == 0
    ensures (value / nanos) * nanos == value && value / nanos <= value
  {
    var q := value / nanos;
    assert q * nanos == value;
    if q > value {
      TimesAtLeast(q, nanos);
    }
  }

  lemma TimesAtLeast(q: nat, n: nat)
    requires n >= 1
    ensures q * n >= q
  {
  }

  /** Every duration the program accepts prints to a label that parses back to it. */
  lemma LabelReadsBack(value: nat)
    requires 1 <= value <= I64_MAX
    ensures ParseDuration(FormatDuration(value)) == Some(value)
  {
    hide *;
    var u, n := Formatted(value);
    ParseUnitsOrdered();
    UnitFound(Decimal(n), u, PARSE_UNITS);
    NumberReadsBack(n);
    ParsedProduct(FormatDuration(value), Decimal(n), n, u.nanos, value);
  }

  /** A number with the suffix of a unit is that many units, and refused when it is no time or too long. */
  lemma LabelParsesIff(n: nat, u: Unit)
    requires u in PARSE_UNITS
    ensures ParseDuration(Decimal(n) + u.suffix) == if 1 <= n * u.nanos <= I64_MAX then Some(n * u.nanos) else None
  {
    hide *;
    ParseUnitsOrdered();
    UnitFound(Decimal(n), u, PARSE_UNITS);
    AnyNumberReadsBack(n);
    UnitIsPositive(u);
    TimesAtLeast(n, u.nanos);
    ParsedOr(Decimal(n) + u.suffix, Decimal(n), n, u.nanos);
  }

  lemma UnitIsPositive(u: Unit)
    requires u in PARSE_UNITS
    ensures u.nanos >= 1
  {
  }

  lemma AnyNumberReadsBack(n: nat)
    ensures ParseU64(Decimal(n)) == if n <= U64_MAX then Some(n) else None
  {
    hide Decimal, ValueOf;
    DecimalReadsBack(n);
    assert IsDigit(Decimal(n)[0]);
  }

  lemma ParsedOr(s: string, number: string, n: nat, multiplier: nat)
    requires FindUnit(s, PARSE_UNITS) == Some((number, multiplier))
    requires ParseU64(number) == (if n <= U64_MAX then Some(n) else None) && n * multiplier >= n
    ensures ParseDuration(s) == if 1 <= n * multiplier <= I64_MAX then Some(n * multiplier) else None
  {
    hide FindUnit, ParseU64, PARSE_UNITS;
  }

  lemma Formatted(value: nat) returns (u: Unit, n: nat)
    ensures u in PARSE_UNITS && n <= value && n * u.nanos == value
    ensures FormatDuration(value) == Decimal(n) + u.suffix
  {
    hide Decimal, BestUnit;
    u := BestUnit(value, FORMAT_UNITS);
    FormatUnitIsParsed(u);
    n := value / u.nanos;
    hide FORMAT_UNITS, PARSE_UNITS;
    WholeUnits(value, u.nanos);
  }

  lemma {:induction false} BestUnitIsCoarsest(value: nat, units: seq<Unit>, v: Unit)
    requires units != [] && (forall i :: 0 <= i < |units| ==> units[i].nanos >= 1) && units[|units| - 1].nanos == 1
    requires forall i, j :: 0 <= i < j < |units| ==> units[i].nanos >= units[j].nanos
    requires v in units && value % v.nanos == 0
    ensures v.nanos <= BestUnit(value, units).nanos
    decreases |units|
  {
    if value % units[0].nanos != 0 {
      BestUnitIsCoarsest(value, units[1..], v);
    }
  }

  lemma FormatUnitsDescend()
    ensures FORMAT_UNITS != [] && forall i :: 0 <= i < |FORMAT_UNITS| ==> FORMAT_UNITS[i].nanos >= 1
    ensures FORMAT_UNITS[|FORMAT_UNITS| - 1].nanos == 1
    ensures forall i, j :: 0 <= i < j < |FORMAT_UNITS| ==> FORMAT_UNITS[i].nanos >= FORMAT_UNITS[j].nanos
    ensures forall nanos :: nanos in CALENDAR_UNITS ==> exists u :: u in FORMAT_UNITS && u.nanos == nanos
  {
    assert FORMAT_UNITS[0] in FORMAT_UNITS && FORMAT_UNITS[1] in FORMAT_UNITS && FORMAT_UNITS[2] in FORMAT_UNITS;
    assert FORMAT_UNITS[3] in FORMAT_UNITS && FORMAT_UNITS[4] in FORMAT_UNITS && FORMAT_UNITS[5] in FORMAT_UNITS;
    assert FORMAT_UNITS[6] in FORMAT_UNITS;
  }

  /** A day, an hour, a minute, a second, a milli-, a micro- and a nanosecond. */
  const CALENDAR_UNITS: set<nat> := {86_400_000_000_000, 3_600_000_000_000, 60_000_000_000, 1_000_000_000, 1_000_000,
                                     1_000, 1}

  /** The label is in the coarsest unit that divides the value. */
  lemma LabelIsCoarsest(value: nat, nanos: nat)
    requires nanos in CALENDAR_UNITS && value % nanos == 0
    ensures exists u :: u in PARSE_UNITS && nanos <= u.nanos && value % u.nanos == 0
                     && FormatDuration(value) == Decimal(value / u.nanos) + u.suffix
  {
    hide Decimal, BestUnit, FORMAT_UNITS, CALENDAR_UNITS;
    FormatUnitsDescend();
    var v :| v in FORMAT_UNITS && v.nanos == nanos;
    BestUnitIsCoarsest(value, FORMAT_UNITS, v);
    FormatUnitIsParsed(BestUnit(value, FORMAT_UNITS));
  }

  lemma ParsedProduct(s: string, number: string, n: nat, multiplier: nat, value: nat)
    requires FindUnit(s, PARSE_UNITS) == Some((number, multiplier)) && ParseU64(number) == Some(n)
    requires n * multiplier == value && 1 <= value <= I64_MAX
    ensures ParseDuration(s) == Some(value)
  {
    hide FindUnit, ParseU64, PARSE_UNITS;
  }

  lemma NumberReadsBack(n: nat)
    requires n <= I64_MAX
    ensures ParseU64(Decimal(n)) == Some(n)
  {
    hide Decimal, ValueOf;
    DecimalReadsBack(n);
    assert IsDigit(Decimal(n)[0]);
  }

  // ---- offsets ----

  function TruncDiv(a: int, b: int): int
    requires b > 0
  {
    if a >= 0 then a / b else -((-a) / b)
  }

  predicate Aligned(reference: int, timestamps: seq<int>, unit: int) {
    unit > 0 && forall i :: 0 <= i < |timestamps| ==> (timestamps[i] - reference) % unit == 0
  }

  const CANDIDATES: seq<int> := [86400 * NANOS_PER_SECOND, 3600 * NANOS_PER_SECOND, 60 * NANOS_PER_SECOND,
                                 NANOS_PER_SECOND, 1_000_000, 1_000, 1]

  function FirstAligned(reference: int, timestamps: seq<int>, units: seq<int>): (u: int)
    requires forall x :: x in units ==> 1 <= x <= I64_MAX
    ensures 1 <= u <= I64_MAX && Aligned(reference, timestamps, u)
  {
    if units == [] then 1
    else if Aligned(reference, timestamps, units[0]) then
      assert units[0] in units;
      units[0]
    else
      assert forall x :: x in units[1..] ==> x in units;
      FirstAligned(reference, timestamps, units[1..])
  }

  /** The bar period if all timestamps lie on its grid, else the coarsest calendar unit they lie on. */
  function OffsetUnit(period: Option<int>, reference: int, timestamps: seq<int>): (u: int)
    requires period.Some? ==> period.value <= I64_MAX
    ensures 1 <= u <= I64_MAX && Aligned(reference, timestamps, u)
  {
    if period.Some? && Aligned(reference, timestamps, period.value) then period.value
    else FirstAligned(reference, timestamps, CANDIDATES)
  }

  lemma {:induction false} FirstAlignedIsCoarsest(reference: int, timestamps: seq<int>, units: seq<int>, v: int)
    requires forall x :: x in units ==> 1 <= x <= I64_MAX
    requires forall i, j :: 0 <= i < j < |units| ==> units[i] >= units[j]
    requires v in units && Aligned(reference, timestamps, v)
    ensures v <= FirstAligned(reference, timestamps, units)
    decreases |units|
  {
    hide Aligned;
    if !Aligned(reference, timestamps, units[0]) {
      assert forall x :: x in units[1..] ==> x in units;
      FirstAlignedIsCoarsest(reference, timestamps, units[1..], v);
    }
  }

  /** Offsets are counted in the bar period if all timestamps lie on its grid, else in the coarsest calendar
      unit whose grid they lie on. */
  lemma OffsetUnitIsCoarsest(period: Option<int>, reference: int, timestamps: seq<int>, v: int)
    requires period.Some? ==> period.value <= I64_MAX
    requires v >= 0 && v in CALENDAR_UNITS && Aligned(reference, timestamps, v)
    ensures if period.Some? && Aligned(reference, timestamps, period.value)
            then OffsetUnit(period, reference, timestamps) == period.value
            else
              && v <= OffsetUnit(period, reference, timestamps)
              && OffsetUnit(period, reference, timestamps) in CALENDAR_UNITS
  {
    hide Aligned, FirstAligned;
    CandidatesAreCalendarUnits();
    FirstAlignedIsCoarsest(reference, timestamps, CANDIDATES, v);
    FirstAlignedIsListed(reference, timestamps, CANDIDATES);
  }

  lemma {:induction false} FirstAlignedIsListed(reference: int, timestamps: seq<int>, units: seq<int>)
    requires forall x :: x in units ==> 1 <= x <= I64_MAX
    ensures FirstAligned(reference, timestamps, units) in units || FirstAligned(reference, timestamps, units) == 1
  {
    hide Aligned;
    if units != [] && !Aligned(reference, timestamps, units[0]) {
      assert forall x :: x in units[1..] ==> x in units;
      FirstAlignedIsListed(reference, timestamps, units[1..]);
    }
  }

  lemma CandidatesAreCalendarUnits()
    ensures forall x :: x in CANDIDATES ==> 1 <= x <= I64_MAX && x in CALENDAR_UNITS
    ensures forall v :: v in CALENDAR_UNITS ==> v in CANDIDATES
    ensures forall i, j :: 0 <= i < j < |CANDIDATES| ==> CANDIDATES[i] >= CANDIDATES[j]
  {
    assert CANDIDATES[0] in CANDIDATES && CANDIDATES[1] in CANDIDATES && CANDIDATES[2] in CANDIDATES;
    assert CANDIDATES[3] in CANDIDATES && CANDIDATES[4] in CANDIDATES && CANDIDATES[5] in CANDIDATES;
    assert CANDIDATES[6] in CANDIDATES;
  }

  function SignedDecimal(n: int): string {
    if n < 0 then "-" + Decimal(-n) else Decimal(n)
  }

  function ReadSigned(s: string): Option<int> {
    if s != "" && s[0] == '-' then
      if s[1..] != "" && AllDigits(s[1..]) then Some(-(ValueOf(s[1..]) as int)) else None
    else if s != "" && AllDigits(s) then Some(ValueOf(s)) else None
  }

  lemma SignedReadsBack(n: int)
    ensures ReadSigned(SignedDecimal(n)) == Some(n)
  {
    hide ValueOf, Decimal;
    if n < 0 {
      DecimalReadsBack(-n);
      assert SignedDecimal(n)[1..] == Decimal(-n);
    } else {
      DecimalReadsBack(n);
      assert IsDigit(Decimal(n)[0]);
    }
  }

  function Offset(t: int, reference: int, unit: int): string
    requires unit > 0
  {
    SignedDecimal(TruncDiv(t - reference, unit))
  }

  lemma ExactDivision(a: int, unit: int)
    requires unit > 0 && a % unit == 0
    ensures TruncDiv(a, unit) * unit == a
  {
    if a < 0 {
      assert (-a) % unit == 0 by { NegatedMultiple(a, unit); }
    }
  }

  lemma NegatedMultiple(a: int, unit: int)
    requires unit > 0 && a % unit == 0
    ensures (-a) % unit == 0
  {
    var q := a / unit;
    assert a == q * unit;
    assert -a == (-q) * unit;
    MultipleRemainder(-q, unit);
  }

  lemma MultipleRemainder(q: int, unit: int)
    requires unit > 0
    ensures (q * unit) % unit == 0
  {
    var k := (q * unit) / unit;
    var r := (q * unit) % unit;
    assert q * unit == k * unit + r;
    assert (q - k) * unit == r;
    if q - k >= 1 { Scale(q - k, unit); }
    if q - k <= -1 { Scale(k - q, unit); }
  }

  lemma Scale(n: int, unit: int)
    requires n >= 1 && unit > 0
    ensures n * unit >= unit
    ensures (-n) * unit <= -unit
  {
  }

  /** From the reference, the printed unit label and a printed offset, a reader recovers every timestamp
      of the block exactly. */
  lemma TimestampsAreRecovered(period: Option<int>, reference: int, timestamps: seq<int>, i: nat)
    requires period.Some? ==> period.value <= I64_MAX
    requires i < |timestamps|
    ensures var unit := OffsetUnit(period, reference, timestamps);
            var parsed := ParseDuration(FormatDuration(unit));
            var offset := ReadSigned(Offset(timestamps[i], reference, unit));
            parsed.Some? && offset.Some? && reference + offset.value * parsed.value == timestamps[i]
  {
    hide ParseDuration, FormatDuration, ReadSigned, SignedDecimal;
    var unit := OffsetUnit(period, reference, timestamps);
    LabelReadsBack(unit);
    SignedReadsBack(TruncDiv(timestamps[i] - reference, unit));
    ExactDivision(timestamps[i] - reference, unit);
  }
}

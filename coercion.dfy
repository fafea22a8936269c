/** Datatype coercion of pycmdparse/abstract_opt.py: `_validate_datatype`
    and the date parser `_parse_date`, over the values an option can hold. */
module Coercion {
  import opened Wrappers
  import opened Strings

  /** A `datetime.datetime` at midnight. */
  datatype DateTime = DateTime(year: int, month: int, day: int)

  /** The Python values an option holds: YAML defaults, raw tokens and
      their coerced forms. A float is kept as its source text. */
  datatype Value =
    | VNone
    | VBool(b: bool)
    | VInt(i: int)
    | VDecimal(text: string)
    | VDate(date: DateTime)
    | VStr(s: string)
    | VList(items: seq<Value>)

  /** `DataTypeEnum`: INT, DECIMAL, DATE and BOOL. */
  datatype DataType = Int | Decimal | Date | Bool

  /** `DataTypeEnum.tostr`, spelled as the YAML keyword of each type. */
  function DataTypeName(t: DataType): string {
    match t
    case Int => "int"
    case Decimal => "decimal"
    case Date => "date"
    case Bool => "bool"
  }

  // ---------------------------------------------------------------------
  // int()

  /** `int(s)` for a string: an optional sign and at least one ASCII digit. */
  function ParseInt(s: string): Option<int> {
    if |s| > 0 && (s[0] == '+' || s[0] == '-') then
      if |s| > 1 && AllDigits(s[1..]) then
        var n: int := DigitsValue(s[1..]);
        Some(if s[0] == '-' then -n else n)
      else None
    else if |s| > 0 && AllDigits(s) then Some(DigitsValue(s))
    else None
  }

  /** `int(str(i)) == i`. */
  lemma ParseIntOfString(i: int)
    ensures ParseInt(IntToString(i)) == Some(i)
  {
    if i < 0 {
      NegativeParses(i);
    } else {
      NatToStringValue(i);
    }
  }

  lemma NegativeParses(i: int)
    requires i < 0
    ensures ParseInt(IntToString(i)) == Some(i)
  {
    var t := NatToString(-i);
    NatToStringValue(-i);
    var s := "-" + t;
    assert s[0] == '-' && s[1..] == t;
    assert ParseInt(s) == Some(i);
  }

  // ---------------------------------------------------------------------
  // float()

  function DigitEnd(s: string, from: nat): (k: nat)
    requires from <= |s|
    decreases |s| - from
    ensures from <= k <= |s|
    ensures k < |s| ==> !IsDigit(s[k])
    ensures forall i :: from <= i < k ==> IsDigit(s[i])
  {
    if from == |s| || !IsDigit(s[from]) then from else DigitEnd(s, from + 1)
  }

  lemma {:induction false} DigitEndIs(s: string, from: nat, k: nat)
    requires from <= k <= |s|
    requires k < |s| ==> !IsDigit(s[k])
    requires forall i :: from <= i < k ==> IsDigit(s[i])
    ensures DigitEnd(s, from) == k
    decreases k - from
  {
    if from < k {
      DigitEndIs(s, from + 1, k);
    }
  }

  /** An exponent `e`/`E`, an optional sign and digits, filling `s[from..]`. */
  predicate ExponentTail(s: string, from: nat)
    requires from <= |s|
  {
    if from == |s| then true
    else if s[from] != 'e' && s[from] != 'E' then false
    else
      var j := if from + 1 < |s| && (s[from + 1] == '+' || s[from + 1] == '-') then from + 2 else from + 1;
      j < |s| && DigitEnd(s, j) == |s|
  }

  /** Decimal literal text accepted by `float()`: an optional sign, digits
      with at most one `.` and at least one digit, an optional exponent. */
  predicate IsDecimalText(s: string) {
    var i := if |s| > 0 && (s[0] == '+' || s[0] == '-') then 1 else 0;
    i <= |s| &&
    var a := DigitEnd(s, i);
    if a < |s| && s[a] == '.' then
      var b := DigitEnd(s, a + 1);
      (a > i || b > a + 1) && ExponentTail(s, b)
    else
      a > i && ExponentTail(s, a)
  }

  // ---------------------------------------------------------------------
  // _parse_date

  predicate IsSep(c: char) {
    c == '-' || c == '/' || c == '.'
  }

  /** The three digit fields and two separators matched by one of the two
      date regexes; `newline` when `$` matched before a final line feed. */
  datatype DateShape = DateShape(first: string, sep1: char, second: string, sep2: char, third: string, newline: bool)

  /** `^[0-9]{lo1,hi1}([-/.])[0-9]{1,2}([-/.])[0-9]{lo3,hi3}$`. Digits and
      separators are disjoint, so each field is a maximal run of digits. */
  function MatchShape(s: string, lo1: nat, hi1: nat, lo3: nat, hi3: nat): (r: Option<DateShape>)
    ensures r.Some? ==> AllDigits(r.value.first) && AllDigits(r.value.second) && AllDigits(r.value.third)
    ensures r.Some? ==> lo1 <= |r.value.first| <= hi1 && 1 <= |r.value.second| <= 2 && lo3 <= |r.value.third| <= hi3
    ensures r.Some? ==> IsSep(r.value.sep1) && IsSep(r.value.sep2)
  {
    var a := DigitEnd(s, 0);
    if !(lo1 <= a <= hi1) || a >= |s| || !IsSep(s[a]) then None
    else
      var b := DigitEnd(s, a + 1);
      if !(1 <= b - (a + 1) <= 2) || b >= |s| || !IsSep(s[b]) then None
      else
        var c := DigitEnd(s, b + 1);
        if !(lo3 <= c - (b + 1) <= hi3) then None
        else if c == |s| || (c == |s| - 1 && s[c] == '\n') then
          var sh := DateShape(s[..a], s[a], s[a + 1..b], s[b], s[b + 1..c], c < |s|);
          assert forall i :: 0 <= i < |sh.third| ==> sh.third[i] == s[b + 1 + i];
          Some(sh)
        else None
  }

  /** A matched shape is the whole text: the fields and separators in
      order, then the line feed `$` let through. */
  lemma MatchShapeParts(s: string, lo1: nat, hi1: nat, lo3: nat, hi3: nat)
    requires MatchShape(s, lo1, hi1, lo3, hi3).Some?
    ensures var sh := MatchShape(s, lo1, hi1, lo3, hi3).value;
      s == sh.first + [sh.sep1] + sh.second + [sh.sep2] + sh.third + (if sh.newline then "\n" else "")
  {
    var a := DigitEnd(s, 0);
    var b := DigitEnd(s, a + 1);
    var c := DigitEnd(s, b + 1);
    assert MatchShape(s, lo1, hi1, lo3, hi3).value == DateShape(s[..a], s[a], s[a + 1..b], s[b], s[b + 1..c], c < |s|);
    assert s[c..] == (if c < |s| then "\n" else "");
    SplitAt(s, a, b, c);
  }

  lemma SplitAt(s: string, a: nat, b: nat, c: nat)
    requires a < b < c <= |s|
    ensures s == s[..a] + [s[a]] + s[a + 1..b] + [s[b]] + s[b + 1..c] + s[c..]
  {
    assert s == s[..a] + s[a..b] + s[b..c] + s[c..];
  }

  predicate IsLeap(y: int) {
    (y % 4 == 0 && y % 100 != 0) || y % 400 == 0
  }

  function DaysInMonth(y: int, m: int): int
    requires 1 <= m <= 12
  {
    if m == 2 then (if IsLeap(y) then 29 else 28)
    else if m == 4 || m == 6 || m == 9 || m == 11 then 30
    else 31
  }

  /** A date `datetime` can represent. */
  predicate IsValidDate(d: DateTime) {
    1 <= d.year && 1 <= d.month <= 12 && 1 <= d.day <= DaysInMonth(d.year, d.month)
  }

  datatype DateOutcome =
    | DateValue(date: DateTime)  // strptime returned a datetime
    | NoShape                    // neither regex matched: _parse_date returns None
    | Rejected                   // strptime raised ValueError

  /** `datetime.strptime(value, "%Y<s1>%m<s2>%d")` (year first) or
      `"%m<s1>%d<s2>%Y"` on a matched shape: `%Y` takes exactly four digits,
      `%m` a month from 1 to 12, `%d` a day from 1 to 31; no text may be
      left over; the day must exist in its month. */
  function Strptime(sh: DateShape, yearFirst: bool): (r: DateOutcome)
    requires AllDigits(sh.first) && AllDigits(sh.second) && AllDigits(sh.third)
    ensures r.DateValue? ==> IsValidDate(r.date) && r.date.year <= 9999
    ensures r != NoShape
  {
    var ytext := if yearFirst then sh.first else sh.third;
    var mtext := if yearFirst then sh.second else sh.first;
    var dtext := if yearFirst then sh.third else sh.second;
    if sh.newline || |ytext| != 4 then Rejected
    else
      var y, m, d := DigitsValue(ytext), DigitsValue(mtext), DigitsValue(dtext);
      FourDigitsBound(ytext);
      if !(1 <= m <= 12) || !(1 <= d <= 31) then Rejected
      else if !IsValidDate(DateTime(y, m, d)) then Rejected
      else DateValue(DateTime(y, m, d))
  }

  function Pow10(n: nat): nat {
    if n == 0 then 1 else 10 * Pow10(n - 1)
  }

  lemma {:induction false} DigitsValueBound(s: string)
    requires AllDigits(s)
    ensures DigitsValue(s) < Pow10(|s|)
  {
    if s != [] {
      DigitsValueBound(s[..|s| - 1]);
    }
  }

  lemma FourDigitsBound(s: string)
    requires AllDigits(s) && |s| == 4
    ensures DigitsValue(s) <= 9999
  {
    DigitsValueBound(s);
  }

  /** `_parse_date`: the year-first shape is tried first, and when it
      matches strptime's verdict is final; otherwise the month-first shape. */
  function ParseDate(s: string): (r: DateOutcome)
    ensures r.DateValue? ==> IsValidDate(r.date) && r.date.year <= 9999
  {
    match MatchShape(s, 2, 4, 1, 2)
    case Some(sh) => Strptime(sh, true)
    case None =>
      match MatchShape(s, 1, 2, 2, 4)
      case Some(sh) => Strptime(sh, false)
      case None => NoShape
  }

  /** `$` lets a trailing line feed through the shape check, but strptime
      then finds unconverted data: such text never yields a date. */
  lemma TrailingNewlineRejected(s: string)
    ensures !ParseDate(s + "\n").DateValue?
  {
  }

  /** On three digit fields joined by two separators, the shape test
      comes down to the field widths. */
  lemma ShapeOf(first: string, sep1: char, second: string, sep2: char, third: string,
                lo1: nat, hi1: nat, lo3: nat, hi3: nat)
    requires AllDigits(first) && AllDigits(second) && AllDigits(third) && IsSep(sep1) && IsSep(sep2)
    ensures MatchShape(first + [sep1] + second + [sep2] + third, lo1, hi1, lo3, hi3)
            == if lo1 <= |first| <= hi1 && 1 <= |second| <= 2 && lo3 <= |third| <= hi3
               then Some(DateShape(first, sep1, second, sep2, third, false))
               else None
  {
    var s := first + [sep1] + second + [sep2] + third;
    var a, b := |first|, |first| + 1 + |second|;
    RunsOf(first, sep1, second, sep2, third);
    FieldsOf(first, sep1, second, sep2, third);
    MatchShapeAt(s, lo1, hi1, lo3, hi3, a, b);
  }

  lemma RunsOf(first: string, sep1: char, second: string, sep2: char, third: string)
    requires AllDigits(first) && AllDigits(second) && AllDigits(third) && IsSep(sep1) && IsSep(sep2)
    ensures var s, a := first + [sep1] + second + [sep2] + third, |first|;
      DigitEnd(s, 0) == a && DigitEnd(s, a + 1) == a + 1 + |second| && DigitEnd(s, a + 2 + |second|) == |s|
  {
    var s := first + [sep1] + second + [sep2] + third;
    var tail := [sep1] + second + [sep2] + third;
    assert s == first + tail;
    FirstRun(first, tail);
    var head, rest := first + [sep1], [sep2] + third;
    assert s == head + second + rest;
    MiddleRun(head, second, rest);
    LastRun(first + [sep1] + second + [sep2], third);
  }

  lemma FirstRun(run: string, y: string)
    requires AllDigits(run) && |y| > 0 && !IsDigit(y[0])
    ensures DigitEnd(run + y, 0) == |run|
  {
    assert run + y == [] + run + y;
    DigitEndAcross([], run, y);
  }

  lemma MiddleRun(x: string, run: string, y: string)
    requires AllDigits(run) && |y| > 0 && !IsDigit(y[0])
    ensures DigitEnd(x + run + y, |x|) == |x| + |run|
  {
    DigitEndAcross(x, run, y);
  }

  lemma LastRun(x: string, run: string)
    requires AllDigits(run)
    ensures DigitEnd(x + run, |x|) == |x + run|
  {
    assert x + run == x + run + [];
    DigitEndAcross(x, run, []);
  }

  lemma FieldsOf(first: string, sep1: char, second: string, sep2: char, third: string)
    ensures var s, a, b := first + [sep1] + second + [sep2] + third, |first|, |first| + 1 + |second|;
      s[..a] == first && s[a] == sep1 && s[a + 1..b] == second && s[b] == sep2 && s[b + 1..] == third
  {
  }

  /** The shape test once the three digit runs are located. */
  lemma MatchShapeAt(s: string, lo1: nat, hi1: nat, lo3: nat, hi3: nat, a: nat, b: nat)
    requires a < b < |s| && IsSep(s[a]) && IsSep(s[b])
    requires DigitEnd(s, 0) == a && DigitEnd(s, a + 1) == b && DigitEnd(s, b + 1) == |s|
    ensures MatchShape(s, lo1, hi1, lo3, hi3)
            == if lo1 <= a <= hi1 && 1 <= b - (a + 1) <= 2 && lo3 <= |s| - (b + 1) <= hi3
               then Some(DateShape(s[..a], s[a], s[a + 1..b], s[b], s[b + 1..], false))
               else None
  {
    if lo1 <= a <= hi1 && 1 <= b - (a + 1) <= 2 && lo3 <= |s| - (b + 1) <= hi3 {
      ShapeFits(s, lo1, hi1, lo3, hi3, a, b);
    }
  }

  lemma ShapeFits(s: string, lo1: nat, hi1: nat, lo3: nat, hi3: nat, a: nat, b: nat)
    requires a < b < |s| && IsSep(s[a]) && IsSep(s[b])
    requires DigitEnd(s, 0) == a && DigitEnd(s, a + 1) == b && DigitEnd(s, b + 1) == |s|
    requires lo1 <= a <= hi1 && 1 <= b - (a + 1) <= 2 && lo3 <= |s| - (b + 1) <= hi3
    ensures MatchShape(s, lo1, hi1, lo3, hi3) == Some(DateShape(s[..a], s[a], s[a + 1..b], s[b], s[b + 1..], false))
  {
    assert s[b + 1..|s|] == s[b + 1..];
  }

  /** A run of digits followed by a non-digit (or the end) ends where the
      run does. */
  lemma DigitEndAcross(x: string, run: string, y: string)
    requires AllDigits(run) && (|y| > 0 ==> !IsDigit(y[0]))
    ensures DigitEnd(x + run + y, |x|) == |x| + |run|
  {
    var s := x + run + y;
    assert forall i :: |x| <= i < |x| + |run| ==> s[i] == run[i - |x|];
    DigitEndIs(s, |x|, |x| + |run|);
  }

  /** A four-digit year written first is read year, month, day; the date
      is returned exactly when it exists. */
  lemma YearFirst(y: string, sep1: char, m: string, sep2: char, d: string)
    requires AllDigits(y) && AllDigits(m) && AllDigits(d) && IsSep(sep1) && IsSep(sep2)
    requires |y| == 4 && 1 <= |m| <= 2 && 1 <= |d| <= 2
    ensures var date := DateTime(DigitsValue(y), DigitsValue(m), DigitsValue(d));
      ParseDate(y + [sep1] + m + [sep2] + d) == if IsValidDate(date) then DateValue(date) else Rejected
  {
    ShapeOf(y, sep1, m, sep2, d, 2, 4, 1, 2);
  }

  /** A four-digit year written last is read month, day, year: the
      year-first shape cannot match since its last field has at most two
      digits. */
  lemma MonthFirst(m: string, sep1: char, d: string, sep2: char, y: string)
    requires AllDigits(y) && AllDigits(m) && AllDigits(d) && IsSep(sep1) && IsSep(sep2)
    requires |y| == 4 && 1 <= |m| <= 2 && 1 <= |d| <= 2
    ensures var date := DateTime(DigitsValue(y), DigitsValue(m), DigitsValue(d));
      ParseDate(m + [sep1] + d + [sep2] + y) == if IsValidDate(date) then DateValue(date) else Rejected
  {
    ShapeOf(m, sep1, d, sep2, y, 2, 4, 1, 2);
    ShapeOf(m, sep1, d, sep2, y, 1, 2, 2, 4);
  }

  /** A two- or three-digit year passes the year-first regex, but `%Y`
      wants four digits: the text is rejected, and the month-first shape is
      never tried. */
  lemma ShortYearRejected(y: string, sep1: char, m: string, sep2: char, d: string)
    requires AllDigits(y) && AllDigits(m) && AllDigits(d) && IsSep(sep1) && IsSep(sep2)
    requires 2 <= |y| <= 3 && 1 <= |m| <= 2 && 1 <= |d| <= 2
    ensures ParseDate(y + [sep1] + m + [sep2] + d) == Rejected
  {
    ShapeOf(y, sep1, m, sep2, d, 2, 4, 1, 2);
  }

  // ---------------------------------------------------------------------
  // _validate_datatype

  /** `_validate_datatype(value)` with a data type set: the coerced value,
      or `None` for any failure (the source catches every exception). A
      BOOL data type has no branch and always gives `None`. */
  function Validate(t: DataType, v: Value): (r: Option<Value>)
    ensures r.Some? && t == Int ==> r.value.VInt?
    ensures r.Some? && t == Decimal ==> r.value.VDecimal?
    ensures r.Some? && t == Date ==> r.value.VDate? && IsValidDate(r.value.date)
    ensures t == Bool ==> r.None?
  {
    match t
    case Int =>
      (match v
       case VStr(s) => if ParseInt(s).Some? then Some(VInt(ParseInt(s).value)) else None
       case VInt(i) => Some(VInt(i))
       case VBool(b) => Some(VInt(if b then 1 else 0))
       case _ => None)
    case Decimal =>
      (match v
       case VStr(s) => if IsDecimalText(s) then Some(VDecimal(s)) else None
       case VDecimal(text) => Some(VDecimal(text))
       case VInt(i) => Some(VDecimal(IntToString(i) + ".0"))
       case VBool(b) => Some(VDecimal(if b then "1.0" else "0.0"))
       case _ => None)
    case Date =>
      (match v
       case VStr(s) => if ParseDate(s).DateValue? then Some(VDate(ParseDate(s).date)) else None
       case _ => None)
    case Bool => None
  }

  /** Coercing the text of an integer gives that integer back. */
  lemma ValidateIntText(i: int)
    ensures Validate(Int, VStr(IntToString(i))) == Some(VInt(i))
  {
    ParseIntOfString(i);
  }

  // ---------------------------------------------------------------------
  // str() of a value, as the error messages format it

  function Pad(n: nat, width: nat): (s: string)
    ensures |s| >= width
  {
    var digits := NatToString(n);
    if |digits| >= width then digits else Repeat('0', width - |digits|) + digits
  }

  function Repeat(c: char, n: nat): (s: string)
    ensures |s| == n
  {
    if n == 0 then "" else [c] + Repeat(c, n - 1)
  }

  function ValueText(v: Value): string
    decreases v, 1
  {
    match v
    case VNone => "None"
    case VBool(b) => if b then "True" else "False"
    case VInt(i) => IntToString(i)
    case VDecimal(text) => text
    case VDate(d) =>
      (if d.year >= 0 then Pad(d.year, 4) else IntToString(d.year)) + "-"
      + (if d.month >= 0 then Pad(d.month, 2) else IntToString(d.month)) + "-"
      + (if d.day >= 0 then Pad(d.day, 2) else IntToString(d.day)) + " 00:00:00"
    case VStr(s) => s
    case VList(items) => "[" + ItemsRepr(items) + "]"
  }

  function ItemsRepr(items: seq<Value>): string
    decreases items, 0
  {
    if items == [] then ""
    else
      var first := match items[0] case VStr(s) => "'" + s + "'" case _ => ValueText(items[0]);
      if |items| == 1 then first else first + ", " + ItemsRepr(items[1..])
  }
}

/** Dates in extracted fields and the order of a statement's period (app/services/validation/rules/temporal.py). */
module Dates {
  import opened Text
  import opened Validation

  datatype Date = Date(year: nat, month: nat, day: nat)

  /** The four formats `%Y-%m-%d`, `%d/%m/%Y`, `%d.%m.%Y` and `%m/%d/%Y`. */
  datatype Format = YearFirst | DaySlash | DayDot | MonthSlash

  const FORMATS := [YearFirst, DaySlash, DayDot, MonthSlash]

  function Separator(f: Format): char {
    match f
    case YearFirst => '-'
    case DayDot => '.'
    case _ => '/'
  }

  // ---------- The calendar ----------

  predicate Leap(year: nat) {
    year % 4 == 0 && (year % 100 != 0 || year % 400 == 0)
  }

  function DaysIn(year: nat, month: nat): nat {
    if month == 2 then (if Leap(year) then 29 else 28)
    else if month in {4, 6, 9, 11} then 30
    else 31
  }

  predicate ValidDate(d: Date) {
    1 <= d.year <= 9999 && 1 <= d.month <= 12 && 1 <= d.day <= DaysIn(d.year, d.month)
  }

  predicate Before(a: Date, b: Date) {
    a.year < b.year || (a.year == b.year && (a.month < b.month || (a.month == b.month && a.day < b.day)))
  }

  // ---------- The parts of a date, as `strptime` reads them ----------

  /** The value of a decimal digit of any script. */
  type Digits = char -> Option<nat>

  ghost predicate SoundDigits(digit: Digits) {
    && (forall c | '0' <= c <= '9' :: digit(c) == Some(c as int - '0' as int))
    && (forall c | digit(c).Some? :: digit(c).value <= 9)
    && digit('-').None? && digit('/').None? && digit('.').None?
  }

  function Ascii(c: char): nat
    requires '0' <= c <= '9'
  {
    c as int - '0' as int
  }

  /** `\d\d\d\d` */
  function YearOf(s: string, digit: Digits): Option<nat> {
    if |s| == 4 && digit(s[0]).Some? && digit(s[1]).Some? && digit(s[2]).Some? && digit(s[3]).Some?
    then Some(1000 * digit(s[0]).value + 100 * digit(s[1]).value + 10 * digit(s[2]).value + digit(s[3]).value)
    else None
  }

  /** `1[0-2]|0[1-9]|[1-9]` */
  function MonthOf(s: string): Option<nat> {
    if |s| == 2 && s[0] == '1' && '0' <= s[1] <= '2' then Some(10 + Ascii(s[1]))
    else if |s| == 2 && s[0] == '0' && '1' <= s[1] <= '9' then Some(Ascii(s[1]))
    else if |s| == 1 && '1' <= s[0] <= '9' then Some(Ascii(s[0]))
    else None
  }

  /** `3[0-1]|[1-2]\d|0[1-9]|[1-9]| [1-9]` */
  function DayOf(s: string, digit: Digits): Option<nat> {
    if |s| == 2 && s[0] == '3' && '0' <= s[1] <= '1' then Some(30 + Ascii(s[1]))
    else if |s| == 2 && '1' <= s[0] <= '2' && digit(s[1]).Some? then Some(10 * Ascii(s[0]) + digit(s[1]).value)
    else if |s| == 2 && s[0] in "0 " && '1' <= s[1] <= '9' then Some(Ascii(s[1]))
    else if |s| == 1 && '1' <= s[0] <= '9' then Some(Ascii(s[0]))
    else None
  }

  // ---------- Parsing ----------

  /** The first position of c at k or later, or the length. */
  function Index(s: string, c: char, k: nat): (i: nat)
    requires k <= |s|
    ensures k <= i <= |s| && (i < |s| ==> s[i] == c) && forall j | k <= j < i :: s[j] != c
    decreases |s| - k
  {
    if k == |s| || s[k] == c then k else Index(s, c, k + 1)
  }

  datatype Parts = Parts(first: string, second: string, third: string)

  /** What stands before, between and after the first two separators; the parts themselves have no separator. */
  function Split(s: string, c: char): Option<Parts> {
    var i := Index(s, c, 0);
    if i == |s| then None
    else
      var j := Index(s, c, i + 1);
      if j == |s| then None else Some(Parts(s[..i], s[i + 1..j], s[j + 1..]))
  }

  function MakeDate(year: Option<nat>, month: Option<nat>, day: Option<nat>): Option<Date> {
    if year.Some? && month.Some? && day.Some? && ValidDate(Date(year.value, month.value, day.value))
    then Some(Date(year.value, month.value, day.value))
    else None
  }

  /** `datetime.strptime(text, format).date()`; None for its ValueError. */
  function ParseAs(f: Format, text: string, digit: Digits): Option<Date> {
    var parts := Split(text, Separator(f));
    if parts.None? then None
    else
      var Parts(a, b, c) := parts.value;
      match f
      case YearFirst => MakeDate(YearOf(a, digit), MonthOf(b), DayOf(c, digit))
      case MonthSlash => MakeDate(YearOf(c, digit), MonthOf(a), DayOf(b, digit))
      case _ => MakeDate(YearOf(c, digit), MonthOf(b), DayOf(a, digit))
  }

  /** The date in the first of these formats that reads the text. */
  function FirstReading(formats: seq<Format>, text: string, digit: Digits): Option<Date> {
    if formats == [] then None
    else if ParseAs(formats[0], text, digit).Some? then ParseAs(formats[0], text, digit)
    else FirstReading(formats[1..], text, digit)
  }

  function DateOf(value: Field, digit: Digits): Option<Date> {
    if value.Words? then FirstReading(FORMATS, value.text, digit) else None
  }

  /** `_parse_date` */
  method ParseDate(value: Field, digit: Digits) returns (date: Option<Date>)
    ensures date == DateOf(value, digit)
  {
    if !value.Words? {
      return None;
    }
    var formats := FORMATS;
    assert formats[0..] == formats;
    for i := 0 to |formats|
      invariant FirstReading(formats, value.text, digit) == FirstReading(formats[i..], value.text, digit)
    {
      assert formats[i..][1..] == formats[i + 1..];
      date := ParseAs(formats[i], value.text, digit);
      if date.Some? {
        return;
      }
    }
    return None;
  }

  /** Whatever is read is a date of the calendar. */
  lemma {:induction false} ReadingsAreValid(formats: seq<Format>, text: string, digit: Digits)
    ensures FirstReading(formats, text, digit).Some? ==> ValidDate(FirstReading(formats, text, digit).value)
  {
    if formats != [] {
      ReadingsAreValid(formats[1..], text, digit);
    }
  }

  // ---------- Printing ----------

  function DigitChar(n: nat): char
    requires n <= 9
  {
    ('0' as int + n) as char
  }

  function TwoDigits(n: nat): string
    requires n <= 99
  {
    [DigitChar(n / 10), DigitChar(n % 10)]
  }

  function FourDigits(n: nat): string
    requires n <= 9999
  {
    TwoDigits(n / 100) + TwoDigits(n % 100)
  }

  function Joined(a: string, b: string, c: string, separator: char): string {
    a + [separator] + b + [separator] + c
  }

  /** The date in a format, month and day with two digits and the year with four. */
  function Print(f: Format, d: Date): string
    requires ValidDate(d)
  {
    var y, m, day := FourDigits(d.year), TwoDigits(d.month), TwoDigits(d.day);
    match f
    case YearFirst => Joined(y, m, day, Separator(f))
    case MonthSlash => Joined(m, day, y, Separator(f))
    case _ => Joined(day, m, y, Separator(f))
  }

  lemma SplitJoined(a: string, b: string, c: string, separator: char)
    requires Without(a, separator) && Without(b, separator)
    ensures Split(Joined(a, b, c, separator), separator) == Some(Parts(a, b, c))
  {
    var s := Joined(a, b, c, separator);
    var i, j := |a|, |a| + 1 + |b|;
    assert s[..i] == a && s[i + 1..j] == b && s[j + 1..] == c;
    assert s[i] == separator && s[j] == separator;
    assert forall k | 0 <= k < i :: s[k] == a[k];
    assert forall k | i + 1 <= k < j :: s[k] == b[k - i - 1];
  }

  /** Text without a separator is not in a format that needs it. */
  lemma OtherSeparator(a: string, b: string, c: string, used: char, needed: char)
    requires used != needed && Without(a, needed) && Without(b, needed) && Without(c, needed)
    ensures Split(Joined(a, b, c, used), needed).None?
  {}

  lemma PrintedYear(y: nat, digit: Digits)
    requires y <= 9999 && SoundDigits(digit)
    ensures YearOf(FourDigits(y), digit) == Some(y)
  {}

  lemma PrintedMonth(n: nat)
    requires n <= 99
    ensures MonthOf(TwoDigits(n)) == if 1 <= n <= 12 then Some(n) else None
  {}

  lemma PrintedDay(n: nat, digit: Digits)
    requires n <= 99 && SoundDigits(digit)
    ensures DayOf(TwoDigits(n), digit) == if 1 <= n <= 31 then Some(n) else None
  {}

  predicate IsSeparator(c: char) {
    c in "-/."
  }

  /** A printed date reads back in its own format, and not in one with another separator. */
  lemma OwnFormat(f: Format, d: Date, digit: Digits)
    requires ValidDate(d) && SoundDigits(digit)
    ensures ParseAs(f, Print(f, d), digit) == Some(d)
  {
    PrintedYear(d.year, digit);
    PrintedMonth(d.month);
    PrintedDay(d.day, digit);
    PartsPlain(d, Separator(f));
    var y, m, day := FourDigits(d.year), TwoDigits(d.month), TwoDigits(d.day);
    match f
    case YearFirst => SplitJoined(y, m, day, Separator(f));
    case MonthSlash => SplitJoined(m, day, y, Separator(f));
    case _ => SplitJoined(day, m, y, Separator(f));
  }

  lemma PartsPlain(d: Date, c: char)
    requires ValidDate(d) && IsSeparator(c)
    ensures Without(FourDigits(d.year), c) && Without(TwoDigits(d.month), c) && Without(TwoDigits(d.day), c)
  {}

  lemma OtherFormat(f: Format, g: Format, d: Date, digit: Digits)
    requires ValidDate(d) && Separator(f) != Separator(g)
    ensures ParseAs(g, Print(f, d), digit).None?
  {
    PartsPlain(d, Separator(g));
    var y, m, day := FourDigits(d.year), TwoDigits(d.month), TwoDigits(d.day);
    match f
    case YearFirst => OtherSeparator(y, m, day, Separator(f), Separator(g));
    case MonthSlash => OtherSeparator(m, day, y, Separator(f), Separator(g));
    case _ => OtherSeparator(day, m, y, Separator(f), Separator(g));
  }

  function Swapped(d: Date): Date {
    Date(d.year, d.day, d.month)
  }

  lemma MonthFirstParts(d: Date, m: string, day: string, y: string, digit: Digits)
    requires ValidDate(d) && m == TwoDigits(d.month) && day == TwoDigits(d.day) && y == FourDigits(d.year)
    ensures ParseAs(DaySlash, Print(MonthSlash, d), digit) == MakeDate(YearOf(y, digit), MonthOf(day), DayOf(m, digit))
  {
    PartsPlain(d, '/');
    SplitJoined(m, day, y, '/');
  }

  lemma SwappedDate(year: nat, month: nat, day: nat)
    requires 1 <= month <= 12 && 1 <= day <= 12 && 1 <= year <= 9999
    ensures MakeDate(Some(year), Some(day), Some(month)) == Some(Date(year, day, month))
  {}

  /** Month-first text reads as day-first exactly when the day could be a month. */
  lemma MonthFirstAsDayFirst(d: Date, digit: Digits)
    requires ValidDate(d) && SoundDigits(digit)
    ensures ParseAs(DaySlash, Print(MonthSlash, d), digit) == if d.day <= 12 then Some(Swapped(d)) else None
  {
    MonthFirstParts(d, TwoDigits(d.month), TwoDigits(d.day), FourDigits(d.year), digit);
    PrintedMonth(d.day);
    if d.day <= 12 {
      PrintedYear(d.year, digit);
      PrintedDay(d.month, digit);
      SwappedDate(d.year, d.month, d.day);
    }
  }

  lemma ReadFirst(f: Format, rest: seq<Format>, text: string, digit: Digits)
    ensures FirstReading([f] + rest, text, digit) ==
            if ParseAs(f, text, digit).Some? then ParseAs(f, text, digit) else FirstReading(rest, text, digit)
  {}

  lemma InOrder(text: string, digit: Digits)
    ensures FirstReading(FORMATS, text, digit) ==
            if ParseAs(YearFirst, text, digit).Some? then ParseAs(YearFirst, text, digit)
            else if ParseAs(DaySlash, text, digit).Some? then ParseAs(DaySlash, text, digit)
            else if ParseAs(DayDot, text, digit).Some? then ParseAs(DayDot, text, digit)
            else ParseAs(MonthSlash, text, digit)
  {
    ReadFirst(YearFirst, [DaySlash, DayDot, MonthSlash], text, digit);
    ReadFirst(DaySlash, [DayDot, MonthSlash], text, digit);
    ReadFirst(DayDot, [MonthSlash], text, digit);
    ReadFirst(MonthSlash, [], text, digit);
    assert [YearFirst] + [DaySlash, DayDot, MonthSlash] == FORMATS;
    assert [DaySlash] + [DayDot, MonthSlash] == [DaySlash, DayDot, MonthSlash];
    assert [DayDot] + [MonthSlash] == [DayDot, MonthSlash];
    assert [MonthSlash] + [] == [MonthSlash];
  }

  /** What a printed date is taken for. */
  function TakenFor(f: Format, d: Date): Date {
    if f == MonthSlash && d.day <= 12 then Swapped(d) else d
  }

  /** Every printed date is read, and read as itself, unless it is month-first and its day could be a month. */
  lemma PrintedReads(f: Format, d: Date, digit: Digits)
    requires ValidDate(d) && SoundDigits(digit)
    ensures DateOf(Words(Print(f, d)), digit) == Some(TakenFor(f, d))
  {
    var text := Print(f, d);
    InOrder(text, digit);
    OwnFormat(f, d, digit);
    match f
    case YearFirst =>
    case DaySlash => OtherFormat(f, YearFirst, d, digit);
    case DayDot => OtherFormat(f, YearFirst, d, digit); OtherFormat(f, DaySlash, d, digit);
    case MonthSlash => MonthFirstReads(d, text, digit);
  }

  lemma MonthFirstReads(d: Date, text: string, digit: Digits)
    requires ValidDate(d) && SoundDigits(digit) && text == Print(MonthSlash, d)
    requires ParseAs(MonthSlash, text, digit) == Some(d)
    ensures FirstReading(FORMATS, text, digit) == Some(TakenFor(MonthSlash, d))
  {
    InOrder(text, digit);
    OtherFormat(MonthSlash, YearFirst, d, digit);
    OtherFormat(MonthSlash, DayDot, d, digit);
    MonthFirstAsDayFirst(d, digit);
  }

  /**
   The round trip holds for the first three formats, and for the fourth exactly when day exceeds 12 or equals
   month.
   */
  lemma RoundTripIff(f: Format, d: Date, digit: Digits)
    requires ValidDate(d) && SoundDigits(digit)
    ensures DateOf(Words(Print(f, d)), digit) == Some(d) <==> f != MonthSlash || d.day > 12 || d.day == d.month
  {
    PrintedReads(f, d, digit);
  }

  // ---------- The texts that are read ----------

  /** One or two digits that write down a number from 1 to 12. */
  lemma MonthTexts(s: string, n: nat)
    ensures MonthOf(s) == Some(n) <==>
            && 1 <= n <= 12 && 1 <= |s| <= 2 && (forall i | 0 <= i < |s| :: '0' <= s[i] <= '9')
            && n == if |s| == 1 then s[0] as int - 48 else 10 * (s[0] as int - 48) + (s[1] as int - 48)
  {}

  /**
   One or two digits that write down a number from 1 to 31, or a blank and one digit; after '1' or '2' the second
   digit may be of another script.
   */
  lemma DayTexts(s: string, n: nat, digit: Digits)
    requires SoundDigits(digit)
    ensures DayOf(s, digit) == Some(n) <==>
            && 1 <= n <= 31
            && (|| (|s| == 1 && '0' <= s[0] <= '9' && n == s[0] as int - 48)
                || (|s| == 2 && s[0] == ' ' && '0' <= s[1] <= '9' && n == s[1] as int - 48)
                || (|s| == 2 && '0' <= s[0] <= '3' && (s[0] in {'1', '2'} || '0' <= s[1] <= '9')
                    && digit(s[1]).Some? && n == 10 * (s[0] as int - 48) + digit(s[1]).value))
  {}

  /** Four digits of any script. */
  lemma YearTexts(s: string, n: nat, digit: Digits)
    ensures YearOf(s, digit) == Some(n) <==>
            && |s| == 4 && (forall i | 0 <= i < 4 :: digit(s[i]).Some?)
            && n == ((digit(s[0]).value * 10 + digit(s[1]).value) * 10 + digit(s[2]).value) * 10 + digit(s[3]).value
  {}

  ghost predicate AreParts(y: string, m: string, day: string, d: Date, digit: Digits) {
    YearOf(y, digit) == Some(d.year) && MonthOf(m) == Some(d.month) && DayOf(day, digit) == Some(d.day)
  }

  /** The text spells the date in the format. */
  ghost predicate Spells(f: Format, text: string, d: Date, digit: Digits) {
    match f
    case YearFirst => exists y, m, day :: text == y + "-" + m + "-" + day && AreParts(y, m, day, d, digit)
    case DaySlash => exists y, m, day :: text == day + "/" + m + "/" + y && AreParts(y, m, day, d, digit)
    case DayDot => exists y, m, day :: text == day + "." + m + "." + y && AreParts(y, m, day, d, digit)
    case MonthSlash => exists y, m, day :: text == m + "/" + day + "/" + y && AreParts(y, m, day, d, digit)
  }

  lemma PartsWithout(y: string, m: string, day: string, d: Date, digit: Digits, c: char)
    requires AreParts(y, m, day, d, digit) && SoundDigits(digit) && IsSeparator(c)
    ensures Without(y, c) && Without(m, c) && Without(day, c)
  {}

  lemma SplitParts(s: string, c: char)
    ensures Split(s, c).Some? ==>
              var Parts(a, b, rest) := Split(s, c).value; s == Joined(a, b, rest, c)
  {}

  lemma SpellingParses(f: Format, a: string, b: string, c: string, y: string, m: string, day: string, d: Date,
                       digit: Digits)
    requires SoundDigits(digit) && ValidDate(d) && AreParts(y, m, day, d, digit)
    requires match f
             case YearFirst => a == y && b == m && c == day
             case MonthSlash => a == m && b == day && c == y
             case _ => a == day && b == m && c == y
    ensures ParseAs(f, Joined(a, b, c, Separator(f)), digit) == Some(d)
  {
    PartsWithout(y, m, day, d, digit, Separator(f));
    SplitJoined(a, b, c, Separator(f));
  }

  lemma SpelledParses(f: Format, text: string, d: Date, digit: Digits)
    requires SoundDigits(digit) && ValidDate(d) && Spells(f, text, d, digit)
    ensures ParseAs(f, text, digit) == Some(d)
  {
    match f
    case YearFirst =>
      var y, m, day :| text == y + "-" + m + "-" + day && AreParts(y, m, day, d, digit);
      SpellingParses(f, y, m, day, y, m, day, d, digit);
    case DaySlash =>
      var y, m, day :| text == day + "/" + m + "/" + y && AreParts(y, m, day, d, digit);
      SpellingParses(f, day, m, y, y, m, day, d, digit);
    case DayDot =>
      var y, m, day :| text == day + "." + m + "." + y && AreParts(y, m, day, d, digit);
      SpellingParses(f, day, m, y, y, m, day, d, digit);
    case MonthSlash =>
      var y, m, day :| text == m + "/" + day + "/" + y && AreParts(y, m, day, d, digit);
      SpellingParses(f, m, day, y, y, m, day, d, digit);
  }

  /**
   A format reads a text as a date exactly if the date is one of the calendar and the text spells it in the
   format.
   */
  lemma ParsesIff(f: Format, text: string, d: Date, digit: Digits)
    requires SoundDigits(digit)
    ensures ParseAs(f, text, digit) == Some(d) <==> ValidDate(d) && Spells(f, text, d, digit)
  {
    SplitParts(text, Separator(f));
    if ValidDate(d) && Spells(f, text, d, digit) {
      SpelledParses(f, text, d, digit);
    }
  }

  /** The text spells no date of the calendar in the format. */
  ghost predicate Unread(f: Format, text: string, digit: Digits) {
    forall d | ValidDate(d) :: !Spells(f, text, d, digit)
  }

  lemma UnreadIff(f: Format, text: string, digit: Digits)
    requires SoundDigits(digit)
    ensures ParseAs(f, text, digit).None? <==> Unread(f, text, digit)
  {
    forall d ensures ParseAs(f, text, digit) == Some(d) <==> ValidDate(d) && Spells(f, text, d, digit) {
      ParsesIff(f, text, d, digit);
    }
  }

  /** A text is read as the date it spells in the first format in which it spells one. */
  lemma ReadsIff(text: string, d: Date, digit: Digits)
    requires SoundDigits(digit)
    ensures DateOf(Words(text), digit) == Some(d) <==>
            && ValidDate(d)
            && (|| Spells(YearFirst, text, d, digit)
                || (Unread(YearFirst, text, digit) && Spells(DaySlash, text, d, digit))
                || (Unread(YearFirst, text, digit) && Unread(DaySlash, text, digit) && Spells(DayDot, text, d, digit))
                || (Unread(YearFirst, text, digit) && Unread(DaySlash, text, digit) && Unread(DayDot, text, digit)
                    && Spells(MonthSlash, text, d, digit)))
  {
    InOrder(text, digit);
    forall f: Format
      ensures ParseAs(f, text, digit) == Some(d) <==> ValidDate(d) && Spells(f, text, d, digit)
      ensures ParseAs(f, text, digit).None? <==> Unread(f, text, digit)
    {
      ParsesIff(f, text, d, digit);
      UnreadIff(f, text, digit);
    }
  }

  // ---------- The calendar as a count of days ----------

  /** The days of all years before. */
  function DaysBefore(year: nat): int {
    var y := year - 1;
    365 * y + y / 4 - y / 100 + y / 400
  }

  /** The days of the months before, in a year of 365 days. */
  function MonthStart(month: nat): nat {
    match month
    case 1 => 0
    case 2 => 31
    case 3 => 59
    case 4 => 90
    case 5 => 120
    case 6 => 151
    case 7 => 181
    case 8 => 212
    case 9 => 243
    case 10 => 273
    case 11 => 304
    case 12 => 334
    case _ => 365
  }

  /** The number of a day, counted from 1 January of the year 1. */
  function Ordinal(d: Date): int {
    var long := if d.month > 2 && DaysBefore(d.year + 1) - DaysBefore(d.year) == 366 then 1 else 0;
    DaysBefore(d.year) + MonthStart(d.month) + long + d.day
  }

  lemma QuotientGrows(y: nat, k: nat)
    requires k == 4 || k == 100 || k == 400
    ensures (y + 1) / k - y / k == if (y + 1) % k == 0 then 1 else 0
  {}

  lemma MultipleOf100(q: nat, year: nat)
    requires year == 400 * q
    ensures year % 100 == 0
  {
    assert year == 100 * (4 * q);
  }

  lemma MultipleOf4(q: nat, year: nat)
    requires year == 100 * q
    ensures year % 4 == 0
  {
    assert year == 4 * (25 * q);
  }

  lemma LeapYearsAreLong(year: nat)
    requires year >= 1
    ensures DaysBefore(year + 1) - DaysBefore(year) == if Leap(year) then 366 else 365
  {
    QuotientGrows(year - 1, 4);
    QuotientGrows(year - 1, 100);
    QuotientGrows(year - 1, 400);
    if year % 400 == 0 {
      MultipleOf100(year / 400, year);
    }
    if year % 100 == 0 {
      MultipleOf4(year / 100, year);
    }
  }

  /** The months of a year follow each other without a gap, and so do the years. */
  lemma MonthsFollow(year: nat, month: nat)
    requires 1 <= year && 1 <= month <= 12
    ensures var next := if month == 12 then Date(year + 1, 1, 1) else Date(year, month + 1, 1);
            Ordinal(next) == Ordinal(Date(year, month, 1)) + DaysIn(year, month)
  {
    LeapYearsAreLong(year);
    LeapYearsAreLong(year + 1);
  }

  /** A date is one of the calendar exactly if it lies between the first of its month and that of the next one. */
  lemma ValidIffBetween(d: Date)
    requires 1 <= d.year <= 9999 && 1 <= d.month <= 12
    ensures var next := if d.month == 12 then Date(d.year + 1, 1, 1) else Date(d.year, d.month + 1, 1);
            ValidDate(d) <==> Ordinal(Date(d.year, d.month, 1)) <= Ordinal(d) < Ordinal(next)
  {
    MonthsFollow(d.year, d.month);
  }

  lemma {:induction false} YearsFollow(a: nat, b: nat)
    requires 1 <= a <= b
    ensures DaysBefore(a) <= DaysBefore(b)
    decreases b
  {
    if a < b {
      YearsFollow(a, b - 1);
      LeapYearsAreLong(b - 1);
    }
  }

  lemma InItsYear(d: Date)
    requires ValidDate(d)
    ensures DaysBefore(d.year) < Ordinal(d) <= DaysBefore(d.year + 1)
  {
    LeapYearsAreLong(d.year);
  }

  lemma BeforeIsEarlier(a: Date, b: Date)
    requires ValidDate(a) && ValidDate(b) && Before(a, b)
    ensures Ordinal(a) < Ordinal(b)
  {
    InItsYear(a);
    InItsYear(b);
    if a.year < b.year {
      YearsFollow(a.year + 1, b.year);
    } else {
      LeapYearsAreLong(a.year);
    }
  }

  /** The comparison of dates is that of their numbers. */
  lemma BeforeIff(a: Date, b: Date)
    requires ValidDate(a) && ValidDate(b)
    ensures Before(a, b) <==> Ordinal(a) < Ordinal(b)
  {
    if Before(a, b) {
      BeforeIsEarlier(a, b);
    } else if Before(b, a) {
      BeforeIsEarlier(b, a);
    }
  }

  // ---------- The order of a statement's period ----------

  const PERIOD := "statement_period_order"

  function StatementPeriodOrder(data: Data, digit: Digits): Outcome {
    if !data.Statement? then Silent()
    else
      var start, end := DateOf(data.start, digit), DateOf(data.end, digit);
      if start.None? || end.None? || Before(start.value, end.value) then Silent()
      else OneViolation(PERIOD, Error)
  }

  /**
   A statement is reported exactly if both its dates are read and the end is no later day than the start; that is
   an error. A date that is missing or not read is passed over.
   */
  lemma PeriodReport(data: Data, digit: Digits)
    ensures StatementPeriodOrder(data, digit) ==
            if data.Statement? && DateOf(data.start, digit).Some? && DateOf(data.end, digit).Some?
               && Ordinal(DateOf(data.end, digit).value) <= Ordinal(DateOf(data.start, digit).value)
            then Ok([Violation("statement_period_order", Error)])
            else Ok([])
    ensures data.Statement? && (!data.start.Words? || !data.end.Words?) ==> StatementPeriodOrder(data, digit) == Ok([])
  {
    if data.Statement? && DateOf(data.start, digit).Some? && DateOf(data.end, digit).Some? {
      ReadingsAreValid(FORMATS, data.start.text, digit);
      ReadingsAreValid(FORMATS, data.end.text, digit);
      BeforeIff(DateOf(data.start, digit).value, DateOf(data.end, digit).value);
    }
  }

  /**
   On printed dates the rule is silent exactly when the dates they are taken for run forward: for unambiguous formats,
   exactly when the period does.
   */
  lemma PeriodRuleIsExact(data: Data, f: Format, g: Format, start: Date, end: Date, digit: Digits)
    requires ValidDate(start) && ValidDate(end) && SoundDigits(digit)
    requires data.Statement? && data.start == Words(Print(f, start)) && data.end == Words(Print(g, end))
    ensures StatementPeriodOrder(data, digit) == Silent() <==> Before(TakenFor(f, start), TakenFor(g, end))
    ensures (f == MonthSlash ==> start.day > 12) && (g == MonthSlash ==> end.day > 12) ==>
              (StatementPeriodOrder(data, digit) == Silent() <==> Before(start, end))
  {
    PrintedReads(f, start, digit);
    PrintedReads(g, end, digit);
  }

  /**
   Month-first dates are misjudged both ways: 5 January to 3 February is refused, 3 February to 5 January
   accepted.
   */
  lemma MonthFirstPeriodMisjudged(digit: Digits, year: nat)
    requires SoundDigits(digit) && 1 <= year <= 9999
    ensures var january, february := Date(year, 1, 5), Date(year, 2, 3);
            var first, second := Words(Print(MonthSlash, january)), Words(Print(MonthSlash, february));
            && Before(january, february)
            && StatementPeriodOrder(Statement(Null, Null, Null, Null, first, second), digit) != Silent()
            && StatementPeriodOrder(Statement(Null, Null, Null, Null, second, first), digit) == Silent()
  {
    PrintedReads(MonthSlash, Date(year, 1, 5), digit);
    PrintedReads(MonthSlash, Date(year, 2, 3), digit);
  }
}

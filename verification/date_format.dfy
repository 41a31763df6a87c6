/** The date helpers of the boleto service: `formatDateBR`, the `dd/mm/yyyy` text the ERP
    lookup takes; `parseDate`, which reads a due date written either `dd/mm/yyyy` or
    `yyyy-mm-dd`; and `diffDays`, the whole days between two dates. */
module DateFormat {
  import opened Wrappers
  import opened Text
  import opened Dates

  /** `formatDateBR`: day and month zero-padded to two digits, then the year as
      `getFullYear().toString()` prints it. */
  function FormatDateBR(d: Date): (s: string)
    requires Valid(d)
    ensures |s| >= 7 && s[2] == '/' && s[5] == '/'
    ensures AllDigits(s[..2]) && DigitsValue(s[..2]) == d.day
    ensures AllDigits(s[3..5]) && DigitsValue(s[3..5]) == d.month
    ensures s[6..] == IntStr(d.year)
  {
    Pad2NatStr(d.day);
    Pad2NatStr(d.month);
    var s := Pad2(NatStr(d.day)) + "/" + Pad2(NatStr(d.month)) + "/" + IntStr(d.year);
    assert s[..2] == Pad2(NatStr(d.day)) && s[3..5] == Pad2(NatStr(d.month));
    s
  }

  /** `Number(s)` on the field strings the model admits: surrounding white space is
      ignored, an empty field is 0 and a field of decimal digits is its value; anything
      else is `NaN`, here `None`. */
  function ToNumber(s: string): (r: Option<nat>)
    ensures r.Some? <==> AllDigits(Trim(s))
    ensures r.Some? ==> r.value == DigitsValue(Trim(s))
  {
    var t := Trim(s);
    if t == [] then Some(0)
    else if AllDigits(t) then Some(DigitsValue(t))
    else None
  }

  /** A non-empty field of digits is read as its decimal value. */
  lemma ToNumberDigits(s: string)
    requires AllDigits(s) && s != []
    ensures ToNumber(s) == Some(DigitsValue(s))
  {
    assert !IsWhitespace(s[0]) && !IsWhitespace(s[|s| - 1]);
    TrimClean(s);
  }

  /** `new Date(y, m - 1, d)` from the fields at positions `yi`, `mi` and `di` of a split
      date; a missing or non-numeric field gives an invalid date, here `None`. */
  function FieldsToDate(parts: seq<string>, yi: nat, mi: nat, di: nat): (r: Option<Date>)
    requires yi < 3 && mi < 3 && di < 3
    ensures r.Some? <==> |parts| >= 3 && ToNumber(parts[yi]).Some? && ToNumber(parts[mi]).Some? && ToNumber(parts[di]).Some?
    ensures r.Some? ==> Valid(r.value)
  {
    if |parts| < 3 then None
    else DateOfFields(ToNumber(parts[yi]), ToNumber(parts[mi]), ToNumber(parts[di]))
  }

  /** `new Date(y, m - 1, d)` for the numbers read from the fields. */
  function NewDate(y: nat, m: nat, d: nat): (r: Date)
    ensures Valid(r)
  {
    MakeDate(y, m - 1, d)
  }

  /** The date the constructor builds from three numbers, or an invalid date when one is `NaN`. */
  function DateOfFields(y: Option<nat>, m: Option<nat>, d: Option<nat>): (r: Option<Date>)
    ensures r.Some? <==> y.Some? && m.Some? && d.Some?
    ensures r.Some? ==> Valid(r.value)
  {
    if y.Some? && m.Some? && d.Some? then Some(NewDate(y.value, m.value, d.value)) else None
  }

  /** `parseDate`: the trimmed text is read as year-month-day when it contains a `-`
      anywhere, and as day/month/year otherwise. */
  function ParseDate(str: string): (r: Option<Date>)
    ensures r.Some? ==> Valid(r.value)
  {
    var t := Trim(str);
    if '-' in t then FieldsToDate(Split(t, '-'), 0, 1, 2)
    else FieldsToDate(Split(t, '/'), 2, 1, 0)
  }

  /** `diffDays(a, b)` on whole days: how many days `a` lies after `b`. */
  function DiffDays(a: Date, b: Date): (r: int)
    requires Valid(a) && Valid(b)
    ensures AddDays(b, r) == a
    ensures r == 0 <==> a == b
  {
    var r := DayNumber(a) - DayNumber(b);
    DayNumberInjective(AddDays(b, r), a);
    r
  }

  /** Milliseconds in a day without a daylight-saving change. */
  const MsPerDay := 86400000

  /** `diffDays(new Date(), b)` as written: the current moment lies `msOfDay`
      milliseconds after midnight of `a`, `b` is a midnight, and `Math.round` rounds the
      fractional day half up, so from midday on the count is one day more than the
      calendar days between the two dates. */
  function DiffDaysRounded(a: Date, msOfDay: int, b: Date): (r: int)
    requires Valid(a) && Valid(b) && 0 <= msOfDay < MsPerDay
    ensures r == DiffDays(a, b) + (if 2 * msOfDay >= MsPerDay then 1 else 0)
  {
    var ms := DiffDays(a, b) * MsPerDay + msOfDay;
    (2 * ms + MsPerDay) / (2 * MsPerDay)
  }

  /** A date `n` days after `b` lies `n` days after it. */
  lemma DiffDaysAddDays(b: Date, n: int)
    requires Valid(b)
    ensures DiffDays(AddDays(b, n), b) == n
  {
  }

  /** The year-month-day text an ERP may send, for a year without a sign. */
  function FormatISO(d: Date): string
    requires Valid(d) && d.year >= 0
  {
    NatStr(d.year) + "-" + Pad2(NatStr(d.month)) + "-" + Pad2(NatStr(d.day))
  }

  /** Three digit fields joined by a separator hold only digits and the separator. */
  lemma JoinedChars(a: string, b: string, c: string, sep: char)
    requires AllDigits(a) && AllDigits(b) && AllDigits(c)
    ensures var s := a + [sep] + b + [sep] + c;
      forall i :: 0 <= i < |s| ==> IsDigit(s[i]) || s[i] == sep
  {
    var s := a + [sep] + b + [sep] + c;
    forall i | 0 <= i < |s| ensures IsDigit(s[i]) || s[i] == sep {
      if i < |a| { assert s[i] == a[i]; }
      else if i == |a| { assert s[i] == sep; }
      else if i < |a| + 1 + |b| { assert s[i] == b[i - |a| - 1]; }
      else if i == |a| + 1 + |b| { assert s[i] == sep; }
      else { assert s[i] == c[i - |a| - |b| - 2]; }
    }
  }

  /** Three digit fields joined by a separator that is not a digit: the text is its own
      trim, holds only digits and the separator, and splits back into the three fields. */
  lemma JoinedFields(a: string, b: string, c: string, sep: char)
    requires AllDigits(a) && AllDigits(b) && AllDigits(c) && a != [] && c != [] && !IsDigit(sep)
    ensures var s := a + [sep] + b + [sep] + c;
      Trim(s) == s && (forall i :: 0 <= i < |s| ==> IsDigit(s[i]) || s[i] == sep) && Split(s, sep) == [a, b, c]
    ensures var s := a + [sep] + b + [sep] + c;
      forall ch :: !IsDigit(ch) && ch != sep ==> ch !in s
  {
    var s := a + [sep] + b + [sep] + c;
    assert s[0] == a[0] && s[|s| - 1] == c[|c| - 1];
    assert !IsWhitespace(s[0]) && !IsWhitespace(s[|s| - 1]);
    TrimClean(s);
    JoinedChars(a, b, c, sep);
    assert sep !in a && sep !in b && sep !in c;
    assert s == a + [sep] + (b + [sep] + c);
    SplitFirst(a, b + [sep] + c, sep);
    SplitFirst(b, c, sep);
    SplitNoSeparator(c, sep);
  }

  lemma FieldsRead(parts: seq<string>, yi: nat, mi: nat, di: nat, y: nat, m: nat, d: nat)
    requires yi < 3 && mi < 3 && di < 3 && |parts| >= 3
    requires ToNumber(parts[yi]) == Some(y) && ToNumber(parts[mi]) == Some(m) && ToNumber(parts[di]) == Some(d)
    ensures FieldsToDate(parts, yi, mi, di) == Some(MakeDate(y, m - 1, d))
  {
    assert FieldsToDate(parts, yi, mi, di) == DateOfFields(Some(y), Some(m), Some(d));
  }

  /** A number printed and padded to two digits reads back as itself. */
  lemma ToNumberPad2(n: nat)
    requires n < 100
    ensures ToNumber(Pad2(NatStr(n))) == Some(n)
  {
    Pad2NatStr(n);
    ToNumberDigits(Pad2(NatStr(n)));
  }

  lemma ToNumberNatStr(n: nat)
    ensures ToNumber(NatStr(n)) == Some(n)
  {
    ToNumberDigits(NatStr(n));
  }

  /** The printed fields of a date, in either order, read back as its numbers. */
  lemma PrintedFieldsRead(d: Date)
    requires Valid(d) && d.year >= 0
    ensures var dd, mm, yy := Pad2(NatStr(d.day)), Pad2(NatStr(d.month)), NatStr(d.year);
      FieldsToDate([dd, mm, yy], 2, 1, 0) == Some(MakeDate(d.year, d.month - 1, d.day)) &&
      FieldsToDate([yy, mm, dd], 0, 1, 2) == Some(MakeDate(d.year, d.month - 1, d.day))
  {
    var dd, mm, yy := Pad2(NatStr(d.day)), Pad2(NatStr(d.month)), NatStr(d.year);
    ToNumberPad2(d.day);
    ToNumberPad2(d.month);
    ToNumberNatStr(d.year);
    FieldsRead([dd, mm, yy], 2, 1, 0, d.year, d.month, d.day);
    FieldsRead([yy, mm, dd], 0, 1, 2, d.year, d.month, d.day);
  }

  /** Digit fields joined by `/` are read day, month, year. */
  lemma ParseSlashed(dd: string, mm: string, yy: string)
    requires AllDigits(dd) && AllDigits(mm) && AllDigits(yy) && dd != [] && yy != []
    ensures ParseDate(dd + ['/'] + mm + ['/'] + yy) == FieldsToDate([dd, mm, yy], 2, 1, 0)
  {
    JoinedFields(dd, mm, yy, '/');
    assert !IsDigit('-');
  }

  /** Digit fields joined by `-` are read year, month, day. */
  lemma ParseDashed(yy: string, mm: string, dd: string)
    requires AllDigits(dd) && AllDigits(mm) && AllDigits(yy) && dd != [] && yy != []
    ensures ParseDate(yy + ['-'] + mm + ['-'] + dd) == FieldsToDate([yy, mm, dd], 0, 1, 2)
  {
    JoinedFields(yy, mm, dd, '-');
    assert (yy + ['-'] + mm + ['-'] + dd)[|yy|] == '-';
  }

  /** Reading back the text `formatDateBR` writes gives the date `new Date(y, m - 1, d)`
      builds from its fields; for years before 100 that is the year plus 1900. */
  lemma ParseFormatDateBR(d: Date)
    requires Valid(d) && d.year >= 0
    ensures ParseDate(FormatDateBR(d)) == Some(MakeDate(d.year, d.month - 1, d.day))
  {
    var dd, mm, yy := Pad2(NatStr(d.day)), Pad2(NatStr(d.month)), NatStr(d.year);
    Pad2NatStr(d.day);
    Pad2NatStr(d.month);
    assert FormatDateBR(d) == dd + ['/'] + mm + ['/'] + yy;
    ParseSlashed(dd, mm, yy);
    PrintedFieldsRead(d);
  }

  /** For years from 100 on, `parseDate` undoes `formatDateBR`. */
  lemma ParseFormatDateBRRoundTrip(d: Date)
    requires Valid(d) && d.year >= 100
    ensures ParseDate(FormatDateBR(d)) == Some(d)
  {
    ParseFormatDateBR(d);
    MakeDateExact(d);
  }

  /** The year-month-day form reads back as the date `new Date(y, m - 1, d)` builds. */
  lemma ParseFormatISO(d: Date)
    requires Valid(d) && d.year >= 0
    ensures ParseDate(FormatISO(d)) == Some(MakeDate(d.year, d.month - 1, d.day))
  {
    var yy, mm, dd := NatStr(d.year), Pad2(NatStr(d.month)), Pad2(NatStr(d.day));
    Pad2NatStr(d.day);
    Pad2NatStr(d.month);
    assert FormatISO(d) == yy + ['-'] + mm + ['-'] + dd;
    ParseDashed(yy, mm, dd);
    PrintedFieldsRead(d);
  }

  /** For years from 100 on, `parseDate` reads the year-month-day form exactly. */
  lemma ParseFormatISORoundTrip(d: Date)
    requires Valid(d) && d.year >= 100
    ensures ParseDate(FormatISO(d)) == Some(d)
  {
    ParseFormatISO(d);
    MakeDateExact(d);
  }
}

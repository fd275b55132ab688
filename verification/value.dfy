/** The SQLite text of an instant (src/value.rs) and its way back through the RFC 3339 reader
    (src/row.rs). */
module Timestamps {
  import opened Common
  import opened Decimals
  import opened Calendar

  /** Local fields and the offset from UTC, in seconds. */
  datatype OffsetDateTime = OffsetDateTime(local: Civil, offset: int)

  predicate ValidDateTime(v: OffsetDateTime) {
    ValidFields(v.local) && -9999 <= v.local.year <= 9999 && -86400 * 2 < v.offset < 86400 * 2
  }

  function Instant(v: OffsetDateTime): int
    requires ValidDateTime(v)
  {
    Nanos(v.local) - v.offset * 1_000_000_000
  }

  function Utc(v: OffsetDateTime): (c: Civil)
    requires ValidDateTime(v)
    ensures ValidFields(c) && Nanos(c) == Instant(v)
  {
    CivilOf(Instant(v))
  }

  /** East of Greenwich the clock is ahead: ten o'clock at UTC is twelve o'clock at `+02:00`. */
  lemma OffsetShifts(c: Civil, hours: int)
    requires ValidDateTime(OffsetDateTime(c, 3600 * hours)) && 0 <= c.hour - hours < 24
    ensures Instant(OffsetDateTime(c, 3600 * hours)) == Instant(OffsetDateTime(c.(hour := c.hour - hours), 0))
  {
    hide DaysBeforeYear, DaysBeforeMonth;
  }

  datatype Error = OutOfRange | InvalidValue | Unparsable

  /** Refuse what UTC years 0001 to 9999 and microseconds cannot represent. The representable
      years of the time library bound the conversion to UTC itself. */
  function ValidateTime(v: OffsetDateTime): Option<Error>
    requires ValidDateTime(v)
  {
    var utc := Utc(v);
    if !(-9999 <= utc.year <= 9999) then Some(OutOfRange)
    else if !(1 <= utc.year <= 9999) then Some(OutOfRange)
    else if utc.nano % 1000 != 0 then Some(InvalidValue)
    else None
  }

  /** `digits` of fixed width followed by one separator. */
  function Field(n: nat, width: nat, separator: char, rest: string): string {
    Pad(n, width) + [separator] + rest
  }

  function TimeText(c: Civil): string
    requires ValidTime(c)
  {
    Field(c.hour, 2, ':', Field(c.minute, 2, ':', Field(c.second, 2, '.', Field(c.nano / 1000, 6, 'Z', ""))))
  }

  function CivilText(c: Civil): string
    requires ValidFields(c) && 0 <= c.year
  {
    Field(c.year, 4, '-', Field(c.month, 2, '-', Field(c.day, 2, 'T', TimeText(c))))
  }

  predicate Admitted(v: OffsetDateTime) {
    ValidDateTime(v) && ValidateTime(v).None?
  }

  function Timestamp(v: OffsetDateTime): string
    requires Admitted(v)
  {
    CivilText(Utc(v))
  }

  /** What is admitted, said of the instant alone: from year 1 to year 9999, in whole
      microseconds, whatever the source offset. */
  lemma ValidateTimeMeaning(v: OffsetDateTime)
    requires ValidDateTime(v)
    ensures var inRange := 0 <= Instant(v) < DaysBeforeYear(10000) * DAY_NANOS;
      ValidateTime(v) == if !inRange then Some(OutOfRange)
                         else if Instant(v) % 1000 != 0 then Some(InvalidValue)
                         else None
  {
    var day, utc := Instant(v) / DAY_NANOS, Utc(v);
    assert utc.year >= 1 <==> Instant(v) >= 0;
    if utc.year <= 9999 { YearsIncrease(utc.year + 1, 10000); } else { YearsIncrease(10000, utc.year); }
    Remainders(Instant(v));
  }

  /** Every offset occurs: the third midnight of year 1 is admitted at all of them. */
  lemma AdmittedAtEveryOffset(offset: int)
    requires -86400 * 2 < offset < 86400 * 2
    ensures Admitted(OffsetDateTime(Civil(1, 1, 3, 0, 0, 0, 0), offset))
  {
    hide ValidateTime;
    var v := OffsetDateTime(Civil(1, 1, 3, 0, 0, 0, 0), offset);
    ValidateTimeMeaning(v);
    MidnightIsAdmitted(v);
    hide Instant, DaysBeforeYear;
  }

  lemma MidnightIsAdmitted(v: OffsetDateTime)
    requires v.local == Civil(1, 1, 3, 0, 0, 0, 0) && -86400 * 2 < v.offset < 86400 * 2
    ensures ValidDateTime(v) && 0 <= Instant(v) < DaysBeforeYear(10000) * DAY_NANOS && Instant(v) % 1000 == 0
  {
    assert DaysBeforeYear(10000) == 3_652_059;
    assert Instant(v) == 1000 * (1_000_000 * (172_800 - v.offset));
    Thousandfold(1_000_000 * (172_800 - v.offset));
  }

  lemma Thousandfold(n: int)
    ensures 1000 * n % 1000 == 0
  {
  }

  lemma Remainders(n: int)
    ensures n % DAY_NANOS % 1_000_000_000 % 1000 == n % 1000
  {
    assert n == n / DAY_NANOS * 86_400_000_000 * 1000 + n % DAY_NANOS;
    var t := n % DAY_NANOS;
    assert t == t / 1_000_000_000 * 1_000_000 * 1000 + t % 1_000_000_000;
  }

  // ---------------------------------------------------------------- order of texts

  predicate TextBefore(a: string, b: string) {
    if a == "" || b == "" then a == "" && b != ""
    else a[0] < b[0] || (a[0] == b[0] && TextBefore(a[1..], b[1..]))
  }

  lemma {:induction false} TextBeforeConcat(a: string, b: string, a': string, b': string)
    requires |a| == |a'|
    ensures TextBefore(a + b, a' + b') <==> TextBefore(a, a') || (a == a' && TextBefore(b, b'))
  {
    if a == "" {
      assert a + b == b && a' + b' == b';
    } else {
      assert (a + b)[1..] == a[1..] + b && (a' + b')[1..] == a'[1..] + b';
      assert a == [a[0]] + a[1..] && a' == [a'[0]] + a'[1..];
      TextBeforeConcat(a[1..], b, a'[1..], b');
    }
  }

  lemma OneChar(c: char, d: char)
    ensures TextBefore([c], [d]) <==> c < d
  {
    assert [c][1..] == "" && [d][1..] == "";
  }

  /** Fixed-width digits are ordered like the numbers. */
  lemma {:induction false} PadOrder(n: nat, m: nat, width: nat)
    requires n < Power(width) && m < Power(width)
    ensures TextBefore(Pad(n, width), Pad(m, width)) <==> n < m
    ensures Pad(n, width) == Pad(m, width) <==> n == m
  {
    ValueOfPad(n, width);
    ValueOfPad(m, width);
    if width > 0 {
      PadOrder(n / 10, m / 10, width - 1);
      TextBeforeConcat(Pad(n / 10, width - 1), [Digit(n % 10)], Pad(m / 10, width - 1), [Digit(m % 10)]);
      OneChar(Digit(n % 10), Digit(m % 10));
    }
  }

  lemma FieldOrder(n: nat, m: nat, width: nat, separator: char, a: string, b: string)
    requires n < Power(width) && m < Power(width)
    ensures TextBefore(Field(n, width, separator, a), Field(m, width, separator, b)) <==>
      n < m || (n == m && TextBefore(a, b))
    ensures Field(n, width, separator, a) == Field(m, width, separator, b) ==> n == m && a == b
  {
    PadOrder(n, m, width);
    TextBeforeConcat(Pad(n, width), [separator] + a, Pad(m, width), [separator] + b);
    assert Field(n, width, separator, a) == Pad(n, width) + ([separator] + a);
    assert Field(m, width, separator, b) == Pad(m, width) + ([separator] + b);
    TextBeforeConcat([separator], a, [separator], b);
    OneChar(separator, separator);
    if Field(n, width, separator, a) == Field(m, width, separator, b) {
      assert Pad(n, width) == Field(n, width, separator, a)[..width] == Pad(m, width);
      assert a == Field(n, width, separator, a)[width + 1..] == b;
    }
  }

  lemma Powers()
    ensures Power(2) == 100 && Power(4) == 10_000 && Power(6) == 1_000_000
  {
    assert Power(0) == 1 && Power(1) == 10 && Power(3) == 1000 && Power(5) == 100_000;
  }

  lemma TimeTextOrder(a: Civil, b: Civil)
    requires ValidTime(a) && ValidTime(b) && a.nano % 1000 == 0 && b.nano % 1000 == 0
    ensures TextBefore(TimeText(a), TimeText(b)) <==> TimeBefore(a, b)
    ensures TimeText(a) == TimeText(b) ==>
      a.hour == b.hour && a.minute == b.minute && a.second == b.second && a.nano == b.nano
    ensures |TimeText(a)| == 16
  {
    hide Field;
    Powers();
    FieldLength(a);
    var a3, b3 := Field(a.nano / 1000, 6, 'Z', ""), Field(b.nano / 1000, 6, 'Z', "");
    var a2, b2 := Field(a.second, 2, '.', a3), Field(b.second, 2, '.', b3);
    var a1, b1 := Field(a.minute, 2, ':', a2), Field(b.minute, 2, ':', b2);
    FieldOrder(a.nano / 1000, b.nano / 1000, 6, 'Z', "", "");
    FieldOrder(a.second, b.second, 2, '.', a3, b3);
    FieldOrder(a.minute, b.minute, 2, ':', a2, b2);
    FieldOrder(a.hour, b.hour, 2, ':', a1, b1);
  }

  lemma FieldLength(c: Civil)
    requires ValidTime(c)
    ensures |TimeText(c)| == 16
  {
  }

  /** The text orders and determines the fields. */
  lemma CivilTextOrder(a: Civil, b: Civil)
    requires ValidFields(a) && ValidFields(b) && 0 <= a.year <= 9999 && 0 <= b.year <= 9999
    requires a.nano % 1000 == 0 && b.nano % 1000 == 0
    ensures TextBefore(CivilText(a), CivilText(b)) <==> Before(a, b)
    ensures CivilText(a) == CivilText(b) ==> a == b
    ensures |CivilText(a)| == 27
  {
    Powers();
    TimeTextOrder(a, b);
    var a2, b2 := Field(a.day, 2, 'T', TimeText(a)), Field(b.day, 2, 'T', TimeText(b));
    var a1, b1 := Field(a.month, 2, '-', a2), Field(b.month, 2, '-', b2);
    FieldOrder(a.day, b.day, 2, 'T', TimeText(a), TimeText(b));
    FieldOrder(a.month, b.month, 2, '-', a2, b2);
    FieldOrder(a.year, b.year, 4, '-', a1, b1);
  }

  /** Order isomorphism: for all admitted values, at any source offsets, the texts have 27
      characters, sort as the instants do, and are equal exactly for equal instants. */
  lemma TimestampOrder(v: OffsetDateTime, w: OffsetDateTime)
    requires Admitted(v) && Admitted(w)
    ensures |Timestamp(v)| == 27
    ensures TextBefore(Timestamp(v), Timestamp(w)) <==> Instant(v) < Instant(w)
    ensures Timestamp(v) == Timestamp(w) <==> Instant(v) == Instant(w)
  {
    CivilTextOrder(Utc(v), Utc(w));
    OrderIsChronological(Utc(v), Utc(w));
  }

  // ---------------------------------------------------------------- reading RFC 3339

  function ReadNumber(text: string, width: nat): Option<(nat, string)> {
    if |text| < width || !AllDigits(text[..width]) then None
    else Some((Decimals.Value(text[..width]), text[width..]))
  }

  function ReadField(text: string, width: nat, separator: char): Option<(nat, string)> {
    var number := ReadNumber(text, width);
    if number.None? || number.value.1 == "" || number.value.1[0] != separator then None
    else Some((number.value.0, number.value.1[1..]))
  }

  /** `time-secfrac`: nanoseconds from the first nine digits. */
  function FractionNanos(digits: string): nat
    requires AllDigits(digits)
  {
    if |digits| >= 9 then Decimals.Value(digits[..9]) else Decimals.Value(digits) * Power(9 - |digits|)
  }

  function ReadFraction(text: string): Option<(nat, string)> {
    if text == "" || text[0] != '.' then Some((0, text))
    else
      var (digits, rest) := SplitDigits(text[1..]);
      if digits == "" then None else Some((FractionNanos(digits), rest))
  }

  /** `time-offset`: `Z` or a signed hour and minute, in seconds. */
  function ReadOffset(text: string): Option<int> {
    if text == "Z" || text == "z" then Some(0)
    else if |text| != 6 || (text[0] != '+' && text[0] != '-') then None
    else
      var hour := ReadField(text[1..], 2, ':');
      if hour.None? then None
      else
        var minute := ReadNumber(hour.value.1, 2);
        if minute.None? || hour.value.0 > 23 || minute.value.0 > 59 then None
        else
          var seconds := hour.value.0 * 3600 + minute.value.0 * 60;
          Some(if text[0] == '-' then -seconds else seconds)
  }

  /** `partial-time` and `time-offset` of section 5.6 of RFC 3339. */
  function ReadTime(date: Civil, text: string): Option<OffsetDateTime> {
    var hour := ReadField(text, 2, ':');
    if hour.None? then None
    else
      var minute := ReadField(hour.value.1, 2, ':');
      if minute.None? then None
      else
        var second := ReadNumber(minute.value.1, 2);
        if second.None? then None
        else
          var fraction := ReadFraction(second.value.1);
          if fraction.None? then None
          else
            var offset := ReadOffset(fraction.value.1);
            if offset.None? then None
            else
              Some(OffsetDateTime(date.(hour := hour.value.0, minute := minute.value.0,
                                        second := second.value.0, nano := fraction.value.0), offset.value))
  }

  /** `date-time` of section 5.6 of RFC 3339, refusing fields outside the calendar. */
  function ReadRfc3339(text: string): Option<OffsetDateTime> {
    var year := ReadField(text, 4, '-');
    if year.None? then None
    else
      var month := ReadField(year.value.1, 2, '-');
      if month.None? then None
      else
        var day := ReadField(month.value.1, 2, 'T');
        if day.None? then None
        else
          var v := ReadTime(Civil(year.value.0, month.value.0, day.value.0, 0, 0, 0, 0), day.value.1);
          if v.None? || !ValidDateTime(v.value) then None else v
  }

  /** The SQLite decode path: parse, move to UTC, validate. */
  function Decode(text: string): Result<int, Error> {
    var v := ReadRfc3339(text);
    if v.None? then Failure(Unparsable)
    else if ValidateTime(v.value).Some? then Failure(ValidateTime(v.value).value)
    else Success(Instant(v.value))
  }

  /** A numeric offset as section 5.6 of RFC 3339 writes it. */
  function OffsetText(west: bool, hours: nat, minutes: nat): string {
    (if west then "-" else "+") + Pad(hours, 2) + ":" + Pad(minutes, 2)
  }

  /** Offsets east of Greenwich are positive, offsets west of it negative. */
  lemma ReadOffsetOf(west: bool, hours: nat, minutes: nat)
    requires hours < 24 && minutes < 60
    ensures ReadOffset(OffsetText(west, hours, minutes)) ==
      Some(if west then -(3600 * hours + 60 * minutes) else 3600 * hours + 60 * minutes)
  {
    hide Pad;
    Powers();
    var text := OffsetText(west, hours, minutes);
    assert text[1..] == Field(hours, 2, ':', Pad(minutes, 2));
    ReadFieldOf(hours, 2, ':', Pad(minutes, 2));
    ValueOfPad(minutes, 2);
    assert Pad(minutes, 2)[..2] == Pad(minutes, 2);
    assert text[0] == (if west then '-' else '+');
  }

  lemma ReadFieldOf(n: nat, width: nat, separator: char, rest: string)
    requires n < Power(width)
    ensures ReadField(Field(n, width, separator, rest), width, separator) == Some((n, rest))
  {
    var text := Field(n, width, separator, rest);
    ValueOfPad(n, width);
    assert text[..width] == Pad(n, width);
    assert text[width..] == [separator] + rest;
    assert text[width..][1..] == rest;
  }

  lemma ReadSecondsOf(second: nat, micros: nat)
    requires second < 60 && micros < 1_000_000
    ensures var text := Field(second, 2, '.', Field(micros, 6, 'Z', ""));
      && ReadNumber(text, 2) == Some((second, text[2..]))
      && ReadFraction(text[2..]) == Some((micros * 1000, "Z"))
  {
    Powers();
    var text := Field(second, 2, '.', Field(micros, 6, 'Z', ""));
    ValueOfPad(second, 2);
    ValueOfPad(micros, 6);
    assert text[..2] == Pad(second, 2);
    assert text[2..][1..] == Pad(micros, 6) + "Z";
    SplitDigitsOf(Pad(micros, 6), "Z");
    assert Power(3) == 1000;
  }

  lemma ReadTimeOf(c: Civil)
    requires ValidTime(c) && c.nano % 1000 == 0
    ensures ReadTime(c.(hour := 0, minute := 0, second := 0, nano := 0), TimeText(c)) == Some(OffsetDateTime(c, 0))
  {
    hide Field, ReadField, ReadNumber, ReadFraction;
    Powers();
    var t3 := Field(c.second, 2, '.', Field(c.nano / 1000, 6, 'Z', ""));
    var t2 := Field(c.minute, 2, ':', t3);
    ReadFieldOf(c.hour, 2, ':', t2);
    ReadFieldOf(c.minute, 2, ':', t3);
    ReadSecondsOf(c.second, c.nano / 1000);
  }

  lemma ReadCivilText(c: Civil)
    requires ValidFields(c) && 1 <= c.year <= 9999 && c.nano % 1000 == 0
    ensures ReadRfc3339(CivilText(c)) == Some(OffsetDateTime(c, 0))
  {
    hide Field, ReadField, ReadTime, TimeText;
    Powers();
    var t2 := Field(c.day, 2, 'T', TimeText(c));
    var t1 := Field(c.month, 2, '-', t2);
    ReadFieldOf(c.year, 4, '-', t1);
    ReadFieldOf(c.month, 2, '-', t2);
    ReadFieldOf(c.day, 2, 'T', TimeText(c));
    ReadTimeOf(c);
  }

  /** Round trip: what is stored for an admitted value decodes to the same instant. */
  lemma TimestampRoundTrip(v: OffsetDateTime)
    requires Admitted(v)
    ensures Decode(Timestamp(v)) == Success(Instant(v))
  {
    hide ReadRfc3339, CivilText;
    var c := Utc(v);
    ReadCivilText(c);
    ValidateTimeMeaning(v);
    ValidateTimeMeaning(OffsetDateTime(c, 0));
  }
}

/** The TSM feed's fixed-form UTC timestamp parser. */
module Rfc3339 {
  import opened Base
  import opened Calendar

  // `digits`: the value of a run of ASCII digits, or nothing at the first byte that is not one.
  function Digits(bytes: Bytes): Option<nat> {
    if bytes == [] then Some(0)
    else
      var last := bytes[|bytes| - 1];
      match Digits(bytes[..|bytes| - 1])
      case Some(value) => if 48 <= last <= 57 then Some(value * 10 + (last - 48)) else None
      case None => None
  }

  function Parse(raw: Bytes): Option<u64> {
    if |raw| != 20 || raw[4] != 45 || raw[7] != 45 || raw[10] != 84 || raw[13] != 58 || raw[16] != 58 || raw[19] != 90
    then None
    else
      match (Digits(raw[0..4]), Digits(raw[5..7]), Digits(raw[8..10]),
             Digits(raw[11..13]), Digits(raw[14..16]), Digits(raw[17..19]))
      case (Some(year), Some(month), Some(day), Some(hour), Some(minute), Some(second)) =>
        if year < 1970 || !(1 <= month <= 12) || day == 0 || day > DaysInMonth(year, month)
           || hour > 23 || minute > 59 || second > 59
        then None
        else
          var ms := FromUtcDate(Date(year, month, day)) + (hour * 3_600 + minute * 60 + second) * 1_000;
          if ms <= U64_MAX then Some(ms) else None
      case _ => None
  }

  // ---------- the reference: what such a timestamp looks like ----------

  predicate ValidParts(p: UtcParts) {
    ValidDate(p.date) && 1970 <= p.date.year <= 9999
    && 0 <= p.hour <= 23 && 0 <= p.minute <= 59 && 0 <= p.second <= 59
  }

  function Two(n: int): (s: Bytes)
    requires 0 <= n < 100
    ensures |s| == 2
  {
    [48 + n / 10, 48 + n % 10]
  }

  function Four(n: int): Bytes
    requires 0 <= n < 10_000
  {
    Two(n / 100) + Two(n % 100)
  }

  // `YYYY-MM-DDTHH:MM:SSZ`, the `date-time` of section 5.6 of RFC 3339 restricted to UTC and whole seconds.
  function Format(p: UtcParts): (s: Bytes)
    requires ValidParts(p)
    ensures |s| == 20
  {
    Four(p.date.year) + [45] + Two(p.date.month) + [45] + Two(p.date.day) + [84]
    + Two(p.hour) + [58] + Two(p.minute) + [58] + Two(p.second) + [90]
  }

  // The instant those parts name.
  function Instant(p: UtcParts): int {
    FromUtcDate(p.date) + (p.hour * 3_600 + p.minute * 60 + p.second) * 1_000
  }

  predicate Earlier(a: UtcParts, b: UtcParts) {
    Before(a.date, b.date)
    || (a.date == b.date
        && (a.hour < b.hour || (a.hour == b.hour &&
                  (a.minute < b.minute || (a.minute == b.minute && a.second < b.second)))))
  }

  predicate IsDigit(b: byte) { 48 <= b <= 57 }

  // The value of the digits in front of the last one, shifted, plus the last one.
  lemma DigitsSnoc(s: Bytes, last: byte)
    ensures Digits(s + [last])
         == if Digits(s).Some? && IsDigit(last) then Some(Digits(s).value * 10 + (last - 48)) else None
  {
  }

  lemma DigitsOfTwo(x: byte, y: byte)
    ensures Digits([x, y])
         == if IsDigit(x) && IsDigit(y) then Some((x as int - 48) * 10 + (y as int - 48)) else None
  {
    DigitsSnoc([], x);
    DigitsSnoc([x], y);
    assert [] + [x] == [x] && [x] + [y] == [x, y];
  }

  lemma TwoDigits(s: Bytes, n: int)
    requires |s| == 2
    ensures Digits(s).Some? <==> IsDigit(s[0]) && IsDigit(s[1])
    ensures Digits(s) == Some(n) <==> 0 <= n < 100 && s == Two(n)
  {
    DigitsOfTwo(s[0], s[1]);
    assert s == [s[0], s[1]];
    if Digits(s) == Some(n) {
      DivisionIsUnique(n, 10, s[0] as int - 48, s[1] as int - 48);
    }
  }

  // Four digits are two and two.
  lemma TwoHalves(s: Bytes)
    requires |s| == 4
    ensures var h, l := Digits(s[..2]), Digits(s[2..]);
            Digits(s) == if h.Some? && l.Some? then Some(h.value * 100 + l.value) else None
  {
    var h := s[..2];
    assert h + [s[2]] == s[..3] && s[..3] + [s[3]] == s && s[2..] == [s[2], s[3]];
    hide Digits;
    DigitsSnoc(h, s[2]);
    DigitsSnoc(s[..3], s[3]);
    DigitsOfTwo(s[2], s[3]);
  }

  lemma FourDigits(s: Bytes, n: int)
    requires |s| == 4
    ensures Digits(s) == Some(n) <==> 0 <= n < 10_000 && s == Four(n)
  {
    hide Digits, Two;
    var h, l := s[..2], s[2..];
    assert s == h + l;
    TwoHalves(s);
    if Digits(s) == Some(n) {
      var v, w := Digits(h).value, Digits(l).value;
      TwoDigits(h, v);
      TwoDigits(l, w);
      DivisionIsUnique(n, 100, v, w);
    }
    if 0 <= n < 10_000 && s == Four(n) {
      assert h == Two(n / 100) && l == Two(n % 100);
      TwoDigits(h, n / 100);
      TwoDigits(l, n % 100);
    }
  }

  lemma InstantFits(p: UtcParts)
    requires ValidParts(p)
    ensures 0 <= Instant(p) <= U64_MAX
    ensures DaysFromCivil(p.date) >= 0
  {
    hide DaysFromCivil;
    EveryDateIsReached(p.date);
    LastDay();
    DayNumbersAreOrdered(Date(9999, 12, 31), p.date);
  }

  lemma LastDay()
    ensures DaysFromCivil(Date(9999, 12, 31)) == 2_932_896
  {
  }

  // The parser accepts exactly the formatted timestamps, and reads each as its instant.
  lemma ParseIsInverseOfFormat(raw: Bytes, ms: u64)
    ensures Parse(raw) == Some(ms)
       <==> exists p :: ValidParts(p) && raw == Format(p) && ms == Instant(p)
  {
    if Parse(raw) == Some(ms) {
      var p := Accepted(raw, ms);
    }
    if p :| ValidParts(p) && raw == Format(p) && ms == Instant(p) {
      FormatParses(p);
    }
  }

  lemma Accepted(raw: Bytes, ms: u64) returns (p: UtcParts)
    requires Parse(raw) == Some(ms)
    ensures ValidParts(p) && raw == Format(p) && ms == Instant(p)
  {
    var year, month, day := Digits(raw[0..4]).value, Digits(raw[5..7]).value, Digits(raw[8..10]).value;
    var hour, minute, second := Digits(raw[11..13]).value, Digits(raw[14..16]).value, Digits(raw[17..19]).value;
    FourDigits(raw[0..4], year);
    TwoDigits(raw[5..7], month);
    TwoDigits(raw[8..10], day);
    TwoDigits(raw[11..13], hour);
    TwoDigits(raw[14..16], minute);
    TwoDigits(raw[17..19], second);
    p := UtcParts(Date(year, month, day), hour, minute, second);
    assert raw == raw[0..4] + [45] + raw[5..7] + [45] + raw[8..10] + [84]
                  + raw[11..13] + [58] + raw[14..16] + [58] + raw[17..19] + [90];
  }

  lemma FormatParses(p: UtcParts)
    requires ValidParts(p)
    ensures Parse(Format(p)) == Some(Instant(p))
  {
    var raw := Format(p);
    assert raw[0..4] == Four(p.date.year);
    assert raw[5..7] == Two(p.date.month);
    assert raw[8..10] == Two(p.date.day);
    assert raw[11..13] == Two(p.hour);
    assert raw[14..16] == Two(p.minute);
    assert raw[17..19] == Two(p.second);
    FourDigits(raw[0..4], p.date.year);
    TwoDigits(raw[5..7], p.date.month);
    TwoDigits(raw[8..10], p.date.day);
    TwoDigits(raw[11..13], p.hour);
    TwoDigits(raw[14..16], p.minute);
    TwoDigits(raw[17..19], p.second);
    InstantFits(p);
  }

  // Reading a timestamp and showing it in UTC gives the same fields back.
  lemma ParsedPartsAreShown(p: UtcParts)
    requires ValidParts(p)
    ensures 0 <= Instant(p) <= U64_MAX && ToUtcParts(Instant(p)) == p
  {
    hide CivilFromDays, DaysFromCivil, ToUtcParts, DateAfter, DaysInMonth;
    InstantFits(p);
    EveryDateIsReached(p.date);
    PartsOfInstant(DaysFromCivil(p.date), p.hour, p.minute, p.second);
  }

  // Later timestamps are later instants, and only those.
  lemma InstantsAreOrdered(a: UtcParts, b: UtcParts)
    requires ValidParts(a) && ValidParts(b)
    ensures Earlier(a, b) <==> Instant(a) < Instant(b)
  {
    hide DaysFromCivil;
    InstantFits(a);
    InstantFits(b);
    DayNumbersAreOrdered(a.date, b.date);
    DayNumbersAreOrdered(b.date, a.date);
    if !Before(a.date, b.date) && !Before(b.date, a.date) {
      assert a.date == b.date;
    }
    ClockOrder(a, b);
  }

  lemma ClockOrder(a: UtcParts, b: UtcParts)
    requires 0 <= a.hour <= 23 && 0 <= a.minute <= 59 && 0 <= a.second <= 59
    requires 0 <= b.hour <= 23 && 0 <= b.minute <= 59 && 0 <= b.second <= 59
    ensures var ta := a.hour * 3_600 + a.minute * 60 + a.second;
            var tb := b.hour * 3_600 + b.minute * 60 + b.second;
            0 <= ta < 86_400 && 0 <= tb < 86_400
            && (ta < tb <==>
                  a.hour < b.hour
                  || (a.hour == b.hour
                      && (a.minute < b.minute || (a.minute == b.minute && a.second < b.second))))
  {
  }
}

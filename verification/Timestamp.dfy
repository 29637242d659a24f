/** The strict check of a timestamp text: it accepts exactly the renderings of real
    calendar moments. */
module Timestamp {

  type Bytes = string

  datatype Moment = Moment(
    year: nat, month: nat, day: nat, hour: nat, minute: nat, second: nat,
    west: bool, zoneHour: nat, zoneMinute: nat)

  predicate Leap(year: nat) {
    year % 4 == 0 && (year % 100 != 0 || year % 400 == 0)
  }

  function DaysIn(year: nat, month: nat): nat {
    if month == 2 then (if Leap(year) then 29 else 28)
    else if month == 4 || month == 6 || month == 9 || month == 11 then 30
    else 31
  }

  /** A moment of the calendar in years 1 to 9999, leap seconds included. */
  predicate Real(m: Moment) {
    && 1 <= m.year <= 9999 && 1 <= m.month <= 12 && 1 <= m.day <= DaysIn(m.year, m.month)
    && m.hour <= 23 && m.minute <= 59 && m.second <= 60 && m.zoneHour <= 23 && m.zoneMinute <= 59
  }

  function Digit(d: nat): char
    requires d < 10
  {
    (48 + d) as char
  }

  predicate IsDigit(c: char) {
    '0' <= c <= '9'
  }

  function Value(c: char): nat
    requires IsDigit(c)
  {
    c as nat - 48
  }

  /** Two decimal digits, by counting tens, so that proofs stay linear. */
  function Pair(n: nat): Bytes
    requires n < 100
    ensures |Pair(n)| == 2
    ensures IsDigit(Pair(n)[0]) && IsDigit(Pair(n)[1]) && 10 * Value(Pair(n)[0]) + Value(Pair(n)[1]) == n
  {
    if n < 10 then ['0', Digit(n)] else [Digit(Value(Pair(n - 10)[0]) + 1), Pair(n - 10)[1]]
  }

  /** `YYYY-MM-DDTHH:MM:SS` and `+HHMM`. */
  function Date(m: Moment): Bytes
    requires Real(m)
  {
    var century, y, mo, d := Pair(m.year / 100), Pair(m.year % 100), Pair(m.month), Pair(m.day);
    var h, mi, s := Pair(m.hour), Pair(m.minute), Pair(m.second);
    [century[0], century[1], y[0], y[1], '-', mo[0], mo[1], '-', d[0], d[1], 'T', h[0], h[1], ':', mi[0], mi[1], ':', s[0], s[1]]
  }

  function Zone(m: Moment): Bytes
    requires Real(m)
  {
    var h, mi := Pair(m.zoneHour), Pair(m.zoneMinute);
    [if m.west then '-' else '+', h[0], h[1], mi[0], mi[1]]
  }

  /** The character between the fields, or '0' where a digit stands. */
  function Delimiter(i: nat): char {
    if i == 4 || i == 7 then '-' else if i == 10 then 'T' else if i == 13 || i == 16 then ':' else '0'
  }

  predicate Fits(c: char, i: nat) {
    if Delimiter(i) != '0' then c == Delimiter(i) else IsDigit(c)
  }

  predicate DateShape(date: Bytes) {
    |date| == 19 && forall i :: 0 <= i < 19 ==> Fits(date[i], i)
  }

  predicate ZoneShape(zone: Bytes) {
    |zone| == 5 && (zone[0] == '+' || zone[0] == '-') && forall i :: 1 <= i < 5 ==> IsDigit(zone[i])
  }

  function Two(a: char, b: char): nat
    requires IsDigit(a) && IsDigit(b)
  {
    10 * Value(a) + Value(b)
  }

  /** The fields of a text of the right shape. */
  function Parsed(date: Bytes, zone: Bytes): Moment
    requires DateShape(date) && ZoneShape(zone)
  {
    Moment(100 * Two(date[0], date[1]) + Two(date[2], date[3]), Two(date[5], date[6]), Two(date[8], date[9]),
           Two(date[11], date[12]), Two(date[14], date[15]), Two(date[17], date[18]),
           zone[0] == '-', Two(zone[1], zone[2]), Two(zone[3], zone[4]))
  }

  lemma PairRead(a: char, b: char)
    requires IsDigit(a) && IsDigit(b)
    ensures Two(a, b) < 100 && Pair(Two(a, b)) == [a, b]
  {
    var p := Pair(Two(a, b));
    assert Value(p[0]) == Value(a) && Value(p[1]) == Value(b);
    assert p == [p[0], p[1]];
  }

  lemma TextShape(m: Moment)
    requires Real(m)
    ensures DateShape(Date(m)) && ZoneShape(Zone(m))
  {
    DateFits(m);
  }

  lemma DateFits(m: Moment)
    requires Real(m)
    ensures DateShape(Date(m))
  {
  }

  lemma DateParse(m: Moment)
    requires Real(m) && DateShape(Date(m)) && ZoneShape(Zone(m))
    ensures var p := Parsed(Date(m), Zone(m));
            p.year == m.year && p.month == m.month && p.day == m.day && p.hour == m.hour && p.minute == m.minute && p.second == m.second
  {
  }

  lemma ZoneParse(m: Moment)
    requires Real(m) && DateShape(Date(m)) && ZoneShape(Zone(m))
    ensures var p := Parsed(Date(m), Zone(m));
            p.west == m.west && p.zoneHour == m.zoneHour && p.zoneMinute == m.zoneMinute
  {
  }

  /** A real moment is read back from its text. */
  lemma RenderParse(m: Moment)
    requires Real(m)
    ensures DateShape(Date(m)) && ZoneShape(Zone(m)) && Parsed(Date(m), Zone(m)) == m
  {
    TextShape(m);
    DateParse(m);
    ZoneParse(m);
  }

  lemma DateRendered(date: Bytes, zone: Bytes)
    requires DateShape(date) && ZoneShape(zone) && Real(Parsed(date, zone))
    ensures Date(Parsed(date, zone)) == date
  {
    var m := Parsed(date, zone);
    assert Fits(date[0], 0) && Fits(date[1], 1) && Fits(date[2], 2) && Fits(date[3], 3) && Fits(date[4], 4) && Fits(date[7], 7);
    assert Fits(date[10], 10) && Fits(date[13], 13) && Fits(date[16], 16);
    PairRead(date[0], date[1]);
    PairRead(date[2], date[3]);
    assert m.year / 100 == Two(date[0], date[1]) && m.year % 100 == Two(date[2], date[3]);
    PairRead(date[5], date[6]);
    PairRead(date[8], date[9]);
    PairRead(date[11], date[12]);
    PairRead(date[14], date[15]);
    PairRead(date[17], date[18]);
  }

  lemma ZoneRendered(date: Bytes, zone: Bytes)
    requires DateShape(date) && ZoneShape(zone) && Real(Parsed(date, zone))
    ensures Zone(Parsed(date, zone)) == zone
  {
    PairRead(zone[1], zone[2]);
    PairRead(zone[3], zone[4]);
  }

  /** The text of some real moment. */
  ghost predicate Canonical(date: Bytes, zone: Bytes) {
    exists m :: Real(m) && date == Date(m) && zone == Zone(m)
  }

  lemma CanonicalExactly(date: Bytes, zone: Bytes)
    ensures Canonical(date, zone) <==> DateShape(date) && ZoneShape(zone) && Real(Parsed(date, zone))
  {
    if DateShape(date) && ZoneShape(zone) && Real(Parsed(date, zone)) {
      DateRendered(date, zone);
      ZoneRendered(date, zone);
    } else if m :| Real(m) && date == Date(m) && zone == Zone(m) {
      RenderParse(m);
    }
  }

  const DAYS: seq<nat> := [31, 28, 31, 30, 31, 30, 31, 31, 30, 31, 30, 31]

  /** `canonical_time` */
  method CanonicalTime(valid: bool, date: Bytes, zone: Bytes) returns (ok: bool)
    ensures ok <==> valid && Canonical(date, zone)
  {
    CanonicalExactly(date, zone);
    if !valid || |date| != 19 || |zone| != 5 { return false; }
    var i := 0;
    while i < 19
      invariant 0 <= i <= 19 && forall j :: 0 <= j < i ==> Fits(date[j], j)
    {
      if !Fits(date[i], i) { return false; }
      i := i + 1;
    }
    if zone[0] != '+' && zone[0] != '-' { return false; }
    i := 1;
    while i < 5
      invariant 1 <= i <= 5 && forall j :: 1 <= j < i ==> IsDigit(zone[j])
    {
      if !IsDigit(zone[i]) { return false; }
      i := i + 1;
    }
    assert Fits(date[0], 0) && Fits(date[1], 1) && Fits(date[2], 2) && Fits(date[3], 3) && Fits(date[5], 5) && Fits(date[6], 6);
    assert Fits(date[8], 8) && Fits(date[9], 9) && Fits(date[11], 11) && Fits(date[12], 12) && Fits(date[14], 14);
    assert Fits(date[15], 15) && Fits(date[17], 17) && Fits(date[18], 18);
    var year := 1000 * Value(date[0]) + 100 * Value(date[1]) + 10 * Value(date[2]) + Value(date[3]);
    var month, day := Two(date[5], date[6]), Two(date[8], date[9]);
    var hour, minute, second := Two(date[11], date[12]), Two(date[14], date[15]), Two(date[17], date[18]);
    var zoneHour, zoneMinute := Two(zone[1], zone[2]), Two(zone[3], zone[4]);
    if year == 0 || month == 0 || month > 12 || day == 0 || hour > 23 || minute > 59 || second > 60
       || zoneHour > 23 || zoneMinute > 59
    {
      return false;
    }
    var leap := year % 4 == 0 && (year % 100 != 0 || year % 400 == 0);
    ok := day <= DAYS[month - 1] + (if month == 2 && leap then 1 else 0);
  }
}

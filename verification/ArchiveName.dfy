/** Names of rotated files: `<stem>.<UTC stamp>.<microseconds>Z<ext>`. */
module ArchiveName {

  const FILENAME_MAX: nat := 255

  /** Nanoseconds are kept truncated to whole microseconds. */
  datatype Time = Time(sec: int, nsec: int)

  predicate Before(a: Time, b: Time) {
    a.sec < b.sec || (a.sec == b.sec && a.nsec < b.nsec)
  }

  const FIRST_SECOND: int := -62167219200  // year 0
  const LAST_SECOND: int := 253402300799   // end of year 9999

  predicate TimestampValid(t: Time) {
    0 <= t.nsec < 1_000_000_000 && FIRST_SECOND <= t.sec <= LAST_SECOND
  }

  /** `advance_microsecond` either overflows or gives the next time. */
  datatype Advanced = Overflow | Next(t: Time)

  function AdvanceMicrosecond(t: Time): Advanced {
    var u := if t.nsec < 999_999_000 then Time(t.sec, t.nsec + 1000) else Time(t.sec + 1, 0);
    if TimestampValid(u) then Next(u) else Overflow
  }

  /** A whole-microsecond time moves to the very next whole microsecond, unless
      that leaves the calendar. */
  lemma AdvanceIsNext(t: Time, other: Time)
    requires TimestampValid(t) && t.nsec % 1000 == 0 && other.nsec % 1000 == 0 && 0 <= other.nsec < 1_000_000_000
    ensures AdvanceMicrosecond(t).Next? ==>
              && Before(t, AdvanceMicrosecond(t).t) && AdvanceMicrosecond(t).t.nsec % 1000 == 0
              && TimestampValid(AdvanceMicrosecond(t).t)
              && (Before(t, other) ==> !Before(other, AdvanceMicrosecond(t).t))
    ensures AdvanceMicrosecond(t).Overflow? <==> t == Time(LAST_SECOND, 999_999_000)
  {
  }

  // ---- Text --------------------------------------------------------------------

  predicate Digit(c: char) {
    '0' <= c <= '9'
  }

  /** Byte order of two equally long names. */
  predicate Less(a: string, b: string) {
    |a| == |b| && |a| > 0 && (a[0] < b[0] || (a[0] == b[0] && Less(a[1..], b[1..])))
  }

  function DigitChar(d: nat): char
    requires d < 10
  {
    "0123456789"[d]
  }

  function Pow10(n: nat): nat {
    if n == 0 then 1 else 10 * Pow10(n - 1)
  }

  /** Decimal with leading zeros. */
  function Decimal(value: nat, width: nat): string {
    if width == 0 then "" else Decimal(value / 10, width - 1) + [DigitChar(value % 10)]
  }

  lemma {:induction false} DecimalShape(value: nat, width: nat)
    ensures |Decimal(value, width)| == width
    ensures forall i :: 0 <= i < width ==> Digit(Decimal(value, width)[i])
  {
    if width > 0 { DecimalShape(value / 10, width - 1); }
  }

  lemma {:induction false} LessExtend(a: string, b: string, x: string, y: string)
    requires |x| == |y|
    ensures Less(a, b) ==> Less(a + x, b + y)
    ensures a == b && Less(x, y) ==> Less(a + x, b + y)
  {
    if a == "" {
      assert a + x == x && (b == "" ==> b + y == y);
    } else if b != "" {
      LessExtend(a[1..], b[1..], x, y);
      assert (a + x)[1..] == a[1..] + x && (b + y)[1..] == b[1..] + y;
    }
  }

  lemma {:induction false} DecimalOrder(v: nat, w: nat, width: nat)
    requires v < w < Pow10(width)
    ensures Less(Decimal(v, width), Decimal(w, width))
  {
    assert Pow10(width) == 10 * Pow10(width - 1);
    if v / 10 < w / 10 {
      DecimalOrder(v / 10, w / 10, width - 1);
    } else {
      assert v / 10 == w / 10 && v % 10 < w % 10;
    }
    DecimalShape(v / 10, width - 1);
    DecimalShape(w / 10, width - 1);
    LessExtend(Decimal(v / 10, width - 1), Decimal(w / 10, width - 1), [DigitChar(v % 10)], [DigitChar(w % 10)]);
  }

  /** `YYYYMMDDTHHMMSS` */
  predicate StampShape(s: string) {
    |s| == 15 && s[8] == 'T' && forall i :: 0 <= i < 15 && i != 8 ==> Digit(s[i])
  }

  /** What calendar formatting is taken to do: whenever it produces its fifteen
      characters they are digits around a `T`, and later seconds sort later. */
  ghost predicate Calendar(stamp: int -> string) {
    && (forall s :: |stamp(s)| == 15 ==> StampShape(stamp(s)))
    && (forall s, t :: s < t && |stamp(s)| == 15 && |stamp(t)| == 15 ==> Less(stamp(s), stamp(t)))
  }

  function NameOf(stem: string, ext: string, stamp: string, micros: nat): string {
    stem + "." + stamp + "." + Decimal(micros, 6) + "Z" + ext
  }

  datatype Result = Name(name: string) | NameError

  /** `archive_name` into a buffer of FILENAME_MAX + 1 bytes. */
  function MakeName(stem: string, ext: string, stamp: int -> string, t: Time): Result {
    if !TimestampValid(t) || |stamp(t.sec)| != 15 then NameError
    else
      var name := NameOf(stem, ext, stamp(t.sec), t.nsec / 1000);
      if |name| >= FILENAME_MAX + 1 then NameError else Name(name)
  }

  /** `archive_matches` */
  method Matches(stem: string, ext: string, name: string) returns (ok: bool)
    ensures ok <==> Archive(stem, ext, name)
  {
    if |name| != |stem| + 24 + |ext| || name[..|stem|] != stem || name[|stem|] != '.' {
      return false;
    }
    var p := name[|stem| + 1..];
    var i := 0;
    while i < 23
      invariant 0 <= i <= 23
      invariant forall j :: 0 <= j < i ==> Fits(p, j)
    {
      if !Fits(p, i) {
        return false;
      }
      i := i + 1;
    }
    ok := p[23..] == ext;
  }

  predicate Fits(p: string, i: nat)
    requires i < 23 <= |p|
  {
    if i == 8 then p[i] == 'T'
    else if i == 15 then p[i] == '.'
    else if i == 22 then p[i] == 'Z'
    else Digit(p[i])
  }

  predicate Archive(stem: string, ext: string, name: string) {
    && |name| == |stem| + 24 + |ext|
    && name[..|stem|] == stem && name[|stem|] == '.'
    && (var p := name[|stem| + 1..]; forall i :: 0 <= i < 23 ==> Fits(p, i))
    && name[|stem| + 24..] == ext
  }

  /** Every generated name has the archive shape, so retention recognizes it. */
  lemma NamesMatch(stem: string, ext: string, stamp: string, micros: nat)
    requires StampShape(stamp)
    ensures Archive(stem, ext, NameOf(stem, ext, stamp, micros))
  {
    DecimalShape(micros, 6);
    var name, middle := NameOf(stem, ext, stamp, micros), stamp + "." + Decimal(micros, 6) + "Z";
    assert name == stem + "." + middle + ext;
    var p := name[|stem| + 1..];
    assert p == middle + ext && |middle| == 23;
    assert name[..|stem|] == stem && name[|stem| + 24..] == ext;
    assert forall i :: 0 <= i < 15 ==> p[i] == stamp[i];
    assert forall i :: 16 <= i < 22 ==> p[i] == Decimal(micros, 6)[i - 16];
  }

  /** Under the length rule that binding a path enforces, a name always fits. */
  lemma NamesFit(stem: string, ext: string, stamp: int -> string, t: Time)
    requires Calendar(stamp) && TimestampValid(t) && |stem| + |ext| + 24 <= FILENAME_MAX
    ensures MakeName(stem, ext, stamp, t).NameError? <==> |stamp(t.sec)| != 15
    ensures MakeName(stem, ext, stamp, t).Name? ==> Archive(stem, ext, MakeName(stem, ext, stamp, t).name)
  {
    DecimalShape(t.nsec / 1000, 6);
    if |stamp(t.sec)| == 15 { NamesMatch(stem, ext, stamp(t.sec), t.nsec / 1000); }
  }

  /** Everything after the seconds. */
  function Fraction(t: Time, ext: string): string
    requires t.nsec >= 0
  {
    "." + (Decimal(t.nsec / 1000, 6) + ("Z" + ext))
  }

  lemma FractionsSort(a: Time, b: Time, ext: string)
    requires 0 <= a.nsec < b.nsec < 1_000_000_000 && a.nsec % 1000 == 0 && b.nsec % 1000 == 0
    ensures Less(Fraction(a, ext), Fraction(b, ext))
  {
    var x, y := a.nsec / 1000, b.nsec / 1000;
    assert Pow10(6) == 1_000_000;
    DecimalOrder(x, y, 6);
    DecimalShape(x, 6);
    DecimalShape(y, 6);
    LessExtend(Decimal(x, 6), Decimal(y, 6), "Z" + ext, "Z" + ext);
    LessExtend(".", ".", Decimal(x, 6) + ("Z" + ext), Decimal(y, 6) + ("Z" + ext));
  }

  lemma FractionLength(t: Time, ext: string)
    requires t.nsec >= 0
    ensures |Fraction(t, ext)| == 8 + |ext|
  {
    DecimalShape(t.nsec / 1000, 6);
  }

  lemma StampsSort(stamp: int -> string, a: Time, b: Time, ext: string)
    requires Calendar(stamp) && Before(a, b) && a.nsec % 1000 == 0 && b.nsec % 1000 == 0
    requires TimestampValid(a) && TimestampValid(b) && |stamp(a.sec)| == 15 && |stamp(b.sec)| == 15
    ensures Less(stamp(a.sec) + Fraction(a, ext), stamp(b.sec) + Fraction(b, ext))
  {
    FractionLength(a, ext);
    FractionLength(b, ext);
    if a.sec == b.sec { FractionsSort(a, b, ext); }
    LessExtend(stamp(a.sec), stamp(b.sec), Fraction(a, ext), Fraction(b, ext));
  }

  lemma NameParts(stem: string, ext: string, stamp: string, t: Time)
    requires t.nsec >= 0
    ensures NameOf(stem, ext, stamp, t.nsec / 1000) == (stem + ".") + (stamp + Fraction(t, ext))
  {
  }

  /** Later archives sort after earlier ones. */
  lemma NamesSort(stem: string, ext: string, stamp: int -> string, a: Time, b: Time)
    requires Calendar(stamp) && Before(a, b) && a.nsec % 1000 == 0 && b.nsec % 1000 == 0
    requires MakeName(stem, ext, stamp, a).Name? && MakeName(stem, ext, stamp, b).Name?
    ensures Less(MakeName(stem, ext, stamp, a).name, MakeName(stem, ext, stamp, b).name)
  {
    StampsSort(stamp, a, b, ext);
    FractionLength(a, ext);
    FractionLength(b, ext);
    LessExtend(stem + ".", stem + ".", stamp(a.sec) + Fraction(a, ext), stamp(b.sec) + Fraction(b, ext));
    NameParts(stem, ext, stamp(a.sec), a);
    NameParts(stem, ext, stamp(b.sec), b);
  }

  /** An archive never has the name of the active file or of its lock file. */
  lemma NamesDiffer(stem: string, ext: string, name: string)
    requires Archive(stem, ext, name)
    ensures name != stem + ext && name != stem + ext + ".logger.lock"
  {
    assert |".logger.lock"| == 12;
  }

  // ---- Splitting the base name -----------------------------------------------------

  /** The position of the last dot, or -1. */
  function LastDot(base: string): (i: int)
    ensures -1 <= i < |base|
  {
    if base == "" then -1
    else if base[|base| - 1] == '.' then |base| - 1
    else LastDot(base[..|base| - 1])
  }

  /** Stem and extension as `bind_path` splits them: a leading dot is not an
      extension. */
  function Split(base: string): (string, string) {
    var dot := LastDot(base);
    if dot > 0 then (base[..dot], base[dot..]) else (base, "")
  }

  lemma {:induction false} LastDotIsLast(base: string)
    ensures LastDot(base) >= 0 ==> base[LastDot(base)] == '.'
    ensures forall i :: LastDot(base) < i < |base| ==> base[i] != '.'
  {
    if base != "" && base[|base| - 1] != '.' { LastDotIsLast(base[..|base| - 1]); }
  }

  /** The parts make up the whole, the stem is not empty, and the extension starts
      with the only dot in it. */
  lemma SplitParts(base: string)
    requires base != ""
    ensures Split(base).0 + Split(base).1 == base && Split(base).0 != ""
    ensures Split(base).1 != "" ==> Split(base).1[0] == '.' && '.' !in Split(base).1[1..]
    ensures Split(base).1 == "" ==> forall i :: 0 < i < |base| ==> base[i] != '.'
  {
    LastDotIsLast(base);
  }
}

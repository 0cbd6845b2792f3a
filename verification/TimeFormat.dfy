/** RFC 3339 text of a UTC instant with nanoseconds, as Go's time.RFC3339Nano layout writes it. */
module TimeFormat {
  import opened Strings

  datatype RawTime = RawTime(year: int, month: nat, day: nat, hour: nat, minute: nat, second: nat, nanos: nat) {
    predicate InRange() {
      month < 100 && day < 100 && hour < 100 && minute < 100 && second < 100 && nanos < 1_000_000_000
    }
  }

  /** An instant, given by its UTC calendar fields. */
  type Time = t: RawTime | t.InRange() witness RawTime(1, 1, 1, 0, 0, 0, 0)

  /** Go's zero time, January 1 of year 1. */
  const ZERO: Time := RawTime(1, 1, 1, 0, 0, 0, 0)

  function YearText(year: int): string {
    if year < 0 then "-" + Padded(-year, 4) else Padded(year, 4)
  }

  function TrimZeros(s: string): (t: string)
    ensures |t| <= |s|
    ensures forall c :: c in t ==> c in s
  {
    if s != [] && s[|s| - 1] == '0' then TrimZeros(s[..|s| - 1]) else s
  }

  function Fraction(nanos: nat): string {
    if nanos == 0 then "" else "." + TrimZeros(Padded(nanos, 9))
  }

  function DateHour(t: Time): string {
    YearText(t.year) + ("-" + Padded(t.month, 2)) + ("-" + Padded(t.day, 2)) + ("T" + Padded(t.hour, 2))
  }

  function Seconds(t: Time): string {
    Padded(t.second, 2) + Fraction(t.nanos) + "Z"
  }

  /** The three colon-separated pieces of a time's text. */
  datatype Stamp = Stamp(dateHour: string, minute: string, seconds: string) {
    predicate Clean() {
      && ':' !in dateHour && ':' !in minute && ':' !in seconds
      && StartsLikeNumber(dateHour) && StartsLikeNumber(minute) && StartsLikeNumber(seconds)
    }

    function Text(): string {
      dateHour + [':'] + minute + [':'] + seconds
    }
  }

  function StampOf(t: Time): Stamp {
    Stamp(DateHour(t), Padded(t.minute, 2), Seconds(t))
  }

  function Format(t: Time): string {
    StampOf(t).Text()
  }

  lemma TwoDigits(n: nat)
    requires n < 100
    ensures |Padded(n, 2)| == 2 && AllDigits(Padded(n, 2)) && Value(Padded(n, 2)) == n
  {
    assert Pow10(2) == 100 by { assert Pow10(1) == 10; }
    PaddedLength(n, 2);
    PaddedReads(n, 2);
  }

  lemma NineDigits(n: nat)
    requires n < 1_000_000_000
    ensures |Padded(n, 9)| == 9 && AllDigits(Padded(n, 9)) && Value(Padded(n, 9)) == n
  {
    assert Pow10(9) == 1_000_000_000 by {
      assert Pow10(3) == 1000 by { assert Pow10(2) == 100 by { assert Pow10(1) == 10; } }
      assert Pow10(6) == 1_000_000 by { assert Pow10(5) == 100_000 by { assert Pow10(4) == 10_000; } }
      assert Pow10(8) == 100_000_000 by { assert Pow10(7) == 10_000_000; }
    }
    PaddedLength(n, 9);
    PaddedReads(n, 9);
  }

  /** Trimming zeros loses nothing once the width is known. */
  lemma {:induction false} TrimZerosInjective(s: string, t: string)
    requires |s| == |t| && TrimZeros(s) == TrimZeros(t)
    ensures s == t
  {
    if s != [] {
      var sf, tf := s[..|s| - 1], t[..|t| - 1];
      assert s == sf + [s[|s| - 1]] && t == tf + [t[|t| - 1]];
      if s[|s| - 1] == '0' && t[|t| - 1] == '0' {
        TrimZerosInjective(sf, tf);
      } else {
        assert s[|s| - 1] == '0' ==> |TrimZeros(s)| < |s|;
        assert t[|t| - 1] == '0' ==> |TrimZeros(t)| < |t|;
      }
    }
  }

  lemma FractionInjective(m: nat, n: nat)
    requires m < 1_000_000_000 && n < 1_000_000_000 && Fraction(m) == Fraction(n)
    ensures m == n
  {
    if m != 0 && n != 0 {
      hide Value, Padded, AllDigits;
      assert Fraction(m)[1..] == TrimZeros(Padded(m, 9)) && Fraction(n)[1..] == TrimZeros(Padded(n, 9));
      NineDigits(m);
      NineDigits(n);
      TrimZerosInjective(Padded(m, 9), Padded(n, 9));
    }
  }

  lemma YearTextInjective(a: int, b: int)
    requires YearText(a) == YearText(b)
    ensures a == b
  {
    PaddedReads(if a < 0 then -a else a, 4);
    PaddedReads(if b < 0 then -b else b, 4);
    hide Padded, Value;
    assert a < 0 ==> YearText(a)[0] == '-' && YearText(a)[1..] == Padded(-a, 4);
    assert b < 0 ==> YearText(b)[0] == '-' && YearText(b)[1..] == Padded(-b, 4);
  }

  lemma DateHourInjective(s: Time, t: Time)
    requires DateHour(s) == DateHour(t)
    ensures s.year == t.year && s.month == t.month && s.day == t.day && s.hour == t.hour
  {
    TwoDigits(s.month); TwoDigits(s.day); TwoDigits(s.hour);
    TwoDigits(t.month); TwoDigits(t.day); TwoDigits(t.hour);
    hide Padded, Value, AllDigits, YearText;
    var sMonth, tMonth := "-" + Padded(s.month, 2), "-" + Padded(t.month, 2);
    var sDay, tDay := "-" + Padded(s.day, 2), "-" + Padded(t.day, 2);
    var sHour, tHour := "T" + Padded(s.hour, 2), "T" + Padded(t.hour, 2);
    SameTail(YearText(s.year) + sMonth + sDay, sHour, YearText(t.year) + tMonth + tDay, tHour);
    SameTail(YearText(s.year) + sMonth, sDay, YearText(t.year) + tMonth, tDay);
    SameTail(YearText(s.year), sMonth, YearText(t.year), tMonth);
    YearTextInjective(s.year, t.year);
    assert sMonth[1..] == Padded(s.month, 2) && tMonth[1..] == Padded(t.month, 2);
    assert sDay[1..] == Padded(s.day, 2) && tDay[1..] == Padded(t.day, 2);
    assert sHour[1..] == Padded(s.hour, 2) && tHour[1..] == Padded(t.hour, 2);
  }

  lemma SecondsInjective(s: Time, t: Time)
    requires Seconds(s) == Seconds(t)
    ensures s.second == t.second && s.nanos == t.nanos
  {
    TwoDigits(s.second);
    TwoDigits(t.second);
    hide Padded, Fraction, Value, AllDigits;
    SameTail(Padded(s.second, 2) + Fraction(s.nanos), "Z", Padded(t.second, 2) + Fraction(t.nanos), "Z");
    SameTail(Padded(s.second, 2), Fraction(s.nanos), Padded(t.second, 2), Fraction(t.nanos));
    FractionInjective(s.nanos, t.nanos);
  }

  predicate StartsLikeNumber(piece: string) {
    piece != [] && (IsDigit(piece[0]) || piece[0] == '-')
  }

  /** No digit text and no piece built here holds the separator. */
  predicate Plain(s: string) {
    forall i :: 0 <= i < |s| ==> s[i] != ':'
  }

  lemma YearPlain(year: int)
    ensures Plain(YearText(year)) && StartsLikeNumber(YearText(year))
  {
    PaddedReads(if year < 0 then -year else year, 4);
    hide Padded, Value;
  }

  lemma LeadPlain(c: char, n: nat)
    requires c != ':'
    ensures Plain([c] + Padded(n, 2))
  {
    PaddedReads(n, 2);
    hide Padded, Value;
  }

  lemma DateHourPlain(t: Time)
    ensures Plain(DateHour(t)) && StartsLikeNumber(DateHour(t))
  {
    YearPlain(t.year);
    LeadPlain('-', t.month);
    LeadPlain('-', t.day);
    LeadPlain('T', t.hour);
    hide Padded, YearText, Plain;
    PlainConcat(YearText(t.year), "-" + Padded(t.month, 2));
    PlainConcat(YearText(t.year) + ("-" + Padded(t.month, 2)), "-" + Padded(t.day, 2));
    PlainConcat(YearText(t.year) + ("-" + Padded(t.month, 2)) + ("-" + Padded(t.day, 2)), "T" + Padded(t.hour, 2));
    assert DateHour(t)[0] == YearText(t.year)[0];
  }

  lemma SecondsPlain(t: Time)
    ensures Plain(Seconds(t)) && StartsLikeNumber(Seconds(t))
  {
    PaddedReads(t.nanos, 9);
    PaddedReads(t.second, 2);
    hide Padded, Value;
    var digits := TrimZeros(Padded(t.nanos, 9));
    forall i | 0 <= i < |digits| ensures digits[i] != ':' {
      assert digits[i] in Padded(t.nanos, 9);
    }
    PlainConcat(".", digits);
    assert Plain(Fraction(t.nanos));
    PlainConcat(Padded(t.second, 2), Fraction(t.nanos));
    PlainConcat(Padded(t.second, 2) + Fraction(t.nanos), "Z");
  }

  lemma PlainConcat(s: string, t: string)
    requires Plain(s) && Plain(t)
    ensures Plain(s + t)
  {
  }

  /** The text has exactly three colon-separated pieces, none of which starts with a letter. */
  lemma StampIsClean(t: Time)
    ensures StampOf(t).Clean()
  {
    DateHourPlain(t);
    SecondsPlain(t);
    PaddedReads(t.minute, 2);
    hide Padded, Value;
    assert Plain(Padded(t.minute, 2));
  }

  lemma StampInjective(s: Time, t: Time)
    requires StampOf(s) == StampOf(t)
    ensures s == t
  {
    PaddedReads(s.minute, 2);
    PaddedReads(t.minute, 2);
    hide Padded, Value;
    DateHourInjective(s, t);
    SecondsInjective(s, t);
  }

  /** The formatter is injective. */
  lemma FormatInjective(s: Time, t: Time)
    requires Format(s) == Format(t)
    ensures s == t
  {
    StampIsClean(s);
    StampIsClean(t);
    var p, q := StampOf(s), StampOf(t);
    LastPiece(p.dateHour + [':'] + p.minute, p.seconds, q.dateHour + [':'] + q.minute, q.seconds, ':');
    LastPiece(p.dateHour, p.minute, q.dateHour, q.minute, ':');
    StampInjective(s, t);
  }

  /** The layout, at one instant with whole seconds. */
  lemma FormatExample()
    ensures Format(RawTime(2024, 1, 20, 3, 45, 6, 0)) == "2024-01-20T03:45:06Z"
  {
    var t: Time := RawTime(2024, 1, 20, 3, 45, 6, 0);
    TwoDigitTexts();
    hide Padded;
    assert DateHour(t) == "2024-01-20T03" && Seconds(t) == "06Z";
    hide DateHour, Seconds;
    assert Format(t) == "2024-01-20T03" + ":" + "45" + ":" + "06Z";
  }

  lemma TwoDigitTexts()
    ensures Padded(1, 2) == "01" && Padded(20, 2) == "20" && Padded(3, 2) == "03" && Padded(45, 2) == "45"
    ensures Padded(6, 2) == "06" && Padded(2024, 4) == "2024"
  {
    assert Decimal(20) == "20" && Decimal(202) == "202" && Decimal(2024) == "2024";
  }

  predicate AllZeros(s: string) {
    forall i :: 0 <= i < |s| ==> s[i] == '0'
  }

  lemma {:induction false} TrimmedZeros(s: string) returns (zeros: string)
    ensures AllZeros(zeros) && s == TrimZeros(s) + zeros
    ensures TrimZeros(s) != "" ==> TrimZeros(s)[|TrimZeros(s)| - 1] != '0'
  {
    zeros := "";
    if s != [] && s[|s| - 1] == '0' {
      zeros := TrimmedZeros(s[..|s| - 1]);
      zeros := zeros + "0";
    }
  }

  /** A fraction is a point and the nine digits of the nanoseconds without the zeros at the end, or nothing. */
  lemma FractionIs(nanos: nat) returns (digits: string, zeros: string)
    requires 0 < nanos < 1_000_000_000
    ensures Fraction(nanos) == "." + digits && AllZeros(zeros) && |digits + zeros| == 9
    ensures AllDigits(digits + zeros) && Value(digits + zeros) == nanos && (digits != "" ==> digits[|digits| - 1] != '0')
  {
    NineDigits(nanos);
    hide Padded, Value;
    digits := TrimZeros(Padded(nanos, 9));
    zeros := TrimmedZeros(Padded(nanos, 9));
  }
}

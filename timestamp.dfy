/**
 * `parse_timestamp`: a Wayback capture timestamp `yyyyMMddhhmmss` cut into
 * six fixed slices, each read with `int()`, and handed to `datetime`.
 */
module Timestamp {
  import opened Wrappers
  import opened Decimal

  /** The fields of the `datetime` the source builds (no time zone). */
  datatype Moment = Moment(year: int, month: int, day: int, hour: int, minute: int, second: int)

  /** Python's `s[lo:hi]` for `0 <= lo <= hi`: bounds past the end are clamped. */
  function Slice(s: string, lo: nat, hi: nat): (r: string)
    requires lo <= hi
    ensures |r| == (if |s| <= lo then 0 else if |s| <= hi then |s| - lo else hi - lo)
    ensures forall i :: 0 <= i < |r| ==> r[i] == s[lo + i]
  {
    if |s| <= lo then "" else if |s| <= hi then s[lo..] else s[lo..hi]
  }

  predicate IsLeapYear(y: int) {
    y % 4 == 0 && (y % 100 != 0 || y % 400 == 0)
  }

  function DaysInMonth(y: int, m: int): int
    requires 1 <= m <= 12
  {
    if m == 2 then (if IsLeapYear(y) then 29 else 28)
    else if m == 4 || m == 6 || m == 9 || m == 11 then 30
    else 31
  }

  /** The range checks `datetime(...)` makes before it accepts its arguments. */
  predicate ValidMoment(m: Moment) {
    && 1 <= m.year <= 9999
    && 1 <= m.month <= 12
    && 1 <= m.day <= DaysInMonth(m.year, m.month)
    && 0 <= m.hour < 24
    && 0 <= m.minute < 60
    && 0 <= m.second < 60
  }

  /**
   * `parse_timestamp(t)`; None stands for the ValueError that `int()` or
   * `datetime()` raises. The last slice `t[12:14]` is empty, so `int("")`
   * fails, for every string of twelve characters or fewer.
   */
  function ParseTimestamp(t: string): (r: Option<Moment>)
    ensures |t| <= 12 ==> r == None
    ensures r.Some? ==> ValidMoment(r.value)
  {
    match (ParseInt(Slice(t, 0, 4)), ParseInt(Slice(t, 4, 6)), ParseInt(Slice(t, 6, 8)),
           ParseInt(Slice(t, 8, 10)), ParseInt(Slice(t, 10, 12)), ParseInt(Slice(t, 12, 14)))
    case (Some(year), Some(month), Some(day), Some(hour), Some(minute), Some(second)) =>
      var m := Moment(year, month, day, hour, minute, second);
      if ValidMoment(m) then Some(m) else None
    case _ => None
  }

  /** The canonical fourteen-digit spelling of a moment, as the CDX index writes it. */
  function FormatTimestamp(m: Moment): (t: string)
    requires ValidMoment(m)
    ensures |t| == 14 && AllDigits(t)
  {
    Pad(m.year, 4) + Pad(m.month, 2) + Pad(m.day, 2) + Pad(m.hour, 2) + Pad(m.minute, 2) + Pad(m.second, 2)
  }

  lemma FieldOfDigits(t: string, lo: nat, hi: nat)
    requires lo < hi <= |t| && forall i :: lo <= i < hi ==> IsDigit(t[i])
    ensures AllDigits(t[lo..hi]) && ParseInt(Slice(t, lo, hi)) == Some(Value(t[lo..hi]))
  {
    assert Slice(t, lo, hi) == t[lo..hi];
    ParseIntOfDigits(t[lo..hi]);
  }

  /** Once each slice's `int()` is known, the result depends only on the range checks. */
  lemma ParseFields(t: string, m: Moment)
    requires ParseInt(Slice(t, 0, 4)) == Some(m.year)
    requires ParseInt(Slice(t, 4, 6)) == Some(m.month)
    requires ParseInt(Slice(t, 6, 8)) == Some(m.day)
    requires ParseInt(Slice(t, 8, 10)) == Some(m.hour)
    requires ParseInt(Slice(t, 10, 12)) == Some(m.minute)
    requires ParseInt(Slice(t, 12, 14)) == Some(m.second)
    ensures ParseTimestamp(t) == if ValidMoment(m) then Some(m) else None
  {
  }

  /**
   * On a string that starts with fourteen digits, the six fields are the
   * decimal values of the slices [0:4], [4:6], [6:8], [8:10], [10:12] and
   * [12:14]; the rest of the string is ignored.
   */
  lemma ParseDigits(t: string)
    requires |t| >= 14 && AllDigits(t[..14])
    ensures ParseTimestamp(t) == if ValidMoment(DigitMoment(t)) then Some(DigitMoment(t)) else None
  {
    assert forall i :: 0 <= i < 14 ==> t[..14][i] == t[i];
    FieldOfDigits(t, 0, 4);
    FieldOfDigits(t, 4, 6);
    FieldOfDigits(t, 6, 8);
    FieldOfDigits(t, 8, 10);
    FieldOfDigits(t, 10, 12);
    FieldOfDigits(t, 12, 14);
    ParseFields(t, DigitMoment(t));
  }

  /** Parsing the canonical spelling of a valid moment gives the moment back. */
  lemma ParseFormat(m: Moment)
    requires ValidMoment(m)
    ensures ParseTimestamp(FormatTimestamp(m)) == Some(m)
  {
    var t := FormatTimestamp(m);
    assert Slice(t, 0, 4) == Pad(m.year, 4);
    assert Slice(t, 4, 6) == Pad(m.month, 2);
    assert Slice(t, 6, 8) == Pad(m.day, 2);
    assert Slice(t, 8, 10) == Pad(m.hour, 2);
    assert Slice(t, 10, 12) == Pad(m.minute, 2);
    assert Slice(t, 12, 14) == Pad(m.second, 2);
    ParseIntPad(m.year, 4);
    ParseIntPad(m.month, 2);
    ParseIntPad(m.day, 2);
    ParseIntPad(m.hour, 2);
    ParseIntPad(m.minute, 2);
    ParseIntPad(m.second, 2);
    ParseFields(t, m);
  }

  /** The moment whose fields are the decimal values of the six slices of a digit string. */
  function DigitMoment(t: string): Moment
    requires |t| >= 14 && AllDigits(t[..14])
  {
    assert forall i :: 0 <= i < 14 ==> t[..14][i] == t[i];
    Moment(Value(t[0..4]), Value(t[4..6]), Value(t[6..8]),
           Value(t[8..10]), Value(t[10..12]), Value(t[12..14]))
  }

  /** A fourteen-character string is the concatenation of its six fields. */
  lemma Fields(t: string)
    requires |t| == 14
    ensures t == t[0..4] + t[4..6] + t[6..8] + t[8..10] + t[10..12] + t[12..14]
  {
    assert t[..6] == t[0..4] + t[4..6];
    assert t[..8] == t[..6] + t[6..8];
    assert t[..10] == t[..8] + t[8..10];
    assert t[..12] == t[..10] + t[10..12];
    assert t == t[..12] + t[12..14];
  }

  lemma FormatDigitMoment(t: string)
    requires |t| == 14 && AllDigits(t) && ValidMoment(DigitMoment(t))
    ensures FormatTimestamp(DigitMoment(t)) == t
  {
    assert t[..14] == t;
    ValuePad(t[0..4]);
    ValuePad(t[4..6]);
    ValuePad(t[6..8]);
    ValuePad(t[8..10]);
    ValuePad(t[10..12]);
    ValuePad(t[12..14]);
    Fields(t);
  }

  /** A fourteen-digit timestamp that parses is the canonical spelling of what it parses to. */
  lemma FormatParse(t: string)
    requires |t| == 14 && AllDigits(t)
    requires ParseTimestamp(t).Some?
    ensures FormatTimestamp(ParseTimestamp(t).value) == t
  {
    assert t[..14] == t;
    ParseDigits(t);
    FormatDigitMoment(t);
  }

  /**
   * A thirteen-digit timestamp is not refused: its slice [12:14] holds a
   * single digit, which becomes the seconds.
   */
  lemma ThirteenCharacters(t: string)
    requires |t| == 13 && AllDigits(t)
    ensures var m := Moment(Value(t[0..4]), Value(t[4..6]), Value(t[6..8]),
                            Value(t[8..10]), Value(t[10..12]), Value(t[12..13]));
            ParseTimestamp(t) == if ValidMoment(m) then Some(m) else None
  {
    FieldOfDigits(t, 0, 4);
    FieldOfDigits(t, 4, 6);
    FieldOfDigits(t, 6, 8);
    FieldOfDigits(t, 8, 10);
    FieldOfDigits(t, 10, 12);
    FieldOfDigits(t, 12, 13);
    assert Slice(t, 12, 14) == t[12..13];
    ParseFields(t, Moment(Value(t[0..4]), Value(t[4..6]), Value(t[6..8]),
                          Value(t[8..10]), Value(t[10..12]), Value(t[12..13])));
  }
}

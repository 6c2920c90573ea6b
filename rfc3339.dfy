/**
 * `format_rfc3339` and `parse_rfc3339` (techsubs/metrics/common.py).
 *
 * The formatter appends `Z` to `isoformat("T")`, which leaves the
 * `.ffffff` part out when the microsecond is 0. The parser is
 * `strptime(s, "%Y-%m-%dT%H:%M:%S.%fZ")`, which insists on a fraction.
 * The round trip therefore holds exactly for datetimes whose microsecond
 * is not 0.
 */
module Rfc3339 {
  import opened Common
  import opened Decimal
  import opened DateTimes

  /** `isoformat("T")` of a naive datetime. */
  function IsoFormat(d: DateTime): string
    requires Valid(d)
  {
    Digits(d.year, 4) + ("-" + (Digits(d.month, 2) + ("-" + (Digits(d.day, 2) + ("T" +
    (Digits(d.hour, 2) + (":" + (Digits(d.minute, 2) + (":" + (Digits(d.second, 2) +
    (if d.microsecond != 0 then "." + Digits(d.microsecond, 6) else "")))))))))))
  }

  /** `format_rfc3339(d)`; the argument is required (the source dereferences a missing one). */
  function FormatRfc3339(d: DateTime): (s: string)
    requires Valid(d)
    ensures |s| == if d.microsecond != 0 then 27 else 20
    ensures s[|s| - 1] == 'Z' && s[10] == 'T' && s[4] == '-' && s[7] == '-'
    ensures d.microsecond != 0 <==> s[19] == '.'
  {
    IsoFormat(d) + "Z"
  }

  // ---------------------------------------------------------------------
  // Parsing, front to back (strptime matches its pattern case-insensitively)

  /** Exactly `w` digits at the front of `s`, and what follows them. */
  function ReadDigits(s: string, w: nat): Option<(nat, string)> {
    if |s| >= w && AllDigits(s[..w]) then Some((ValueOf(s[..w]), s[w..])) else None
  }

  /** One character from `cs` at the front of `s`, and what follows it. */
  function ReadChar(s: string, cs: set<char>): Option<string> {
    if |s| > 0 && s[0] in cs then Some(s[1..]) else None
  }

  /** `%f` followed by a literal `Z` ending the text: 1 to 6 digits, padded on the right. */
  function ReadFractionAndZone(s: string): Option<nat> {
    var n := |s| - 1;
    if 1 <= n <= 6 && AllDigits(s[..n]) && s[n] in {'Z', 'z'}
    then Some(ValueOf(s[..n]) * Pow10(6 - n))
    else None
  }

  /** Matches the text against the pattern and reads the fields (no range checks yet). */
  function ReadFields(s: string): Option<DateTime> {
    var (year, month, day, r0) :- ReadDate(s);
    var (hour, minute, second, r1) :- ReadTime(r0);
    ReadFraction(DateTime(year, month, day, hour, minute, second, 0), r1)
  }

  /** `%Y-%m-%dT`. */
  function ReadDate(s: string): Option<(nat, nat, nat, string)> {
    var (year, r0) :- ReadDigits(s, 4);
    var r1 :- ReadChar(r0, {'-'});
    var (month, r2) :- ReadDigits(r1, 2);
    var r3 :- ReadChar(r2, {'-'});
    var (day, r4) :- ReadDigits(r3, 2);
    var r5 :- ReadChar(r4, {'T', 't'});
    Some((year, month, day, r5))
  }

  /** `%H:%M:%S`. */
  function ReadTime(s: string): Option<(nat, nat, nat, string)> {
    var (hour, r0) :- ReadDigits(s, 2);
    var r1 :- ReadChar(r0, {':'});
    var (minute, r2) :- ReadDigits(r1, 2);
    var r3 :- ReadChar(r2, {':'});
    var (second, r4) :- ReadDigits(r3, 2);
    Some((hour, minute, second, r4))
  }

  /** The `.%fZ` end of the pattern, completing the fields read before it. */
  function ReadFraction(d: DateTime, s: string): Option<DateTime> {
    var r :- ReadChar(s, {'.'});
    var micro :- ReadFractionAndZone(r);
    Some(d.(microsecond := micro))
  }

  /** `parse_rfc3339(s)`: ValueError unless the text matches and names a real datetime. */
  function ParseRfc3339(s: string): (r: Result<DateTime>)
    ensures r.Ok? ==> Valid(r.value)
    ensures r.Ok? ==> 22 <= |s| <= 27 && s[19] == '.'
  {
    match ReadFields(s)
    case None => Err(TimeDataMismatch)
    case Some(d) => if Valid(d) then Ok(d) else Err(TimeDataMismatch)
  }

  // ---------------------------------------------------------------------
  // Round trip

  lemma ReadDigitsOf(n: nat, w: nat, rest: string)
    requires n < Pow10(w)
    ensures ReadDigits(Digits(n, w) + rest, w) == Some((n, rest))
  {
    var s := Digits(n, w) + rest;
    assert s[..w] == Digits(n, w);
    assert s[w..] == rest;
    ValueOfDigits(n, w);
  }

  lemma ReadCharOf(c: char, cs: set<char>, rest: string)
    requires c in cs
    ensures ReadChar([c] + rest, cs) == Some(rest)
  {
    assert ([c] + rest)[1..] == rest;
  }

  /** Reading the rendered fields back gives them again, with or without a fraction. */
  lemma ReadFieldsOfIsoFormat(d: DateTime)
    requires Valid(d)
    ensures d.microsecond != 0 ==> ReadFields(FormatRfc3339(d)) == Some(d)
    ensures d.microsecond == 0 ==> ReadFields(FormatRfc3339(d)) == None
  {
    var tail := (if d.microsecond != 0 then "." + Digits(d.microsecond, 6) else "") + "Z";
    ReadWholeFields(d, tail);
    if d.microsecond != 0 {
      ReadFractionOf(d);
    } else {
      assert tail == "Z";
    }
  }

  /** The pattern up to the seconds matches the rendered date and time, leaving the tail. */
  lemma ReadWholeFields(d: DateTime, tail: string)
    requires Valid(d)
    requires tail == (if d.microsecond != 0 then "." + Digits(d.microsecond, 6) else "") + "Z"
    ensures ReadFields(FormatRfc3339(d)) == ReadFraction(d.(microsecond := 0), tail)
  {
    var time := Digits(d.hour, 2) + (":" + (Digits(d.minute, 2) + (":" + (Digits(d.second, 2) + tail))));
    assert FormatRfc3339(d) == Digits(d.year, 4) + ("-" + (Digits(d.month, 2) + ("-" + (Digits(d.day, 2) + ("T" + time)))));
    ReadDateOf(d.year, d.month, d.day, time);
    ReadTimeOf(d.hour, d.minute, d.second, tail);
  }

  lemma ReadDateOf(year: nat, month: nat, day: nat, rest: string)
    requires year < 10000 && month < 100 && day < 100
    ensures ReadDate(Digits(year, 4) + ("-" + (Digits(month, 2) + ("-" + (Digits(day, 2) + ("T" + rest))))))
         == Some((year, month, day, rest))
  {
    var s3 := Digits(day, 2) + ("T" + rest);
    var s2 := Digits(month, 2) + ("-" + s3);
    ReadDigitsOf(year, 4, "-" + s2);
    ReadCharOf('-', {'-'}, s2);
    ReadDigitsOf(month, 2, "-" + s3);
    ReadCharOf('-', {'-'}, s3);
    ReadDigitsOf(day, 2, "T" + rest);
    ReadCharOf('T', {'T', 't'}, rest);
  }

  lemma ReadTimeOf(hour: nat, minute: nat, second: nat, rest: string)
    requires hour < 100 && minute < 100 && second < 100
    ensures ReadTime(Digits(hour, 2) + (":" + (Digits(minute, 2) + (":" + (Digits(second, 2) + rest)))))
         == Some((hour, minute, second, rest))
  {
    var s2 := Digits(second, 2) + rest;
    var s1 := Digits(minute, 2) + (":" + s2);
    ReadDigitsOf(hour, 2, ":" + s1);
    ReadCharOf(':', {':'}, s1);
    ReadDigitsOf(minute, 2, ":" + s2);
    ReadCharOf(':', {':'}, s2);
    ReadDigitsOf(second, 2, rest);
  }

  /** Six fraction digits and the zone read back as the microsecond. */
  lemma ReadFractionOf(d: DateTime)
    requires d.microsecond < 1_000_000
    ensures ReadFraction(d.(microsecond := 0), "." + Digits(d.microsecond, 6) + "Z") == Some(d)
  {
    var f := Digits(d.microsecond, 6) + "Z";
    assert "." + Digits(d.microsecond, 6) + "Z" == "." + f;
    ReadCharOf('.', {'.'}, f);
    assert f[..6] == Digits(d.microsecond, 6);
    ValueOfDigits(d.microsecond, 6);
    assert ReadFractionAndZone(f) == Some(d.microsecond);
  }

  /**
   * `parse_rfc3339(format_rfc3339(d)) == d` exactly when the microsecond
   * is not 0; otherwise the parse fails with ValueError.
   */
  lemma ParseFormatRoundTrip(d: DateTime)
    requires Valid(d)
    ensures ParseRfc3339(FormatRfc3339(d)) == Ok(d) <==> d.microsecond != 0
    ensures d.microsecond == 0 ==> ParseRfc3339(FormatRfc3339(d)) == Err(TimeDataMismatch)
  {
    ReadFieldsOfIsoFormat(d);
  }
}

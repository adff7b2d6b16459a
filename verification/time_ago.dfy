/**
 * The relative timestamp on an emergency card ("5m ago", "3h ago", "2d ago").
 * The clock and timestamp parsing are inputs: the operation receives the
 * elapsed milliseconds, or nothing when the timestamp did not parse (the
 * source then computes with NaN).
 */
module TimeAgo {
  import opened Base
  import Text

  const MinuteMs: int := 60000
  const HourMs: int := 60 * MinuteMs
  const DayMs: int := 24 * HourMs

  /** The band a time difference falls in, with its count; `NotANumber` for an unparsable timestamp. */
  datatype Ago = Minutes(count: int) | Hours(count: int) | Days(count: int) | NotANumber

  /**
   * `getTimeAgo` on a millisecond difference.  `Math.floor` of a quotient by a
   * positive divisor is Dafny's `/`.
   */
  function Bucket(diff: int): (a: Ago)
    ensures a != NotANumber
    ensures a.Minutes? <==> diff < HourMs
    ensures a.Days? <==> diff >= DayMs
  {
    var mins := diff / MinuteMs;
    if mins < 60 then Minutes(mins)
    else
      var hrs := mins / 60;
      if hrs < 24 then Hours(hrs) else Days(hrs / 24)
  }

  function TimeAgo(diff: Option<int>): (a: Ago)
    ensures diff.None? <==> a == NotANumber
  {
    match diff
    case Some(d) => Bucket(d)
    case None => NotANumber
  }

  /** Under an hour: the number of whole minutes elapsed (rounded down), negative for future timestamps. */
  lemma MinutesBand(diff: int)
    ensures Bucket(diff).Minutes? <==> diff < HourMs
    ensures Bucket(diff).Minutes? ==>
      var n := Bucket(diff).count; n * MinuteMs <= diff < n * MinuteMs + MinuteMs
    ensures diff < 0 ==> Bucket(diff).Minutes? && Bucket(diff).count < 0
  {
  }

  /** From one hour up to a day: the whole hours elapsed, between 1 and 23. */
  lemma HoursBand(diff: int)
    ensures Bucket(diff).Hours? <==> HourMs <= diff < DayMs
    ensures Bucket(diff).Hours? ==>
      var n := Bucket(diff).count; 1 <= n <= 23 && n * HourMs <= diff < n * HourMs + HourMs
  {
    var mins := diff / MinuteMs;
    if mins >= 60 {
      var hrs := mins / 60;
      assert hrs * 60 <= mins < hrs * 60 + 60;
      assert mins * MinuteMs <= diff < mins * MinuteMs + MinuteMs;
      assert hrs * HourMs <= diff < hrs * HourMs + HourMs;
    }
  }

  /**
   * From a day on: the whole days elapsed, at least 1.  Flooring the hours and
   * then the days is the same as flooring the milliseconds by a day.
   */
  lemma DaysBand(diff: int)
    ensures Bucket(diff).Days? <==> DayMs <= diff
    ensures Bucket(diff).Days? ==>
      var n := Bucket(diff).count; 1 <= n && n * DayMs <= diff < n * DayMs + DayMs
    ensures Bucket(diff).Days? ==> Bucket(diff).count == diff / DayMs
  {
    var mins := diff / MinuteMs;
    if mins >= 60 {
      var hrs := mins / 60;
      var days := hrs / 24;
      assert mins * MinuteMs <= diff < mins * MinuteMs + MinuteMs;
      assert hrs * 60 <= mins < hrs * 60 + 60;
      assert hrs * HourMs <= diff < hrs * HourMs + HourMs;
      assert days * 24 <= hrs < days * 24 + 24;
      assert days * DayMs <= diff < days * DayMs + DayMs;
    }
  }

  // ---------------------------------------------------------------------------
  // The label

  function Suffix(a: Ago): string {
    match a
    case Minutes(_) => "m ago"
    case Hours(_) => "h ago"
    case Days(_) => "d ago"
    case NotANumber => "d ago"
  }

  /** The text on the card; NaN falls through both comparisons into the day branch. */
  function Label(a: Ago): (s: string)
    ensures Text.IsSuffix(Suffix(a), s)
  {
    match a
    case Minutes(n) => Text.IntToString(n) + "m ago"
    case Hours(n) => Text.IntToString(n) + "h ago"
    case Days(n) => Text.IntToString(n) + "d ago"
    case NotANumber => "NaNd ago"
  }

  /** Reads a label back. */
  function ParseLabel(s: string): Option<Ago> {
    if s == "NaNd ago" then Some(NotANumber)
    else if |s| < 5 then None
    else
      var unit := s[|s| - 5..];
      match Text.ParseInt(s[..|s| - 5])
      case None => None
      case Some(n) =>
        if unit == "m ago" then Some(Minutes(n))
        else if unit == "h ago" then Some(Hours(n))
        else if unit == "d ago" then Some(Days(n))
        else None
  }

  /** Distinct times-ago never share a label: the label reads back as the band and count. */
  lemma LabelRoundTrip(a: Ago)
    ensures ParseLabel(Label(a)) == Some(a)
  {
    match a
    case NotANumber =>
    case Minutes(n) => CountedLabelRoundTrip(n, "m ago");
    case Hours(n) => CountedLabelRoundTrip(n, "h ago");
    case Days(n) => CountedLabelRoundTrip(n, "d ago");
  }

  lemma CountedLabelRoundTrip(n: int, unit: string)
    requires unit == "m ago" || unit == "h ago" || unit == "d ago"
    ensures ParseLabel(Text.IntToString(n) + unit)
            == Some(if unit == "m ago" then Minutes(n) else if unit == "h ago" then Hours(n) else Days(n))
  {
    var d := Text.IntToString(n);
    var s := d + unit;
    Text.IntRoundTrip(n);
    assert s[..|s| - 5] == d;
    assert s[|s| - 5..] == unit;
    assert s != "NaNd ago" by {
      assert s[0] == d[0];
      assert d[0] == '-' || Text.IsDigit(d[0]);
    }
  }
}

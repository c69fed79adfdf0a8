/** The reset countdown of a model's quota: `formatTimeRemaining` in
    backend/services/QuotaService.js and `format_time_remaining` in
    check_quota.py. Reading the clock and parsing the reset time are not
    modelled: each function receives the parsed difference between the reset
    time and now, or `None` when the reset time does not parse. */
module Countdown {
  import opened Wrappers
  import opened Numerals

  const ResettingText := "Đang reset..."

  const MsPerMinute: nat := 60000
  const MicrosPerMinute: nat := 60000000
  const MicrosPerHour: nat := 3600000000

  /** A positive remainder as days, hours and minutes: `"{d}d {h}h {m}m"` from
      one day up, `"{h}h {m}m"` from one hour up, else `"{m}m"`. */
  function DaysHoursMinutes(totalMinutes: nat): string {
    var hours := totalMinutes / 60;
    var minutes := totalMinutes % 60;
    if hours >= 24 then DaysText(hours / 24, hours % 24, minutes)
    else if hours > 0 then HoursText(hours, minutes)
    else MinutesText(minutes)
  }

  /** `"{m}m"` */
  function MinutesText(m: nat): string {
    NatToString(m) + "m"
  }

  /** `"{h}h {m}m"` */
  function HoursText(h: nat, m: nat): string {
    NatToString(h) + "h " + MinutesText(m)
  }

  /** `"{d}d {h}h {m}m"` */
  function DaysText(d: nat, h: nat, m: nat): string {
    NatToString(d) + "d " + HoursText(h, m)
  }

  /** `formatTimeRemaining(resetTimeStr)` when the reset time is `diffMs`
      milliseconds away. `new Date` never throws: an unparseable date is
      `Invalid Date`, every comparison with `NaN` is false, and the result is
      `"NaNm"`. */
  function FormatTimeRemainingJs(resetTimeStr: string, diffMs: Option<int>): string {
    if resetTimeStr == "" then ""
    else if diffMs.None? then "NaNm"
    else if diffMs.value <= 0 then ResettingText
    else DaysHoursMinutes(diffMs.value / MsPerMinute)
  }

  /** `format_time_remaining(reset_time_str)` when the reset time parses and is
      `diffMicros` microseconds away (a `timedelta` is exact to the microsecond),
      or `None` when none of the three formats parses it. */
  function FormatTimeRemainingPy(resetTimeStr: string, diffMicros: Option<int>): string {
    if diffMicros.None? then resetTimeStr
    else if diffMicros.value <= 0 then ResettingText
    else
      var hours := diffMicros.value / MicrosPerHour;
      var minutes := (diffMicros.value % MicrosPerHour) / MicrosPerMinute;
      if hours >= 24 then DaysText(hours / 24, hours % 24, minutes)
      else if hours > 0 then HoursText(hours, minutes)
      else MinutesText(minutes)
  }

  /** `s` starts with `p`. */
  predicate StartsWith(s: string, p: string) {
    |p| <= |s| && s[..|p|] == p
  }

  /** Reads `"{m}m"`. */
  function ParseMinutes(s: string): Option<nat> {
    match ParseLeadingNat(s)
    case None => None
    case Some((m, rest)) => if rest == "m" then Some(m) else None
  }

  /** Reads `"{h}h {m}m"` into minutes. */
  function ParseHours(s: string): Option<nat> {
    match ParseLeadingNat(s)
    case None => None
    case Some((h, rest)) =>
      if StartsWith(rest, "h ") then
        match ParseMinutes(rest[2..])
        case None => None
        case Some(m) => Some(h * 60 + m)
      else None
  }

  /** Reads a countdown back into minutes: `"{d}d {h}h {m}m"`, `"{h}h {m}m"` or
      `"{m}m"`. */
  function ParseCountdown(s: string): Option<nat> {
    match ParseLeadingNat(s)
    case None => None
    case Some((a, rest)) => CountdownAfter(a, rest)
  }

  /** The rest of a countdown after its leading number `a`. */
  function CountdownAfter(a: nat, rest: string): Option<nat> {
    if rest == "m" then Some(a)
    else if StartsWith(rest, "h ") then
      match ParseMinutes(rest[2..])
      case None => None
      case Some(m) => Some(a * 60 + m)
    else if StartsWith(rest, "d ") then
      match ParseHours(rest[2..])
      case None => None
      case Some(hm) => Some(a * 24 * 60 + hm)
    else None
  }

  lemma MinutesRoundTrip(m: nat)
    ensures ParseMinutes(MinutesText(m)) == Some(m)
  {
    ParseLeadingNatRoundTrip(m, "m");
  }

  /** After a number, a unit and a space, the rest of the text is read on. */
  lemma UnitThenRest(n: nat, u: string, rest: string)
    requires u == "h " || u == "d "
    ensures ParseLeadingNat(NatToString(n) + u + rest) == Some((n, u + rest))
    ensures StartsWith(u + rest, u) && (u + rest)[2..] == rest
  {
    assert NatToString(n) + u + rest == NatToString(n) + (u + rest);
    ParseLeadingNatRoundTrip(n, u + rest);
    assert (u + rest)[..2] == u;
  }

  lemma HoursRoundTrip(h: nat, m: nat)
    ensures ParseHours(HoursText(h, m)) == Some(h * 60 + m)
  {
    MinutesRoundTrip(m);
    UnitThenRest(h, "h ", MinutesText(m));
  }

  lemma MinutesOnlyRoundTrip(m: nat)
    ensures ParseCountdown(MinutesText(m)) == Some(m)
  {
    ParseLeadingNatRoundTrip(m, "m");
  }

  lemma HoursMinutesRoundTrip(h: nat, m: nat)
    ensures ParseCountdown(HoursText(h, m)) == Some(h * 60 + m)
  {
    MinutesRoundTrip(m);
    UnitThenRest(h, "h ", MinutesText(m));
    assert "h " + MinutesText(m) != "m";
  }

  /** `"d "` in front of an hours-and-minutes text after a number `d` reads as
      `d` days more. */
  lemma DaysAfter(d: nat, rest: string)
    requires ParseHours(rest).Some?
    ensures CountdownAfter(d, "d " + rest) == Some(d * 24 * 60 + ParseHours(rest).value)
  {
    assert "d " + rest != "m";
    assert ("d " + rest)[..2] == "d ";
    assert ("d " + rest)[2..] == rest;
  }

  /** A number and `"d "` in front of an hours-and-minutes text read as that many
      days more. */
  lemma DaysThenHours(d: nat, rest: string)
    requires ParseHours(rest).Some?
    ensures ParseCountdown(NatToString(d) + "d " + rest) == Some(d * 24 * 60 + ParseHours(rest).value)
  {
    UnitThenRest(d, "d ", rest);
    DaysAfter(d, rest);
  }

  lemma DaysRoundTrip(d: nat, h: nat, m: nat)
    ensures ParseCountdown(DaysText(d, h, m)) == Some((d * 24 + h) * 60 + m)
  {
    HoursRoundTrip(h, m);
    DaysThenHours(d, HoursText(h, m));
  }

  lemma DaysCaseRoundTrip(totalMinutes: nat)
    requires totalMinutes / 60 >= 24
    ensures ParseCountdown(DaysHoursMinutes(totalMinutes)) == Some(totalMinutes)
  {
    var hours := totalMinutes / 60;
    DaysRoundTrip(hours / 24, hours % 24, totalMinutes % 60);
  }

  lemma HoursCaseRoundTrip(totalMinutes: nat)
    requires 0 < totalMinutes / 60 < 24
    ensures ParseCountdown(DaysHoursMinutes(totalMinutes)) == Some(totalMinutes)
  {
    HoursMinutesRoundTrip(totalMinutes / 60, totalMinutes % 60);
  }

  /** The countdown text determines the remaining minutes: reading it back gives
      exactly the minutes it was made from. */
  lemma DaysHoursMinutesRoundTrip(totalMinutes: nat)
    ensures ParseCountdown(DaysHoursMinutes(totalMinutes)) == Some(totalMinutes)
  {
    if totalMinutes / 60 >= 24 {
      DaysCaseRoundTrip(totalMinutes);
    } else if totalMinutes / 60 > 0 {
      HoursCaseRoundTrip(totalMinutes);
    } else {
      MinutesOnlyRoundTrip(totalMinutes % 60);
    }
  }

  /** The JavaScript countdown: empty input gives `""`, a reached reset time gives
      the resetting text, and a future one reads back as the whole minutes left. */
  lemma JsCountdownReadsBack(resetTimeStr: string, diffMs: int)
    requires resetTimeStr != ""
    ensures FormatTimeRemainingJs("", Some(diffMs)) == "" && FormatTimeRemainingJs("", None) == ""
    ensures diffMs <= 0 ==> FormatTimeRemainingJs(resetTimeStr, Some(diffMs)) == ResettingText
    ensures diffMs > 0 ==> ParseCountdown(FormatTimeRemainingJs(resetTimeStr, Some(diffMs))) == Some(diffMs / 60000)
  {
    if diffMs > 0 {
      DaysHoursMinutesRoundTrip(diffMs / MsPerMinute);
    }
  }

  /** Python splits the remainder into whole hours and the minutes left over; that
      is the same split of the whole minutes that JavaScript makes. */
  lemma HoursMinutesSplit(us: nat)
    ensures us / MicrosPerHour == (us / MicrosPerMinute) / 60
    ensures (us % MicrosPerHour) / MicrosPerMinute == (us / MicrosPerMinute) % 60
  {
    var total := us / MicrosPerMinute;
    var r := us % MicrosPerMinute;
    var h := total / 60;
    var m := total % 60;
    assert us == 60000000 * total + r;
    assert total == 60 * h + m;
    assert us == 3600000000 * h + (60000000 * m + r);
    assert 0 <= 60000000 * m + r < 3600000000;
  }

  /** Both ports agree on a parseable, non-empty reset time: the Python countdown
      of a microsecond difference is the JavaScript countdown of the same
      difference in milliseconds. An unparseable reset time comes back unchanged
      from Python and as `"NaNm"` from JavaScript. */
  lemma PortsAgree(resetTimeStr: string, diffMs: int)
    requires resetTimeStr != ""
    ensures FormatTimeRemainingPy(resetTimeStr, Some(diffMs * 1000)) == FormatTimeRemainingJs(resetTimeStr, Some(diffMs))
    ensures FormatTimeRemainingPy(resetTimeStr, None) == resetTimeStr
    ensures FormatTimeRemainingJs(resetTimeStr, None) == "NaNm"
  {
    if diffMs > 0 {
      var us := diffMs * 1000;
      HoursMinutesSplit(us);
      assert us / MicrosPerMinute == diffMs / MsPerMinute by {
        assert diffMs == 60000 * (diffMs / 60000) + diffMs % 60000;
        assert us == 60000000 * (diffMs / 60000) + (diffMs % 60000) * 1000;
      }
    }
  }
}

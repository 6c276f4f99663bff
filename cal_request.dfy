/**
  `genCalRequest`: the Google Calendar events URL for the coming week. Both
  window bounds are RFC 3339 date-times (section 5.6 of RFC 3339), whose
  numeric offset such as `+03:00` carries a `+`; every `+` is written as
  `%2B` so that the service does not read it as a space. The clock and the
  RFC 3339 formatter (in the Europe/Moscow zone) are parameters.
*/
module CalRequest {
  import opened Text

  const CalAccount := "k63oqqu12qrmbo2giom17nu3m4@group.calendar.google.com"
  const EventsBase := "https://content.googleapis.com/calendar/v3/calendars/"
  /** Everything before the value of `timeMin`. */
  const TimeMinPrefix := EventsBase + CalAccount + "/events?timeMin="
  /** `7 * 24 * time.Hour`, in nanoseconds. */
  const WeekNanos := 7 * 24 * 3600 * 1_000_000_000

  /** Every `+` of `s` written as `%2B`, all occurrences, left to right (Go's `strings.Replace` with no limit). */
  function EscapePlus(s: string): (r: string)
    ensures '+' !in r
    ensures |r| == |s| + 2 * Count('+', s)
    ensures forall c :: c in r ==> c in s || c in "%2B"
  {
    if s == [] then []
    else (if s[0] == '+' then "%2B" else [s[0]]) + EscapePlus(s[1..])
  }

  /** What the receiving service makes of `%2B`: scanning left to right, each `%2B` becomes `+`. */
  function UnescapePlus(s: string): (r: string)
    ensures |r| <= |s|
    decreases |s|
  {
    if |s| >= 3 && s[..3] == "%2B" then "+" + UnescapePlus(s[3..])
    else if s == [] then []
    else [s[0]] + UnescapePlus(s[1..])
  }

  /** Escaping is undone by the service, for any text without `%` (RFC 3339 date-times have none). */
  lemma {:induction false} UnescapeEscape(s: string)
    requires '%' !in s
    ensures UnescapePlus(EscapePlus(s)) == s
  {
    if s != [] {
      var e := EscapePlus(s);
      UnescapeEscape(s[1..]);
      if s[0] == '+' {
        assert e == "%2B" + EscapePlus(s[1..]);
        assert e[..3] == "%2B" && e[3..] == EscapePlus(s[1..]);
      } else {
        assert e == [s[0]] + EscapePlus(s[1..]);
        assert e[0] != '%' && e[1..] == EscapePlus(s[1..]);
      }
    }
  }

  /** Without the `%` restriction the round trip fails: a literal `%2B` comes back as `+`. */
  lemma PercentBreaksRoundTrip()
    ensures UnescapePlus(EscapePlus("%2B")) == "+"
  {
  }

  /**
    The request URL. `firstNow` and `secondNow` are the two readings of the
    clock: the lower bound is the first, the upper bound the second plus
    seven days.
  */
  function GenCalRequest(firstNow: int, secondNow: int, rfc3339: int -> string, calKey: string): (url: string)
    ensures |url| > |TimeMinPrefix| && url[..|TimeMinPrefix|] == TimeMinPrefix
  {
    var start := EscapePlus(rfc3339(firstNow));
    var end := EscapePlus(rfc3339(secondNow + WeekNanos));
    var url := TimeMinPrefix + start + "&timeMax=" + end + "&key=" + calKey;
    assert url == TimeMinPrefix + (start + "&timeMax=" + end + "&key=" + calKey);
    url
  }

  /**
    The service reads both window bounds back exactly: the URL splits at
    `&` into a `timeMin` value and a `timeMax` value that unescape to the
    formatted first clock reading and to the formatted second reading plus
    seven days.
  */
  lemma WindowBoundsRoundTrip(firstNow: int, secondNow: int, rfc3339: int -> string, calKey: string)
    requires '%' !in rfc3339(firstNow) && '&' !in rfc3339(firstNow)
    requires '%' !in rfc3339(secondNow + WeekNanos) && '&' !in rfc3339(secondNow + WeekNanos)
    ensures exists lower, upper ::
      GenCalRequest(firstNow, secondNow, rfc3339, calKey)
        == TimeMinPrefix + lower + "&timeMax=" + upper + "&key=" + calKey &&
      '&' !in lower && '+' !in lower && UnescapePlus(lower) == rfc3339(firstNow) &&
      '&' !in upper && '+' !in upper && UnescapePlus(upper) == rfc3339(secondNow + WeekNanos)
  {
    var lower := EscapePlus(rfc3339(firstNow));
    var upper := EscapePlus(rfc3339(secondNow + WeekNanos));
    UnescapeEscape(rfc3339(firstNow));
    UnescapeEscape(rfc3339(secondNow + WeekNanos));
    assert '&' !in lower && '&' !in upper;
  }
}

/** The two pieces of the browser client's rendering that compute values: the
    relative age of a like and the link to a track. */
module ClientView {
  import opened Common

  /** A relative age: "just now", a count with its unit, or (four weeks and more)
      the like's calendar date, whose locale formatting is not modelled. */
  datatype Age = JustNow | Minutes(n: nat) | Hours(n: nat) | Days(n: nat) | Weeks(n: nat) | OnDate(thenMs: int)

  const MinuteMs: int := 60 * 1000
  const HourMs: int := 60 * MinuteMs
  const DayMs: int := 24 * HourMs
  const WeekMs: int := 7 * DayMs

  /** `timeAgo`: each unit is the floor of the previous one divided; Dafny's `/` by a
      positive divisor is floor division, as `Math.floor` of the quotient is. */
  function TimeAgo(nowMs: int, thenMs: int): (r: Age)
    ensures r == JustNow <==> nowMs - thenMs < MinuteMs
    ensures r.Minutes? <==> MinuteMs <= nowMs - thenMs < HourMs
    ensures r.Minutes? ==> r.n == (nowMs - thenMs) / MinuteMs && 1 <= r.n <= 59
    ensures r.Hours? <==> HourMs <= nowMs - thenMs < DayMs
    ensures r.Hours? ==> r.n == (nowMs - thenMs) / HourMs && 1 <= r.n <= 23
    ensures r.Days? <==> DayMs <= nowMs - thenMs < WeekMs
    ensures r.Days? ==> r.n == (nowMs - thenMs) / DayMs && 1 <= r.n <= 6
    ensures r.Weeks? <==> WeekMs <= nowMs - thenMs < 4 * WeekMs
    ensures r.Weeks? ==> r.n == (nowMs - thenMs) / WeekMs && 1 <= r.n <= 3
    ensures r.OnDate? <==> nowMs - thenMs >= 4 * WeekMs
    ensures r.OnDate? ==> r.thenMs == thenMs
  {
    var seconds := (nowMs - thenMs) / 1000;
    if seconds < 60 then JustNow
    else
      var minutes := seconds / 60;
      if minutes < 60 then Minutes(minutes)
      else
        var hours := minutes / 60;
        if hours < 24 then Hours(hours)
        else
          var days := hours / 24;
          if days < 7 then Days(days)
          else
            var weeks := days / 7;
            if weeks < 4 then Weeks(weeks)
            else OnDate(thenMs)
  }

  const TrackUrlPrefix: string := "https://open.spotify.com/track/"

  /** The link on a card: the track's external URL when it has a non-empty one,
      otherwise the catalog's track page built from the id. */
  function SpotifyLink(externalUrl: Option<string>, trackId: string): (r: string)
    ensures Truthy(externalUrl) ==> r == externalUrl.value
    ensures !Truthy(externalUrl) ==> |r| == |TrackUrlPrefix| + |trackId|
                                     && r[..|TrackUrlPrefix|] == TrackUrlPrefix
                                     && r[|TrackUrlPrefix|..] == trackId
  {
    if Truthy(externalUrl) then externalUrl.value else TrackUrlPrefix + trackId
  }

  /** The decimal digits of n, as template interpolation prints an integer. */
  function Decimal(n: nat): (r: string)
    ensures r != []
    ensures forall i :: 0 <= i < |r| ==> '0' <= r[i] <= '9'
    ensures r[0] != '0' || n == 0
  {
    if n < 10 then [Digit(n)] else Decimal(n / 10) + [Digit(n % 10)]
  }

  function Digit(d: nat): (c: char)
    requires d < 10
    ensures '0' <= c <= '9' && c as int - '0' as int == d
  {
    ('0' as int + d) as char
  }

  /** Reading decimal digits back as a number. */
  function ParseDecimal(s: string): nat
    requires forall i :: 0 <= i < |s| ==> '0' <= s[i] <= '9'
  {
    if s == [] then 0 else 10 * ParseDecimal(s[..|s| - 1]) + (s[|s| - 1] as int - '0' as int)
  }

  lemma {:induction false} DecimalRoundTrip(n: nat)
    ensures ParseDecimal(Decimal(n)) == n
  {
    if n >= 10 {
      DecimalRoundTrip(n / 10);
      var r := Decimal(n);
      assert r[..|r| - 1] == Decimal(n / 10);
    }
  }

  /** The text `timeAgo` returns, for the ages below four weeks; the locale date
      string of older likes is not modelled (None). */
  function AgeLabel(a: Age): (r: Option<string>)
    ensures a.OnDate? <==> r.None?
    ensures a.JustNow? ==> r == Some("just now")
    ensures (a.Minutes? || a.Hours? || a.Days? || a.Weeks?) ==>
              |r.value| >= 2 && r.value[..|r.value| - 1] == Decimal(a.n)
              && ParseDecimal(r.value[..|r.value| - 1]) == a.n
              && r.value[|r.value| - 1] == (if a.Minutes? then 'm' else if a.Hours? then 'h' else if a.Days? then 'd' else 'w')
  {
    match a
    case JustNow => Some("just now")
    case Minutes(n) => WithUnit(n, 'm')
    case Hours(n) => WithUnit(n, 'h')
    case Days(n) => WithUnit(n, 'd')
    case Weeks(n) => WithUnit(n, 'w')
    case OnDate(_) => None
  }

  function WithUnit(n: nat, unit: char): (r: Option<string>)
    ensures r.Some? && |r.value| >= 2 && r.value[|r.value| - 1] == unit
    ensures r.value[..|r.value| - 1] == Decimal(n) && ParseDecimal(r.value[..|r.value| - 1]) == n
  {
    DecimalRoundTrip(n);
    var s := Decimal(n) + [unit];
    assert s[..|s| - 1] == Decimal(n);
    Some(s)
  }
}

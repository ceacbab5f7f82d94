/** The dashboard label for the estimated runtime. */
module RuntimeLabel {
  const HOUR: int := 3600
  const DAY: int := 86400

  /** The numbers the label shows, and their units. */
  datatype Label =
    | NoEstimate
    | Minutes(n: int)
    | Hours(h: int)
    | HoursMinutes(h: int, m: int)
    | Days(d: int)
    | DaysHours(d: int, h: int)

  /** `math.Round` of the seconds in minutes, a half rounding up. */
  function ToMinutes(seconds: nat): nat {
    (seconds + 30) / 60
  }

  function ToHours(seconds: nat): nat {
    (seconds + HOUR / 2) / HOUR
  }

  function Format(seconds: int, available: bool): Label {
    if !available || seconds <= 0 then NoEstimate
    else if seconds < HOUR then
      var min := ToMinutes(seconds);
      Minutes(if min < 1 then 1 else min)
    else if seconds < DAY then
      var h, m := seconds / HOUR, ToMinutes(seconds % HOUR);
      if m == 60 then Hours(h + 1) else if m == 0 then Hours(h) else HoursMinutes(h, m)
    else
      var d, h := seconds / DAY, ToHours(seconds % DAY);
      if h == 24 then Days(d + 1) else if h == 0 then Days(d) else DaysHours(d, h)
  }

  /** The seconds a label stands for to its reader. */
  function Value(l: Label): int {
    match l
    case NoEstimate => 0
    case Minutes(n) => n * 60
    case Hours(h) => h * HOUR
    case HoursMinutes(h, m) => h * HOUR + m * 60
    case Days(d) => d * DAY
    case DaysHours(d, h) => d * DAY + h * HOUR
  }

  /** The label is within half a minute of the seconds up to a day, and within half an hour from
      then on; below half a minute it says one minute. */
  lemma LabelIsAccurate(seconds: int)
    requires seconds > 0
    ensures var error := Value(Format(seconds, true)) - seconds;
      && (seconds < 30 ==> Format(seconds, true) == Minutes(1))
      && (30 <= seconds < DAY ==> -30 <= error <= 30)
      && (seconds >= DAY ==> -1800 <= error <= 1800)
  {
  }

  /** No label shows 60 minutes beside hours, or 24 hours beside days, or an idle zero. */
  lemma LabelPartsAreInRange(seconds: int, available: bool)
    ensures match Format(seconds, available)
      case NoEstimate => !available || seconds <= 0
      case Minutes(n) => 1 <= n <= 60
      case Hours(h) => 1 <= h <= 24
      case HoursMinutes(h, m) => 1 <= h < 24 && 1 <= m < 60
      case Days(d) => d >= 1
      case DaysHours(d, h) => d >= 1 && 1 <= h < 24
  {
  }

  lemma MinutesSplit(h: nat, rest: nat)
    ensures ToMinutes(h * HOUR + rest) == h * 60 + ToMinutes(rest)
  {
    assert h * HOUR + rest + 30 == (h * 60) * 60 + (rest + 30);
  }

  lemma HoursSplit(d: nat, rest: nat)
    ensures ToHours(d * DAY + rest) == d * 24 + ToHours(rest)
  {
    assert d * DAY + rest + HOUR / 2 == (d * 24) * HOUR + (rest + HOUR / 2);
  }

  /** `v` is the nearest multiple of the minute to `s`, or from a day on of the hour; below half a
      minute it is a minute. */
  predicate Nearest(s: nat, v: int) {
    && (s < 30 ==> v == 60)
    && (30 <= s < DAY ==> v == ToMinutes(s) * 60 <= DAY)
    && (s >= DAY ==> v == ToHours(s) * HOUR >= DAY)
  }

  lemma ValueIsNearest(s: int)
    requires s > 0
    ensures Nearest(s, Value(Format(s, true)))
  {
    if HOUR <= s < DAY {
      MinutesSplit(s / HOUR, s % HOUR);
    } else if s >= DAY {
      HoursSplit(s / DAY, s % DAY);
    }
  }

  lemma NearestIsMonotone(s: nat, t: nat, v: int, w: int)
    requires s <= t && Nearest(s, v) && Nearest(t, w)
    ensures v <= w
  {
    assert ToMinutes(s) <= ToMinutes(t) && ToHours(s) <= ToHours(t);
  }

  /** More seconds never give a label that stands for less. */
  lemma LabelIsMonotone(s: int, t: int)
    requires 0 < s <= t
    ensures Value(Format(s, true)) <= Value(Format(t, true))
  {
    ValueIsNearest(s);
    ValueIsNearest(t);
    NearestIsMonotone(s, t, Value(Format(s, true)), Value(Format(t, true)));
  }

  /** There is no estimate exactly when it is not available or not positive. Below an hour it is
      shown in minutes, below a day in hours, and in days from then on. */
  lemma LabelUnits(seconds: int, available: bool)
    ensures var l := Format(seconds, available);
      && (l == NoEstimate <==> !available || seconds <= 0)
      && (l.Minutes? <==> available && 0 < seconds < 3600)
      && (l.Hours? || l.HoursMinutes? <==> available && 3600 <= seconds < 86400)
      && (l.Days? || l.DaysHours? <==> available && seconds >= 86400)
  {
  }
}

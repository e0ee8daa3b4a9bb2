/** `useRecommendationFormatters`: how the front end labels a
    recommendation. Numbers are JavaScript numbers, read as reals; times are
    milliseconds since the epoch and `Date.now()` is the parameter `now`. */
module RecommendationFormatters {
  import opened Wrappers
  import opened PhpText

  /** `action?.toUpperCase()` on an ASCII action; a missing action stays
      missing. */
  function Upper(action: Option<string>): Option<string> {
    if action.Some? then Some(ToUpperAscii(action.value)) else None
  }

  lemma {:induction false} ToUpperIdempotent(s: string)
    ensures ToUpperAscii(ToUpperAscii(s)) == ToUpperAscii(s)
  {
    if s != [] {
      ToUpperIdempotent(s[1..]);
    }
  }

  const Actions: seq<string> := ["STRONG_BUY", "BUY", "HOLD", "SELL", "STRONG_SELL"]

  /** `getActionColor`: the badge colour of the action in any letter case. */
  function ActionColor(action: Option<string>): (r: string)
    ensures action.Some? && ToUpperAscii(action.value) == "STRONG_BUY" <==> r == "bg-green-600 text-white"
    ensures action.Some? && ToUpperAscii(action.value) == "BUY" <==> r == "bg-green-500 text-white"
    ensures action.Some? && ToUpperAscii(action.value) == "HOLD" <==> r == "bg-gray-500 text-white"
    ensures action.Some? && ToUpperAscii(action.value) == "SELL" <==> r == "bg-red-500 text-white"
    ensures action.Some? && ToUpperAscii(action.value) == "STRONG_SELL" <==> r == "bg-red-600 text-white"
    ensures (action.None? || ToUpperAscii(action.value) !in Actions) <==> r == "bg-gray-400 text-white"
  {
    ColorOfUpper(Upper(action))
  }

  /** The `switch` of `getActionColor` on the upper-cased action. */
  function ColorOfUpper(upper: Option<string>): (r: string)
    ensures upper == Some("STRONG_BUY") <==> r == "bg-green-600 text-white"
    ensures upper == Some("BUY") <==> r == "bg-green-500 text-white"
    ensures upper == Some("HOLD") <==> r == "bg-gray-500 text-white"
    ensures upper == Some("SELL") <==> r == "bg-red-500 text-white"
    ensures upper == Some("STRONG_SELL") <==> r == "bg-red-600 text-white"
    ensures (upper.None? || upper.value !in Actions) <==> r == "bg-gray-400 text-white"
  {
    match upper
    case Some("STRONG_BUY") => "bg-green-600 text-white"
    case Some("BUY") => "bg-green-500 text-white"
    case Some("HOLD") => "bg-gray-500 text-white"
    case Some("SELL") => "bg-red-500 text-white"
    case Some("STRONG_SELL") => "bg-red-600 text-white"
    case _ => "bg-gray-400 text-white"
  }

  /** `getActionTextColor`: the text colour of the action in any letter
      case. */
  function ActionTextColor(action: Option<string>): (r: string)
    ensures action.Some? && ToUpperAscii(action.value) in ["STRONG_BUY", "BUY"] <==> r == "text-green-600 dark:text-green-400"
    ensures action.Some? && ToUpperAscii(action.value) in ["SELL", "STRONG_SELL"] <==> r == "text-red-600 dark:text-red-400"
    ensures (action.None? || ToUpperAscii(action.value) !in ["STRONG_BUY", "BUY", "SELL", "STRONG_SELL"]) <==>
      r == "text-gray-600 dark:text-gray-400"
  {
    TextColorOfUpper(Upper(action))
  }

  /** The `switch` of `getActionTextColor`: green for the buys, red for the
      sells, gray for `HOLD`, anything else and no action. */
  function TextColorOfUpper(upper: Option<string>): (r: string)
    ensures upper == Some("STRONG_BUY") || upper == Some("BUY") <==> r == "text-green-600 dark:text-green-400"
    ensures upper == Some("SELL") || upper == Some("STRONG_SELL") <==> r == "text-red-600 dark:text-red-400"
    ensures !(upper == Some("STRONG_BUY") || upper == Some("BUY") || upper == Some("SELL") || upper == Some("STRONG_SELL"))
      <==> r == "text-gray-600 dark:text-gray-400"
  {
    match upper
    case Some("STRONG_BUY") => "text-green-600 dark:text-green-400"
    case Some("BUY") => "text-green-600 dark:text-green-400"
    case Some("SELL") => "text-red-600 dark:text-red-400"
    case Some("STRONG_SELL") => "text-red-600 dark:text-red-400"
    case _ => "text-gray-600 dark:text-gray-400"
  }

  /** The colours ignore the case of the action. */
  lemma ColorsIgnoreCase(action: string)
    ensures ActionColor(Some(action)) == ActionColor(Some(ToUpperAscii(action)))
    ensures ActionTextColor(Some(action)) == ActionTextColor(Some(ToUpperAscii(action)))
  {
    ToUpperIdempotent(action);
  }

  datatype Icon = TrendingUp | TrendingDown | Minus

  /** `getActionIcon`: `BUY` anywhere wins over `SELL` anywhere. */
  function ActionIcon(action: Option<string>): (r: Icon)
    ensures r == TrendingUp <==> Upper(action).Some? && Contains(Upper(action).value, "BUY")
    ensures r == TrendingDown <==>
      Upper(action).Some? && !Contains(Upper(action).value, "BUY") && Contains(Upper(action).value, "SELL")
  {
    var upper := Upper(action);
    if upper.Some? && Contains(upper.value, "BUY") then TrendingUp
    else if upper.Some? && Contains(upper.value, "SELL") then TrendingDown
    else Minus
  }

  /** The icon agrees with the text colour on every recognised action. */
  lemma IconMatchesTextColor(action: Option<string>)
    requires Upper(action).Some? && Upper(action).value in Actions && Upper(action) != Some("HOLD")
    ensures ActionIcon(action) == TrendingUp <==> ActionTextColor(action) == "text-green-600 dark:text-green-400"
  {
    var u := Upper(action).value;
    BuyActions(u);
    assert ActionIcon(action) == TrendingUp <==> Contains(u, "BUY");
    assert ActionTextColor(action) == TextColorOfUpper(Some(u));
  }

  /** Of the recognised actions, exactly the two buys contain `BUY`. */
  lemma BuyActions(u: string)
    requires u in Actions
    ensures Contains(u, "BUY") <==> u == "STRONG_BUY" || u == "BUY"
  {
    if u == "STRONG_BUY" || u == "BUY" {
      assert OccursAt(u, "BUY", |u| - 3);
    } else {
      NoBuyWithoutY(u);
    }
  }

  /** A string without the letter `Y` does not contain `BUY`. */
  lemma NoBuyWithoutY(u: string)
    requires forall i :: 0 <= i < |u| ==> u[i] != 'Y'
    ensures !Contains(u, "BUY")
  {
    forall i | 0 <= i <= |u| ensures !OccursAt(u, "BUY", i) {
      if i + 3 <= |u| {
        assert u[i..i + 3][2] != "BUY"[2];
      }
    }
  }

  /** The band of a risk/reward ratio: 3 and more, 2 to 3, 1 to 2, below 1. */
  function RiskRewardBand(ratio: real): (b: nat)
    ensures b <= 3
  {
    if ratio >= 3.0 then 3 else if ratio >= 2.0 then 2 else if ratio >= 1.0 then 1 else 0
  }

  /** `getRiskRewardLabel`. */
  function RiskRewardLabel(ratio: Option<real>): (r: string)
    ensures ratio.None? <==> r == "-"
    ensures r == "excellent" <==> ratio.Some? && ratio.value >= 3.0
    ensures r == "good" <==> ratio.Some? && 2.0 <= ratio.value < 3.0
    ensures r == "fair" <==> ratio.Some? && 1.0 <= ratio.value < 2.0
    ensures r == "poor" <==> ratio.Some? && ratio.value < 1.0
  {
    if ratio.None? then "-" else ["poor", "fair", "good", "excellent"][RiskRewardBand(ratio.value)]
  }

  /** `getRiskRewardColor`: gray without a ratio, then red, yellow and two
      greens at the label's thresholds. */
  function RiskRewardColor(ratio: Option<real>): (r: string)
    ensures ratio.None? <==> r == "text-gray-500"
    ensures r == "text-green-600 dark:text-green-400" <==> ratio.Some? && ratio.value >= 3.0
    ensures r == "text-green-500 dark:text-green-400" <==> ratio.Some? && 2.0 <= ratio.value < 3.0
    ensures r == "text-yellow-500 dark:text-yellow-400" <==> ratio.Some? && 1.0 <= ratio.value < 2.0
    ensures r == "text-red-500 dark:text-red-400" <==> ratio.Some? && ratio.value < 1.0
  {
    if ratio.None? then "text-gray-500"
    else
      ["text-red-500 dark:text-red-400", "text-yellow-500 dark:text-yellow-400",
       "text-green-500 dark:text-green-400", "text-green-600 dark:text-green-400"][RiskRewardBand(ratio.value)]
  }

  /** A better ratio never gets a worse label; label and colour determine
      each other. */
  lemma RiskRewardMonotone(a: real, b: real)
    requires a <= b
    ensures RiskRewardBand(a) <= RiskRewardBand(b)
    ensures RiskRewardLabel(Some(a)) == RiskRewardLabel(Some(b)) <==> RiskRewardColor(Some(a)) == RiskRewardColor(Some(b))
  {
  }

  /** A `date` argument: a missing value or an empty string, a `Date` or a
      string that parses to a moment, or a string that does not parse (an
      invalid `Date`, whose time is NaN). */
  datatype DateArg = Missing | EmptyString | Moment(ms: int) | Unparsable

  const MinuteMs: int := 60000

  /** `formatTimeAgo`. With an unparsable date every comparison with NaN is
      false and the result is `NaNd`. */
  function FormatTimeAgo(date: DateArg, now: int): (r: string)
    ensures date.Missing? || date.EmptyString? ==> r == "-"
    ensures date.Unparsable? ==> r == "NaNd"
    ensures date.Moment? && now - date.ms < MinuteMs ==> r == "just_now"
  {
    match date
    case Missing => "-"
    case EmptyString => "-"
    case Unparsable => "NaNd"
    case Moment(ms) =>
      var minutes := (now - ms) / MinuteMs;
      if minutes < 1 then "just_now"
      else if minutes < 60 then IntToString(minutes) + "m"
      else
        var hours := minutes / 60;
        if hours < 24 then IntToString(hours) + "h"
        else IntToString(hours / 24) + "d"
  }

  /** The time shown is the elapsed time cut down to whole minutes, hours or
      days, in the largest unit that is at least one. */
  lemma TimeAgoUnits(ms: int, now: int)
    requires now - ms >= MinuteMs
    ensures var e := now - ms;
      if e < 60 * MinuteMs then
        exists m :: 1 <= m < 60 && m * MinuteMs <= e < (m + 1) * MinuteMs && FormatTimeAgo(Moment(ms), now) == IntToString(m) + "m"
      else if e < 24 * 60 * MinuteMs then
        exists h :: 1 <= h < 24 && h * 60 * MinuteMs <= e < (h + 1) * 60 * MinuteMs && FormatTimeAgo(Moment(ms), now) == IntToString(h) + "h"
      else
        exists d :: d >= 1 && d * 24 * 60 * MinuteMs <= e < (d + 1) * 24 * 60 * MinuteMs && FormatTimeAgo(Moment(ms), now) == IntToString(d) + "d"
  {
    var e := now - ms;
    var minutes := e / MinuteMs;
    var hours := minutes / 60;
    var days := hours / 24;
    assert minutes * MinuteMs <= e < (minutes + 1) * MinuteMs;
    assert hours * 60 <= minutes < (hours + 1) * 60;
    assert days * 24 <= hours < (days + 1) * 24;
    if e < 60 * MinuteMs {
      assert 1 <= minutes < 60 && FormatTimeAgo(Moment(ms), now) == IntToString(minutes) + "m";
    } else if e < 24 * 60 * MinuteMs {
      assert hours * 60 * MinuteMs <= e < (hours + 1) * 60 * MinuteMs;
      assert 1 <= hours < 24 && FormatTimeAgo(Moment(ms), now) == IntToString(hours) + "h";
    } else {
      assert days * 24 * 60 * MinuteMs <= e < (days + 1) * 24 * 60 * MinuteMs;
      assert days >= 1 && FormatTimeAgo(Moment(ms), now) == IntToString(days) + "d";
    }
  }

  /** `isStale` with the threshold in minutes (30 by default): a missing date
      is stale; a date is stale when more than the threshold has passed; an
      unparsable one compares NaN and is never stale. */
  function IsStale(date: DateArg, now: int, thresholdMinutes: real): (r: bool)
    ensures date.Missing? || date.EmptyString? ==> r
    ensures date.Unparsable? ==> !r
    ensures date.Moment? ==> (r <==> (now - date.ms) as real > thresholdMinutes * 60.0 * 1000.0)
  {
    match date
    case Missing => true
    case EmptyString => true
    case Unparsable => false
    case Moment(ms) => (now - ms) as real > thresholdMinutes * 60.0 * 1000.0
  }

  const DefaultStaleMinutes: real := 30.0

  /** Once stale, a date stays stale as time goes on. */
  lemma StaleMonotone(date: DateArg, now1: int, now2: int, threshold: real)
    requires now1 <= now2 && IsStale(date, now1, threshold)
    ensures IsStale(date, now2, threshold)
  {
  }

  /** `getStrengthColor`: green from 80, yellow from 60, red below. */
  function StrengthColor(strength: real): (r: string)
    ensures r == "text-green-600 dark:text-green-400" <==> strength >= 80.0
    ensures r == "text-yellow-600 dark:text-yellow-400" <==> 60.0 <= strength < 80.0
    ensures r == "text-red-600 dark:text-red-400" <==> strength < 60.0
  {
    if strength >= 80.0 then "text-green-600 dark:text-green-400"
    else if strength >= 60.0 then "text-yellow-600 dark:text-yellow-400"
    else "text-red-600 dark:text-red-400"
  }
}

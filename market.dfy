/** `Market::isOpenNow`: whether a market is open, from its stored flag, its
    trading days, its opening window and its status. The market's local clock
    (weekday and second of the day in the market's time zone) is a parameter;
    `None` stands for a clock that could not be read because the time zone is
    not valid. */
module Market {
  import opened Wrappers
  import opened PhpText
  import opened Projection

  /** The day tokens, in the order used for ranges. */
  const DaysOrder: seq<string> := ["Sun", "Mon", "Tue", "Wed", "Thu", "Fri", "Sat"]

  lemma DaysDistinct(i: nat, j: nat)
    requires i < j < |DaysOrder|
    ensures DaysOrder[i] != DaysOrder[j]
  {
    assert DaysOrder[i][0] != DaysOrder[j][0] || DaysOrder[i][1] != DaysOrder[j][1];
  }

  /** `array_search($token, $daysOrder, true)`: the position of a day token. */
  function DayIndex(token: string): (r: Option<nat>)
    ensures r.Some? ==> r.value < |DaysOrder| && DaysOrder[r.value] == token
    ensures r.None? <==> token !in DaysOrder
  {
    if token == "Sun" then Some(0)
    else if token == "Mon" then Some(1)
    else if token == "Tue" then Some(2)
    else if token == "Wed" then Some(3)
    else if token == "Thu" then Some(4)
    else if token == "Fri" then Some(5)
    else if token == "Sat" then Some(6)
    else None
  }

  /** The separators of the list (`,|،`) and of a range (`–|-`). */
  predicate IsListSep(c: char) {
    c == ',' || c == '\U{060C}'
  }

  predicate IsRangeSep(c: char) {
    c == '-' || c == '\U{2013}'
  }

  /** `str_replace(' ', '', $raw)`. */
  function RemoveSpaces(s: string): (r: string)
    ensures forall i :: 0 <= i < |r| ==> r[i] != ' '
    ensures forall c :: c != ' ' ==> (c in r <==> c in s)
  {
    if s == [] then []
    else (if s[0] == ' ' then [] else [s[0]]) + RemoveSpaces(s[1..])
  }

  /** The days `lo`, `lo + 1`, …, `hi - 1`. */
  function Interval(lo: nat, hi: nat): (r: seq<nat>)
    ensures forall d :: d in r <==> lo <= d < hi
    decreases hi
  {
    if hi <= lo then [] else Interval(lo, hi - 1) + [hi - 1]
  }

  /** The days of the range `a`–`b`: from `a` to `b`, going round from
      Saturday to Sunday when `b` comes before `a`. */
  function WeekRange(a: nat, b: nat): seq<nat> {
    if a <= b then Interval(a, b + 1) else Interval(a, |DaysOrder|) + Interval(0, b + 1)
  }

  lemma WeekRangeDays(a: nat, b: nat, d: nat)
    requires a < |DaysOrder| && b < |DaysOrder|
    ensures d in WeekRange(a, b) <==>
      if a <= b then a <= d <= b else (a <= d < |DaysOrder| || d <= b)
  {
  }

  /** The days one segment of the list contributes: those of a range of two
      known tokens, the day of a single known token, and nothing otherwise. */
  function SegmentDays(segment: string): (r: seq<nat>)
    ensures forall d :: d in r ==> d < |DaysOrder|
  {
    if segment == "" then []
    else
      var range := Split(segment, IsRangeSep);
      if |range| == 2 then
        match (DayIndex(range[0]), DayIndex(range[1]))
        case (Some(a), Some(b)) => WeekRange(a, b)
        case _ => []
      else
        match DayIndex(segment)
        case Some(d) => [d]
        case None => []
  }

  /** Each token is found at its own position. */
  lemma DayIndexOf(a: nat)
    requires a < |DaysOrder|
    ensures DayIndex(DaysOrder[a]) == Some(a)
  {
    var i := DayIndex(DaysOrder[a]).value;
    if i < a {
      DaysDistinct(i, a);
    } else if a < i {
      DaysDistinct(a, i);
    }
  }

  /** No day token contains a separator. */
  lemma TokenHasNoSep(a: nat)
    requires a < |DaysOrder|
    ensures forall i :: 0 <= i < |DaysOrder[a]| ==> !IsRangeSep(DaysOrder[a][i]) && !IsListSep(DaysOrder[a][i])
  {
  }

  /** A range of two day tokens, with either dash, yields its days. */
  lemma RangeSegment(a: nat, b: nat, dash: char)
    requires a < |DaysOrder| && b < |DaysOrder| && IsRangeSep(dash)
    ensures SegmentDays(DaysOrder[a] + [dash] + DaysOrder[b]) == WeekRange(a, b)
  {
    TokenHasNoSep(a);
    TokenHasNoSep(b);
    DayIndexOf(a);
    DayIndexOf(b);
    var segment := DaysOrder[a] + [dash] + DaysOrder[b];
    SplitAround(DaysOrder[a], dash, DaysOrder[b], IsRangeSep);
    assert segment != "" by {
      assert |segment| == |DaysOrder[a]| + 1 + |DaysOrder[b]|;
    }
  }

  /** A single day token yields its day. */
  lemma SingleSegment(a: nat)
    requires a < |DaysOrder|
    ensures SegmentDays(DaysOrder[a]) == [a]
  {
    TokenHasNoSep(a);
    SplitNoSep(DaysOrder[a], IsRangeSep);
    DayIndexOf(a);
  }

  /** What `f` gives for each of the first `n` parts, concatenated in
      order. */
  function Collect<S, T>(parts: seq<S>, n: nat, f: S -> seq<T>): seq<T>
    requires n <= |parts|
  {
    if n == 0 then [] else Collect(parts, n - 1, f) + f(parts[n - 1])
  }

  /** An element is collected exactly when `f` gives it for one of the first
      `n` parts. */
  lemma {:induction false} CollectMembership<S, T>(parts: seq<S>, n: nat, f: S -> seq<T>, x: T)
    requires n <= |parts|
    ensures x in Collect(parts, n, f) <==> exists k :: 0 <= k < n && x in f(parts[k])
  {
    if n > 0 {
      CollectMembership(parts, n - 1, f, x);
      if x in f(parts[n - 1]) {
        assert 0 <= n - 1 < n;
      } else if exists k :: 0 <= k < n && x in f(parts[k]) {
        var k :| 0 <= k < n && x in f(parts[k]);
        assert k < n - 1;
      }
    }
  }

  /** The days of the first `n` segments, in order, with repetitions. */
  function CollectDays(segments: seq<string>, n: nat): (r: seq<nat>)
    requires n <= |segments|
    ensures forall d :: d in r <==> exists k :: 0 <= k < n && d in SegmentDays(segments[k])
    ensures forall d :: d in r ==> d < |DaysOrder|
  {
    var r := Collect(segments, n, SegmentDays);
    forall d ensures d in r <==> exists k :: 0 <= k < n && d in SegmentDays(segments[k]) {
      CollectMembership(segments, n, SegmentDays, d);
    }
    r
  }

  lemma CollectDaysStep(segments: seq<string>, k: nat)
    requires k < |segments|
    ensures CollectDays(segments, k + 1) == CollectDays(segments, k) + SegmentDays(segments[k])
  {
  }

  /** The segments of a non-empty `trading_days` value. */
  function Segments(raw: string): seq<string> {
    Split(RemoveSpaces(raw), IsListSep)
  }

  function Identity(d: nat): nat {
    d
  }

  /** The trading days of a market, each once, in the order in which they are
      first listed; none when `trading_days` is null or empty. */
  function TradingDays(tradingDays: Option<string>): seq<nat> {
    var raw := tradingDays.GetOr("");
    if raw == "" then [] else FirstPerKey(CollectDays(Segments(raw), |Segments(raw)|), Identity)
  }

  /** A day is a trading day exactly when some segment of the list names it. */
  lemma TradingDaysMembership(raw: string, d: nat)
    requires raw != ""
    ensures d in TradingDays(Some(raw)) <==>
      exists k :: 0 <= k < |Segments(raw)| && d in SegmentDays(Segments(raw)[k])
  {
    var all := CollectDays(Segments(raw), |Segments(raw)|);
    if d in all {
      FirstPerKeyCovers(all, Identity, d);
    }
  }

  /** No day is listed twice, and every listed day is a day of the week. */
  lemma TradingDaysDistinct(tradingDays: Option<string>)
    ensures forall i, j :: 0 <= i < j < |TradingDays(tradingDays)| ==>
      TradingDays(tradingDays)[i] != TradingDays(tradingDays)[j]
    ensures forall d :: d in TradingDays(tradingDays) ==> d < |DaysOrder|
  {
  }

  /** Appends the days `lo` to `hi - 1` one at a time. */
  method AppendInterval(days: seq<nat>, lo: nat, hi: nat) returns (r: seq<nat>)
    requires lo <= hi
    ensures r == days + Interval(lo, hi)
  {
    r := days;
    var i := lo;
    while i < hi
      invariant lo <= i <= hi
      invariant r == days + Interval(lo, i)
    {
      r := r + [i];
      i := i + 1;
    }
  }

  /** The body of the loop over the segments: appends the days of one. */
  method AddSegment(daysSet: seq<nat>, segment: string) returns (r: seq<nat>)
    ensures r == daysSet + SegmentDays(segment)
  {
    r := daysSet;
    if segment != "" {
      var range := Split(segment, IsRangeSep);
      if |range| == 2 {
        var startIdx := DayIndex(range[0]);
        var endIdx := DayIndex(range[1]);
        if startIdx.Some? && endIdx.Some? {
          r := AppendRange(r, startIdx.value, endIdx.value);
        }
      } else if DayIndex(segment).Some? {
        r := r + [DayIndex(segment).value];
      }
    }
  }

  /** Appends the days of the range `a`–`b`. */
  method AppendRange(daysSet: seq<nat>, a: nat, b: nat) returns (r: seq<nat>)
    requires a < |DaysOrder| && b < |DaysOrder|
    ensures r == daysSet + WeekRange(a, b)
  {
    if a <= b {
      r := AppendInterval(daysSet, a, b + 1);
    } else {
      var r1 := AppendInterval(daysSet, a, |DaysOrder|);
      r := AppendInterval(r1, 0, b + 1);
      assert r == daysSet + (Interval(a, |DaysOrder|) + Interval(0, b + 1));
    }
  }

  /** The loop over the segments: the days of each, appended in order. */
  method CollectSegments(segments: seq<string>) returns (days: seq<nat>)
    ensures days == CollectDays(segments, |segments|)
  {
    days := [];
    var k := 0;
    while k < |segments|
      invariant k <= |segments|
      invariant days == CollectDays(segments, k)
    {
      days := AddSegment(days, segments[k]);
      CollectDaysStep(segments, k);
      k := k + 1;
    }
  }

  /** The parse of `trading_days` into the list of trading days. */
  method ParseTradingDays(tradingDays: Option<string>) returns (daysSet: seq<nat>)
    ensures daysSet == TradingDays(tradingDays)
  {
    var raw := tradingDays.GetOr("");
    daysSet := [];
    if raw != "" {
      daysSet := CollectSegments(Segments(raw));
      daysSet := FirstPerKey(daysSet, Identity);
    }
  }

  /** `empty($daysSet) ? true : in_array($dayAbbr, $daysSet, true)`. */
  predicate IsTradingDay(daysSet: seq<nat>, weekday: nat) {
    daysSet == [] || weekday in daysSet
  }

  // ---- the opening window ----

  /** At most two decimal digits. */
  predicate IsShortNumber(s: string) {
    1 <= |s| <= 2 && AllDigits(s)
  }

  /** `setTimeFromTimeString`: a time of day `H[H]:M[M]` or `H[H]:M[M]:S[S]`
      (a bare hour gets `:0` appended), as seconds since midnight; `None` for a
      string the date parser rejects, which throws. */
  function ParseTimeOfDay(time: string): (r: Option<int>)
    ensures r.Some? ==> 0 <= r.value <= 24 * 3600 + 59 * 60 + 60
  {
    var t := if ':' in time then time else time + ":0";
    var parts := Split(t, (c: char) => c == ':');
    if (|parts| == 2 || |parts| == 3) && forall k :: 0 <= k < |parts| ==> IsShortNumber(parts[k]) then
      var h := DigitsValue(parts[0]);
      var m := DigitsValue(parts[1]);
      var s := if |parts| == 3 then DigitsValue(parts[2]) else 0;
      if h <= 24 && m <= 59 && s <= 60 then Some(h * 3600 + m * 60 + s) else None
    else None
  }

  datatype LocalClock = LocalClock(weekday: nat, secondOfDay: int)

  datatype MarketRow = MarketRow(
    tradingDays: Option<string>, openAt: Option<string>, closeAt: Option<string>,
    isOpen: bool, status: int)

  /** `$this->open_at && $this->close_at`: both bounds are set and truthy. */
  predicate HasWindow(m: MarketRow) {
    m.openAt.Some? && !IsFalsy(m.openAt.value) && m.closeAt.Some? && !IsFalsy(m.closeAt.value)
  }

  /** Whether the evaluation throws: an unreadable clock, or a bound the date
      parser rejects. */
  predicate Throws(m: MarketRow, clock: Option<LocalClock>) {
    clock.None? ||
    (HasWindow(m) && (ParseTimeOfDay(m.openAt.value).None? || ParseTimeOfDay(m.closeAt.value).None?))
  }

  /** The window test: passes without a window, else `open <= now <= close`. */
  predicate InWindow(m: MarketRow, c: LocalClock)
    requires HasWindow(m) ==> ParseTimeOfDay(m.openAt.value).Some? && ParseTimeOfDay(m.closeAt.value).Some?
  {
    HasWindow(m) ==>
      ParseTimeOfDay(m.openAt.value).value <= c.secondOfDay <= ParseTimeOfDay(m.closeAt.value).value
  }

  /** `isOpenNow`: the stored flag, or a trading day within the window of an
      active market; the stored flag alone when the evaluation throws. */
  method IsOpenNow(m: MarketRow, clock: Option<LocalClock>) returns (open: bool)
    ensures m.isOpen ==> open
    ensures Throws(m, clock) ==> open == m.isOpen
    ensures !Throws(m, clock) ==>
      (open <==>
        m.isOpen || (IsTradingDay(TradingDays(m.tradingDays), clock.value.weekday) && InWindow(m, clock.value) && m.status == 1))
  {
    if clock.None? {
      return m.isOpen;
    }
    var now := clock.value;
    var daysSet := ParseTradingDays(m.tradingDays);
    var isTradingDay := daysSet == [] || now.weekday in daysSet;
    var openCheck := true;
    if HasWindow(m) {
      var openTime := ParseTimeOfDay(m.openAt.value);
      var closeTime := ParseTimeOfDay(m.closeAt.value);
      if openTime.None? || closeTime.None? {
        return m.isOpen;
      }
      openCheck := openTime.value <= now.secondOfDay && now.secondOfDay <= closeTime.value;
    }
    open := m.isOpen || (isTradingDay && openCheck && m.status == 1);
  }

  /** Without a trading-day list every day is a trading day. */
  lemma NoListEveryDay(weekday: nat)
    ensures IsTradingDay(TradingDays(None), weekday)
    ensures IsTradingDay(TradingDays(Some("")), weekday)
  {
  }
}

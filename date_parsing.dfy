/**
 * `Validators.parse_date_from_text` (utils/validators.py): resolving a
 * free-text date phrase to a `YYYY-MM-DD` string, anchored to the current
 * moment `now`, which the caller supplies in place of `datetime.now()`.
 *
 * The phrases are tried in a fixed order and the first that applies wins:
 * "today", "tomorrow", "next monday" ... "next friday", a day with a month
 * name (either order), a `YYYY-MM-DD` substring; otherwise there is no date.
 */
module DateParsing {
  import opened Wrappers
  import opened Text
  import opened Calendar

  /**
   * The outcome of one call: the date string, `None`, or the `OverflowError`
   * that `today + timedelta(days=n)` raises when the sum passes 9999-12-31.
   */
  datatype DateParse = Found(iso: string) | NotFound | OutOfRange

  /** The text of that `OverflowError`. */
  const OverflowMessage: string := "date value out of range"

  /** The weekday names of the "next <weekday>" phrases, Monday (0) to Friday (4). */
  const WeekdayNames: seq<string> := ["monday", "tuesday", "wednesday", "thursday", "friday"]

  /** The phrase "next <weekday>" for weekday `k`. */
  function NextPhrase(k: nat): string
    requires k < 5
  {
    "next " + WeekdayNames[k]
  }

  /**
   * `(today + timedelta(days=n)).strftime('%Y-%m-%d')`: the `YYYY-MM-DD`
   * text of exactly the date `n` days on, or `OverflowError` when that date
   * is past year 9999, which within a week of `today` happens only from the
   * last days of December 9999.
   */
  function DaysLater(today: Date, n: nat): (r: DateParse)
    requires IsValid(today)
    ensures r != NotFound
    ensures r.OutOfRange? <==> AddDays(today, n).year > MaxYear
    ensures r.Found? ==> IsIsoDate(r.iso) && IsoDate(r.iso) == AddDays(today, n)
    ensures r.OutOfRange? && n <= 7 ==> today.year == MaxYear && today.month == 12 && today.day + n > 31
  {
    var d := AddDays(today, n);
    if d.year <= MaxYear then
      IsoFormatParses(d);
      Found(IsoFormat(d))
    else
      assert n <= 7 ==> today.year == MaxYear && today.month == 12 && today.day + n > 31 by {
        if n <= 7 { AddDaysPastMaxYear(today, n); }
      }
      OutOfRange
  }

  /** `days_ahead = target - today.weekday()`, plus 7 when that is not positive. */
  function DaysAhead(target: int, weekday: int): (n: nat)
    requires 0 <= target < 7 && 0 <= weekday < 7
    ensures 1 <= n <= 7 && (n - (target - weekday)) % 7 == 0
  {
    var k := target - weekday;
    if k <= 0 then k + 7 else k
  }

  /**
   * The `elif` chain over "next monday" ... "next friday" from position `k`
   * on: the first weekday whose phrase occurs in `t`.
   */
  function NextWeekdayPhrase(t: string, k: nat): (r: Option<nat>)
    requires k <= 5
    ensures r.Some? ==> k <= r.value < 5 && Contains(t, NextPhrase(r.value))
    ensures r.Some? ==> forall j :: k <= j < r.value ==> !Contains(t, NextPhrase(j))
    ensures r.None? ==> forall j :: k <= j < 5 ==> !Contains(t, NextPhrase(j))
    decreases 5 - k
  {
    if k == 5 then None
    else if Contains(t, NextPhrase(k)) then Some(k)
    else NextWeekdayPhrase(t, k + 1)
  }

  // ---------------------------------------------------------------------
  // The three fixed regular expressions, searched leftmost-first as
  // `re.search` does.
  // ---------------------------------------------------------------------

  /**
   * `(\d{1,2})(?:st|nd|rd|th)?\s+(\w+)` ("26th may"),
   * `(\w+)\s+(\d{1,2})(?:st|nd|rd|th)?` ("may 26th"),
   * `(\d{4}-\d{2}-\d{2})` ("2024-12-25").
   */
  datatype Pattern = DayThenMonth | MonthThenDay | IsoDay

  /** `month_day_patterns`, in the order the loop tries them. */
  const MonthDayPatterns: seq<Pattern> := [DayThenMonth, MonthThenDay]

  /** End of the maximal run of whitespace starting at `i` (greedy `\s*`). */
  function SpaceRunEnd(t: string, i: nat): (j: nat)
    requires i <= |t|
    ensures i <= j <= |t| && (forall k :: i <= k < j ==> IsSpace(t[k]))
    ensures j < |t| ==> !IsSpace(t[j])
    decreases |t| - i
  {
    if i < |t| && IsSpace(t[i]) then SpaceRunEnd(t, i + 1) else i
  }

  /** End of the maximal run of word characters starting at `i` (greedy `\w*`). */
  function WordRunEnd(t: string, i: nat): (j: nat)
    requires i <= |t|
    ensures i <= j <= |t| && (forall k :: i <= k < j ==> IsWord(t[k]))
    ensures j < |t| ==> !IsWord(t[j])
    decreases |t| - i
  {
    if i < |t| && IsWord(t[i]) then WordRunEnd(t, i + 1) else i
  }

  /** End of greedy `\d{1,2}` at a digit: two digits when a second follows. */
  function DigitsEnd(t: string, i: nat): (j: nat)
    requires i < |t| && IsDigit(t[i])
    ensures j == i + 1 || j == i + 2
    ensures j <= |t| && AllDigits(t[i..j])
  {
    if i + 1 < |t| && IsDigit(t[i + 1]) then i + 2 else i + 1
  }

  /** `(?:st|nd|rd|th)` matches at `k`. */
  predicate OrdinalSuffixAt(t: string, k: nat) {
    k + 2 <= |t|
    && ((t[k] == 's' && t[k + 1] == 't') || (t[k] == 'n' && t[k + 1] == 'd')
        || (t[k] == 'r' && t[k + 1] == 'd') || (t[k] == 't' && t[k + 1] == 'h'))
  }

  /**
   * The groups of pattern `p` matched from position `i`, as the backtracking
   * matcher finds them: `\d{1,2}`, `\w+` and `\s+` are greedy, and giving
   * back characters never rescues a failed attempt, because the character
   * given back can never start what follows it in the pattern.
   */
  function MatchAt(p: Pattern, t: string, i: nat): (g: Option<seq<string>>)
    requires i <= |t|
    ensures g.Some? ==> |g.value| == (if p == IsoDay then 1 else 2)
    ensures g.Some? && p == DayThenMonth ==> 1 <= |g.value[0]| <= 2 && AllDigits(g.value[0])
    ensures g.Some? && p == MonthThenDay ==> 1 <= |g.value[1]| <= 2 && AllDigits(g.value[1])
    ensures g.Some? && p == IsoDay ==> i + 10 <= |t| && g.value[0] == t[i..i + 10] && IsoShape(g.value[0])
    ensures g.Some? && p != IsoDay ==> exists k :: i <= k < |t| && IsSpace(t[k])
  {
    match p
    case DayThenMonth =>
      if i < |t| && IsDigit(t[i]) then
        var k := DigitsEnd(t, i);
        var m := if OrdinalSuffixAt(t, k) then k + 2 else k;
        if m < |t| && IsSpace(t[m]) then
          var q := SpaceRunEnd(t, m);
          if q < |t| && IsWord(t[q]) then Some([t[i..k], t[q..WordRunEnd(t, q)]]) else None
        else None
      else None
    case MonthThenDay =>
      if i < |t| && IsWord(t[i]) then
        var j := WordRunEnd(t, i);
        if j < |t| && IsSpace(t[j]) then
          var q := SpaceRunEnd(t, j);
          if q < |t| && IsDigit(t[q]) then Some([t[i..j], t[q..DigitsEnd(t, q)]]) else None
        else None
      else None
    case IsoDay =>
      if i + 10 <= |t| && IsoShape(t[i..i + 10]) then Some([t[i..i + 10]]) else None
  }

  /** `re.search(p, t)` from position `i`: the leftmost position where `p` matches. */
  function Search(p: Pattern, t: string, i: nat): (r: Option<nat>)
    requires i <= |t|
    ensures r.Some? ==> i <= r.value <= |t| && MatchAt(p, t, r.value).Some?
    ensures r.Some? ==> forall j :: i <= j < r.value ==> MatchAt(p, t, j).None?
    ensures r.None? ==> forall j :: i <= j <= |t| ==> MatchAt(p, t, j).None?
    decreases |t| - i
  {
    if MatchAt(p, t, i).Some? then Some(i)
    else if i == |t| then None
    else Search(p, t, i + 1)
  }

  /**
   * One way for `(\d{1,2})(?:st|nd|rd|th)?\s+(\w+)` to match from `i`: the
   * day group `t[i..k]`, an optional ordinal suffix ending at `m`, a
   * non-empty whitespace run `t[m..q]` and the month group `t[q..e]`.
   */
  predicate DayMonthSplit(t: string, i: nat, k: nat, m: nat, q: nat, e: nat) {
    && i < k <= i + 2 && k <= m < q < e <= |t|
    && AllDigits(t[i..k])
    && (m == k || (m == k + 2 && OrdinalSuffixAt(t, k)))
    && (forall x :: m <= x < q ==> IsSpace(t[x]))
    && (forall x :: q <= x < e ==> IsWord(t[x]))
  }

  /**
   * One way for `(\w+)\s+(\d{1,2})(?:st|nd|rd|th)?` to match from `i`: the
   * month group `t[i..j]`, a non-empty whitespace run `t[j..q]` and the day
   * group `t[q..k]` (the optional suffix is never needed for a match).
   */
  predicate MonthDaySplit(t: string, i: nat, j: nat, q: nat, k: nat) {
    && i < j < q < k <= q + 2 && k <= |t|
    && (forall x :: i <= x < j ==> IsWord(t[x]))
    && (forall x :: j <= x < q ==> IsSpace(t[x]))
    && AllDigits(t[q..k])
  }

  /** A split of the day-first pattern fixes the match `MatchAt` computes. */
  lemma DayThenMonthFrom(t: string, i: nat, k: nat, m: nat, q: nat, e: nat)
    requires DayMonthSplit(t, i, k, m, q, e)
    ensures MatchAt(DayThenMonth, t, i) == Some([t[i..k], t[q..WordRunEnd(t, q)]])
    ensures e == |t| || !IsWord(t[e]) ==> WordRunEnd(t, q) == e
  {
    assert t[k - 1] == t[i..k][k - 1 - i];
    assert DigitsEnd(t, i) == k;
    assert m == k ==> IsSpace(t[k]) && !OrdinalSuffixAt(t, k);
    assert IsWord(t[q]) && !IsSpace(t[q]);
    assert SpaceRunEnd(t, m) == q;
  }

  /**
   * The day-first pattern matches at `i` exactly when it can be split there,
   * and its groups are the day digits and the whole word run that follows
   * the whitespace.
   */
  lemma DayThenMonthGroups(t: string, i: nat)
    requires i <= |t|
    ensures (exists k: nat, m: nat, q: nat, e: nat :: DayMonthSplit(t, i, k, m, q, e)) ==> MatchAt(DayThenMonth, t, i).Some?
    ensures MatchAt(DayThenMonth, t, i).Some? ==>
      exists k: nat, m: nat, q: nat, e: nat :: DayMonthSplit(t, i, k, m, q, e) && (e == |t| || !IsWord(t[e]))
    ensures forall k: nat, m: nat, q: nat, e: nat | DayMonthSplit(t, i, k, m, q, e) && (e == |t| || !IsWord(t[e])) ::
      MatchAt(DayThenMonth, t, i) == Some([t[i..k], t[q..e]])
  {
    if exists k: nat, m: nat, q: nat, e: nat :: DayMonthSplit(t, i, k, m, q, e) {
      var k: nat, m: nat, q: nat, e: nat :| DayMonthSplit(t, i, k, m, q, e);
      DayThenMonthFrom(t, i, k, m, q, e);
    }
    if MatchAt(DayThenMonth, t, i).Some? {
      var k := DigitsEnd(t, i);
      var m := if OrdinalSuffixAt(t, k) then k + 2 else k;
      var q := SpaceRunEnd(t, m);
      assert DayMonthSplit(t, i, k, m, q, WordRunEnd(t, q));
    }
    forall k: nat, m: nat, q: nat, e: nat | DayMonthSplit(t, i, k, m, q, e) && (e == |t| || !IsWord(t[e]))
      ensures MatchAt(DayThenMonth, t, i) == Some([t[i..k], t[q..e]])
    {
      DayThenMonthFrom(t, i, k, m, q, e);
    }
  }

  /** A split of the month-first pattern fixes the match `MatchAt` computes. */
  lemma MonthThenDayFrom(t: string, i: nat, j: nat, q: nat, k: nat)
    requires MonthDaySplit(t, i, j, q, k)
    ensures MatchAt(MonthThenDay, t, i) == Some([t[i..j], t[q..DigitsEnd(t, q)]])
    ensures k == q + 2 || k == |t| || !IsDigit(t[k]) ==> DigitsEnd(t, q) == k
  {
    assert IsDigit(t[q]) by { assert t[q] == t[q..k][0]; }
    assert IsSpace(t[j]);
    assert WordRunEnd(t, i) == j;
    assert SpaceRunEnd(t, j) == q;
    if k == q + 2 {
      assert t[q + 1] == t[q..k][1];
    }
  }

  /**
   * The month-first pattern matches at `i` exactly when it can be split
   * there, and its groups are the whole word run and the day digits, two of
   * them when two follow the whitespace.
   */
  lemma MonthThenDayGroups(t: string, i: nat)
    requires i <= |t|
    ensures (exists j: nat, q: nat, k: nat :: MonthDaySplit(t, i, j, q, k)) ==> MatchAt(MonthThenDay, t, i).Some?
    ensures MatchAt(MonthThenDay, t, i).Some? ==>
      exists j: nat, q: nat, k: nat :: MonthDaySplit(t, i, j, q, k) && (k == q + 2 || k == |t| || !IsDigit(t[k]))
    ensures forall j: nat, q: nat, k: nat | MonthDaySplit(t, i, j, q, k) && (k == q + 2 || k == |t| || !IsDigit(t[k])) ::
      MatchAt(MonthThenDay, t, i) == Some([t[i..j], t[q..k]])
  {
    if exists j: nat, q: nat, k: nat :: MonthDaySplit(t, i, j, q, k) {
      var j: nat, q: nat, k: nat :| MonthDaySplit(t, i, j, q, k);
      MonthThenDayFrom(t, i, j, q, k);
    }
    if MatchAt(MonthThenDay, t, i).Some? {
      var j := WordRunEnd(t, i);
      var q := SpaceRunEnd(t, j);
      var k := DigitsEnd(t, q);
      assert MonthDaySplit(t, i, j, q, k);
    }
    forall j: nat, q: nat, k: nat | MonthDaySplit(t, i, j, q, k) && (k == q + 2 || k == |t| || !IsDigit(t[k]))
      ensures MatchAt(MonthThenDay, t, i) == Some([t[i..j], t[q..k]])
    {
      MonthThenDayFrom(t, i, j, q, k);
    }
  }

  // ---------------------------------------------------------------------
  // The day + month-name branch.
  // ---------------------------------------------------------------------

  /** The source's `months` table: full names and the listed abbreviations. */
  const Months: map<string, int> := map[
    "january" := 1, "jan" := 1, "february" := 2, "feb" := 2, "march" := 3, "mar" := 3,
    "april" := 4, "apr" := 4, "may" := 5, "june" := 6, "jun" := 6,
    "july" := 7, "jul" := 7, "august" := 8, "aug" := 8, "september" := 9, "sep" := 9,
    "october" := 10, "oct" := 10, "november" := 11, "nov" := 11, "december" := 12, "dec" := 12
  ]

  /**
   * Every key of the table is a month name of at least three lower-case
   * letters and maps to a month number.
   */
  lemma MonthsTable(k: string)
    requires k in Months
    ensures |k| >= 3 && 1 <= Months[k] <= 12
    ensures forall i :: 0 <= i < |k| ==> IsLower(k[i])
  {
  }

  /** Lower-casing leaves every key as it is, so lower-cased text can name each one. */
  lemma MonthKeysSurviveLower(k: string)
    requires k in Months
    ensures Lower(k) == k
  {
    MonthsTable(k);
    LowerKeepsLowered(k);
  }

  /**
   * `int(s)` on the strings this branch gives it, which are one or two ASCII
   * digits (see `IntSeesOnlyDigits`); `None` stands for `ValueError`.
   */
  function ToInt(s: string): Option<int> {
    if |s| > 0 && AllDigits(s) then Some(DigitsValue(s)) else None
  }

  /**
   * `datetime(now.year, month, day)`, moved to the next year when its
   * midnight lies before `now`; `None` where `datetime` raises `ValueError`
   * (an impossible day or month, February 29 outside a leap year, year 10000).
   */
  function RollForward(month: int, day: int, now: Moment): (r: Option<Date>)
    requires IsValidMoment(now)
    ensures r.Some? ==> IsValid(r.value) && r.value.month == month && r.value.day == day
    ensures r.Some? ==> !MidnightBefore(r.value, now)
    ensures r.Some? ==> r.value.year == now.date.year || r.value.year == now.date.year + 1
    ensures r.Some? ==>
      (r.value.year == now.date.year + 1 <==> MidnightBefore(Date(now.date.year, month, day), now))
    ensures r.None? <==>
      || !IsValid(Date(now.date.year, month, day))
      || (MidnightBefore(Date(now.date.year, month, day), now) && !IsValid(Date(now.date.year + 1, month, day)))
  {
    var d := Date(now.date.year, month, day);
    if !IsValid(d) then None
    else if MidnightBefore(d, now) then
      var next := Date(now.date.year + 1, month, day);
      if IsValid(next) then Some(next) else None
    else Some(d)
  }

  /**
   * One turn of `for pattern in month_day_patterns`: the date the first
   * match of `p` names, or `None` for `continue`.
   */
  function TryMonthDay(p: Pattern, t: string, now: Moment): (r: Option<Date>)
    requires IsValidMoment(now) && p != IsoDay
    ensures r.Some? ==> Search(p, t, 0).Some?
    ensures r.Some? ==> IsValid(r.value) && !MidnightBefore(r.value, now)
    ensures r.Some? ==> r.value.year == now.date.year || r.value.year == now.date.year + 1
  {
    match Search(p, t, 0)
    case None => None
    case Some(pos) =>
      var g := MatchAt(p, t, pos).value;
      var part1, part2 := Lower(g[0]), Lower(g[1]);
      if part1 in Months then
        match ToInt(g[1])
        case None => None
        case Some(day) => RollForward(Months[part1], day, now)
      else if part2 in Months then
        match ToInt(g[0])
        case None => None
        case Some(day) => RollForward(Months[part2], day, now)
      else None
  }

  /** `for pattern in patterns`: the first pattern that yields a date. */
  function MonthDayLoop(patterns: seq<Pattern>, t: string, now: Moment): (r: Option<Date>)
    requires IsValidMoment(now) && IsoDay !in patterns
    ensures r.Some? ==> IsValid(r.value) && !MidnightBefore(r.value, now)
    ensures r.Some? ==> r.value.year == now.date.year || r.value.year == now.date.year + 1
  {
    if patterns == [] then None
    else match TryMonthDay(patterns[0], t, now)
      case Some(d) => Some(d)
      case None => MonthDayLoop(patterns[1..], t, now)
  }

  /**
   * The `YYYY-MM-DD` fallback: the first such substring, if `strptime`
   * accepts it. It never overflows, and what it finds is a real date
   * written in `t`.
   */
  function IsoFallback(t: string): (r: DateParse)
    ensures r != OutOfRange
    ensures r.Found? ==> IsIsoDate(r.iso) && Contains(t, r.iso)
  {
    match Search(IsoDay, t, 0)
    case None => NotFound
    case Some(pos) =>
      var s := MatchAt(IsoDay, t, pos).value[0];
      if IsValid(IsoDate(s)) then
        assert OccursAt(t, s, pos);
        Found(s)
      else NotFound
  }

  /** `\d{4}-\d{2}-\d{2}` matches at `j`. */
  predicate IsoAt(t: string, j: nat) {
    j + 10 <= |t| && IsoShape(t[j..j + 10])
  }

  /**
   * The fallback looks only at the leftmost `YYYY-MM-DD`-shaped substring:
   * it returns that substring when it names a real date and nothing
   * otherwise, even when a later one would be a real date.
   */
  lemma IsoFallbackLeftmost(t: string, i: nat)
    requires IsoAt(t, i) && forall j: nat :: j < i ==> !IsoAt(t, j)
    ensures IsoFallback(t) == if IsValid(IsoDate(t[i..i + 10])) then Found(t[i..i + 10]) else NotFound
  {
    assert MatchAt(IsoDay, t, i).Some?;
    forall j: nat | j < i
      ensures MatchAt(IsoDay, t, j).None?
    {
      assert !IsoAt(t, j);
    }
    assert Search(IsoDay, t, 0) == Some(i);
  }

  /** With no `YYYY-MM-DD`-shaped substring, the fallback finds nothing. */
  lemma IsoFallbackNone(t: string)
    requires forall j: nat :: !IsoAt(t, j)
    ensures IsoFallback(t) == NotFound
  {
    forall j: nat | j <= |t|
      ensures MatchAt(IsoDay, t, j).None?
    {
      assert !IsoAt(t, j);
    }
  }

  /** `Validators.parse_date_from_text(text)` at the moment `now`. */
  function ParseDateFromText(text: string, now: Moment): (r: DateParse)
    requires IsValidMoment(now)
    ensures r.Found? ==> IsIsoDate(r.iso)
    ensures r.OutOfRange? ==> now.date.year == MaxYear && now.date.month == 12 && now.date.day > 24
  {
    var t := Strip(Lower(text));
    if Contains(t, "today") then
      IsoFormatParses(now.date);
      Found(IsoFormat(now.date))
    else if Contains(t, "tomorrow") then DaysLater(now.date, 1)
    else match NextWeekdayPhrase(t, 0)
      case Some(k) => DaysLater(now.date, DaysAhead(k, Weekday(now.date)))
      case None =>
        match MonthDayLoop(MonthDayPatterns, t, now)
        case Some(d) =>
          IsoFormatParses(d);
          Found(IsoFormat(d))
        case None => IsoFallback(t)
  }

  // ---------------------------------------------------------------------
  // Properties.
  // ---------------------------------------------------------------------

  /** The lower-cased phrases the chain looks for never start or end with whitespace. */
  lemma PhrasesStripSafe(text: string)
    ensures Contains(Strip(Lower(text)), "today") <==> Contains(Lower(text), "today")
    ensures Contains(Strip(Lower(text)), "tomorrow") <==> Contains(Lower(text), "tomorrow")
    ensures forall k :: 0 <= k < 5 ==>
      (Contains(Strip(Lower(text)), NextPhrase(k)) <==> Contains(Lower(text), NextPhrase(k)))
  {
    ContainsStrip(Lower(text), "today");
    ContainsStrip(Lower(text), "tomorrow");
    forall k | 0 <= k < 5
      ensures Contains(Strip(Lower(text)), NextPhrase(k)) <==> Contains(Lower(text), NextPhrase(k))
    {
      var p := NextPhrase(k);
      assert p[0] == 'n';
      assert p[|p| - 1] == 'y';
      ContainsStrip(Lower(text), p);
    }
  }

  /** "today" anywhere in the text, in any letter case, wins over everything else. */
  lemma TodayWins(text: string, now: Moment)
    requires IsValidMoment(now)
    requires Contains(Lower(text), "today")
    ensures ParseDateFromText(text, now) == Found(IsoFormat(now.date))
  {
    PhrasesStripSafe(text);
  }

  /** "tomorrow" (without "today") gives the day after `now`'s date. */
  lemma TomorrowIsNextDay(text: string, now: Moment)
    requires IsValidMoment(now)
    requires !Contains(Lower(text), "today") && Contains(Lower(text), "tomorrow")
    ensures var r := ParseDateFromText(text, now);
      && (r.OutOfRange? <==> now.date == Date(MaxYear, 12, 31))
      && (r.Found? ==> IsIsoDate(r.iso) && Ordinal(IsoDate(r.iso)) == Ordinal(now.date) + 1)
  {
    TomorrowBranch(text, now);
    assert AddDays(now.date, 1) == NextDay(now.date);
    NextDayPastMaxYear(now.date);
  }

  /** "tomorrow" (without "today") is resolved by adding one day. */
  lemma TomorrowBranch(text: string, now: Moment)
    requires IsValidMoment(now)
    requires !Contains(Lower(text), "today") && Contains(Lower(text), "tomorrow")
    ensures ParseDateFromText(text, now) == DaysLater(now.date, 1)
  {
    PhrasesStripSafe(text);
  }

  /**
   * The date `days_ahead` days after `today`: on weekday `k`, strictly
   * after `today` and at most a week later, a full week when `today` is
   * itself weekday `k`.
   */
  lemma NextWeekdayDate(today: Date, k: nat)
    requires IsValid(today) && k < 5
    ensures var n := DaysAhead(k, Weekday(today)); var d := AddDays(today, n);
      && Weekday(d) == k
      && 1 <= Ordinal(d) - Ordinal(today) <= 7
      && DateBefore(today, d)
      && (Weekday(today) == k ==> Ordinal(d) - Ordinal(today) == 7)
  {
    var w := Weekday(today);
    var n := DaysAhead(k, w);
    var d := AddDays(today, n);
    WeekdayAfter(today, n);
    LandsOnTarget(w, k);
    OrdinalOrder(today, d);
  }

  lemma LandsOnTarget(w: int, k: int)
    requires 0 <= w < 7 && 0 <= k < 7
    ensures (w + DaysAhead(k, w)) % 7 == k
    ensures w == k ==> DaysAhead(k, w) == 7
  {
    var n := DaysAhead(k, w);
    assert w + n == k || w + n == k + 7;
  }

  /** The chain reaches the "next <weekday>" branch for the first weekday named. */
  lemma NextWeekdayBranch(text: string, now: Moment, k: nat)
    requires IsValidMoment(now) && k < 5
    requires !Contains(Lower(text), "today") && !Contains(Lower(text), "tomorrow")
    requires Contains(Lower(text), NextPhrase(k))
    requires forall j :: 0 <= j < k ==> !Contains(Lower(text), NextPhrase(j))
    ensures ParseDateFromText(text, now) == DaysLater(now.date, DaysAhead(k, Weekday(now.date)))
  {
    PhrasesStripSafe(text);
    var t := Strip(Lower(text));
    assert NextWeekdayPhrase(t, 0) == Some(k);
  }

  /**
   * What the "next <weekday>" branch returns from `today`: that weekday,
   * one to seven days on and never `today` itself, a full week on when
   * `today` is that weekday; an overflow only in the last week of 9999.
   */
  lemma NextWeekdayResult(today: Date, k: nat)
    requires IsValid(today) && k < 5
    ensures var r := DaysLater(today, DaysAhead(k, Weekday(today)));
      && (r.Found? ==> IsIsoDate(r.iso))
      && (r.Found? && IsIsoDate(r.iso) ==>
            var d := IsoDate(r.iso);
            && Weekday(d) == k
            && 1 <= Ordinal(d) - Ordinal(today) <= 7
            && DateBefore(today, d)
            && (Weekday(today) == k ==> Ordinal(d) - Ordinal(today) == 7))
      && (r.OutOfRange? ==> today.year == MaxYear && today.month == 12 && today.day > 24)
  {
    var n := DaysAhead(k, Weekday(today));
    var d := AddDays(today, n);
    if d.year <= MaxYear {
      NextWeekdayDate(today, k);
      IsoFormatParses(d);
    } else {
      AddDaysPastMaxYear(today, n);
    }
  }

  /**
   * "next <weekday>" in the text (without "today" or "tomorrow", and no
   * earlier weekday of the chain) lands as `NextWeekdayResult` says.
   */
  lemma NextWeekdayLands(text: string, now: Moment, k: nat)
    requires IsValidMoment(now) && k < 5
    requires !Contains(Lower(text), "today") && !Contains(Lower(text), "tomorrow")
    requires Contains(Lower(text), NextPhrase(k))
    requires forall j :: 0 <= j < k ==> !Contains(Lower(text), NextPhrase(j))
    ensures var r := ParseDateFromText(text, now);
      && (r.Found? ==> IsIsoDate(r.iso) && Weekday(IsoDate(r.iso)) == k
                       && DateBefore(now.date, IsoDate(r.iso)))
      && (r.OutOfRange? ==> now.date.year == MaxYear && now.date.month == 12)
  {
    NextWeekdayBranch(text, now, k);
    NextWeekdayResult(now.date, k);
  }

  /**
   * A date found by the day + month-name branch is never in the past: its
   * midnight is not before `now`. It is in `now`'s year or the next one.
   */
  lemma MonthDayNotPast(t: string, now: Moment)
    requires IsValidMoment(now)
    requires MonthDayLoop(MonthDayPatterns, t, now).Some?
    ensures var d := MonthDayLoop(MonthDayPatterns, t, now).value;
      && !DateBefore(d, now.date)
      && (d == now.date ==> now.micros == 0)
      && (d.year == now.date.year || d.year == now.date.year + 1)
  {
  }

  /**
   * Naming `now`'s own day and month gives `now`'s date only at exactly
   * midnight; at any later moment of the day it is rolled to next year.
   */
  lemma OwnDateRollsOver(now: Moment)
    requires IsValidMoment(now)
    ensures var r := RollForward(now.date.month, now.date.day, now);
      && (now.micros == 0 ==> r == Some(now.date))
      && (now.micros > 0 && r.Some? ==> r.value == Date(now.date.year + 1, now.date.month, now.date.day))
  {
  }

  /**
   * February 29 named after the leap day of a leap year is skipped: the
   * next year has no February 29, and `datetime` refuses it.
   */
  lemma LeapDayRolledIsSkipped(now: Moment)
    requires IsValidMoment(now) && IsLeapYear(now.date.year)
    requires MidnightBefore(Date(now.date.year, 2, 29), now)
    ensures RollForward(2, 29, now) == None
  {
    assert (now.date.year + 1) % 4 != 0;
  }

  /** No key of the month table is made of digits. */
  lemma DigitsAreNoMonth(s: string)
    requires AllDigits(s)
    ensures s !in Months
  {
    forall k | k in Months
      ensures k != s
    {
      MonthsTable(k);
      assert IsLower(k[0]);
    }
  }

  /**
   * In each month/day match, the part the source hands to `int()` is one or
   * two ASCII digits, and the other part is the one looked up in the month
   * table: so `int()` never raises there, and its sign, underscore and
   * whitespace rules never come into play.
   */
  lemma IntSeesOnlyDigits(p: Pattern, t: string, i: nat)
    requires p in MonthDayPatterns && i <= |t| && MatchAt(p, t, i).Some?
    ensures var g := MatchAt(p, t, i).value;
      && (Lower(g[0]) in Months ==> 1 <= |g[1]| <= 2 && AllDigits(g[1]))
      && (Lower(g[0]) !in Months && Lower(g[1]) in Months ==> 1 <= |g[0]| <= 2 && AllDigits(g[0]))
  {
    var g := MatchAt(p, t, i).value;
    if p == DayThenMonth {
      LowerKeepsLowered(g[0]);
      DigitsAreNoMonth(g[0]);
    } else {
      LowerKeepsLowered(g[1]);
      DigitsAreNoMonth(g[1]);
    }
  }

  /**
   * A pattern yields a date only from its first match, when one of the two
   * captured parts is a key of the month table (the first part is looked
   * up first) and the other gives the day.
   */
  lemma MonthDayNamesTheDate(p: Pattern, t: string, now: Moment)
    requires IsValidMoment(now) && p in MonthDayPatterns && TryMonthDay(p, t, now).Some?
    ensures Search(p, t, 0).Some?
    ensures var g := MatchAt(p, t, Search(p, t, 0).value).value;
      var d := TryMonthDay(p, t, now).value;
      && IsValid(d) && !MidnightBefore(d, now)
      && (Lower(g[0]) in Months ==> d.month == Months[Lower(g[0])] && AllDigits(g[1]) && d.day == DigitsValue(g[1]))
      && (Lower(g[0]) !in Months ==>
            Lower(g[1]) in Months && d.month == Months[Lower(g[1])] && AllDigits(g[0]) && d.day == DigitsValue(g[0]))
  {
    var pos := Search(p, t, 0).value;
    IntSeesOnlyDigits(p, t, pos);
  }

  /**
   * Conversely, the first match decides the turn: when its first part is a
   * month key, the turn yields what `RollForward` makes of that month and
   * the day digits of the second part (a date exactly when that day is valid
   * in the year `RollForward` picks); otherwise the same with the parts
   * swapped; and with no month key it yields nothing.
   */
  lemma FirstMatchDecides(p: Pattern, t: string, now: Moment)
    requires IsValidMoment(now) && p in MonthDayPatterns && Search(p, t, 0).Some?
    ensures var g := MatchAt(p, t, Search(p, t, 0).value).value;
      && (Lower(g[0]) in Months ==>
            AllDigits(g[1]) && TryMonthDay(p, t, now) == RollForward(Months[Lower(g[0])], DigitsValue(g[1]), now))
      && (Lower(g[0]) !in Months && Lower(g[1]) in Months ==>
            AllDigits(g[0]) && TryMonthDay(p, t, now) == RollForward(Months[Lower(g[1])], DigitsValue(g[0]), now))
      && (Lower(g[0]) !in Months && Lower(g[1]) !in Months ==> TryMonthDay(p, t, now) == None)
  {
    var pos := Search(p, t, 0).value;
    var g := MatchAt(p, t, pos).value;
    IntSeesOnlyDigits(p, t, pos);
    if Lower(g[0]) in Months {
      assert ToInt(g[1]) == Some(DigitsValue(g[1]));
    } else if Lower(g[1]) in Months {
      assert ToInt(g[0]) == Some(DigitsValue(g[0]));
    }
  }

  /** A string with no whitespace matches neither month/day pattern anywhere. */
  lemma NoSpaceNoMonthDay(t: string, now: Moment)
    requires IsValidMoment(now) && NoSpace(t)
    ensures MonthDayLoop(MonthDayPatterns, t, now) == None
  {
    forall j | 0 <= j <= |t|
      ensures MatchAt(DayThenMonth, t, j).None? && MatchAt(MonthThenDay, t, j).None?
    {
    }
    assert Search(DayThenMonth, t, 0) == None;
    assert Search(MonthThenDay, t, 0) == None;
    assert TryMonthDay(DayThenMonth, t, now) == None;
    assert TryMonthDay(MonthThenDay, t, now) == None;
    assert [MonthThenDay][1..] == [];
    assert MonthDayLoop([MonthThenDay], t, now) == None;
    assert MonthDayPatterns[1..] == [MonthThenDay];
  }

  /**
   * The day-first pattern is tried before the month-first one: the loop
   * answers with the day-first date whenever there is one, and only
   * otherwise with the month-first date (or nothing).
   */
  lemma MonthDayLoopOrder(t: string, now: Moment)
    requires IsValidMoment(now)
    ensures MonthDayLoop(MonthDayPatterns, t, now)
         == if TryMonthDay(DayThenMonth, t, now).Some? then TryMonthDay(DayThenMonth, t, now)
            else TryMonthDay(MonthThenDay, t, now)
  {
    assert MonthDayPatterns[1..] == [MonthThenDay];
    assert [MonthThenDay][1..] == [];
    assert MonthDayLoop([], t, now) == None;
    assert MonthDayLoop([MonthThenDay], t, now) == TryMonthDay(MonthThenDay, t, now);
  }

  /**
   * When the text names no relative day and no weekday phrase, a date found
   * by the month/day patterns is what the resolver returns, in ISO form.
   */
  lemma MonthDayBranch(text: string, now: Moment, d: Date)
    requires IsValidMoment(now)
    requires !Contains(Lower(text), "today") && !Contains(Lower(text), "tomorrow")
    requires forall k :: 0 <= k < 5 ==> !Contains(Lower(text), NextPhrase(k))
    requires MonthDayLoop(MonthDayPatterns, Strip(Lower(text)), now) == Some(d)
    ensures ParseDateFromText(text, now) == Found(IsoFormat(d))
  {
    PhrasesStripSafe(text);
  }

  /**
   * When the text names no relative day, no weekday phrase and no usable
   * month/day, the resolver returns the leftmost `YYYY-MM-DD`-shaped
   * substring of the lower-cased, stripped text exactly when it is a real
   * date, and nothing otherwise or when there is no such substring.
   */
  lemma LateIsoBranch(text: string, now: Moment)
    requires IsValidMoment(now)
    requires !Contains(Lower(text), "today") && !Contains(Lower(text), "tomorrow")
    requires forall k :: 0 <= k < 5 ==> !Contains(Lower(text), NextPhrase(k))
    requires MonthDayLoop(MonthDayPatterns, Strip(Lower(text)), now).None?
    ensures var t := Strip(Lower(text));
      && (forall i: nat | IsoAt(t, i) && (forall j: nat :: j < i ==> !IsoAt(t, j)) ::
            ParseDateFromText(text, now) == if IsValid(IsoDate(t[i..i + 10])) then Found(t[i..i + 10]) else NotFound)
      && ((forall j: nat :: !IsoAt(t, j)) ==> ParseDateFromText(text, now) == NotFound)
  {
    var t := Strip(Lower(text));
    PhrasesStripSafe(text);
    assert ParseDateFromText(text, now) == IsoFallback(t);
    forall i: nat | IsoAt(t, i) && (forall j: nat :: j < i ==> !IsoAt(t, j))
      ensures IsoFallback(t) == if IsValid(IsoDate(t[i..i + 10])) then Found(t[i..i + 10]) else NotFound
    {
      IsoFallbackLeftmost(t, i);
    }
    if forall j: nat :: !IsoAt(t, j) {
      IsoFallbackNone(t);
    }
  }

  /** Text shaped `dddd-dd-dd` is made of digits and dashes only. */
  lemma IsoShapeChars(s: string)
    requires IsoShape(s)
    ensures forall k :: 0 <= k < |s| ==> IsDigit(s[k]) || s[k] == '-'
  {
    forall k | 0 <= k < |s| ensures IsDigit(s[k]) || s[k] == '-' {
      if k < 4 { assert s[k] == s[0..4][k]; }
      else if 4 < k < 7 { assert s[k] == s[5..7][k - 5]; }
      else if 7 < k { assert s[k] == s[8..10][k - 8]; }
    }
  }

  /** A `YYYY-MM-DD` text naming a real date is returned verbatim, whatever `now` is. */
  lemma IsoTextIsReturned(s: string, now: Moment)
    requires IsValidMoment(now) && IsIsoDate(s)
    ensures ParseDateFromText(s, now) == Found(s)
  {
    IsoShapeChars(s);
    LowerKeepsLowered(s);
    StripNoSpace(s);
    var t := Strip(Lower(s));
    assert t == s;
    AbsentFirstChar(t, "today");
    AbsentFirstChar(t, "tomorrow");
    assert NextWeekdayPhrase(t, 0) == None by {
      forall k | 0 <= k < 5 ensures !Contains(t, NextPhrase(k)) {
        assert NextPhrase(k)[0] == 'n';
        AbsentFirstChar(t, NextPhrase(k));
      }
    }
    NoSpaceNoMonthDay(t, now);
    assert MatchAt(IsoDay, t, 0).Some? by {
      assert t[0..10] == t;
    }
    assert Search(IsoDay, t, 0) == Some(0);
  }

  /** Resolving a resolved date string again gives the same string back. */
  lemma ResolveIdempotent(text: string, now: Moment, later: Moment)
    requires IsValidMoment(now) && IsValidMoment(later)
    requires ParseDateFromText(text, now).Found?
    ensures ParseDateFromText(ParseDateFromText(text, now).iso, later) == ParseDateFromText(text, now)
  {
    IsoTextIsReturned(ParseDateFromText(text, now).iso, later);
  }
}

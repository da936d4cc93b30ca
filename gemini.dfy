/**
 * The deterministic parts of the AI service layer: cleaning a model reply
 * before it is parsed as JSON, reading a task duration as a number of days,
 * summing the remaining work of a roadmap, the roadmap length in days, and
 * the normalisation applied to every generated roadmap and to generated
 * interview questions. The calls to the model themselves are not modelled.
 */
module Gemini {
  import opened Types
  import opened Strings
  import opened Roadmap

  // ---------------------------------------------------------------- cleanJsonString

  /** Text starting with three backticks. */
  predicate IsFence(s: string) {
    |s| >= 3 && s[0] == '`' && s[1] == '`' && s[2] == '`'
  }

  /** Text starting with "```json". */
  predicate IsJsonFence(s: string) {
    IsFence(s) && |s| >= 7 && s[3] == 'j' && s[4] == 's' && s[5] == 'o' && s[6] == 'n'
  }

  /**
   * The global replace of `/```json\n?|```/` by the empty string: scanning
   * left to right, every "```json" (with one following newline when there is
   * one) and every other "```" is deleted.
   */
  function StripFences(s: string): (r: string)
    ensures |r| <= |s|
    decreases |s|
  {
    if IsJsonFence(s) then (if |s| >= 8 && s[7] == '\n' then StripFences(s[8..]) else StripFences(s[7..]))
    else if IsFence(s) then StripFences(s[3..])
    else if |s| == 0 then ""
    else [s[0]] + StripFences(s[1..])
  }

  /** `cleanJsonString`: strip the code fences, then trim. */
  function CleanJsonString(s: string): string {
    Trim(StripFences(s))
  }

  lemma FenceStart(s: string)
    ensures StartsWith(s, "```") <==> IsFence(s)
  {
    if |s| >= 3 {
      assert s[..3] == [s[0], s[1], s[2]];
    }
  }

  /** No fence survives the replacement, even one formed by joining the pieces around a deleted fence. */
  lemma {:induction false} StripFencesNoFence(s: string)
    ensures !Contains(StripFences(s), "```")
    decreases |s|
  {
    if IsJsonFence(s) {
      if |s| >= 8 && s[7] == '\n' {
        StripFencesNoFence(s[8..]);
      } else {
        StripFencesNoFence(s[7..]);
      }
    } else if IsFence(s) {
      StripFencesNoFence(s[3..]);
    } else if |s| > 0 {
      var t := s[1..];
      StripFencesNoFence(t);
      var r := StripFences(s);
      assert r == [s[0]] + StripFences(t);
      assert r[1..] == StripFences(t);
      if s[0] == '`' && |t| > 0 && t[0] == '`' {
        // s is no fence, so t is none either and the character after it is no backtick
        assert !IsFence(t);
        assert StripFences(t) == [t[0]] + StripFences(t[1..]);
        if |t| > 1 {
          assert !IsFence(t[1..]);
          assert StripFences(t[1..]) == [t[1]] + StripFences(t[2..]);
        }
      }
      assert !IsFence(r);
      FenceStart(r);
    }
  }

  /** Text without any backtick passes the fence stripping unchanged. */
  lemma {:induction false} StripFencesNoBacktick(s: string)
    requires '`' !in s
    ensures StripFences(s) == s
    decreases |s|
  {
    if |s| > 0 {
      assert s[0] in s;
      assert !IsFence(s);
      StripFencesNoBacktick(s[1..]);
    }
  }

  /** An occurrence inside a slice is an occurrence in the whole. */
  lemma ContainsInSlice(s: string, i: nat, j: nat, sub: string)
    requires i <= j <= |s| && Contains(s[i..j], sub)
    ensures Contains(s, sub)
  {
    var k := ContainsWhere(s[i..j], sub);
    forall t | 0 <= t < |sub| ensures s[i + k + t] == sub[t] {
      assert s[i..j][k..k + |sub|][t] == sub[t];
    }
    assert s[i + k..i + k + |sub|] == sub;
    ContainsAt(s, sub, i + k);
  }

  /** What does not occur in a string does not occur in any of its slices. */
  lemma AbsentInSlice(s: string, i: nat, t: string, sub: string)
    requires i + |t| <= |s| && t == s[i..i + |t|] && !Contains(s, sub)
    ensures !Contains(t, sub)
  {
    if Contains(t, sub) {
      ContainsInSlice(s, i, i + |t|, sub);
    }
  }

  /**
   * The cleaned reply contains no fence, neither starts nor ends with white
   * space, and is a contiguous slice of the fence-free text; on a reply
   * without backticks cleaning is plain trimming.
   */
  lemma CleanJsonStringSpec(s: string)
    ensures !Contains(CleanJsonString(s), "```")
    ensures var r := CleanJsonString(s); |r| > 0 ==> !IsSpace(r[0]) && !IsSpace(r[|r| - 1])
    ensures '`' !in s ==> CleanJsonString(s) == Trim(s)
  {
    CleanJsonNoFence(s);
    var _ := TrimIsFramedSlice(StripFences(s));
    if '`' !in s {
      StripFencesNoBacktick(s);
    }
  }

  lemma CleanJsonNoFence(s: string)
    ensures !Contains(Trim(StripFences(s)), "```")
  {
    var stripped := StripFences(s);
    StripFencesNoFence(s);
    var i := TrimIsSlice(stripped);
    AbsentInSlice(stripped, i, Trim(stripped), "```");
  }

  /** Text before the first backtick is copied as it is. */
  lemma {:induction false} StripFencesPlainPrefix(a: string, b: string)
    requires '`' !in a
    ensures StripFences(a + b) == a + StripFences(b)
    decreases |a|
  {
    if |a| > 0 {
      assert (a + b)[0] == a[0] && a[0] in a;
      assert !IsFence(a + b);
      assert (a + b)[1..] == a[1..] + b;
      StripFencesPlainPrefix(a[1..], b);
    } else {
      assert a + b == b;
    }
  }

  /** A reply wrapped in a json code fence, with no backtick inside, cleans to its trimmed body. */
  lemma CleanJsonFenced(body: string)
    requires '`' !in body
    ensures CleanJsonString("```json\n" + body + "```") == Trim(body)
    ensures CleanJsonString("```json" + body + "```") == Trim(body)
    ensures CleanJsonString(body) == Trim(body)
  {
    StripFencesNoBacktick(body);
    FencedBody("```json\n", body);
    if |body| > 0 && body[0] == '\n' {
      var rest := body[1..];
      assert "```json" + body + "```" == "```json\n" + rest + "```";
      assert rest[0..] == rest && forall k :: 0 <= k < |rest| ==> rest[k] in body;
      FencedBody("```json\n", rest);
      assert TrimStart(body) == TrimStart(rest);
    } else {
      FencedBody("```json", body);
    }
  }

  /** Stripping a fenced body leaves the body. */
  lemma FencedBody(open: string, body: string)
    requires open == "```json\n" || (open == "```json" && (|body| == 0 || body[0] != '\n'))
    requires '`' !in body
    ensures StripFences(open + body + "```") == body
  {
    var s := open + body + "```";
    assert forall k :: 0 <= k < |open| ==> s[k] == open[k];
    assert IsJsonFence(s);
    if open == "```json" {
      assert s[7] != '\n';
    }
    assert s[|open|..] == body + "```";
    StripFencesPlainPrefix(body, "```");
    assert StripFences("```") == StripFences("");
    assert body + "" == body;
  }

  lemma CleanJsonStringExample()
    ensures CleanJsonString("```json\n[1]\n```") == "[1]"
  {
    var body := "[1]\n";
    assert "```json\n[1]\n```" == "```json\n" + body + "```";
    ExampleBody();
    CleanJsonFenced(body);
  }

  lemma ExampleBody()
    ensures '`' !in "[1]\n" && Trim("[1]\n") == "[1]"
  {
    ExampleTrimStart();
    ExampleTrimEnd();
  }

  lemma ExampleTrimStart()
    ensures '`' !in "[1]\n" && TrimStart("[1]\n") == "[1]\n"
  {
  }

  lemma ExampleTrimEnd()
    ensures TrimEnd("[1]\n") == "[1]"
  {
    assert "[1]\n"[..3] == "[1]";
    assert TrimEnd("[1]") == "[1]";
  }

  // ---------------------------------------------------------------- parseDurationInDays

  /**
   * `parseDurationInDays`: the leading integer of the lower-cased text (1 when
   * there is none or it is 0), times 7 when the text mentions "week", else
   * times 30 when it mentions "month".
   */
  function ParseDurationInDays(duration: string): (days: int)
    ensures days != 0
  {
    var str := Lower(duration);
    var num := match ParseInt(str) case None => 1 case Some(n) => if n == 0 then 1 else n;
    if Contains(str, "week") then num * 7
    else if Contains(str, "month") then num * 30
    else num
  }

  predicate NoUpper(s: string) {
    forall i :: 0 <= i < |s| ==> !('A' <= s[i] <= 'Z')
  }

  lemma LowerNoUpper(s: string)
    requires NoUpper(s)
    ensures Lower(s) == s
  {
  }

  /** The unit words are case-insensitive: the parser reads a text and its lower-cased form alike. */
  lemma ParseDurationIgnoresCase(duration: string)
    ensures ParseDurationInDays(Lower(duration)) == ParseDurationInDays(duration)
  {
    LowerIdempotent(duration);
  }

  /** A word whose first letter is neither a digit nor in the unit text does not occur in the duration text. */
  lemma WordNotInCount(n: nat, unit: string, word: string)
    requires |word| > 0 && !IsDigit(word[0]) && word[0] !in unit
    ensures !Contains(Decimal(n) + unit, word)
  {
    if Contains(Decimal(n) + unit, word) {
      ContainsFirstChar(Decimal(n) + unit, word);
    }
  }

  /** The count a duration text multiplies: 1 for a missing or zero count. */
  function Count(n: int): int {
    if n == 0 then 1 else n
  }

  /** How a lower-case duration text with a leading number is read. */
  lemma ReadDuration(d: string, n: int)
    requires Lower(d) == d && ParseInt(d) == Some(n)
    ensures ParseDurationInDays(d)
      == if Contains(d, "week") then 7 * Count(n) else if Contains(d, "month") then 30 * Count(n) else Count(n)
  {
  }

  /** A unit text as the generator writes it: a space, then lower-case text. */
  predicate UnitText(unit: string) {
    |unit| > 0 && unit[0] == ' ' && NoUpper(unit)
  }

  /** An occurrence in the unit text is an occurrence in the whole duration text. */
  lemma ContainsUnit(n: nat, unit: string, word: string)
    requires Contains(unit, word)
    ensures Contains(Decimal(n) + unit, word)
  {
    var d := Decimal(n) + unit;
    assert d[|Decimal(n)|..|d|] == unit;
    ContainsInSlice(d, |Decimal(n)|, |d|, word);
  }

  lemma DurationInWeeks(n: nat, unit: string)
    requires UnitText(unit) && Contains(unit, "week")
    ensures ParseDurationInDays(Decimal(n) + unit) == 7 * Count(n)
  {
    ParseIntDecimal(n, unit);
    LowerNoUpper(Decimal(n) + unit);
    ContainsUnit(n, unit, "week");
    ReadDuration(Decimal(n) + unit, n);
  }

  lemma DurationInMonths(n: nat, unit: string)
    requires UnitText(unit) && !Contains(unit, "week") && Contains(unit, "month")
    ensures ParseDurationInDays(Decimal(n) + unit) == 30 * Count(n)
  {
    ParseIntDecimal(n, unit);
    LowerNoUpper(Decimal(n) + unit);
    assert !Contains(Decimal(n) + unit, "week") by {
      if Contains(Decimal(n) + unit, "week") {
        ContainsSplit(Decimal(n), unit, "week");
      }
    }
    ContainsUnit(n, unit, "month");
    ReadDuration(Decimal(n) + unit, n);
  }

  lemma DurationInDays(n: nat, unit: string)
    requires UnitText(unit) && !Contains(unit, "week") && !Contains(unit, "month")
    ensures ParseDurationInDays(Decimal(n) + unit) == Count(n)
  {
    ParseIntDecimal(n, unit);
    LowerNoUpper(Decimal(n) + unit);
    assert !Contains(Decimal(n) + unit, "week") by {
      if Contains(Decimal(n) + unit, "week") {
        ContainsSplit(Decimal(n), unit, "week");
      }
    }
    assert !Contains(Decimal(n) + unit, "month") by {
      if Contains(Decimal(n) + unit, "month") {
        ContainsSplit(Decimal(n), unit, "month");
      }
    }
    ReadDuration(Decimal(n) + unit, n);
  }

  /**
   * A count followed by a unit text is read as the count times the unit:
   * 7 days when the unit mentions "week", else 30 when it mentions "month",
   * else 1 (a zero count reads as 1).
   */
  lemma ParseDurationWithUnit(n: nat, unit: string)
    requires UnitText(unit)
    ensures ParseDurationInDays(Decimal(n) + unit)
      == Count(n) * (if Contains(unit, "week") then 7 else if Contains(unit, "month") then 30 else 1)
  {
    if Contains(unit, "week") {
      DurationInWeeks(n, unit);
    } else if Contains(unit, "month") {
      DurationInMonths(n, unit);
    } else {
      DurationInDays(n, unit);
    }
  }

  /**
   * A lower-case word that starts with a letter and occurs in a count
   * followed by a unit text occurs in the unit text itself.
   */
  lemma ContainsSplit(digits: string, unit: string, word: string)
    requires forall i :: 0 <= i < |digits| ==> IsDigit(digits[i])
    requires |word| > 0 && !IsDigit(word[0]) && word[0] != ' '
    requires |unit| > 0 && unit[0] == ' '
    requires Contains(digits + unit, word)
    ensures Contains(unit, word)
  {
    var s := digits + unit;
    var k := ContainsWhere(s, word);
    assert s[k] == word[0];
    assert k > |digits|;
    assert s[k..k + |word|] == unit[k - |digits|..k - |digits| + |word|];
    ContainsAt(unit, word, k - |digits|);
  }

  /** "n day(s)" is n days, "n week(s)" 7n and "n month(s)" 30n (a zero count reads as 1). */
  lemma ParseDurationUnits(n: nat)
    ensures ParseDurationInDays(Decimal(n) + " day") == Count(n)
    ensures ParseDurationInDays(Decimal(n) + " days") == Count(n)
    ensures ParseDurationInDays(Decimal(n) + " week") == 7 * Count(n)
    ensures ParseDurationInDays(Decimal(n) + " weeks") == 7 * Count(n)
    ensures ParseDurationInDays(Decimal(n) + " months") == 30 * Count(n)
  {
    DayWord(" day");
    DayWord(" days");
    WeekWord(" week");
    WeekWord(" weeks");
    MonthWord(" months");
    DurationInDays(n, " day");
    DurationInDays(n, " days");
    DurationInWeeks(n, " week");
    DurationInWeeks(n, " weeks");
    DurationInMonths(n, " months");
  }

  lemma NoWord(s: string, word: string)
    requires |word| > 0 && word[0] !in s
    ensures !Contains(s, word)
  {
    if Contains(s, word) {
      ContainsFirstChar(s, word);
    }
  }

  lemma DayWord(unit: string)
    requires unit == " day" || unit == " days"
    ensures UnitText(unit) && !Contains(unit, "week") && !Contains(unit, "month")
  {
    NoWord(unit, "week");
    NoWord(unit, "month");
  }

  lemma WeekWord(unit: string)
    requires unit == " week" || unit == " weeks"
    ensures UnitText(unit) && Contains(unit, "week")
  {
    assert unit[1..5] == "week";
    ContainsAt(unit, "week", 1);
  }

  lemma MonthWord(unit: string)
    requires unit == " months"
    ensures UnitText(unit) && !Contains(unit, "week") && Contains(unit, "month")
  {
    NoWord(unit, "week");
    assert unit[1..6] == "month";
    ContainsAt(unit, "month", 1);
  }

  /** A duration without any leading number counts one unit. */
  lemma ParseDurationNoNumber(duration: string)
    requires |duration| > 0 && !IsSpace(duration[0]) && !IsDigit(duration[0])
    requires duration[0] != '-' && duration[0] != '+'
    ensures ParseDurationInDays(duration) in {1, 7, 30}
  {
    var str := Lower(duration);
    assert str[0] == LowerChar(duration[0]);
    ParseIntNoDigit(str);
  }

  // ---------------------------------------------------------------- calculateRemainingDays

  /** Days of work left: the parsed duration of every item that is not completed. */
  function PendingWork(flat: seq<RoadmapItem>): int {
    if |flat| == 0 then 0
    else (if flat[0].status != Completed then ParseDurationInDays(flat[0].duration) else 0) + PendingWork(flat[1..])
  }

  lemma {:induction false} PendingWorkAppend(a: seq<RoadmapItem>, b: seq<RoadmapItem>)
    ensures PendingWork(a + b) == PendingWork(a) + PendingWork(b)
    decreases |a|
  {
    if |a| == 0 {
      assert a + b == b;
    } else {
      assert (a + b)[1..] == a[1..] + b;
      PendingWorkAppend(a[1..], b);
    }
  }

  /** Nothing is left when every item is completed (in particular for an empty roadmap). */
  lemma {:induction false} PendingWorkAllCompleted(flat: seq<RoadmapItem>)
    requires forall i :: 0 <= i < |flat| ==> flat[i].status == Completed
    ensures PendingWork(flat) == 0
    decreases |flat|
  {
    if |flat| > 0 {
      PendingWorkAllCompleted(flat[1..]);
    }
  }

  /** Durations only count while pending: one more completed item lowers the sum by its duration. */
  lemma PendingWorkComplete(a: seq<RoadmapItem>, item: RoadmapItem, b: seq<RoadmapItem>)
    requires item.status == Pending
    ensures PendingWork(a + [item.(status := Completed)] + b)
      == PendingWork(a + [item] + b) - ParseDurationInDays(item.duration)
  {
    PendingWorkAppend(a + [item.(status := Completed)], b);
    PendingWorkAppend(a, [item.(status := Completed)]);
    PendingWorkAppend(a + [item], b);
    PendingWorkAppend(a, [item]);
  }

  lemma FlattenSnoc(phases: seq<Phase>, p: nat)
    requires p < |phases|
    ensures Flatten(phases[..p + 1]) == Flatten(phases[..p]) + phases[p].items
  {
    assert phases[..p + 1] == phases[..p] + [phases[p]];
    FlattenAppend(phases[..p], [phases[p]]);
    assert Flatten([phases[p]]) == phases[p].items + Flatten([]);
  }

  /** One more item adds its duration while it is not completed. */
  lemma PendingWorkSnoc(items: seq<RoadmapItem>, i: nat)
    requires i < |items|
    ensures PendingWork(items[..i + 1])
      == PendingWork(items[..i]) + if items[i].status != Completed then ParseDurationInDays(items[i].duration) else 0
  {
    assert items[..i + 1] == items[..i] + [items[i]];
    PendingWorkAppend(items[..i], [items[i]]);
    assert [items[i]][1..] == [];
  }

  /** One more phase adds the work of its items. */
  lemma PendingWorkPhaseSnoc(roadmap: seq<Phase>, p: nat)
    requires p < |roadmap|
    ensures PendingWork(Flatten(roadmap[..p + 1])) == PendingWork(Flatten(roadmap[..p])) + PendingWork(roadmap[p].items)
  {
    FlattenSnoc(roadmap, p);
    PendingWorkAppend(Flatten(roadmap[..p]), roadmap[p].items);
  }

  /** `calculateRemainingDays`: the nested loops over phases and items. */
  method CalculateRemainingDays(roadmap: seq<Phase>) returns (totalDays: int)
    ensures totalDays == PendingWork(Flatten(roadmap))
  {
    totalDays := 0;
    var p := 0;
    while p < |roadmap|
      invariant 0 <= p <= |roadmap|
      invariant totalDays == PendingWork(Flatten(roadmap[..p]))
    {
      var items := roadmap[p].items;
      var i := 0;
      while i < |items|
        invariant 0 <= i <= |items|
        invariant totalDays == PendingWork(Flatten(roadmap[..p])) + PendingWork(items[..i])
      {
        PendingWorkSnoc(items, i);
        if items[i].status != Completed {
          totalDays := totalDays + ParseDurationInDays(items[i].duration);
        }
        i := i + 1;
      }
      assert items[..i] == items;
      PendingWorkPhaseSnoc(roadmap, p);
      p := p + 1;
    }
    assert roadmap[..p] == roadmap;
  }

  // ---------------------------------------------------------------- roadmap length

  /** A calendar date as the three numbers of "year-month-day" (month counted from 1). */
  datatype Ymd = Ymd(year: int, month: int, day: int)

  /** The numbers of the first three parts of a date split at '-', or `None` when one of them is NaN. */
  function DateNumbers(parts: seq<string>): Option<Ymd>
    requires |parts| >= 3
  {
    var y, m, d := ParseInt(parts[0]), ParseInt(parts[1]), ParseInt(parts[2]);
    if y.Some? && m.Some? && d.Some? then Some(Ymd(y.value, m.value, d.value)) else None
  }

  /**
   * The day number of the target date. `civilDay(year, monthIndex, day)` is
   * the calendar's day number of a date, months counted from 0 as the Date
   * constructor takes them.
   */
  function EndDay(civilDay: (int, int, int) -> int, date: Ymd): int {
    civilDay(date.year, date.month - 1, date.day)
  }

  /** `Math.max(1, diff + 1)`: the days from today to the target, both included, at least one. */
  function InclusiveDays(diff: int): (n: int)
    ensures n >= 1
    ensures diff >= 0 ==> n == diff + 1
    ensures diff < 0 ==> n == 1
  {
    if diff + 1 < 1 then 1 else diff + 1
  }

  /**
   * `totalDays` of `generateRoadmap`: 30 without a target date or when the
   * date does not split into three parts at '-'; otherwise the inclusive
   * day count from today (at least 1). `None` is NaN: a part that does not
   * parse as a number.
   */
  function TotalDays(targetDate: string, today: int, civilDay: (int, int, int) -> int): (r: Option<int>)
    ensures targetDate == "" ==> r == Some(30)
    ensures |Split(targetDate, '-')| != 3 ==> r == Some(30)
    ensures r.Some? ==> r.value >= 1
  {
    if targetDate == "" then Some(30) else DaysOfParts(Split(targetDate, '-'), today, civilDay)
  }

  /** The day count of a target date already split at '-'. */
  function DaysOfParts(parts: seq<string>, today: int, civilDay: (int, int, int) -> int): (r: Option<int>)
    ensures |parts| != 3 ==> r == Some(30)
    ensures r.Some? ==> r.value >= 1
  {
    if |parts| != 3 then Some(30)
    else
      match DateNumbers(parts)
      case None => None
      case Some(date) => Some(InclusiveDays(EndDay(civilDay, date) - today))
  }

  /** For an ISO date "y-m-d" the length is the inclusive day count up to that date, at least one day. */
  lemma TotalDaysOfIsoDate(y: nat, m: nat, d: nat, today: int, civilDay: (int, int, int) -> int)
    ensures TotalDays(Decimal(y) + "-" + Decimal(m) + "-" + Decimal(d), today, civilDay)
      == Some(InclusiveDays(EndDay(civilDay, Ymd(y, m, d)) - today))
  {
    var iso := Decimal(y) + "-" + Decimal(m) + "-" + Decimal(d);
    IsoDateSplit(y, m, d);
    DateNumbersOfDecimals(y, m, d);
    TotalDaysOfParts(iso, today, civilDay, Ymd(y, m, d));
  }

  lemma DateNumbersOfDecimals(y: nat, m: nat, d: nat)
    ensures DateNumbers([Decimal(y), Decimal(m), Decimal(d)]) == Some(Ymd(y, m, d))
  {
    ParseIntOfDecimal(y);
    ParseIntOfDecimal(m);
    ParseIntOfDecimal(d);
  }

  lemma TotalDaysOfParts(targetDate: string, today: int, civilDay: (int, int, int) -> int, date: Ymd)
    requires |Split(targetDate, '-')| == 3 && DateNumbers(Split(targetDate, '-')) == Some(date)
    ensures TotalDays(targetDate, today, civilDay) == Some(InclusiveDays(EndDay(civilDay, date) - today))
  {
    SplitOfEmpty('-');
    assert targetDate != "";
    var parts := Split(targetDate, '-');
    assert TotalDays(targetDate, today, civilDay) == DaysOfParts(parts, today, civilDay);
    DaysOfDateParts(parts, today, civilDay, date);
  }

  lemma DaysOfDateParts(parts: seq<string>, today: int, civilDay: (int, int, int) -> int, date: Ymd)
    requires |parts| == 3 && DateNumbers(parts) == Some(date)
    ensures DaysOfParts(parts, today, civilDay) == Some(InclusiveDays(EndDay(civilDay, date) - today))
  {
  }

  lemma IsoDateSplit(y: nat, m: nat, d: nat)
    ensures Split(Decimal(y) + "-" + Decimal(m) + "-" + Decimal(d), '-') == [Decimal(y), Decimal(m), Decimal(d)]
  {
    var ys, ms, ds := Decimal(y), Decimal(m), Decimal(d);
    DecimalNoDash(y);
    DecimalNoDash(m);
    DecimalNoDash(d);
    JoinDashes(ys, ms, ds);
    SplitJoin(ys, '-', ms + ['-'] + ds);
    SplitJoin(ms, '-', ds);
    SplitNoSeparator(ds, '-');
  }

  lemma JoinDashes(a: string, b: string, c: string)
    ensures a + "-" + b + "-" + c == a + ['-'] + (b + ['-'] + c)
  {
  }

  /** `isLongTerm`: a roadmap longer than 60 days (NaN compares false). */
  predicate IsLongTerm(totalDays: Option<int>) {
    totalDays.Some? && totalDays.value > 60
  }

  /** The duration given to a task that has none: a week on a long roadmap, a day otherwise. */
  function DefaultDuration(totalDays: Option<int>): string {
    if IsLongTerm(totalDays) then "1 week" else "1 day"
  }

  /** The default duration reads back as 7 days on a long roadmap and 1 day otherwise. */
  lemma DefaultDurationDays(totalDays: Option<int>)
    ensures ParseDurationInDays(DefaultDuration(totalDays)) == if IsLongTerm(totalDays) then 7 else 1
  {
    assert Decimal(1) == "1";
    if IsLongTerm(totalDays) {
      assert DefaultDuration(totalDays) == Decimal(1) + " week";
      WeekWord(" week");
      DurationInWeeks(1, " week");
    } else {
      assert DefaultDuration(totalDays) == Decimal(1) + " day";
      DayWord(" day");
      DurationInDays(1, " day");
    }
  }

  // ---------------------------------------------------------------- roadmap post-processing

  /** A task as the generator returns it; `None` stands for a missing (or, for resources, non-array) field. */
  datatype RawItem = RawItem(
    title: string,
    description: string,
    explanation: string,
    kind: ItemKind,
    duration: Option<string>,
    suggestedResources: Option<seq<Resource>>)

  datatype RawPhase = RawPhase(phaseName: string, items: Option<seq<RawItem>>)

  /** `phase.items || []`. */
  function ItemsOf(phase: RawPhase): seq<RawItem> {
    phase.items.GetOr([])
  }

  /** Number of generated items in the phases before phase `p`. */
  function RawOffset(data: seq<RawPhase>, p: nat): nat
    requires p <= |data|
  {
    if p == 0 then 0 else RawOffset(data, p - 1) + |ItemsOf(data[p - 1])|
  }

  /** A task id `task-<generation>-<phase index>-<counter>`. */
  function TaskId(generationId: string, pIdx: nat, counter: nat): string {
    "task-" + generationId + "-" + Decimal(pIdx) + "-" + Decimal(counter)
  }

  /** Two task ids of one generation are equal only for equal phase index and counter. */
  lemma TaskIdInjective(gen: string, p: nat, n: nat, p': nat, n': nat)
    requires TaskId(gen, p, n) == TaskId(gen, p', n')
    ensures p == p' && n == n'
  {
    var prefix := "task-" + gen + "-";
    var a, b := Decimal(p) + ['-'] + Decimal(n), Decimal(p') + ['-'] + Decimal(n');
    TaskIdShape(gen, Decimal(p), Decimal(n));
    TaskIdShape(gen, Decimal(p'), Decimal(n'));
    assert prefix + a == prefix + b;
    DropCommonPrefix(prefix, a, b);
    var sa := DashPair(p, n);
    var sb := DashPair(p', n');
    assert Decimal(p) == Split(a, '-')[0] == Split(b, '-')[0] == Decimal(p');
    assert Decimal(n) == Split(a, '-')[1] == Split(b, '-')[1] == Decimal(n');
    DecimalInjective(p, p');
    DecimalInjective(n, n');
  }

  /** Two decimals joined by a dash split back into the two. */
  lemma DashPair(p: nat, n: nat) returns (parts: seq<string>)
    ensures parts == Split(Decimal(p) + ['-'] + Decimal(n), '-') == [Decimal(p), Decimal(n)]
  {
    DecimalNoDash(p);
    DecimalNoDash(n);
    SplitJoin(Decimal(p), '-', Decimal(n));
    SplitNoSeparator(Decimal(n), '-');
    parts := [Decimal(p), Decimal(n)];
  }

  lemma TaskIdShape(gen: string, a: string, b: string)
    ensures "task-" + gen + "-" + a + "-" + b == ("task-" + gen + "-") + (a + ['-'] + b)
  {
  }

  lemma DropCommonPrefix(prefix: string, a: string, b: string)
    requires prefix + a == prefix + b
    ensures a == b
  {
    assert a == (prefix + a)[|prefix|..];
    assert b == (prefix + b)[|prefix|..];
  }

  /** One generated task after normalisation. */
  function NormalizeItem(raw: RawItem, id: string, totalDays: Option<int>): RoadmapItem {
    RoadmapItem(
      id, raw.title, raw.description, raw.explanation, raw.kind, Pending,
      if raw.duration.Some? && raw.duration.value != "" then raw.duration.value else DefaultDuration(totalDays),
      raw.suggestedResources.GetOr([]),
      None)
  }

  /** What phase `p` gets: its generated items, normalised, numbered on from the tasks before it. */
  function PhaseItems(data: seq<RawPhase>, generationId: string, totalDays: Option<int>, p: nat): (items: seq<RoadmapItem>)
    requires p < |data|
    ensures |items| == |ItemsOf(data[p])|
  {
    var raw := ItemsOf(data[p]);
    seq(|raw|, k requires 0 <= k < |raw| =>
      NormalizeItem(raw[k], TaskId(generationId, p, RawOffset(data, p) + k + 1), totalDays))
  }

  lemma PhaseItemsSnoc(data: seq<RawPhase>, generationId: string, totalDays: Option<int>, p: nat, k: nat)
    requires p < |data| && k < |ItemsOf(data[p])|
    ensures var items := PhaseItems(data, generationId, totalDays, p);
      items[..k + 1] == items[..k]
        + [NormalizeItem(ItemsOf(data[p])[k], TaskId(generationId, p, RawOffset(data, p) + k + 1), totalDays)]
  {
    TakeSnoc(PhaseItems(data, generationId, totalDays, p), k);
  }

  lemma TakeSnoc<T>(s: seq<T>, k: nat)
    requires k < |s|
    ensures s[..k + 1] == s[..k] + [s[k]]
  {
  }

  /** The roadmap `generateRoadmap` returns for the parsed reply `data`. */
  function PostProcessed(data: seq<RawPhase>, generationId: string, totalDays: Option<int>): (phases: seq<Phase>)
    ensures |phases| == |data|
  {
    seq(|data|, p requires 0 <= p < |data| => Phase(data[p].phaseName, PhaseItems(data, generationId, totalDays, p)))
  }

  /** The post-processing of `generateRoadmap`: nested maps sharing one task counter that starts at 1. */
  method PostProcess(data: seq<RawPhase>, generationId: string, totalDays: Option<int>) returns (phases: seq<Phase>)
    ensures phases == PostProcessed(data, generationId, totalDays)
  {
    var taskIdCounter := 1;
    phases := [];
    var pIdx := 0;
    while pIdx < |data|
      invariant 0 <= pIdx <= |data|
      invariant taskIdCounter == RawOffset(data, pIdx) + 1
      invariant phases == PostProcessed(data, generationId, totalDays)[..pIdx]
    {
      var raw := ItemsOf(data[pIdx]);
      var items: seq<RoadmapItem> := [];
      var k := 0;
      while k < |raw|
        invariant 0 <= k <= |raw|
        invariant taskIdCounter == RawOffset(data, pIdx) + k + 1
        invariant items == PhaseItems(data, generationId, totalDays, pIdx)[..k]
      {
        PhaseItemsSnoc(data, generationId, totalDays, pIdx, k);
        items := items + [NormalizeItem(raw[k], TaskId(generationId, pIdx, taskIdCounter), totalDays)];
        taskIdCounter := taskIdCounter + 1;
        k := k + 1;
      }
      assert items == PhaseItems(data, generationId, totalDays, pIdx);
      phases := phases + [Phase(data[pIdx].phaseName, items)];
      pIdx := pIdx + 1;
    }
    assert phases == PostProcessed(data, generationId, totalDays)[..|data|];
  }

  /** The output has the phases and per-phase item counts of the reply, in the same order, with the same names. */
  lemma PostProcessedShape(data: seq<RawPhase>, gen: string, totalDays: Option<int>)
    ensures var out := PostProcessed(data, gen, totalDays);
      forall p :: 0 <= p < |data| ==>
        out[p].phaseName == data[p].phaseName && |out[p].items| == |ItemsOf(data[p])|
        && forall k :: 0 <= k < |out[p].items| ==> out[p].items[k].title == ItemsOf(data[p])[k].title
  {
  }

  lemma OffsetMatchesRaw(data: seq<RawPhase>, gen: string, totalDays: Option<int>, p: nat)
    requires p <= |data|
    ensures Offset(PostProcessed(data, gen, totalDays), p) == RawOffset(data, p)
  {
    var out := PostProcessed(data, gen, totalDays);
    if p > 0 {
      OffsetMatchesRaw(data, gen, totalDays, p - 1);
      OffsetStep(out, p - 1);
    }
  }

  /**
   * Every generated task is pending, has a non-empty duration, keeps a
   * non-empty generated duration, and the item at flattened position i
   * carries counter i + 1; hence all task ids are pairwise distinct,
   * whatever ids the generator supplied.
   */
  lemma PostProcessedTasks(data: seq<RawPhase>, gen: string, totalDays: Option<int>)
    ensures var flat := Flatten(PostProcessed(data, gen, totalDays));
      && (forall i :: 0 <= i < |flat| ==> flat[i].status == Pending && flat[i].duration != "" && flat[i].completedAt.None?)
      && DistinctIds(flat)
  {
    var flat := Flatten(PostProcessed(data, gen, totalDays));
    forall i | 0 <= i < |flat|
      ensures flat[i].status == Pending && flat[i].duration != "" && flat[i].completedAt.None?
    {
      var _ := PostProcessedAt(data, gen, totalDays, i);
    }
    forall i, j | 0 <= i < j < |flat| ensures flat[i].id != flat[j].id {
      var p := PostProcessedAt(data, gen, totalDays, i);
      var q := PostProcessedAt(data, gen, totalDays, j);
      if flat[i].id == flat[j].id {
        TaskIdInjective(gen, p, i + 1, q, j + 1);
      }
    }
  }

  /** The item at flattened position i is pending, has a duration, and carries counter i + 1 in its id. */
  lemma PostProcessedAt(data: seq<RawPhase>, gen: string, totalDays: Option<int>, i: nat) returns (p: nat)
    requires i < |Flatten(PostProcessed(data, gen, totalDays))|
    ensures var item := Flatten(PostProcessed(data, gen, totalDays))[i];
      && item.id == TaskId(gen, p, i + 1)
      && item.status == Pending && item.duration != "" && item.completedAt.None?
  {
    var out := PostProcessed(data, gen, totalDays);
    var k;
    p, k := FlattenLocate(out, i);
    OffsetMatchesRaw(data, gen, totalDays, p);
  }

  /** A non-empty generated duration is kept; a missing or empty one becomes the default for the roadmap length. */
  lemma PostProcessedDurations(data: seq<RawPhase>, gen: string, totalDays: Option<int>, p: nat, k: nat)
    requires p < |data| && k < |ItemsOf(data[p])|
    ensures var item := PostProcessed(data, gen, totalDays)[p].items[k];
      var raw := ItemsOf(data[p])[k];
      && (raw.duration.Some? && raw.duration.value != "" ==> item.duration == raw.duration.value)
      && (raw.duration.None? || raw.duration.value == "" ==>
            ParseDurationInDays(item.duration) == if IsLongTerm(totalDays) then 7 else 1)
      && (raw.suggestedResources.None? ==> item.suggestedResources == [])
  {
    var raw := ItemsOf(data[p])[k];
    var id := TaskId(gen, p, RawOffset(data, p) + k + 1);
    assert PostProcessed(data, gen, totalDays)[p].items[k] == NormalizeItem(raw, id, totalDays);
    NormalizedDuration(raw, id, totalDays);
  }

  lemma NormalizedDuration(raw: RawItem, id: string, totalDays: Option<int>)
    ensures var item := NormalizeItem(raw, id, totalDays);
      && (raw.duration.Some? && raw.duration.value != "" ==> item.duration == raw.duration.value)
      && (raw.duration.None? || raw.duration.value == "" ==>
            ParseDurationInDays(item.duration) == if IsLongTerm(totalDays) then 7 else 1)
      && (raw.suggestedResources.None? ==> item.suggestedResources == [])
  {
    DefaultDurationDays(totalDays);
  }

  // ---------------------------------------------------------------- interview questions

  /** An interview question as generated; an empty string stands for a missing (falsy) field. */
  datatype RawInterview = RawInterview(id: string, question: string, answer: string, explanation: string, company: string)

  /**
   * The mapping after `generateCompanyInterviewQuestions`: default the id to
   * `iq-<ts>-<idx>` and the company to the filter. The source reads the clock
   * once per element; `ts` is a single reading used for every element.
   */
  function InterviewDefaults(results: seq<RawInterview>, filter: string, ts: nat): (qs: seq<InterviewQuestion>)
    ensures |qs| == |results|
  {
    seq(|results|, idx requires 0 <= idx < |results| =>
      var r := results[idx];
      InterviewQuestion(
        if r.id != "" then r.id else "iq-" + Decimal(ts) + "-" + Decimal(idx),
        r.question, r.answer, r.explanation,
        if r.company != "" then r.company else filter))
  }

  /**
   * Order and content are kept; a present id and company are kept; every
   * id is non-empty; the ids given by default are pairwise distinct; with a
   * non-empty filter every company is non-empty.
   */
  lemma InterviewDefaultsSpec(results: seq<RawInterview>, filter: string, ts: nat)
    ensures var qs := InterviewDefaults(results, filter, ts);
      && (forall i :: 0 <= i < |qs| ==>
            && qs[i].question == results[i].question && qs[i].id != ""
            && (results[i].id != "" ==> qs[i].id == results[i].id)
            && (results[i].company != "" ==> qs[i].company == results[i].company)
            && (filter != "" ==> qs[i].company != ""))
      && (forall i, j :: 0 <= i < j < |qs| && results[i].id == "" && results[j].id == "" ==> qs[i].id != qs[j].id)
  {
    var qs := InterviewDefaults(results, filter, ts);
    forall i, j | 0 <= i < j < |qs| && results[i].id == "" && results[j].id == ""
      ensures qs[i].id != qs[j].id
    {
      if qs[i].id == qs[j].id {
        var pre := "iq-" + Decimal(ts) + "-";
        assert qs[i].id == pre + Decimal(i) && qs[j].id == pre + Decimal(j);
        assert Decimal(i) == (pre + Decimal(i))[|pre|..];
        assert Decimal(j) == (pre + Decimal(j))[|pre|..];
        DecimalInjective(i, j);
      }
    }
  }
}

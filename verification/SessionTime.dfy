/**
 Session time over a window, and the daily usage rows written from it. Seconds are whole;
 the real query adds fractions of a Julian day.
 */
module SessionTime {
  import opened Util

  const DAY: int := 86400

  datatype Span = Span(started: int, ended: Option<int>)

  function Min(a: int, b: int): int {
    if a < b then a else b
  }

  function Max(a: int, b: int): int {
    if a < b then b else a
  }

  function End(s: Span, now: int): int {
    if s.ended.Some? then s.ended.value else now
  }

  /** The summand of the query. */
  function Overlap(s: Span, now: int, start: int, end: int): int {
    Max(0, Min(End(s, now), end) - Max(s.started, start))
  }

  /** The row filter of the query. */
  predicate Selected(s: Span, now: int, start: int, end: int) {
    s.started < end && End(s, now) > start
  }

  /** SUM over the selected rows. */
  function Time(spans: seq<Span>, now: int, start: int, end: int): int {
    if spans == [] then 0
    else (if Selected(spans[0], now, start, end) then Overlap(spans[0], now, start, end) else 0) + Time(spans[1..], now, start, end)
  }

  // The definition second by second

  predicate Running(s: Span, now: int, x: int) {
    s.started <= x < End(s, now)
  }

  /** How many seconds of the window the session runs. */
  function Seconds(s: Span, now: int, start: int, end: int): nat
    decreases end - start
  {
    if end <= start then 0 else Seconds(s, now, start, end - 1) + if Running(s, now, end - 1) then 1 else 0
  }

  function AllSeconds(spans: seq<Span>, now: int, start: int, end: int): nat {
    if spans == [] then 0 else Seconds(spans[0], now, start, end) + AllSeconds(spans[1..], now, start, end)
  }

  lemma {:induction false} OverlapCounts(s: Span, now: int, start: int, end: int)
    requires start <= end
    ensures Overlap(s, now, start, end) == Seconds(s, now, start, end)
    decreases end - start
  {
    if start < end {
      OverlapCounts(s, now, start, end - 1);
    }
  }

  /** The sum is the number of session seconds in the window: the filter loses none of them. */
  lemma {:induction false} TimeCounts(spans: seq<Span>, now: int, start: int, end: int)
    requires start <= end
    ensures Time(spans, now, start, end) == AllSeconds(spans, now, start, end)
  {
    if spans != [] {
      OverlapCounts(spans[0], now, start, end);
      TimeCounts(spans[1..], now, start, end);
    }
  }

  /** Consecutive windows add up to their union. */
  lemma {:induction false} TimeAdds(spans: seq<Span>, now: int, a: int, b: int, c: int)
    requires a <= b <= c
    ensures Time(spans, now, a, b) + Time(spans, now, b, c) == Time(spans, now, a, c)
  {
    if spans != [] {
      TimeAdds(spans[1..], now, a, b, c);
    }
  }

  // Whole days

  function Days(spans: seq<Span>, now: int, first: int, n: nat): int {
    if n == 0 then 0 else Days(spans, now, first, n - 1) + Time(spans, now, (first + n - 1) * DAY, (first + n) * DAY)
  }

  lemma {:induction false} DaysAddUp(spans: seq<Span>, now: int, first: int, n: nat)
    ensures Days(spans, now, first, n) == Time(spans, now, first * DAY, (first + n) * DAY)
    decreases n
  {
    if n == 0 {
      TimeAdds(spans, now, first * DAY, first * DAY, first * DAY);
    } else {
      DaysAddUp(spans, now, first, n - 1);
      TimeAdds(spans, now, first * DAY, (first + n - 1) * DAY, (first + n) * DAY);
    }
  }

  function Lengths(spans: seq<Span>, now: int): int {
    if spans == [] then 0 else Max(0, End(spans[0], now) - spans[0].started) + Lengths(spans[1..], now)
  }

  predicate Within(spans: seq<Span>, now: int, start: int, end: int) {
    forall i | 0 <= i < |spans| :: start <= spans[i].started && End(spans[i], now) <= end
  }

  lemma {:induction false} WholeLengths(spans: seq<Span>, now: int, start: int, end: int)
    requires Within(spans, now, start, end)
    ensures Time(spans, now, start, end) == Lengths(spans, now)
  {
    if spans != [] {
      assert Within(spans[1..], now, start, end);
      WholeLengths(spans[1..], now, start, end);
    }
  }

  /** Daily windows count every second of every session once: together they are the sessions' lengths. */
  lemma DaysCountOnce(spans: seq<Span>, now: int, first: int, n: nat)
    requires Within(spans, now, first * DAY, (first + n) * DAY)
    ensures Days(spans, now, first, n) == Lengths(spans, now)
  {
    DaysAddUp(spans, now, first, n);
    WholeLengths(spans, now, first * DAY, (first + n) * DAY);
  }

  // Rounding to minutes

  /** Python's round: a half goes to the even neighbour. */
  function Minutes(seconds: int): int {
    var q, r := seconds / 60, seconds % 60;
    if r < 30 || (r == 30 && q % 2 == 0) then q else q + 1
  }

  /** Any number of minutes that is as near, and even if it is half a minute off, is the one. */
  lemma MinutesExactly(seconds: int, m: int)
    ensures m == Minutes(seconds) <==> -30 <= 60 * m - seconds <= 30 && (60 * m - seconds == 30 || 60 * m - seconds == -30 ==> m % 2 == 0)
  {
  }

  function RoundedDays(spans: seq<Span>, now: int, first: int, n: nat): int {
    if n == 0 then 0
    else RoundedDays(spans, now, first, n - 1) + Minutes(Time(spans, now, (first + n - 1) * DAY, (first + n) * DAY))
  }

  /** Rounded days drift from the real total by at most half a minute each. */
  lemma {:induction false} RoundingDrift(spans: seq<Span>, now: int, first: int, n: nat)
    ensures -30 * n <= 60 * RoundedDays(spans, now, first, n) - Time(spans, now, first * DAY, (first + n) * DAY) <= 30 * n
    decreases n
  {
    DaysAddUp(spans, now, first, n);
    if n > 0 {
      RoundingDrift(spans, now, first, n - 1);
      DaysAddUp(spans, now, first, n - 1);
    }
  }

  // The daily rows

  /** One run of the maintenance pass: the clock, the tenants not purged, and each one's sessions then. */
  datatype Pass = Pass(now: int, live: seq<nat>, logs: map<nat, seq<Span>>)

  type Usage = map<(int, nat), int>

  function Spans(p: Pass, t: nat): seq<Span> {
    if t in p.logs then p.logs[t] else []
  }

  function DayOf(now: int): int {
    now / DAY
  }

  function DayMinutes(p: Pass, day: int, t: nat): int {
    Minutes(Time(Spans(p, t), p.now, day * DAY, (day + 1) * DAY))
  }

  /** record_usage: one row per tenant listed. */
  function Recorded(u: Usage, p: Pass, day: int, live: seq<nat>): Usage {
    if live == [] then u
    else Recorded(u, p, day, live[..|live| - 1])[(day, live[|live| - 1]) := DayMinutes(p, day, live[|live| - 1])]
  }

  /** It rewrites the listed tenants' rows of that day, and no other. */
  lemma {:induction false} RecordedRow(u: Usage, p: Pass, day: int, live: seq<nat>, d: int, t: nat)
    ensures d == day && t in live ==> (d, t) in Recorded(u, p, day, live) && Recorded(u, p, day, live)[(d, t)] == DayMinutes(p, day, t)
    ensures d != day || t !in live ==>
              ((d, t) in Recorded(u, p, day, live) <==> (d, t) in u)
              && ((d, t) in u ==> Recorded(u, p, day, live)[(d, t)] == u[(d, t)])
    decreases |live|
  {
    if live != [] {
      RecordedRow(u, p, day, live[..|live| - 1], d, t);
      assert t in live <==> t in live[..|live| - 1] || t == live[|live| - 1];
    }
  }

  /** No row of any tenant for that day. */
  predicate Missing(u: Usage, day: int) {
    forall k | k in u :: k.0 != day
  }

  /** run_once: yesterday only if it has no rows, then today. */
  function AfterPass(u: Usage, p: Pass): Usage {
    var today := DayOf(p.now);
    Recorded(if Missing(u, today - 1) then Recorded(u, p, today - 1, p.live) else u, p, today, p.live)
  }

  function AfterPasses(passes: seq<Pass>): Usage {
    if passes == [] then map[] else AfterPass(AfterPasses(passes[..|passes| - 1]), passes[|passes| - 1])
  }

  predicate InOrder(passes: seq<Pass>) {
    forall i, j | 0 <= i <= j < |passes| :: passes[i].now <= passes[j].now
  }

  /** Pass i is the last one of its day for which the tenant had a row written. */
  predicate LastOfDay(passes: seq<Pass>, i: nat, day: int, t: nat) {
    && i < |passes| && DayOf(passes[i].now) == day && t in passes[i].live
    && forall j | i < j < |passes| :: DayOf(passes[j].now) != day || t !in passes[j].live
  }

  /** A pass leaves a day's row alone, unless it runs on that day or finds no row of it the day after. */
  lemma PassKeepsRow(u: Usage, p: Pass, day: int, t: nat)
    requires (day, t) in u && (DayOf(p.now) != day || t !in p.live)
    ensures (day, t) in AfterPass(u, p) && AfterPass(u, p)[(day, t)] == u[(day, t)]
  {
    var today := DayOf(p.now);
    RecordedRow(u, p, today - 1, p.live, day, t);
    var v := if Missing(u, today - 1) then Recorded(u, p, today - 1, p.live) else u;
    RecordedRow(v, p, today, p.live, day, t);
  }

  lemma PassWritesRow(u: Usage, p: Pass, t: nat)
    requires t in p.live
    ensures (DayOf(p.now), t) in AfterPass(u, p)
    ensures AfterPass(u, p)[(DayOf(p.now), t)] == DayMinutes(p, DayOf(p.now), t)
  {
    var today := DayOf(p.now);
    var v := if Missing(u, today - 1) then Recorded(u, p, today - 1, p.live) else u;
    RecordedRow(v, p, today, p.live, today, t);
  }

  /** A day's row is what the day's last pass computed: later passes never refresh it. */
  lemma {:induction false} RowIsLastPass(passes: seq<Pass>, i: nat, day: int, t: nat)
    requires InOrder(passes) && LastOfDay(passes, i, day, t)
    ensures (day, t) in AfterPasses(passes)
    ensures AfterPasses(passes)[(day, t)] == DayMinutes(passes[i], day, t)
    decreases |passes|
  {
    var n := |passes| - 1;
    if i < n {
      var before := passes[..n];
      assert forall j | 0 <= j < n :: before[j] == passes[j];
      RowIsLastPass(before, i, day, t);
      PassKeepsRow(AfterPasses(before), passes[n], day, t);
    } else {
      PassWritesRow(AfterPasses(passes[..n]), passes[n], t);
    }
  }

  // Days without a pass of their own

  /** No pass has run on this day or the next one. */
  predicate NoPassOn(passes: seq<Pass>, day: int) {
    forall i | 0 <= i < |passes| :: DayOf(passes[i].now) != day && DayOf(passes[i].now) != day + 1
  }

  lemma {:induction false} StillMissing(passes: seq<Pass>, day: int)
    requires NoPassOn(passes, day)
    ensures Missing(AfterPasses(passes), day)
    decreases |passes|
  {
    if passes != [] {
      var n := |passes| - 1;
      var before, p := passes[..n], passes[n];
      assert forall i | 0 <= i < n :: before[i] == passes[i];
      assert DayOf(passes[n].now) != day;
      StillMissing(before, day);
      forall k | k in AfterPass(AfterPasses(before), p) ensures k.0 != day {
        var today := DayOf(p.now);
        RecordedRow(AfterPasses(before), p, today - 1, p.live, k.0, k.1);
        var v := if Missing(AfterPasses(before), today - 1) then Recorded(AfterPasses(before), p, today - 1, p.live) else AfterPasses(before);
        RecordedRow(v, p, today, p.live, k.0, k.1);
      }
    }
  }

  /** A pass on the day after a day without any row gives every live tenant that day's row, of the whole
      day; a day that has a row already, it leaves as it is. */
  lemma FillsYesterday(u: Usage, p: Pass, t: nat)
    ensures var day := DayOf(p.now) - 1;
            && ((forall k | k in u :: k.0 != day) && t in p.live ==>
                  (day, t) in AfterPass(u, p) && AfterPass(u, p)[(day, t)] == DayMinutes(p, day, t))
            && ((exists k | k in u :: k.0 == day) || t !in p.live ==>
                  ((day, t) in AfterPass(u, p) <==> (day, t) in u)
                  && ((day, t) in u ==> AfterPass(u, p)[(day, t)] == u[(day, t)]))
  {
    var today := DayOf(p.now);
    var v := if Missing(u, today - 1) then Recorded(u, p, today - 1, p.live) else u;
    RecordedRow(u, p, today - 1, p.live, today - 1, t);
    RecordedRow(v, p, today, p.live, today - 1, t);
  }

  /** A day on which no pass ran is filled in by the first pass of the next day, for every tenant live
      then, with its whole session time of that day; and no later pass changes it. */
  lemma {:induction false} MissedDayIsFilled(passes: seq<Pass>, i: nat, day: int, t: nat)
    requires InOrder(passes) && i < |passes| && NoPassOn(passes[..i], day)
    requires DayOf(passes[i].now) == day + 1 && t in passes[i].live
    ensures (day, t) in AfterPasses(passes)
    ensures AfterPasses(passes)[(day, t)] == Minutes(Time(Spans(passes[i], t), passes[i].now, day * DAY, (day + 1) * DAY))
    decreases |passes|
  {
    hide AfterPass, Minutes, Time, Spans;
    var n := |passes| - 1;
    var before := passes[..n];
    assert forall j | 0 <= j < n :: before[j] == passes[j];
    if i < n {
      assert before[..i] == passes[..i];
      MissedDayIsFilled(before, i, day, t);
      assert passes[i].now <= passes[n].now;
      PassKeepsRow(AfterPasses(before), passes[n], day, t);
    } else {
      StillMissing(before, day);
      FillsYesterday(AfterPasses(before), passes[n], t);
    }
  }

  // What the log shows while a day goes on

  /** A session's end, and when the log learns of it: at once by a report, or later from a heartbeat
      that no longer names it or from the sweeper, which end it where it was last seen. */
  datatype Closing = Closing(ended: int, written: int)

  /** The course of a session as it finally stands in the log. */
  datatype Course = Course(started: int, closing: Option<Closing>)

  predicate Plausible(c: Course) {
    c.closing.Some? ==> c.started <= c.closing.value.ended <= c.closing.value.written
  }

  function Final(c: Course): Span {
    Span(c.started, if c.closing.Some? then Some(c.closing.value.ended) else None)
  }

  function Finally(truth: seq<Course>): seq<Span> {
    if truth == [] then [] else [Final(truth[0])] + Finally(truth[1..])
  }

  predicate Shown(c: Course, t: int) {
    c.closing.Some? && c.closing.value.written <= t
  }

  /** The log at time t. */
  function At(truth: seq<Course>, t: int): seq<Span> {
    if truth == [] then []
    else
      var c := truth[0];
      (if c.started > t then [] else [Span(c.started, if Shown(c, t) then Some(c.closing.value.ended) else None)]) + At(truth[1..], t)
  }

  /** The part of the window after a session's end that the log at time t still counts, because the
      end is not written yet. */
  function LateOne(c: Course, t: int, start: int): int {
    if c.closing.Some? && c.closing.value.written > t then Max(0, t - Max(c.closing.value.ended, start)) else 0
  }

  function Late(truth: seq<Course>, t: int, start: int): int {
    if truth == [] then 0 else LateOne(truth[0], t, start) + Late(truth[1..], t, start)
  }

  lemma OneSeen(c: Course, t: int, later: int, start: int, end: int)
    requires start <= t <= end && t <= later && c.started <= t && Plausible(c)
    ensures var seen := Span(c.started, if Shown(c, t) then Some(c.closing.value.ended) else None);
            Overlap(seen, t, start, end) == Overlap(Final(c), later, start, t) + LateOne(c, t, start)
  {
  }

  /** Counted at time t, a window holds the session time up to t, and what is still counted of
      sessions that were over by then. */
  lemma {:induction false} SeenSoFar(truth: seq<Course>, t: int, later: int, start: int, end: int)
    requires start <= t <= end && t <= later && forall i | 0 <= i < |truth| :: Plausible(truth[i])
    ensures Time(At(truth, t), t, start, end) == Time(Finally(truth), later, start, t) + Late(truth, t, start)
  {
    if truth != [] {
      var c, rest := truth[0], truth[1..];
      SeenSoFar(rest, t, later, start, end);
      FirstOf(Final(c), Finally(rest), later, start, t);
      if c.started <= t {
        var seen := Span(c.started, if Shown(c, t) then Some(c.closing.value.ended) else None);
        FirstOf(seen, At(rest, t), t, start, end);
        OneSeen(c, t, later, start, end);
      } else {
        assert At(truth, t) == At(rest, t);
      }
    }
  }

  /** The filter leaves out only what counts nothing. */
  lemma FirstOf(s: Span, rest: seq<Span>, now: int, start: int, end: int)
    ensures Time([s] + rest, now, start, end) == Overlap(s, now, start, end) + Time(rest, now, start, end)
  {
    assert ([s] + rest)[1..] == rest;
  }

  /** So a day's row misses what ran between the day's last pass and midnight, for good, and keeps
      what the pass counted of sessions whose end was written only later: the seconds behind it are
      the whole day's exactly when the two are equal. */
  lemma LastHourIsLost(passes: seq<Pass>, i: nat, day: int, t: nat, truth: seq<Course>, later: int)
    requires InOrder(passes) && LastOfDay(passes, i, day, t) && Spans(passes[i], t) == At(truth, passes[i].now)
    requires (day + 1) * DAY <= later && forall k | 0 <= k < |truth| :: Plausible(truth[k])
    ensures (day, t) in AfterPasses(passes)
    ensures var spans := Finally(truth);
            var counted := Time(Spans(passes[i], t), passes[i].now, day * DAY, (day + 1) * DAY);
            var whole := Time(spans, later, day * DAY, (day + 1) * DAY);
            var tail := Time(spans, later, passes[i].now, (day + 1) * DAY);
            var late := Late(truth, passes[i].now, day * DAY);
            && AfterPasses(passes)[(day, t)] == Minutes(counted)
            && counted == whole - tail + late && tail >= 0 && late >= 0
            && (counted == whole <==> tail == late)
  {
    var now := passes[i].now;
    RowIsLastPass(passes, i, day, t);
    assert day * DAY <= now <= (day + 1) * DAY;
    SeenSoFar(truth, now, later, day * DAY, (day + 1) * DAY);
    TimeAdds(Finally(truth), later, day * DAY, now, (day + 1) * DAY);
    TimeCounts(Finally(truth), later, now, (day + 1) * DAY);
    LateCounts(truth, now, day * DAY);
  }

  lemma {:induction false} LateCounts(truth: seq<Course>, t: int, start: int)
    ensures Late(truth, t, start) >= 0
  {
    if truth != [] {
      LateCounts(truth[1..], t, start);
    }
  }

  /** One session from 23:00 to midnight, a pass at 23:30 and the next one after midnight: 30 minutes recorded. */
  lemma HalfTheHour()
    ensures var truth := [Course(82800, Some(Closing(86400, 86400)))];
            var passes := [Pass(84600, [7], map[7 := At(truth, 84600)]), Pass(88200, [7], map[7 := At(truth, 88200)])];
            && (0, 7) in AfterPasses(passes) && AfterPasses(passes)[(0, 7)] == 30
            && Minutes(Time(Finally(truth), 88200, 0, DAY)) == 60
  {
    var truth := [Course(82800, Some(Closing(86400, 86400)))];
    var passes := [Pass(84600, [7], map[7 := At(truth, 84600)]), Pass(88200, [7], map[7 := At(truth, 88200)])];
    OneCourse(truth[0], passes, 84600, 88200);
  }

  /** A device that vanished at 23:20 and is swept at 23:22, the day's last pass in between, at 23:21:30:
      82 minutes recorded for 80. */
  lemma TwoMinutesMore()
    ensures var truth := [Course(79200, Some(Closing(84000, 84120)))];
            var passes := [Pass(84090, [7], map[7 := At(truth, 84090)]), Pass(87690, [7], map[7 := At(truth, 87690)])];
            && (0, 7) in AfterPasses(passes) && AfterPasses(passes)[(0, 7)] == 82
            && Minutes(Time(Finally(truth), 87690, 0, DAY)) == 80
  {
    var truth := [Course(79200, Some(Closing(84000, 84120)))];
    var passes := [Pass(84090, [7], map[7 := At(truth, 84090)]), Pass(87690, [7], map[7 := At(truth, 87690)])];
    OneCourse(truth[0], passes, 84090, 87690);
  }

  /** Day 0's row for a single session, after a last pass that still shows it open. */
  lemma OneCourse(c: Course, passes: seq<Pass>, now: int, later: int)
    requires Plausible(c) && 0 <= c.started <= now < DAY <= later < 2 * DAY
    requires c.closing.Some? && now < c.closing.value.written && c.closing.value.ended <= DAY
    requires passes == [Pass(now, [7], map[7 := At([c], now)]), Pass(later, [7], map[7 := At([c], later)])]
    ensures (0, 7) in AfterPasses(passes) && AfterPasses(passes)[(0, 7)] == Minutes(now - c.started)
    ensures Time(Finally([c]), later, 0, DAY) == c.closing.value.ended - c.started
  {
    assert LastOfDay(passes, 0, 0, 7);
    RowIsLastPass(passes, 0, 0, 7);
    assert [c][1..] == [] && At([c], now) == [Span(c.started, None)] && Finally([c]) == [Final(c)];
    FirstOf(Span(c.started, None), [], now, 0, DAY);
    FirstOf(Final(c), [], later, 0, DAY);
    assert [Span(c.started, None)] + [] == [Span(c.started, None)] && [Final(c)] + [] == [Final(c)];
  }

  /** The hourly thread's table. */
  class UsageTable {
    var rows: Usage
    ghost var passes: seq<Pass>

    ghost predicate Valid()
      reads this
    {
      rows == AfterPasses(passes)
    }

    constructor ()
      ensures Valid() && passes == []
    {
      rows, passes := map[], [];
    }

    /** One recording: a row for each tenant listed, and their number. */
    method RecordUsage(p: Pass, day: int) returns (n: nat)
      modifies this`rows
      ensures rows == Recorded(old(rows), p, day, p.live) && n == |p.live|
    {
      n := 0;
      while n < |p.live|
        invariant 0 <= n <= |p.live|
        invariant rows == Recorded(old(rows), p, day, p.live[..n])
      {
        var t := p.live[n];
        assert p.live[..n + 1][..n] == p.live[..n];
        rows := rows[(day, t) := DayMinutes(p, day, t)];
        n := n + 1;
      }
      assert p.live[..n] == p.live;
    }

    method RunOnce(p: Pass)
      requires Valid() && forall q | q in passes :: q.now <= p.now
      modifies this
      ensures Valid() && passes == old(passes) + [p] && rows == AfterPass(old(rows), p)
    {
      var today := DayOf(p.now);
      if forall k | k in rows :: k.0 != today - 1 {
        var _ := RecordUsage(p, today - 1);
      }
      var _ := RecordUsage(p, today);
      assert (passes + [p])[..|passes|] == passes;
      passes := passes + [p];
    }
  }
}

/**
 Metered devices: the hourly pass samples each tenant's device count, keeps the day's peak,
 and reports a finished day to a meter that drops identifiers it has seen. Replies can be
 lost and the process can stop between any two statements.
 */
module Metering {
  import opened Util

  const LEGACY_TENANT_ID := 1

  /** One tenant-day; days are numbered. The meter event's identifier is built from it. */
  datatype Key = Key(tenant: nat, day: nat)

  /** A row of billing_device_peaks. */
  datatype Entry = Entry(peak: nat, reported: bool)

  /** Our rows, and the events the meter has counted. */
  datatype Books = Books(peaks: map<Key, Entry>, meter: map<Key, nat>)

  const EMPTY := Books(map[], map[])

  /** How one call to the meter ends: accepted and answered; accepted but the answer is an
      error; not accepted; "already exists"; or the process stops, before or after the meter took it. */
  datatype Reply = Accepted | AnswerLost | Refused | AlreadyExists | Stopped(counted: bool)

  /** One row's share of a pass: an upsert of `record_peaks`, or one turn of `report_meters`. */
  datatype Step = Sample(key: Key, count: nat) | Send(key: Key, today: nat, reply: Reply)

  function Max(a: nat, b: nat): nat {
    if a < b then b else a
  }

  predicate Counts(r: Reply) {
    r.Accepted? || r.AnswerLost? || (r.Stopped? && r.counted)
  }

  predicate Marks(r: Reply) {
    r.Accepted? || r.AlreadyExists?
  }

  function Upsert(b: Books, k: Key, n: nat): Books {
    b.(peaks := b.peaks[k := if k in b.peaks then Entry(Max(b.peaks[k].peak, n), b.peaks[k].reported) else Entry(n, false)])
  }

  /** The event offered to the meter, which keeps the first value of an identifier; then the row's mark. */
  function Offer(b: Books, k: Key, r: Reply): Books
    requires k in b.peaks
  {
    Books(if Marks(r) then b.peaks[k := b.peaks[k].(reported := true)] else b.peaks,
          if Counts(r) && k !in b.meter then b.meter[k := b.peaks[k].peak] else b.meter)
  }

  predicate Enabled(b: Books, s: Step) {
    && s.key.tenant != LEGACY_TENANT_ID
    && (s.Send? ==>
          && s.key in b.peaks && !b.peaks[s.key].reported && s.key.day < s.today
          && (s.reply.AlreadyExists? ==> s.key in b.meter))
  }

  function After(b: Books, s: Step): Books
    requires Enabled(b, s)
  {
    match s
    case Sample(k, n) => Upsert(b, k, n)
    case Send(k, _, r) => Offer(b, k, r)
  }

  /** The day on which a step runs. */
  function When(s: Step): nat {
    if s.Sample? then s.key.day else s.today
  }

  function Clock(steps: seq<Step>): nat {
    if steps == [] then 0 else When(steps[|steps| - 1])
  }

  // A history, from empty books; its clock never goes back.

  predicate Possible(steps: seq<Step>)
    decreases |steps|, 0
  {
    steps == [] ||
    var before, s := steps[..|steps| - 1], steps[|steps| - 1];
    Possible(before) && Enabled(Run(before), s) && Clock(before) <= When(s)
  }

  function Run(steps: seq<Step>): Books
    requires Possible(steps)
    decreases |steps|, 1
  {
    if steps == [] then EMPTY else After(Run(steps[..|steps| - 1]), steps[|steps| - 1])
  }

  /** The largest count sampled for a tenant-day. */
  function Peak(steps: seq<Step>, k: Key): Option<nat> {
    if steps == [] then None
    else
      var before, s := Peak(steps[..|steps| - 1], k), steps[|steps| - 1];
      if s.Sample? && s.key == k then Some(if before.Some? then Max(before.value, s.count) else s.count) else before
  }

  /** A peak is one of the samples, and none is larger. */
  lemma {:induction false} PeakIsLargest(steps: seq<Step>, k: Key)
    ensures forall i | 0 <= i < |steps| && steps[i].Sample? && steps[i].key == k ::
              Peak(steps, k).Some? && steps[i].count <= Peak(steps, k).value
    ensures Peak(steps, k).Some? ==>
              exists i :: 0 <= i < |steps| && steps[i].Sample? && steps[i].key == k && steps[i].count == Peak(steps, k).value
    decreases |steps|
  {
    if steps != [] {
      var before := steps[..|steps| - 1];
      PeakIsLargest(before, k);
      assert forall i | 0 <= i < |before| :: steps[i] == before[i];
      var s := steps[|steps| - 1];
      if Peak(before, k).Some? {
        var i :| 0 <= i < |before| && before[i].Sample? && before[i].key == k && before[i].count == Peak(before, k).value;
        assert steps[i] == before[i];
      }
    }
  }

  // What every history keeps

  ghost predicate PeaksExact(b: Books, steps: seq<Step>) {
    forall k :: Peak(steps, k) == if k in b.peaks then Some(b.peaks[k].peak) else None
  }

  predicate MeterExact(b: Books, clock: nat) {
    && (forall k | k in b.meter :: k in b.peaks && b.meter[k] == b.peaks[k].peak)
    && (forall k | k in b.meter :: k.day < clock && k.tenant != LEGACY_TENANT_ID)
    && (forall k | k in b.peaks && b.peaks[k].reported :: k in b.meter)
  }

  lemma MeterStep(b: Books, s: Step, clock: nat)
    requires Enabled(b, s) && MeterExact(b, clock) && clock <= When(s)
    ensures MeterExact(After(b, s), When(s))
  {
  }

  /** After any history, whatever was lost, refused or interrupted: each row holds the largest
      sample of its day, and what the meter has counted for a tenant-day is that value, once,
      and only for days that are over. A row marked reported has been counted. */
  lemma {:induction false} InvRun(steps: seq<Step>)
    requires Possible(steps)
    ensures PeaksExact(Run(steps), steps) && MeterExact(Run(steps), Clock(steps))
    decreases |steps|
  {
    if steps != [] {
      var before, s := steps[..|steps| - 1], steps[|steps| - 1];
      InvRun(before);
      MeterStep(Run(before), s, Clock(before));
    }
  }

  /** What the meter has counted stays: later steps neither change nor repeat it, and a
      finished day's row is never written again. */
  lemma {:induction false} CountedStays(steps: seq<Step>, n: nat, k: Key)
    requires Possible(steps) && n <= |steps|
    ensures Possible(steps[..n])
    ensures k in Run(steps[..n]).meter ==>
              k in Run(steps).meter && Run(steps).meter[k] == Run(steps[..n]).meter[k]
    ensures k.day < Clock(steps[..n]) ==> Peak(steps, k) == Peak(steps[..n], k)
    ensures Clock(steps[..n]) <= Clock(steps)
    decreases |steps|
  {
    if n == |steps| {
      assert steps[..n] == steps;
    } else {
      var before := steps[..|steps| - 1];
      CountedStays(before, n, k);
      assert before[..n] == steps[..n];
    }
  }

  // One event, offered again and again

  /** What each answer does to a row and to the meter: the row is done with exactly if the meter says that
      it took the event, now or before; the meter counts the first event of a row that it takes, at the row's
      value. The value itself is never changed. */
  lemma SentExactly(b: Books, k: Key, today: nat, r: Reply)
    requires Enabled(b, Send(k, today, r))
    ensures var next := After(b, Send(k, today, r));
            && next.peaks == b.peaks[k := Entry(b.peaks[k].peak, r == Accepted || r == AlreadyExists)]
            && next.meter == (if k !in b.meter && (r == Accepted || r == AnswerLost || r == Stopped(true))
                              then b.meter[k := b.peaks[k].peak] else b.meter)
  {
  }

  /** An event whose answer was lost, or after which the process stopped, is offered again and counted once:
      however often that happens, the first answer that comes through ends it with the value of the day. */
  lemma OfferedUntilAnswered(b: Books, k: Key, today: nat, tries: seq<Reply>)
    requires k.tenant != LEGACY_TENANT_ID && k.day < today && k in b.peaks && !b.peaks[k].reported && k !in b.meter
    requires forall r | r in tries :: r == AnswerLost || r.Stopped? || r == Refused
    ensures var end := Tried(b, k, tries);
            var answer := Send(k, today, if k in end.meter then AlreadyExists else Accepted);
            && Enabled(end, answer)
            && After(end, answer) == Books(b.peaks[k := Entry(b.peaks[k].peak, true)], b.meter[k := b.peaks[k].peak])
  {
    TriedKeeps(b, k, tries);
    var end := Tried(b, k, tries);
    SentExactly(end, k, today, if k in end.meter then AlreadyExists else Accepted);
  }

  /** The books after some tries that did not end it. */
  function Tried(b: Books, k: Key, tries: seq<Reply>): Books
    requires k in b.peaks
    ensures k in Tried(b, k, tries).peaks
  {
    if tries == [] then b else Offer(Tried(b, k, tries[..|tries| - 1]), k, tries[|tries| - 1])
  }

  lemma {:induction false} TriedKeeps(b: Books, k: Key, tries: seq<Reply>)
    requires k in b.peaks && k !in b.meter
    requires forall r | r in tries :: r == AnswerLost || r.Stopped? || r == Refused
    ensures var end := Tried(b, k, tries);
            end.peaks == b.peaks && (end.meter == b.meter || end.meter == b.meter[k := b.peaks[k].peak])
    decreases |tries|
  {
    if tries != [] {
      assert tries[|tries| - 1] in tries;
      TriedKeeps(b, k, tries[..|tries| - 1]);
    }
  }

  // The bill

  function Billed(meter: map<Key, nat>, tenant: nat, days: nat): nat {
    if days == 0 then 0
    else Billed(meter, tenant, days - 1) + (if Key(tenant, days - 1) in meter then meter[Key(tenant, days - 1)] else 0)
  }

  function DeviceDays(steps: seq<Step>, tenant: nat, days: nat): nat {
    if days == 0 then 0
    else
      var p := Peak(steps, Key(tenant, days - 1));
      DeviceDays(steps, tenant, days - 1) + (if p.Some? then p.value else 0)
  }

  /** Device-days billed never exceed the daily peaks, and equal them once every row is reported. */
  lemma {:induction false} BillIsExact(steps: seq<Step>, tenant: nat, days: nat)
    requires Possible(steps)
    ensures Billed(Run(steps).meter, tenant, days) <= DeviceDays(steps, tenant, days)
    ensures (forall d | 0 <= d < days && Key(tenant, d) in Run(steps).peaks :: Run(steps).peaks[Key(tenant, d)].reported)
            ==> Billed(Run(steps).meter, tenant, days) == DeviceDays(steps, tenant, days)
    decreases days
  {
    if days > 0 {
      BillIsExact(steps, tenant, days - 1);
      InvRun(steps);
      assert Peak(steps, Key(tenant, days - 1)).Some? <==> Key(tenant, days - 1) in Run(steps).peaks;
    }
  }

  /** The clock matters. A sample for a day that the meter has counted never changes the bill, so
      the row and the bill still agree exactly when the sample is no larger than the counted value. */
  lemma LateSampleAgrees(steps: seq<Step>, k: Key, n: nat)
    requires Possible(steps) && k in Run(steps).meter
    ensures Enabled(Run(steps), Sample(k, n))
    ensures var b := After(Run(steps), Sample(k, n));
            b.meter == Run(steps).meter && (b.peaks[k].peak == b.meter[k] <==> n <= Run(steps).meter[k])
  {
    InvRun(steps);
  }

  /** For instance: a device counted for a day, and nine after the clock went back into it. */
  lemma ClockBackLosesPeak()
    ensures var k := Key(2, 5);
            var steps := [Sample(k, 1), Send(k, 6, Accepted)];
            && Possible(steps) && Enabled(Run(steps), Sample(k, 9))
            && var b := After(Run(steps), Sample(k, 9)); b.peaks[k].peak == 9 && b.meter[k] == 1 && b.peaks[k].reported
  {
    var k := Key(2, 5);
    var first, second := Sample(k, 1), Send(k, 6, Accepted);
    var b1 := Upsert(EMPTY, k, 1);
    assert Possible([]) && Run([]) == EMPTY && Clock([]) == 0;
    assert [first][..0] == [] && Enabled(EMPTY, first) && Clock([]) <= When(first);
    assert Possible([first]) && Run([first]) == After(EMPTY, first) == b1 && Clock([first]) == 5;
    assert b1.peaks == map[k := Entry(1, false)] && Enabled(b1, second);
    assert [first, second][..1] == [first];
    assert Possible([first, second]) && Run([first, second]) == After(b1, second);
    assert After(b1, second) == Books(map[k := Entry(1, true)], map[k := 1]);
  }

  // Identifiers

  function Digit(d: nat): char
    requires d < 10
  {
    "0123456789"[d]
  }

  function Decimal(n: nat): (s: string)
    ensures s != []
  {
    if n < 10 then [Digit(n)] else Decimal(n / 10) + [Digit(n % 10)]
  }

  lemma {:induction false} DecimalDistinct(a: nat, b: nat)
    requires Decimal(a) == Decimal(b)
    ensures a == b
    decreases a
  {
    var s, t := Decimal(a), Decimal(b);
    assert s[|s| - 1] == Digit(a % 10) && t[|t| - 1] == Digit(b % 10);
    if a >= 10 {
      assert s[..|s| - 1] == Decimal(a / 10);
      assert |t| > 1;
      assert t[..|t| - 1] == Decimal(b / 10);
      DecimalDistinct(a / 10, b / 10);
    }
  }

  /** rdf-devices-<tenant>-<YYYY-MM-DD> */
  function Identifier(tenant: nat, day: string): string {
    "rdf-devices-" + Decimal(tenant) + "-" + day
  }

  /** Different tenant-days never share an identifier. */
  lemma IdentifiersDistinct(t: nat, d: string, u: nat, e: string)
    requires |d| == 10 == |e| && Identifier(t, d) == Identifier(u, e)
    ensures t == u && d == e
  {
    var x, y := Identifier(t, d), Identifier(u, e);
    var n := |x|;
    assert x[n - 10..] == d && y[n - 10..] == e;
    assert x[12..n - 11] == Decimal(t) && y[12..n - 11] == Decimal(u);
    DecimalDistinct(t, u);
  }
}

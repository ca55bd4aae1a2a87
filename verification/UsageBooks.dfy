/** `record_peaks` and `report_meters` as loops over rows that change in place. */
module Usage {
  import opened Util
  import opened Metering

  /** A tenant on a live Stripe subscription, with its device count. */
  datatype Subscriber = Subscriber(tenant: nat, metered: bool, devices: nat)

  /** The samples of one pass. */
  function Samples(subs: seq<Subscriber>, day: nat): seq<Step> {
    if subs == [] then []
    else
      var s := subs[|subs| - 1];
      Samples(subs[..|subs| - 1], day) + if s.metered then [Sample(Key(s.tenant, day), s.devices)] else []
  }

  lemma SamplesMore(subs: seq<Subscriber>, i: nat, day: nat)
    requires i < |subs|
    ensures Samples(subs[..i + 1], day) ==
            if subs[i].metered then Samples(subs[..i], day) + [Sample(Key(subs[i].tenant, day), subs[i].devices)]
            else Samples(subs[..i], day)
  {
    assert subs[..i + 1][..i] == subs[..i];
  }

  /** A pass samples exactly the metered subscribers, each with its device count. */
  lemma {:induction false} SamplesExactly(subs: seq<Subscriber>, day: nat, s: Step)
    ensures s in Samples(subs, day) <==>
              exists i :: 0 <= i < |subs| && subs[i].metered && s == Sample(Key(subs[i].tenant, day), subs[i].devices)
    decreases |subs|
  {
    if subs != [] {
      var n := |subs| - 1;
      var before := subs[..n];
      SamplesExactly(before, day, s);
      if i :| 0 <= i < |before| && before[i].metered && s == Sample(Key(before[i].tenant, day), before[i].devices) {
        assert subs[i] == before[i];
      }
      if i :| 0 <= i < |subs| && subs[i].metered && s == Sample(Key(subs[i].tenant, day), subs[i].devices) {
        assert i < n ==> before[i] == subs[i];
      }
    }
  }

  predicate Due(e: Entry, k: Key, today: nat) {
    !e.reported && k.day < today && k.tenant != LEGACY_TENANT_ID
  }

  /** How the meter will answer, row by row; a row not listed is refused. */
  type Replies = map<Key, Reply>

  function Answer(replies: Replies, k: Key): Reply {
    if k in replies then replies[k] else Refused
  }

  /** The sends of one pass over the rows it fetched: all of them, or those before it stopped. */
  predicate SendsOf(steps: seq<Step>, rows: seq<Key>, today: nat, replies: Replies) {
    |steps| <= |rows| && forall i | 0 <= i < |steps| :: steps[i] == Send(rows[i], today, Answer(replies, rows[i]))
  }

  /** A list of the set's elements, each once. */
  ghost predicate Lists(rows: seq<Key>, s: set<Key>) {
    && (forall k :: k in rows <==> k in s)
    && (forall i, j | 0 <= i < j < |rows| :: rows[i] != rows[j])
  }

  function Marked(steps: seq<Step>): nat {
    if steps == [] then 0
    else Marked(steps[..|steps| - 1]) + if steps[|steps| - 1].Send? && Marks(steps[|steps| - 1].reply) then 1 else 0
  }

  lemma Extend(history: seq<Step>, s: Step)
    requires Possible(history) && Enabled(Run(history), s) && Clock(history) <= When(s)
    ensures Possible(history + [s]) && Run(history + [s]) == After(Run(history), s) && Clock(history + [s]) == When(s)
  {
  }

  /** The finished rows a pass looks at. */
  function DueRows(peaks: map<Key, Entry>, today: nat, billable: set<nat>): set<Key> {
    set k | k in peaks && Due(peaks[k], k, today) && k.tenant in billable
  }

  lemma DueRowsAre(peaks: map<Key, Entry>, today: nat, billable: set<nat>)
    ensures forall k | k in peaks :: k in DueRows(peaks, today, billable) <==> Due(peaks[k], k, today) && k.tenant in billable
  {
  }

  /** A row whose send was answered, or found already there, is reported from then on. */
  lemma {:induction false} MarkedStays(history: seq<Step>, i: nat)
    requires Possible(history) && i < |history| && history[i].Send? && Marks(history[i].reply)
    ensures history[i].key in Run(history).peaks && Run(history).peaks[history[i].key].reported
    decreases |history|
  {
    if i < |history| - 1 {
      MarkedStays(history[..|history| - 1], i);
    }
  }

  /** After a pass that offered every due row and got a good answer each time, every due row
      is reported. With `BillIsExact` this makes the bill of the finished days exact. */
  lemma CleanPassReports(history: seq<Step>, steps: seq<Step>, rows: seq<Key>, today: nat, billable: set<nat>, replies: Replies)
    requires Possible(history) && Possible(history + steps)
    requires Lists(rows, DueRows(Run(history).peaks, today, billable))
    requires SendsOf(steps, rows, today, replies) && |steps| == |rows|
    requires forall k | k in rows :: Marks(Answer(replies, k))
    ensures forall k | k in Run(history).peaks && k.day < today && k.tenant != LEGACY_TENANT_ID && k.tenant in billable ::
              k in Run(history + steps).peaks && Run(history + steps).peaks[k].reported
  {
    hide Possible, Run, DueRows;
    DueRowsAre(Run(history).peaks, today, billable);
    forall k | k in Run(history).peaks && k.day < today && k.tenant != LEGACY_TENANT_ID && k.tenant in billable
      ensures k in Run(history + steps).peaks && Run(history + steps).peaks[k].reported
    {
      if k in rows {
        var i :| 0 <= i < |rows| && rows[i] == k;
        assert (history + steps)[|history| + i] == steps[i];
        MarkedStays(history + steps, |history| + i);
      } else {
        ReportedStays(history, steps, k);
      }
    }
  }

  lemma {:induction false} ReportedStays(history: seq<Step>, steps: seq<Step>, k: Key)
    requires Possible(history) && Possible(history + steps) && k in Run(history).peaks && Run(history).peaks[k].reported
    ensures k in Run(history + steps).peaks && Run(history + steps).peaks[k].reported
    decreases |steps|
  {
    if steps == [] {
      assert history + steps == history;
    } else {
      var before := steps[..|steps| - 1];
      assert (history + steps)[..|history + steps| - 1] == history + before;
      ReportedStays(history, before, k);
    }
  }

  lemma Associates(a: seq<Step>, b: seq<Step>, s: Step)
    ensures (a + b) + [s] == a + (b + [s])
  {
  }

  lemma MarkedMore(steps: seq<Step>, s: Step)
    ensures Marked(steps + [s]) == Marked(steps) + if s.Send? && Marks(s.reply) then 1 else 0
  {
  }

  class UsageBooks {
    var peaks: map<Key, Entry>
    /** What the meter has counted; Stripe's, not ours. */
    var meter: map<Key, nat>
    ghost var history: seq<Step>

    ghost predicate Valid()
      reads this
    {
      Possible(history) && Run(history) == Books(peaks, meter)
    }

    constructor ()
      ensures Valid() && history == []
    {
      peaks, meter, history := map[], map[], [];
    }

    /** One upsert. */
    method RecordPeak(k: Key, count: nat)
      requires Valid() && Clock(history) <= k.day && k.tenant != LEGACY_TENANT_ID
      modifies this`peaks, this`history
      ensures Valid() && Clock(history) == k.day && history == old(history) + [Sample(k, count)]
    {
      Extend(history, Sample(k, count));
      if k in peaks {
        peaks := peaks[k := Entry(Max(peaks[k].peak, count), peaks[k].reported)];
      } else {
        peaks := peaks[k := Entry(count, false)];
      }
      history := history + [Sample(k, count)];
    }

    /** Hourly: every metered subscriber's count, into today's row. */
    method RecordPeaks(today: nat, subs: seq<Subscriber>)
      requires Valid() && Clock(history) <= today
      requires forall i | 0 <= i < |subs| :: subs[i].tenant != LEGACY_TENANT_ID
      modifies this
      ensures Valid() && history == old(history) + Samples(subs, today)
      ensures Clock(history) <= today && meter == old(meter)
    {
      var i := 0;
      while i < |subs|
        invariant 0 <= i <= |subs|
        invariant Valid() && Clock(history) <= today && meter == old(meter)
        invariant history == old(history) + Samples(subs[..i], today)
      {
        SamplesMore(subs, i, today);
        if subs[i].metered {
          Associates(old(history), Samples(subs[..i], today), Sample(Key(subs[i].tenant, today), subs[i].devices));
          RecordPeak(Key(subs[i].tenant, today), subs[i].devices);
        }
        i := i + 1;
      }
      assert subs[..i] == subs;
    }

    /** The meter's side of one event. */
    method Receive(k: Key, value: nat, reply: Reply)
      modifies this`meter
      ensures meter == if Counts(reply) && k !in old(meter) then old(meter)[k := value] else old(meter)
    {
      if Counts(reply) && k !in meter {
        meter := meter[k := value];
      }
    }

    /** One row: the event, then the mark. */
    method ReportRow(k: Key, today: nat, reply: Reply)
      requires Valid() && Clock(history) <= today && k in peaks && Due(peaks[k], k, today)
      requires reply.AlreadyExists? ==> k in meter
      modifies this
      ensures Valid() && Clock(history) <= today && history == old(history) + [Send(k, today, reply)]
      ensures peaks == if Marks(reply) then old(peaks)[k := old(peaks)[k].(reported := true)] else old(peaks)
      ensures old(meter).Keys <= meter.Keys
    {
      Extend(history, Send(k, today, reply));
      Receive(k, peaks[k].peak, reply);
      if Marks(reply) {
        peaks := peaks[k := peaks[k].(reported := true)];
      }
      history := history + [Send(k, today, reply)];
    }

    /** Offers every finished day's row that is not yet reported and whose tenant still has a
        metered price. Returns how many rows it marked; `done` is false if the process stopped. */
    method ReportMeters(today: nat, billable: set<nat>, replies: Replies)
      returns (sent: nat, done: bool, ghost rows: seq<Key>, ghost steps: seq<Step>)
      requires Valid() && Clock(history) <= today
      requires forall k | Answer(replies, k).AlreadyExists? :: k in meter
      modifies this
      ensures Valid() && history == old(history) + steps && Clock(history) <= today
      ensures Lists(rows, DueRows(old(peaks), today, billable))
      ensures SendsOf(steps, rows, today, replies) && (done ==> |steps| == |rows|)
      ensures sent == Marked(steps)
    {
      hide Possible, Run;
      var due := FetchRows(today, billable);
      sent, done, rows, steps := 0, true, due, [];
      var i := 0;
      while i < |due| && done
        invariant 0 <= i <= |due| && |steps| == i && SendsOf(steps, due, today, replies)
        invariant Valid() && Clock(history) <= today && history == old(history) + steps
        invariant sent == Marked(steps)
        invariant forall j | i <= j < |due| :: due[j] in peaks && Due(peaks[due[j]], due[j], today)
        invariant old(meter).Keys <= meter.Keys
      {
        var r := Answer(replies, due[i]);
        ReportRow(due[i], today, r);
        ghost var s := Send(due[i], today, r);
        Associates(old(history), steps, s);
        MarkedMore(steps, s);
        steps := steps + [s];
        sent := if Marks(r) then sent + 1 else sent;
        done := !r.Stopped?;
        i := i + 1;
      }
    }

    /** The SELECT: the due rows, in some order. */
    method FetchRows(today: nat, billable: set<nat>) returns (rows: seq<Key>)
      ensures Lists(rows, DueRows(peaks, today, billable))
      ensures forall j | 0 <= j < |rows| :: rows[j] in peaks && Due(peaks[rows[j]], rows[j], today)
    {
      rows := [];
      var rest := DueRows(peaks, today, billable);
      while rest != {}
        invariant Lists(rows, DueRows(peaks, today, billable) - rest)
        invariant rest <= DueRows(peaks, today, billable)
        invariant forall j | 0 <= j < |rows| :: rows[j] in peaks && Due(peaks[rows[j]], rows[j], today)
        decreases |rest|
      {
        var k :| k in rest;
        rest := rest - {k};
        rows := rows + [k];
      }
    }
  }
}

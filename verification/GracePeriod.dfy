/**
 When an extended grace period is honoured: exactly when no purge was already queued or at
 work as it was extended.
 */
module GracePeriod {
  import opened Util
  import opened Domains
  import opened Lifecycle
  import opened LifecycleSafety
  import opened Queues

  /** A purge that still has its write before it. */
  predicate PurgePending(jobs: seq<Job>) {
    exists i :: 0 <= i < |jobs| && jobs[i].kind == PurgeTenant && (jobs[i].state == Queued || jobs[i].state.Working?)
  }

  /** Nothing asks for a purge before `until`: none by hand, and no daily pass at or after it. */
  predicate Quiet(step: Step, until: nat) {
    && ((step.Queue? || step.QueueUnchecked?) ==> step.kind != PurgeTenant)
    && (step.Daily? ==> step.now < until)
  }

  predicate AllQuiet(steps: seq<Step>, until: nat) {
    forall step | step in steps :: Quiet(step, until)
  }

  ghost predicate ReactivatedIn(s: Office, steps: seq<Step>)
    decreases |steps|
  {
    steps != [] && (TakesEffect(s, steps[0], ReactivateTenant) || ReactivatedIn(After(s, steps[0]), steps[1..]))
  }

  /** The tenant is kept until its extended grace period ends, unless it is reactivated first,
      whatever else happens. */
  ghost predicate Honoured(s: Office, until: nat) {
    forall steps | AllQuiet(steps, until) && HasStatus(Run(s, steps), {Purged}) :: ReactivatedIn(s, steps)
  }

  // No purge pending: honoured

  predicate Held(s: Office, until: nat) {
    && HasStatus(s, {Cancelled}) && s.tenant.value.purgeAfter.Some? && until <= s.tenant.value.purgeAfter.value
    && !PurgePending(s.jobs)
  }

  lemma HeldNext(s: Office, step: Step, until: nat)
    requires Inv(s) && Held(s, until) && Quiet(step, until)
    ensures Held(After(s, step), until) || TakesEffect(s, step, ReactivateTenant)
  {
  }

  lemma {:induction false} HeldRun(s: Office, steps: seq<Step>, until: nat)
    requires Inv(s) && Held(s, until) && AllQuiet(steps, until)
    ensures Held(Run(s, steps), until) || ReactivatedIn(s, steps)
    decreases |steps|
  {
    hide After, Inv, Held, Quiet, TakesEffect;
    if steps != [] {
      assert steps[0] in steps && forall step | step in steps[1..] :: step in steps;
      HeldNext(s, steps[0], until);
      InvNext(s, steps[0]);
      if Held(After(s, steps[0]), until) {
        HeldRun(After(s, steps[0]), steps[1..], until);
      }
    }
  }

  // A purge pending: some quiet run purges the tenant

  lemma Prepend(s: Office, step: Step, rest: seq<Step>)
    ensures Run(s, [step] + rest) == Run(After(s, step), rest)
    ensures ReactivatedIn(s, [step] + rest) <==> TakesEffect(s, step, ReactivateTenant) || ReactivatedIn(After(s, step), rest)
  {
    assert ([step] + rest)[1..] == rest;
  }

  ghost predicate Purges(s: Office, steps: seq<Step>, until: nat) {
    AllQuiet(steps, until) && HasStatus(Run(s, steps), {Purged}) && !ReactivatedIn(s, steps)
  }

  lemma PurgesLater(s: Office, step: Step, rest: seq<Step>, until: nat)
    requires Quiet(step, until) && !TakesEffect(s, step, ReactivateTenant) && Purges(After(s, step), rest, until)
    ensures Purges(s, [step] + rest, until)
  {
    Prepend(s, step, rest);
    forall x | x in [step] + rest ensures Quiet(x, until) {
      assert x == step || x in rest;
    }
  }

  lemma WorkingPurgeWrites(s: Office, until: nat)
    requires Inv(s) && HasStatus(s, {Cancelled}) && BusyJob(s.jobs) < |s.jobs|
    requires s.jobs[BusyJob(s.jobs)].kind == PurgeTenant && s.jobs[BusyJob(s.jobs)].state.Working?
    ensures Purges(s, [JobWrites(0)], until)
  {
    var step := JobWrites(0);
    assert HasStatus(After(s, step), {Purged});
    assert Run(After(s, step), []) == After(s, step) && !ReactivatedIn(After(s, step), []);
    PurgesLater(s, step, [], until);
    assert [step] + [] == [step];
  }

  lemma OtherJobEnds(s: Office)
    requires Inv(s) && HasStatus(s, {Cancelled}) && PurgePending(s.jobs) && BusyJob(s.jobs) < |s.jobs|
    requires s.jobs[BusyJob(s.jobs)].kind != PurgeTenant || s.jobs[BusyJob(s.jobs)].state.Wrote?
    ensures var next := After(s, JobEnds);
            HasStatus(next, {Cancelled}) && PurgePending(next.jobs) && NoBusyJob(next.jobs) && Waiting(next.jobs) == Waiting(s.jobs)
  {
    var b := BusyJob(s.jobs);
    var i :| 0 <= i < |s.jobs| && s.jobs[i].kind == PurgeTenant && (s.jobs[i].state == Queued || s.jobs[i].state.Working?);
    assert After(s, JobEnds).jobs[i] == s.jobs[i];
    SetJob(s.jobs, b, Over);
  }

  lemma FirstJobStarts(s: Office)
    requires Inv(s) && HasStatus(s, {Cancelled}) && PurgePending(s.jobs) && NoBusyJob(s.jobs)
    ensures FirstQueued(s.jobs) < |s.jobs|
    ensures s.jobs[FirstQueued(s.jobs)].kind != PurgeTenant ==>
              HasStatus(After(s, StartJob(0)), {Cancelled}) && PurgePending(After(s, StartJob(0)).jobs)
              && Waiting(After(s, StartJob(0)).jobs) == Waiting(s.jobs) - 1
  {
    var i :| 0 <= i < |s.jobs| && s.jobs[i].kind == PurgeTenant && (s.jobs[i].state == Queued || s.jobs[i].state.Working?);
    assert FirstQueued(s.jobs) <= i;
    StartedJob(s, 0);
    if s.jobs[FirstQueued(s.jobs)].kind != PurgeTenant {
      assert After(s, StartJob(0)).jobs[i] == s.jobs[i];
    }
  }

  /** Once the tenant no longer follows Stripe, nothing keeps a waiting purge from starting. */
  lemma FirstPurgeRuns(s: Office, until: nat)
    requires Inv(s) && HasStatus(s, {Cancelled}) && NoBusyJob(s.jobs) && FirstQueued(s.jobs) < |s.jobs|
    requires s.jobs[FirstQueued(s.jobs)].kind == PurgeTenant
    ensures Purges(s, [SetMode(Manual), StartJob(0), JobWrites(0)], until)
  {
    var s1 := After(s, SetMode(Manual));
    var s2 := After(s1, StartJob(0));
    InvNext(s, SetMode(Manual));
    InvNext(s1, StartJob(0));
    assert s1.jobs == s.jobs && MayPurge(s1);
    StartedJob(s1, 0);
    WorkingPurgeWrites(s2, until);
    PurgesLater(s1, StartJob(0), [JobWrites(0)], until);
    PurgesLater(s, SetMode(Manual), [StartJob(0), JobWrites(0)], until);
    assert [SetMode(Manual)] + [StartJob(0), JobWrites(0)] == [SetMode(Manual), StartJob(0), JobWrites(0)];
    assert [StartJob(0)] + [JobWrites(0)] == [StartJob(0), JobWrites(0)];
  }

  /** The jobs before the purge may all fail, and then the purge runs. */
  lemma {:induction false} PendingPurgeRuns(s: Office, until: nat) returns (steps: seq<Step>)
    requires Inv(s) && HasStatus(s, {Cancelled}) && PurgePending(s.jobs)
    ensures Purges(s, steps, until)
    decreases Waiting(s.jobs), if NoBusyJob(s.jobs) then 0 else 1
  {
    hide Inv, After, Purges, PurgePending, TakesEffect;
    var b := BusyJob(s.jobs);
    if b < |s.jobs| {
      if s.jobs[b].kind == PurgeTenant && s.jobs[b].state.Working? {
        WorkingPurgeWrites(s, until);
        return [JobWrites(0)];
      }
      OtherJobEnds(s);
      InvNext(s, JobEnds);
      steps := PendingPurgeRuns(After(s, JobEnds), until);
      OnlyWritesTakeEffect(s, JobEnds);
      PurgesLater(s, JobEnds, steps, until);
      return [JobEnds] + steps;
    }
    FirstJobStarts(s);
    if s.jobs[FirstQueued(s.jobs)].kind == PurgeTenant {
      FirstPurgeRuns(s, until);
      return [SetMode(Manual), StartJob(0), JobWrites(0)];
    }
    InvNext(s, StartJob(0));
    steps := PendingPurgeRuns(After(s, StartJob(0)), until);
    OnlyWritesTakeEffect(s, StartJob(0));
    PurgesLater(s, StartJob(0), steps, until);
    return [StartJob(0)] + steps;
  }

  lemma OnlyWritesTakeEffect(s: Office, step: Step)
    requires !step.JobWrites?
    ensures !TakesEffect(s, step, ReactivateTenant)
  {
  }

  /** An extension of the grace period is honoured exactly when no purge is pending as it is made:
      purge_now compares the end with the clock only through whoever queues it. */
  lemma ExtensionHonouredExactly(s: Office, days: nat)
    requires Inv(s) && HasStatus(s, {Cancelled}) && s.tenant.value.purgeAfter.Some?
    ensures var next := After(s, ExtendGrace(days));
            Honoured(next, next.tenant.value.purgeAfter.value) <==> !PurgePending(s.jobs)
  {
    var next := After(s, ExtendGrace(days));
    var until := next.tenant.value.purgeAfter.value;
    InvNext(s, ExtendGrace(days));
    assert next.jobs == s.jobs;
    if PurgePending(s.jobs) {
      var steps := PendingPurgeRuns(next, until);
    } else {
      forall steps | AllQuiet(steps, until) && HasStatus(Run(next, steps), {Purged}) ensures ReactivatedIn(next, steps) {
        HeldRun(next, steps, until);
      }
    }
  }
}

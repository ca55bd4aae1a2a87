/**
 What holds on every run of a tenant's life, in any order of console actions, timers,
 syncs, queued jobs and restarts.
 */
module LifecycleSafety {
  import opened Util
  import opened Domains
  import opened Lifecycle

  // The invariant

  ghost predicate OneBusy(jobs: seq<Job>) {
    forall i, j | 0 <= i < |jobs| && 0 <= j < |jobs| && Busy(jobs[i]) && Busy(jobs[j]) :: i == j
  }

  /** What a job at work may rely on when it writes. */
  predicate StillFits(s: Office, j: Job) {
    j.state.Working? && s.tenant.Some? ==>
      var now := s.tenant.value.status;
      match j.kind
      case CancelTenant => s.id != LEGACY && (IsOpen(now) || now == Suspended)
      case ReactivateTenant =>
        && (j.state.row.status == Cancelled || j.state.row.status == Suspended)
        && (j.state.row.status == Cancelled ==> now == Cancelled)
        && (j.state.row.status == Suspended ==> IsOpen(now) || now == Suspended)
      case PurgeTenant => s.id != LEGACY && (now == Cancelled || now == Purged)
      case RelayAction => true
  }

  predicate TenantOk(s: Office) {
    s.tenant.Some? ==>
      && (IsOpen(s.tenant.value.status) ==> !s.tenant.value.billingSuspended)
      && (s.id == LEGACY ==> s.tenant.value.status != Cancelled && s.tenant.value.status != Purged)
  }

  ghost predicate Inv(s: Office) {
    && TenantOk(s)
    && OneBusy(s.jobs)
    && forall i | 0 <= i < |s.jobs| :: StillFits(s, s.jobs[i])
  }

  /** The step is the final write of a job of this kind. */
  predicate TakesEffect(s: Office, step: Step, kind: JobKind) {
    && step.JobWrites? && s.tenant.Some?
    && BusyJob(s.jobs) < |s.jobs| && s.jobs[BusyJob(s.jobs)].state.Working? && s.jobs[BusyJob(s.jobs)].kind == kind
  }

  /** Steps other than a job's write move the tenant only among the open statuses, suspended
      and gone. */
  lemma StatusMoves(s: Office, step: Step)
    requires Inv(s) && s.tenant.Some? && !step.JobWrites?
    ensures var t' := After(s, step).tenant;
            var now := s.tenant.value.status;
            if t'.None? then IsOpen(now)
            else (t'.value.status == now || ((IsOpen(now) || now == Suspended) && (IsOpen(t'.value.status) || t'.value.status == Suspended)))
    ensures TenantOk(After(s, step)) && After(s, step).id == s.id
  {
  }

  lemma OthersKeepFit(s: Office, step: Step, j: Job)
    requires Inv(s) && StillFits(s, j) && !step.JobWrites?
    ensures StillFits(After(s, step), j)
  {
  }

  lemma OneBusyNext(s: Office, step: Step)
    requires OneBusy(s.jobs)
    ensures OneBusy(After(s, step).jobs)
  {
    hide Written, Accepts, MayQueue, PastDueNoted, Clamp;
  }

  lemma WriteKeeps(s: Office, now: nat)
    requires Inv(s)
    ensures TenantOk(After(s, JobWrites(now)))
    ensures forall k | 0 <= k < |After(s, JobWrites(now)).jobs| :: StillFits(After(s, JobWrites(now)), After(s, JobWrites(now)).jobs[k])
  {
  }

  lemma InvNext(s: Office, step: Step)
    requires Inv(s)
    ensures Inv(After(s, step))
  {
    hide OneBusy;
    OneBusyNext(s, step);
    var s' := After(s, step);
    if step.JobWrites? {
      WriteKeeps(s, step.now);
    } else {
      if s.tenant.Some? { StatusMoves(s, step); }
      forall k | 0 <= k < |s'.jobs| ensures StillFits(s', s'.jobs[k]) {
        if k < |s.jobs| && s'.jobs[k] == s.jobs[k] {
          OthersKeepFit(s, step, s.jobs[k]);
        }
      }
    }
  }

  lemma {:induction false} InvRun(s: Office, steps: seq<Step>)
    requires Inv(s)
    ensures Inv(Run(s, steps))
    decreases |steps|
  {
    if steps != [] {
      InvNext(s, steps[0]);
      InvRun(After(s, steps[0]), steps[1..]);
    }
  }

  // Cancelled and purged

  /** Which steps lead into and out of 'cancelled' and 'purged'. */
  lemma ClosedStatuses(s: Office, step: Step)
    requires Inv(s) && s.tenant.Some?
    ensures HasStatus(After(s, step), {Purged}) && !HasStatus(s, {Purged}) ==>
              HasStatus(s, {Cancelled}) && TakesEffect(s, step, PurgeTenant)
    ensures HasStatus(s, {Purged}) ==> HasStatus(After(s, step), {Purged})
    ensures HasStatus(After(s, step), {Cancelled}) && !HasStatus(s, {Cancelled}) ==>
              HasStatus(s, {InTrial, InService, Suspended}) && TakesEffect(s, step, CancelTenant)
    ensures HasStatus(s, {Cancelled}) && !HasStatus(After(s, step), {Cancelled}) ==>
              TakesEffect(s, step, PurgeTenant) || TakesEffect(s, step, ReactivateTenant)
  {
  }

  lemma {:induction false} PurgedForGood(s: Office, steps: seq<Step>)
    requires Inv(s) && HasStatus(s, {Purged})
    ensures HasStatus(Run(s, steps), {Purged})
    decreases |steps|
  {
    if steps != [] {
      InvNext(s, steps[0]);
      ClosedStatuses(s, steps[0]);
      PurgedForGood(After(s, steps[0]), steps[1..]);
    }
  }

  /** Tenant #1 is never cancelled or purged, whatever is queued. */
  lemma LegacyStays(steps: seq<Step>, mode: Mode, trialEnds: Option<nat>, billing: Option<Billing>)
    ensures !HasStatus(Run(Created(LEGACY, mode, trialEnds, billing), steps), {Cancelled, Purged})
  {
    InvRun(Created(LEGACY, mode, trialEnds, billing), steps);
    IdStays(Created(LEGACY, mode, trialEnds, billing), steps);
  }

  lemma {:induction false} IdStays(s: Office, steps: seq<Step>)
    ensures Run(s, steps).id == s.id
    decreases |steps|
  {
    if steps != [] {
      IdStays(After(s, steps[0]), steps[1..]);
    }
  }

  /** A cancellation takes effect somewhere in the run. */
  ghost predicate CancelledIn(s: Office, steps: seq<Step>)
    decreases |steps|
  {
    steps != [] && (TakesEffect(s, steps[0], CancelTenant) || CancelledIn(After(s, steps[0]), steps[1..]))
  }

  lemma GoneForGood(s: Office, steps: seq<Step>)
    requires s.tenant.None?
    ensures Run(s, steps).tenant.None?
    decreases |steps|
  {
    if steps != [] {
      GoneForGood(After(s, steps[0]), steps[1..]);
    }
  }

  lemma {:induction false} ClosingNeedsCancellation(s: Office, steps: seq<Step>)
    requires Inv(s) && HasStatus(s, {InTrial, InService, Suspended})
    requires HasStatus(Run(s, steps), {Cancelled, Purged})
    ensures CancelledIn(s, steps)
    decreases |steps|
  {
    if steps != [] {
      var s' := After(s, steps[0]);
      InvNext(s, steps[0]);
      ClosedStatuses(s, steps[0]);
      if s'.tenant.None? {
        GoneForGood(s', steps[1..]);
      } else if HasStatus(s', {InTrial, InService, Suspended}) {
        ClosingNeedsCancellation(s', steps[1..]);
      }
    }
  }

  /** A reactivation and a later purge both take effect only with a cancellation in between,
      and after a purge no reactivation takes effect any more. */
  lemma ReactivateOrPurge(s: Office, between: seq<Step>, first: Step, second: Step)
    requires Inv(s)
    ensures TakesEffect(s, first, ReactivateTenant) && TakesEffect(Run(After(s, first), between), second, PurgeTenant) ==>
              CancelledIn(After(s, first), between)
    ensures TakesEffect(s, first, PurgeTenant) ==>
              !TakesEffect(Run(After(s, first), between), second, ReactivateTenant)
  {
    var s1 := After(s, first);
    InvNext(s, first);
    InvRun(s1, between);
    var s2 := Run(s1, between);
    var i := BusyJob(s2.jobs);
    assert i < |s2.jobs| ==> StillFits(s2, s2.jobs[i]);
    if TakesEffect(s, first, ReactivateTenant) && TakesEffect(s2, second, PurgeTenant) {
      ClosingNeedsCancellation(s1, between);
    }
    if TakesEffect(s, first, PurgeTenant) {
      PurgedForGood(s1, between);
    }
  }

  // The purge does not read the grace period again

  lemma PurgeQueued(s: Office, now: nat, days: nat)
    requires s.jobs == [] && HasStatus(s, {Cancelled}) && MayPurge(s)
    requires s.tenant.value.purgeAfter.Some? && s.tenant.value.purgeAfter.value <= now
    ensures var s2 := After(After(s, Daily(now)), ExtendGrace(days));
            s2.jobs == [Job(PurgeTenant, Queued)] && HasStatus(s2, {Cancelled}) && MayPurge(s2)
  {
  }

  lemma PurgeRuns(s: Office, now: nat, done: nat)
    requires s.jobs == [Job(PurgeTenant, Queued)] && HasStatus(s, {Cancelled}) && MayPurge(s)
    ensures HasStatus(After(After(s, StartJob(now)), JobWrites(done)), {Purged})
  {
  }

  lemma FourSteps(s: Office, a: Step, b: Step, c: Step, d: Step)
    ensures Run(s, [a, b, c, d]) == After(After(After(After(s, a), b), c), d)
  {
    hide After;
    assert [a, b, c, d][1..] == [b, c, d] && [b, c, d][1..] == [c, d] && [c, d][1..] == [d] && [d][1..] == [];
    assert Run(After(After(After(s, a), b), c), [d]) == After(After(After(After(s, a), b), c), d);
    assert Run(After(After(s, a), b), [c, d]) == Run(After(After(After(s, a), b), c), [d]);
    assert Run(After(s, a), [b, c, d]) == Run(After(After(s, a), b), [c, d]);
  }

  /** Once queued, a purge takes effect even if the grace period was extended meanwhile, by
      however much: its end is compared with the clock only when the purge is queued. */
  lemma ExtensionAfterQueueing(s: Office, now: nat, days: nat, later: nat, done: nat)
    requires s.jobs == [] && HasStatus(s, {Cancelled}) && MayPurge(s)
    requires s.tenant.value.purgeAfter.Some? && s.tenant.value.purgeAfter.value <= now
    ensures HasStatus(Run(s, [Daily(now), ExtendGrace(days), StartJob(later), JobWrites(done)]), {Purged})
  {
    hide After;
    FourSteps(s, Daily(now), ExtendGrace(days), StartJob(later), JobWrites(done));
    PurgeQueued(s, now, days);
    PurgeRuns(After(After(s, Daily(now)), ExtendGrace(days)), later, done);
  }

  // The queue

  ghost predicate OneActive(jobs: seq<Job>) {
    forall i, j | 0 <= i < |jobs| && 0 <= j < |jobs| && IsActive(jobs[i]) && IsActive(jobs[j]) :: i == j
  }

  lemma OneActiveNext(s: Office, step: Step)
    requires OneActive(s.jobs) && !step.QueueUnchecked?
    ensures OneActive(After(s, step).jobs)
  {
    hide Written, Accepts, MayQueue, PastDueNoted, Clamp;
  }

  /** Every caller of enqueue looks for an active job first, so a tenant never has two. */
  lemma {:induction false} AtMostOneActive(s: Office, steps: seq<Step>)
    requires OneActive(s.jobs) && forall step | step in steps :: !step.QueueUnchecked?
    ensures OneActive(Run(s, steps).jobs)
    decreases |steps|
  {
    hide After, OneActive;
    if steps != [] {
      assert steps[0] in steps;
      assert forall step | step in steps[1..] :: step in steps;
      OneActiveNext(s, steps[0]);
      AtMostOneActive(After(s, steps[0]), steps[1..]);
    }
  }
}

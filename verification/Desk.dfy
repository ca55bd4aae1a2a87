/**
 A tenant's records as the console, the timers, the billing code and the job worker update
 them in place.
 */
module Desks {
  import opened Util
  import opened Domains
  import opened Lifecycle
  import opened LifecycleSafety
  import opened Queues

  class Desk {
    const id: nat
    var tenant: Option<Tenant>
    var billing: Option<Billing>
    var jobs: seq<Job>

    function State(): Office
      reads this
    {
      Office(id, tenant, billing, jobs)
    }

    constructor (id: nat, mode: Mode, trialEnds: Option<nat>, billing: Option<Billing>)
      ensures State() == Created(id, mode, trialEnds, billing)
    {
      this.id := id;
      this.tenant := Some(Tenant(InTrial, mode, false, trialEnds, None));
      this.billing := billing;
      this.jobs := [];
    }

    method Enqueue(kind: JobKind)
      modifies this`jobs
      ensures State() == After(old(State()), QueueUnchecked(kind))
    {
      jobs := jobs + [Job(kind, Queued)];
    }

    method ActiveFor() returns (active: bool)
      ensures active == !NoActiveJob(jobs)
    {
      active := false;
      for i := 0 to |jobs|
        invariant active <==> exists k :: 0 <= k < i && IsActive(jobs[k])
      {
        if jobs[i].state != Over {
          active := true;
        }
      }
    }

    /** Unless another job waits or is at work. */
    method EnqueueIfFree(kind: JobKind)
      modifies this`jobs
      ensures jobs == old(jobs) + (if NoActiveJob(old(jobs)) then [Job(kind, Queued)] else [])
    {
      var active := ActiveFor();
      if !active {
        Enqueue(kind);
      }
    }

    // Console

    method Suspend() returns (ok: bool)
      modifies this`tenant
      ensures State() == After(old(State()), Step.Suspend) && ok == HasStatus(old(State()), {InTrial, InService})
    {
      ok := tenant.Some? && (tenant.value.status == InTrial || tenant.value.status == InService);
      if ok {
        tenant := Some(tenant.value.(status := Suspended, billingSuspended := false));
      }
    }

    method Activate() returns (ok: bool)
      modifies this`tenant
      ensures State() == After(old(State()), Step.Activate) && ok == HasStatus(old(State()), {InTrial})
    {
      ok := tenant.Some? && tenant.value.status == InTrial;
      if ok {
        tenant := Some(tenant.value.(status := InService, trialEnds := None));
      }
    }

    method ExtendTrial(days: nat, now: nat) returns (ends: Option<nat>)
      modifies this`tenant
      ensures State() == After(old(State()), Step.ExtendTrial(days, now))
      ensures ends.Some? ==> tenant.Some? && tenant.value.trialEnds == ends && now < ends.value
    {
      if tenant.None? || tenant.value.trialEnds.None? || tenant.value.status !in {InTrial, Suspended} {
        return None;
      }
      var base := if tenant.value.trialEnds.value < now then now else tenant.value.trialEnds.value;
      ends := Some(base + Clamp(days) * DAY);
      tenant := Some(tenant.value.(trialEnds := ends));
    }

    method ExtendGrace(days: nat) returns (until: Option<nat>)
      modifies this`tenant
      ensures State() == After(old(State()), Step.ExtendGrace(days))
      ensures until.Some? ==> tenant.Some? && tenant.value.purgeAfter == until
    {
      if tenant.None? || tenant.value.status != Cancelled || tenant.value.purgeAfter.None? {
        return None;
      }
      until := Some(tenant.value.purgeAfter.value + Clamp(days) * DAY);
      tenant := Some(tenant.value.(purgeAfter := until));
    }

    method SetMode(mode: Mode)
      modifies this`tenant
      ensures State() == After(old(State()), Step.SetMode(mode))
    {
      if id == LEGACY || tenant.None? || (mode == Stripe && billing.None?) {
        return;
      }
      tenant := Some(tenant.value.(mode := mode));
    }

    /** The console's buttons: `_lifecycle_target`, the action's own test, then `_queue`. */
    method QueueJob(kind: JobKind)
      modifies this`jobs
      ensures State() == After(old(State()), Step.Queue(kind))
    {
      if tenant.None? || tenant.value.status == Purged {
        return;
      }
      if (kind == CancelTenant || kind == PurgeTenant) && id == LEGACY {
        return;
      }
      if kind == CancelTenant && tenant.value.mode == Stripe && tenant.value.status == Cancelled {
        return;
      }
      if kind == PurgeTenant {
        if tenant.value.mode == Stripe && billing.Some? && billing.value.status !in {Canceled, IncompleteExpired} {
          return;
        }
        if tenant.value.status != Cancelled {
          return;
        }
      }
      if kind == ReactivateTenant && tenant.value.status !in {Suspended, Cancelled} {
        return;
      }
      EnqueueIfFree(kind);
    }

    /** `daily`: purges that are due, then trials that are over. */
    method Daily(now: nat)
      modifies this`tenant, this`jobs
      ensures State() == After(old(State()), Step.Daily(now))
    {
      if tenant.Some? && tenant.value.status == Cancelled && tenant.value.purgeAfter.Some? {
        if tenant.value.purgeAfter.value <= now {
          EnqueueIfFree(PurgeTenant);
        }
      }
      if && tenant.Some? && tenant.value.status == InTrial && tenant.value.trialEnds.Some?
         && id != LEGACY && tenant.value.mode == Manual
      {
        if tenant.value.trialEnds.value <= now {
          tenant := Some(tenant.value.(status := Suspended));
        }
      }
    }

    // Billing

    method SyncSubscription(sub: Sub, trialEnd: Option<nat>, now: nat, days: nat)
      modifies this`tenant, this`billing, this`jobs
      ensures State() == After(old(State()), Step.Sync(sub, trialEnd, now, days))
    {
      if billing.None? || id == LEGACY {
        return;
      }
      billing := Some(billing.value.(status := sub));
      ApplyStatus(sub, trialEnd, now, days);
    }

    method ApplyStatus(sub: Sub, trialEnd: Option<nat>, now: nat, days: nat)
      requires billing.Some?
      modifies this`tenant, this`billing, this`jobs
      ensures State() == if !Applies(old(State())) then old(State())
                         else Followed(old(State()).(billing := Some(PastDueNoted(old(billing.value), sub, now))),
                                       sub, trialEnd, now, days, old(billing.value.pastDueSince))
      ensures Applies(old(State())) && sub == Canceled ==>
                && tenant == old(tenant)
                && jobs == old(jobs) + if HasStatus(old(State()), {InTrial, InService, Suspended}) && NoActiveJob(old(jobs))
                                       then [Job(CancelTenant, Queued)] else []
    {
      if tenant.None? || id == LEGACY || tenant.value.mode != Stripe || tenant.value.status == Purged {
        return;
      }
      var t := tenant.value;
      var bs := billing.value;
      NotePastDue(sub, now);
      var ends := if sub == Trialing then trialEnd else None;
      var want := if sub == Trialing then InTrial else InService;
      if Good(sub) && (t.status == InTrial || t.status == InService) {
        if t.status != want || t.trialEnds != ends {
          tenant := Some(t.(status := want, trialEnds := ends));
        }
      } else if Good(sub) && t.status == Suspended && t.billingSuspended {
        tenant := Some(t.(status := want, trialEnds := ends, billingSuspended := false));
      } else if Good(sub) && t.status == Cancelled && t.purgeAfter.Some? && t.purgeAfter.value > now {
        EnqueueIfFree(ReactivateTenant);
      } else if sub == PastDue && (t.status == InTrial || t.status == InService) {
        var since := if bs.pastDueSince.Some? then bs.pastDueSince.value else now;
        if now >= since + days * DAY {
          BillingSuspend();
        }
      } else if (sub == Unpaid || sub == Paused) && (t.status == InTrial || t.status == InService) {
        BillingSuspend();
      } else if sub == Canceled && t.status in {InTrial, InService, Suspended} {
        EnqueueIfFree(CancelTenant);
      } else if sub == IncompleteExpired && (t.status == InTrial || t.status == InService) {
        tenant := None;
        billing := None;
      }
    }

    /** past_due_since: set by the first past-due sync, cleared by any other. */
    method NotePastDue(sub: Sub, now: nat)
      requires billing.Some?
      modifies this`billing
      ensures billing == Some(PastDueNoted(old(billing.value), sub, now))
    {
      var bs := billing.value;
      if sub == PastDue && bs.pastDueSince.None? {
        billing := Some(bs.(pastDueSince := Some(now)));
      } else if sub != PastDue && bs.pastDueSince.Some? {
        billing := Some(bs.(pastDueSince := None));
      }
    }

    method BillingSuspend()
      requires tenant.Some?
      modifies this`tenant
      ensures tenant == Some(old(tenant.value).(status := Suspended, billingSuspended := true))
    {
      tenant := Some(tenant.value.(status := Suspended, billingSuspended := true));
    }

    // The worker

    method StartJob(now: nat)
      modifies this`jobs
      ensures State() == After(old(State()), Step.StartJob(now))
    {
      var i := FirstQueued(jobs);
      var b := BusyJob(jobs);
      if i == |jobs| || b < |jobs| {
        return;
      }
      if Accepts(State(), jobs[i].kind, now) {
        jobs := jobs[i := jobs[i].(state := Working(tenant.value))];
      } else {
        jobs := jobs[i := jobs[i].(state := Over)];
      }
    }

    method JobWrites(now: nat)
      modifies this`tenant, this`jobs
      ensures State() == After(old(State()), Step.JobWrites(now))
    {
      var i := BusyJob(jobs);
      if i == |jobs| || !jobs[i].state.Working? {
        return;
      }
      var kind, row := jobs[i].kind, jobs[i].state.row;
      jobs := jobs[i := jobs[i].(state := Wrote)];
      if tenant.None? {
        return;
      }
      match kind {
        case CancelTenant =>
          tenant := Some(tenant.value.(status := Cancelled, purgeAfter := Some(now + GRACE)));
        case ReactivateTenant =>
          var backOnTrial := row.trialEnds.Some? && row.trialEnds.value > now;
          tenant := Some(tenant.value.(status := if backOnTrial then InTrial else InService, purgeAfter := None,
                                       billingSuspended := false));
          if !backOnTrial {
            tenant := Some(tenant.value.(trialEnds := None));
          }
        case PurgeTenant =>
          tenant := Some(tenant.value.(status := Purged));
        case RelayAction =>
      }
    }

    method JobEnds()
      modifies this`jobs
      ensures State() == After(old(State()), Step.JobEnds)
    {
      var i := BusyJob(jobs);
      if i < |jobs| {
        jobs := jobs[i := jobs[i].(state := Over)];
      }
    }

    /** `run_one` with nothing else in between: the first waiting job is started, writes if its
        docker work succeeds, and ends. */
    method RunOne(now: nat, dockerOk: bool)
      modifies this`tenant, this`jobs
      ensures State() == Run(old(State()), OneJob(now, dockerOk))
    {
      ghost var s0 := State();
      StartJob(now);
      ghost var s1 := State();
      if dockerOk {
        JobWrites(now);
      }
      ghost var s2 := State();
      JobEnds();
      OneJobRuns(s0, now, dockerOk);
    }

    /** `run_pending`: the jobs that wait, each in its turn, and no more than those; it leaves none
        waiting or at work. */
    method RunPending(now: nat, dockerOk: nat -> bool) returns (n: nat)
      requires NoBusyJob(jobs)
      modifies this`tenant, this`jobs
      ensures n == Waiting(old(jobs)) && State() == Run(old(State()), Turns(now, dockerOk, n))
      ensures NoActiveJob(jobs)
    {
      hide Run, After, OneJob, Waiting;
      n := 0;
      assert Run(State(), []) == State() by {
        NoSteps(State());
      }
      while FirstQueued(jobs) < |jobs|
        invariant NoBusyJob(jobs)
        invariant n + Waiting(jobs) == Waiting(old(jobs))
        invariant State() == Run(old(State()), Turns(now, dockerOk, n))
        decreases Waiting(jobs)
      {
        OneJobDone(State(), now, dockerOk(n));
        RunSplits(old(State()), Turns(now, dockerOk, n), OneJob(now, dockerOk(n)));
        NoneWaiting(jobs);
        RunOne(now, dockerOk(n));
        n := n + 1;
      }
      NoneWaiting(jobs);
      forall k | 0 <= k < |jobs| ensures !IsActive(jobs[k]) {
        assert jobs[k].state != Queued && !Busy(jobs[k]);
      }
    }

    /** `recover_interrupted`: after a restart every job found at work is over, and the restart
        changed nothing else. */
    method RecoverInterrupted()
      requires OneBusy(jobs)
      modifies this`jobs
      ensures State() == After(old(State()), Step.Restart) && NoBusyJob(jobs)
    {
      for i := 0 to |jobs|
        invariant |jobs| == |old(jobs)|
        invariant forall k | 0 <= k < |jobs| ::
            jobs[k] == if k < i && Busy(old(jobs)[k]) then old(jobs)[k].(state := Over) else old(jobs)[k]
      {
        if jobs[i].state.Working? || jobs[i].state.Wrote? {
          jobs := jobs[i := jobs[i].(state := Over)];
        }
      }
      ghost var b := BusyJob(old(jobs));
      if b < |old(jobs)| {
        assert jobs == old(jobs)[b := old(jobs)[b].(state := Over)];
      } else {
        assert jobs == old(jobs);
      }
    }
  }
}

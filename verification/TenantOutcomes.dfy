/**
 What becomes of a tenant when its subscription is synced, when a job runs for it, and when its
 trial or its grace period ends. Everything here is said of its records, before and after a run.
 */
module TenantOutcomes {
  import opened Util
  import opened Domains
  import opened Lifecycle
  import opened PurgeWindow
  import opened Queues

  /** Nothing waits and nothing is at work. */
  predicate Idle(s: Office) {
    forall j | j in s.jobs :: j.state == Over
  }

  predicate Has(s: Office, status: TenantStatus) {
    s.tenant.Some? && s.tenant.value.status == status
  }

  /** In service or on trial. */
  predicate InUse(s: Office) {
    Has(s, InTrial) || Has(s, InService)
  }

  lemma ThreeSteps(s: Office, a: Step, b: Step, c: Step)
    ensures Run(s, [a, b, c]) == After(After(After(s, a), b), c)
  {
    hide After;
    var s2 := After(After(s, a), b);
    assert [a, b, c][1..] == [b, c] && [b, c][1..] == [c] && [c][1..] == [];
    assert Run(s2, [c]) == After(s2, c);
    assert Run(After(s, a), [b, c]) == Run(s2, [c]);
  }

  lemma IdleIsFree(s: Office)
    ensures Idle(s) <==> NoActiveJob(s.jobs)
  {
    forall i | 0 <= i < |s.jobs| ensures s.jobs[i] in s.jobs {
    }
  }

  /** The only waiting job is started and writes, if its own test lets it. */
  lemma LastJobRuns(s: Office, kind: JobKind, a: nat, b: nat)
    requires Idle(s)
    ensures var q := s.(jobs := s.jobs + [Job(kind, Queued)]);
            var end := After(After(q, StartJob(a)), JobWrites(b));
            end == if Accepts(q, kind, a) && s.tenant.Some?
                   then s.(jobs := s.jobs + [Job(kind, Wrote)], tenant := Some(Written(kind, s.tenant.value, s.tenant.value, b)))
                   else s.(jobs := s.jobs + [Job(kind, Over)])
  {
    hide Written;
    var q := s.(jobs := s.jobs + [Job(kind, Queued)]);
    var n := |s.jobs|;
    LastQueued(s.jobs, kind);
    var started := After(q, StartJob(a));
    assert started.jobs == q.jobs[n := started.jobs[n]];
    forall k | 0 <= k < n ensures !Busy(started.jobs[k]) {
      assert started.jobs[k] == s.jobs[k] && s.jobs[k] in s.jobs;
    }
    if Accepts(q, kind, a) && s.tenant.Some? {
      FirstBusyIs(started.jobs, n);
      assert started.jobs[n := started.jobs[n].(state := Wrote)] == s.jobs + [Job(kind, Wrote)];
    } else {
      assert started.jobs == s.jobs + [Job(kind, Over)];
      if BusyJob(started.jobs) < |started.jobs| {
        assert Busy(started.jobs[BusyJob(started.jobs)]);
      }
    }
  }

  // Jobs by hand

  /** Cancelling: with an idle queue every tenant in use or suspended ends cancelled, with thirty days
      of grace from the moment it is written; any other one, and tenant #1, stays as it is. */
  lemma CancelledByJob(s: Office, a: nat, b: nat)
    requires Idle(s)
    ensures var end := Run(s, [Queue(CancelTenant), StartJob(a), JobWrites(b)]);
            if s.id != 1 && (InUse(s) || Has(s, Suspended)) then
              end.tenant == Some(s.tenant.value.(status := Cancelled, purgeAfter := Some(b + 30 * 86400)))
            else end.tenant == s.tenant
    ensures Run(s, [Queue(CancelTenant), StartJob(a), JobWrites(b)]).billing == s.billing
  {
    QueuedRuns(s, CancelTenant, a, b);
  }

  lemma QueuedRuns(s: Office, kind: JobKind, a: nat, b: nat)
    requires Idle(s)
    ensures var q := s.(jobs := s.jobs + [Job(kind, Queued)]);
            var end := Run(s, [Queue(kind), StartJob(a), JobWrites(b)]);
            && end.billing == s.billing
            && end.tenant == (if MayQueue(s, kind) && Accepts(q, kind, a) && s.tenant.Some?
                              then Some(Written(kind, s.tenant.value, s.tenant.value, b)) else s.tenant)
  {
    hide Written;
    ThreeSteps(s, Queue(kind), StartJob(a), JobWrites(b));
    IdleIsFree(s);
    if MayQueue(s, kind) {
      LastJobRuns(s, kind, a, b);
    } else {
      NothingRuns(s, a, b);
    }
  }

  lemma NoQueued(jobs: seq<Job>)
    requires forall j | j in jobs :: j.state == Over
    ensures FirstQueued(jobs) == |jobs| && BusyJob(jobs) == |jobs|
  {
  }

  /** Reactivating opens a suspended tenant at any time, and a cancelled one exactly if the job starts
      before its grace period is over. It is on trial then if trial time is left, and in service
      without a trial otherwise; no end of grace and no mark of billing remain. */
  lemma ReactivatedByJob(s: Office, a: nat, b: nat)
    requires Idle(s)
    ensures var end := Run(s, [Queue(ReactivateTenant), StartJob(a), JobWrites(b)]);
            var inGrace := Has(s, Cancelled) && s.tenant.value.purgeAfter.Some? && a < s.tenant.value.purgeAfter.value;
            if Has(s, Suspended) || inGrace then
              var t := s.tenant.value;
              var trialLeft := t.trialEnds.Some? && b < t.trialEnds.value;
              end.tenant == Some(Tenant(if trialLeft then InTrial else InService, t.mode, false,
                                        if trialLeft then t.trialEnds else None, None))
            else end.tenant == s.tenant
  {
    QueuedRuns(s, ReactivateTenant, a, b);
  }

  /** A tenant is purged by hand exactly if it is cancelled, is not tenant #1, and does not follow a
      subscription that is still alive. */
  lemma PurgedByJob(s: Office, a: nat, b: nat)
    requires Idle(s)
    ensures var end := Run(s, [Queue(PurgeTenant), StartJob(a), JobWrites(b)]);
            var alive := s.tenant.Some? && s.tenant.value.mode == Stripe && s.billing.Some?
                         && s.billing.value.status != Canceled && s.billing.value.status != IncompleteExpired;
            if Has(s, Cancelled) && s.id != 1 && !alive then end.tenant == Some(s.tenant.value.(status := Purged))
            else end.tenant == s.tenant
  {
    QueuedRuns(s, PurgeTenant, a, b);
  }

  /** A relay's job does not touch the tenant's records. */
  lemma RelayJobIsApart(s: Office, a: nat, b: nat)
    requires Idle(s)
    ensures Run(s, [Queue(RelayAction), StartJob(a), JobWrites(b)]).tenant == s.tenant
    ensures Run(s, [Queue(RelayAction), StartJob(a), JobWrites(b)]).billing == s.billing
  {
    QueuedRuns(s, RelayAction, a, b);
  }

  /** What the console queues: only with an idle queue and a tenant that is not purged; a cancellation or a
      purge not for tenant #1, no cancellation of a Stripe tenant that is cancelled, a purge only of a cancelled tenant that follows no living subscription, a
      reactivation only of a suspended or cancelled one. Otherwise nothing changes. */
  lemma QueuedExactly(s: Office, kind: JobKind)
    ensures var alive := s.tenant.Some? && s.tenant.value.mode == Stripe && s.billing.Some?
                         && s.billing.value.status != Canceled && s.billing.value.status != IncompleteExpired;
            var may := && Idle(s) && s.tenant.Some? && !Has(s, Purged)
                       && (kind == CancelTenant ==> s.id != 1 && !(Has(s, Cancelled) && s.tenant.value.mode == Stripe))
                       && (kind == ReactivateTenant ==> Has(s, Suspended) || Has(s, Cancelled))
                       && (kind == PurgeTenant ==> s.id != 1 && Has(s, Cancelled) && !alive);
            After(s, Queue(kind)) == if may then s.(jobs := s.jobs + [Job(kind, Queued)]) else s
  {
    IdleIsFree(s);
  }

  // Subscriptions

  /** A sync goes on to the tenant: it follows Stripe, is not tenant #1 and not purged. */
  predicate Follows(s: Office) {
    s.id != 1 && s.billing.Some? && s.tenant.Some? && s.tenant.value.mode == Stripe && s.tenant.value.status != Purged
  }

  /** Any other sync at most notes the subscription's status. */
  lemma NotFollowed(s: Office, sub: Sub, trialEnd: Option<nat>, now: nat, days: nat)
    requires !Follows(s)
    ensures var next := After(s, Sync(sub, trialEnd, now, days));
            && next.tenant == s.tenant && next.jobs == s.jobs && next.id == s.id
            && next.billing == if s.billing.Some? && s.id != 1 then Some(s.billing.value.(status := sub)) else s.billing
  {
  }

  /** What a sync notes about the subscription: its status, and since when it is past due. */
  lemma SubscriptionNoted(s: Office, sub: Sub, trialEnd: Option<nat>, now: nat, days: nat)
    requires Follows(s) && !(sub == IncompleteExpired && InUse(s))
    ensures var next := After(s, Sync(sub, trialEnd, now, days));
            && next.billing.Some? && next.billing.value.status == sub
            && next.billing.value.pastDueSince ==
                 if sub != PastDue then None
                 else if s.billing.value.pastDueSince.Some? then s.billing.value.pastDueSince else Some(now)
  {
  }

  /** A canceled subscription closes a tenant in use or suspended: its only job then is the cancellation,
      and once that has run the tenant is cancelled, with thirty days of grace. */
  lemma CanceledCloses(s: Office, trialEnd: Option<nat>, now: nat, days: nat, a: nat, b: nat)
    requires Follows(s) && (InUse(s) || Has(s, Suspended)) && Idle(s)
    ensures var end := Run(s, [Sync(Canceled, trialEnd, now, days), StartJob(a), JobWrites(b)]);
            && end.tenant == Some(s.tenant.value.(status := Cancelled, purgeAfter := Some(b + 30 * 86400)))
            && end.billing == Some(Billing(Canceled, None))
            && end.jobs == s.jobs + [Job(CancelTenant, Wrote)]
  {
    CanceledQueues(s, trialEnd, now, days);
    ThreeSteps(s, Sync(Canceled, trialEnd, now, days), StartJob(a), JobWrites(b));
    LastJobRuns(s.(billing := Some(Billing(Canceled, None))), CancelTenant, a, b);
    hide After, Run;
  }

  lemma CanceledQueues(s: Office, trialEnd: Option<nat>, now: nat, days: nat)
    requires Follows(s) && (InUse(s) || Has(s, Suspended)) && Idle(s)
    ensures After(s, Sync(Canceled, trialEnd, now, days)) ==
              s.(billing := Some(Billing(Canceled, None)), jobs := s.jobs + [Job(CancelTenant, Queued)])
  {
    IdleIsFree(s);
  }

  /** Otherwise, and while another job waits or is at work, it changes neither the tenant nor the queue. */
  lemma CanceledWaits(s: Office, trialEnd: Option<nat>, now: nat, days: nat)
    requires Follows(s) && (!(InUse(s) || Has(s, Suspended)) || !Idle(s))
    ensures var next := After(s, Sync(Canceled, trialEnd, now, days));
            next.tenant == s.tenant && next.jobs == s.jobs
  {
    IdleIsFree(s);
  }

  /** A good status on a cancelled tenant with an idle queue reopens it through a job exactly if the sync and the job's
      start both come before the grace period is over: on trial if trial time is left, else in service.
      Otherwise the tenant stays as it is, and after the grace period nothing is even queued. */
  lemma ResubscribedReopens(s: Office, sub: Sub, trialEnd: Option<nat>, now: nat, days: nat, a: nat, b: nat)
    requires Follows(s) && Has(s, Cancelled) && Idle(s) && (sub == Trialing || sub == Paying)
    ensures var steps := [Sync(sub, trialEnd, now, days), StartJob(a), JobWrites(b)];
            var t := s.tenant.value;
            var trialLeft := t.trialEnds.Some? && b < t.trialEnds.value;
            && Run(s, steps).tenant ==
                 (if t.purgeAfter.Some? && now < t.purgeAfter.value && a < t.purgeAfter.value
                  then Some(Tenant(if trialLeft then InTrial else InService, Stripe, false,
                                   if trialLeft then t.trialEnds else None, None))
                  else s.tenant)
            && (t.purgeAfter.None? || t.purgeAfter.value <= now ==>
                  After(s, Sync(sub, trialEnd, now, days)).jobs == s.jobs && Run(s, steps).jobs == s.jobs)
  {
    var step := Sync(sub, trialEnd, now, days);
    var noted := s.(billing := Some(Billing(sub, None)));
    ThreeSteps(s, step, StartJob(a), JobWrites(b));
    ResubscribedQueues(s, sub, trialEnd, now, days);
    LastJobRuns(noted, ReactivateTenant, a, b);
    NothingRuns(noted, a, b);
    hide After, Run;
  }

  lemma ResubscribedQueues(s: Office, sub: Sub, trialEnd: Option<nat>, now: nat, days: nat)
    requires Follows(s) && Has(s, Cancelled) && Idle(s) && (sub == Trialing || sub == Paying)
    ensures var noted := s.(billing := Some(Billing(sub, None)));
            After(s, Sync(sub, trialEnd, now, days)) ==
              if s.tenant.value.purgeAfter.Some? && now < s.tenant.value.purgeAfter.value
              then noted.(jobs := s.jobs + [Job(ReactivateTenant, Queued)]) else noted
  {
    IdleIsFree(s);
  }

  lemma NothingRuns(s: Office, a: nat, b: nat)
    requires Idle(s)
    ensures After(After(s, StartJob(a)), JobWrites(b)) == s
  {
    NoQueued(s.jobs);
  }

  /** A good status makes a tenant in use, or one that billing suspended, what the subscription says;
      a suspension that billing did not make it leaves. It queues nothing for any of them. */
  lemma GoodStatusOpens(s: Office, sub: Sub, trialEnd: Option<nat>, now: nat, days: nat)
    requires Follows(s) && !Has(s, Cancelled) && (sub == Trialing || sub == Paying)
    ensures var next, t := After(s, Sync(sub, trialEnd, now, days)), s.tenant.value;
            && next.jobs == s.jobs
            && next.tenant == if t.status == Suspended && !t.billingSuspended then s.tenant
                              else Some(t.(status := if sub == Trialing then InTrial else InService,
                                           trialEnds := if sub == Trialing then trialEnd else None,
                                           billingSuspended := t.billingSuspended && t.status != Suspended))
  {
  }

  /** Unpaid and paused close a tenant in use at once, by billing; past due, only once the configured
      days are over since the first such sync. Neither changes any other tenant, nor does an incomplete
      subscription, and none of them queues a job. */
  lemma BadStatusSuspends(s: Office, sub: Sub, trialEnd: Option<nat>, now: nat, days: nat)
    requires Follows(s) && sub in {Unpaid, Paused, PastDue, Incomplete}
    ensures var next := After(s, Sync(sub, trialEnd, now, days));
            var since := if s.billing.value.pastDueSince.Some? then s.billing.value.pastDueSince.value else now;
            var closes := InUse(s) && (sub == Unpaid || sub == Paused || (sub == PastDue && since + days * 86400 <= now));
            && next.jobs == s.jobs
            && next.tenant == if closes then Some(s.tenant.value.(status := Suspended, billingSuspended := true)) else s.tenant
  {
  }

  /** A past-due subscription, synced any number of times in between, closes the tenant exactly when the
      configured days are over. */
  lemma PastDueCloses(s: Office, first: nat, now: nat, later: nat, days: nat)
    requires Follows(s) && InUse(s) && s.billing.value.pastDueSince.None? && 0 < days
    requires first <= now < first + days * 86400 && now <= later
    ensures var end := Run(s, [Sync(PastDue, None, first, days), Sync(PastDue, None, now, days), Sync(PastDue, None, later, days)]);
            if first + days * 86400 <= later then Has(end, Suspended) && end.tenant.value.billingSuspended
            else end.tenant == s.tenant
  {
    var x, y, z := Sync(PastDue, None, first, days), Sync(PastDue, None, now, days), Sync(PastDue, None, later, days);
    ThreeSteps(s, x, y, z);
    hide After, Run;
    var s1 := After(s, x);
    BadStatusSuspends(s, PastDue, None, first, days);
    SubscriptionNoted(s, PastDue, None, first, days);
    IdStaysBySync(s, PastDue, None, first, days);
    BadStatusSuspends(s1, PastDue, None, now, days);
    SubscriptionNoted(s1, PastDue, None, now, days);
    IdStaysBySync(s1, PastDue, None, now, days);
    BadStatusSuspends(After(s1, y), PastDue, None, later, days);
  }

  lemma IdStaysBySync(s: Office, sub: Sub, trialEnd: Option<nat>, now: nat, days: nat)
    ensures After(s, Sync(sub, trialEnd, now, days)).id == s.id
  {
  }

  /** A subscription that was never paid for undoes a tenant in use, and no other. */
  lemma ExpiredRemoves(s: Office, trialEnd: Option<nat>, now: nat, days: nat)
    requires Follows(s)
    ensures var next := After(s, Sync(IncompleteExpired, trialEnd, now, days));
            && next.jobs == s.jobs
            && (if InUse(s) then next.tenant == None && next.billing == None else next.tenant == s.tenant)
  {
  }

  /** A paid resubscription takes the old subscription's place unless that is another one which is still
      good or past due; it starts with no time past due. */
  lemma ResubscribedExactly(s: Office, sameSub: bool)
    ensures var next := After(s, Resubscribed(sameSub));
            var keepsOld := s.billing.Some? && !sameSub && s.billing.value.status in {Trialing, Paying, PastDue};
            next == if s.id == 1 || s.tenant.None? || keepsOld then s else s.(billing := Some(Billing(Incomplete, None)))
  {
  }

  /** So a cancelled tenant that resubscribes within its grace period is open again once the sync and the job
      have run, and a second paid checkout changes nothing. */
  lemma ResubscribedOnce(s: Office, now: nat, days: nat, a: nat, b: nat)
    requires s.id != 1 && Has(s, Cancelled) && s.tenant.value.mode == Stripe && Idle(s)
    requires s.billing.Some? && s.billing.value.status == Canceled
    requires s.tenant.value.purgeAfter.Some? && now < s.tenant.value.purgeAfter.value && a < s.tenant.value.purgeAfter.value
    ensures var end := Run(After(s, Resubscribed(false)), [Sync(Paying, None, now, days), StartJob(a), JobWrites(b)]);
            && InUse(end) && end.billing == Some(Billing(Paying, None))
            && After(end, Resubscribed(false)) == end
  {
    var step := Sync(Paying, None, now, days);
    ResubscribedExactly(s, false);
    var anew := After(s, Resubscribed(false));
    ThreeSteps(anew, step, StartJob(a), JobWrites(b));
    ResubscribedQueues(anew, Paying, None, now, days);
    LastJobRuns(anew.(billing := Some(Billing(Paying, None))), ReactivateTenant, a, b);
    ResubscribedReopens(anew, Paying, None, now, days, a, b);
    ResubscribedExactly(Run(anew, [step, StartJob(a), JobWrites(b)]), false);
    hide After, Run;
  }

  // Trials and grace periods

  /** The daily pass suspends a tenant exactly if it is on a manual trial that is over and is not
      tenant #1, and does not change it otherwise. */
  lemma TrialEndsExactly(s: Office, now: nat)
    ensures var next := After(s, Daily(now));
            && next.billing == s.billing
            && next.tenant == if Has(s, InTrial) && s.id != 1 && s.tenant.value.mode == Manual
                                 && s.tenant.value.trialEnds.Some? && s.tenant.value.trialEnds.value <= now
                              then Some(s.tenant.value.(status := Suspended)) else s.tenant
  {
  }

  /** It queues a purge exactly for a cancelled tenant whose grace period is over and that has no job
      waiting or at work. */
  lemma PurgeQueuedExactly(s: Office, now: nat)
    ensures After(s, Daily(now)).jobs ==
              if Has(s, Cancelled) && s.tenant.value.purgeAfter.Some? && s.tenant.value.purgeAfter.value <= now && Idle(s)
              then s.jobs + [Job(PurgeTenant, Queued)] else s.jobs
  {
    IdleIsFree(s);
  }

  /** From a cancellation to the purge: the first daily pass that finds the job ended queues the purge
      exactly if the thirty days are over. */
  lemma GraceIsThirtyDays(s: Office, a: nat, b: nat, now: nat)
    requires Idle(s) && s.id != 1 && (InUse(s) || Has(s, Suspended))
    ensures var cancelled := Run(s, [Queue(CancelTenant), StartJob(a), JobWrites(b)]);
            After(After(cancelled, JobEnds), Daily(now)).jobs ==
              s.jobs + [Job(CancelTenant, Over)] + (if b + 30 * 86400 <= now then [Job(PurgeTenant, Queued)] else [])
  {
    ThreeSteps(s, Queue(CancelTenant), StartJob(a), JobWrites(b));
    IdleIsFree(s);
    LastJobRuns(s, CancelTenant, a, b);
    var t := s.tenant.value.(status := Cancelled, purgeAfter := Some(b + 30 * 86400));
    LastJobEnds(s.(tenant := Some(t)), CancelTenant);
    PurgeQueuedExactly(s.(tenant := Some(t), jobs := s.jobs + [Job(CancelTenant, Over)]), now);
    assert After(s, Queue(CancelTenant)) == s.(jobs := s.jobs + [Job(CancelTenant, Queued)]);
    hide After, Run;
  }

  lemma LastJobEnds(s: Office, kind: JobKind)
    requires Idle(s)
    ensures After(s.(jobs := s.jobs + [Job(kind, Wrote)]), JobEnds) == s.(jobs := s.jobs + [Job(kind, Over)])
  {
    var jobs, n := s.jobs + [Job(kind, Wrote)], |s.jobs|;
    forall k | 0 <= k < n ensures !Busy(jobs[k]) {
      assert jobs[k] == s.jobs[k] && s.jobs[k] in s.jobs;
    }
    FirstBusyIs(jobs, n);
    assert jobs[n := Job(kind, Over)] == s.jobs + [Job(kind, Over)];
  }

  /** An extension of a trial by some days, at least one and at most a year, ends it so many days after
      its end, or after now if it is over; a daily pass suspends the tenant when that time has come. */
  lemma ExtendedTrial(s: Office, days: nat, now: nat, later: nat)
    requires Has(s, InTrial) && s.id != 1 && s.tenant.value.mode == Manual && s.tenant.value.trialEnds.Some?
    ensures var next := After(s, ExtendTrial(days, now));
            var added := if days == 0 then 1 else if days <= 365 then days else 365;
            var from := if now <= s.tenant.value.trialEnds.value then s.tenant.value.trialEnds.value else now;
            && next == s.(tenant := Some(s.tenant.value.(trialEnds := Some(from + added * 86400))))
            && (Has(After(next, Daily(later)), Suspended) <==> from + added * 86400 <= later)
  {
    var next := After(s, ExtendTrial(days, now));
    TrialEndsExactly(next, later);
  }

  /** A tenant suspended at the end of its trial is back on trial if the trial is extended and it is then
      reactivated in time. */
  lemma ExtendedThenReactivated(s: Office, days: nat, now: nat, a: nat, b: nat)
    requires Has(s, Suspended) && Idle(s) && s.tenant.value.trialEnds.Some?
    requires b < now + 86400
    ensures var next := After(s, ExtendTrial(days, now));
            Has(Run(next, [Queue(ReactivateTenant), StartJob(a), JobWrites(b)]), InTrial)
  {
    ReactivatedByJob(After(s, ExtendTrial(days, now)), a, b);
  }

  /** A reactivation goes by the row that it read at its start: a trial extended before it writes is lost. */
  lemma ExtendedTooLate(s: Office, a: nat, days: nat, now: nat, b: nat)
    requires Has(s, Suspended) && Idle(s) && s.tenant.value.trialEnds.Some? && s.tenant.value.trialEnds.value <= b
    ensures var started := After(After(s, Queue(ReactivateTenant)), StartJob(a));
            var extended := After(started, ExtendTrial(days, now));
            && extended.tenant.value.trialEnds != s.tenant.value.trialEnds
            && After(extended, JobWrites(b)).tenant == Some(s.tenant.value.(status := InService, trialEnds := None, purgeAfter := None,
                                                                             billingSuspended := false))
  {
    var n := |s.jobs|;
    IdleIsFree(s);
    var queued := s.(jobs := s.jobs + [Job(ReactivateTenant, Queued)]);
    assert After(s, Queue(ReactivateTenant)) == queued;
    LastQueued(s.jobs, ReactivateTenant);
    var started := After(queued, StartJob(a));
    assert started.jobs == queued.jobs[n := Job(ReactivateTenant, Working(s.tenant.value))];
    forall k | 0 <= k < n ensures !Busy(started.jobs[k]) {
      assert started.jobs[k] == s.jobs[k] && s.jobs[k] in s.jobs;
    }
    FirstBusyIs(started.jobs, n);
  }

  /** Tenants with no trial, or neither on trial nor suspended, have nothing to extend; and the grace
      period of a cancelled one moves by one to 365 days. */
  lemma Extensions(s: Office, days: nat, now: nat)
    ensures !((Has(s, InTrial) || Has(s, Suspended)) && s.tenant.value.trialEnds.Some?) ==> After(s, ExtendTrial(days, now)) == s
    ensures var added := if days == 0 then 1 else if days <= 365 then days else 365;
            After(s, ExtendGrace(days)) ==
              if Has(s, Cancelled) && s.tenant.value.purgeAfter.Some?
              then s.(tenant := Some(s.tenant.value.(purgeAfter := Some(s.tenant.value.purgeAfter.value + added * 86400))))
              else s
  {
  }

  // Suspending, activating, the billing mode

  /** A provider's suspension holds against every good status, until a reactivation by hand. */
  lemma SuspensionByHand(s: Office, sub: Sub, trialEnd: Option<nat>, now: nat, days: nat, a: nat, b: nat)
    requires InUse(s) && Idle(s) && (sub == Trialing || sub == Paying)
    ensures var held := After(s, Suspend);
            var synced := After(held, Sync(sub, trialEnd, now, days));
            && Has(held, Suspended) && !held.tenant.value.billingSuspended
            && synced.tenant == held.tenant && synced.jobs == s.jobs
            && InUse(Run(synced, [Queue(ReactivateTenant), StartJob(a), JobWrites(b)]))
  {
    var held := After(s, Suspend);
    var synced := After(held, Sync(sub, trialEnd, now, days));
    if Follows(held) {
      GoodStatusOpens(held, sub, trialEnd, now, days);
    } else {
      NotFollowed(held, sub, trialEnd, now, days);
    }
    ReactivatedByJob(synced, a, b);
  }

  /** Activating ends a trial for good: no daily pass suspends the tenant afterwards. */
  lemma ActivatedForGood(s: Office, now: nat)
    requires Has(s, InTrial)
    ensures var next := After(s, Activate);
            && next == s.(tenant := Some(s.tenant.value.(status := InService, trialEnds := None)))
            && After(next, Daily(now)).tenant == next.tenant
  {
  }

  /** Suspending and activating from any other status, and a mode that tenant #1 or a tenant without a
      subscription cannot have, change nothing. */
  lemma Refused(s: Office, mode: Mode)
    ensures !InUse(s) ==> After(s, Suspend) == s
    ensures !Has(s, InTrial) ==> After(s, Activate) == s
    ensures After(s, SetMode(mode)) ==
              if s.tenant.None? || s.id == 1 || (mode == Stripe && s.billing.None?) then s
              else s.(tenant := Some(s.tenant.value.(mode := mode)))
  {
  }
}

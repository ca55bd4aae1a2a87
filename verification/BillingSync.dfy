/**
 The tenant follows its Stripe subscription: convergence of syncs, who made a suspension,
 and what a past-due suspension says about the syncs before it.
 */
module BillingSync {
  import opened Util
  import opened Domains
  import opened Lifecycle
  import opened LifecycleSafety

  // Convergence

  /** One sync: what Stripe answered and when. */
  datatype Fetched = Fetched(sub: Sub, trialEnd: Option<nat>, now: nat)

  predicate Lasting(sub: Sub) {
    sub != IncompleteExpired && sub != Canceled
  }

  /** The statuses that decide the tenant's on their own. */
  predicate Decisive(sub: Sub) {
    sub == Trialing || sub == Paying || sub == Unpaid || sub == Paused
  }

  function SyncAll(s: Office, fetched: seq<Fetched>, days: nat): Office
    decreases |fetched|
  {
    if fetched == [] then s
    else SyncAll(Synced(s, fetched[0].sub, fetched[0].trialEnd, fetched[0].now, days), fetched[1..], days)
  }

  /** A Stripe tenant that only billing has touched. */
  predicate Followable(s: Office) {
    && s.id != LEGACY && s.billing.Some? && s.tenant.Some? && s.tenant.value.mode == Stripe
    && (if s.tenant.value.billingSuspended then s.tenant.value.status == Suspended else IsOpen(s.tenant.value.status))
  }

  /** The tenant that a decisive status alone calls for. */
  predicate Matches(s: Office, f: Fetched) {
    && s.tenant.Some? && s.billing.Some?
    && s.billing.value == Billing(f.sub, None)
    && (Good(f.sub) ==>
          && s.tenant.value.status == OpenFor(f.sub) && !s.tenant.value.billingSuspended
          && s.tenant.value.trialEnds == (if f.sub == Trialing then f.trialEnd else None))
    && (!Good(f.sub) ==> s.tenant.value.status == Suspended && s.tenant.value.billingSuspended)
  }

  lemma {:induction false} SyncAllFollowable(s: Office, fetched: seq<Fetched>, days: nat)
    requires Followable(s) && forall f | f in fetched :: Lasting(f.sub)
    ensures Followable(SyncAll(s, fetched, days)) && SyncAll(s, fetched, days).jobs == s.jobs
    decreases |fetched|
  {
    if fetched != [] {
      assert fetched[0] in fetched;
      assert forall f | f in fetched[1..] :: f in fetched;
      SyncAllFollowable(Synced(s, fetched[0].sub, fetched[0].trialEnd, fetched[0].now, days), fetched[1..], days);
    }
  }

  lemma {:induction false} SyncAllSplits(s: Office, fetched: seq<Fetched>, last: Fetched, days: nat)
    ensures SyncAll(s, fetched + [last], days)
         == Synced(SyncAll(s, fetched, days), last.sub, last.trialEnd, last.now, days)
    decreases |fetched|
  {
    if fetched == [] {
      assert [last][1..] == [];
      assert fetched + [last] == [last];
    } else {
      assert (fetched + [last])[1..] == fetched[1..] + [last];
      SyncAllSplits(Synced(s, fetched[0].sub, fetched[0].trialEnd, fetched[0].now, days), fetched[1..], last, days);
    }
  }

  /** Any two deliveries of lasting statuses, duplicated, reordered or incomplete, that end at
      the same decisive status end in the same tenant status and billing mark, queue no job,
      and syncing that status again, at any later time, changes nothing at all. */
  lemma SyncsConverge(s: Office, fetched: seq<Fetched>, last: Fetched, days: nat, again: nat)
    requires Followable(s) && Decisive(last.sub) && forall f | f in fetched :: Lasting(f.sub)
    ensures var end := SyncAll(s, fetched + [last], days);
            && Matches(end, last) && end.jobs == s.jobs
            && Synced(end, last.sub, last.trialEnd, again, days) == end
  {
    SyncAllFollowable(s, fetched, days);
    SyncAllSplits(s, fetched, last, days);
  }

  // Who made a suspension

  datatype Who = ByProvider | ByTimer | ByBilling

  /** A sync the tenant's subscription had; `applied` says that it went on to the tenant. */
  datatype Seen = Seen(at: nat, sub: Sub, applied: bool)

  /** Who made the latest suspension, and every sync so far. */
  datatype Past = Past(suspender: Option<Who>, syncs: seq<Seen>)

  predicate Suspends(s: Office, step: Step) {
    HasStatus(s, {InTrial, InService}) && HasStatus(After(s, step), {Suspended})
  }

  function PastAfter(s: Office, p: Past, step: Step): Past {
    match step
    case Suspend => if Suspends(s, step) then p.(suspender := Some(ByProvider)) else p
    case Daily(_) => if Suspends(s, step) then p.(suspender := Some(ByTimer)) else p
    case Sync(sub, _, now, _) =>
      var q := if s.billing.Some? && s.id != LEGACY then p.(syncs := p.syncs + [Seen(now, sub, Applies(s))]) else p;
      if Suspends(s, step) then q.(suspender := Some(ByBilling)) else q
    case _ => p
  }

  function PastRun(s: Office, p: Past, steps: seq<Step>): Past
    decreases |steps|
  {
    if steps == [] then p else PastRun(After(s, steps[0]), PastAfter(s, p, steps[0]), steps[1..])
  }

  /** The mark on a suspended tenant tells whether billing suspended it. */
  predicate Provenance(s: Office, p: Past) {
    HasStatus(s, {Suspended}) ==>
      p.suspender.Some? && (s.tenant.value.billingSuspended <==> p.suspender == Some(ByBilling))
  }

  /** From sync j, made at `since`, on, every sync that reached the tenant saw past_due. */
  predicate PastDueRun(syncs: seq<Seen>, j: nat, since: nat) {
    && j < |syncs| && syncs[j] == Seen(since, PastDue, true)
    && forall i | j <= i < |syncs| && syncs[i].applied :: syncs[i].sub == PastDue
  }

  ghost predicate PastDueSince(s: Office, p: Past) {
    s.billing.Some? && s.billing.value.pastDueSince.Some? ==>
      exists j: nat :: PastDueRun(p.syncs, j, s.billing.value.pastDueSince.value)
  }

  lemma {:induction false} ProvenanceOverRuns(s: Office, p: Past, steps: seq<Step>)
    requires Inv(s) && Provenance(s, p)
    ensures Provenance(Run(s, steps), PastRun(s, p, steps))
    ensures HasStatus(Run(s, steps), {InTrial, InService}) ==> !Run(s, steps).tenant.value.billingSuspended
    decreases |steps|
  {
    if steps != [] {
      InvNext(s, steps[0]);
      ProvenanceNext(s, p, steps[0]);
      ProvenanceOverRuns(After(s, steps[0]), PastAfter(s, p, steps[0]), steps[1..]);
    }
  }

  lemma ProvenanceNext(s: Office, p: Past, step: Step)
    requires Inv(s) && Provenance(s, p)
    ensures Provenance(After(s, step), PastAfter(s, p, step))
  {
  }

  // A provider's suspension

  predicate NoReactivation(jobs: seq<Job>) {
    forall i | 0 <= i < |jobs| && IsActive(jobs[i]) :: jobs[i].kind != ReactivateTenant
  }

  /** Suspended by a provider or a timer, and no reactivation under way. */
  predicate HeldClosed(s: Office) {
    HasStatus(s, {Suspended}) && !s.tenant.value.billingSuspended && NoReactivation(s.jobs)
  }

  predicate ByHand(step: Step) {
    (step.Queue? || step.QueueUnchecked?) && step.kind == ReactivateTenant
  }

  ghost predicate CancelledOnTheWay(s: Office, steps: seq<Step>)
    decreases |steps|
  {
    HasStatus(s, {Cancelled}) || (steps != [] && CancelledOnTheWay(After(s, steps[0]), steps[1..]))
  }

  lemma HeldStep(s: Office, step: Step)
    requires Inv(s) && HeldClosed(s) && !ByHand(step)
    ensures HeldClosed(After(s, step)) || HasStatus(After(s, step), {Cancelled})
  {
  }

  /** Unless somebody reactivates it by hand, a tenant suspended by a provider is open again
      only after it was cancelled: no payment and no sync lifts the suspension by itself. */
  lemma {:induction false} ProviderSuspensionHolds(s: Office, steps: seq<Step>)
    requires Inv(s) && HeldClosed(s) && forall step | step in steps :: !ByHand(step)
    ensures HeldClosed(Run(s, steps)) || CancelledOnTheWay(s, steps)
    decreases |steps|
  {
    if steps != [] {
      assert steps[0] in steps;
      assert forall step | step in steps[1..] :: step in steps;
      InvNext(s, steps[0]);
      HeldStep(s, steps[0]);
      if HeldClosed(After(s, steps[0])) {
        ProviderSuspensionHolds(After(s, steps[0]), steps[1..]);
      }
    }
  }

  // Past due

  /** Every sync that reached the tenant in the last `days` days saw past_due, and there is one
      at least that old. */
  ghost predicate PastDueFor(syncs: seq<Seen>, days: nat, now: nat) {
    exists j: nat, since: nat :: PastDueRun(syncs, j, since) && since + days * DAY <= now
  }

  lemma PastDueNext(s: Office, p: Past, step: Step)
    requires PastDueSince(s, p)
    ensures PastDueSince(After(s, step), PastAfter(s, p, step))
  {
    var s', p' := After(s, step), PastAfter(s, p, step);
    if s'.billing.Some? && s'.billing.value.pastDueSince.Some? {
      var since := s'.billing.value.pastDueSince.value;
      if s.billing.Some? && s.billing.value.pastDueSince == Some(since) {
        var j: nat :| PastDueRun(p.syncs, j, since);
        assert PastDueRun(p'.syncs, j, since);
      } else {
        assert PastDueRun(p'.syncs, |p.syncs|, since);
      }
    }
  }

  lemma {:induction false} PastDueRuns(s: Office, p: Past, steps: seq<Step>)
    requires PastDueSince(s, p)
    ensures PastDueSince(Run(s, steps), PastRun(s, p, steps))
    decreases |steps|
  {
    if steps != [] {
      PastDueNext(s, p, steps[0]);
      PastDueRuns(After(s, steps[0]), PastAfter(s, p, steps[0]), steps[1..]);
    }
  }

  /** A past-due sync suspends the tenant only when a past-due sync at least `days` days ago
      began a run in which every sync that reached the tenant saw past_due. */
  lemma PastDueSuspension(s: Office, p: Past, steps: seq<Step>, trialEnd: Option<nat>, now: nat, days: nat)
    requires PastDueSince(s, p) && Suspends(Run(s, steps), Sync(PastDue, trialEnd, now, days))
    ensures var syncs := PastAfter(Run(s, steps), PastRun(s, p, steps), Sync(PastDue, trialEnd, now, days)).syncs;
            PastDueFor(syncs, days, now)
  {
    PastDueRuns(s, p, steps);
    var end, q := Run(s, steps), PastRun(s, p, steps);
    var step := Sync(PastDue, trialEnd, now, days);
    PastDueNext(end, q, step);
    var since := if end.billing.value.pastDueSince.Some? then end.billing.value.pastDueSince.value else now;
    assert After(end, step).billing.value.pastDueSince == Some(since);
    var j: nat :| PastDueRun(PastAfter(end, q, step).syncs, j, since);
  }

  // Every sync, and not only those that reached the tenant

  predicate LeavesStripe(step: Step) {
    step.SetMode? && step.mode != Stripe
  }

  /** As long as the tenant is there and follows Stripe, every sync so far reached it. */
  predicate AllReached(s: Office, p: Past) {
    s.tenant.Some? && s.tenant.value.status != Purged ==>
      s.tenant.value.mode == Stripe && forall i | 0 <= i < |p.syncs| :: p.syncs[i].applied
  }

  lemma AllReachedNext(s: Office, p: Past, step: Step)
    requires Inv(s) && AllReached(s, p) && !LeavesStripe(step)
    ensures AllReached(After(s, step), PastAfter(s, p, step))
  {
    if s.tenant.Some? {
      ClosedStatuses(s, step);
    }
  }

  lemma {:induction false} AllReachedRun(s: Office, p: Past, steps: seq<Step>)
    requires Inv(s) && AllReached(s, p) && forall step | step in steps :: !LeavesStripe(step)
    ensures AllReached(Run(s, steps), PastRun(s, p, steps)) && Inv(Run(s, steps))
    decreases |steps|
  {
    hide After, PastAfter, Inv, AllReached;
    if steps != [] {
      assert steps[0] in steps && forall step | step in steps[1..] :: step in steps;
      InvNext(s, steps[0]);
      AllReachedNext(s, p, steps[0]);
      AllReachedRun(After(s, steps[0]), PastAfter(s, p, steps[0]), steps[1..]);
    }
  }

  /** From sync j, made at least `days` days ago, on, every sync whatever saw past_due. */
  predicate EverySyncSince(syncs: seq<Seen>, j: nat, days: nat, now: nat) {
    j < |syncs| && syncs[j].at + days * DAY <= now && forall i | j <= i < |syncs| :: syncs[i].sub == PastDue
  }

  /** While nobody takes the tenant off Stripe, a past-due suspension means that every sync of at
      least the configured days saw past_due. */
  lemma PastDueEverySync(s: Office, p: Past, steps: seq<Step>, trialEnd: Option<nat>, now: nat, days: nat)
    requires Inv(s) && PastDueSince(s, p) && AllReached(s, p)
    requires forall step | step in steps :: !LeavesStripe(step)
    requires Suspends(Run(s, steps), Sync(PastDue, trialEnd, now, days))
    ensures var syncs := PastAfter(Run(s, steps), PastRun(s, p, steps), Sync(PastDue, trialEnd, now, days)).syncs;
            exists j: nat :: EverySyncSince(syncs, j, days, now)
  {
    var end, q := Run(s, steps), PastRun(s, p, steps);
    var step := Sync(PastDue, trialEnd, now, days);
    var syncs := PastAfter(end, q, step).syncs;
    PastDueSuspension(s, p, steps, trialEnd, now, days);
    AllReachedRun(s, p, steps);
    AllReachedNext(end, q, step);
    var j: nat, since: nat :| PastDueRun(syncs, j, since) && since + days * DAY <= now;
    assert EverySyncSince(syncs, j, days, now);
  }

  /** Off Stripe it can fail, for every tenant in service and whatever the times: syncs that do
      not reach the tenant are not counted, so a recovery seen then leaves past_due_since
      standing, and the first past-due sync after the mode is back suspends at once. */
  lemma HiddenRecovery(s: Office, t0: nat, t1: nat, t2: nat, days: nat)
    requires Followable(s) && HasStatus(s, {InService}) && s.billing.value.pastDueSince.None?
    requires 0 < days && t0 <= t1 <= t2 && t0 + days * DAY <= t2
    ensures var s1 := After(s, Sync(PastDue, None, t0, days));
            var s2 := After(After(After(s1, SetMode(Manual)), Sync(Paying, None, t1, days)), SetMode(Stripe));
            && s2.billing.value.status == Paying
            && Suspends(s2, Sync(PastDue, None, t2, days))
            && !Suspends(After(After(s1, Sync(Paying, None, t1, days)), SetMode(Stripe)), Sync(PastDue, None, t2, days))
    ensures var p1 := PastAfter(s, Past(None, []), Sync(PastDue, None, t0, days));
            var s1 := After(After(s, Sync(PastDue, None, t0, days)), SetMode(Manual));
            var p2 := PastAfter(s1, p1, Sync(Paying, None, t1, days));
            var s2 := After(After(s1, Sync(Paying, None, t1, days)), SetMode(Stripe));
            var syncs := PastAfter(s2, p2, Sync(PastDue, None, t2, days)).syncs;
            syncs == [Seen(t0, PastDue, true), Seen(t1, Paying, false), Seen(t2, PastDue, true)]
            && forall j: nat :: !EverySyncSince(syncs, j, days, t2)
  {
    var s1 := After(After(s, Sync(PastDue, None, t0, days)), SetMode(Manual));
    var s2 := After(After(s1, Sync(Paying, None, t1, days)), SetMode(Stripe));
    assert Applies(s) && !Applies(s1) && Applies(s2);
    assert [Seen(t0, PastDue, true), Seen(t1, Paying, false)] + [Seen(t2, PastDue, true)]
        == [Seen(t0, PastDue, true), Seen(t1, Paying, false), Seen(t2, PastDue, true)];
    forall j: nat ensures !EverySyncSince([Seen(t0, PastDue, true), Seen(t1, Paying, false), Seen(t2, PastDue, true)], j, days, t2) {
      LateStart(t0, t1, t2, j, days);
    }
  }

  lemma LateStart(t0: nat, t1: nat, t2: nat, j: nat, days: nat)
    requires days > 0
    ensures !EverySyncSince([Seen(t0, PastDue, true), Seen(t1, Paying, false), Seen(t2, PastDue, true)], j, days, t2)
  {
    var syncs := [Seen(t0, PastDue, true), Seen(t1, Paying, false), Seen(t2, PastDue, true)];
    assert syncs[1].sub == Paying && syncs[2].at == t2;
  }
}

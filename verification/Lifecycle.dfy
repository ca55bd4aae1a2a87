/**
 One tenant's life: its row, its subscription as last synced, and its jobs. Console
 actions, the daily timers, syncs from Stripe and the job worker take turns; a job reads
 the tenant when it starts and writes when its docker work is done. Time is in seconds.
 */
module Lifecycle {
  import opened Util
  import opened Domains

  const LEGACY: nat := 1
  const GRACE: nat := 30 * DAY

  datatype Mode = Stripe | Manual | Internal

  /** The statuses of a Stripe subscription. */
  datatype Sub = Trialing | Paying | PastDue | Unpaid | Paused | Incomplete | IncompleteExpired | Canceled

  datatype Tenant = Tenant(status: TenantStatus, mode: Mode, billingSuspended: bool,
                           trialEnds: Option<nat>, purgeAfter: Option<nat>)

  datatype Billing = Billing(status: Sub, pastDueSince: Option<nat>)

  datatype JobKind = CancelTenant | ReactivateTenant | PurgeTenant | RelayAction

  /** Waiting in the queue, at work with the row read at its start, done with its own writes
      but not yet finished, or over. */
  datatype JobState = Queued | Working(row: Tenant) | Wrote | Over

  datatype Job = Job(kind: JobKind, state: JobState)

  datatype Office = Office(id: nat, tenant: Option<Tenant>, billing: Option<Billing>, jobs: seq<Job>)

  datatype Step =
    | Suspend
    | Activate
    | ExtendTrial(days: nat, now: nat)
    | ExtendGrace(days: nat)
    | SetMode(mode: Mode)
    | Queue(kind: JobKind)
    | QueueUnchecked(kind: JobKind)
    | Daily(now: nat)
    | Resubscribed(sameSub: bool)
    | Sync(sub: Sub, trialEnd: Option<nat>, now: nat, days: nat)
    | StartJob(now: nat)
    | JobWrites(now: nat)
    | JobEnds
    | Restart

  // Jobs

  predicate IsActive(j: Job) { j.state != Over }

  predicate NoActiveJob(jobs: seq<Job>) {
    forall i | 0 <= i < |jobs| :: !IsActive(jobs[i])
  }

  predicate Busy(j: Job) { j.state.Working? || j.state.Wrote? }

  predicate NoBusyJob(jobs: seq<Job>) {
    forall i | 0 <= i < |jobs| :: !Busy(jobs[i])
  }

  /** The first job of the queue: ORDER BY id LIMIT 1. */
  function FirstQueued(jobs: seq<Job>): (i: nat)
    ensures i <= |jobs| && (i < |jobs| ==> jobs[i].state == Queued)
    ensures forall k | 0 <= k < i :: jobs[k].state != Queued
  {
    if jobs == [] || jobs[0].state == Queued then 0 else 1 + FirstQueued(jobs[1..])
  }

  function BusyJob(jobs: seq<Job>): (i: nat)
    ensures i <= |jobs| && (i < |jobs| ==> Busy(jobs[i]))
    ensures forall k | 0 <= k < i :: !Busy(jobs[k])
  {
    if jobs == [] || Busy(jobs[0]) then 0 else 1 + BusyJob(jobs[1..])
  }

  function Enqueued(s: Office, kind: JobKind): Office {
    s.(jobs := s.jobs + [Job(kind, Queued)])
  }

  function EnqueuedIfFree(s: Office, kind: JobKind): Office {
    if NoActiveJob(s.jobs) then Enqueued(s, kind) else s
  }

  function SetTenant(s: Office, t: Tenant): Office {
    s.(tenant := Some(t))
  }

  // Console actions

  predicate HasStatus(s: Office, statuses: set<TenantStatus>) {
    s.tenant.Some? && s.tenant.value.status in statuses
  }

  function Clamp(days: nat): nat {
    if days < 1 then 1 else if days > 365 then 365 else days
  }

  /** purge's guard: not tenant #1, and no Stripe subscription still alive. */
  predicate MayPurge(s: Office) {
    && s.id != LEGACY
    && !(s.tenant.Some? && s.tenant.value.mode == Stripe && s.billing.Some?
         && s.billing.value.status != Canceled && s.billing.value.status != IncompleteExpired)
  }

  predicate MayQueue(s: Office, kind: JobKind) {
    && s.tenant.Some? && s.tenant.value.status != Purged
    && match kind
       case CancelTenant => s.id != LEGACY && !(s.tenant.value.mode == Stripe && s.tenant.value.status == Cancelled)
       case ReactivateTenant => HasStatus(s, {Suspended, Cancelled})
       case PurgeTenant => MayPurge(s) && HasStatus(s, {Cancelled})
       case RelayAction => true
  }

  // Daily timers

  function TrialChecked(s: Office, now: nat): Office {
    if && HasStatus(s, {InTrial}) && s.id != LEGACY && s.tenant.value.mode == Manual
       && s.tenant.value.trialEnds.Some? && s.tenant.value.trialEnds.value <= now
    then SetTenant(s, s.tenant.value.(status := Suspended))
    else s
  }

  function GraceChecked(s: Office, now: nat): Office {
    if HasStatus(s, {Cancelled}) && s.tenant.value.purgeAfter.Some? && s.tenant.value.purgeAfter.value <= now
    then EnqueuedIfFree(s, PurgeTenant)
    else s
  }

  // Syncing from Stripe

  predicate Good(sub: Sub) { sub == Trialing || sub == Paying }

  function OpenFor(sub: Sub): TenantStatus {
    if sub == Trialing then InTrial else InService
  }

  /** Whether apply_status goes past its first test. */
  predicate Applies(s: Office) {
    s.tenant.Some? && s.id != LEGACY && s.tenant.value.mode == Stripe && s.tenant.value.status != Purged
  }

  function PastDueNoted(b: Billing, sub: Sub, now: nat): Billing {
    if sub == PastDue && b.pastDueSince.None? then b.(pastDueSince := Some(now))
    else if sub != PastDue then b.(pastDueSince := None)
    else b
  }

  /** apply_status for a tenant it applies to; `since` is past_due_since as read before the note. */
  function Followed(s: Office, sub: Sub, trialEnd: Option<nat>, now: nat, days: nat, since: Option<nat>): Office
    requires s.tenant.Some?
  {
    var t := s.tenant.value;
    var ends := if sub == Trialing then trialEnd else None;
    var from := if since.Some? then since.value else now;
    if Good(sub) && IsOpen(t.status) then SetTenant(s, t.(status := OpenFor(sub), trialEnds := ends))
    else if Good(sub) && t.status == Suspended && t.billingSuspended then
      SetTenant(s, t.(status := OpenFor(sub), trialEnds := ends, billingSuspended := false))
    else if Good(sub) && t.status == Cancelled && t.purgeAfter.Some? && now < t.purgeAfter.value then
      EnqueuedIfFree(s, ReactivateTenant)
    else if sub == PastDue && IsOpen(t.status) then
      if from + days * DAY <= now then SetTenant(s, t.(status := Suspended, billingSuspended := true)) else s
    else if (sub == Unpaid || sub == Paused) && IsOpen(t.status) then
      SetTenant(s, t.(status := Suspended, billingSuspended := true))
    else if sub == Canceled && (IsOpen(t.status) || t.status == Suspended) then
      EnqueuedIfFree(s, CancelTenant)
    else if sub == IncompleteExpired && IsOpen(t.status) then s.(tenant := None, billing := None)
    else s
  }

  function Synced(s: Office, sub: Sub, trialEnd: Option<nat>, now: nat, days: nat): Office {
    if s.billing.None? || s.id == LEGACY then s
    else
      var recorded := s.billing.value.(status := sub);
      if !Applies(s) then s.(billing := Some(recorded))
      else Followed(s.(billing := Some(PastDueNoted(recorded, sub, now))), sub, trialEnd, now, days, recorded.pastDueSince)
  }

  // The job worker

  predicate Accepts(s: Office, kind: JobKind, now: nat) {
    match kind
    case CancelTenant => s.id != LEGACY && HasStatus(s, {InTrial, InService, Suspended})
    case ReactivateTenant =>
      && HasStatus(s, {Suspended, Cancelled})
      && (s.tenant.value.status == Cancelled ==> s.tenant.value.purgeAfter.Some? && now < s.tenant.value.purgeAfter.value)
    case PurgeTenant => MayPurge(s) && HasStatus(s, {Cancelled, Purged})
    case RelayAction => s.tenant.Some?
  }

  function Reopened(t: Tenant, now: nat): TenantStatus {
    if t.trialEnds.Some? && now < t.trialEnds.value then InTrial else InService
  }

  /** The final write of a job that read `row` at its start, on the tenant's present row. */
  function Written(kind: JobKind, row: Tenant, t: Tenant, now: nat): Tenant {
    match kind
    case CancelTenant => t.(status := Cancelled, purgeAfter := Some(now + GRACE))
    case ReactivateTenant =>
      var t1 := t.(status := Reopened(row, now), purgeAfter := None, billingSuspended := false);
      if Reopened(row, now) == InTrial then t1 else t1.(trialEnds := None)
    case PurgeTenant => t.(status := Purged)
    case RelayAction => t
  }

  function After(s: Office, step: Step): Office {
    match step
    case Suspend =>
      if HasStatus(s, {InTrial, InService}) then SetTenant(s, s.tenant.value.(status := Suspended, billingSuspended := false)) else s
    case Activate =>
      if HasStatus(s, {InTrial}) then SetTenant(s, s.tenant.value.(status := InService, trialEnds := None)) else s
    case ExtendTrial(days, now) =>
      if HasStatus(s, {InTrial, Suspended}) && s.tenant.value.trialEnds.Some? then
        var ends := s.tenant.value.trialEnds.value;
        SetTenant(s, s.tenant.value.(trialEnds := Some((if ends < now then now else ends) + Clamp(days) * DAY)))
      else s
    case ExtendGrace(days) =>
      if HasStatus(s, {Cancelled}) && s.tenant.value.purgeAfter.Some? then
        SetTenant(s, s.tenant.value.(purgeAfter := Some(s.tenant.value.purgeAfter.value + Clamp(days) * DAY)))
      else s
    case SetMode(mode) =>
      if s.tenant.Some? && s.id != LEGACY && (mode == Stripe ==> s.billing.Some?) then SetTenant(s, s.tenant.value.(mode := mode)) else s
    case Queue(kind) => if MayQueue(s, kind) then EnqueuedIfFree(s, kind) else s
    case QueueUnchecked(kind) => Enqueued(s, kind)
    case Daily(now) => TrialChecked(GraceChecked(s, now), now)
    case Resubscribed(sameSub) =>
      if s.id == LEGACY || s.tenant.None? then s
      else if && s.billing.Some? && !sameSub
              && (Good(s.billing.value.status) || s.billing.value.status == PastDue) then s
      else s.(billing := Some(Billing(Incomplete, None)))
    case Sync(sub, trialEnd, now, days) => Synced(s, sub, trialEnd, now, days)
    case StartJob(now) =>
      var i := FirstQueued(s.jobs);
      if i == |s.jobs| || !NoBusyJob(s.jobs) then s
      else if Accepts(s, s.jobs[i].kind, now) then
        s.(jobs := s.jobs[i := s.jobs[i].(state := Working(s.tenant.value))])
      else s.(jobs := s.jobs[i := s.jobs[i].(state := Over)])
    case JobWrites(now) =>
      var i := BusyJob(s.jobs);
      if i == |s.jobs| || !s.jobs[i].state.Working? then s
      else
        var written := s.(jobs := s.jobs[i := s.jobs[i].(state := Wrote)]);
        if s.tenant.None? then written
        else SetTenant(written, Written(s.jobs[i].kind, s.jobs[i].state.row, s.tenant.value, now))
    case JobEnds =>
      var i := BusyJob(s.jobs);
      if i == |s.jobs| then s else s.(jobs := s.jobs[i := s.jobs[i].(state := Over)])
    case Restart =>
      var i := BusyJob(s.jobs);
      if i == |s.jobs| then s else s.(jobs := s.jobs[i := s.jobs[i].(state := Over)])
  }

  function Run(s: Office, steps: seq<Step>): Office
    decreases |steps|
  {
    if steps == [] then s else Run(After(s, steps[0]), steps[1..])
  }

  /** A tenant as creation leaves it. */
  function Created(id: nat, mode: Mode, trialEnds: Option<nat>, billing: Option<Billing>): Office {
    Office(id, Some(Tenant(InTrial, mode, false, trialEnds, None)), billing, [])
  }
}

/**
 The moment within a purge at which the tenant's rows are deleted and its status is still
 'cancelled': what a reactivation finds afterwards.
 */
module PurgeWindow {
  import opened Util
  import opened Domains
  import opened Lifecycle
  import opened LifecycleSafety

  /** A tenant's records, and whether its domains, relay and own rows are still there. */
  datatype Deal = Deal(office: Office, intact: bool)

  /** A step of the lifecycle, or the purge at work deleting the rows, which it does before its last write. */
  datatype Move = Do(step: Step) | DropRows

  predicate PurgeAtWork(s: Office) {
    var i := BusyJob(s.jobs);
    s.tenant.Some? && i < |s.jobs| && s.jobs[i].state.Working? && s.jobs[i].kind == PurgeTenant
  }

  predicate CanMove(d: Deal, m: Move) {
    match m
    case DropRows => PurgeAtWork(d.office)
    case Do(step) => TakesEffect(d.office, step, PurgeTenant) ==> !d.intact
  }

  function AfterMove(d: Deal, m: Move): Deal {
    match m
    case DropRows => d.(intact := false)
    case Do(step) => d.(office := After(d.office, step))
  }

  function RunMoves(d: Deal, moves: seq<Move>): Deal
    decreases |moves|
  {
    if moves == [] then d else RunMoves(AfterMove(d, moves[0]), moves[1..])
  }

  /** The moves are possible, and none of them ends or interrupts a purge that has deleted the rows
      and not yet written the status. */
  predicate Whole(d: Deal, moves: seq<Move>)
    decreases |moves|
  {
    moves == [] || (
      && CanMove(d, moves[0]) && !Interrupts(d, moves[0])
      && Whole(AfterMove(d, moves[0]), moves[1..]))
  }

  predicate Interrupts(d: Deal, m: Move) {
    m.Do? && (m.step.JobEnds? || m.step.Restart?) && PurgeAtWork(d.office) && !d.intact
  }

  /** The rows are missing only from a tenant that is gone or purged, or about to be. */
  predicate Settled(d: Deal) {
    !d.intact ==> d.office.tenant.None? || HasStatus(d.office, {Purged}) || PurgeAtWork(d.office)
  }

  lemma SettledNext(d: Deal, m: Move)
    requires Inv(d.office) && Settled(d) && CanMove(d, m) && !Interrupts(d, m)
    ensures Settled(AfterMove(d, m)) && Inv(AfterMove(d, m).office)
  {
    if m.Do? {
      InvNext(d.office, m.step);
      if d.office.tenant.Some? {
        ClosedStatuses(d.office, m.step);
        if PurgeAtWork(d.office) && !m.step.JobWrites? && !m.step.JobEnds? && !m.step.Restart? {
          BusyStays(d.office, m.step);
        }
      }
    }
  }

  /** A job at work stays the one at work until it writes, ends or is interrupted. */
  lemma BusyStays(s: Office, step: Step)
    requires PurgeAtWork(s) && !step.JobWrites? && !step.JobEnds? && !step.Restart?
    ensures After(s, step).tenant.Some? ==> PurgeAtWork(After(s, step))
  {
    var i := BusyJob(s.jobs);
    var next := After(s, step).jobs;
    assert i < |next| && next[..i] == s.jobs[..i] && next[i] == s.jobs[i];
    forall k | 0 <= k < i ensures !Busy(next[k]) {
      assert next[k] == next[..i][k] == s.jobs[k];
    }
    BusyIs(next, i);
  }

  lemma BusyIs(jobs: seq<Job>, i: nat)
    requires i < |jobs| && Busy(jobs[i]) && forall k | 0 <= k < i :: !Busy(jobs[k])
    ensures BusyJob(jobs) == i
  {
  }

  lemma {:induction false} SettledRun(d: Deal, moves: seq<Move>)
    requires Inv(d.office) && Settled(d) && Whole(d, moves)
    ensures Settled(RunMoves(d, moves)) && Inv(RunMoves(d, moves).office)
    decreases |moves|
  {
    hide AfterMove, Inv, Settled, CanMove, Interrupts;
    if moves != [] {
      SettledNext(d, moves[0]);
      SettledRun(AfterMove(d, moves[0]), moves[1..]);
    }
  }

  /** If no purge is cut off in that moment, a reactivation that takes effect finds all the rows. */
  lemma ReactivatedWithRows(d: Deal, moves: seq<Move>, step: Step)
    requires Inv(d.office) && Settled(d) && Whole(d, moves)
    requires TakesEffect(RunMoves(d, moves).office, step, ReactivateTenant)
    ensures RunMoves(d, moves).intact
  {
    SettledRun(d, moves);
    var s := RunMoves(d, moves).office;
    assert StillFits(s, s.jobs[BusyJob(s.jobs)]);
  }

  /** The purge is the tenant's only active job, and its grace period is not over. */
  predicate Alone(d: Deal, now: nat) {
    && PurgeAtWork(d.office) && HasStatus(d.office, {Cancelled})
    && d.office.tenant.value.purgeAfter.Some? && now < d.office.tenant.value.purgeAfter.value
    && forall k | 0 <= k < |d.office.jobs| && k != BusyJob(d.office.jobs) :: d.office.jobs[k].state == Over
  }

  /** If one is cut off, within the grace period, the tenant can be reactivated (once its relay has
      started, if the relay's row is still there); it is open then, and has its rows exactly when the
      purge had not come to deleting them. */
  lemma CutOffPurgeReopens(d: Deal, now: nat)
    requires Inv(d.office) && Alone(d, now)
    ensures var end := RunMoves(d, [Do(Restart), Do(Queue(ReactivateTenant)), Do(StartJob(now)), Do(JobWrites(now))]);
            HasStatus(end.office, {InTrial, InService}) && (end.intact <==> d.intact)
  {
    FourMoves(d, Restart, Queue(ReactivateTenant), StartJob(now), JobWrites(now));
    CutOff(d, now);
    Reopens(After(d.office, Restart), now);
    hide After, RunMoves, Inv, Alone;
  }

  lemma FirstMove(d: Deal, step: Step, rest: seq<Move>)
    ensures RunMoves(d, [Do(step)] + rest) == RunMoves(Deal(After(d.office, step), d.intact), rest)
  {
    hide After;
    assert ([Do(step)] + rest)[1..] == rest;
  }

  lemma FourMoves(d: Deal, p: Step, q: Step, r: Step, s: Step)
    ensures RunMoves(d, [Do(p), Do(q), Do(r), Do(s)]) == Deal(After(After(After(After(d.office, p), q), r), s), d.intact)
  {
    hide After;
    var s1 := Deal(After(d.office, p), d.intact);
    var s2 := Deal(After(s1.office, q), d.intact);
    var s3 := Deal(After(s2.office, r), d.intact);
    var s4 := Deal(After(s3.office, s), d.intact);
    FirstMove(s3, s, []);
    FirstMove(s2, r, [Do(s)]);
    FirstMove(s1, q, [Do(r), Do(s)]);
    FirstMove(d, p, [Do(q), Do(r), Do(s)]);
    assert RunMoves(s4, []) == s4;
    assert [Do(s)] + [] == [Do(s)] && [Do(r)] + [Do(s)] == [Do(r), Do(s)];
    assert [Do(q)] + [Do(r), Do(s)] == [Do(q), Do(r), Do(s)];
    assert [Do(p)] + [Do(q), Do(r), Do(s)] == [Do(p), Do(q), Do(r), Do(s)];
    hide RunMoves;
  }

  lemma CutOff(d: Deal, now: nat)
    requires Alone(d, now)
    ensures var s1 := After(d.office, Restart);
            s1.tenant == d.office.tenant && forall k | 0 <= k < |s1.jobs| :: s1.jobs[k].state == Over
  {
  }

  lemma Reopens(s: Office, now: nat)
    requires HasStatus(s, {Cancelled}) && forall k | 0 <= k < |s.jobs| :: s.jobs[k].state == Over
    requires s.tenant.value.purgeAfter.Some? && now < s.tenant.value.purgeAfter.value
    ensures HasStatus(After(After(After(s, Queue(ReactivateTenant)), StartJob(now)), JobWrites(now)), {InTrial, InService})
  {
    var n := |s.jobs|;
    var s2 := After(s, Queue(ReactivateTenant));
    assert s2.jobs == s.jobs + [Job(ReactivateTenant, Queued)] && s2.tenant == s.tenant;
    LastQueued(s.jobs, ReactivateTenant);
    var s3 := After(s2, StartJob(now));
    assert s3.jobs == s2.jobs[n := Job(ReactivateTenant, Working(s.tenant.value))];
    BusyIs(s3.jobs, n);
  }

  lemma LastQueued(jobs: seq<Job>, kind: JobKind)
    requires forall k | 0 <= k < |jobs| :: jobs[k].state == Over
    ensures var all := jobs + [Job(kind, Queued)];
            FirstQueued(all) == |jobs| && NoBusyJob(all)
  {
    var all := jobs + [Job(kind, Queued)];
    assert all[|jobs|].state == Queued;
    forall k | 0 <= k < |jobs| ensures all[k].state == Over {
      assert all[k] == jobs[k];
    }
  }
}

/**
 The worker's queue: how jobs take turns, how many still wait, and what one job run to its
 end leaves.
 */
module Queues {
  import opened Util
  import opened Domains
  import opened Lifecycle
  import opened LifecycleSafety

  lemma FirstBusyIs(jobs: seq<Job>, i: nat)
    requires i < |jobs| && Busy(jobs[i]) && forall k | 0 <= k < i :: !Busy(jobs[k])
    ensures BusyJob(jobs) == i
  {
  }

  /** How many jobs still wait. */
  function Waiting(jobs: seq<Job>): nat {
    if jobs == [] then 0 else (if jobs[0].state == Queued then 1 else 0) + Waiting(jobs[1..])
  }

  lemma {:induction false} WaitingDrops(jobs: seq<Job>, i: nat, j: Job)
    requires i < |jobs| && jobs[i].state == Queued && j.state != Queued
    ensures Waiting(jobs[i := j]) == Waiting(jobs) - 1
    decreases i
  {
    if i == 0 {
      assert jobs[0 := j][1..] == jobs[1..];
    } else {
      assert jobs[i := j][1..] == jobs[1..][i - 1 := j];
      WaitingDrops(jobs[1..], i - 1, j);
    }
  }

  lemma {:induction false} WaitingSame(jobs: seq<Job>, i: nat, j: Job)
    requires i < |jobs| && jobs[i].state != Queued && j.state != Queued
    ensures Waiting(jobs[i := j]) == Waiting(jobs)
    decreases i
  {
    if i == 0 {
      assert jobs[0 := j][1..] == jobs[1..];
    } else {
      assert jobs[i := j][1..] == jobs[1..][i - 1 := j];
      WaitingSame(jobs[1..], i - 1, j);
    }
  }

  lemma {:induction false} RunSplits(s: Office, a: seq<Step>, b: seq<Step>)
    ensures Run(s, a + b) == Run(Run(s, a), b)
    decreases |a|
  {
    if a == [] {
      assert a + b == b;
    } else {
      assert (a + b)[1..] == a[1..] + b;
      RunSplits(After(s, a[0]), a[1..], b);
    }
  }

  lemma NoSteps(s: Office)
    ensures Run(s, []) == s
  {
  }

  function OneJob(now: nat, dockerOk: bool): seq<Step> {
    if dockerOk then [StartJob(now), JobWrites(now), JobEnds] else [StartJob(now), JobEnds]
  }

  lemma OneJobRuns(s: Office, now: nat, dockerOk: bool)
    ensures var s1 := After(s, StartJob(now));
            Run(s, OneJob(now, dockerOk)) == After(if dockerOk then After(s1, JobWrites(now)) else s1, JobEnds)
  {
    var s1 := After(s, StartJob(now));
    var s2 := if dockerOk then After(s1, JobWrites(now)) else s1;
    assert [JobEnds][1..] == [];
    assert Run(s2, [JobEnds]) == After(s2, JobEnds);
    assert OneJob(now, dockerOk)[1..] == if dockerOk then [JobWrites(now), JobEnds] else [JobEnds];
    if dockerOk {
      assert [JobWrites(now), JobEnds][1..] == [JobEnds];
      assert Run(s1, [JobWrites(now), JobEnds]) == Run(s2, [JobEnds]);
    }
  }

  lemma SetJob(jobs: seq<Job>, i: nat, state: JobState)
    requires i < |jobs| && state != Queued && forall k | 0 <= k < |jobs| && k != i :: !Busy(jobs[k])
    ensures var next := jobs[i := jobs[i].(state := state)];
            && (state == Over ==> NoBusyJob(next))
            && (state != Over ==> BusyJob(next) == i)
            && Waiting(next) == Waiting(jobs) - (if jobs[i].state == Queued then 1 else 0)
  {
    var next := jobs[i := jobs[i].(state := state)];
    if jobs[i].state == Queued {
      WaitingDrops(jobs, i, next[i]);
    } else {
      WaitingSame(jobs, i, next[i]);
    }
    if state != Over {
      FirstBusyIs(next, i);
    }
  }

  lemma StartedJob(s: Office, now: nat)
    requires NoBusyJob(s.jobs) && FirstQueued(s.jobs) < |s.jobs|
    ensures var i := FirstQueued(s.jobs);
            var state := After(s, StartJob(now)).jobs[i].state;
            && After(s, StartJob(now)).jobs == s.jobs[i := s.jobs[i].(state := state)]
            && (state.Working? || state == Over)
    ensures Waiting(After(s, StartJob(now)).jobs) == Waiting(s.jobs) - 1
    ensures After(s, StartJob(now)).jobs[FirstQueued(s.jobs)].state == Over ==> NoBusyJob(After(s, StartJob(now)).jobs)
    ensures After(s, StartJob(now)).jobs[FirstQueued(s.jobs)].state.Working? ==>
              BusyJob(After(s, StartJob(now)).jobs) == FirstQueued(s.jobs)
  {
    var i := FirstQueued(s.jobs);
    SetJob(s.jobs, i, After(s, StartJob(now)).jobs[i].state);
  }

  lemma WorkingJobEnds(s: Office, i: nat, now: nat, dockerOk: bool)
    requires i < |s.jobs| && s.jobs[i].state.Working? && BusyJob(s.jobs) == i
    requires forall k | 0 <= k < |s.jobs| && k != i :: !Busy(s.jobs[k])
    ensures var end := After(if dockerOk then After(s, JobWrites(now)) else s, JobEnds);
            NoBusyJob(end.jobs) && Waiting(end.jobs) == Waiting(s.jobs)
  {
    SetJob(s.jobs, i, Wrote);
    SetJob(s.jobs, i, Over);
    var s2 := if dockerOk then After(s, JobWrites(now)) else s;
    SetJob(s2.jobs, i, Over);
  }

  /** One job run to its end leaves no job at work and one fewer waiting. */
  lemma OneJobDone(s: Office, now: nat, dockerOk: bool)
    requires NoBusyJob(s.jobs) && FirstQueued(s.jobs) < |s.jobs|
    ensures NoBusyJob(Run(s, OneJob(now, dockerOk)).jobs)
    ensures Waiting(Run(s, OneJob(now, dockerOk)).jobs) == Waiting(s.jobs) - 1
  {
    OneJobRuns(s, now, dockerOk);
    StartedJob(s, now);
    var i, s1 := FirstQueued(s.jobs), After(s, StartJob(now));
    if s1.jobs[i].state.Working? {
      WorkingJobEnds(s1, i, now, dockerOk);
    } else {
      NothingAtWork(s1, now);
    }
    hide After, Run, Waiting;
  }

  lemma NothingAtWork(s: Office, now: nat)
    requires NoBusyJob(s.jobs)
    ensures After(s, JobWrites(now)) == s && After(s, JobEnds) == s
  {
  }

  /** The steps of n jobs run one after another; each starts the first one waiting then. */
  function Turns(now: nat, dockerOk: nat -> bool, n: nat): seq<Step> {
    if n == 0 then [] else Turns(now, dockerOk, n - 1) + OneJob(now, dockerOk(n - 1))
  }

  lemma {:induction false} NoneWaiting(jobs: seq<Job>)
    ensures Waiting(jobs) == 0 <==> FirstQueued(jobs) == |jobs|
  {
    if jobs != [] {
      NoneWaiting(jobs[1..]);
    }
  }
}

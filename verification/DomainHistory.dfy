/**
 What the histories of the domains show on every run: how many certificate attempts are
 made and how far apart, when a broken domain is released, and that a domain left alone
 is settled after finitely many visits.
 */
module DomainHistory {
  import opened Util
  import opened Domains
  import opened DomainRuns

  // The history part of the invariant

  lemma VisitKeepsLog(r: Row, l: Log, at: nat, dnsOk: bool, publish: Publish)
    requires LogOk(r, l) && BeingChecked(r.status)
    ensures !(Attempts(r, at, dnsOk) && publish != StoppedBefore) ==> LogOk(Visit(r, at, dnsOk, publish), l)
    ensures Attempts(r, at, dnsOk) && publish != StoppedBefore ==>
              LogOk(Visit(r, at, dnsOk, publish),
                    Log(l.attempts + [at], l.cutOff + (if publish == StoppedDuring then 1 else 0),
                        if publish == Published then [] else l.probes))
  {
  }

  lemma ProbeKeepsLog(r: Row, l: Log, at: nat, dnsOk: bool)
    requires LogOk(r, l) && Served(r.status) && RowOk(r)
    ensures LogOk(Probed(r, at, dnsOk), l.(probes := l.probes + [Probe(at, dnsOk)]))
    ensures LogOk(r.(status := Failed), l.(probes := l.probes + [Probe(at, dnsOk)]))
    ensures r.status == DnsBroken && !dnsOk ==> FailingSince(l.probes + [Probe(at, dnsOk)], r.brokenSince.value)
  {
    var more := l.probes + [Probe(at, dnsOk)];
    if r.status == DnsBroken && !dnsOk {
      var j :| 0 <= j < |l.probes| && l.probes[j].at == r.brokenSince.value && FailureRun(l.probes, j);
      assert more[j].at == r.brokenSince.value && FailureRun(more, j);
    } else if !dnsOk {
      assert more[|l.probes|].at == at && FailureRun(more, |l.probes|);
    }
  }

  /** Rows that differ only in fields the history does not speak of. */
  predicate SameProgress(a: Row, b: Row) {
    a.status == b.status && a.failures == b.failures && a.lastIssue == b.lastIssue && a.brokenSince == b.brokenSince
  }

  /** The row a step moves on, if any. */
  predicate Moves(db: Db, step: Step, k: nat) {
    match step
    case Claim(_, _, _, _, _, _) => k == db.nextId
    case Recheck(_, id, _) => k == id
    case WorkerAdvance(_, id, _, _, _) => k == id
    case WorkerHealth(_, id, _, _, _) => k == id
    case OpenHost(_, _, _) => k == db.nextId
    case _ => false
  }

  /** A row that the step does not move on keeps its kind and its progress. */
  lemma OthersKept(db: Db, step: Step, k: nat)
    requires k in Next(db, step).rows && !Moves(db, step, k)
    ensures k in db.rows && Next(db, step).rows[k].kind == db.rows[k].kind
    ensures SameProgress(db.rows[k], Next(db, step).rows[k])
  {
    if ByTenant(step) {
      OthersKeptByTenant(db, step, k);
    } else {
      OthersKeptByWork(db, step, k);
    }
    hide Next, Moves, SameProgress;
  }

  predicate ByTenant(step: Step) {
    step.Claim? || step.Recheck? || step.Promote? || step.Withdraw?
  }

  lemma OthersKeptByTenant(db: Db, step: Step, k: nat)
    requires ByTenant(step) && k in Next(db, step).rows && !Moves(db, step, k)
    ensures k in db.rows && Next(db, step).rows[k].kind == db.rows[k].kind
    ensures SameProgress(db.rows[k], Next(db, step).rows[k])
  {
    StepFrame(db, step);
    hide FallBackToHome, HomeId, Visit, Probed, IsReleased;
  }

  lemma OthersKeptByWork(db: Db, step: Step, k: nat)
    requires !ByTenant(step) && k in Next(db, step).rows && !Moves(db, step, k)
    ensures k in db.rows && Next(db, step).rows[k].kind == db.rows[k].kind
    ensures SameProgress(db.rows[k], Next(db, step).rows[k])
  {
    StepFrame(db, step);
    hide FallBackToHome, HomeId, Visit, Probed, IsReleased;
  }

  lemma OthersStay(w: World, step: Step, k: nat)
    requires k in Next(w.db, step).rows && !Moves(w.db, step, k)
    ensures k in w.db.rows && Next(w.db, step).rows[k].kind == w.db.rows[k].kind
    ensures SameProgress(w.db.rows[k], Next(w.db, step).rows[k])
    ensures LogOf(After(w, step), k) == LogOf(w, k)
  {
    OthersKept(w.db, step, k);
    hide Next, SameProgress;
  }

  /** A health check's row differs from a probed or a failed one only in fields LogOk does not read. */
  lemma MovedByHealth(w: World, t: nat, id: nat, at: nat, dnsOk: bool, releaseOk: bool)
    requires id in w.db.rows && LogOk(w.db.rows[id], LogOf(w, id))
    requires var more := LogOf(w, id).(probes := LogOf(w, id).probes + [Probe(at, dnsOk)]);
             LogOk(Probed(w.db.rows[id], at, dnsOk), more) && LogOk(w.db.rows[id].(status := Failed), more)
    ensures var step := WorkerHealth(t, id, at, dnsOk, releaseOk);
            id in Next(w.db, step).rows && LogOk(Next(w.db, step).rows[id], LogOf(After(w, step), id))
  {
  }

  lemma MovedByVisit(w: World, t: nat, id: nat, at: nat, dnsOk: bool, publish: Publish)
    requires id in w.db.rows && LogOk(w.db.rows[id], LogOf(w, id)) && BeingChecked(w.db.rows[id].status)
    ensures var step := WorkerAdvance(t, id, at, dnsOk, publish);
            id in Next(w.db, step).rows && LogOk(Next(w.db, step).rows[id], LogOf(After(w, step), id))
  {
    VisitKeepsLog(w.db.rows[id], LogOf(w, id), at, dnsOk, publish);
    hide LogOk, Visit;
  }

  lemma MovedByRecheck(w: World, t: nat, id: nat, now: nat)
    requires id in w.db.rows && LogOk(w.db.rows[id], LogOf(w, id)) && w.db.rows[id].kind == Custom
    ensures var step := Recheck(t, id, now);
            id in Next(w.db, step).rows && LogOk(Next(w.db, step).rows[id], LogOf(After(w, step), id))
  {
  }

  lemma MovedByClaim(w: World, step: Step)
    requires step.Claim? && w.db.nextId !in w.db.rows && w.db.nextId in Next(w.db, step).rows
    ensures LogOk(Next(w.db, step).rows[w.db.nextId], LogOf(After(w, step), w.db.nextId))
  {
    hide IsReleased;
  }

  lemma MovedKeepsLog(w: World, step: Step, k: nat)
    requires forall i | i in w.db.rows :: i < w.db.nextId && RowOk(w.db.rows[i])
    requires k in w.db.rows ==> w.db.rows[k].kind != Custom || LogOk(w.db.rows[k], LogOf(w, k))
    requires Enabled(w.db, step) && Moves(w.db, step, k)
    requires k in Next(w.db, step).rows && Next(w.db, step).rows[k].kind == Custom
    ensures LogOk(Next(w.db, step).rows[k], LogOf(After(w, step), k))
  {
    if k !in w.db.rows && !step.OpenHost? {
      NewIsClaim(w.db, step, k);
      MovedByClaim(w, step);
    } else if k in w.db.rows {
      KindStays(w.db, step, k);
      hide LogOk, Next, After;
      match step
      case Recheck(t, id, now) => MovedByRecheck(w, t, id, now);
      case WorkerAdvance(t, id, at, dnsOk, publish) => MovedByVisit(w, t, id, at, dnsOk, publish);
      case WorkerHealth(t, id, at, dnsOk, releaseOk) =>
        ProbeKeepsLog(w.db.rows[id], LogOf(w, id), at, dnsOk);
        MovedByHealth(w, t, id, at, dnsOk, releaseOk);
      case _ =>
    }
  }

  lemma NewIsClaim(db: Db, step: Step, k: nat)
    requires k !in db.rows && k in Next(db, step).rows && Moves(db, step, k) && !step.OpenHost?
    ensures step.Claim? && k == db.nextId
  {
    StepFrame(db, step);
    hide FallBackToHome, HomeId, Visit, Probed, IsReleased;
  }

  lemma KindStays(db: Db, step: Step, k: nat)
    requires k in db.rows && k in Next(db, step).rows && k < db.nextId
    ensures Next(db, step).rows[k].kind == db.rows[k].kind
  {
    StepFrame(db, step);
    hide FallBackToHome, HomeId, Visit, IsReleased;
  }

  lemma LogInvNext(w: World, step: Step, k: nat)
    requires Inv(w) && Enabled(w.db, step)
    requires k in Next(w.db, step).rows && Next(w.db, step).rows[k].kind == Custom
    ensures LogOk(Next(w.db, step).rows[k], LogOf(After(w, step), k))
  {
    if Moves(w.db, step, k) {
      MovedKeepsLog(w, step, k);
    } else {
      OthersStay(w, step, k);
    }
  }

  lemma InvNext(w: World, step: Step)
    requires Inv(w) && Enabled(w.db, step)
    ensures Inv(After(w, step))
  {
    TableInvNext(w.db, step);
    forall k | k in Next(w.db, step).rows && Next(w.db, step).rows[k].kind == Custom
      ensures LogOk(Next(w.db, step).rows[k], LogOf(After(w, step), k))
    {
      LogInvNext(w, step, k);
    }
  }

  /** Every state of every run meets the invariant. */
  lemma {:induction false} InvRun(w: World, steps: seq<Step>)
    requires Inv(w) && Possible(w, steps)
    ensures Inv(Run(w, steps))
    decreases |steps|
  {
    if steps != [] {
      InvNext(w, steps[0]);
      InvRun(After(w, steps[0]), steps[1..]);
    }
  }

  // Certificate attempts

  /** On every run from the migrated database, a custom domain has had at most 5 attempts
      since it was added or put back to 'verifying', besides those cut off by a restart,
      and any two of them are an hour apart. */
  lemma CertificateAttempts(host: string, now: nat, steps: seq<Step>, id: nat)
    requires Possible(Migrated(host, now), steps)
    requires id in Run(Migrated(host, now), steps).db.rows
    requires Run(Migrated(host, now), steps).db.rows[id].kind == Custom
    ensures var l := LogOf(Run(Migrated(host, now), steps), id);
            && |l.attempts| <= MAX_ISSUE_FAILURES + l.cutOff
            && forall i, j | 0 <= i < j < |l.attempts| :: l.attempts[i] + (j - i) * ISSUE_EVERY <= l.attempts[j]
  {
    MigratedInv(host, now);
    InvRun(Migrated(host, now), steps);
    var l := LogOf(Run(Migrated(host, now), steps), id);
    forall i, j | 0 <= i < j < |l.attempts|
      ensures l.attempts[i] + (j - i) * ISSUE_EVERY <= l.attempts[j]
    {
      SpacedApart(l.attempts, i, j);
    }
  }

  lemma {:induction false} SpacedApart(a: seq<nat>, i: nat, j: nat)
    requires Spaced(a) && i < j < |a|
    ensures a[i] + (j - i) * ISSUE_EVERY <= a[j]
    decreases j
  {
    if i + 1 < j {
      SpacedApart(a, i, j - 1);
    }
  }

  /** `check_now` on any domain that is not served skips the hourly limit, whether its
      certificate is being issued or was given up on: within the hour after an attempt the next
      visit attempts again exactly when it finds DNS in order. Without `check_now` a domain being
      issued would have waited. */
  lemma RecheckSkipsHourlyLimit(r: Row, now: nat, at: nat, dnsOk: bool)
    requires !Served(r.status) && r.lastIssue.Some?
    requires r.lastIssue.value <= now <= at < r.lastIssue.value + ISSUE_EVERY
    ensures Due(Rechecked(r, now), at)
    ensures Attempts(Rechecked(r, now), at, dnsOk) <==> dnsOk
    ensures r.status == IssuingCertificate ==> !Attempts(r, at, dnsOk)
  {
  }

  /** The step is a `check_now` that puts the domain back to 'verifying'. */
  predicate PutsBack(db: Db, step: Step, id: nat) {
    step.Recheck? && step.id == id && CheckNow(db, step.tid, id, step.now).Ok? && !Served(db.rows[id].status)
  }

  ghost predicate PutBackIn(w: World, steps: seq<Step>, id: nat)
    decreases |steps|
  {
    steps != [] && (PutsBack(w.db, steps[0], id) || PutBackIn(After(w, steps[0]), steps[1..], id))
  }

  lemma KeepsAttempts(w: World, step: Step, id: nat)
    requires id < w.db.nextId && !PutsBack(w.db, step, id)
    ensures id < After(w, step).db.nextId && LogOf(w, id).attempts <= LogOf(After(w, step), id).attempts
  {
  }

  lemma {:induction false} AttemptsGrow(w: World, steps: seq<Step>, id: nat)
    requires id < w.db.nextId && !PutBackIn(w, steps, id)
    ensures LogOf(w, id).attempts <= LogOf(Run(w, steps), id).attempts
    decreases |steps|
  {
    hide After, LogOf, PutsBack;
    if steps != [] {
      KeepsAttempts(w, steps[0], id);
      AttemptsGrow(After(w, steps[0]), steps[1..], id);
    }
  }

  /** Over any run, two attempts of one domain are less than an hour apart only if `check_now`
      put the domain back in between. */
  lemma AttemptsApart(w: World, first: Step, between: seq<Step>, second: Step, id: nat)
    requires Inv(w) && Enabled(w.db, first) && Possible(After(w, first), between)
    requires Enabled(Run(After(w, first), between).db, second)
    requires StartsAttempt(w.db, first) && first.id == id
    requires StartsAttempt(Run(After(w, first), between).db, second) && second.id == id
    ensures second.at < first.at + ISSUE_EVERY ==> PutBackIn(After(w, first), between, id)
  {
    var w1 := After(w, first);
    var w2 := Run(w1, between);
    var n := |LogOf(w, id).attempts|;
    InvNext(w, first);
    InvRun(w1, between);
    FirstAttempt(w, first, id);
    if !PutBackIn(w1, between, id) {
      AttemptsGrow(w1, between, id);
      SecondAttempt(w2, second, id, n);
    }
  }

  lemma FirstAttempt(w: World, step: Step, id: nat)
    requires Inv(w) && Enabled(w.db, step) && StartsAttempt(w.db, step) && step.id == id
    ensures id < After(w, step).db.nextId
    ensures var a := LogOf(After(w, step), id).attempts;
            |a| == |LogOf(w, id).attempts| + 1 && a[|a| - 1] == step.at
  {
  }

  lemma SecondAttempt(w: World, step: Step, id: nat, n: nat)
    requires Inv(w) && Enabled(w.db, step) && StartsAttempt(w.db, step) && step.id == id
    requires n < |LogOf(w, id).attempts|
    ensures LogOf(w, id).attempts[n] + ISSUE_EVERY <= step.at
  {
    FirstAttempt(w, step, id);
    InvNext(w, step);
    var a := LogOf(After(w, step), id).attempts;
    assert a[n] == LogOf(w, id).attempts[n];
    assert Spaced(a) by {
      assert LogOk(After(w, step).db.rows[id], LogOf(After(w, step), id));
    }
    SpacedApart(a, n, |a| - 1);
  }

  // A domain left alone

  datatype Call = Call(at: nat, dnsOk: bool, publish: Publish)

  /** The worker's query finds the row at this time. */
  predicate Due(r: Row, at: nat) {
    BeingChecked(r.status) && r.nextCheck.Some? && r.nextCheck.value <= at
  }

  /** The row visited again and again, each time when it is due. */
  ghost predicate DueCalls(r: Row, calls: seq<Call>)
    decreases |calls|
  {
    calls == [] || (
      && Due(r, calls[0].at)
      && DueCalls(Visit(r, calls[0].at, calls[0].dnsOk, calls[0].publish), calls[1..]))
  }

  function AfterCalls(r: Row, calls: seq<Call>): Row
    decreases |calls|
  {
    if calls == [] then r else AfterCalls(Visit(r, calls[0].at, calls[0].dnsOk, calls[0].publish), calls[1..])
  }

  function Restarts(calls: seq<Call>): nat {
    if calls == [] then 0
    else (if calls[0].publish == StoppedBefore || calls[0].publish == StoppedDuring then 1 else 0) + Restarts(calls[1..])
  }

  /** The visits a domain can still need. */
  function Budget(r: Row): nat {
    if !BeingChecked(r.status) then 0
    else if r.status == IssuingCertificate then
      2 * (if r.failures < MAX_ISSUE_FAILURES then MAX_ISSUE_FAILURES - r.failures else 0)
      + (if r.nextCheck.Some? && r.lastIssue.Some? && r.nextCheck.value < r.lastIssue.value + ISSUE_EVERY then 1 else 0)
    else
      12 + (if r.nextCheck.Some? && r.pendingUntil.Some? && r.nextCheck.value <= r.pendingUntil.value
            then (r.pendingUntil.value - r.nextCheck.value) / CHECK_EVERY + 1 else 0)
  }

  /** What LogOk and RowOk give about a row on its own. */
  predicate Startable(r: Row) {
    && r.failures < MAX_ISSUE_FAILURES
    && (r.status == Verifying || r.status == PendingDns ==> r.failures == 0 && r.pendingUntil.Some?)
  }

  lemma VisitSpends(r: Row, c: Call)
    requires Due(r, c.at) && Startable(r)
    ensures var r' := Visit(r, c.at, c.dnsOk, c.publish);
            && (BeingChecked(r'.status) ==> Startable(r'))
            && Budget(r') <= Budget(r) + (if c.publish == StoppedBefore || c.publish == StoppedDuring then 1 else -1)
  {
    var r' := Visit(r, c.at, c.dnsOk, c.publish);
    if r.status != IssuingCertificate && !WindowOver(r, c.at) && !c.dnsOk {
      var left, left' := r.pendingUntil.value - r.nextCheck.value, r.pendingUntil.value - r'.nextCheck.value;
      assert left' + CHECK_EVERY <= left;
      if 0 <= left' {
        assert left' / CHECK_EVERY + 1 <= left / CHECK_EVERY;
      }
    }
  }

  /** A domain of an open tenant that nobody touches is visited at most Budget times, plus
      two for each restart in the middle of one; then it is active or failed. */
  lemma {:induction false} LeftAloneSettles(r: Row, calls: seq<Call>)
    requires Startable(r) && DueCalls(r, calls)
    ensures |calls| <= Budget(r) + 2 * Restarts(calls)
    decreases |calls|
  {
    if calls != [] {
      VisitSpends(r, calls[0]);
      var r' := Visit(r, calls[0].at, calls[0].dnsOk, calls[0].publish);
      if calls[1..] != [] {
        LeftAloneSettles(r', calls[1..]);
      }
    }
  }

  lemma {:induction false} FinalDue(r: Row, calls: seq<Call>)
    requires RowOk(r) && r.kind == Custom && Startable(r) && DueCalls(r, calls)
    ensures RowOk(AfterCalls(r, calls)) && AfterCalls(r, calls).kind == Custom
    ensures BeingChecked(AfterCalls(r, calls).status) ==> Startable(AfterCalls(r, calls))
    decreases |calls|
  {
    if calls != [] {
      VisitSpends(r, calls[0]);
      var r' := Visit(r, calls[0].at, calls[0].dnsOk, calls[0].publish);
      if calls[1..] != [] {
        FinalDue(r', calls[1..]);
      }
    }
  }

  /** For a new claim the bound is 2029 visits, and it is never left waiting for a visit that
      does not come: unless it is active or failed, it has a due time. */
  lemma NewClaimSettles(t: nat, h: string, now: nat, calls: seq<Call>)
    requires DueCalls(NewClaim(t, h, now), calls)
    ensures |calls| <= 2029 + 2 * Restarts(calls)
    ensures var r := AfterCalls(NewClaim(t, h, now), calls);
            r.status == Active || r.status == Failed || exists at: nat :: Due(r, at)
  {
    LeftAloneSettles(NewClaim(t, h, now), calls);
    FinalDue(NewClaim(t, h, now), calls);
    SettledOrChecked(NewClaim(t, h, now), calls);
    var r := AfterCalls(NewClaim(t, h, now), calls);
    if BeingChecked(r.status) {
      assert Due(r, r.nextCheck.value);
    }
  }

  lemma {:induction false} SettledOrChecked(r: Row, calls: seq<Call>)
    requires BeingChecked(r.status) && DueCalls(r, calls)
    ensures AfterCalls(r, calls).status != DnsBroken
    decreases |calls|
  {
    if calls != [] && calls[1..] != [] {
      SettledOrChecked(Visit(r, calls[0].at, calls[0].dnsOk, calls[0].publish), calls[1..]);
    }
  }

  // Broken domains

  /** Only a health check takes a served domain out of service in place. */
  lemma OnlyHealthUnserves(w: World, step: Step, id: nat)
    requires Enabled(w.db, step) && id < w.db.nextId
    requires id in w.db.rows && w.db.rows[id].kind == Custom && Served(w.db.rows[id].status)
    requires id in Next(w.db, step).rows && !Served(Next(w.db, step).rows[id].status)
    ensures step.WorkerHealth? && step.id == id && Workable(w.db, step.tid, id)
    ensures Releases(w.db.rows[id], step.at, step.dnsOk, step.releaseOk)
  {
    if !Moves(w.db, step, id) {
      OthersStay(w, step, id);
    }
  }

  /** A served domain turns 'failed' only in a health check, only after its checks have all
      failed since broken_since, the check that first failed, at least 7 days ago. */
  lemma ReleaseNeedsGrace(w: World, step: Step, id: nat)
    requires Inv(w) && Enabled(w.db, step)
    requires id in w.db.rows && w.db.rows[id].kind == Custom && Served(w.db.rows[id].status)
    requires id in Next(w.db, step).rows && !Served(Next(w.db, step).rows[id].status)
    ensures Next(w.db, step).rows[id].status == Failed
    ensures step.WorkerHealth? && step.id == id && !step.dnsOk
    ensures w.db.rows[id].status == DnsBroken
    ensures w.db.rows[id].brokenSince.value + BROKEN_WINDOW <= step.at
    ensures FailingSince(LogOf(After(w, step), id).probes, w.db.rows[id].brokenSince.value)
  {
    assert RowOk(w.db.rows[id]) && LogOk(w.db.rows[id], LogOf(w, id));
    OnlyHealthUnserves(w, step, id);
    ProbeKeepsLog(w.db.rows[id], LogOf(w, id), step.at, step.dnsOk);
    hide TableInv, LogOk, RowOk;
  }

  /** One good check restores a broken domain, whatever its history. */
  lemma GoodCheckRestores(w: World, t: nat, id: nat, at: nat, releaseOk: bool)
    requires Inv(w) && Workable(w.db, t, id) && ForHealth(w.db.rows[id])
    ensures var r := Next(w.db, WorkerHealth(t, id, at, true, releaseOk)).rows[id];
            r.status == Active && r.brokenSince == None
  {
  }
}

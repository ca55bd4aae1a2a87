/**
 What becomes of a domain: when it is given up, how long it is looked at, what a certificate
 attempt and a health check lead to, and which claims are accepted. Everything here is said of
 the rows themselves, before and after a step or over a run.
 */
module DomainOutcomes {
  import opened Util
  import opened Domains
  import opened DomainRuns
  import opened DomainHistory
  import opened DomainOwnership

  // The row of a step

  /** The tenant is there, its status is open and the row is its own. */
  predicate OpenOwner(db: Db, t: nat, id: nat) {
    id in db.rows && db.rows[id].tenant == t && t in db.tenants && (db.tenants[t] == InTrial || db.tenants[t] == InService)
  }

  /** The step is about row k. */
  predicate Names(step: Step, k: nat) {
    (step.Recheck? || step.Withdraw? || step.WorkerAdvance? || step.WorkerHealth?) && step.id == k
  }

  lemma UnnamedByTenant(db: Db, step: Step, k: nat)
    requires ByTenant(step) && k in db.rows && k < db.nextId && k in Next(db, step).rows && !Names(step, k)
    ensures Next(db, step).rows[k] == db.rows[k].(primary := Next(db, step).rows[k].primary)
  {
    StepFrame(db, step);
    hide FallBackToHome, HomeId, Visit, Probed, IsReleased;
  }

  lemma UnnamedByWork(db: Db, step: Step, k: nat)
    requires !ByTenant(step) && k in db.rows && k < db.nextId && k in Next(db, step).rows && !Names(step, k)
    ensures Next(db, step).rows[k] == db.rows[k].(primary := Next(db, step).rows[k].primary)
  {
    StepFrame(db, step);
    hide FallBackToHome, HomeId, Visit, Probed, IsReleased;
  }

  /** A step about other rows changes at most which row is primary. */
  lemma UnnamedStays(db: Db, step: Step, k: nat)
    requires k in db.rows && k < db.nextId && k in Next(db, step).rows && !Names(step, k)
    ensures Next(db, step).rows[k] == db.rows[k].(primary := Next(db, step).rows[k].primary)
  {
    if ByTenant(step) {
      UnnamedByTenant(db, step, k);
    } else {
      UnnamedByWork(db, step, k);
    }
    hide Next;
  }

  // One visit

  /** The time a domain has for its DNS is over. */
  predicate PastWindow(r: Row, at: nat) {
    r.status != IssuingCertificate && r.pendingUntil.Some? && r.pendingUntil.value < at
  }

  /** The visit asks for a certificate: the hour since the last request is over, or DNS has just been found in order. */
  predicate AsksCertificate(r: Row, at: nat, dnsOk: bool) {
    if r.status == IssuingCertificate then r.lastIssue.Some? ==> r.lastIssue.value + 3600 <= at
    else dnsOk && (r.pendingUntil.Some? ==> at <= r.pendingUntil.value)
  }

  /** DNS not in order within the window: the domain waits, and is looked at again in five minutes. */
  lemma WaitsForDns(db: Db, t: nat, id: nat, at: nat, publish: Publish)
    requires OpenOwner(db, t, id) && db.rows[id].status != IssuingCertificate && !PastWindow(db.rows[id], at)
    ensures var r := db.rows[id];
            Next(db, WorkerAdvance(t, id, at, false, publish))
            == db.(rows := db.rows[id := r.(status := PendingDns, nextCheck := Some(at + 300), lastChecked := Some(at))])
  {
  }

  /** A certificate asked for too early: the visit only waits until the hour is over. */
  lemma WaitsForTheHour(db: Db, t: nat, id: nat, at: nat, dnsOk: bool, publish: Publish)
    requires OpenOwner(db, t, id) && db.rows[id].status == IssuingCertificate && !AsksCertificate(db.rows[id], at, dnsOk)
    ensures var r := db.rows[id];
            Next(db, WorkerAdvance(t, id, at, dnsOk, publish))
            == db.(rows := db.rows[id := r.(nextCheck := Some(r.lastIssue.value + 3600))])
  {
  }

  /** What asking for a certificate leads to. */
  lemma CertificateOutcome(db: Db, t: nat, id: nat, at: nat, dnsOk: bool, publish: Publish)
    requires OpenOwner(db, t, id) && AsksCertificate(db.rows[id], at, dnsOk)
    ensures var r, next := db.rows[id], Next(db, WorkerAdvance(t, id, at, dnsOk, publish));
            && next == db.(rows := db.rows[id := next.rows[id]])
            && SameName(next.rows[id], r) && next.rows[id].createdAt == r.createdAt && next.rows[id].pendingUntil == r.pendingUntil
            && next.rows[id].lastIssue == (if publish == StoppedBefore then r.lastIssue else Some(at))
            && next.rows[id].lastChecked == (if r.status == IssuingCertificate then r.lastChecked else Some(at))
            && (publish == Published ==>
                  && next.rows[id].status == Active && next.rows[id].failures == 0
                  && next.rows[id].nextCheck == None && next.rows[id].brokenSince == None
                  && next.rows[id].verifiedAt == (if r.verifiedAt.Some? then r.verifiedAt else Some(at)))
            && (publish == Refused ==>
                  && next.rows[id].failures == r.failures + 1 && next.rows[id].verifiedAt == r.verifiedAt
                  && next.rows[id].status == (if r.failures + 1 < 5 then IssuingCertificate else Failed)
                  && next.rows[id].nextCheck == (if r.failures + 1 < 5 then Some(at + 3600) else None))
            && (publish == StoppedBefore || publish == StoppedDuring ==>
                  && next.rows[id].status == IssuingCertificate && next.rows[id].failures == r.failures
                  && next.rows[id].nextCheck == (if r.status == IssuingCertificate then r.nextCheck else Some(at)))
  {
  }

  /** A claim whose DNS is in order and whose certificate is issued resolves to its tenant. */
  lemma ClaimIsServed(w: World, claim: Step, at: nat)
    requires Inv(w) && claim.Claim? && Enabled(w.db, claim) && w.db.nextId in Next(w.db, claim).rows
    requires at <= claim.now + 7 * 86400
    ensures var visit := WorkerAdvance(claim.tid, w.db.nextId, at, true, Published);
            && Enabled(Next(w.db, claim), visit)
            && Serves(Next(Next(w.db, claim), visit).rows, claim.host, claim.tid)
            && Next(Next(w.db, claim), visit).rows[w.db.nextId].verifiedAt == Some(at)
  {
    var id, mid := w.db.nextId, Next(w.db, claim);
    assert id !in w.db.rows;
    assert mid.rows[id] == NewClaim(claim.tid, claim.host, claim.now) && OpenOwner(mid, claim.tid, id);
    CertificateOutcome(mid, claim.tid, id, at, true, Published);
    var r := Next(mid, WorkerAdvance(claim.tid, id, at, true, Published)).rows[id];
    assert r.hostname == claim.host && r.tenant == claim.tid && Reaches(r);
  }

  // Waiting for DNS, over any run

  /** Nobody puts the row back or asks for its removal, and every visit of it finds its DNS not in
      order, no later than `until`. */
  predicate OnlyFailingChecks(steps: seq<Step>, id: nat, until: nat) {
    forall s | s in steps && Names(s, id) :: s.WorkerAdvance? && !s.dnsOk && s.at <= until
  }

  predicate Waiting(r: Row) {
    r.kind == Custom && (r.status == Verifying || r.status == PendingDns)
  }

  /** The next check is still the one planned at first, or five minutes after a visit of the run. */
  ghost predicate NextIsPlanned(steps: seq<Step>, id: nat, first: Option<nat>, next: Option<nat>) {
    next == first || exists s :: s in steps && s.WorkerAdvance? && s.id == id && next == Some(s.at + 300)
  }

  lemma WaitsOneStep(db: Db, step: Step, id: nat, until: nat)
    requires id in db.rows && id < db.nextId && id in Next(db, step).rows
    requires Waiting(db.rows[id]) && db.rows[id].pendingUntil == Some(until)
    requires Names(step, id) ==> step.WorkerAdvance? && !step.dnsOk && step.at <= until
    ensures var r, r' := db.rows[id], Next(db, step).rows[id];
            && Waiting(r') && r'.pendingUntil == r.pendingUntil && r'.failures == r.failures && r'.lastIssue == r.lastIssue
            && NextIsPlanned([step], id, r.nextCheck, r'.nextCheck)
  {
    if Names(step, id) {
      if OpenOwner(db, step.tid, id) {
        WaitsForDns(db, step.tid, id, step.at, step.publish);
        assert step in [step];
      }
    } else {
      UnnamedStays(db, step, id);
    }
  }

  /** Over any run: as long as its visits come within its window, a domain whose DNS is not in order
      is still waiting, with the same window, no failure counted, and its next check planned five
      minutes after its last visit. */
  lemma {:induction false} WaitsAsLongAsItMay(w: World, steps: seq<Step>, id: nat, until: nat)
    requires id in w.db.rows && id < w.db.nextId && Waiting(w.db.rows[id]) && w.db.rows[id].pendingUntil == Some(until)
    requires OnlyFailingChecks(steps, id, until) && id in Run(w, steps).db.rows
    ensures var r, r' := w.db.rows[id], Run(w, steps).db.rows[id];
            && Waiting(r') && r'.pendingUntil == Some(until) && r'.failures == r.failures && r'.lastIssue == r.lastIssue
            && NextIsPlanned(steps, id, r.nextCheck, r'.nextCheck)
    decreases |steps|
  {
    if steps != [] {
      hide After, Next, Names, Waiting, NextIsPlanned;
      var next := After(w, steps[0]);
      NextIs(w, steps[0]);
      IdsGrow(w.db, steps[0]);
      assert steps[0] in steps && forall s | s in steps[1..] :: s in steps;
      if id in next.db.rows {
        WaitsOneStep(w.db, steps[0], id, until);
        WaitsAsLongAsItMay(next, steps[1..], id, until);
        PlannedJoins(steps, id, w.db.rows[id].nextCheck, next.db.rows[id].nextCheck, Run(w, steps).db.rows[id].nextCheck);
      } else {
        GoneStays(next, steps[1..], id);
      }
    } else {
      assert NextIsPlanned(steps, id, w.db.rows[id].nextCheck, w.db.rows[id].nextCheck);
    }
  }

  lemma PlannedJoins(steps: seq<Step>, id: nat, first: Option<nat>, mid: Option<nat>, next: Option<nat>)
    requires steps != [] && NextIsPlanned([steps[0]], id, first, mid) && NextIsPlanned(steps[1..], id, mid, next)
    ensures NextIsPlanned(steps, id, first, next)
  {
    if next != mid {
      var s :| s in steps[1..] && s.WorkerAdvance? && s.id == id && next == Some(s.at + 300);
      assert s in steps;
    } else if mid != first {
      assert steps[0] in steps;
    }
  }

  // Giving up

  /** The step gives the domain up: its window is over, its certificate was refused for the fifth
      time, or it was broken for seven days and the helper has let go of it. */
  predicate GivesUp(db: Db, step: Step, id: nat) {
    match step
    case WorkerAdvance(t, k, at, dnsOk, publish) =>
      && k == id && OpenOwner(db, t, id)
      && (PastWindow(db.rows[id], at)
          || (AsksCertificate(db.rows[id], at, dnsOk) && publish == Refused && db.rows[id].failures >= 4))
    case WorkerHealth(t, k, at, dnsOk, releaseOk) =>
      && k == id && OpenOwner(db, t, id) && !dnsOk && releaseOk
      && db.rows[id].status == DnsBroken && db.rows[id].brokenSince.Some? && db.rows[id].brokenSince.value + 7 * 86400 <= at
    case _ => false
  }

  lemma FailsByVisit(db: Db, step: Step, id: nat)
    requires step.WorkerAdvance? && step.id == id && id in db.rows && ForAdvance(db.rows[id])
    ensures id in Next(db, step).rows && (Next(db, step).rows[id].status == Failed <==> GivesUp(db, step, id))
  {
    var r := db.rows[id];
    if OpenOwner(db, step.tid, id) && !PastWindow(r, step.at) {
      if AsksCertificate(r, step.at, step.dnsOk) {
        CertificateOutcome(db, step.tid, id, step.at, step.dnsOk, step.publish);
      } else if r.status == IssuingCertificate {
        WaitsForTheHour(db, step.tid, id, step.at, step.dnsOk, step.publish);
      } else {
        WaitsForDns(db, step.tid, id, step.at, step.publish);
      }
    }
  }

  lemma FailsByHealth(db: Db, step: Step, id: nat)
    requires step.WorkerHealth? && step.id == id && id in db.rows && ForHealth(db.rows[id]) && RowOk(db.rows[id])
    ensures id in Next(db, step).rows && (Next(db, step).rows[id].status == Failed <==> GivesUp(db, step, id))
  {
    StepFrame(db, step);
    hide FallBackToHome, HomeId;
  }

  /** A custom domain becomes failed exactly by one of the three. */
  lemma FailsExactly(db: Db, step: Step, id: nat)
    requires id in db.rows && id < db.nextId && RowOk(db.rows[id]) && Enabled(db, step) && id in Next(db, step).rows
    requires db.rows[id].kind == Custom && db.rows[id].status != Failed
    ensures Next(db, step).rows[id].status == Failed <==> GivesUp(db, step, id)
  {
    if !Names(step, id) {
      UnnamedStays(db, step, id);
    } else if step.WorkerAdvance? {
      FailsByVisit(db, step, id);
    } else if step.WorkerHealth? {
      FailsByHealth(db, step, id);
    }
  }

  ghost predicate GivenUpIn(w: World, steps: seq<Step>, id: nat)
    decreases |steps|
  {
    steps != [] && (GivesUp(w.db, steps[0], id) || GivenUpIn(After(w, steps[0]), steps[1..], id))
  }

  /** Over any run, a domain that was not failed and now is was given up on the way. */
  lemma {:induction false} FailedOverRuns(w: World, steps: seq<Step>, id: nat)
    requires Inv(w) && Possible(w, steps) && id in w.db.rows && w.db.rows[id].kind == Custom && w.db.rows[id].status != Failed
    requires id in Run(w, steps).db.rows && Run(w, steps).db.rows[id].status == Failed
    ensures GivenUpIn(w, steps, id)
    decreases |steps|
  {
    hide After, Next, Enabled, GivesUp, TableInv;
    if steps != [] {
      var next := After(w, steps[0]);
      NextIs(w, steps[0]);
      IdsGrow(w.db, steps[0]);
      InvNext(w, steps[0]);
      InvRow(w, id);
      if id in next.db.rows {
        CustomStays(w.db, steps[0], id);
        FailsExactly(w.db, steps[0], id);
        if next.db.rows[id].status != Failed {
          FailedOverRuns(next, steps[1..], id);
        }
      } else {
        GoneStays(next, steps[1..], id);
      }
    }
  }

  lemma InvRow(w: World, id: nat)
    requires Inv(w) && id in w.db.rows
    ensures id < w.db.nextId && RowOk(w.db.rows[id])
  {
  }

  // Health checks

  /** What a health check of a served domain leads to, the release apart. */
  lemma HealthOutcome(db: Db, t: nat, id: nat, at: nat, dnsOk: bool, releaseOk: bool)
    requires OpenOwner(db, t, id) && ForHealth(db.rows[id]) && RowOk(db.rows[id])
    requires !GivesUp(db, WorkerHealth(t, id, at, dnsOk, releaseOk), id)
    ensures var r := db.rows[id];
            var late := !dnsOk && r.status == DnsBroken && r.brokenSince.value + 7 * 86400 <= at;
            Next(db, WorkerHealth(t, id, at, dnsOk, releaseOk))
            == db.(rows := db.rows[id := r.(status := if dnsOk then Active else DnsBroken,
                                            brokenSince := if dnsOk then None else if r.status == Active then Some(at) else r.brokenSince,
                                            lastChecked := Some(at), nextCheck := if late then Some(at + 3600) else None)])
  {
  }

  /** A release: the domain is failed and not primary, and if it was primary the tenant's own host is. */
  lemma ReleaseOutcome(db: Db, t: nat, id: nat, at: nat, k: nat)
    requires TableInv(db) && OpenOwner(db, t, id) && GivesUp(db, WorkerHealth(t, id, at, false, true), id) && ForHealth(db.rows[id])
    requires k in db.rows && db.rows[k].tenant == t
    ensures var next := Next(db, WorkerHealth(t, id, at, false, true)).rows;
            && k in next && next[id].status == Failed && !next[id].primary && next[id].nextCheck == None
            && (k != id && !db.rows[id].primary ==> next[k] == db.rows[k])
            && (db.rows[id].primary ==> (next[k].primary <==> HomeId(db.rows, t) == Some(k)))
  {
    ReleasedRows(db, t, id, at);
    if db.rows[id].primary {
      FallsBackTo(db, t, id, k);
      FallsBackTo(db, t, id, id);
    }
    hide TableInv, HomeId, FallBackToHome, Next, GivesUp, OpenOwner;
  }

  lemma ReleasedRows(db: Db, t: nat, id: nat, at: nat)
    requires OpenOwner(db, t, id) && GivesUp(db, WorkerHealth(t, id, at, false, true), id)
    ensures FallBackToHome(db.rows, t).Keys == db.rows.Keys
    ensures var rows := if db.rows[id].primary then FallBackToHome(db.rows, t) else db.rows;
            Next(db, WorkerHealth(t, id, at, false, true)).rows
            == rows[id := rows[id].(lastChecked := Some(at), nextCheck := None, status := Failed, primary := false)]
  {
    FallBackFrame(db.rows, t);
    hide FallBackToHome;
  }

  lemma FallsBackTo(db: Db, t: nat, id: nat, k: nat)
    requires TableInv(db) && Owns(db, t, id) && Owns(db, t, k) && db.rows[id].kind == Custom
    ensures k in FallBackToHome(db.rows, t)
    ensures FallBackToHome(db.rows, t)[k].primary <==> HomeId(db.rows, t) == Some(k)
    ensures HomeId(db.rows, t) != Some(id)
  {
    assert HasHome(db.rows, db.rows[id].tenant);
  }

  /** A domain that breaks and fails its next check is released by that check exactly when seven
      days have passed and the helper lets go of it. */
  lemma BrokenForAWeek(db: Db, t: nat, id: nat, first: nat, at: nat, releaseOk: bool)
    requires TableInv(db) && OpenOwner(db, t, id) && db.rows[id].kind == Custom && db.rows[id].status == Active
    ensures var broken := Next(db, WorkerHealth(t, id, first, false, releaseOk));
            var next := Next(broken, WorkerHealth(t, id, at, false, releaseOk));
            && id in broken.rows && broken.rows[id].status == DnsBroken && id in next.rows
            && next.rows[id].status == (if first + 7 * 86400 <= at && releaseOk then Failed else DnsBroken)
  {
    assert RowOk(db.rows[id]);
    HealthOutcome(db, t, id, first, false, releaseOk);
    var broken := Next(db, WorkerHealth(t, id, first, false, releaseOk));
    FailsByHealth(broken, WorkerHealth(t, id, at, false, releaseOk), id);
    if !GivesUp(broken, WorkerHealth(t, id, at, false, releaseOk), id) {
      HealthOutcome(broken, t, id, at, false, releaseOk);
    }
  }
}

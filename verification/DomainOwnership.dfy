/**
 Who a hostname belongs to and what it resolves to, step by step and over whole runs.
 */
module DomainOwnership {
  import opened Util
  import opened Domains
  import opened DomainRuns
  import opened DomainHistory

  lemma OneOwner(rows: Rows, h: string, t: nat, u: nat)
    requires UniqueHosts(rows) && Serves(rows, h, t) && Serves(rows, h, u)
    ensures t == u
  {
  }

  /** The step ends tenant t's use of h: its own removal request, a health release, a purge
      or the undoing of its creation. */
  predicate Drops(db: Db, step: Step, h: string, t: nat) {
    match step
    case Withdraw(u, id, _) => u == t && Owns(db, t, id) && db.rows[id].kind == Custom && db.rows[id].hostname == h
    case WorkerHealth(u, id, at, dnsOk, releaseOk) =>
      u == t && Workable(db, t, id) && db.rows[id].hostname == h && Releases(db.rows[id], at, dnsOk, releaseOk)
    case UndoCreation(u) => u == t
    case RefusedUndo(u) => u == t
    case PurgeTenant(u) => u == t
    case _ => false
  }

  /** The step starts tenant t's use of h: its certificate was issued, or its own host published. */
  predicate Raises(db: Db, step: Step, h: string, t: nat) {
    match step
    case WorkerAdvance(u, id, at, dnsOk, publish) =>
      && u == t && Workable(db, t, id) && db.rows[id].hostname == h && !db.rows[id].removing
      && Attempts(db.rows[id], at, dnsOk) && publish == Published
    case OpenHost(u, g, _) => u == t && g == h
    case _ => false
  }

  lemma RowSurvivesByTenant(db: Db, step: Step, k: nat)
    requires ByTenant(step) && k in db.rows && k < db.nextId && k in Next(db, step).rows
    ensures Next(db, step).rows[k].hostname == db.rows[k].hostname && Next(db, step).rows[k].tenant == db.rows[k].tenant
  {
    StepFrame(db, step);
    hide FallBackToHome, HomeId, Visit, Probed, IsReleased;
  }

  lemma RowSurvivesWork(db: Db, step: Step, k: nat)
    requires !ByTenant(step) && k in db.rows && k < db.nextId && k in Next(db, step).rows
    ensures Next(db, step).rows[k].hostname == db.rows[k].hostname && Next(db, step).rows[k].tenant == db.rows[k].tenant
  {
    StepFrame(db, step);
    hide FallBackToHome, HomeId, Visit, IsReleased;
  }

  lemma RowSurvives(db: Db, step: Step, k: nat)
    requires k in db.rows && k < db.nextId && k in Next(db, step).rows
    ensures Next(db, step).rows[k].hostname == db.rows[k].hostname && Next(db, step).rows[k].tenant == db.rows[k].tenant
  {
    if ByTenant(step) {
      RowSurvivesByTenant(db, step, k);
    } else {
      RowSurvivesWork(db, step, k);
    }
    hide Next;
  }

  lemma RowStaysReached(db: Db, step: Step, k: nat)
    requires k in db.rows && k < db.nextId && RowOk(db.rows[k]) && UniqueHosts(db.rows) && Enabled(db, step)
    requires Reaches(db.rows[k]) && !Drops(db, step, db.rows[k].hostname, db.rows[k].tenant)
    ensures k in Next(db, step).rows && Reaches(Next(db, step).rows[k])
  {
    if step.Claim? {
      assert !IsReleased(db.rows[k], step.now);
    }
  }

  lemma RowReached(db: Db, step: Step, k: nat)
    requires k in db.rows && k < db.nextId && RowOk(db.rows[k]) && UniqueHosts(db.rows) && Enabled(db, step)
    requires k in Next(db, step).rows && Reaches(Next(db, step).rows[k])
    ensures var r := db.rows[k];
            (Reaches(r) && !Drops(db, step, r.hostname, r.tenant)) || Raises(db, step, r.hostname, r.tenant)
  {
  }

  lemma NewRowReaches(db: Db, step: Step, k: nat)
    requires k !in db.rows && k in Next(db, step).rows && Reaches(Next(db, step).rows[k])
    ensures Raises(db, step, Next(db, step).rows[k].hostname, Next(db, step).rows[k].tenant)
  {
    StepFrame(db, step);
    hide FallBackToHome, Visit, HomeId;
  }

  lemma RaisedRow(db: Db, step: Step, h: string, t: nat) returns (k: nat)
    requires Enabled(db, step) && Raises(db, step, h, t)
    ensures k in Next(db, step).rows && Next(db, step).rows[k].hostname == h
    ensures Next(db, step).rows[k].tenant == t && Reaches(Next(db, step).rows[k])
  {
    k := if step.OpenHost? then db.nextId else step.id;
  }

  /** Exactly what every step does to what every hostname resolves to. */
  lemma ServesAfter(db: Db, step: Step, h: string, t: nat)
    requires TableInv(db) && Enabled(db, step)
    ensures Serves(Next(db, step).rows, h, t) <==>
            (Serves(db.rows, h, t) && !Drops(db, step, h, t)) || Raises(db, step, h, t)
  {
    var next := Next(db, step).rows;
    if Serves(next, h, t) {
      var k :| k in next && next[k].hostname == h && next[k].tenant == t && Reaches(next[k]);
      if k in db.rows {
        assert RowOk(db.rows[k]);
        RowSurvives(db, step, k);
        RowReached(db, step, k);
      } else {
        NewRowReaches(db, step, k);
      }
    }
    if Serves(db.rows, h, t) && !Drops(db, step, h, t) {
      var k :| k in db.rows && db.rows[k].hostname == h && db.rows[k].tenant == t && Reaches(db.rows[k]);
      RowStaysReached(db, step, k);
      RowSurvives(db, step, k);
    }
    if Raises(db, step, h, t) {
      var k := RaisedRow(db, step, h, t);
    }
  }

  /** A claim, a taken-over one included, changes nothing any host resolves to. */
  lemma ClaimIsSilent(db: Db, via: string, t: nat, host: string, badName: bool, limit: nat, now: nat)
    requires TableInv(db) && Serves(db.rows, via, t)
    ensures forall h, u :: Serves(OrSame(AddDomain(db, t, host, badName, limit, now), db).rows, h, u) <==> Serves(db.rows, h, u)
  {
    var step := Claim(via, t, host, badName, limit, now);
    forall h, u ensures Serves(Next(db, step).rows, h, u) <==> Serves(db.rows, h, u) {
      ServesAfter(db, step, h, u);
    }
  }

  /** Some step of the run ends t's use of h. */
  ghost predicate DroppedIn(w: World, steps: seq<Step>, h: string, t: nat)
    decreases |steps|
  {
    steps != [] && (Drops(w.db, steps[0], h, t) || DroppedIn(After(w, steps[0]), steps[1..], h, t))
  }

  /** Over any run, a hostname that resolved to t and no longer does, or now resolves to
      another tenant, was given up on the way by one of the four steps. */
  lemma {:induction false} OwnershipOverRuns(w: World, steps: seq<Step>, h: string, t: nat)
    requires Inv(w) && Possible(w, steps) && Serves(w.db.rows, h, t)
    ensures !Serves(Run(w, steps).db.rows, h, t) ==> DroppedIn(w, steps, h, t)
    ensures forall u | Serves(Run(w, steps).db.rows, h, u) && u != t :: DroppedIn(w, steps, h, t)
    decreases |steps|
  {
    InvRun(w, steps);
    if steps != [] {
      InvNext(w, steps[0]);
      ServesAfter(w.db, steps[0], h, t);
      if !Drops(w.db, steps[0], h, t) {
        OwnershipOverRuns(After(w, steps[0]), steps[1..], h, t);
      }
    } else {
      forall u | Serves(w.db.rows, h, u) ensures u == t { OneOwner(w.db.rows, h, t, u); }
    }
  }

  /** On every reachable table every tenant that has rows has exactly one primary domain, it is
      its own host or a served one, and its primary host resolves back to it. */
  lemma PrimaryHostResolves(w: World, steps: seq<Step>, t: nat)
    requires Inv(w) && Possible(w, steps) && !NoRowsOf(Run(w, steps).db.rows, t)
    ensures var rows := Run(w, steps).db.rows;
            && Serves(rows, PrimaryHost(rows, t), t)
            && exists p :: p in rows && rows[p].tenant == t && rows[p].primary && Reaches(rows[p])
                           && rows[p].hostname == PrimaryHost(rows, t)
                           && forall k | k in rows && rows[k].tenant == t && rows[k].primary :: k == p
  {
    InvRun(w, steps);
    var db := Run(w, steps).db;
    var k :| k in db.rows && db.rows[k].tenant == t;
    assert HasPrimary(db.rows, db.rows[k].tenant);
    var p :| p in db.rows && db.rows[p].tenant == t && db.rows[p].primary;
    assert RowOk(db.rows[p]);
    assert p in PrimaryIds(db.rows, t);
    assert Least(PrimaryIds(db.rows, t)) == p;
  }

  // The worker's selections

  lemma StaysForAdvance(db: Db, step: Step, id: nat)
    requires id in db.rows && id < db.nextId && Enabled(db, step) && id in Next(db, step).rows
    ensures ForAdvance(db.rows[id]) && !(step.WorkerAdvance? && step.id == id) ==> ForAdvance(Next(db, step).rows[id])
  {
    StepFrame(db, step);
    hide FallBackToHome, Visit, HomeId;
  }

  lemma StaysForHealth(db: Db, step: Step, id: nat)
    requires id in db.rows && id < db.nextId && Enabled(db, step) && id in Next(db, step).rows
    ensures ForHealth(db.rows[id]) && !(step.WorkerHealth? && step.id == id) ==> ForHealth(Next(db, step).rows[id])
  {
    StepFrame(db, step);
    hide FallBackToHome, Visit, HomeId;
  }

  lemma StaysForRemove(db: Db, step: Step, id: nat)
    requires id in db.rows && id < db.nextId && Enabled(db, step) && id in Next(db, step).rows
    ensures ForRemove(db.rows[id]) && !(step.WorkerRemove? && step.id == id) ==> ForRemove(Next(db, step).rows[id])
  {
    StepFrame(db, step);
    hide FallBackToHome, Visit, HomeId;
  }

  /** A row the worker selected is still as selected, or gone, when its visit comes, whatever
      happens to other rows and whatever the tenant does in between. */
  lemma SelectionStands(db: Db, step: Step, id: nat)
    requires id in db.rows && id < db.nextId && Enabled(db, step) && id in Next(db, step).rows
    ensures Next(db, step).rows[id].tenant == db.rows[id].tenant
    ensures ForAdvance(db.rows[id]) && !(step.WorkerAdvance? && step.id == id) ==> ForAdvance(Next(db, step).rows[id])
    ensures ForHealth(db.rows[id]) && !(step.WorkerHealth? && step.id == id) ==> ForHealth(Next(db, step).rows[id])
    ensures ForRemove(db.rows[id]) && !(step.WorkerRemove? && step.id == id) ==> ForRemove(Next(db, step).rows[id])
  {
    hide Next, ForAdvance, ForHealth, ForRemove;
    RowSurvives(db, step, id);
    StaysForAdvance(db, step, id);
    StaysForHealth(db, step, id);
    StaysForRemove(db, step, id);
  }

  /** No step of the run is a visit of the row. */
  predicate NoVisitOf(steps: seq<Step>, id: nat) {
    forall s | s in steps && (s.WorkerAdvance? || s.WorkerHealth? || s.WorkerRemove?) :: s.id != id
  }

  /** From its selection to its visit, over any run: the row is as selected, or gone. */
  lemma {:induction false} SelectionLasts(w: World, steps: seq<Step>, id: nat)
    requires id in w.db.rows && id < w.db.nextId && Possible(w, steps) && NoVisitOf(steps, id)
    ensures var end := Run(w, steps).db;
            id in end.rows ==>
              && end.rows[id].tenant == w.db.rows[id].tenant && end.rows[id].hostname == w.db.rows[id].hostname
              && (ForAdvance(w.db.rows[id]) ==> ForAdvance(end.rows[id]))
              && (ForHealth(w.db.rows[id]) ==> ForHealth(end.rows[id]))
              && (ForRemove(w.db.rows[id]) ==> ForRemove(end.rows[id]))
    decreases |steps|
  {
    if steps != [] {
      hide After, Enabled, ForAdvance, ForHealth, ForRemove;
      var next := After(w, steps[0]);
      assert steps[0] in steps && forall s | s in steps[1..] :: s in steps;
      NextIs(w, steps[0]);
      IdsGrow(w.db, steps[0]);
      if id in next.db.rows {
        SelectionStands(w.db, steps[0], id);
        RowSurvives(w.db, steps[0], id);
        SelectionLasts(next, steps[1..], id);
      } else {
        GoneStays(next, steps[1..], id);
      }
    }
  }

  lemma NextIs(w: World, step: Step)
    ensures After(w, step).db == Next(w.db, step)
  {
  }

  lemma IdsGrow(db: Db, step: Step)
    ensures db.nextId <= Next(db, step).nextId
    ensures forall k | k in Next(db, step).rows && k !in db.rows :: k >= db.nextId
  {
    StepFrame(db, step);
    hide FallBackToHome, HomeId, Visit, Probed, IsReleased;
  }

  /** Ids are not used twice. */
  lemma {:induction false} GoneStays(w: World, steps: seq<Step>, id: nat)
    requires id !in w.db.rows && id < w.db.nextId
    ensures id !in Run(w, steps).db.rows
    decreases |steps|
  {
    if steps != [] {
      hide After, Next;
      NextIs(w, steps[0]);
      IdsGrow(w.db, steps[0]);
      GoneStays(After(w, steps[0]), steps[1..], id);
    }
  }

  // Attempts for one hostname

  ghost predicate ClaimedIn(w: World, steps: seq<Step>, h: string)
    decreases |steps|
  {
    steps != [] && (Claims(w.db, steps[0], h) || ClaimedIn(After(w, steps[0]), steps[1..], h))
  }

  /** The step adds a row for the name. */
  predicate Claims(db: Db, step: Step, h: string) {
    step.Claim? && step.host == h && AddDomain(db, step.tid, h, step.badName, step.limit, step.now).Ok?
  }

  lemma NewRowIsClaimed(db: Db, step: Step, k: nat)
    requires k !in db.rows && k in Next(db, step).rows && Next(db, step).rows[k].kind == Custom
    ensures Claims(db, step, Next(db, step).rows[k].hostname)
  {
    StepFrame(db, step);
    hide FallBackToHome, HomeId, Visit, Probed, IsReleased;
  }

  lemma CustomStays(db: Db, step: Step, k: nat)
    requires k in db.rows && k < db.nextId && k in Next(db, step).rows
    ensures Next(db, step).rows[k].kind == db.rows[k].kind
  {
    KindStays(db, step, k);
  }

  /** A custom row that was not there before was claimed on the way; one that was has kept its name. */
  lemma {:induction false} RowsOfRun(w: World, steps: seq<Step>, k: nat)
    requires Inv(w) && Possible(w, steps)
    requires k in Run(w, steps).db.rows && Run(w, steps).db.rows[k].kind == Custom
    ensures if k in w.db.rows then w.db.rows[k].hostname == Run(w, steps).db.rows[k].hostname
            else ClaimedIn(w, steps, Run(w, steps).db.rows[k].hostname)
    decreases |steps|
  {
    if steps != [] {
      hide After, Next, Enabled, Claims, Inv;
      var next := After(w, steps[0]);
      NextIs(w, steps[0]);
      InvNext(w, steps[0]);
      RowsOfRun(next, steps[1..], k);
      if k in next.db.rows {
        if k in w.db.rows {
          IdOk(w, k);
          RowSurvives(w.db, steps[0], k);
        } else if next.db.rows[k].kind == Custom {
          NewRowIsClaimed(w.db, steps[0], k);
        } else {
          KindLasts(next, steps[1..], k);
        }
      } else if k in w.db.rows {
        IdOk(w, k);
        IdsGrow(w.db, steps[0]);
        GoneStays(next, steps[1..], k);
      }
    }
  }

  lemma IdOk(w: World, k: nat)
    requires Inv(w) && k in w.db.rows
    ensures k < w.db.nextId
  {
  }

  lemma {:induction false} KindLasts(w: World, steps: seq<Step>, k: nat)
    requires Inv(w) && Possible(w, steps) && k in w.db.rows && k in Run(w, steps).db.rows
    ensures Run(w, steps).db.rows[k].kind == w.db.rows[k].kind
    decreases |steps|
  {
    if steps != [] {
      hide After, Next, Enabled, Inv;
      var next := After(w, steps[0]);
      NextIs(w, steps[0]);
      InvNext(w, steps[0]);
      IdOk(w, k);
      if k in next.db.rows {
        CustomStays(w.db, steps[0], k);
        KindLasts(next, steps[1..], k);
      } else {
        IdsGrow(w.db, steps[0]);
        GoneStays(next, steps[1..], k);
      }
    }
  }

  /** Over any run, two attempts for one hostname are less than an hour apart only if `check_now` put
      its domain back in between, or the name was removed and claimed anew. */
  lemma HostAttemptsApart(w: World, first: Step, between: seq<Step>, second: Step, h: string)
    requires Inv(w) && Enabled(w.db, first) && Possible(After(w, first), between)
    requires Enabled(Run(After(w, first), between).db, second)
    requires StartsAttempt(w.db, first) && w.db.rows[first.id].hostname == h
    requires StartsAttempt(Run(After(w, first), between).db, second)
    requires Run(After(w, first), between).db.rows[second.id].hostname == h
    ensures second.at < first.at + ISSUE_EVERY ==>
              PutBackIn(After(w, first), between, first.id) || ClaimedIn(After(w, first), between, h)
  {
    var w1 := After(w, first);
    AttemptedRow(w, first);
    InvNext(w, first);
    InvRun(w1, between);
    AttemptIsCustom(Run(w1, between), second);
    RowsOfRun(w1, between, second.id);
    if second.id in w1.db.rows {
      SameNameSameRow(w1, first.id, second.id);
      AttemptsApart(w, first, between, second, first.id);
    }
    hide After, Next, Inv;
  }

  lemma AttemptedRow(w: World, step: Step)
    requires Inv(w) && Enabled(w.db, step) && StartsAttempt(w.db, step)
    ensures step.id in After(w, step).db.rows
    ensures After(w, step).db.rows[step.id].hostname == w.db.rows[step.id].hostname
  {
    VisitFrame(w.db.rows[step.id], step.at, step.dnsOk, step.publish);
    hide Visit;
  }

  lemma AttemptIsCustom(w: World, step: Step)
    requires Enabled(w.db, step) && StartsAttempt(w.db, step)
    ensures step.id in w.db.rows && w.db.rows[step.id].kind == Custom
  {
  }

  lemma SameNameSameRow(w: World, i: nat, j: nat)
    requires Inv(w) && i in w.db.rows && j in w.db.rows && w.db.rows[i].hostname == w.db.rows[j].hostname
    ensures i == j
  {
  }
}

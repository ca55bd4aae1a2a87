/**
 Runs of the domain table: tenants' actions, worker steps, tenant creation, purge and
 status changes in any order. The worker picks its rows first and visits them later,
 so a visit may find a row changed by a tenant in between.
 */
module DomainRuns {
  import opened Util
  import opened Domains

  /** Tenant #1, which exists from the migration on. */
  const FIRST_TENANT: nat := 1

  datatype Probe = Probe(at: nat, ok: bool)

  /** What happened to one domain: certificate attempts since it was added or last put
      back to 'verifying', how many of them a restart cut off, and its health checks
      since it last became active. */
  datatype Log = Log(attempts: seq<nat>, cutOff: nat, probes: seq<Probe>)

  datatype World = World(db: Db, logs: map<nat, Log>)

  /** A refused undo is one whose last transactions the database refuses: the domains are gone by then. */
  datatype Step =
    | Claim(via: string, tid: nat, host: string, badName: bool, limit: nat, now: nat)
    | Recheck(tid: nat, id: nat, now: nat)
    | Promote(tid: nat, id: nat)
    | Withdraw(tid: nat, id: nat, now: nat)
    | WorkerAdvance(tid: nat, id: nat, at: nat, dnsOk: bool, publish: Publish)
    | WorkerHealth(tid: nat, id: nat, at: nat, dnsOk: bool, releaseOk: bool)
    | WorkerRemove(tid: nat, id: nat, releaseOk: bool)
    | CreateTenant(tid: nat)
    | OpenHost(tid: nat, host: string, now: nat)
    | UndoCreation(tid: nat)
    | RefusedUndo(tid: nat)
    | PurgeTenant(tid: nat)
    | ChangeStatus(tid: nat, s: TenantStatus)

  // Rows the worker's three queries select (besides their due times)

  predicate ForAdvance(r: Row) { r.kind == Custom && BeingChecked(r.status) }

  predicate ForHealth(r: Row) { r.kind == Custom && Served(r.status) }

  predicate ForRemove(r: Row) { r.kind == Custom && r.removing }

  predicate NoRowsOf(rows: Rows, t: nat) {
    forall k | k in rows :: rows[k].tenant != t
  }

  /** A claim arrives on a host that already resolves to the tenant; a visit finds the row
      as selected, or gone (lemma SelectionStands); hosts are unique in the database. */
  ghost predicate Enabled(db: Db, step: Step) {
    match step
    case Claim(via, t, _, _, _, _) => Serves(db.rows, via, t)
    case Recheck(_, _, _) => true
    case Promote(_, _) => true
    case Withdraw(_, _, _) => true
    case WorkerAdvance(_, id, _, _, _) => id in db.rows ==> ForAdvance(db.rows[id])
    case WorkerHealth(_, id, _, _, _) => id in db.rows ==> ForHealth(db.rows[id])
    case WorkerRemove(_, id, _) => id in db.rows ==> ForRemove(db.rows[id])
    case CreateTenant(t) => t !in db.tenants && t != FIRST_TENANT
    case OpenHost(t, h, _) => t in db.tenants && Named(db.rows, h) == {} && NoRowsOf(db.rows, t)
    case UndoCreation(t) => t in db.tenants && t != FIRST_TENANT
    case RefusedUndo(t) => t in db.tenants && t != FIRST_TENANT
    case PurgeTenant(t) => t in db.tenants && db.tenants[t] == Cancelled
    case ChangeStatus(t, s) => t in db.tenants && db.tenants[t] != Purged && s != Purged
  }

  function OrSame(r: Result<Db, DomainError>, db: Db): Db {
    match r
    case Ok(db') => db'
    case Err(_) => db
  }

  function Next(db: Db, step: Step): Db {
    match step
    case Claim(_, t, h, badName, limit, now) => OrSame(AddDomain(db, t, h, badName, limit, now), db)
    case Recheck(t, id, now) => OrSame(CheckNow(db, t, id, now), db)
    case Promote(t, id) => OrSame(MakePrimary(db, t, id), db)
    case Withdraw(t, id, now) => OrSame(RequestRemoval(db, t, id, now), db)
    case WorkerAdvance(t, id, at, dnsOk, publish) => Advance(db, t, id, at, dnsOk, publish)
    case WorkerHealth(t, id, at, dnsOk, releaseOk) => Health(db, t, id, at, dnsOk, releaseOk)
    case WorkerRemove(t, id, releaseOk) => Remove(db, t, id, releaseOk)
    case CreateTenant(t) => SetStatus(db, t, InTrial)
    case OpenHost(t, h, now) => PublishHome(db, t, h, now)
    case UndoCreation(t) => var dropped := DropRows(db, t); dropped.(tenants := dropped.tenants - {t})
    case RefusedUndo(t) => DropRows(db, t)
    case PurgeTenant(t) => SetStatus(DropRows(db, t), t, Purged)
    case ChangeStatus(t, s) => SetStatus(db, t, s)
  }

  function LogOf(w: World, id: nat): Log {
    if id in w.logs then w.logs[id] else Log([], 0, [])
  }

  /** Whether the step starts a certificate attempt for the row it visits. */
  predicate StartsAttempt(db: Db, step: Step) {
    && step.WorkerAdvance?
    && Workable(db, step.tid, step.id)
    && Attempts(db.rows[step.id], step.at, step.dnsOk)
    && step.publish != StoppedBefore
  }

  function NextLogs(w: World, step: Step): map<nat, Log> {
    match step
    case Claim(_, t, h, badName, limit, now) =>
      if AddDomain(w.db, t, h, badName, limit, now).Ok? then w.logs[w.db.nextId := Log([], 0, [])] else w.logs
    case Recheck(t, id, now) =>
      if CheckNow(w.db, t, id, now).Ok? && !Served(w.db.rows[id].status)
      then w.logs[id := LogOf(w, id).(attempts := [], cutOff := 0)] else w.logs
    case WorkerAdvance(_, id, at, _, publish) =>
      if !StartsAttempt(w.db, step) then w.logs
      else
        var l := LogOf(w, id);
        w.logs[id := Log(l.attempts + [at], l.cutOff + (if publish == StoppedDuring then 1 else 0),
                         if publish == Published then [] else l.probes)]
    case WorkerHealth(t, id, at, dnsOk, _) =>
      if !Workable(w.db, t, id) then w.logs
      else w.logs[id := LogOf(w, id).(probes := LogOf(w, id).probes + [Probe(at, dnsOk)])]
    case _ => w.logs
  }

  function After(w: World, step: Step): World {
    World(Next(w.db, step), NextLogs(w, step))
  }

  function Run(w: World, steps: seq<Step>): World
    decreases |steps|
  {
    if steps == [] then w else Run(After(w, steps[0]), steps[1..])
  }

  ghost predicate Possible(w: World, steps: seq<Step>)
    decreases |steps|
  {
    steps == [] || (Enabled(w.db, steps[0]) && Possible(After(w, steps[0]), steps[1..]))
  }

  // The invariant

  ghost predicate HasHome(rows: Rows, t: nat) {
    exists k :: k in rows && rows[k].tenant == t && rows[k].kind != Custom
  }

  ghost predicate HasPrimary(rows: Rows, t: nat) {
    exists k :: k in rows && rows[k].tenant == t && rows[k].primary
  }

  ghost predicate UniqueHosts(rows: Rows) {
    forall i, j {:trigger rows[i].hostname, rows[j].hostname} | i in rows && j in rows && rows[i].hostname == rows[j].hostname :: i == j
  }

  ghost predicate OnePrimary(rows: Rows) {
    forall i, j {:trigger rows[i].primary, rows[j].primary} | i in rows && j in rows && rows[i].tenant == rows[j].tenant && rows[i].primary && rows[j].primary :: i == j
  }

  /** Every tenant with a row has a host of its own. */
  ghost predicate Homed(rows: Rows) {
    forall k {:trigger HasHome(rows, rows[k].tenant)} | k in rows :: HasHome(rows, rows[k].tenant)
  }

  /** Every tenant with a row has a primary one. */
  ghost predicate Led(rows: Rows) {
    forall k {:trigger HasPrimary(rows, rows[k].tenant)} | k in rows :: HasPrimary(rows, rows[k].tenant)
  }

  predicate RowOk(r: Row) {
    && (r.kind != Custom ==> r.status == Active && !r.removing && r.brokenSince.None?)
    && (Served(r.status) ==> r.verifiedAt.Some? && (r.brokenSince.Some? <==> r.status == DnsBroken))
    && (r.kind == Custom && BeingChecked(r.status) ==> r.nextCheck.Some? && r.pendingUntil.Some?)
    && (r.primary ==> Reaches(r))
  }

  ghost predicate RowsOk(db: Db) {
    forall k | k in db.rows :: k < db.nextId && db.rows[k].tenant in db.tenants && RowOk(db.rows[k])
  }

  ghost predicate TableInv(db: Db) {
    RowsOk(db) && UniqueHosts(db.rows) && OnePrimary(db.rows) && Homed(db.rows) && Led(db.rows)
  }

  predicate Spaced(a: seq<nat>) {
    forall i | 0 < i < |a| :: a[i - 1] + ISSUE_EVERY <= a[i]
  }

  /** The probes end in a run of failures that began at time `since`, right after a good
      check or right after the domain became active. */
  ghost predicate FailingSince(probes: seq<Probe>, since: nat) {
    exists j | 0 <= j < |probes| :: probes[j].at == since && FailureRun(probes, j)
  }

  predicate FailureRun(probes: seq<Probe>, j: nat)
    requires j <= |probes|
  {
    && (j == 0 || probes[j - 1].ok)
    && forall i | j <= i < |probes| :: !probes[i].ok
  }

  ghost predicate LogOk(r: Row, l: Log) {
    && Spaced(l.attempts)
    && |l.attempts| <= MAX_ISSUE_FAILURES + l.cutOff
    && (r.status == Verifying || r.status == PendingDns ==> l.attempts == [] && l.cutOff == 0 && r.failures == 0)
    && (r.status == IssuingCertificate ==>
          && r.failures < MAX_ISSUE_FAILURES
          && |l.attempts| == r.failures + l.cutOff
          && (l.attempts != [] ==> r.lastIssue == Some(l.attempts[|l.attempts| - 1])))
    && (r.status == DnsBroken ==> r.brokenSince.Some? && FailingSince(l.probes, r.brokenSince.value))
    && (r.status == Active ==> l.probes == [] || l.probes[|l.probes| - 1].ok)
  }

  ghost predicate Inv(w: World) {
    && TableInv(w.db)
    && (forall k | k in w.db.rows && w.db.rows[k].kind == Custom :: LogOk(w.db.rows[k], LogOf(w, k)))
  }

  /** The state the one-time migration leaves: tenant #1 on its original host. */
  function Migrated(host: string, now: nat): World {
    World(Db(map[1 := InService],
             map[1 := Row(1, host, Legacy, true, Active, now, Some(now), None, None, 0, None, None, None, false)], 2),
          map[])
  }

  lemma MigratedInv(host: string, now: nat)
    ensures Inv(Migrated(host, now))
  {
  }

  // What the table's operations leave alone

  lemma FallBackFrame(rows: Rows, t: nat)
    ensures FallBackToHome(rows, t).Keys == rows.Keys
    ensures forall k | k in rows :: FallBackToHome(rows, t)[k] == rows[k].(primary := FallBackToHome(rows, t)[k].primary)
  {
  }

  predicate SameName(a: Row, b: Row) {
    a.tenant == b.tenant && a.hostname == b.hostname && a.kind == b.kind && a.primary == b.primary && a.removing == b.removing
  }

  lemma VisitFrame(r: Row, at: nat, dnsOk: bool, publish: Publish)
    ensures SameName(Visit(r, at, dnsOk, publish), r)
  {
  }

  /** The frames of the functions that a step uses. */
  lemma StepFrame(db: Db, step: Step)
    ensures step.Withdraw? || step.WorkerHealth? || step.WorkerRemove? ==>
              && FallBackToHome(db.rows, step.tid).Keys == db.rows.Keys
              && forall k | k in db.rows :: FallBackToHome(db.rows, step.tid)[k]
                                         == db.rows[k].(primary := FallBackToHome(db.rows, step.tid)[k].primary)
    ensures step.WorkerAdvance? && step.id in db.rows ==>
              SameName(Visit(db.rows[step.id], step.at, step.dnsOk, step.publish), db.rows[step.id])
  {
    hide FallBackToHome, Visit;
    if step.Withdraw? || step.WorkerHealth? || step.WorkerRemove? {
      FallBackFrame(db.rows, step.tid);
    } else if step.WorkerAdvance? && step.id in db.rows {
      VisitFrame(db.rows[step.id], step.at, step.dnsOk, step.publish);
    }
  }

  // Each kind of table change keeps the invariant

  /** The rows of b are rows of a, with the same tenant, name and kind. */
  ghost predicate Kept(a: Rows, b: Rows) {
    forall k | k in b :: k in a && b[k].tenant == a[k].tenant && b[k].hostname == a[k].hostname && b[k].kind == a[k].kind
  }

  lemma HomedKept(a: Rows, b: Rows)
    requires Kept(a, b) && Homed(a)
    requires forall k | k in a && k !in b && a[k].kind != Custom :: NoRowsOf(b, a[k].tenant)
    ensures Homed(b)
  {
    forall k | k in b ensures HasHome(b, b[k].tenant) {
      assert HasHome(a, a[k].tenant);
      var h :| h in a && a[h].tenant == b[k].tenant && a[h].kind != Custom;
      assert h in b;
    }
  }

  lemma LedKept(a: Rows, b: Rows)
    requires Kept(a, b) && Led(a)
    requires forall k | k in b :: b[k].primary == a[k].primary
    requires forall k | k in a && k !in b && a[k].primary :: NoRowsOf(b, a[k].tenant)
    ensures Led(b)
  {
    forall k | k in b ensures HasPrimary(b, b[k].tenant) {
      assert HasPrimary(a, a[k].tenant);
      var p :| p in a && a[p].tenant == b[k].tenant && a[p].primary;
      assert p in b;
    }
  }

  /** A row rewritten in place, still as primary as it was. */
  lemma RewriteKeeps(db: Db, id: nat, r: Row)
    requires TableInv(db) && id in db.rows && RowOk(r)
    requires r.tenant == db.rows[id].tenant && r.hostname == db.rows[id].hostname
    requires r.kind == db.rows[id].kind && r.primary == db.rows[id].primary
    ensures TableInv(db.(rows := db.rows[id := r]))
  {
    HomedKept(db.rows, db.rows[id := r]);
    LedKept(db.rows, db.rows[id := r]);
  }

  lemma SetPrimaryLeads(rows: Rows, t: nat, id: nat)
    requires Led(rows) && id in rows && rows[id].tenant == t
    ensures Led(SetPrimary(rows, t, id)) && Kept(rows, SetPrimary(rows, t, id))
  {
    var b := SetPrimary(rows, t, id);
    forall k | k in b ensures HasPrimary(b, b[k].tenant) {
      if b[k].tenant == t {
        assert b[id].primary;
      } else {
        assert HasPrimary(rows, rows[k].tenant);
        var p :| p in rows && rows[p].tenant == b[k].tenant && rows[p].primary;
        assert b[p].primary;
      }
    }
  }

  lemma SetPrimaryUnique(rows: Rows, t: nat, id: nat)
    requires UniqueHosts(rows) && OnePrimary(rows) && id in rows && rows[id].tenant == t
    ensures UniqueHosts(SetPrimary(rows, t, id)) && OnePrimary(SetPrimary(rows, t, id))
  {
  }

  lemma SetPrimaryRows(db: Db, t: nat, id: nat)
    requires RowsOk(db) && Owns(db, t, id) && Reaches(db.rows[id])
    ensures RowsOk(db.(rows := SetPrimary(db.rows, t, id)))
  {
  }

  lemma SetPrimaryKeeps(db: Db, t: nat, id: nat)
    requires TableInv(db) && Owns(db, t, id) && Reaches(db.rows[id])
    ensures TableInv(db.(rows := SetPrimary(db.rows, t, id)))
  {
    SetPrimaryRows(db, t, id);
    SetPrimaryLeads(db.rows, t, id);
    SetPrimaryUnique(db.rows, t, id);
    hide RowsOk, UniqueHosts, OnePrimary, Homed, Led;
    HomedKept(db.rows, SetPrimary(db.rows, t, id));
  }

  lemma FallBackKeeps(db: Db, t: nat, id: nat)
    requires TableInv(db) && Owns(db, t, id) && db.rows[id].kind == Custom
    ensures TableInv(db.(rows := FallBackToHome(db.rows, t)))
    ensures FallBackToHome(db.rows, t).Keys == db.rows.Keys
    ensures FallBackToHome(db.rows, t)[id] == db.rows[id].(primary := false)
  {
    assert HasHome(db.rows, db.rows[id].tenant);
    var home := HomeId(db.rows, t).value;
    assert RowOk(db.rows[home]);
    SetPrimaryKeeps(db, t, home);
  }

  /** A row deleted that is neither primary nor a tenant's own host. */
  lemma DeleteKeeps(db: Db, id: nat)
    requires TableInv(db) && id in db.rows && db.rows[id].kind == Custom && !db.rows[id].primary
    ensures TableInv(db.(rows := db.rows - {id}))
  {
    HomedKept(db.rows, db.rows - {id});
    LedKept(db.rows, db.rows - {id});
  }

  lemma DropKeeps(db: Db, t: nat)
    requires TableInv(db)
    ensures TableInv(DropRows(db, t)) && NoRowsOf(DropRows(db, t).rows, t)
  {
    HomedKept(db.rows, DropRows(db, t).rows);
    LedKept(db.rows, DropRows(db, t).rows);
  }

  /** A row added under a new id and a free name. */
  lemma InsertUnique(rows: Rows, id: nat, r: Row)
    requires UniqueHosts(rows) && Named(rows, r.hostname) == {}
    ensures UniqueHosts(rows[id := r])
  {
    forall k | k in rows ensures rows[k].hostname != r.hostname {
      assert k !in Named(rows, r.hostname);
    }
  }

  /** Adding a row that is not primary, for a tenant that has a home. */
  lemma InsertHomed(rows: Rows, id: nat, r: Row)
    requires Homed(rows) && Led(rows) && id !in rows && HasHome(rows, r.tenant)
    ensures Homed(rows[id := r]) && Led(rows[id := r])
  {
    var b := rows[id := r];
    var g :| g in rows && rows[g].tenant == r.tenant && rows[g].kind != Custom;
    forall k | k in b ensures HasHome(b, b[k].tenant) && HasPrimary(b, b[k].tenant) {
      var old_k := if k == id then g else k;
      assert HasHome(rows, rows[old_k].tenant) && HasPrimary(rows, rows[old_k].tenant);
      var h :| h in rows && rows[h].tenant == b[k].tenant && rows[h].kind != Custom;
      var p :| p in rows && rows[p].tenant == b[k].tenant && rows[p].primary;
      assert h in b && p in b && b[h] == rows[h] && b[p] == rows[p];
    }
  }

  lemma InsertKeeps(db: Db, r: Row)
    requires TableInv(db) && r.tenant in db.tenants && RowOk(r) && !r.primary
    requires Named(db.rows, r.hostname) == {} && HasHome(db.rows, r.tenant)
    ensures TableInv(db.(rows := db.rows[db.nextId := r], nextId := db.nextId + 1))
  {
    InsertUnique(db.rows, db.nextId, r);
    InsertHomed(db.rows, db.nextId, r);
  }

  lemma OpenHostHomed(rows: Rows, id: nat, r: Row)
    requires Homed(rows) && Led(rows) && id !in rows && r.kind != Custom && r.primary
    ensures Homed(rows[id := r]) && Led(rows[id := r])
  {
    var b := rows[id := r];
    assert b[id] == r;
    forall k | k in b ensures HasHome(b, b[k].tenant) && HasPrimary(b, b[k].tenant) {
      if k != id {
        assert HasHome(rows, rows[k].tenant) && HasPrimary(rows, rows[k].tenant);
        var h :| h in rows && rows[h].tenant == b[k].tenant && rows[h].kind != Custom;
        var p :| p in rows && rows[p].tenant == b[k].tenant && rows[p].primary;
        assert h in b && p in b && b[h] == rows[h] && b[p] == rows[p];
      }
    }
  }

  lemma OpenHostKeeps(db: Db, t: nat, h: string, now: nat)
    requires TableInv(db) && Enabled(db, OpenHost(t, h, now))
    ensures TableInv(PublishHome(db, t, h, now))
  {
    var r := PublishHome(db, t, h, now).rows[db.nextId];
    InsertUnique(db.rows, db.nextId, r);
    OpenHostHomed(db.rows, db.nextId, r);
  }

  lemma HomeStays(rows: Rows, t: nat, id: nat)
    requires HasHome(rows, t) && id in rows && rows[id].kind == Custom
    ensures HasHome(rows - {id}, t)
  {
    var g :| g in rows && rows[g].tenant == t && rows[g].kind != Custom;
    assert g in rows - {id};
  }

  /** A released row is neither served nor primary nor a home, so a claim may delete it. */
  lemma ClaimKeeps(db: Db, via: string, t: nat, h: string, badName: bool, limit: nat, now: nat)
    requires TableInv(db) && Serves(db.rows, via, t)
    ensures TableInv(OrSame(AddDomain(db, t, h, badName, limit, now), db))
  {
    if AddDomain(db, t, h, badName, limit, now).Ok? {
      var existing := Named(db.rows, h);
      var kept := db.(rows := db.rows - existing);
      var v :| v in db.rows && db.rows[v].hostname == via && db.rows[v].tenant == t && Reaches(db.rows[v]);
      assert HasHome(db.rows, db.rows[v].tenant);
      if existing == {} {
        assert kept.rows == db.rows;
      } else {
        var e :| e in existing;
        assert existing == {e} by { assert forall k | k in existing :: k == e; }
        assert RowOk(db.rows[e]);
        DeleteKeeps(db, e);
        HomeStays(db.rows, t, e);
      }
      assert Named(kept.rows, h) == {};
      InsertKeeps(kept, NewClaim(t, h, now));
    }
  }

  lemma WithdrawKeeps(db: Db, t: nat, id: nat, now: nat)
    requires TableInv(db)
    ensures TableInv(OrSame(RequestRemoval(db, t, id, now), db))
  {
    if RequestRemoval(db, t, id, now).Ok? {
      var mid := db;
      if db.rows[id].primary {
        FallBackKeeps(db, t, id);
        mid := db.(rows := FallBackToHome(db.rows, t));
      }
      var r := mid.rows[id].(removing := true, primary := false, nextCheck := Some(now));
      RewriteKeeps(mid, id, r);
    }
  }

  /** Who is primary once a removal is accepted: the tenant's own host if the domain was, and
      otherwise the row that already was. */
  lemma WithdrawLeaves(db: Db, t: nat, id: nat, now: nat, k: nat)
    requires TableInv(db) && RequestRemoval(db, t, id, now).Ok? && Owns(db, t, k)
    ensures var rows := RequestRemoval(db, t, id, now).value.rows;
            && k in rows && rows[id].removing
            && (rows[k].primary <==> if db.rows[id].primary then HomeId(db.rows, t) == Some(k) else db.rows[k].primary)
  {
    if db.rows[id].primary {
      FallBackKeeps(db, t, id);
      assert HasHome(db.rows, db.rows[id].tenant);
    }
  }

  lemma HealthKeeps(db: Db, t: nat, id: nat, at: nat, dnsOk: bool, releaseOk: bool)
    requires TableInv(db) && (id in db.rows ==> ForHealth(db.rows[id]))
    ensures TableInv(Health(db, t, id, at, dnsOk, releaseOk))
  {
    if Workable(db, t, id) {
      if Releases(db.rows[id], at, dnsOk, releaseOk) {
        var mid := db;
        if db.rows[id].primary {
          FallBackKeeps(db, t, id);
          mid := db.(rows := FallBackToHome(db.rows, t));
        }
        RewriteKeeps(mid, id, mid.rows[id].(lastChecked := Some(at), nextCheck := None, status := Failed, primary := false));
      } else {
        RewriteKeeps(db, id, Probed(db.rows[id], at, dnsOk));
      }
    }
  }

  lemma RecheckKeeps(db: Db, t: nat, id: nat, now: nat)
    requires TableInv(db)
    ensures TableInv(Next(db, Recheck(t, id, now)))
  {
    if CheckNow(db, t, id, now).Ok? {
      assert RowOk(db.rows[id]);
      RewriteKeeps(db, id, Rechecked(db.rows[id], now));
    }
  }

  lemma PromoteKeeps(db: Db, t: nat, id: nat)
    requires TableInv(db)
    ensures TableInv(Next(db, Promote(t, id)))
  {
    if MakePrimary(db, t, id).Ok? {
      assert RowOk(db.rows[id]);
      SetPrimaryKeeps(db, t, id);
    }
  }

  lemma AdvanceKeeps(db: Db, t: nat, id: nat, at: nat, dnsOk: bool, publish: Publish)
    requires TableInv(db) && Enabled(db, WorkerAdvance(t, id, at, dnsOk, publish))
    ensures TableInv(Next(db, WorkerAdvance(t, id, at, dnsOk, publish)))
  {
    if Workable(db, t, id) {
      assert RowOk(db.rows[id]);
      RewriteKeeps(db, id, Visit(db.rows[id], at, dnsOk, publish));
    }
  }

  lemma RemoveKeeps(db: Db, t: nat, id: nat, releaseOk: bool)
    requires TableInv(db) && Enabled(db, WorkerRemove(t, id, releaseOk))
    ensures TableInv(Next(db, WorkerRemove(t, id, releaseOk)))
  {
    if Owns(db, t, id) && releaseOk {
      assert RowOk(db.rows[id]);
      DeleteKeeps(db, id);
    }
  }

  lemma StatusKeeps(db: Db, t: nat, s: TenantStatus)
    requires TableInv(db)
    ensures TableInv(SetStatus(db, t, s))
  {
  }

  lemma UndoKeeps(db: Db, t: nat)
    requires TableInv(db)
    ensures TableInv(Next(db, UndoCreation(t)))
  {
    DropKeeps(db, t);
  }

  lemma TableInvNext(db: Db, step: Step)
    requires TableInv(db) && Enabled(db, step)
    ensures TableInv(Next(db, step))
  {
    hide TableInv;
    match step
    case Claim(via, t, h, badName, limit, now) => ClaimKeeps(db, via, t, h, badName, limit, now);
    case Recheck(t, id, now) => RecheckKeeps(db, t, id, now);
    case Promote(t, id) => PromoteKeeps(db, t, id);
    case Withdraw(t, id, now) => WithdrawKeeps(db, t, id, now);
    case WorkerAdvance(t, id, at, dnsOk, publish) => AdvanceKeeps(db, t, id, at, dnsOk, publish);
    case WorkerHealth(t, id, at, dnsOk, releaseOk) => HealthKeeps(db, t, id, at, dnsOk, releaseOk);
    case WorkerRemove(t, id, releaseOk) => RemoveKeeps(db, t, id, releaseOk);
    case CreateTenant(t) => StatusKeeps(db, t, InTrial);
    case OpenHost(t, h, now) => OpenHostKeeps(db, t, h, now);
    case UndoCreation(t) => UndoKeeps(db, t);
    case RefusedUndo(t) => DropKeeps(db, t);
    case PurgeTenant(t) =>
      DropKeeps(db, t);
      StatusKeeps(DropRows(db, t), t, Purged);
    case ChangeStatus(t, s) => StatusKeeps(db, t, s);
  }
}

/**
 The tenants' domains as the dashboard keeps them: the table and the host cache are
 fields that every action and every worker visit updates in place.
 */
module Directories {
  import opened Util
  import opened Domains
  import opened DomainRuns
  import opened DomainHistory
  import opened DomainOutcomes
  import opened DomainOwnership
  import opened HostCache

  datatype View = View(db: Db, cache: Cache)

  function ViewAfter(v: View, step: Step): View {
    View(Next(v.db, step), CacheAfter(v.db, v.cache, step))
  }

  function ViewRun(v: View, steps: seq<Step>): View
    decreases |steps|
  {
    if steps == [] then v else ViewRun(ViewAfter(v, steps[0]), steps[1..])
  }

  // The table and its cache together

  /** Every entry of the cache is what the lookup would find now. */
  ghost predicate CacheTrue(v: View) {
    forall h | h in v.cache :: v.cache[h].seen == Lookup(v.db, h)
  }

  /** No entry is about the tenant. */
  predicate NoEntryOf(cache: Cache, t: nat) {
    forall h | h in cache && cache[h].seen.Some? :: cache[h].seen.value.tenant != t
  }

  /** A change of the table, or a request for a host. */
  datatype Happening = Change(step: Step) | Request(host: string, now: nat)

  function ViewHappening(v: View, e: Happening): View {
    match e
    case Change(step) => ViewAfter(v, step)
    case Request(h, now) => View(v.db, Stored(v.db, v.cache, h, now))
  }

  function ViewHappenings(v: View, events: seq<Happening>): View
    decreases |events|
  {
    if events == [] then v else ViewHappenings(ViewHappening(v, events[0]), events[1..])
  }

  /** Each step is possible, and a refused undo finds no entry about its tenant. */
  ghost predicate MayHappen(v: View, events: seq<Happening>)
    decreases |events|
  {
    events == [] || (
      && (events[0].Change? ==> Enabled(v.db, events[0].step))
      && (events[0].Change? && events[0].step.RefusedUndo? ==> NoEntryOf(v.cache, events[0].step.tid))
      && MayHappen(ViewHappening(v, events[0]), events[1..]))
  }

  /** A step keeps the cache true; a refused undo does so exactly if no entry is about its tenant. */
  lemma StepKeepsTrue(v: View, step: Step)
    requires TableInv(v.db) && CacheTrue(v) && Enabled(v.db, step)
    ensures CacheTrue(ViewAfter(v, step)) <==> (step.RefusedUndo? ==> NoEntryOf(v.cache, step.tid))
  {
    hide TableInv, Lookup, Next, Enabled;
    if step.RefusedUndo? {
      forall h | h in v.cache
        ensures v.cache[h].seen == Lookup(Next(v.db, step), h)
                <==> !(v.cache[h].seen.Some? && v.cache[h].seen.value.tenant == step.tid)
      {
        RefusedUndoLookup(v.db, step.tid, h);
      }
    } else if !Invalidates(v.db, step) {
      forall h | h in v.cache ensures v.cache[h].seen == Lookup(Next(v.db, step), h) {
        SilentStep(v.db, step, h);
      }
    }
  }

  /** Whatever requests, requests of tenants, visits, creations and purges come in any order, at any
      time: the next request for any host is answered with the tenant that a lookup in the table
      finds, and with its status. */
  lemma {:induction false} AnswersStayTrue(v: View, events: seq<Happening>, h: string, now: nat)
    requires TableInv(v.db) && CacheTrue(v) && MayHappen(v, events)
    ensures var end := ViewHappenings(v, events);
            TableInv(end.db) && CacheTrue(end) && Answer(end.db, end.cache, h, now) == Lookup(end.db, h)
    decreases |events|
  {
    if events != [] {
      hide TableInv, Lookup, Next, Enabled, NoEntryOf;
      if events[0].Change? {
        TableInvNext(v.db, events[0].step);
        StepKeepsTrue(v, events[0].step);
      }
      AnswersStayTrue(ViewHappening(v, events[0]), events[1..], h, now);
    }
  }

  // The worker's queue

  /** What DNS, certbot and the root helper answer during one pass, by row id. */
  datatype Answers = Answers(dnsOk: nat -> bool, publish: nat -> Publish, releaseOk: nat -> bool)

  datatype Task = Removal | Check | HealthCheck

  function Job(task: Task, tid: nat, id: nat, at: nat, a: Answers): Step {
    match task
    case Removal => WorkerRemove(tid, id, a.releaseOk(id))
    case Check => WorkerAdvance(tid, id, at, a.dnsOk(id), a.publish(id))
    case HealthCheck => WorkerHealth(tid, id, at, a.dnsOk(id), a.releaseOk(id))
  }

  /** The rows each of the three queries selects at time `at`. */
  predicate Selects(task: Task, r: Row, at: nat) {
    match task
    case Removal => ForRemove(r)
    case Check => ForAdvance(r) && !r.removing && r.nextCheck.Some? && r.nextCheck.value <= at
    case HealthCheck =>
      && ForHealth(r) && !r.removing
      && ((r.lastChecked.None? || r.lastChecked.value + DAY <= at) || (r.nextCheck.Some? && r.nextCheck.value <= at))
  }

  function Selection(task: Task, rows: Rows, at: nat): map<nat, nat> {
    map id | id in rows && Selects(task, rows[id], at) :: rows[id].tenant
  }

  /** One visit for each selected row, in the order of their ids. */
  function Jobs(task: Task, owners: map<nat, nat>, at: nat, a: Answers): seq<Step>
    decreases |owners|
  {
    if owners == map[] then []
    else
      var id := Least(owners.Keys);
      [Job(task, owners[id], id, at, a)] + Jobs(task, owners - {id}, at, a)
  }

  function Pass(rows: Rows, at: nat, a: Answers): seq<Step> {
    Jobs(Removal, Selection(Removal, rows, at), at, a)
    + Jobs(Check, Selection(Check, rows, at), at, a)
    + Jobs(HealthCheck, Selection(HealthCheck, rows, at), at, a)
  }

  class Directory {
    var tenants: map<nat, TenantStatus>
    var rows: Rows
    var nextId: nat
    var cache: Cache
    var guides: set<nat>

    function Table(): Db
      reads this
    {
      Db(tenants, rows, nextId)
    }

    function Now(): View
      reads this
    {
      View(Table(), cache)
    }

    constructor (host: string, now: nat)
      ensures Now() == View(Migrated(host, now).db, map[]) && guides == {}
      ensures TableInv(Table()) && CacheTrue(Now())
    {
      tenants := map[1 := InService];
      rows := map[1 := Row(1, host, Legacy, true, Active, now, Some(now), None, None, 0, None, None, None, false)];
      nextId := 2;
      cache := map[];
      guides := {};
      new;
      MigratedInv(host, now);
    }

    method InvalidateCache()
      modifies this`cache
      ensures cache == map[]
    {
      cache := map[];
    }

    method ResolveHost(h: string, now: nat) returns (seen: Option<Seen>)
      modifies this`cache
      ensures seen == Answer(old(Table()), old(cache), h, now)
      ensures cache == Stored(old(Table()), old(cache), h, now)
      ensures old(CacheTrue(Now())) ==> seen == Lookup(old(Table()), h) && CacheTrue(Now())
      ensures h in old(cache) && now < old(cache)[h].at + 30_000 ==> seen == old(cache)[h].seen && cache == old(cache)
      ensures h !in old(cache) || old(cache)[h].at + 30_000 <= now ==>
                && seen == Lookup(old(Table()), h) && h in cache && cache[h] == Entry(now, seen)
                && (forall g | g in cache && g != h :: g in old(cache) && cache[g] == old(cache)[g])
      ensures |old(cache)| <= MAX_ENTRIES + 1 ==> |cache| <= MAX_ENTRIES + 1
    {
      if h in cache {
        var hit := cache[h];
        if now < hit.at + TTL {
          return hit.seen;
        }
      }
      seen := Lookup(Table(), h);
      if |cache| > MAX_ENTRIES {
        cache := map[];
      }
      cache := cache[h := Entry(now, seen)];
    }

    method Add(t: nat, h: string, badName: bool, limit: nat, now: nat, via: string) returns (r: Result<nat, DomainError>)
      modifies this`rows, this`nextId, this`cache
      ensures Now() == ViewAfter(old(Now()), Claim(via, t, h, badName, limit, now))
      ensures match r
              case Ok(id) => AddDomain(old(Table()), t, h, badName, limit, now) == Ok(Table()) && id == old(nextId)
              case Err(e) => AddDomain(old(Table()), t, h, badName, limit, now) == Err(e)
    {
      if t !in tenants || !IsOpen(tenants[t]) {
        return Err(NotOpen);
      }
      if badName {
        return Err(BadName);
      }
      var existing := Named(rows, h);
      var kept := rows;
      if existing != {} {
        if exists k | k in existing :: rows[k].tenant == t {
          return Err(AlreadyListed);
        }
        if exists k | k in existing :: !IsReleased(rows[k], now) {
          return Err(InUse);
        }
        kept := rows - existing;
      }
      assert kept == rows - existing;
      var count := |CustomOf(kept, t)|;
      if count >= limit {
        return Err(LimitReached);
      }
      var id := nextId;
      rows := kept[id := NewClaim(t, h, now)];
      nextId := nextId + 1;
      InvalidateCache();
      r := Ok(id);
    }

    method Recheck(t: nat, id: nat, now: nat) returns (r: Result<(), DomainError>)
      modifies this`rows
      ensures Now() == ViewAfter(old(Now()), Step.Recheck(t, id, now))
      ensures r.Ok? <==> CheckNow(old(Table()), t, id, now).Ok?
    {
      if !(id in rows && rows[id].tenant == t) {
        return Err(NotOnList);
      }
      var row := rows[id];
      if row.kind != Custom || row.removing {
        return Err(OnlyCustomChecked);
      }
      if Served(row.status) {
        rows := rows[id := row.(nextCheck := Some(now))];
      } else {
        rows := rows[id := row.(status := Verifying, nextCheck := Some(now), pendingUntil := Some(now + PENDING_WINDOW),
                                failures := 0)];
      }
      r := Ok(());
    }

    method SetPrimaryRow(t: nat, id: nat)
      requires id in rows && rows[id].tenant == t
      modifies this`rows
      ensures rows == SetPrimary(old(rows), t, id)
    {
      rows := map k | k in rows :: if rows[k].tenant == t && rows[k].primary then rows[k].(primary := false) else rows[k];
      rows := rows[id := rows[id].(primary := true)];
    }

    method FallBack(t: nat)
      modifies this`rows, this`guides
      ensures rows == FallBackToHome(old(rows), t)
      ensures guides == if HomeId(old(rows), t).Some? then old(guides) + {t} else old(guides)
    {
      var home := HomeId(rows, t);
      if home.Some? {
        SetPrimaryRow(t, home.value);
        guides := guides + {t};
      }
    }

    method Promote(t: nat, id: nat) returns (r: Result<string, DomainError>)
      modifies this`rows, this`cache, this`guides
      ensures Now() == ViewAfter(old(Now()), Step.Promote(t, id))
      ensures r.Ok? ==> id in old(rows) && r.value == old(rows)[id].hostname && guides == old(guides) + {t}
      ensures r.Err? ==> guides == old(guides) && MakePrimary(old(Table()), t, id) == Err(r.error)
    {
      if !(id in rows && rows[id].tenant == t) {
        return Err(NotOnList);
      }
      var row := rows[id];
      if row.removing || (row.kind == Custom && row.status != Active) {
        return Err(OnlyActivePrimary);
      }
      SetPrimaryRow(t, id);
      InvalidateCache();
      guides := guides + {t};
      r := Ok(row.hostname);
    }

    method Withdraw(t: nat, id: nat, now: nat) returns (r: Result<string, DomainError>)
      modifies this`rows, this`cache, this`guides
      ensures Now() == ViewAfter(old(Now()), Step.Withdraw(t, id, now))
      ensures r.Ok? ==> id in old(rows) && r.value == old(rows)[id].hostname
      ensures guides == if r.Ok? && old(rows)[id].primary && HomeId(old(rows), t).Some? then old(guides) + {t} else old(guides)
      ensures r.Err? ==> RequestRemoval(old(Table()), t, id, now) == Err(r.error)
    {
      if !(id in rows && rows[id].tenant == t) {
        return Err(NotOnList);
      }
      var row := rows[id];
      if row.kind != Custom {
        return Err(PartOfAccount);
      }
      if row.primary {
        FallBack(t);
      }
      rows := rows[id := rows[id].(removing := true, primary := false, nextCheck := Some(now))];
      InvalidateCache();
      r := Ok(row.hostname);
    }

    /** `_issue` for a row that is being issued. */
    method IssueRow(id: nat, at: nat, publish: Publish)
      requires id in rows
      modifies this`rows, this`cache
      ensures rows == old(rows)[id := Issue(old(rows)[id], at, publish)]
      ensures cache == if publish == Published then map[] else old(cache)
    {
      if publish == StoppedBefore {
        assert rows == rows[id := rows[id]];
        return;
      }
      rows := rows[id := rows[id].(lastIssue := Some(at))];
      if publish == StoppedDuring {
        return;
      }
      if publish == Refused {
        var failures := rows[id].failures + 1;
        var gaveUp := failures >= MAX_ISSUE_FAILURES;
        rows := rows[id := rows[id].(failures := failures, status := if gaveUp then Failed else IssuingCertificate,
                                     nextCheck := if gaveUp then None else Some(at + ISSUE_EVERY))];
        return;
      }
      var verified := if rows[id].verifiedAt.Some? then rows[id].verifiedAt else Some(at);
      rows := rows[id := rows[id].(status := Active, verifiedAt := verified, failures := 0, nextCheck := None,
                                   brokenSince := None)];
      InvalidateCache();
    }

    method AdvanceRow(t: nat, id: nat, at: nat, dnsOk: bool, publish: Publish)
      modifies this`rows, this`cache
      ensures Now() == ViewAfter(old(Now()), WorkerAdvance(t, id, at, dnsOk, publish))
      ensures OpenOwner(old(Table()), t, id) && !dnsOk && old(rows)[id].status != IssuingCertificate ==>
                && cache == old(cache)
                && rows == old(rows)[id := if PastWindow(old(rows)[id], at) then old(rows)[id].(status := Failed, nextCheck := None)
                                           else old(rows)[id].(status := PendingDns, nextCheck := Some(at + 300),
                                                               lastChecked := Some(at))]
      ensures OpenOwner(old(Table()), t, id) && AsksCertificate(old(rows)[id], at, dnsOk) && publish == Published ==>
                cache == map[] && rows[id].status == Active
    {
      hide Visit;
      if !(id in rows && rows[id].tenant == t) || t !in tenants || !IsOpen(tenants[t]) {
        return;
      }
      VisitRow(id, at, dnsOk, publish);
      assert Now() == ViewAfter(old(Now()), WorkerAdvance(t, id, at, dnsOk, publish));
      hide Next, CacheAfter;
    }

    /** The rest of `_advance`, for a row of an open tenant. */
    method VisitRow(id: nat, at: nat, dnsOk: bool, publish: Publish)
      requires id in rows
      modifies this`rows, this`cache
      ensures rows == old(rows)[id := Visit(old(rows)[id], at, dnsOk, publish)]
      ensures cache == if Attempts(old(rows)[id], at, dnsOk) && publish == Published then map[] else old(cache)
      ensures !dnsOk && old(rows)[id].status != IssuingCertificate ==>
                rows[id] == if PastWindow(old(rows)[id], at) then old(rows)[id].(status := Failed, nextCheck := None)
                            else old(rows)[id].(status := PendingDns, nextCheck := Some(at + 300), lastChecked := Some(at))
      ensures AsksCertificate(old(rows)[id], at, dnsOk) && publish == Published ==> cache == map[] && rows[id].status == Active
    {
      var row := rows[id];
      if row.status != IssuingCertificate && row.pendingUntil.Some? && at > row.pendingUntil.value {
        rows := rows[id := row.(status := Failed, nextCheck := None)];
        return;
      }
      if row.status == IssuingCertificate {
        if row.lastIssue.Some? && at < row.lastIssue.value + ISSUE_EVERY {
          rows := rows[id := row.(nextCheck := Some(row.lastIssue.value + ISSUE_EVERY))];
          return;
        }
      } else {
        rows := rows[id := row.(lastChecked := Some(at), status := if dnsOk then IssuingCertificate else PendingDns,
                                nextCheck := if dnsOk then Some(at) else Some(at + CHECK_EVERY))];
        if !dnsOk {
          return;
        }
      }
      IssueRow(id, at, publish);
    }

    method HealthRow(t: nat, id: nat, at: nat, dnsOk: bool, releaseOk: bool)
      modifies this`rows, this`cache, this`guides
      ensures Now() == ViewAfter(old(Now()), WorkerHealth(t, id, at, dnsOk, releaseOk))
      ensures guides == if && Workable(old(Table()), t, id) && Releases(old(rows)[id], at, dnsOk, releaseOk)
                           && old(rows)[id].primary && HomeId(old(rows), t).Some?
                        then old(guides) + {t} else old(guides)
    {
      hide Probed, Releases, FallBackToHome;
      if !(id in rows && rows[id].tenant == t) || t !in tenants || !IsOpen(tenants[t]) {
        return;
      }
      ProbeRow(t, id, at, dnsOk, releaseOk);
      FallBackFrame(old(rows), t);
    }

    /** The rest of `_health`, for a row of an open tenant. */
    method ProbeRow(t: nat, id: nat, at: nat, dnsOk: bool, releaseOk: bool)
      requires id in rows && rows[id].tenant == t
      modifies this`rows, this`cache, this`guides
      ensures id in FallBackToHome(old(rows), t)
      ensures rows == if !Releases(old(rows)[id], at, dnsOk, releaseOk) then old(rows)[id := Probed(old(rows)[id], at, dnsOk)]
                      else
                        var left := if old(rows)[id].primary then FallBackToHome(old(rows), t) else old(rows);
                        left[id := left[id].(lastChecked := Some(at), nextCheck := None, status := Failed, primary := false)]
      ensures cache == if Releases(old(rows)[id], at, dnsOk, releaseOk) then map[] else old(cache)
      ensures guides == if Releases(old(rows)[id], at, dnsOk, releaseOk) && old(rows)[id].primary && HomeId(old(rows), t).Some?
                        then old(guides) + {t} else old(guides)
    {
      hide HomeId, FallBackToHome;
      FallBackFrame(rows, t);
      var row := rows[id];
      rows := rows[id := row.(lastChecked := Some(at), nextCheck := None)];
      if dnsOk {
        if row.status == DnsBroken {
          rows := rows[id := rows[id].(status := Active, brokenSince := None)];
        }
        return;
      }
      if row.status == Active {
        rows := rows[id := rows[id].(status := DnsBroken, brokenSince := Some(at))];
        return;
      }
      var since := if row.brokenSince.Some? then row.brokenSince.value else at;
      if at < since + BROKEN_WINDOW {
        return;
      }
      if !releaseOk {
        rows := rows[id := rows[id].(nextCheck := Some(at + HOUR))];
        return;
      }
      ReleasedSame(old(rows), id, at, t);
      ReleaseRow(t, id);
    }

    /** The end of a release, once the root helper has taken the vhost and certificate away. */
    method ReleaseRow(t: nat, id: nat)
      requires id in rows && rows[id].tenant == t
      modifies this`rows, this`cache, this`guides
      ensures rows == (if old(rows)[id].primary then FallBackToHome(old(rows), t) else old(rows))
                      [id := old(rows)[id].(status := Failed, primary := false)]
      ensures cache == map[]
      ensures guides == if old(rows)[id].primary && HomeId(old(rows), t).Some? then old(guides) + {t} else old(guides)
    {
      if rows[id].primary {
        FallBack(t);
      }
      rows := rows[id := rows[id].(status := Failed, primary := false)];
      InvalidateCache();
    }

    method RemoveRow(t: nat, id: nat, releaseOk: bool)
      modifies this`rows, this`cache, this`guides
      ensures Now() == ViewAfter(old(Now()), WorkerRemove(t, id, releaseOk))
      ensures guides == if Owns(old(Table()), t, id) && releaseOk && old(rows)[id].primary && HomeId(old(rows), t).Some?
                        then old(guides) + {t} else old(guides)
    {
      if !(id in rows && rows[id].tenant == t) || !releaseOk {
        return;
      }
      if rows[id].primary {
        FallBack(t);
      }
      rows := rows - {id};
      InvalidateCache();
    }

    method DoTask(task: Task, tid: nat, id: nat, at: nat, a: Answers)
      modifies this`rows, this`cache, this`guides
      ensures Now() == ViewAfter(old(Now()), Job(task, tid, id, at, a))
    {
      match task {
        case Removal => RemoveRow(tid, id, a.releaseOk(id));
        case Check => AdvanceRow(tid, id, at, a.dnsOk(id), a.publish(id));
        case HealthCheck => HealthRow(tid, id, at, a.dnsOk(id), a.releaseOk(id));
      }
    }

    method DoAll(task: Task, owners: map<nat, nat>, at: nat, a: Answers)
      modifies this`rows, this`cache, this`guides
      ensures Now() == ViewRun(old(Now()), Jobs(task, owners, at, a))
    {
      var todo := owners;
      while todo != map[]
        invariant ViewRun(Now(), Jobs(task, todo, at, a)) == ViewRun(old(Now()), Jobs(task, owners, at, a))
        decreases |todo|
      {
        var id := Least(todo.Keys);
        DoTask(task, todo[id], id, at, a);
        todo := todo - {id};
      }
    }

    /** One pass of the worker: all three selections first, then their visits, then the guides. */
    method RunDue(at: nat, a: Answers)
      modifies this`rows, this`cache, this`guides
      ensures Now() == ViewRun(old(Now()), Pass(old(rows), at, a))
      ensures guides == {}
    {
      var removals := Selection(Removal, rows, at);
      var checks := Selection(Check, rows, at);
      var served := Selection(HealthCheck, rows, at);
      DoAll(Removal, removals, at, a);
      DoAll(Check, checks, at, a);
      DoAll(HealthCheck, served, at, a);
      ViewRunSplits(old(Now()), Jobs(Removal, removals, at, a), Jobs(Check, checks, at, a));
      ViewRunSplits(old(Now()), Jobs(Removal, removals, at, a) + Jobs(Check, checks, at, a),
                    Jobs(HealthCheck, served, at, a));
      while guides != {}
        invariant Now() == ViewRun(old(Now()), Pass(old(rows), at, a))
        decreases guides
      {
        var t :| t in guides;
        guides := guides - {t};
      }
    }
  }

  lemma HomeIgnores(rows: Rows, id: nat, r: Row, t: nat)
    requires id in rows && r.tenant == rows[id].tenant && r.kind == rows[id].kind
    ensures HomeId(rows[id := r], t) == HomeId(rows, t)
  {
    var b := rows[id := r];
    var own := set k | k in rows && rows[k].tenant == t && rows[k].kind != Custom;
    var own' := set k | k in b && b[k].tenant == t && b[k].kind != Custom;
    var sub := set k | k in own && rows[k].kind == ProviderSubdomain;
    var sub' := set k | k in own' && b[k].kind == ProviderSubdomain;
    assert own' == own && sub' == sub;
    assert HomeId(rows, t) == if sub != {} then Some(Least(sub)) else if own != {} then Some(Least(own)) else None;
    assert HomeId(b, t) == if sub' != {} then Some(Least(sub')) else if own' != {} then Some(Least(own')) else None;
  }

  lemma FallBackIgnores(rows: Rows, id: nat, r: Row, x: Row, t: nat)
    requires id in rows && r.tenant == rows[id].tenant && r.kind == rows[id].kind
    ensures FallBackToHome(rows[id := r], t)[id := x] == FallBackToHome(rows, t)[id := x]
  {
    HomeIgnores(rows, id, r, t);
  }

  /** A release after the check's own update is a release of the row as it was, updated. */
  lemma ReleasedSame(rows: Rows, id: nat, at: nat, t: nat)
    requires id in rows && rows[id].tenant == t
    ensures id in FallBackToHome(rows, t)
    ensures var r := rows[id].(lastChecked := Some(at), nextCheck := None);
            var b, left := rows[id := r], if rows[id].primary then FallBackToHome(rows, t) else rows;
            && HomeId(b, t) == HomeId(rows, t)
            && (if r.primary then FallBackToHome(b, t) else b)[id := r.(status := Failed, primary := false)]
               == left[id := left[id].(lastChecked := Some(at), nextCheck := None, status := Failed, primary := false)]
  {
    var r := rows[id].(lastChecked := Some(at), nextCheck := None);
    FallBackFrame(rows, t);
    HomeIgnores(rows, id, r, t);
    FallBackIgnores(rows, id, r, r.(status := Failed, primary := false), t);
    hide FallBackToHome, HomeId;
  }

  lemma {:induction false} ViewRunSplits(v: View, a: seq<Step>, b: seq<Step>)
    ensures ViewRun(v, a + b) == ViewRun(ViewRun(v, a), b)
    decreases |a|
  {
    if a == [] {
      assert a + b == b;
    } else {
      assert (a + b)[1..] == a[1..] + b;
      ViewRunSplits(ViewAfter(v, a[0]), a[1..], b);
    }
  }

  // A pass is a run

  predicate IsVisit(s: Step) {
    s.WorkerAdvance? || s.WorkerHealth? || s.WorkerRemove?
  }

  /** Visits of different rows, each as selected. */
  ghost predicate Queue(db: Db, q: seq<Step>) {
    && (forall i | 0 <= i < |q| :: IsVisit(q[i]) && q[i].id < db.nextId && Enabled(db, q[i]))
    && (forall i, j | 0 <= i < j < |q| :: q[i].id != q[j].id)
  }

  /** A visit waits its turn whatever else is done, other than a visit of the same row. */
  lemma OthersKeepVisit(w: World, s: Step, other: Step)
    requires Inv(w) && Enabled(w.db, s) && IsVisit(other) && Enabled(w.db, other) && other.id < w.db.nextId
    requires IsVisit(s) ==> s.id != other.id
    ensures Enabled(Next(w.db, s), other) && other.id < Next(w.db, s).nextId
  {
    OldRow(w.db, s, other.id);
    if other.id in Next(w.db, s).rows {
      SelectionStands(w.db, s, other.id);
    }
    hide Next, Inv;
  }

  lemma OldRow(db: Db, s: Step, id: nat)
    requires id < db.nextId
    ensures id in Next(db, s).rows ==> id in db.rows
    ensures id < Next(db, s).nextId
  {
    StepFrame(db, s);
    hide FallBackToHome, HomeId, Visit, Probed, IsReleased;
  }

  /** The run makes the visits of q in order, and anything that is possible in between. */
  ghost predicate Weaves(w: World, run: seq<Step>, q: seq<Step>)
    decreases |run|
  {
    if run == [] then q == []
    else if IsVisit(run[0]) then q != [] && run[0] == q[0] && Weaves(After(w, run[0]), run[1..], q[1..])
    else Enabled(w.db, run[0]) && Weaves(After(w, run[0]), run[1..], q)
  }

  lemma QueueKept(w: World, s: Step, q: seq<Step>)
    requires Inv(w) && Enabled(w.db, s) && Queue(w.db, q) && (IsVisit(s) ==> forall i | 0 <= i < |q| :: s.id != q[i].id)
    ensures Queue(After(w, s).db, q)
  {
    forall i | 0 <= i < |q| ensures q[i].id < After(w, s).db.nextId && Enabled(After(w, s).db, q[i]) {
      OthersKeepVisit(w, s, q[i]);
    }
  }

  lemma {:induction false} QueueIsPossible(w: World, run: seq<Step>, q: seq<Step>)
    requires Inv(w) && Queue(w.db, q) && Weaves(w, run, q)
    ensures Possible(w, run)
    decreases |run|
  {
    hide After, Inv, Next;
    if run != [] {
      InvNext(w, run[0]);
      if IsVisit(run[0]) {
        assert Queue(w.db, q[1..]);
        QueueKept(w, run[0], q[1..]);
        QueueIsPossible(After(w, run[0]), run[1..], q[1..]);
      } else {
        QueueKept(w, run[0], q);
        QueueIsPossible(After(w, run[0]), run[1..], q);
      }
    }
  }

  /** With nothing in between, a queue is woven with itself. */
  lemma {:induction false} WeavesItself(w: World, q: seq<Step>)
    requires forall i | 0 <= i < |q| :: IsVisit(q[i])
    ensures Weaves(w, q, q)
    decreases |q|
  {
    if q != [] {
      WeavesItself(After(w, q[0]), q[1..]);
    }
  }

  /** The visits of one selection: one for each selected row and no other, by ascending id. */
  lemma {:induction false} JobsAre(task: Task, owners: map<nat, nat>, at: nat, a: Answers)
    ensures var q := Jobs(task, owners, at, a);
            && |q| == |owners|
            && (forall i | 0 <= i < |q| :: IsVisit(q[i]) && q[i].id in owners && q[i] == Job(task, owners[q[i].id], q[i].id, at, a))
            && (forall i, j | 0 <= i < j < |q| :: q[i].id < q[j].id)
    decreases |owners|
  {
    if owners != map[] {
      var id := Least(owners.Keys);
      var rest := owners - {id};
      assert rest.Keys == owners.Keys - {id};
      JobsAre(task, rest, at, a);
      var q := Jobs(task, owners, at, a);
      assert q[1..] == Jobs(task, rest, at, a);
      forall i, j | 0 <= i < j < |q| ensures q[i].id < q[j].id {
        assert q[j] == q[1..][j - 1];
        if i == 0 {
          assert q[j].id in owners.Keys && q[j].id != id;
        } else {
          assert q[i] == q[1..][i - 1];
        }
      }
      forall i | 0 <= i < |q|
        ensures IsVisit(q[i]) && q[i].id in owners && q[i] == Job(task, owners[q[i].id], q[i].id, at, a)
      {
        if i > 0 { assert q[i] == q[1..][i - 1]; }
      }
    }
  }

  lemma {:induction false} JobFor(task: Task, owners: map<nat, nat>, at: nat, a: Answers, id: nat)
    requires id in owners
    ensures Job(task, owners[id], id, at, a) in Jobs(task, owners, at, a)
    decreases |owners|
  {
    var first := Least(owners.Keys);
    if id != first {
      var rest := owners - {first};
      assert rest.Keys == owners.Keys - {first};
      JobFor(task, rest, at, a, id);
    }
  }

  lemma OneJobOf(task: Task, owners: map<nat, nat>, at: nat, a: Answers, step: Step)
    ensures step in Jobs(task, owners, at, a) <==>
              IsVisit(step) && step.id in owners && step == Job(task, owners[step.id], step.id, at, a)
  {
    JobsAre(task, owners, at, a);
    if IsVisit(step) && step.id in owners && step == Job(task, owners[step.id], step.id, at, a) {
      JobFor(task, owners, at, a, step.id);
    }
  }

  lemma VisitInPass(task: Task, rows: Rows, at: nat, a: Answers, id: nat)
    requires id in rows
    ensures Job(task, rows[id].tenant, id, at, a) in Pass(rows, at, a) <==> Selects(task, rows[id], at)
  {
    hide Jobs, Selects;
    var step := Job(task, rows[id].tenant, id, at, a);
    OneJobOf(Removal, Selection(Removal, rows, at), at, a, step);
    OneJobOf(Check, Selection(Check, rows, at), at, a, step);
    OneJobOf(HealthCheck, Selection(HealthCheck, rows, at), at, a, step);
  }

  /** Exactly the visits that a pass at time `at` makes: a domain being checked is visited when its check
      is due, a served one when it was not looked at for a day or a check is due, and one that is to be
      removed always, and only for its removal. */
  lemma PassVisits(rows: Rows, at: nat, a: Answers, id: nat)
    requires id in rows
    ensures var r, pass := rows[id], Pass(rows, at, a);
            var due := r.nextCheck.Some? && r.nextCheck.value <= at;
            && (WorkerRemove(r.tenant, id, a.releaseOk(id)) in pass <==> r.kind == Custom && r.removing)
            && (WorkerAdvance(r.tenant, id, at, a.dnsOk(id), a.publish(id)) in pass <==>
                  && r.kind == Custom && !r.removing && due
                  && (r.status == Verifying || r.status == PendingDns || r.status == IssuingCertificate))
            && (WorkerHealth(r.tenant, id, at, a.dnsOk(id), a.releaseOk(id)) in pass <==>
                  && r.kind == Custom && !r.removing && (r.status == Active || r.status == DnsBroken)
                  && (due || r.lastChecked.None? || r.lastChecked.value + 86400 <= at))
  {
    hide Pass, Jobs, Selection;
    VisitInPass(Removal, rows, at, a, id);
    VisitInPass(Check, rows, at, a, id);
    VisitInPass(HealthCheck, rows, at, a, id);
  }

  lemma SelectedQueue(task: Task, db: Db, at: nat, a: Answers)
    requires RowsOk(db)
    ensures var q := Jobs(task, Selection(task, db.rows, at), at, a);
            && Queue(db, q)
            && forall i | 0 <= i < |q| :: q[i].id in db.rows && Selects(task, db.rows[q[i].id], at)
  {
    JobsAre(task, Selection(task, db.rows, at), at, a);
  }

  lemma QueuesJoin(db: Db, p: seq<Step>, q: seq<Step>)
    requires Queue(db, p) && Queue(db, q)
    requires forall i, j | 0 <= i < |p| && 0 <= j < |q| :: p[i].id != q[j].id
    ensures Queue(db, p + q)
  {
  }

  /** No row is selected for two tasks. */
  lemma OneTask(r: Row, at: nat)
    ensures !(Selects(Removal, r, at) && Selects(Check, r, at))
    ensures !(Selects(Removal, r, at) && Selects(HealthCheck, r, at))
    ensures !(Selects(Check, r, at) && Selects(HealthCheck, r, at))
  {
  }

  lemma TasksApart(db: Db, at: nat, a: Answers, one: Task, other: Task, i: nat, j: nat)
    requires RowsOk(db) && one != other
    requires i < |Jobs(one, Selection(one, db.rows, at), at, a)| && j < |Jobs(other, Selection(other, db.rows, at), at, a)|
    ensures var q, r := Jobs(one, Selection(one, db.rows, at), at, a), Jobs(other, Selection(other, db.rows, at), at, a);
            (IsVisit(q[i]) && IsVisit(r[j])) && q[i].id != r[j].id
  {
    hide Jobs, Selection, Selects, RowsOk;
    SelectedQueue(one, db, at, a);
    SelectedQueue(other, db, at, a);
    OneTask(db.rows[Jobs(one, Selection(one, db.rows, at), at, a)[i].id], at);
  }

  lemma PassQueue(db: Db, at: nat, a: Answers)
    requires RowsOk(db)
    ensures Queue(db, Pass(db.rows, at, a))
  {
    hide Jobs, Selection, Selects, RowsOk, Queue;
    var p := Jobs(Removal, Selection(Removal, db.rows, at), at, a);
    var q := Jobs(Check, Selection(Check, db.rows, at), at, a);
    var r := Jobs(HealthCheck, Selection(HealthCheck, db.rows, at), at, a);
    SelectedQueue(Removal, db, at, a);
    SelectedQueue(Check, db, at, a);
    SelectedQueue(HealthCheck, db, at, a);
    forall i, j | 0 <= i < |p| && 0 <= j < |q| ensures IsVisit(p[i]) && IsVisit(q[j]) && p[i].id != q[j].id {
      TasksApart(db, at, a, Removal, Check, i, j);
    }
    forall i, j | 0 <= i < |p| && 0 <= j < |r| ensures IsVisit(p[i]) && IsVisit(r[j]) && p[i].id != r[j].id {
      TasksApart(db, at, a, Removal, HealthCheck, i, j);
    }
    forall i, j | 0 <= i < |q| && 0 <= j < |r| ensures IsVisit(q[i]) && IsVisit(r[j]) && q[i].id != r[j].id {
      TasksApart(db, at, a, Check, HealthCheck, i, j);
    }
    QueuesJoin(db, p, q);
    QueuesJoin(db, p + q, r);
  }

  /** A pass is a possible run whatever tenants, the console and jobs do between its visits: every
      visit finds its row as selected, or gone. So what holds on every run holds after it. */
  lemma PassIsPossible(w: World, at: nat, a: Answers, run: seq<Step>)
    requires Inv(w) && Weaves(w, run, Pass(w.db.rows, at, a))
    ensures Possible(w, run) && Inv(Run(w, run))
  {
    PassQueue(w.db, at, a);
    QueueIsPossible(w, run, Pass(w.db.rows, at, a));
    InvRun(w, run);
  }

  /** In particular the pass as RunDue makes it, with nothing in between. */
  lemma PassAlone(w: World, at: nat, a: Answers)
    requires Inv(w)
    ensures Possible(w, Pass(w.db.rows, at, a)) && Inv(Run(w, Pass(w.db.rows, at, a)))
  {
    PassQueue(w.db, at, a);
    WeavesItself(w, Pass(w.db.rows, at, a));
    PassIsPossible(w, at, a, Pass(w.db.rows, at, a));
  }
}

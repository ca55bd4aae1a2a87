/**
 The host cache of tenancy.py when every operation is atomic with its own invalidation:
 it never answers anything an uncached lookup would not.
 */
module HostCache {
  import opened Util
  import opened Domains
  import opened DomainRuns
  import opened DomainHistory
  import opened DomainOwnership

  /** What a lookup learns of a tenant. Times here are in milliseconds. */
  datatype Seen = Seen(tenant: nat, status: TenantStatus)

  datatype Entry = Entry(at: nat, seen: Option<Seen>)

  type Cache = map<string, Entry>

  const TTL: nat := 30_000
  const MAX_ENTRIES: nat := 1000

  /** The query of resolve_host, without the cache. */
  function Lookup(db: Db, h: string): Option<Seen> {
    var hits := set k | k in db.rows && db.rows[k].hostname == h && Reaches(db.rows[k]);
    if hits == {} then None
    else
      var t := db.rows[Least(hits)].tenant;
      if t in db.tenants then Some(Seen(t, db.tenants[t])) else None
  }

  lemma LookupServes(db: Db, h: string, t: nat)
    requires TableInv(db)
    ensures Serves(db.rows, h, t) <==> Lookup(db, h).Some? && Lookup(db, h).value.tenant == t
    ensures Lookup(db, h).Some? ==> Lookup(db, h).value.tenant in db.tenants
                                    && Lookup(db, h).value.status == db.tenants[Lookup(db, h).value.tenant]
  {
    var hits := set k | k in db.rows && db.rows[k].hostname == h && Reaches(db.rows[k]);
    if Serves(db.rows, h, t) {
      var k :| k in db.rows && db.rows[k].hostname == h && db.rows[k].tenant == t && Reaches(db.rows[k]);
      assert k in hits;
      assert Least(hits) == k;
    }
  }

  predicate Fresh(cache: Cache, h: string, now: nat) {
    h in cache && now < cache[h].at + TTL
  }

  function Answer(db: Db, cache: Cache, h: string, now: nat): Option<Seen> {
    if Fresh(cache, h, now) then cache[h].seen else Lookup(db, h)
  }

  function Stored(db: Db, cache: Cache, h: string, now: nat): Cache {
    if Fresh(cache, h, now) then cache
    else (if |cache| > MAX_ENTRIES then map[] else cache)[h := Entry(now, Lookup(db, h))]
  }

  /** Whether the function that makes the step ends with invalidate_cache(). */
  predicate Invalidates(db: Db, step: Step) {
    match step
    case Claim(_, t, h, badName, limit, now) => AddDomain(db, t, h, badName, limit, now).Ok?
    case Recheck(_, _, _) => false
    case Promote(t, id) => MakePrimary(db, t, id).Ok?
    case Withdraw(t, id, now) => RequestRemoval(db, t, id, now).Ok?
    case WorkerAdvance(t, id, at, dnsOk, publish) =>
      Workable(db, t, id) && Attempts(db.rows[id], at, dnsOk) && publish == Published
    case WorkerHealth(t, id, at, dnsOk, releaseOk) => Workable(db, t, id) && Releases(db.rows[id], at, dnsOk, releaseOk)
    case WorkerRemove(t, id, releaseOk) => Owns(db, t, id) && releaseOk
    case CreateTenant(_) => false
    case OpenHost(_, _, _) => true
    case UndoCreation(_) => true
    case RefusedUndo(_) => false
    case PurgeTenant(_) => true
    case ChangeStatus(_, _) => true
  }

  function CacheAfter(db: Db, cache: Cache, step: Step): Cache {
    if Invalidates(db, step) then map[] else cache
  }

  lemma SilentStepSameTenants(db: Db, step: Step, t: nat)
    requires !Invalidates(db, step) && Enabled(db, step) && t in db.tenants
    ensures t in Next(db, step).tenants && Next(db, step).tenants[t] == db.tenants[t]
  {
  }

  /** A step that does not invalidate the cache changes no lookup, a refused undo apart. */
  lemma SilentStep(db: Db, step: Step, h: string)
    requires TableInv(db) && Enabled(db, step) && !Invalidates(db, step) && !step.RefusedUndo?
    ensures Lookup(Next(db, step), h) == Lookup(db, h)
  {
    TableInvNext(db, step);
    var next := Next(db, step);
    if Lookup(db, h).Some? {
      var t := Lookup(db, h).value.tenant;
      LookupServes(db, h, t);
      ServesAfter(db, step, h, t);
      LookupServes(next, h, t);
      SilentStepSameTenants(db, step, t);
    } else if Lookup(next, h).Some? {
      var t := Lookup(next, h).value.tenant;
      LookupServes(next, h, t);
      ServesAfter(db, step, h, t);
      LookupServes(db, h, t);
      assert false;
    }
  }

  // Runs of the table with its cache

  /** What else a cached tenant carries: its relay's host, and a number for the rest (the relay's
      ports and status, the trial's end, the billing mode and mark) that stands for its value. */
  datatype Facts = Facts(relayHost: Option<string>, rest: nat)

  datatype Loaded = Loaded(seen: Seen, facts: Facts)

  /** The keys of the cache: resolve_host, legacy_tenant and resolve_relay_host share it. */
  datatype CacheKey = OfHost(host: string) | OfLegacy | OfRelay(host: string)

  datatype Saved = Saved(at: nat, answer: Option<Loaded>)

  datatype Event = Act(step: Step) | Alter(tenant: nat, facts: Facts) | Ask(key: CacheKey, now: nat)

  datatype Site = Site(world: World, facts: map<nat, Facts>, cache: map<CacheKey, Saved>)

  function Load(db: Db, facts: map<nat, Facts>, t: nat): Option<Loaded> {
    if t in db.tenants then Some(Loaded(Seen(t, db.tenants[t]), if t in facts then facts[t] else Facts(None, 0))) else None
  }

  /** Each lookup without the cache. */
  function Fetch(db: Db, facts: map<nat, Facts>, k: CacheKey): Option<Loaded> {
    match k
    case OfHost(h) =>
      var seen := Lookup(db, h);
      if seen.Some? then Load(db, facts, seen.value.tenant) else None
    case OfLegacy => Load(db, facts, FIRST_TENANT)
    case OfRelay(h) =>
      var owners := set t | t in facts && facts[t].relayHost == Some(h);
      if owners == {} then None else Load(db, facts, Least(owners))
  }

  predicate FreshAt(s: Site, k: CacheKey, now: nat) {
    k in s.cache && now < s.cache[k].at + TTL
  }

  function Reply(s: Site, k: CacheKey, now: nat): Option<Loaded> {
    if FreshAt(s, k, now) then s.cache[k].answer else Fetch(s.world.db, s.facts, k)
  }

  /** A tenant's own columns and its relay's are only written together with an invalidation;
      undo, also a refused one, and purge delete the relay's row. Only resolve_host bounds the
      cache. */
  function SiteAfter(s: Site, e: Event): Site {
    match e
    case Act(step) =>
      Site(After(s.world, step),
           if step.UndoCreation? || step.RefusedUndo? || step.PurgeTenant? then s.facts - {step.tid} else s.facts,
           if Invalidates(s.world.db, step) then map[] else s.cache)
    case Alter(t, facts) => s.(facts := s.facts[t := facts], cache := map[])
    case Ask(k, now) =>
      if FreshAt(s, k, now) then s
      else
        var kept := if k.OfHost? && |s.cache| > MAX_ENTRIES then map[] else s.cache;
        s.(cache := kept[k := Saved(now, Fetch(s.world.db, s.facts, k))])
  }

  function SiteRun(s: Site, events: seq<Event>): Site
    decreases |events|
  {
    if events == [] then s else SiteRun(SiteAfter(s, events[0]), events[1..])
  }

  ghost predicate EventEnabled(s: Site, e: Event) {
    && (e.Act? ==> Enabled(s.world.db, e.step))
    && (e.Alter? ==> e.tenant in s.world.db.tenants)
  }

  ghost predicate SitePossible(s: Site, events: seq<Event>)
    decreases |events|
  {
    events == [] || (EventEnabled(s, events[0]) && SitePossible(SiteAfter(s, events[0]), events[1..]))
  }

  /** Every entry is what its lookup would find. */
  ghost predicate Coherent(s: Site) {
    && Inv(s.world)
    && FIRST_TENANT in s.world.db.tenants && s.facts.Keys <= s.world.db.tenants.Keys
    && forall k | k in s.cache :: s.cache[k].answer == Fetch(s.world.db, s.facts, k)
  }

  /** Nor does it change the answer of any of the three lookups. */
  lemma SilentFetch(db: Db, facts: map<nat, Facts>, step: Step, k: CacheKey)
    requires TableInv(db) && Enabled(db, step) && !Invalidates(db, step) && !step.RefusedUndo?
    requires FIRST_TENANT in db.tenants && facts.Keys <= db.tenants.Keys
    ensures Fetch(Next(db, step), facts, k) == Fetch(db, facts, k)
  {
    match k
    case OfHost(h) =>
      SilentStep(db, step, h);
      if Lookup(db, h).Some? {
        LookupServes(db, h, Lookup(db, h).value.tenant);
        SilentStepSameTenants(db, step, Lookup(db, h).value.tenant);
      }
    case OfLegacy => SilentStepSameTenants(db, step, FIRST_TENANT);
    case OfRelay(h) =>
      var owners := set t | t in facts && facts[t].relayHost == Some(h);
      if owners != {} {
        SilentStepSameTenants(db, step, Least(owners));
      }
  }

  lemma TenantsStay(db: Db, step: Step, t: nat)
    requires Enabled(db, step) && t in db.tenants && (step.UndoCreation? ==> t != step.tid)
    ensures t in Next(db, step).tenants
  {
  }

  // A refused undo: the one step that changes lookups and leaves the cache

  /** No entry of the cache is about the tenant. */
  predicate Unseen(s: Site, t: nat) {
    forall k | k in s.cache && s.cache[k].answer.Some? :: s.cache[k].answer.value.seen.tenant != t
  }

  /** Lookups that found another tenant, or none, still do; those that found the tenant do not. */
  lemma RefusedUndoFetch(s: Site, t: nat, k: CacheKey)
    requires TableInv(s.world.db) && Enabled(s.world.db, RefusedUndo(t))
    requires FIRST_TENANT in s.world.db.tenants && s.facts.Keys <= s.world.db.tenants.Keys
    ensures var was, now := Fetch(s.world.db, s.facts, k), Fetch(Next(s.world.db, RefusedUndo(t)), s.facts - {t}, k);
            if was.Some? && was.value.seen.tenant == t then now != was else now == was
  {
    match k
    case OfHost(h) =>
      RefusedUndoLookup(s.world.db, t, h);
      SeenLoads(s.world.db, h);
      hide Lookup;
    case OfLegacy =>
    case OfRelay(h) => RefusedUndoRelay(s.world.db, s.facts, t, h);
      hide Lookup;
  }

  lemma SeenLoads(db: Db, h: string)
    requires TableInv(db)
    ensures Lookup(db, h).Some? ==> Lookup(db, h).value.tenant in db.tenants
  {
    if Lookup(db, h).Some? {
      LookupServes(db, h, Lookup(db, h).value.tenant);
    }
  }

  lemma RefusedUndoRelay(db: Db, facts: map<nat, Facts>, t: nat, h: string)
    requires facts.Keys <= db.tenants.Keys
    ensures var was, now := Fetch(db, facts, OfRelay(h)), Fetch(DropRows(db, t), facts - {t}, OfRelay(h));
            if was.Some? && was.value.seen.tenant == t then now != was else now == was
  {
    hide Lookup;
    var owners := set u | u in facts && facts[u].relayHost == Some(h);
    var left := set u | u in facts - {t} && (facts - {t})[u].relayHost == Some(h);
    assert left == owners - {t};
    if owners != {} && Least(owners) != t {
      assert Least(owners) in left && Least(left) == Least(owners);
    } else if left != {} {
      assert Least(left) != t;
    }
  }

  lemma RefusedUndoLookup(db: Db, t: nat, h: string)
    requires TableInv(db) && Enabled(db, RefusedUndo(t))
    ensures var was, now := Lookup(db, h), Lookup(Next(db, RefusedUndo(t)), h);
            if was.Some? && was.value.tenant == t then now == None else now == was
  {
    var step := RefusedUndo(t);
    var next := Next(db, step);
    TableInvNext(db, step);
    if Lookup(db, h).Some? {
      var u := Lookup(db, h).value.tenant;
      LookupServes(db, h, u);
      ServesAfter(db, step, h, u);
      LookupServes(next, h, u);
    }
    if Lookup(next, h).Some? {
      var u := Lookup(next, h).value.tenant;
      LookupServes(next, h, u);
      ServesAfter(db, step, h, u);
      LookupServes(db, h, u);
    }
  }

  /** After a refused undo the cache still agrees with the database exactly when no entry is about
      the tenant; otherwise it goes on answering with it until the entry is 30 seconds old. */
  lemma RefusedUndoExactly(s: Site, t: nat)
    requires Coherent(s) && Enabled(s.world.db, RefusedUndo(t))
    ensures Coherent(SiteAfter(s, Act(RefusedUndo(t)))) <==> Unseen(s, t)
  {
    var next := SiteAfter(s, Act(RefusedUndo(t)));
    InvNext(s.world, RefusedUndo(t));
    forall k | k in s.cache
      ensures s.cache[k].answer == Fetch(next.world.db, next.facts, k)
              <==> !(s.cache[k].answer.Some? && s.cache[k].answer.value.seen.tenant == t)
    {
      RefusedUndoFetch(s, t, k);
    }
  }

  lemma CoherentNext(s: Site, e: Event)
    requires Coherent(s) && EventEnabled(s, e)
    requires e.Act? && e.step.RefusedUndo? ==> Unseen(s, e.step.tid)
    ensures Coherent(SiteAfter(s, e))
  {
    if e.Act? && e.step.RefusedUndo? {
      RefusedUndoExactly(s, e.step.tid);
    } else if e.Act? {
      var db := s.world.db;
      InvNext(s.world, e.step);
      forall t | t in db.tenants && (e.step.UndoCreation? ==> t != e.step.tid) ensures t in Next(db, e.step).tenants {
        TenantsStay(db, e.step, t);
      }
      if !Invalidates(db, e.step) {
        forall k | k in s.cache ensures s.cache[k].answer == Fetch(Next(db, e.step), s.facts, k) {
          SilentFetch(db, s.facts, e.step, k);
        }
      }
    }
  }

  /** Every refused undo of the run finds nothing about its tenant in the cache. */
  ghost predicate NoneSeen(s: Site, events: seq<Event>)
    decreases |events|
  {
    events == [] || (
      && (events[0].Act? && events[0].step.RefusedUndo? ==> Unseen(s, events[0].step.tid))
      && NoneSeen(SiteAfter(s, events[0]), events[1..]))
  }

  /** After any run of requests, tenants' actions, worker steps, status and other changes, the
      next request of any of the three kinds is answered exactly as without a cache, at any time. */
  lemma {:induction false} CachedAnswersAreExact(s: Site, events: seq<Event>, k: CacheKey, now: nat)
    requires Coherent(s) && SitePossible(s, events) && NoneSeen(s, events)
    ensures var end := SiteRun(s, events);
            Reply(end, k, now) == Fetch(end.world.db, end.facts, k)
    decreases |events|
  {
    if events != [] {
      CoherentNext(s, events[0]);
      CachedAnswersAreExact(SiteAfter(s, events[0]), events[1..], k, now);
    }
  }
}

/**
 The tenant_domains table: its rows, what a hostname resolves to, and what every
 user action and every worker step does to it, as functions from table to table.
 Time is in seconds. DNS answers, certificate issuance and the root helper's
 success are arguments of the steps.
 */
module Domains {
  import opened Util

  const MINUTE: nat := 60
  const HOUR: nat := 3600
  const DAY: nat := 86400
  const PENDING_WINDOW: nat := 7 * DAY
  const BROKEN_WINDOW: nat := 7 * DAY
  const CHECK_EVERY: nat := 5 * MINUTE
  const ISSUE_EVERY: nat := 60 * MINUTE
  const MAX_ISSUE_FAILURES: nat := 5

  /** tenants.status; InTrial and InService are the open statuses 'trial' and 'active'. */
  datatype TenantStatus = InTrial | InService | Suspended | Cancelled | Purged

  predicate IsOpen(s: TenantStatus) {
    s == InTrial || s == InService
  }

  datatype Kind = ProviderSubdomain | Legacy | Custom

  datatype Status = Verifying | PendingDns | IssuingCertificate | Active | DnsBroken | Failed

  /** One tenant_domains row. `removing` says that remove_reason is set. */
  datatype Row = Row(
    tenant: nat, hostname: string, kind: Kind, primary: bool, status: Status,
    createdAt: nat, verifiedAt: Option<nat>, nextCheck: Option<nat>, pendingUntil: Option<nat>,
    failures: nat, lastIssue: Option<nat>, lastChecked: Option<nat>, brokenSince: Option<nat>, removing: bool)

  type Rows = map<nat, Row>

  datatype Db = Db(tenants: map<nat, TenantStatus>, rows: Rows, nextId: nat)

  datatype DomainError = NotOpen | BadName | AlreadyListed | InUse | LimitReached
                       | NotOnList | OnlyCustomChecked | OnlyActivePrimary | PartOfAccount

  // Which rows answer requests

  predicate Served(s: Status) {
    s == Active || s == DnsBroken
  }

  predicate BeingChecked(s: Status) {
    s == Verifying || s == PendingDns || s == IssuingCertificate
  }

  /** The row filter of tenancy.resolve_host. */
  predicate Reaches(r: Row) {
    r.kind != Custom || (Served(r.status) && !r.removing)
  }

  /** An uncached lookup of h finds tenant t. */
  ghost predicate Serves(rows: Rows, h: string, t: nat) {
    exists k :: k in rows && rows[k].hostname == h && rows[k].tenant == t && Reaches(rows[k])
  }

  predicate IsReleased(r: Row, at: nat) {
    && r.kind == Custom
    && (r.status == Failed
        || (r.verifiedAt.None? && BeingChecked(r.status) && r.createdAt + PENDING_WINDOW < at))
  }

  // Lookups

  function Named(rows: Rows, h: string): set<nat> {
    set k | k in rows && rows[k].hostname == h
  }

  function CustomOf(rows: Rows, t: nat): set<nat> {
    set k | k in rows && rows[k].tenant == t && rows[k].kind == Custom
  }

  /** ORDER BY kind = 'provider_subdomain' DESC, id LIMIT 1 over the tenant's own rows. */
  function HomeId(rows: Rows, t: nat): (home: Option<nat>)
    ensures home.Some? ==> home.value in rows && rows[home.value].tenant == t && rows[home.value].kind != Custom
    ensures home.None? ==> forall k | k in rows && rows[k].tenant == t :: rows[k].kind == Custom
  {
    var own := set k | k in rows && rows[k].tenant == t && rows[k].kind != Custom;
    var subdomains := set k | k in own && rows[k].kind == ProviderSubdomain;
    if subdomains != {} then Some(Least(subdomains))
    else if own != {} then Some(Least(own))
    else
      assert forall k | k in rows && rows[k].tenant == t :: rows[k].kind != Custom ==> k in own;
      None
  }

  function HomeHost(rows: Rows, t: nat): string {
    match HomeId(rows, t)
    case Some(k) => rows[k].hostname
    case None => ""
  }

  function PrimaryIds(rows: Rows, t: nat): set<nat> {
    set k | k in rows && rows[k].tenant == t && rows[k].primary && (rows[k].kind != Custom || Served(rows[k].status))
  }

  function PrimaryHost(rows: Rows, t: nat): string {
    var p := PrimaryIds(rows, t);
    if p != {} then rows[Least(p)].hostname else HomeHost(rows, t)
  }

  // Tenant actions

  function SetPrimary(rows: Rows, t: nat, id: nat): Rows {
    map k | k in rows :: if rows[k].tenant == t then rows[k].(primary := k == id) else rows[k]
  }

  function FallBackToHome(rows: Rows, t: nat): Rows {
    match HomeId(rows, t)
    case Some(k) => SetPrimary(rows, t, k)
    case None => rows
  }

  function NewClaim(t: nat, h: string, now: nat): Row {
    Row(t, h, Custom, false, Verifying, now, None, Some(now), Some(now + PENDING_WINDOW), 0, None, None, None, false)
  }

  /** `add`: a claim, taking over another tenant's released row of the same name. */
  function AddDomain(db: Db, t: nat, h: string, badName: bool, limit: nat, now: nat): Result<Db, DomainError> {
    if t !in db.tenants || !IsOpen(db.tenants[t]) then Err(NotOpen)
    else if badName then Err(BadName)
    else
      var existing := Named(db.rows, h);
      if exists k | k in existing :: db.rows[k].tenant == t then Err(AlreadyListed)
      else if exists k | k in existing :: !IsReleased(db.rows[k], now) then Err(InUse)
      else
        var kept := db.rows - existing;
        if |CustomOf(kept, t)| >= limit then Err(LimitReached)
        else Ok(db.(rows := kept[db.nextId := NewClaim(t, h, now)], nextId := db.nextId + 1))
  }

  predicate Owns(db: Db, t: nat, id: nat) {
    id in db.rows && db.rows[id].tenant == t
  }

  function Rechecked(r: Row, now: nat): Row {
    if Served(r.status) then r.(nextCheck := Some(now))
    else r.(status := Verifying, nextCheck := Some(now), pendingUntil := Some(now + PENDING_WINDOW), failures := 0)
  }

  function CheckNow(db: Db, t: nat, id: nat, now: nat): Result<Db, DomainError> {
    if !Owns(db, t, id) then Err(NotOnList)
    else if db.rows[id].kind != Custom || db.rows[id].removing then Err(OnlyCustomChecked)
    else Ok(db.(rows := db.rows[id := Rechecked(db.rows[id], now)]))
  }

  function MakePrimary(db: Db, t: nat, id: nat): Result<Db, DomainError> {
    if !Owns(db, t, id) then Err(NotOnList)
    else if db.rows[id].removing || (db.rows[id].kind == Custom && db.rows[id].status != Active) then
      Err(OnlyActivePrimary)
    else Ok(db.(rows := SetPrimary(db.rows, t, id)))
  }

  function RequestRemoval(db: Db, t: nat, id: nat, now: nat): Result<Db, DomainError> {
    if !Owns(db, t, id) then Err(NotOnList)
    else if db.rows[id].kind != Custom then Err(PartOfAccount)
    else
      var rows := if db.rows[id].primary then FallBackToHome(db.rows, t) else db.rows;
      Ok(db.(rows := rows[id := rows[id].(removing := true, primary := false, nextCheck := Some(now))]))
  }

  // Worker steps

  /** How one call of web.publish ends. The two Stopped outcomes are a restart of the
      dashboard before last_issue_at is stored, and one while the helper is at work. */
  datatype Publish = Published | Refused | StoppedBefore | StoppedDuring

  function Issue(r: Row, t: nat, publish: Publish): Row {
    match publish
    case StoppedBefore => r
    case StoppedDuring => r.(lastIssue := Some(t))
    case Refused =>
      var failures := r.failures + 1;
      var gaveUp := failures >= MAX_ISSUE_FAILURES;
      r.(lastIssue := Some(t), failures := failures,
         status := if gaveUp then Failed else IssuingCertificate,
         nextCheck := if gaveUp then None else Some(t + ISSUE_EVERY))
    case Published =>
      r.(lastIssue := Some(t), status := Active, verifiedAt := if r.verifiedAt.Some? then r.verifiedAt else Some(t),
         failures := 0, nextCheck := None, brokenSince := None)
  }

  predicate WindowOver(r: Row, t: nat) {
    r.status != IssuingCertificate && r.pendingUntil.Some? && r.pendingUntil.value < t
  }

  predicate TooSoon(r: Row, t: nat) {
    r.status == IssuingCertificate && r.lastIssue.Some? && t < r.lastIssue.value + ISSUE_EVERY
  }

  /** Whether a visit at time t reaches _issue. */
  predicate Attempts(r: Row, t: nat, dnsOk: bool) {
    !WindowOver(r, t) && !TooSoon(r, t) && (r.status == IssuingCertificate || dnsOk)
  }

  /** What `_advance` does to a row of an open tenant at time t. */
  function Visit(r: Row, t: nat, dnsOk: bool, publish: Publish): Row {
    if WindowOver(r, t) then r.(status := Failed, nextCheck := None)
    else if TooSoon(r, t) then r.(nextCheck := Some(r.lastIssue.value + ISSUE_EVERY))
    else if r.status == IssuingCertificate then Issue(r, t, publish)
    else if dnsOk then Issue(r.(lastChecked := Some(t), status := IssuingCertificate, nextCheck := Some(t)), t, publish)
    else r.(lastChecked := Some(t), status := PendingDns, nextCheck := Some(t + CHECK_EVERY))
  }

  predicate Workable(db: Db, t: nat, id: nat) {
    Owns(db, t, id) && t in db.tenants && IsOpen(db.tenants[t])
  }

  function Advance(db: Db, t: nat, id: nat, at: nat, dnsOk: bool, publish: Publish): Db {
    if !Workable(db, t, id) then db
    else db.(rows := db.rows[id := Visit(db.rows[id], at, dnsOk, publish)])
  }

  /** Whether a health check of row r at time t that fails DNS goes on to release the domain. */
  predicate GraceOver(r: Row, t: nat) {
    r.status != Active && (if r.brokenSince.Some? then r.brokenSince.value else t) + BROKEN_WINDOW <= t
  }

  predicate Releases(r: Row, t: nat, dnsOk: bool, releaseOk: bool) {
    !dnsOk && GraceOver(r, t) && releaseOk
  }

  /** The row after a health check that does not release it. */
  function Probed(r: Row, t: nat, dnsOk: bool): Row {
    var r1 := r.(lastChecked := Some(t), nextCheck := None);
    if dnsOk then (if r.status == DnsBroken then r1.(status := Active, brokenSince := None) else r1)
    else if r.status == Active then r1.(status := DnsBroken, brokenSince := Some(t))
    else if GraceOver(r, t) then r1.(nextCheck := Some(t + HOUR))
    else r1
  }

  function Health(db: Db, t: nat, id: nat, at: nat, dnsOk: bool, releaseOk: bool): Db {
    if !Workable(db, t, id) then db
    else if Releases(db.rows[id], at, dnsOk, releaseOk) then
      var rows := if db.rows[id].primary then FallBackToHome(db.rows, t) else db.rows;
      db.(rows := rows[id := rows[id].(lastChecked := Some(at), nextCheck := None, status := Failed, primary := false)])
    else db.(rows := db.rows[id := Probed(db.rows[id], at, dnsOk)])
  }

  function Remove(db: Db, t: nat, id: nat, releaseOk: bool): Db {
    if !Owns(db, t, id) || !releaseOk then db
    else
      var rows := if db.rows[id].primary then FallBackToHome(db.rows, t) else db.rows;
      db.(rows := rows - {id})
  }

  // Steps of the tenants around the table

  /** The publish step of tenant creation: the tenant's own host, primary from the start. */
  function PublishHome(db: Db, t: nat, h: string, now: nat): Db {
    var row := Row(t, h, ProviderSubdomain, true, Active, now, Some(now), None, None, 0, None, None, None, false);
    db.(rows := db.rows[db.nextId := row], nextId := db.nextId + 1)
  }

  /** Purge and undo delete every row of the tenant. */
  function DropRows(db: Db, t: nat): Db {
    db.(rows := map k | k in db.rows && db.rows[k].tenant != t :: db.rows[k])
  }

  function SetStatus(db: Db, t: nat, s: TenantStatus): Db {
    db.(tenants := db.tenants[t := s])
  }
}

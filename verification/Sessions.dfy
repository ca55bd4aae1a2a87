/**
 The remote-session log that heartbeats, connection audits and the sweeper write together.
 Times are seconds; every step happens at one instant, and the clock never goes back.
 */
module Sessions {
  import opened Util

  const SESSION_STALE_S: nat := 120
  const AUDIT_RETRY_WINDOW_S: nat := 300

  /** One connection of one device, under the id the device gives it. */
  datatype Conn = Conn(tenant: nat, device: string, ref: string)

  datatype Session = Session(conn: Conn, started: nat, lastSeen: nat, ended: Option<nat>)

  type Log = map<nat, Session>

  datatype Step =
    | Heartbeat(tenant: nat, device: string, current: set<string>)
    | AuditOpen(conn: Conn)
    | AuditClose(conn: Conn)
    | Sweep(tenant: nat)
    | ForgetDevice(tenant: nat, device: string)

  predicate Open(log: Log, k: nat, c: Conn) {
    k in log && log[k].conn == c && log[k].ended.None?
  }

  predicate HasOpen(log: Log, c: Conn) {
    exists k :: k in log && Open(log, k, c)
  }

  /** Rows an audit report is matched to: open, or started within the retry window. */
  predicate Known(log: Log, k: nat, c: Conn, now: nat) {
    k in log && log[k].conn == c && (log[k].ended.None? || log[k].started + AUDIT_RETRY_WINDOW_S > now)
  }

  predicate HasKnown(log: Log, c: Conn, now: nat) {
    exists k :: k in log && Known(log, k, c, now)
  }

  predicate Above(log: Log, id: nat) {
    forall k | k in log :: k < id
  }

  // What each step does to the log

  /** A row of the device that sends the heartbeat: kept up to date, or closed where it was last seen. */
  function Touched(s: Session, t: nat, d: string, current: set<string>, now: nat): Session {
    if s.conn.tenant != t || s.conn.device != d || s.ended.Some? then s
    else if s.conn.ref in current then s.(lastSeen := now)
    else s.(ended := Some(s.lastSeen))
  }

  predicate Kept(log: Log, next: Log, t: nat, d: string, current: set<string>, now: nat) {
    forall k | k in log :: k in next && next[k] == Touched(log[k], t, d, current, now)
  }

  predicate IsNew(log: Log, next: Log, k: nat, t: nat, d: string, refs: set<string>, now: nat)
    requires k in next
  {
    && Above(log, k)
    && next[k] == Session(Conn(t, d, next[k].conn.ref), now, now, None)
    && next[k].conn.ref in refs && !HasOpen(log, next[k].conn)
  }

  /** The inserted rows: one for each ref without an open one, and no other. */
  predicate Added(log: Log, next: Log, t: nat, d: string, refs: set<string>, now: nat) {
    && (forall k | k in next && k !in log :: IsNew(log, next, k, t, d, refs, now))
    && (forall i, j | i in next && j in next && i !in log && j !in log && i != j :: next[i].conn.ref != next[j].conn.ref)
    && (forall ref | ref in refs :: HasOpen(log, Conn(t, d, ref)) || exists k :: k in next && k !in log && next[k].conn.ref == ref)
  }

  predicate Reconciled(log: Log, next: Log, t: nat, d: string, current: set<string>, now: nat) {
    Kept(log, next, t, d, current, now) && Added(log, next, t, d, current, now)
  }

  function Closed(log: Log, c: Conn, now: nat): Log {
    map k | k in log :: if Open(log, k, c) then log[k].(lastSeen := now, ended := Some(now)) else log[k]
  }

  predicate Stale(s: Session, t: nat, now: nat) {
    s.conn.tenant == t && s.ended.None? && s.lastSeen + SESSION_STALE_S < now
  }

  function Swept(log: Log, t: nat, now: nat): Log {
    map k | k in log :: if Stale(log[k], t, now) then log[k].(ended := Some(log[k].lastSeen)) else log[k]
  }

  function Without(log: Log, t: nat, d: string): Log {
    map k | k in log && !(log[k].conn.tenant == t && log[k].conn.device == d) :: log[k]
  }

  predicate Inserted(log: Log, next: Log, c: Conn, now: nat) {
    exists id :: id !in log && id in next && Above(log, id) && next == log[id := Session(c, now, now, None)]
  }

  predicate Next(log: Log, step: Step, now: nat, next: Log) {
    match step
    case Heartbeat(t, d, current) => Reconciled(log, next, t, d, current, now)
    case AuditOpen(c) => if HasKnown(log, c, now) then next == log else Inserted(log, next, c, now)
    case AuditClose(c) => next == Closed(log, c, now)
    case Sweep(t) => next == Swept(log, t, now)
    case ForgetDevice(t, d) => next == Without(log, t, d)
  }

  // What every step keeps

  predicate Sound(s: Session, now: nat) {
    s.started <= s.lastSeen <= now && (s.ended.Some? ==> s.ended == Some(s.lastSeen))
  }

  predicate AllSound(log: Log, now: nat) {
    forall k | k in log :: Sound(log[k], now)
  }

  predicate Before(s: Session, t: Session) {
    s.conn == t.conn ==> s.ended.Some? && s.ended.value <= t.started
  }

  /** Of two rows of one connection the older one is closed before the younger one starts. */
  predicate Ordered(log: Log) {
    forall i, j | i in log && j in log && i < j :: Before(log[i], log[j])
  }

  predicate Inv(log: Log, now: nat) {
    AllSound(log, now) && Ordered(log)
  }

  lemma HeartbeatKeeps(log: Log, next: Log, t: nat, d: string, current: set<string>, now: nat)
    requires Inv(log, now) && Reconciled(log, next, t, d, current, now)
    ensures Inv(next, now)
  {
    forall k | k in next ensures Sound(next[k], now) {
      if k in log {
        assert Sound(log[k], now);
      } else {
        assert IsNew(log, next, k, t, d, current, now);
      }
    }
    forall i, j | i in next && j in next && i < j ensures Before(next[i], next[j]) {
      if i !in log {
        assert IsNew(log, next, i, t, d, current, now);
        assert j !in log;
      } else if j in log {
        assert Before(log[i], log[j]) && Sound(log[i], now);
      } else {
        assert IsNew(log, next, j, t, d, current, now);
        assert Sound(log[i], now) && !Open(log, i, next[j].conn);
      }
    }
  }

  lemma InsertKeeps(log: Log, next: Log, c: Conn, now: nat)
    requires Inv(log, now) && !HasKnown(log, c, now) && Inserted(log, next, c, now)
    ensures Inv(next, now)
  {
  }

  lemma CloseKeeps(log: Log, c: Conn, now: nat)
    requires Inv(log, now)
    ensures Inv(Closed(log, c, now), now)
  {
  }

  lemma SweepKeeps(log: Log, t: nat, now: nat)
    requires Inv(log, now)
    ensures Inv(Swept(log, t, now), now)
  {
  }

  lemma NextKeeps(log: Log, step: Step, now: nat, next: Log)
    requires Inv(log, now) && Next(log, step, now, next)
    ensures Inv(next, now)
  {
    match step
    case Heartbeat(t, d, current) => HeartbeatKeeps(log, next, t, d, current, now);
    case AuditOpen(c) => if !HasKnown(log, c, now) { InsertKeeps(log, next, c, now); }
    case AuditClose(c) => CloseKeeps(log, c, now);
    case Sweep(t) => SweepKeeps(log, t, now);
    case ForgetDevice(t, d) =>
      forall i, j | i in next && j in next && i < j ensures Before(next[i], next[j]) {
        assert Before(log[i], log[j]);
      }
  }

  // Runs: any mix of steps, from an empty log

  ghost predicate Behaves(logs: seq<Log>, steps: seq<Step>, at: seq<nat>) {
    && |logs| == |steps| + 1 && |at| == |steps| && logs[0] == map[]
    && (forall i | 0 <= i < |steps| :: Next(logs[i], steps[i], at[i], logs[i + 1]))
    && (forall i, j | 0 <= i <= j < |at| :: at[i] <= at[j])
  }

  lemma {:induction false} InvRun(logs: seq<Log>, steps: seq<Step>, at: seq<nat>, n: nat)
    requires Behaves(logs, steps, at) && n <= |steps|
    ensures Inv(logs[n], if n == 0 then 0 else at[n - 1])
  {
    if n > 0 {
      InvRun(logs, steps, at, n - 1);
      assert AllSound(logs[n - 1], at[n - 1]);
      NextKeeps(logs[n - 1], steps[n - 1], at[n - 1], logs[n]);
    }
  }

  /** Whether the session is running at an instant. */
  predicate Covers(s: Session, x: nat) {
    s.started <= x && (s.ended.None? || x < s.ended.value)
  }

  /** Whatever heartbeats, late audit retries and sweeps are mixed, at no instant do two
      sessions of one connection run, and at most one of them is open. */
  lemma NeverTwice(logs: seq<Log>, steps: seq<Step>, at: seq<nat>, n: nat, i: nat, j: nat, x: nat)
    requires Behaves(logs, steps, at) && n <= |steps|
    requires i in logs[n] && j in logs[n] && i != j && logs[n][i].conn == logs[n][j].conn
    ensures !(Covers(logs[n][i], x) && Covers(logs[n][j], x))
    ensures logs[n][i].ended.Some? || logs[n][j].ended.Some?
  {
    InvRun(logs, steps, at, n);
    assert Before(logs[n][if i < j then i else j], logs[n][if i < j then j else i]);
  }

  function OpenRefs(log: Log, t: nat, d: string): set<string> {
    set k | k in log && log[k].conn.tenant == t && log[k].conn.device == d && log[k].ended.None? :: log[k].conn.ref
  }

  /** After a heartbeat the device's open sessions are exactly the connections it reported,
      every one of them seen now, and no other device's rows have changed. */
  lemma HeartbeatExact(log: Log, next: Log, t: nat, d: string, current: set<string>, now: nat)
    requires Next(log, Heartbeat(t, d, current), now, next)
    ensures OpenRefs(next, t, d) == current
    ensures forall k | k in next && next[k].conn.tenant == t && next[k].conn.device == d && next[k].ended.None? ::
              next[k].lastSeen == now
    ensures forall k | k in next && (next[k].conn.tenant != t || next[k].conn.device != d) :: k in log && next[k] == log[k]
  {
  }

  /** A connection reported without an open session gets exactly one, which starts now. */
  lemma HeartbeatOpens(log: Log, next: Log, t: nat, d: string, current: set<string>, now: nat, ref: string)
    requires Inv(log, now) && Next(log, Heartbeat(t, d, current), now, next) && ref in current
    requires forall k | k in log && log[k].conn == Conn(t, d, ref) :: log[k].ended.Some?
    ensures exists id :: id in next && id !in log && next[id] == Session(Conn(t, d, ref), now, now, None)
    ensures forall i, j | i in next && j in next && i !in log && j !in log && next[i].conn == Conn(t, d, ref) == next[j].conn :: i == j
    ensures forall k | k in next && k !in log :: Above(log, k) && next[k] == Session(Conn(t, d, next[k].conn.ref), now, now, None)
  {
    assert !HasOpen(log, Conn(t, d, ref));
    var id :| id in next && id !in log && next[id].conn.ref == ref;
    assert IsNew(log, next, id, t, d, current, now);
    forall k | k in next && k !in log ensures Above(log, k) && next[k] == Session(Conn(t, d, next[k].conn.ref), now, now, None) {
      assert IsNew(log, next, k, t, d, current, now);
    }
  }

  /** Deleting a device deletes its sessions, and no other. */
  lemma ForgottenExactly(log: Log, t: nat, d: string, now: nat, next: Log, k: nat)
    requires Next(log, ForgetDevice(t, d), now, next)
    ensures k in next <==> k in log && (log[k].conn.tenant != t || log[k].conn.device != d)
    ensures k in next ==> next[k] == log[k]
  {
  }

  /** A heartbeat ends a session at the last time it was confirmed, and never reopens one. */
  lemma HeartbeatEnds(log: Log, next: Log, t: nat, d: string, current: set<string>, now: nat, k: nat)
    requires Next(log, Heartbeat(t, d, current), now, next) && k in log
    ensures k in next && next[k].conn == log[k].conn && next[k].started == log[k].started
    ensures next[k].ended.Some? <==> log[k].ended.Some? || (log[k].conn == Conn(t, d, log[k].conn.ref) && log[k].conn.ref !in current)
    ensures next[k].ended.Some? ==> next[k].ended == if log[k].ended.Some? then log[k].ended else Some(log[k].lastSeen)
  {
  }

  // Late audit retries

  predicate Forgets(step: Step, c: Conn) {
    step == ForgetDevice(c.tenant, c.device)
  }

  /** A row keeps its connection and its start, until its device is deleted. */
  lemma {:induction false} RowStays(logs: seq<Log>, steps: seq<Step>, at: seq<nat>, m: nat, n: nat, k: nat)
    requires Behaves(logs, steps, at) && m <= n <= |steps| && k in logs[m]
    requires forall i | m <= i < n :: !Forgets(steps[i], logs[m][k].conn)
    ensures k in logs[n] && logs[n][k].conn == logs[m][k].conn && logs[n][k].started == logs[m][k].started
    decreases n
  {
    if m < n {
      RowStays(logs, steps, at, m, n - 1, k);
      assert Next(logs[n - 1], steps[n - 1], at[n - 1], logs[n]);
    }
  }

  /** A retried "new" report less than the retry window after the one that opened the session
      adds no row, even if the session was closed in between. */
  lemma RetryAddsNothing(logs: seq<Log>, steps: seq<Step>, at: seq<nat>, m: nat, n: nat, c: Conn)
    requires Behaves(logs, steps, at) && m < n < |steps|
    requires steps[m] == AuditOpen(c) && !HasKnown(logs[m], c, at[m])
    requires steps[n] == AuditOpen(c) && at[n] < at[m] + AUDIT_RETRY_WINDOW_S
    requires forall i | m < i < n :: !Forgets(steps[i], c)
    ensures logs[n + 1] == logs[n]
  {
    assert Next(logs[m], steps[m], at[m], logs[m + 1]);
    var k :| k !in logs[m] && k in logs[m + 1] && Above(logs[m], k)
             && logs[m + 1] == logs[m][k := Session(c, at[m], at[m], None)];
    RowStays(logs, steps, at, m + 1, n, k);
    assert Known(logs[n], k, c, at[n]);
    assert Next(logs[n], steps[n], at[n], logs[n + 1]);
  }

  /** A "new" report opens a row exactly if every row of the connection has ended and started at least five
      minutes ago: one row, under a new id, that starts now. Otherwise it changes nothing. */
  lemma NewReportExactly(log: Log, c: Conn, now: nat, next: Log)
    requires Next(log, AuditOpen(c), now, next)
    ensures var over := forall k | k in log && log[k].conn == c :: log[k].ended.Some? && log[k].started + 300 <= now;
            && (!over ==> next == log)
            && (over ==> |next| == |log| + 1)
            && (over ==> exists id :: id !in log && Above(log, id) && next == log[id := Session(c, now, now, None)])
  {
    KnownIsRecent(log, c, now);
    if !HasKnown(log, c, now) {
      assert Inserted(log, next, c, now);
      var id :| id !in log && id in next && Above(log, id) && next == log[id := Session(c, now, now, None)];
      OneMoreRow(log, id, Session(c, now, now, None));
    }
    hide HasKnown, Above;
  }

  lemma KnownIsRecent(log: Log, c: Conn, now: nat)
    ensures !HasKnown(log, c, now) <==>
              forall k | k in log && log[k].conn == c :: log[k].ended.Some? && log[k].started + 300 <= now
  {
    if HasKnown(log, c, now) {
      var k :| k in log && Known(log, k, c, now);
      assert log[k].conn == c;
    } else {
      forall k | k in log && log[k].conn == c ensures log[k].ended.Some? && log[k].started + 300 <= now {
        assert !Known(log, k, c, now);
      }
    }
  }

  lemma OneMoreRow(log: Log, id: nat, s: Session)
    requires id !in log
    ensures |log[id := s]| == |log| + 1
  {
    assert log[id := s].Keys == log.Keys + {id};
  }

  /** Outside the window it does: the retry of a report whose session is over opens an empty one,
      which the device's next heartbeat ends where it began. */
  lemma LateRetryIsEmpty(log: Log, c: Conn, now: nat, grown: Log, later: nat, current: set<string>, next: Log)
    requires Inv(log, now) && !HasKnown(log, c, now) && now <= later && c.ref !in current
    requires Next(log, AuditOpen(c), now, grown) && Next(grown, Heartbeat(c.tenant, c.device, current), later, next)
    ensures exists k :: k in next && k !in log && next[k] == Session(c, now, now, Some(now))
    ensures OpenRefs(next, c.tenant, c.device) == current
  {
  }

  /** A "close" report ends the connection's open session now, and changes nothing else. */
  lemma CloseExact(log: Log, c: Conn, now: nat, next: Log, k: nat)
    requires Next(log, AuditClose(c), now, next) && k in log
    ensures !HasOpen(next, c) && next.Keys == log.Keys
    ensures next[k] == if Open(log, k, c) then Session(c, log[k].started, now, Some(now)) else log[k]
  {
  }

  /** The sweeper ends exactly the tenant's open sessions that no heartbeat has confirmed for two minutes. */
  lemma SweepExact(log: Log, t: nat, now: nat, k: nat)
    requires k in log && log[k].ended.None?
    ensures Swept(log, t, now)[k].ended.Some? <==> log[k].conn.tenant == t && log[k].lastSeen + 120 < now
    ensures Swept(log, t, now)[k].ended.Some? ==> Swept(log, t, now)[k].ended == Some(log[k].lastSeen)
  {
  }
}

/** The session log as rows that change in place: the loops of `_reconcile_sessions`, the
    audit branches and the sweeper. */
module SessionLogs {
  import opened Util
  import opened Sessions

  /** A row of the device while the refs in `left` are still to be handled. */
  function Mid(s: Session, t: nat, d: string, current: set<string>, left: set<string>, now: nat): Session {
    if s.conn.ref in left then s else Touched(s, t, d, current, now)
  }

  predicate KeptSoFar(log: Log, next: Log, t: nat, d: string, current: set<string>, left: set<string>, now: nat) {
    forall k | k in log :: k in next && next[k] == Mid(log[k], t, d, current, left, now)
  }

  /** The dict of `_reconcile_sessions`: the device's open rows by ref. */
  predicate Refs(log: Log, m: map<string, nat>, t: nat, d: string) {
    && (forall ref | ref in m :: Open(log, m[ref], Conn(t, d, ref)))
    && (forall k | k in log && Open(log, k, Conn(t, d, log[k].conn.ref)) :: log[k].conn.ref in m && m[log[k].conn.ref] == k)
  }

  lemma TurnKept(log: Log, rows: Log, m: map<string, nat>, t: nat, d: string, current: set<string>, left: set<string>,
                 ref: string, now: nat)
    requires Refs(log, m, t, d) && ref in m && m[ref] in rows
    requires KeptSoFar(log, rows, t, d, current, left + {ref}, now) && ref !in left
    ensures KeptSoFar(log, rows[m[ref] := Touched(rows[m[ref]], t, d, current, now)], t, d, current, left, now)
  {
  }

  lemma TurnAdded(log: Log, rows: Log, t: nat, d: string, refs: set<string>, ref: string, id: nat, now: nat)
    requires Added(log, rows, t, d, refs, now) && Above(rows, id) && log.Keys <= rows.Keys
    requires ref !in refs && !HasOpen(log, Conn(t, d, ref))
    ensures Added(log, rows[id := Session(Conn(t, d, ref), now, now, None)], t, d, refs + {ref}, now)
  {
    var next := rows[id := Session(Conn(t, d, ref), now, now, None)];
    assert Above(log, id) && id !in rows;
    forall k | k in next && k !in log ensures IsNew(log, next, k, t, d, refs + {ref}, now) {
      assert k != id ==> IsNew(log, rows, k, t, d, refs, now);
    }
    forall r | r in refs + {ref}
      ensures HasOpen(log, Conn(t, d, r)) || exists k :: k in next && k !in log && next[k].conn.ref == r
    {
      if r == ref {
        assert id in next && id !in log && next[id].conn.ref == r;
      } else if !HasOpen(log, Conn(t, d, r)) {
        var k :| k in rows && k !in log && rows[k].conn.ref == r;
        assert k in next && k !in log && next[k].conn.ref == r;
      }
    }
  }

  lemma AddedTouch(log: Log, rows: Log, m: map<string, nat>, t: nat, d: string, refs: set<string>, ref: string,
                   s: Session, now: nat)
    requires Refs(log, m, t, d) && ref in m && log.Keys <= rows.Keys && Added(log, rows, t, d, refs, now)
    ensures Added(log, rows[m[ref] := s], t, d, refs + {ref}, now)
  {
  }

  lemma KeptInsert(log: Log, rows: Log, t: nat, d: string, current: set<string>, left: set<string>, ref: string, id: nat, now: nat)
    requires KeptSoFar(log, rows, t, d, current, left + {ref}, now) && id !in log && !HasOpen(log, Conn(t, d, ref))
    ensures KeptSoFar(log, rows[id := Session(Conn(t, d, ref), now, now, None)], t, d, current, left, now)
  {
  }

  lemma NothingYet(log: Log, m: map<string, nat>, t: nat, d: string, current: set<string>, now: nat)
    requires Refs(log, m, t, d)
    ensures KeptSoFar(log, log, t, d, current, m.Keys + current, now)
  {
  }

  /** One turn of the first loop. */
  lemma CloseTurn(log: Log, rows: Log, m: map<string, nat>, t: nat, d: string, current: set<string>, todo: set<string>,
                  ref: string, now: nat)
    requires Refs(log, m, t, d) && ref in m && ref in todo && rows.Keys == log.Keys
    requires KeptSoFar(log, rows, t, d, current, todo + current, now)
    ensures m[ref] in rows
    ensures ref in current ==> KeptSoFar(log, rows, t, d, current, todo - {ref} + current, now)
    ensures ref !in current ==>
              KeptSoFar(log, rows[m[ref] := rows[m[ref]].(ended := Some(rows[m[ref]].lastSeen))],
                        t, d, current, todo - {ref} + current, now)
  {
  }

  /** One turn of the second loop, for a connection that has an open row. */
  lemma TouchTurn(log: Log, rows: Log, m: map<string, nat>, t: nat, d: string, current: set<string>, todo: set<string>,
                  ref: string, now: nat)
    requires Refs(log, m, t, d) && ref in m && ref in todo && todo <= current && log.Keys <= rows.Keys
    requires KeptSoFar(log, rows, t, d, current, todo, now) && Added(log, rows, t, d, current - todo, now)
    ensures m[ref] in log
    ensures var next := rows[m[ref] := rows[m[ref]].(lastSeen := now)];
            KeptSoFar(log, next, t, d, current, todo - {ref}, now) && Added(log, next, t, d, current - (todo - {ref}), now)
  {
    assert Open(log, m[ref], Conn(t, d, ref));
    assert todo - {ref} + {ref} == todo && current - (todo - {ref}) == current - todo + {ref};
    TurnKept(log, rows, m, t, d, current, todo - {ref}, ref, now);
    AddedTouch(log, rows, m, t, d, current - todo, ref, rows[m[ref]].(lastSeen := now), now);
  }

  /** One turn of the second loop, for a connection that has none. */
  lemma OpenTurn(log: Log, rows: Log, m: map<string, nat>, t: nat, d: string, current: set<string>, todo: set<string>,
                 ref: string, id: nat, now: nat)
    requires Refs(log, m, t, d) && ref !in m && ref in todo && todo <= current && log.Keys <= rows.Keys && Above(rows, id)
    requires KeptSoFar(log, rows, t, d, current, todo, now) && Added(log, rows, t, d, current - todo, now)
    ensures var next := rows[id := Session(Conn(t, d, ref), now, now, None)];
            KeptSoFar(log, next, t, d, current, todo - {ref}, now) && Added(log, next, t, d, current - (todo - {ref}), now)
  {
    assert !HasOpen(log, Conn(t, d, ref)) by {
      assert forall k | k in log && Open(log, k, Conn(t, d, ref)) :: Open(log, k, Conn(t, d, log[k].conn.ref));
    }
    assert todo - {ref} + {ref} == todo && current - (todo - {ref}) == current - todo + {ref};
    assert id !in log;
    KeptInsert(log, rows, t, d, current, todo - {ref}, ref, id, now);
    TurnAdded(log, rows, t, d, current - todo, ref, id, now);
  }

  lemma OneOpen(log: Log, now: nat, c: Conn, i: nat, j: nat)
    requires Inv(log, now) && Open(log, i, c) && Open(log, j, c)
    ensures i == j
  {
  }

  class SessionLog {
    var rows: map<nat, Session>
    /** The next row id. */
    var next: nat

    ghost predicate Valid(now: nat)
      reads this
    {
      Inv(rows, now) && Above(rows, next)
    }

    constructor ()
      ensures Valid(0) && rows == map[]
    {
      rows, next := map[], 0;
    }

    method Insert(c: Conn, now: nat) returns (id: nat)
      requires Above(rows, next)
      modifies this
      ensures id == old(next) && rows == old(rows)[id := Session(c, now, now, None)] && Above(rows, next)
    {
      id := next;
      rows := rows[id := Session(c, now, now, None)];
      next := next + 1;
    }

    /** The device's open rows, keyed by ref. */
    method OpenRows(t: nat, d: string, ghost now: nat) returns (m: map<string, nat>)
      requires Valid(now)
      ensures Refs(rows, m, t, d)
    {
      m := map[];
      var todo := set k | k in rows && Open(rows, k, Conn(t, d, rows[k].conn.ref));
      ghost var all := todo;
      while todo != {}
        invariant todo <= all
        invariant forall ref | ref in m :: m[ref] in all - todo && Open(rows, m[ref], Conn(t, d, ref))
        invariant forall k | k in all - todo :: rows[k].conn.ref in m && m[rows[k].conn.ref] == k
        decreases |todo|
      {
        var k :| k in todo;
        todo := todo - {k};
        forall j | j in all && j != k ensures rows[j].conn.ref != rows[k].conn.ref {
          assert Before(rows[if j < k then j else k], rows[if j < k then k else j]);
        }
        m := m[rows[k].conn.ref := k];
      }
    }

    /** One heartbeat: the two loops over the connections it reports. */
    method Reconcile(t: nat, d: string, current: set<string>, now: nat)
      requires Valid(now)
      modifies this
      ensures Next(old(rows), Heartbeat(t, d, current), now, rows) && Valid(now)
      ensures OpenRefs(rows, t, d) == current
    {
      var refs := OpenRows(t, d, now);
      ghost var log := rows;
      CloseGone(refs, t, d, current, now);
      TouchOrOpen(refs, t, d, current, now, log);
      HeartbeatKeeps(log, rows, t, d, current, now);
      HeartbeatExact(log, rows, t, d, current, now);
    }

    /** The first loop: sessions whose connection is gone end where they were last seen. */
    method CloseGone(refs: map<string, nat>, t: nat, d: string, current: set<string>, now: nat)
      requires Refs(rows, refs, t, d)
      modifies this`rows
      ensures rows.Keys == old(rows).Keys && KeptSoFar(old(rows), rows, t, d, current, current, now)
    {
      var todo := refs.Keys;
      NothingYet(rows, refs, t, d, current, now);
      while todo != {}
        invariant todo <= refs.Keys && rows.Keys == old(rows).Keys
        invariant KeptSoFar(old(rows), rows, t, d, current, todo + current, now)
        decreases |todo|
      {
        var ref :| ref in todo;
        CloseTurn(old(rows), rows, refs, t, d, current, todo, ref, now);
        if ref !in current {
          rows := rows[refs[ref] := rows[refs[ref]].(ended := Some(rows[refs[ref]].lastSeen))];
        }
        todo := todo - {ref};
      }
      assert todo + current == current;
    }

    /** The second loop: sessions still active are touched, new connections get a row. */
    method TouchOrOpen(refs: map<string, nat>, t: nat, d: string, current: set<string>, now: nat, ghost log: Log)
      requires Refs(log, refs, t, d) && rows.Keys == log.Keys && Above(rows, next)
      requires KeptSoFar(log, rows, t, d, current, current, now)
      modifies this
      ensures Reconciled(log, rows, t, d, current, now) && Above(rows, next)
    {
      var todo := current;
      while todo != {}
        invariant todo <= current && log.Keys <= rows.Keys && Above(rows, next)
        invariant KeptSoFar(log, rows, t, d, current, todo, now)
        invariant Added(log, rows, t, d, current - todo, now)
        decreases |todo|
      {
        var ref :| ref in todo;
        if ref in refs {
          TouchTurn(log, rows, refs, t, d, current, todo, ref, now);
          rows := rows[refs[ref] := rows[refs[ref]].(lastSeen := now)];
        } else {
          OpenTurn(log, rows, refs, t, d, current, todo, ref, next, now);
          var _ := Insert(Conn(t, d, ref), now);
        }
        todo := todo - {ref};
      }
      assert current - todo == current;
    }

    /** `_audit_session_id`: the open row, else the youngest one started within the retry window. */
    method Find(c: Conn, now: nat) returns (sid: Option<nat>)
      requires Valid(now)
      ensures sid.Some? <==> HasKnown(rows, c, now)
      ensures sid.Some? ==> Known(rows, sid.value, c, now)
      ensures HasOpen(rows, c) ==> sid.Some? && Open(rows, sid.value, c)
      ensures sid.Some? && !HasOpen(rows, c) ==> forall k | k in rows && Known(rows, k, c, now) :: k <= sid.value
    {
      sid := None;
      var todo := rows.Keys;
      while todo != {}
        invariant todo <= rows.Keys
        invariant sid.Some? ==> Known(rows, sid.value, c, now)
        invariant forall k | k in rows && k !in todo && Known(rows, k, c, now) :: sid.Some?
        invariant forall k | k in rows && k !in todo && Open(rows, k, c) :: sid.Some? && Open(rows, sid.value, c)
        invariant sid.Some? && rows[sid.value].ended.Some? ==>
                    forall k | k in rows && k !in todo && Known(rows, k, c, now) :: k <= sid.value
        decreases |todo|
      {
        var k :| k in todo;
        todo := todo - {k};
        if rows[k].conn == c && (rows[k].ended.None? || rows[k].started + AUDIT_RETRY_WINDOW_S > now)
           && (sid.None? || (rows[k].ended.None? && rows[sid.value].ended.Some?)
               || (rows[k].ended.None? == rows[sid.value].ended.None? && sid.value < k)) {
          sid := Some(k);
        }
      }
    }

    /** A "new" report, or one that names the peer. */
    method ReportOpen(c: Conn, now: nat) returns (sid: nat)
      requires Valid(now)
      modifies this
      ensures Next(old(rows), AuditOpen(c), now, rows) && Valid(now)
      ensures Known(rows, sid, c, now)
    {
      var found := Find(c, now);
      if found.Some? {
        sid := found.value;
      } else {
        sid := Insert(c, now);
        assert Inserted(old(rows), rows, c, now);
        InsertKeeps(old(rows), rows, c, now);
      }
    }

    /** A "close" report ends the open row, and nothing else. */
    method ReportClose(c: Conn, now: nat)
      requires Valid(now)
      modifies this`rows
      ensures Next(old(rows), AuditClose(c), now, rows) && Valid(now)
    {
      var found := Find(c, now);
      forall k | k in rows && Open(rows, k, c) ensures found == Some(k) {
        OneOpen(rows, now, c, found.value, k);
      }
      if found.Some? && rows[found.value].ended.None? {
        rows := rows[found.value := rows[found.value].(ended := Some(now), lastSeen := now)];
      }
      assert rows == Closed(old(rows), c, now);
      CloseKeeps(old(rows), c, now);
    }

    /** Ends the tenant's sessions that heartbeats stopped confirming; returns how many. */
    method SweepStale(t: nat, now: nat) returns (closed: nat)
      requires Valid(now)
      modifies this`rows
      ensures Next(old(rows), Sweep(t), now, rows) && Valid(now)
      ensures closed == |set k | k in old(rows) && Stale(old(rows)[k], t, now)|
    {
      var stale := set k | k in rows && Stale(rows[k], t, now);
      closed := |stale|;
      rows := map k | k in rows :: if k in stale then rows[k].(ended := Some(rows[k].lastSeen)) else rows[k];
      assert rows == Swept(old(rows), t, now);
      SweepKeeps(old(rows), t, now);
    }
  }
}

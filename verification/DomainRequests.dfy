/**
 What a tenant may ask for: which claims are accepted and which refused, when a name can be
 taken over, how many domains a tenant can come to have, and what the other requests do.
 */
module DomainRequests {
  import opened Util
  import opened Domains
  import opened DomainRuns
  import opened DomainHistory
  import opened DomainOwnership
  import opened DomainOutcomes

  // Claims

  /** The row keeps others from its name: not a custom domain, verified once and not given up,
      or claimed no more than seven days ago. */
  predicate Guards(r: Row, now: nat) {
    || r.kind != Custom
    || r.status == Active || r.status == DnsBroken
    || (r.status != Failed && (r.verifiedAt.Some? || now <= r.createdAt + 7 * 86400))
  }

  /** A claim by a tenant is refused, for the first of the five reasons that applies, or accepted. */
  lemma ClaimedExactly(db: Db, t: nat, h: string, badName: bool, limit: nat, now: nat)
    ensures var result := AddDomain(db, t, h, badName, limit, now);
            var mayClaim := t in db.tenants && (db.tenants[t] == InTrial || db.tenants[t] == InService);
            var listed := exists k :: k in db.rows && db.rows[k].hostname == h && db.rows[k].tenant == t;
            var inUse := exists k :: k in db.rows && db.rows[k].hostname == h && Guards(db.rows[k], now);
            && (result == Err(NotOpen) <==> !mayClaim)
            && (result == Err(BadName) <==> mayClaim && badName)
            && (result == Err(AlreadyListed) <==> mayClaim && !badName && listed)
            && (result == Err(InUse) <==> mayClaim && !badName && !listed && inUse)
            && (result == Err(LimitReached) <==> mayClaim && !badName && !listed && !inUse && |CustomOf(db.rows, t)| >= limit)
            && (result.Ok? <==> mayClaim && !badName && !listed && !inUse && |CustomOf(db.rows, t)| < limit)
  {
    var existing := Named(db.rows, h);
    if exists k | k in db.rows :: db.rows[k].hostname == h && Guards(db.rows[k], now) {
      var k :| k in db.rows && db.rows[k].hostname == h && Guards(db.rows[k], now);
      assert k in existing && !IsReleased(db.rows[k], now);
    }
    if k :| k in existing && !IsReleased(db.rows[k], now) {
      assert Guards(db.rows[k], now);
    }
    if k :| k in existing && db.rows[k].tenant == t {
      assert k in db.rows;
    } else {
      assert CustomOf(db.rows - existing, t) == CustomOf(db.rows, t);
    }
  }

  /** The table after a claim: the rows of that name are gone, and there is one new row, unverified,
      due at once, with seven days for its DNS. */
  lemma ClaimedRows(db: Db, t: nat, h: string, limit: nat, now: nat, k: nat)
    requires TableInv(db) && AddDomain(db, t, h, false, limit, now).Ok?
    ensures var next := AddDomain(db, t, h, false, limit, now).value;
            && next.tenants == db.tenants && next.nextId == db.nextId + 1
            && (k in next.rows <==> k == db.nextId || (k in db.rows && db.rows[k].hostname != h))
            && (k in next.rows && k != db.nextId ==> next.rows[k] == db.rows[k])
            && next.rows[db.nextId] == Row(t, h, Custom, false, Verifying, now, None, Some(now), Some(now + 7 * 86400),
                                           0, None, None, None, false)
            && |CustomOf(next.rows, t)| == |CustomOf(db.rows, t)| + 1 <= limit
  {
    var next := AddDomain(db, t, h, false, limit, now).value;
    ClaimedExactly(db, t, h, false, limit, now);
    forall i | i in CustomOf(db.rows, t) ensures db.rows[i].hostname != h {
      assert i in Named(db.rows, h) <==> db.rows[i].hostname == h;
    }
    assert CustomOf(next.rows, t) == CustomOf(db.rows, t) + {db.nextId};
    assert db.nextId !in CustomOf(db.rows, t);
  }

  /** Another tenant can take a never verified claim over once its seven days are over, and not
      before; a claim given up, at any time; a domain that is served, never. */
  lemma TakenOverExactly(db: Db, k: nat, t: nat, limit: nat, now: nat)
    requires TableInv(db) && k in db.rows && t in db.tenants && IsOpen(db.tenants[t])
    requires db.rows[k].tenant != t && db.rows[k].kind == Custom && |CustomOf(db.rows, t)| < limit
    ensures var r, result := db.rows[k], AddDomain(db, t, db.rows[k].hostname, false, limit, now);
            && (result.Ok? ==> k !in result.value.rows)
            && (result.Err? ==> result == Err(InUse))
            && (r.status == Failed ==> result.Ok?)
            && (r.status == Active || r.status == DnsBroken ==> result.Err?)
            && (r.status != Failed && r.verifiedAt.None? ==> (result.Ok? <==> r.createdAt + 7 * 86400 < now))
            && (r.status != Failed && r.verifiedAt.Some? ==> result.Err?)
  {
    var h := db.rows[k].hostname;
    assert RowOk(db.rows[k]);
    ClaimedExactly(db, t, h, false, limit, now);
    forall i | i in db.rows && db.rows[i].hostname == h ensures i == k {
    }
    if AddDomain(db, t, h, false, limit, now).Ok? {
      ClaimedRows(db, t, h, limit, now, k);
    }
  }

  lemma CustomGrowsByClaim(db: Db, step: Step, t: nat)
    requires TableInv(db) && Enabled(db, step)
    ensures !(step.Claim? && step.tid == t) ==> CustomOf(Next(db, step).rows, t) <= CustomOf(db.rows, t)
  {
    hide AddDomain;
    var next := Next(db, step);
    if !(step.Claim? && step.tid == t) {
      forall k | k in CustomOf(next.rows, t) ensures k in CustomOf(db.rows, t) {
        if k in db.rows {
          RowSurvives(db, step, k);
          CustomStays(db, step, k);
        } else {
          NewRowIsClaimed(db, step, k);
          ClaimedExactly(db, step.tid, step.host, step.badName, step.limit, step.now);
          ClaimedRows(db, step.tid, step.host, step.limit, step.now, k);
        }
      }
    }
  }

  lemma LimitNext(db: Db, step: Step, t: nat, limit: nat)
    requires TableInv(db) && Enabled(db, step)
    requires step.Claim? && step.tid == t ==> step.limit <= limit
    requires |CustomOf(db.rows, t)| <= limit
    ensures |CustomOf(Next(db, step).rows, t)| <= limit
  {
    if step.Claim? && step.tid == t {
      if AddDomain(db, t, step.host, step.badName, step.limit, step.now).Ok? {
        ClaimedExactly(db, t, step.host, step.badName, step.limit, step.now);
        ClaimedRows(db, t, step.host, step.limit, step.now, 0);
      }
      hide AddDomain, CustomOf, TableInv;
    } else {
      CustomGrowsByClaim(db, step, t);
      Subset(CustomOf(Next(db, step).rows, t), CustomOf(db.rows, t));
    }
  }

  lemma Subset<T>(a: set<T>, b: set<T>)
    requires a <= b
    ensures |a| <= |b|
  {
    assert b == a + (b - a);
  }

  /** Over any run a tenant never has more custom domains than its limit. */
  lemma {:induction false} AtMostTheLimit(w: World, steps: seq<Step>, t: nat, limit: nat)
    requires Inv(w) && Possible(w, steps) && |CustomOf(w.db.rows, t)| <= limit
    requires forall s | s in steps && s.Claim? && s.tid == t :: s.limit <= limit
    ensures |CustomOf(Run(w, steps).db.rows, t)| <= limit
    decreases |steps|
  {
    if steps != [] {
      hide After, Next, CustomOf, Enabled, TableInv;
      assert steps[0] in steps && forall s | s in steps[1..] :: s in steps;
      NextIs(w, steps[0]);
      InvNext(w, steps[0]);
      LimitNext(w.db, steps[0], t, limit);
      AtMostTheLimit(After(w, steps[0]), steps[1..], t, limit);
    }
  }

  // The other requests

  /** `check_now` is refused only for a row of somebody else, an own host, or a domain being removed.
      A served domain is checked at once; any other one starts anew: a window of seven days, no
      failure counted. Nothing else changes. */
  lemma RecheckExactly(db: Db, t: nat, id: nat, now: nat)
    ensures var next := Next(db, Recheck(t, id, now));
            if id in db.rows && db.rows[id].tenant == t && db.rows[id].kind == Custom && !db.rows[id].removing then
              var r := db.rows[id];
              next == db.(rows := db.rows[id :=
                if r.status == Active || r.status == DnsBroken then r.(nextCheck := Some(now))
                else r.(status := Verifying, nextCheck := Some(now), pendingUntil := Some(now + 7 * 86400), failures := 0)])
            else next == db
  {
  }

  /** After `check_now` the next step gives a domain that is not served up only if it is a visit
      more than seven days later: refusals are counted from the start again. */
  lemma PutBackStartsAnew(w: World, t: nat, id: nat, now: nat, visit: Step)
    requires Inv(w) && Owns(w.db, t, id) && w.db.rows[id].kind == Custom && !w.db.rows[id].removing
    requires !Served(w.db.rows[id].status)
    requires var mid := Next(w.db, Recheck(t, id, now)); Enabled(mid, visit) && id in Next(mid, visit).rows
    ensures Next(Next(w.db, Recheck(t, id, now)), visit).rows[id].status == Failed ==>
              visit.WorkerAdvance? && visit.id == id && now + 7 * 86400 < visit.at
  {
    RecheckExactly(w.db, t, id, now);
    InvNext(w, Recheck(t, id, now));
    NextIs(w, Recheck(t, id, now));
    var next := After(w, Recheck(t, id, now));
    InvRow(next, id);
    FailsExactly(next.db, visit, id);
  }

  /** A domain is made primary exactly if it is an own host or active, and not being removed; then it
      is the tenant's only primary row, and nothing else changes. */
  lemma PromoteExactly(db: Db, t: nat, id: nat, k: nat)
    requires k in db.rows
    ensures var next := Next(db, Promote(t, id));
            var accepted := id in db.rows && db.rows[id].tenant == t && !db.rows[id].removing
                            && (db.rows[id].kind != Custom || db.rows[id].status == Active);
            && next.tenants == db.tenants && next.nextId == db.nextId && next.rows.Keys == db.rows.Keys
            && next.rows[k] == (if accepted && db.rows[k].tenant == t then db.rows[k].(primary := k == id) else db.rows[k])
  {
  }

  /** A removal is refused only for a row of somebody else or an own host. Once it is accepted the name
      no longer resolves, the row is due for removal and is not primary. */
  lemma WithdrawExactly(db: Db, t: nat, id: nat, now: nat, k: nat)
    requires TableInv(db) && k in db.rows
    ensures var next := Next(db, Withdraw(t, id, now));
            if id in db.rows && db.rows[id].tenant == t && db.rows[id].kind == Custom then
              && next.rows.Keys == db.rows.Keys && next.tenants == db.tenants && next.nextId == db.nextId
              && next.rows[id] == db.rows[id].(removing := true, primary := false, nextCheck := Some(now))
              && (db.rows[k].tenant != t ==> next.rows[k] == db.rows[k])
              && !Serves(next.rows, db.rows[id].hostname, t)
            else next == db
  {
    if id in db.rows && db.rows[id].tenant == t && db.rows[id].kind == Custom {
      if db.rows[id].primary {
        FallBackKeeps(db, t, id);
      }
      var next := Next(db, Withdraw(t, id, now));
      forall i | i in next.rows && next.rows[i].hostname == db.rows[id].hostname ensures i == id {
        assert next.rows[i].hostname == db.rows[i].hostname by {
          WithdrawNames(db, t, id, now, i);
        }
      }
    }
  }

  lemma WithdrawNames(db: Db, t: nat, id: nat, now: nat, i: nat)
    requires i in db.rows && i in Next(db, Withdraw(t, id, now)).rows
    ensures Next(db, Withdraw(t, id, now)).rows[i].hostname == db.rows[i].hostname
  {
    StepFrame(db, Withdraw(t, id, now));
    hide FallBackToHome, HomeId;
  }

  /** The worker deletes a row that is to be removed exactly if the helper let go of its host, and changes
      nothing else: the row is not primary any more. */
  lemma RemovedExactly(db: Db, t: nat, id: nat, releaseOk: bool, k: nat)
    requires TableInv(db) && id in db.rows && db.rows[id].tenant == t && ForRemove(db.rows[id])
    ensures var next := Next(db, WorkerRemove(t, id, releaseOk));
            && next == (if releaseOk then db.(rows := db.rows - {id}) else db)
            && (k in next.rows <==> k in db.rows && (k != id || !releaseOk))
  {
    assert RowOk(db.rows[id]);
  }

  /** The host a tenant falls back to: its provider subdomain, the first one added, and only without one
      another own host. */
  lemma HomeIsFirst(rows: Rows, t: nat, home: nat, k: nat)
    requires HomeId(rows, t) == Some(home) && k in rows && rows[k].tenant == t
    ensures home in rows && rows[home].tenant == t && rows[home].kind != Custom
    ensures rows[k].kind == ProviderSubdomain ==> rows[home].kind == ProviderSubdomain && home <= k
    ensures rows[k].kind == Legacy && rows[home].kind == Legacy ==> home <= k
  {
    var own := set i | i in rows && rows[i].tenant == t && rows[i].kind != Custom;
    var subdomains := set i | i in own && rows[i].kind == ProviderSubdomain;
    assert k in own <==> rows[k].kind != Custom;
    assert k in subdomains <==> rows[k].kind == ProviderSubdomain;
    assert HomeId(rows, t) == if subdomains != {} then Some(Least(subdomains)) else if own != {} then Some(Least(own)) else None;
  }
}

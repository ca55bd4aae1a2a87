/**
 Sign-in rate limiting. What a key's history of failures means, without any bound on memory.
 Times are seconds of a clock that never goes back.
 */
module RateLimit {
  import opened Util

  const WINDOW_S: real := 900.0
  const LOCK_S: real := 900.0
  const MAX_EMAIL_FAILURES: nat := 5
  const MAX_IP_FAILURES: nat := 20

  /** An email is in lower case and stripped. */
  datatype Key = Email(address: string) | Ip(address: string)

  datatype Event = Fail(key: Key, at: real) | Clear(key: Key)

  function Limit(k: Key): nat {
    if k.Email? then MAX_EMAIL_FAILURES else MAX_IP_FAILURES
  }

  /** The failures still inside the window at `now`. */
  function Recent(times: seq<real>, now: real): (n: nat)
    ensures n <= |times|
  {
    if times == [] then 0
    else Recent(times[..|times| - 1], now) + if times[|times| - 1] > now - WINDOW_S then 1 else 0
  }

  predicate Reached(times: seq<real>, now: real, k: Key) {
    Recent(times, now) >= Limit(k)
  }

  /** The key's failures since it was last locked or cleared. */
  function Since(history: seq<Event>, k: Key): seq<real> {
    if history == [] then []
    else
      var before, e := Since(history[..|history| - 1], k), history[|history| - 1];
      if e.key != k then before
      else if e.Clear? then []
      else if Reached(before + [e.at], e.at, k) then []
      else before + [e.at]
  }

  /** When the key's last lock ends. Clearing does not lift a lock. */
  function LockedUntil(history: seq<Event>, k: Key): Option<real> {
    if history == [] then None
    else
      var before, e := history[..|history| - 1], history[|history| - 1];
      if e.key == k && e.Fail? && Reached(Since(before, k) + [e.at], e.at, k) then Some(e.at + LOCK_S)
      else LockedUntil(before, k)
  }

  function Ceil(x: real): int {
    -((-x).Floor)
  }

  /** Whole seconds until the key may try again. */
  function Wait(until: Option<real>, now: real): nat {
    if until.None? || until.value <= now then 0 else Ceil(until.value - now)
  }

  /** Failure n is one of the key's that locked it. */
  predicate LockedAt(history: seq<Event>, k: Key, n: nat) {
    && n < |history| && history[n].Fail? && history[n].key == k
    && Reached(Since(history[..n], k) + [history[n].at], history[n].at, k)
  }

  /** The key may not try now: it locked less than 15 minutes ago. */
  ghost predicate Barred(history: seq<Event>, k: Key, now: real) {
    exists n: nat :: LockedAt(history, k, n) && now < history[n].at + 900.0
  }

  function Clock(history: seq<Event>): real {
    if history == [] then 0.0
    else if history[|history| - 1].Fail? then history[|history| - 1].at
    else Clock(history[..|history| - 1])
  }

  predicate Timely(history: seq<Event>) {
    history == [] ||
    var before, e := history[..|history| - 1], history[|history| - 1];
    Timely(before) && (e.Fail? ==> Clock(before) <= e.at)
  }

  predicate Sorted(times: seq<real>, last: real) {
    && (forall i, j | 0 <= i < j < |times| :: times[i] <= times[j])
    && (forall i | 0 <= i < |times| :: times[i] <= last)
  }

  lemma {:induction false} SinceSorted(history: seq<Event>, k: Key)
    requires Timely(history)
    ensures Sorted(Since(history, k), Clock(history))
    decreases |history|
  {
    if history != [] {
      SinceSorted(history[..|history| - 1], k);
    }
  }

  lemma {:induction false} RecentShrinks(times: seq<real>, now: real, later: real)
    requires now <= later
    ensures Recent(times, later) <= Recent(times, now)
  {
    if times != [] {
      RecentShrinks(times[..|times| - 1], now, later);
    }
  }

  // When a key locks

  /** Between locks a key is always below its limit, so it locks exactly with the failure that
      reaches it: the fifth (for an IP the twentieth) inside the window. */
  lemma {:induction false} BelowLimit(history: seq<Event>, k: Key, now: real)
    requires Timely(history) && Clock(history) <= now
    ensures Recent(Since(history, k), now) < Limit(k)
    decreases |history|
  {
    if history != [] {
      var before, e := history[..|history| - 1], history[|history| - 1];
      if e.key == k && e.Fail? {
        RecentShrinks(Since(history, k), e.at, now);
      } else {
        BelowLimit(before, k, now);
      }
    }
  }

  lemma LocksAtTheLimit(history: seq<Event>, k: Key, now: real)
    requires Timely(history) && Clock(history) <= now
    ensures var times := Since(history, k) + [now];
            Reached(times, now, k) <==> Recent(times, now) == Limit(k)
    ensures var next := history + [Fail(k, now)];
            Reached(Since(history, k) + [now], now, k) <==>
              LockedUntil(next, k) == Some(now + LOCK_S) && Since(next, k) == []
  {
    BelowLimit(history, k, now);
    var times, next := Since(history, k) + [now], history + [Fail(k, now)];
    assert times[..|times| - 1] == Since(history, k);
    assert next[..|next| - 1] == history;
  }

  /** A wait is left for a key exactly while it is barred; clearing its failures does not lift the lock. */
  lemma {:induction false} WaitsExactly(history: seq<Event>, k: Key, now: real)
    requires Timely(history)
    ensures Wait(LockedUntil(history, k), now) > 0 <==> Barred(history, k, now)
    decreases |history|
  {
    if history != [] {
      hide LockedUntil, LockedAt, Wait, Timely;
      var last := |history| - 1;
      var before, e := history[..last], history[last];
      TimelyBefore(history);
      WaitsExactly(before, k, now);
      OneMoreLock(history, k);
      if LockedAt(history, k, last) {
        LockEnds(history, k);
        LeftOver(Some(e.at + LOCK_S), now);
        forall n: nat | LockedAt(history, k, n) && now < history[n].at + 900.0 ensures now < e.at + 900.0 {
          LockIsFail(history, k, n);
          ClockIsLast(history, n);
        }
      } else {
        BarredBefore(history, k, now);
      }
    }
  }

  lemma TimelyBefore(history: seq<Event>)
    requires Timely(history) && history != []
    ensures Timely(history[..|history| - 1])
  {
  }

  lemma LockIsFail(history: seq<Event>, k: Key, n: nat)
    requires LockedAt(history, k, n)
    ensures n < |history| && history[n].Fail?
  {
  }

  lemma LockEnds(history: seq<Event>, k: Key)
    requires history != [] && LockedAt(history, k, |history| - 1)
    ensures history[|history| - 1].Fail? && Clock(history) == history[|history| - 1].at
  {
  }

  /** The key's last lock is the one of the last event, if that locked it, or else the one before it. */
  lemma OneMoreLock(history: seq<Event>, k: Key)
    requires history != []
    ensures var last := |history| - 1;
            && (LockedAt(history, k, last) ==>
                  history[last].Fail? && LockedUntil(history, k) == Some(history[last].at + LOCK_S))
            && (!LockedAt(history, k, last) ==> LockedUntil(history, k) == LockedUntil(history[..last], k))
  {
    hide Since, Reached;
  }

  lemma BarredBefore(history: seq<Event>, k: Key, now: real)
    requires history != [] && !LockedAt(history, k, |history| - 1)
    ensures Barred(history, k, now) <==> Barred(history[..|history| - 1], k, now)
  {
    hide Since, Reached;
    var last := |history| - 1;
    var before := history[..last];
    forall n: nat | n < last ensures LockedAt(history, k, n) <==> LockedAt(before, k, n) {
      assert before[..n] == history[..n];
    }
    if Barred(history, k, now) {
      var n: nat :| LockedAt(history, k, n) && now < history[n].at + 900.0;
      assert n < last && LockedAt(before, k, n);
    }
    if Barred(before, k, now) {
      var n: nat :| LockedAt(before, k, n) && now < before[n].at + 900.0;
      assert LockedAt(history, k, n);
    }
  }

  lemma LeftOver(until: Option<real>, now: real)
    ensures Wait(until, now) > 0 <==> until.Some? && now < until.value
  {
  }

  /** No failure is later than the clock. */
  lemma {:induction false} ClockIsLast(history: seq<Event>, n: nat)
    requires Timely(history) && n < |history| && history[n].Fail?
    ensures history[n].at <= Clock(history)
    decreases |history|
  {
    var last := |history| - 1;
    if n < last {
      assert history[..last][n] == history[n];
      ClockIsLast(history[..last], n);
    }
  }

  /** The wait is as many whole seconds as are needed until the lock ends, and no more. */
  lemma WaitIsLeast(until: Option<real>, now: real, w: nat)
    ensures until.None? ==> Wait(until, now) == 0
    ensures until.Some? ==> (until.value <= now + w as real <==> Wait(until, now) <= w)
  {
  }

  /** The later of two ends has the longer wait. */
  lemma WaitOfLater(a: real, b: real, now: real)
    ensures Wait(Some(if b > a then b else a), now)
         == if Wait(Some(b), now) > Wait(Some(a), now) then Wait(Some(b), now) else Wait(Some(a), now)
  {
  }

  /** Among sorted times, m are inside the window exactly when the m-th last one is. */
  lemma {:induction false} RecentSorted(times: seq<real>, now: real, last: real, m: nat)
    requires Sorted(times, last) && m <= |times|
    ensures Recent(times, now) >= m <==> m == 0 || times[|times| - m] > now - WINDOW_S
    decreases |times|
  {
    if times != [] {
      var before := times[..|times| - 1];
      if times[|times| - 1] > now - WINDOW_S {
        if m > 0 {
          RecentSorted(before, now, last, m - 1);
        }
      } else if m < |times| {
        RecentSorted(before, now, last, m);
      }
    }
  }

  /** Without counting: an email's failure locks it for 15 minutes exactly when the fourth last
      failure before it, since the last lock or clear, is less than 15 minutes old; an IP's,
      when the nineteenth last is. */
  lemma LocksExactly(history: seq<Event>, k: Key, now: real)
    requires Timely(history) && Clock(history) <= now
    ensures var n := if k.Email? then 4 else 19;
            var times := Since(history, k);
            Wait(LockedUntil(history + [Fail(k, now)], k), now) == 900 && Since(history + [Fail(k, now)], k) == []
            <==> |times| >= n && times[|times| - n] > now - 900.0
  {
    hide Timely, Recent;
    var n, times := Limit(k) - 1, Since(history, k);
    SinceSorted(history, k);
    RecentJoins(times, [now], now);
    OneRecent(now);
    if |times| >= n {
      RecentSorted(times, now, Clock(history), n);
    }
    LocksAtTheLimit(history, k, now);
    NotLockedIsKept(history, k, now);
  }

  lemma OneRecent(now: real)
    ensures Recent([now], now) == 1
  {
    assert [now][..0] == [];
  }

  lemma NotLockedIsKept(history: seq<Event>, k: Key, now: real)
    ensures !Reached(Since(history, k) + [now], now, k) ==> Since(history + [Fail(k, now)], k) != []
  {
    assert (history + [Fail(k, now)])[..|history|] == history;
  }

  /** All the key's failures, whatever happened in between. */
  function Every(history: seq<Event>, k: Key): seq<real> {
    if history == [] then []
    else
      var before, e := Every(history[..|history| - 1], k), history[|history| - 1];
      if e.key == k && e.Fail? then before + [e.at] else before
  }

  lemma {:induction false} RecentJoins(a: seq<real>, b: seq<real>, now: real)
    ensures Recent(a + b, now) == Recent(a, now) + Recent(b, now)
    decreases |b|
  {
    if b == [] {
      assert a + b == a;
    } else {
      assert (a + b)[..|a + b| - 1] == a + b[..|b| - 1];
      RecentJoins(a, b[..|b| - 1], now);
    }
  }

  lemma {:induction false} SinceIsSuffix(history: seq<Event>, k: Key)
    ensures |Since(history, k)| <= |Every(history, k)|
    ensures Every(history, k)[|Every(history, k)| - |Since(history, k)|..] == Since(history, k)
    decreases |history|
  {
    if history != [] {
      SinceIsSuffix(history[..|history| - 1], k);
    }
  }

  lemma SinceIsFewer(history: seq<Event>, k: Key, now: real)
    ensures Recent(Since(history, k) + [now], now) <= Recent(Every(history, k) + [now], now)
  {
    SinceIsSuffix(history, k);
    var all, times := Every(history, k), Since(history, k);
    var rest := all[..|all| - |times|];
    assert all == rest + times;
    RecentJoins(rest, times, now);
    RecentJoins(all, [now], now);
    RecentJoins(times, [now], now);
  }

  /** Against the whole history: a key with fewer failures than its limit in every window is never locked. */
  lemma {:induction false} NoBurstNoLock(history: seq<Event>, k: Key)
    requires forall n | 0 <= n < |history| && history[n].key == k && history[n].Fail? ::
               Recent(Every(history[..n], k) + [history[n].at], history[n].at) < Limit(k)
    ensures LockedUntil(history, k) == None
    decreases |history|
  {
    if history != [] {
      var last := |history| - 1;
      var before, e := history[..last], history[last];
      forall n | 0 <= n < last && before[n].key == k && before[n].Fail?
        ensures Recent(Every(before[..n], k) + [before[n].at], before[n].at) < Limit(k)
      {
        assert before[..n] == history[..n];
      }
      NoBurstNoLock(before, k);
      if e.key == k && e.Fail? {
        SinceIsFewer(before, k, e.at);
      }
    }
  }
}

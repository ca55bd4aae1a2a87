/** The limiter's queues, locks and pruning, kept in line with the unbounded history. */
module Limiters {
  import opened Util
  import opened RateLimit

  const MAX_KEYS: nat := 10_000

  /** A queue that stands for a list of failures: its end, without failures that are out of the window for good. */
  predicate Tail(q: seq<real>, times: seq<real>, now: real) {
    && |q| <= |times| && times[|times| - |q|..] == q
    && forall i | 0 <= i < |times| - |q| :: times[i] <= now - WINDOW_S
  }

  function QueueOf(failures: map<Key, seq<real>>, k: Key): seq<real> {
    if k in failures then failures[k] else []
  }

  /** A stored lock that stands for the key's last lock: the same, or none once it is over. */
  predicate SameLock(stored: map<Key, real>, k: Key, until: Option<real>, now: real) {
    if k in stored then until == Some(stored[k]) else until.None? || until.value <= now
  }

  /** What is stored for a key says what its history says. */
  predicate Fits(failures: map<Key, seq<real>>, locks: map<Key, real>, history: seq<Event>, k: Key, now: real) {
    Tail(QueueOf(failures, k), Since(history, k), now) && SameLock(locks, k, LockedUntil(history, k), now)
  }

  ghost predicate Stands(failures: map<Key, seq<real>>, locks: map<Key, real>, history: seq<Event>, now: real) {
    forall k :: Fits(failures, locks, history, k, now)
  }

  lemma StandsLater(failures: map<Key, seq<real>>, locks: map<Key, real>, history: seq<Event>, now: real, later: real)
    requires Stands(failures, locks, history, now) && now <= later
    ensures Stands(failures, locks, history, later)
  {
    forall k ensures Fits(failures, locks, history, k, later) {
      assert Fits(failures, locks, history, k, now);
    }
  }

  function OpenLocks(locks: map<Key, real>, now: real): map<Key, real> {
    map k | k in locks && locks[k] > now :: locks[k]
  }

  predicate Spent(q: seq<real>, now: real) {
    q == [] || q[|q| - 1] <= now - WINDOW_S
  }

  function LiveQueues(failures: map<Key, seq<real>>, now: real): map<Key, seq<real>> {
    map k | k in failures && !Spent(failures[k], now) :: failures[k]
  }

  /** Pruning is not observable. */
  lemma PruneStands(failures: map<Key, seq<real>>, locks: map<Key, real>, history: seq<Event>, now: real)
    requires Timely(history) && Clock(history) <= now && Stands(failures, locks, history, now)
    ensures Stands(failures, OpenLocks(locks, now), history, now)
    ensures Stands(LiveQueues(failures, now), OpenLocks(locks, now), history, now)
  {
    forall k
      ensures Fits(failures, OpenLocks(locks, now), history, k, now)
      ensures Fits(LiveQueues(failures, now), OpenLocks(locks, now), history, k, now)
    {
      assert Fits(failures, locks, history, k, now);
      if k in failures && Spent(failures[k], now) {
        SinceSorted(history, k);
        AllOut(failures[k], Since(history, k), Clock(history), now);
      }
    }
  }

  lemma AllOut(q: seq<real>, times: seq<real>, last: real, now: real)
    requires Tail(q, times, now) && Sorted(times, last) && Spent(q, now)
    ensures Tail([], times, now)
  {
  }

  /** All failures outside the window, then all inside: the count is the length of the second part. */
  lemma {:induction false} RecentIsTail(times: seq<real>, n: nat, now: real)
    requires n <= |times|
    requires forall i | 0 <= i < n :: times[i] <= now - WINDOW_S
    requires forall i | n <= i < |times| :: times[i] > now - WINDOW_S
    ensures Recent(times, now) == |times| - n
  {
    if times != [] {
      var m := |times| - 1;
      if n < |times| {
        RecentIsTail(times[..m], n, now);
      } else {
        RecentIsTail(times[..m], m, now);
      }
    }
  }

  /** A queue whose old failures have been popped, with the new one pushed: as long as the count. */
  lemma PushedCounts(q: seq<real>, times: seq<real>, now: real)
    requires Tail(q, times, now) && Sorted(times, now)
    requires q == [] || q[0] > now - WINDOW_S
    ensures Recent(times + [now], now) == |q| + 1
    ensures Tail(q + [now], times + [now], now)
  {
    hide Recent, Tail, Sorted;
    TailPushed(q, times, now);
    PushedParts(q, times, now);
    RecentIsTail(times + [now], |times| - |q|, now);
  }

  lemma TailPushed(q: seq<real>, times: seq<real>, now: real)
    requires Tail(q, times, now)
    ensures |q| <= |times| && Tail(q + [now], times + [now], now)
  {
    var n, all := |times| - |q|, times + [now];
    assert all[n..] == times[n..] + [now];
  }

  /** The failures before those that the queue stands for are outside the window, and the others inside. */
  lemma PushedParts(q: seq<real>, times: seq<real>, now: real)
    requires Tail(q, times, now) && Sorted(times, now)
    requires q == [] || q[0] > now - WINDOW_S
    ensures var n, all := |times| - |q|, times + [now];
            && (forall i | 0 <= i < n :: all[i] <= now - WINDOW_S)
            && (forall i | n <= i < |all| :: all[i] > now - WINDOW_S)
  {
    var n := |times| - |q|;
    forall i | n <= i < |times| ensures times[i] > now - WINDOW_S {
      assert times[n] == times[n..][0] == q[0];
      assert times[n] <= times[i];
    }
  }

  lemma PopOne(q: seq<real>, times: seq<real>, now: real)
    requires Tail(q, times, now) && q != [] && q[0] <= now - WINDOW_S
    ensures Tail(q[1..], times, now)
  {
  }

  /** What one more event means for each key's list and lock. */
  lemma OneMore(history: seq<Event>, e: Event, k: Key)
    ensures k != e.key ==> Since(history + [e], k) == Since(history, k) && LockedUntil(history + [e], k) == LockedUntil(history, k)
    ensures e == Clear(k) ==> Since(history + [e], k) == [] && LockedUntil(history + [e], k) == LockedUntil(history, k)
    ensures e.Fail? && e.key == k ==>
              var times := Since(history, k) + [e.at];
              if Reached(times, e.at, k)
              then Since(history + [e], k) == [] && LockedUntil(history + [e], k) == Some(e.at + LOCK_S)
              else Since(history + [e], k) == times && LockedUntil(history + [e], k) == LockedUntil(history, k)
  {
  }

  lemma FitsStill(fs: map<Key, seq<real>>, ls: map<Key, real>, failures: map<Key, seq<real>>, locks: map<Key, real>,
                  history: seq<Event>, e: Event, j: Key, now: real)
    requires Fits(fs, ls, history, j, now) && j != e.key
    requires QueueOf(failures, j) == QueueOf(fs, j)
    requires j in locks <==> j in ls
    requires j in ls ==> locks[j] == ls[j]
    ensures Fits(failures, locks, history + [e], j, now)
  {
  }

  /** Only the failing key's queue and lock have changed. */
  predicate OnlyKey(fs: map<Key, seq<real>>, ls: map<Key, real>, failures: map<Key, seq<real>>, locks: map<Key, real>, k: Key) {
    && failures - {k} == fs - {k} && locks - {k} == ls - {k}
  }

  lemma SameElsewhere<T>(a: map<Key, T>, b: map<Key, T>, k: Key, j: Key)
    requires a - {k} == b - {k} && j != k
    ensures j in a <==> j in b
    ensures j in a ==> a[j] == b[j]
  {
    assert j in a <==> j in a - {k};
    assert j in b <==> j in b - {k};
    assert j in a ==> (a - {k})[j] == a[j];
    assert j in b ==> (b - {k})[j] == b[j];
  }

  lemma StandsAfter(fs: map<Key, seq<real>>, ls: map<Key, real>, history: seq<Event>,
                    failures: map<Key, seq<real>>, locks: map<Key, real>, e: Event, now: real)
    requires Stands(fs, ls, history, now) && OnlyKey(fs, ls, failures, locks, e.key)
    requires Fits(failures, locks, history + [e], e.key, now)
    ensures Stands(failures, locks, history + [e], now)
  {
    forall j ensures Fits(failures, locks, history + [e], j, now) {
      if j != e.key {
        assert Fits(fs, ls, history, j, now);
        SameElsewhere(failures, fs, e.key, j);
        SameElsewhere(locks, ls, e.key, j);
        FitsStill(fs, ls, failures, locks, history, e, j, now);
      }
    }
  }

  /** What is stored for a key once a failure has been counted. */
  lemma CountedFits(failures: map<Key, seq<real>>, locks: map<Key, real>, history: seq<Event>, q: seq<real>, k: Key, now: real)
    requires Tail(q, Since(history, k), now) && Sorted(Since(history, k), now) && (q == [] || q[0] > now - WINDOW_S)
    requires SameLock(locks, k, LockedUntil(history, k), now)
    ensures |q + [now]| >= Limit(k) <==> Reached(Since(history, k) + [now], now, k)
    ensures var next := history + [Fail(k, now)];
            if |q + [now]| >= Limit(k) then Fits(failures - {k}, locks[k := now + LOCK_S], next, k, now)
            else Fits(failures[k := q + [now]], locks, next, k, now)
  {
    hide Since, LockedUntil;
    PushedCounts(q, Since(history, k), now);
    OneMore(history, Fail(k, now), k);
  }

  lemma TimelyMore(history: seq<Event>, e: Event)
    requires Timely(history) && (e.Fail? ==> Clock(history) <= e.at)
    ensures Timely(history + [e]) && Clock(history + [e]) == if e.Fail? then e.at else Clock(history)
  {
  }

  function KeysOf(email: Option<string>, ip: Option<string>): seq<Key> {
    (if email.Some? then [Email(email.value)] else []) + (if ip.Some? then [Ip(ip.value)] else [])
  }

  function Fails(keys: seq<Key>, now: real): seq<Event> {
    seq(|keys|, i requires 0 <= i < |keys| => Fail(keys[i], now))
  }

  lemma FailsOf(history: seq<Event>, email: Option<string>, ip: Option<string>, now: real)
    ensures var first := if email.Some? then history + [Fail(Email(email.value), now)] else history;
            history + Fails(KeysOf(email, ip), now) == if ip.Some? then first + [Fail(Ip(ip.value), now)] else first
    ensures forall k :: k in KeysOf(email, ip) <==>
              (email.Some? && k == Email(email.value)) || (ip.Some? && k == Ip(ip.value))
  {
  }

  function Longest(history: seq<Event>, keys: seq<Key>, now: real): nat {
    if keys == [] then 0
    else
      var rest, w := Longest(history, keys[..|keys| - 1], now), Wait(LockedUntil(history, keys[|keys| - 1]), now);
      if w > rest then w else rest
  }

  /** No key of the list waits longer, and one of them waits that long, if any waits at all. */
  lemma {:induction false} LongestIsLongest(history: seq<Event>, keys: seq<Key>, now: real)
    ensures forall k | k in keys :: Wait(LockedUntil(history, k), now) <= Longest(history, keys, now)
    ensures Longest(history, keys, now) == 0 || exists k :: k in keys && Wait(LockedUntil(history, k), now) == Longest(history, keys, now)
    decreases |keys|
  {
    if keys != [] {
      hide LockedUntil, Wait;
      var before, last := keys[..|keys| - 1], keys[|keys| - 1];
      LongestIsLongest(history, before, now);
      assert forall k | k in keys :: k in before || k == last;
      if Longest(history, before, now) != 0 {
        var k :| k in before && Wait(LockedUntil(history, k), now) == Longest(history, before, now);
        assert k in keys && last in keys;
      } else {
        assert last in keys;
      }
    }
  }

  /** The request's email or address is barred. */
  ghost predicate AnyBarred(history: seq<Event>, email: Option<string>, ip: Option<string>, now: real) {
    || (email.Some? && Barred(history, Email(email.value), now))
    || (ip.Some? && Barred(history, Ip(ip.value), now))
  }

  /** Whole seconds, rounded up, until neither key of the request is locked. */
  predicate IsLongestWait(wait: nat, history: seq<Event>, email: Option<string>, ip: Option<string>, now: real) {
    && (email.Some? ==> Wait(LockedUntil(history, Email(email.value)), now) <= wait)
    && (ip.Some? ==> Wait(LockedUntil(history, Ip(ip.value)), now) <= wait)
    && (|| wait == 0
        || (email.Some? && wait == Wait(LockedUntil(history, Email(email.value)), now))
        || (ip.Some? && wait == Wait(LockedUntil(history, Ip(ip.value)), now)))
  }

  lemma LongestWait(history: seq<Event>, email: Option<string>, ip: Option<string>, now: real)
    requires Timely(history)
    ensures var wait := Longest(history, KeysOf(email, ip), now);
            && IsLongestWait(wait, history, email, ip, now)
            && (wait > 0 <==> AnyBarred(history, email, ip, now))
  {
    hide LockedUntil, Wait, Longest, Timely, Barred;
    LongestIsLongest(history, KeysOf(email, ip), now);
    if email.Some? {
      WaitsExactly(history, Email(email.value), now);
      assert Email(email.value) in KeysOf(email, ip);
    }
    if ip.Some? {
      WaitsExactly(history, Ip(ip.value), now);
      assert Ip(ip.value) in KeysOf(email, ip);
    }
  }

  lemma NoWait(now: real)
    requires now >= 0.0
    ensures Wait(Some(0.0), now) == 0
  {
  }

  /** The lock that is stored for a key has the wait of its last lock. */
  lemma StoredWait(locks: map<Key, real>, k: Key, until: Option<real>, now: real)
    requires SameLock(locks, k, until, now) && now >= 0.0
    ensures Wait(Some(if k in locks then locks[k] else 0.0), now) == Wait(until, now)
  {
  }

  lemma WaitIsCeil(until: real, now: real)
    ensures Wait(Some(until), now) == if Ceil(until - now) > 0 then Ceil(until - now) else 0
  {
  }

  class Limiter {
    var failures: map<Key, seq<real>>
    var lockedUntil: map<Key, real>
    ghost var history: seq<Event>

    /** Valid at a time no earlier than the last failure. */
    ghost predicate Valid(now: real)
      reads this
    {
      Timely(history) && Clock(history) <= now && Stands(failures, lockedUntil, history, now)
    }

    constructor ()
      ensures Valid(0.0) && history == []
    {
      failures, lockedUntil, history := map[], map[], [];
    }

    /** Between two calls time passes, and what stands for the history goes on doing so. */
    lemma Later(now: real, later: real)
      requires Valid(now) && now <= later
      ensures Valid(later)
    {
      StandsLater(failures, lockedUntil, history, now, later);
    }

    /** Drops ended locks and, past the bound on keys, queues with nothing left in the window. */
    method Prune(now: real)
      requires Valid(now)
      modifies this`failures, this`lockedUntil
      ensures Valid(now)
      ensures lockedUntil.Keys == set k | k in old(lockedUntil) && old(lockedUntil)[k] > now
      ensures |old(failures)| <= MAX_KEYS ==> failures == old(failures)
    {
      PruneStands(failures, lockedUntil, history, now);
      lockedUntil := OpenLocks(lockedUntil, now);
      if |failures| > MAX_KEYS {
        failures := LiveQueues(failures, now);
      }
    }

    /** Takes the failures that are out of the window off the front of a queue. */
    method PopOld(queue: seq<real>, ghost times: seq<real>, now: real) returns (q: seq<real>)
      requires Tail(queue, times, now)
      ensures Tail(q, times, now) && (q == [] || q[0] > now - WINDOW_S)
    {
      q := queue;
      while q != [] && q[0] <= now - WINDOW_S
        invariant Tail(q, times, now)
        decreases |q|
      {
        PopOne(q, times, now);
        q := q[1..];
      }
    }

    /** Counts one failure against one key; says whether it locks. */
    method Count(k: Key, now: real) returns (locks: bool)
      requires Valid(now)
      modifies this
      ensures Valid(now) && history == old(history) + [Fail(k, now)]
      ensures locks <==> Reached(Since(old(history), k) + [now], now, k)
    {
      hide Timely, Since, LockedUntil, Reached;
      ghost var before := history;
      assert Fits(failures, lockedUntil, history, k, now);
      SinceSorted(history, k);
      var q := PopOld(QueueOf(failures, k), Since(history, k), now);
      CountedFits(failures, lockedUntil, before, q, k, now);
      TimelyMore(before, Fail(k, now));
      q := q + [now];
      locks := |q| >= Limit(k);
      if locks {
        lockedUntil := lockedUntil[k := now + LOCK_S];
        failures := failures - {k};
      } else {
        failures := failures[k := q];
      }
      history := before + [Fail(k, now)];
      StandsAfter(old(failures), old(lockedUntil), before, failures, lockedUntil, Fail(k, now), now);
    }

    /** One failed sign-in, for each of its keys; which of them lock with it. */
    method RecordFailure(email: Option<string>, ip: Option<string>, now: real) returns (newly: seq<Key>)
      requires Valid(now)
      modifies this
      ensures Valid(now) && history == old(history) + Fails(KeysOf(email, ip), now)
      ensures forall k :: k in newly <==> k in KeysOf(email, ip) && Reached(Since(old(history), k) + [now], now, k)
    {
      hide Timely, Clock, Stands, Since, LockedUntil, Reached, Fails, KeysOf;
      Prune(now);
      newly := [];
      ghost var before := history;
      if email.Some? {
        var locks := Count(Email(email.value), now);
        newly := if locks then [Email(email.value)] else [];
      }
      if ip.Some? {
        if email.Some? {
          OneMore(before, Fail(Email(email.value), now), Ip(ip.value));
        }
        var locks := Count(Ip(ip.value), now);
        newly := newly + if locks then [Ip(ip.value)] else [];
      }
      FailsOf(before, email, ip, now);
    }

    /** The wait that is left for a sign-in: no less than either of its keys' by the unbounded history, and
        none exactly when neither key locked less than 15 minutes ago. */
    method LockedSeconds(email: Option<string>, ip: Option<string>, now: real) returns (wait: nat)
      requires Valid(now) && now >= 0.0
      ensures IsLongestWait(wait, history, email, ip, now)
      ensures wait == 0 <==> !AnyBarred(history, email, ip, now)
    {
      hide Timely, Clock, LockedUntil, Since, AnyBarred, IsLongestWait, Wait;
      var keys := KeysOf(email, ip);
      var until := 0.0;
      var i := 0;
      NoWait(now);
      while i < |keys|
        invariant 0 <= i <= |keys|
        invariant Wait(Some(until), now) == Longest(history, keys[..i], now)
      {
        assert keys[..i + 1][..i] == keys[..i];
        assert Fits(failures, lockedUntil, history, keys[i], now);
        var u := if keys[i] in lockedUntil then lockedUntil[keys[i]] else 0.0;
        StoredWait(lockedUntil, keys[i], LockedUntil(history, keys[i]), now);
        WaitOfLater(until, u, now);
        if u > until {
          until := u;
        }
        i := i + 1;
      }
      assert keys[..i] == keys;
      LongestWait(history, email, ip, now);
      WaitIsCeil(until, now);
      var left := Ceil(until - now);
      wait := if left > 0 then left else 0;
    }

    /** After a sign-in that worked: the email starts from no failures, still locked if it was. */
    method ClearEmail(email: string, ghost now: real)
      requires Valid(now)
      modifies this
      ensures Valid(now) && history == old(history) + [Clear(Email(email))] && lockedUntil == old(lockedUntil)
    {
      ghost var before := history;
      assert Fits(failures, lockedUntil, before, Email(email), now);
      failures := failures - {Email(email)};
      history := before + [Clear(Email(email))];
      TimelyMore(before, Clear(Email(email)));
      OneMore(before, Clear(Email(email)), Email(email));
      StandsAfter(old(failures), lockedUntil, before, failures, lockedUntil, Clear(Email(email)), now);
    }
  }
}

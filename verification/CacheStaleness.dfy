/**
 The three caches of tenancy.py (hosts, relay hosts and the legacy tenant share one
 dictionary) with every lookup split into its own steps: the clock is read, the database
 is read, the answer is stored. Writes and invalidations come in between.
 */
module CacheStaleness {
  import opened Util

  datatype Key = HostKey(host: string) | LegacyKey | RelayKey(host: string)

  /** A tenant id, or None for a host that resolves to nothing. */
  type Answer = Option<nat>

  datatype Entry = Entry(at: nat, answer: Answer)

  /** A lookup that missed: its timestamp, and what it has read so far. */
  datatype Call = Call(key: Key, since: nat, read: Option<Answer>)

  /** The database as it was at one instant. */
  datatype Instant = Instant(at: nat, db: map<Key, nat>)

  datatype Node = Node(clock: nat, db: map<Key, nat>, cache: map<Key, Entry>, calls: map<nat, Call>, past: seq<Instant>)

  datatype Step =
    | Tick(elapsed: nat)
    | Write(db: map<Key, nat>)
    | Invalidate
    | Begin(call: nat, key: Key)
    | ReadDb(call: nat)
    | Store(call: nat)

  const TTL: nat := 30_000
  const MAX_ENTRIES: nat := 1000

  function Find(db: map<Key, nat>, k: Key): Answer {
    if k in db then Some(db[k]) else None
  }

  predicate Hit(n: Node, k: Key) {
    k in n.cache && n.clock < n.cache[k].at + TTL
  }

  predicate Enabled(n: Node, s: Step) {
    match s
    case Begin(c, _) => c !in n.calls
    case ReadDb(c) => c in n.calls && n.calls[c].read.None?
    case Store(c) => c in n.calls && n.calls[c].read.Some?
    case _ => true
  }

  function Now(clock: nat, db: map<Key, nat>, n: Node): Node {
    n.(clock := clock, db := db, past := n.past + [Instant(clock, db)])
  }

  function After(n: Node, s: Step): Node
    requires Enabled(n, s)
  {
    match s
    case Tick(elapsed) => Now(n.clock + elapsed, n.db, n)
    case Write(db) => Now(n.clock, db, n)
    case Invalidate => n.(cache := map[])
    case Begin(c, k) => if Hit(n, k) then n else n.(calls := n.calls[c := Call(k, n.clock, None)])
    case ReadDb(c) => n.(calls := n.calls[c := n.calls[c].(read := Some(Find(n.db, n.calls[c].key)))])
    case Store(c) =>
      var call := n.calls[c];
      var kept := if call.key.HostKey? && |n.cache| > MAX_ENTRIES then map[] else n.cache;
      n.(cache := kept[call.key := Entry(call.since, call.read.value)], calls := n.calls - {c})
  }

  function Start(clock: nat, db: map<Key, nat>): Node {
    Node(clock, db, map[], map[], [Instant(clock, db)])
  }

  function Run(n: Node, steps: seq<Step>): Node
    requires Possible(n, steps)
    decreases |steps|
  {
    if steps == [] then n else Run(After(n, steps[0]), steps[1..])
  }

  predicate Possible(n: Node, steps: seq<Step>)
    decreases |steps|
  {
    steps == [] || (Enabled(n, steps[0]) && Possible(After(n, steps[0]), steps[1..]))
  }

  /** At some instant from `from` on, an uncached lookup of k would have answered a. */
  ghost predicate TrueSince(n: Node, k: Key, a: Answer, from: nat) {
    exists i | 0 <= i < |n.past| :: from <= n.past[i].at && Find(n.past[i].db, k) == a
  }

  ghost predicate Inv(n: Node) {
    && n.past != [] && n.past[|n.past| - 1] == Instant(n.clock, n.db)
    && (forall i | 0 <= i < |n.past| :: n.past[i].at <= n.clock)
    && (forall k | k in n.cache :: TrueSince(n, k, n.cache[k].answer, n.cache[k].at))
    && (forall c | c in n.calls :: n.calls[c].since <= n.clock)
    && (forall c | c in n.calls && n.calls[c].read.Some? :: TrueSince(n, n.calls[c].key, n.calls[c].read.value, n.calls[c].since))
  }

  lemma TrueStays(n: Node, m: Node, k: Key, a: Answer, from: nat)
    requires TrueSince(n, k, a, from) && n.past <= m.past
    ensures TrueSince(m, k, a, from)
  {
  }

  lemma CacheStaysTrue(n: Node, s: Step, k: Key)
    requires Inv(n) && Enabled(n, s) && k in After(n, s).cache
    ensures TrueSince(After(n, s), k, After(n, s).cache[k].answer, After(n, s).cache[k].at)
  {
    var m := After(n, s);
    if k in n.cache && m.cache[k] == n.cache[k] {
      TrueStays(n, m, k, n.cache[k].answer, n.cache[k].at);
    } else {
      var call := n.calls[s.call];
      TrueStays(n, m, k, call.read.value, call.since);
    }
  }

  lemma CallsStayTrue(n: Node, s: Step, c: nat)
    requires Inv(n) && Enabled(n, s) && c in After(n, s).calls && After(n, s).calls[c].read.Some?
    ensures var call := After(n, s).calls[c]; TrueSince(After(n, s), call.key, call.read.value, call.since)
  {
    var m := After(n, s);
    if c in n.calls && m.calls[c] == n.calls[c] {
      TrueStays(n, m, n.calls[c].key, n.calls[c].read.value, n.calls[c].since);
    } else {
      assert m.past[|m.past| - 1] == Instant(n.clock, n.db);
    }
  }

  lemma PastStays(n: Node, s: Step)
    requires n.past != [] && n.past[|n.past| - 1] == Instant(n.clock, n.db) && Enabled(n, s)
    requires forall i | 0 <= i < |n.past| :: n.past[i].at <= n.clock
    ensures var m := After(n, s);
            && n.past <= m.past && n.clock <= m.clock && m.past != [] && m.past[|m.past| - 1] == Instant(m.clock, m.db)
            && (forall i | 0 <= i < |m.past| :: m.past[i].at <= m.clock)
  {
    hide Find, Hit;
  }

  lemma SinceStays(n: Node, s: Step)
    requires Enabled(n, s) && forall c | c in n.calls :: n.calls[c].since <= n.clock
    ensures forall c | c in After(n, s).calls :: After(n, s).calls[c].since <= After(n, s).clock
  {
    hide Find, Hit;
  }

  lemma InvNext(n: Node, s: Step)
    requires Inv(n) && Enabled(n, s)
    ensures Inv(After(n, s))
  {
    var m := After(n, s);
    PastStays(n, s);
    SinceStays(n, s);
    forall k | k in m.cache ensures TrueSince(m, k, m.cache[k].answer, m.cache[k].at) {
      CacheStaysTrue(n, s, k);
    }
    forall c | c in m.calls && m.calls[c].read.Some?
      ensures TrueSince(m, m.calls[c].key, m.calls[c].read.value, m.calls[c].since)
    {
      CallsStayTrue(n, s, c);
    }
  }

  lemma {:induction false} InvRun(n: Node, steps: seq<Step>)
    requires Inv(n) && Possible(n, steps)
    ensures Inv(Run(n, steps))
    decreases |steps|
  {
    if steps != [] {
      InvNext(n, steps[0]);
      InvRun(After(n, steps[0]), steps[1..]);
    }
  }

  /** Whatever ran before, an answer from the cache was true at an instant of the last 30
      seconds, and an answer from the database at an instant since the call began. */
  lemma AnswersAreRecent(clock: nat, db: map<Key, nat>, steps: seq<Step>, k: Key, c: nat)
    requires Possible(Start(clock, db), steps)
    ensures var n := Run(Start(clock, db), steps);
            && (Hit(n, k) ==> exists i | 0 <= i < |n.past| ::
                  n.past[i].at <= n.clock < n.past[i].at + TTL && Find(n.past[i].db, k) == n.cache[k].answer)
            && (Enabled(n, Store(c)) ==> TrueSince(n, n.calls[c].key, n.calls[c].read.value, n.calls[c].since))
  {
    InvRun(Start(clock, db), steps);
    var n := Run(Start(clock, db), steps);
    if Hit(n, k) {
      assert TrueSince(n, k, n.cache[k].answer, n.cache[k].at);
      var i :| 0 <= i < |n.past| && n.cache[k].at <= n.past[i].at && Find(n.past[i].db, k) == n.cache[k].answer;
      assert n.past[i].at <= n.clock < n.past[i].at + TTL;
    }
  }

  // Invalidation and lookups that are under way

  predicate ReadsAreCurrent(n: Node) {
    forall c | c in n.calls && n.calls[c].read.Some? :: n.calls[c].read.value == Find(n.db, n.calls[c].key)
  }

  /** Every cached answer is what the database says. */
  predicate Agrees(n: Node) {
    forall k | k in n.cache :: n.cache[k].answer == Find(n.db, k)
  }

  predicate NoWrite(steps: seq<Step>) {
    forall s | s in steps :: !s.Write?
  }

  /** The cache agrees with the database for as long as nothing is written. */
  ghost predicate AgreesUntilWrite(n: Node) {
    forall steps | Possible(n, steps) && NoWrite(steps) :: Agrees(Run(n, steps))
  }

  /** invalidate_cache() makes the caches agree with the database until the next write exactly
      when no lookup under way has already read something older. */
  lemma InvalidationIsExactly(n: Node)
    ensures AgreesUntilWrite(After(n, Invalidate)) <==> ReadsAreCurrent(n)
  {
    var m := After(n, Invalidate);
    if ReadsAreCurrent(n) {
      forall steps | Possible(m, steps) && NoWrite(steps) ensures Agrees(Run(m, steps)) {
        CoherentRun(m, steps);
      }
    } else {
      var c :| c in n.calls && n.calls[c].read.Some? && n.calls[c].read.value != Find(n.db, n.calls[c].key);
      StaleStore(m, c);
    }
  }

  /** A stale read is stored in one step. */
  lemma StaleStore(n: Node, c: nat)
    requires c in n.calls && n.calls[c].read.Some? && n.calls[c].read.value != Find(n.db, n.calls[c].key)
    ensures !AgreesUntilWrite(n)
  {
    var m := After(n, Store(c));
    var k := n.calls[c].key;
    assert k in m.cache && m.cache[k].answer != Find(m.db, k);
    assert [Store(c)][1..] == [];
    assert Possible(m, []) && Run(m, []) == m;
    assert Possible(n, [Store(c)]) && Run(n, [Store(c)]) == m && NoWrite([Store(c)]);
  }

  predicate Coherent(n: Node) {
    ReadsAreCurrent(n) && Agrees(n)
  }

  lemma CoherentNext(n: Node, s: Step)
    requires Coherent(n) && Enabled(n, s) && !s.Write?
    ensures Coherent(After(n, s))
  {
  }

  lemma {:induction false} CoherentRun(n: Node, steps: seq<Step>)
    requires Coherent(n) && Possible(n, steps) && NoWrite(steps)
    ensures Coherent(Run(n, steps))
    decreases |steps|
  {
    hide After, Coherent;
    if steps != [] {
      assert forall s | s in steps[1..] :: s in steps;
      assert steps[0] in steps;
      CoherentNext(n, steps[0]);
      CoherentRun(After(n, steps[0]), steps[1..]);
    }
  }

  /** Otherwise it does not: a lookup that read before the write stores its old answer after
      the invalidation, and the next request gets it. */
  lemma InvalidationCanBeUndone(clock: nat, host: string, t: nat)
    ensures var k := HostKey(host);
            var steps := [Begin(0, k), ReadDb(0), Write(map[]), Invalidate, Store(0)];
            && Possible(Start(clock, map[k := t]), steps)
            && var n := Run(Start(clock, map[k := t]), steps);
               Hit(n, k) && n.cache[k].answer == Some(t) && Find(n.db, k) == None
  {
    var k := HostKey(host);
    var n0 := Start(clock, map[k := t]);
    var n1 := After(n0, Begin(0, k));
    var n2 := After(n1, ReadDb(0));
    var n3 := After(n2, Write(map[]));
    var n4 := After(n3, Invalidate);
    var steps := [Begin(0, k), ReadDb(0), Write(map[]), Invalidate, Store(0)];
    assert n1.calls == map[0 := Call(k, clock, None)];
    assert n2.calls == map[0 := Call(k, clock, Some(Some(t)))];
    var n5 := After(n4, Store(0));
    assert steps[1..] == [ReadDb(0), Write(map[]), Invalidate, Store(0)];
    assert steps[1..][1..] == [Write(map[]), Invalidate, Store(0)];
    assert steps[1..][1..][1..] == [Invalidate, Store(0)];
    assert steps[1..][1..][1..][1..] == [Store(0)];
    assert steps[1..][1..][1..][1..][1..] == [];
    assert Possible(n5, []) && Run(n5, []) == n5;
    assert Possible(n4, [Store(0)]) && Run(n4, [Store(0)]) == n5;
    assert Possible(n3, [Invalidate, Store(0)]) && Run(n3, [Invalidate, Store(0)]) == n5;
    assert Possible(n2, [Write(map[]), Invalidate, Store(0)]) && Run(n2, [Write(map[]), Invalidate, Store(0)]) == n5;
    assert Possible(n1, steps[1..]) && Run(n1, steps[1..]) == n5;
    assert Possible(n0, steps) && Run(n0, steps) == n5;
  }
}

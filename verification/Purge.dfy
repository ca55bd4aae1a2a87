/**
 The purge of a cancelled tenant: its steps, where they can get stuck, and running it again.
 */
module Purging {
  import opened Util
  import opened Domains
  import opened Provisioning

  datatype PurgeStep = TakeDown | PurgeData | Unhost(host: string) | RemoveFiles | DropRows | MarkPurged

  function PurgeApply(b: Box, step: PurgeStep, id: nat): Box {
    match step
    case TakeDown => if id in b.compose then b.(stacks := b.stacks - {id}) else b
    case PurgeData => b.(compose := b.compose - {id})
    case Unhost(h) => b.(vhosts := b.vhosts - {h}, certs := b.certs - {h})
    case RemoveFiles => if id in b.compose then b else b.(dirs := b.dirs - {id})
    case DropRows => b.(domains := DomainsWithout(b.domains, id), relays := b.relays - {id}, owned := b.owned - {id})
    case MarkPurged => if id in b.tenants then b.(tenants := b.tenants[id := b.tenants[id].(status := Purged)]) else b
  }

  /** A step that raises, the helper's commands succeeding otherwise: the helper does not know the
      stack, or the database refuses to delete users that a handoff refers to. */
  predicate Blocked(b: Box, step: PurgeStep, id: nat) {
    match step
    case TakeDown => id in b.compose && !CanTakeDown(b, id)
    case DropRows => id in b.handoffs
    case _ => false
  }

  /** `purge_now` runs its steps until one raises. */
  function PurgeRun(b: Box, steps: seq<PurgeStep>, id: nat): Box
    decreases |steps|
  {
    if steps == [] || Blocked(b, steps[0], id) then b else PurgeRun(PurgeApply(b, steps[0], id), steps[1..], id)
  }

  function PurgeApplyAll(b: Box, steps: seq<PurgeStep>, id: nat): Box
    decreases |steps|
  {
    if steps == [] then b else PurgeApplyAll(PurgeApply(b, steps[0], id), steps[1..], id)
  }

  function Unhosts(hosts: seq<string>): seq<PurgeStep> {
    seq(|hosts|, i requires 0 <= i < |hosts| => Unhost(hosts[i]))
  }

  /** The steps of `purge_now`, for the tenant's hosts as its query lists them. */
  function PurgePlan(hosts: seq<string>): seq<PurgeStep> {
    [TakeDown, PurgeData] + Unhosts(hosts) + [RemoveFiles, DropRows, MarkPurged]
  }

  ghost predicate Lists(b: Box, id: nat, hosts: seq<string>) {
    forall h :: h in hosts <==> h in HostsOf(b, id)
  }

  /** The helper only runs a stack whose compose file it wrote. */
  predicate StackHasCompose(b: Box, id: nat) {
    id in b.stacks ==> id in b.compose
  }

  /** The hosts taken off the box by the first k steps. */
  function Off(hosts: seq<string>, k: nat): set<string> {
    var m := if k < 2 then 0 else if k - 2 < |hosts| then k - 2 else |hosts|;
    set h | h in hosts[..m]
  }

  /** What the first k steps of a purge come to. */
  function PurgedUpTo(b: Box, hosts: seq<string>, id: nat, k: nat): Box {
    var n := |hosts|;
    var off := Off(hosts, k);
    b.(stacks := if k >= 1 then b.stacks - {id} else b.stacks,
       compose := if k >= 2 then b.compose - {id} else b.compose,
       vhosts := b.vhosts - off, certs := b.certs - off,
       dirs := if k >= n + 3 then b.dirs - {id} else b.dirs,
       domains := if k >= n + 4 then DomainsWithout(b.domains, id) else b.domains,
       relays := if k >= n + 4 then b.relays - {id} else b.relays,
       owned := if k >= n + 4 then b.owned - {id} else b.owned,
       tenants := if k >= n + 5 && id in b.tenants then b.tenants[id := b.tenants[id].(status := Purged)] else b.tenants)
  }

  lemma PurgeApplySplits(b: Box, a: seq<PurgeStep>, e: PurgeStep, id: nat)
    ensures PurgeApplyAll(b, a + [e], id) == PurgeApply(PurgeApplyAll(b, a, id), e, id)
    decreases |a|
  {
    if a == [] {
      assert a + [e] == [e];
      assert [e][1..] == [];
    } else {
      assert (a + [e])[1..] == a[1..] + [e];
      PurgeApplySplits(PurgeApply(b, a[0], id), a[1..], e, id);
    }
  }

  lemma OffGrows(hosts: seq<string>, k: nat)
    requires 0 < k
    ensures Off(hosts, k) == if 3 <= k <= |hosts| + 2 then Off(hosts, k - 1) + {hosts[k - 3]} else Off(hosts, k - 1)
  {
  }

  lemma PurgeStepWorks(b: Box, hosts: seq<string>, id: nat, k: nat)
    requires StackHasCompose(b, id) && 0 < k <= |hosts| + 5
    ensures PurgeApply(PurgedUpTo(b, hosts, id, k - 1), PurgePlan(hosts)[k - 1], id) == PurgedUpTo(b, hosts, id, k)
  {
    var n := |hosts|;
    var e := PurgePlan(hosts)[k - 1];
    OffGrows(hosts, k);
    if k == 1 {
      assert e == TakeDown;
      assert id !in b.compose ==> b.stacks - {id} == b.stacks;
    } else if k == 2 {
      assert e == PurgeData;
    } else if k <= n + 2 {
      assert e == Unhost(hosts[k - 3]);
      var less := Off(hosts, k - 1);
      assert b.vhosts - (less + {hosts[k - 3]}) == (b.vhosts - less) - {hosts[k - 3]};
      assert b.certs - (less + {hosts[k - 3]}) == (b.certs - less) - {hosts[k - 3]};
    } else {
      assert e == if k == n + 3 then RemoveFiles else if k == n + 4 then DropRows else MarkPurged;
    }
  }

  lemma {:induction false} PurgePrefix(b: Box, hosts: seq<string>, id: nat, k: nat)
    requires StackHasCompose(b, id) && k <= |hosts| + 5
    ensures PurgeApplyAll(b, PurgePlan(hosts)[..k], id) == PurgedUpTo(b, hosts, id, k)
    decreases k
  {
    var plan := PurgePlan(hosts);
    if k == 0 {
      assert Off(hosts, 0) == {};
      assert b.vhosts - {} == b.vhosts && b.certs - {} == b.certs;
    } else {
      PurgePrefix(b, hosts, id, k - 1);
      assert plan[..k] == plan[..k - 1] + [plan[k - 1]];
      PurgeApplySplits(b, plan[..k - 1], plan[k - 1], id);
      PurgeStepWorks(b, hosts, id, k);
    }
  }

  /** How many of its steps a purge gets through. */
  function Reach(b: Box, hosts: seq<string>, id: nat): nat {
    if id in b.compose && !CanTakeDown(b, id) then 0
    else if id in b.handoffs then |hosts| + 3
    else |hosts| + 5
  }

  lemma RunSplits(b: Box, a: seq<PurgeStep>, rest: seq<PurgeStep>, id: nat)
    requires forall i | 0 <= i < |a| :: !Blocked(PurgeApplyAll(b, a[..i], id), a[i], id)
    ensures PurgeRun(b, a + rest, id) == PurgeRun(PurgeApplyAll(b, a, id), rest, id)
    decreases |a|
  {
    if a == [] {
      assert a + rest == rest;
    } else {
      assert (a + rest)[1..] == a[1..] + rest && a[..0] == [];
      assert !Blocked(PurgeApplyAll(b, a[..0], id), a[0], id);
      var c := PurgeApply(b, a[0], id);
      forall i | 0 <= i < |a[1..]| ensures !Blocked(PurgeApplyAll(c, a[1..][..i], id), a[1..][i], id) {
        assert a[..i + 1][1..] == a[1..][..i] && a[..i + 1][0] == a[0];
        assert !Blocked(PurgeApplyAll(b, a[..i + 1], id), a[i + 1], id);
      }
      RunSplits(c, a[1..], rest, id);
    }
  }

  lemma NotBlocked(b: Box, hosts: seq<string>, id: nat, i: nat)
    requires StackHasCompose(b, id) && i < Reach(b, hosts, id)
    ensures !Blocked(PurgeApplyAll(b, PurgePlan(hosts)[..i], id), PurgePlan(hosts)[i], id)
  {
    PurgePrefix(b, hosts, id, i);
    hide PurgedUpTo;
    PlanAt(hosts, i);
    SameHandoffs(b, hosts, id, i);
  }

  lemma SameHandoffs(b: Box, hosts: seq<string>, id: nat, k: nat)
    ensures PurgedUpTo(b, hosts, id, k).handoffs == b.handoffs
    ensures Off(hosts, 0) == {} && PurgedUpTo(b, hosts, id, 0) == b
  {
    assert Off(hosts, 0) == {};
    assert b.vhosts - {} == b.vhosts && b.certs - {} == b.certs;
  }

  lemma PlanAt(hosts: seq<string>, i: nat)
    requires i < |hosts| + 5
    ensures |PurgePlan(hosts)| == |hosts| + 5
    ensures PurgePlan(hosts)[i] == TakeDown <==> i == 0
    ensures PurgePlan(hosts)[i] == DropRows <==> i == |hosts| + 3
  {
  }

  /** A purge stopped before step k, or by a step that raises. */
  lemma RunReaches(b: Box, hosts: seq<string>, id: nat, k: nat)
    requires StackHasCompose(b, id) && k <= |hosts| + 5
    ensures var n := Reach(b, hosts, id);
            PurgeRun(b, PurgePlan(hosts)[..k], id) == PurgedUpTo(b, hosts, id, if k < n then k else n)
  {
    var plan, n := PurgePlan(hosts), if k < Reach(b, hosts, id) then k else Reach(b, hosts, id);
    forall i | 0 <= i < |plan[..n]| ensures !Blocked(PurgeApplyAll(b, plan[..n][..i], id), plan[..n][i], id) {
      assert plan[..n][..i] == plan[..i];
      NotBlocked(b, hosts, id, i);
    }
    assert plan[..k] == plan[..n] + plan[n..k];
    RunSplits(b, plan[..n], plan[n..k], id);
    PurgePrefix(b, hosts, id, n);
    SameHandoffs(b, hosts, id, n);
    if n < k {
      PlanAt(hosts, n);
      assert plan[n..k][0] == plan[n];
      hide PurgedUpTo;
    }
  }

  /** A purge that is not stopped gets the tenant purged, all its rows gone, exactly when the helper
      knows its stack, if there is one, and no handoff refers to one of its users. */
  lemma PurgeCompletes(b: Box, hosts: seq<string>, id: nat)
    requires StackHasCompose(b, id) && id in b.tenants && b.tenants[id].status == Cancelled
    ensures var end := PurgeRun(b, PurgePlan(hosts), id);
            && id in end.tenants
            && (end.tenants[id].status == Purged <==> (id in b.compose ==> CanTakeDown(b, id)) && id !in b.handoffs)
            && (end.tenants[id].status == Purged ==> end == PurgedUpTo(b, hosts, id, |hosts| + 5))
            && (end.tenants[id].status != Purged ==> end.tenants == b.tenants && end.owned == b.owned && end.domains == b.domains)
  {
    assert PurgePlan(hosts)[..|hosts| + 5] == PurgePlan(hosts);
    RunReaches(b, hosts, id, |hosts| + 5);
  }

  /** What a purge that reaches the end leaves: the tenant's row, purged, with its slug, and its port block.
      Its hosts, with their vhosts and certificates, its relay, files and own rows are gone; nothing of
      another tenant is touched. */
  lemma PurgedIsEmpty(b: Box, hosts: seq<string>, id: nat, other: nat)
    requires StackHasCompose(b, id) && id in b.tenants && Lists(b, id, hosts) && other != id
    requires var end := PurgeRun(b, PurgePlan(hosts), id); id in end.tenants && end.tenants[id].status == Purged
    requires b.tenants[id].status == Cancelled
    ensures var end := PurgeRun(b, PurgePlan(hosts), id);
            && end.tenants == b.tenants[id := TenantRow(b.tenants[id].slug, Purged)] && end.blocks == b.blocks
            && HostsOf(end, id) == {} && id !in end.relays && id !in end.owned
            && id !in end.stacks && id !in end.compose && id !in end.dirs
            && (forall h | h in HostsOf(b, id) :: h !in end.vhosts && h !in end.certs)
            && (forall h | h !in HostsOf(b, id) :: (h in end.vhosts <==> h in b.vhosts) && (h in end.certs <==> h in b.certs))
            && HostsOf(end, other) == HostsOf(b, other)
            && (other in end.relays <==> other in b.relays) && (other in end.stacks <==> other in b.stacks)
            && (other in end.compose <==> other in b.compose) && (other in end.dirs <==> other in b.dirs)
            && (other in end.owned <==> other in b.owned) && (other in b.owned ==> end.owned[other] == b.owned[other])
            && end.customers == b.customers && end.subscriptions == b.subscriptions && end.signups == b.signups
  {
    PurgeCompletes(b, hosts, id);
    hide PurgeRun;
    var end := PurgedUpTo(b, hosts, id, |hosts| + 5);
    assert hosts[..|hosts|] == hosts;
    assert Off(hosts, |hosts| + 5) == HostsOf(b, id);
    assert end.domains == DomainsWithout(b.domains, id);
  }

  /** A purge stopped before any step, or by a step that raises, and run again from the start, with
      the hosts its query now lists in any order, ends exactly as one that was not stopped. */
  lemma PurgeResumes(b: Box, hosts: seq<string>, again: seq<string>, id: nat, k: nat)
    requires StackHasCompose(b, id) && Lists(b, id, hosts) && k <= |hosts| + 5
    requires Lists(PurgeRun(b, PurgePlan(hosts)[..k], id), id, again)
    ensures PurgeRun(PurgeRun(b, PurgePlan(hosts)[..k], id), PurgePlan(again), id) == PurgeRun(b, PurgePlan(hosts), id)
  {
    var n := Reach(b, hosts, id);
    var m := if k < n then k else n;
    var w := PurgedUpTo(b, hosts, id, m);
    RunReaches(b, hosts, id, k);
    RunReaches(b, hosts, id, |hosts| + 5);
    RunReaches(w, again, id, |again| + 5);
    assert PurgePlan(hosts)[..|hosts| + 5] == PurgePlan(hosts);
    assert PurgePlan(again)[..|again| + 5] == PurgePlan(again);
    ReachAgain(b, hosts, again, id, m);
    if n > 0 {
      SameEnd(b, hosts, again, id, m, |hosts| + 5 - n);
    }
  }

  lemma ReachAgain(b: Box, hosts: seq<string>, again: seq<string>, id: nat, m: nat)
    requires m <= Reach(b, hosts, id)
    ensures var w := PurgedUpTo(b, hosts, id, m);
            Reach(w, again, id) == if Reach(b, hosts, id) == 0 then 0 else |again| + Reach(b, hosts, id) - |hosts|
    ensures m == 0 ==> PurgedUpTo(b, hosts, id, m) == b
    ensures PurgedUpTo(PurgedUpTo(b, hosts, id, m), again, id, 0) == PurgedUpTo(b, hosts, id, m)
  {
    SameHandoffs(b, hosts, id, m);
    SameHandoffs(PurgedUpTo(b, hosts, id, m), again, id, 0);
  }

  lemma SameHosts(b: Box, hosts: seq<string>, again: seq<string>, id: nat, k: nat, short: nat)
    requires Lists(b, id, hosts) && short <= 2 && k <= |hosts| + 5 - short && Lists(PurgedUpTo(b, hosts, id, k), id, again)
    ensures Off(hosts, k) + Off(again, |again| + 5 - short) == Off(hosts, |hosts| + 5 - short)
  {
    var w := PurgedUpTo(b, hosts, id, k);
    assert hosts[..|hosts|] == hosts && again[..|again|] == again;
    assert Off(hosts, |hosts| + 5 - short) == HostsOf(b, id);
    assert Off(again, |again| + 5 - short) == HostsOf(w, id);
    if k >= |hosts| + 4 {
      assert HostsOf(w, id) == {};
    } else {
      assert HostsOf(w, id) == HostsOf(b, id);
    }
  }

  /** Also when both runs end `short` steps before the last. */
  lemma SameEnd(b: Box, hosts: seq<string>, again: seq<string>, id: nat, k: nat, short: nat)
    requires Lists(b, id, hosts) && (short == 0 || short == 2) && k <= |hosts| + 5 - short
    requires Lists(PurgedUpTo(b, hosts, id, k), id, again)
    ensures PurgedUpTo(PurgedUpTo(b, hosts, id, k), again, id, |again| + 5 - short) == PurgedUpTo(b, hosts, id, |hosts| + 5 - short)
  {
    SameHosts(b, hosts, again, id, k, short);
    var w := PurgedUpTo(b, hosts, id, k);
    var end, whole := PurgedUpTo(w, again, id, |again| + 5 - short), PurgedUpTo(b, hosts, id, |hosts| + 5 - short);
    assert end.stacks == whole.stacks && end.compose == whole.compose && end.dirs == whole.dirs;
    assert end.vhosts == whole.vhosts && end.certs == whole.certs;
    assert end.domains == whole.domains && end.relays == whole.relays && end.owned == whole.owned;
    assert end.tenants == whole.tenants;
  }
}

/**
 The creation job, its undo and the purge as they change the records in place.
 */
module Provisioners {
  import opened Util
  import opened Domains
  import opened Provisioning
  import opened Purging

  class Provisioner {
    var box: Box

    constructor (box: Box)
      ensures this.box == box
    {
      this.box := box;
    }

    /** The web host's part. */
    method UndoHost(id: nat, host: string, helper: Helper) returns (failed: bool)
      modifies this
      ensures var b := old(box);
              var gone := if HostsOf(b, id) != {} && helper.unpublish then {host} else {};
              box == b.(vhosts := b.vhosts - gone, certs := b.certs - gone, domains := DomainsWithout(b.domains, id))
      ensures failed <==> HostsOf(old(box), id) != {} && !helper.unpublish
    {
      failed := false;
      NoHostsNoDomains(box, id);
      assert box.vhosts - {} == box.vhosts && box.certs - {} == box.certs;
      if HostsOf(box, id) != {} {
        if helper.unpublish {
          box := box.(vhosts := box.vhosts - {host}, certs := box.certs - {host});
        } else {
          failed := true;
        }
        box := box.(domains := DomainsWithout(box.domains, id));
      }
    }

    /** The relay's part, and the tenant's directory. */
    method UndoRelay(id: nat, helper: Helper) returns (failed: nat)
      modifies this
      ensures var b := old(box);
              var relayed := id in b.dirs || id in b.relays;
              var left := if (relayed && helper.purgeData) || helper.clears then b.compose - {id} else b.compose;
              box == b.(stacks := if relayed && helper.down && CanTakeDown(b, id) then b.stacks - {id} else b.stacks,
                        compose := left, relays := b.relays - {id}, dirs := if id in left then b.dirs else b.dirs - {id})
      ensures helper.down && helper.purgeData && (id in old(box).compose ==> CanTakeDown(old(box), id)) ==> failed == 0
    {
      failed := 0;
      if id in box.dirs || id in box.relays {
        if id in box.compose {
          if helper.down && CanTakeDown(box, id) {
            box := box.(stacks := box.stacks - {id});
          } else {
            failed := failed + 1;
          }
        }
        if helper.purgeData {
          box := box.(compose := box.compose - {id});
        } else {
          failed := failed + 1;
        }
        box := box.(relays := box.relays - {id});
      }
      assert box.relays == old(box).relays - {id};
      if helper.clears {
        box := box.(compose := box.compose - {id});
      }
      if id !in box.compose {
        box := box.(dirs := box.dirs - {id});
      }
    }

    /** `undo_creation`. Reports the commands that failed, and whether the database refused one of
        its two transactions. */
    method UndoCreation(id: nat, host: string, helper: Helper) returns (problems: nat, refused: bool)
      modifies this
      ensures box == Undone(old(box), id, host, helper)
      ensures refused <==> id != LEGACY && (Referenced(old(box), id) || id in old(box).handoffs)
      ensures helper == ALL_WELL && (id in old(box).compose ==> CanTakeDown(old(box), id)) ==> problems == 0
      ensures id != LEGACY && HostsOf(old(box), id) != {} && !helper.unpublish ==> 0 < problems
    {
      problems, refused := 0, false;
      if id == LEGACY {
        return;
      }
      var unhosted := UndoHost(id, host, helper);
      var unrelayed := UndoRelay(id, helper);
      problems := unrelayed + if unhosted then 1 else 0;
      assert box == Dismantled(old(box), id, host, helper);
      hide HostsOf, DomainsWithout, BlocksMarked, Dismantled;
      if id in box.handoffs {
        refused := true;
        return;
      }
      box := box.(blocks := BlocksMarked(box.blocks, id), owned := box.owned - {id});
      refused := Referenced(box, id);
      if !refused {
        box := box.(customers := box.customers - {id}, subscriptions := box.subscriptions - {id}, tenants := box.tenants - {id});
      }
    }

    /** `create_tenant`: its effects in order. With `stop`, a failure or a restart comes after that
        many of them (all of them included), and what was done is undone, if there is a tenant id
        yet. The sign-up is then marked as failed, unless the database refused the undo. */
    method CreateTenant(slug: string, host: string, signup: Option<nat>, stop: Option<nat>, helper: Helper)
      returns (created: bool, refused: bool)
      requires Ready(box, slug, host, signup) && (stop.Some? ==> stop.value <= |Plan(signup)|)
      modifies this
      ensures created <==> stop.None?
      ensures created ==> box == Built(old(box), |Plan(signup)|, signup, slug, host)
      ensures refused <==> signup.Some? && stop == Some(|Plan(signup)|)
      ensures refused ==>
                box == Undone(Built(old(box), |Plan(signup)|, signup, slug, host), old(box).nextTenant, host, helper)
                && !SlugFree(box, slug, signup)
      ensures !created && !refused ==>
                SlugFree(box, slug, signup) && (box == Remains(old(box), stop.value) <==> HelperSuffices(helper, stop.value))
    {
      var id := box.nextTenant;
      var plan := Plan(signup);
      ghost var b := box;
      var end := if stop.Some? then stop.value else |plan|;
      var i := 0;
      while i < end
        invariant i <= end && box == ApplyAll(b, plan[..i], id, slug, host)
      {
        box := Apply(box, plan[i], id, slug, host);
        assert plan[..i + 1] == plan[..i] + [plan[i]];
        ApplySplits(b, plan[..i], plan[i], id, slug, host);
        i := i + 1;
      }
      PrefixBuilds(b, i, signup, slug, host);
      created, refused := stop.None?, false;
      if !created {
        if i > 0 {
          var problems;
          problems, refused := UndoCreation(id, host, helper);
        }
        if i < 14 {
          UndoOfNothing(b, slug, host, signup, helper);
          NotReferenced(b, i, signup, slug, host);
          CreationUndone(b, i, signup, slug, host, helper);
        } else {
          assert plan[..|plan|] == plan;
          LinkedSignupSticks(b, signup.value, slug, host, helper);
        }
        if !refused {
          box := SignupFailed(box, signup);
        }
      }
    }

    /** `purge_now`: refused for tenant #1, while a Stripe subscription is `live`, and unless the
        tenant is cancelled or purged. Stopped before step `stop`, or by a step that raises, it may
        be run again. */
    method PurgeNow(id: nat, hosts: seq<string>, live: bool, stop: nat) returns (allowed: bool, done: bool)
      requires Lists(box, id, hosts)
      modifies this
      ensures allowed <==> id != LEGACY && !live && MayBePurged(old(box), id)
      ensures !allowed ==> box == old(box) && !done
      ensures allowed ==>
                && box == PurgeRun(old(box), if stop < |hosts| + 5 then PurgePlan(hosts)[..stop] else PurgePlan(hosts), id)
                && (done ==> stop >= |hosts| + 5) && MayBePurged(box, id)
      ensures done ==> box.tenants[id].status == TenantStatus.Purged
    {
      if id == LEGACY || live || id !in box.tenants || box.tenants[id].status !in {Cancelled, TenantStatus.Purged} {
        return false, false;
      }
      hide PurgeApply, HostsOf, Lists, Blocked, PurgePlan;
      ghost var b := box;
      var plan := PurgePlan(hosts);
      var steps := if stop < |plan| then plan[..stop] else plan;
      PlanEnds(hosts);
      allowed, done := true, false;
      var i := 0;
      while i < |steps| && !Blocked(box, steps[i], id)
        invariant i <= |steps| && MayBePurged(box, id)
        invariant PurgeRun(b, steps, id) == PurgeRun(box, steps[i..], id)
        invariant i == |plan| ==> box.tenants[id].status == TenantStatus.Purged
      {
        assert steps[i..][0] == steps[i] && steps[i..][1..] == steps[i + 1..];
        StillPurgeable(box, steps[i], id);
        box := PurgeApply(box, steps[i], id);
        i := i + 1;
      }
      assert i < |steps| ==> steps[i..][0] == steps[i];
      done := i == |plan|;
    }
  }

  predicate MayBePurged(b: Box, id: nat) {
    id in b.tenants && (b.tenants[id].status == Cancelled || b.tenants[id].status == TenantStatus.Purged)
  }

  lemma PlanEnds(hosts: seq<string>)
    ensures |PurgePlan(hosts)| == |hosts| + 5 && PurgePlan(hosts)[|hosts| + 4] == MarkPurged
  {
  }

  lemma StillPurgeable(b: Box, step: PurgeStep, id: nat)
    requires MayBePurged(b, id)
    ensures MayBePurged(PurgeApply(b, step, id), id)
    ensures step == MarkPurged ==> PurgeApply(b, step, id).tenants[id].status == TenantStatus.Purged
  {
  }

  lemma NoHostsNoDomains(b: Box, id: nat)
    ensures HostsOf(b, id) == {} ==> DomainsWithout(b.domains, id) == b.domains
  {
    if HostsOf(b, id) == {} {
      assert forall h | h in b.domains :: b.domains[h] == id ==> h in HostsOf(b, id);
    }
  }

  /** A job stopped before its first effect has no tenant id yet, and nothing to undo. */
  lemma UndoOfNothing(b: Box, slug: string, host: string, signup: Option<nat>, helper: Helper)
    requires Ready(b, slug, host, signup)
    ensures Undone(Built(b, 0, signup, slug, host), b.nextTenant, host, helper) == Built(b, 0, signup, slug, host)
  {
    UndoneFields(b, 0, signup, slug, host, helper);
  }
}

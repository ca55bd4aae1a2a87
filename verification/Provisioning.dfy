/**
 Making and unmaking a tenant: the creation job as a sequence of committed effects that may
 stop anywhere, the undo that follows, and the purge. The records are the database tables
 and what the root helper keeps on the box.
 */
module Provisioning {
  import opened Util
  import opened Domains

  const LEGACY: nat := 1

  datatype TenantRow = TenantRow(slug: string, status: TenantStatus)

  /** A port block handed out, and whether its tenant's creation failed. */
  datatype PortBlock = PortBlock(tenant: nat, unused: bool)

  /** A signups row: the slug asked for, tenant_id, and whether its status keeps the slug for it. */
  datatype Signup = Signup(slug: string, tenant: Option<nat>, holds: bool)

  /** What a creation adds to the tenant-owned tables. */
  datatype OwnedRow = Roles | Invite | Admin

  datatype Box = Box(
    tenants: map<nat, TenantRow>, nextTenant: nat,
    domains: map<string, nat>,          // tenant_domains: hostname -> tenant
    relays: set<nat>,                   // relays rows
    blocks: seq<PortBlock>,             // relay_port_blocks
    owned: map<nat, seq<OwnedRow>>,     // rows of the tenant-owned tables
    customers: set<nat>, subscriptions: set<nat>,
    signups: map<nat, Signup>,
    handoffs: set<nat>,                 // tenants with login_handoffs rows, which refer to their users
    dirs: set<nat>,                     // the tenant's files directory
    compose: set<nat>,                  // root-owned compose file, keys and hbbs data
    stacks: set<nat>,                   // relay containers
    vhosts: set<string>, certs: set<string>)

  // Creation

  datatype Effect =
    | InsertTenant
    | AllocateBlock
    | MakeRelayDir
    | InsertRelay
    | WriteCompose
    | StartStack
    | MarkRelayActive
    | InsertDomain
    | IssueCert
    | WriteVhost
    | BuildGuides
    | AddInvite
    | AddAdmin
    | LinkBilling
    | LinkSignup(signup: nat)

  /** The order of create_tenant's effects, for a console job and for a sign-up. */
  function Plan(signup: Option<nat>): seq<Effect> {
    [InsertTenant, AllocateBlock, MakeRelayDir, InsertRelay, WriteCompose, StartStack, MarkRelayActive,
     InsertDomain, IssueCert, WriteVhost, BuildGuides]
    + (if signup.Some? then [AddAdmin, LinkBilling, LinkSignup(signup.value)] else [AddInvite])
  }

  function Owned(b: Box, id: nat): seq<OwnedRow> {
    if id in b.owned then b.owned[id] else []
  }

  /** creation_finished on the sign-up's row. */
  function Linked(row: Signup, id: nat): Signup {
    row.(tenant := Some(id), holds := false)
  }

  /** creation_failed: no tenant any more, but the slug stays reserved for another try. */
  function SignupFailed(b: Box, signup: Option<nat>): Box {
    if signup.Some? && signup.value in b.signups
    then b.(signups := b.signups[signup.value := b.signups[signup.value].(tenant := None, holds := true)])
    else b
  }

  /** One effect of creating tenant `id` with this slug on this host. */
  function Apply(b: Box, e: Effect, id: nat, slug: string, host: string): Box {
    match e
    case InsertTenant =>
      b.(tenants := b.tenants[id := TenantRow(slug, InTrial)], nextTenant := id + 1, owned := b.owned[id := Owned(b, id) + [Roles]])
    case AllocateBlock => b.(blocks := b.blocks + [PortBlock(id, false)])
    case MakeRelayDir => b.(dirs := b.dirs + {id})
    case InsertRelay => b.(relays := b.relays + {id})
    case WriteCompose => b.(compose := b.compose + {id})
    case StartStack => b.(stacks := b.stacks + {id})
    case MarkRelayActive => b
    case InsertDomain => b.(domains := b.domains[host := id])
    case IssueCert => b.(certs := b.certs + {host})
    case WriteVhost => b.(vhosts := b.vhosts + {host})
    case BuildGuides => b.(dirs := b.dirs + {id})
    case AddInvite => b.(owned := b.owned[id := Owned(b, id) + [Invite]])
    case AddAdmin => b.(owned := b.owned[id := Owned(b, id) + [Admin]])
    case LinkBilling => b.(customers := b.customers + {id}, subscriptions := b.subscriptions + {id})
    case LinkSignup(su) => if su in b.signups then b.(signups := b.signups[su := Linked(b.signups[su], id)]) else b
  }

  function ApplyAll(b: Box, effects: seq<Effect>, id: nat, slug: string, host: string): Box
    decreases |effects|
  {
    if effects == [] then b else ApplyAll(Apply(b, effects[0], id, slug, host), effects[1..], id, slug, host)
  }

  // Undo

  /** Which of the root helper's commands succeed during an undo, and whether the dashboard can
      itself delete what root left in a directory (`clears`; the directory is its own). */
  datatype Helper = Helper(unpublish: bool, down: bool, purgeData: bool, clears: bool)

  const ALL_WELL := Helper(true, true, true, true)

  function HostsOf(b: Box, id: nat): set<string> {
    set h | h in b.domains && b.domains[h] == id
  }

  function DomainsWithout(domains: map<string, nat>, id: nat): map<string, nat> {
    map h | h in domains && domains[h] != id :: domains[h]
  }

  function BlocksMarked(blocks: seq<PortBlock>, id: nat): seq<PortBlock> {
    seq(|blocks|, i requires 0 <= i < |blocks| => if blocks[i].tenant == id then blocks[i].(unused := true) else blocks[i])
  }

  predicate Referenced(b: Box, id: nat) {
    exists su | su in b.signups :: b.signups[su].tenant == Some(id)
  }

  /** The helper runs a tenant's stack only from the compose file and the rows in the database. */
  predicate CanTakeDown(b: Box, id: nat) {
    id in b.compose && id in b.relays && id in b.tenants && b.tenants[id].status != Purged
  }

  /** The first part of `undo_creation`, committed as it goes: the vhost goes only while a domain row
      names the tenant, the stack only while the helper can take it down; the rows go in any case. */
  function Dismantled(b: Box, id: nat, host: string, helper: Helper): Box {
    var hosted := HostsOf(b, id) != {};
    var relayed := id in b.dirs || id in b.relays;
    var gone := if hosted && helper.unpublish then {host} else {};
    var left := if (relayed && helper.purgeData) || helper.clears then b.compose - {id} else b.compose;
    b.(vhosts := b.vhosts - gone, certs := b.certs - gone, domains := DomainsWithout(b.domains, id),
       stacks := if relayed && helper.down && CanTakeDown(b, id) then b.stacks - {id} else b.stacks,
       compose := left, relays := b.relays - {id}, dirs := if id in left then b.dirs else b.dirs - {id})
  }

  /** `undo_creation`. Two transactions follow. The database refuses the first, which notes the block
      as unused and deletes the owned rows, while a handoff refers to a user; and the last, which
      deletes the tenant, while a sign-up refers to it. A refused one is rolled back as a whole. */
  function Undone(b: Box, id: nat, host: string, helper: Helper): Box {
    var d := Dismantled(b, id, host, helper);
    var e := d.(blocks := BlocksMarked(b.blocks, id), owned := b.owned - {id});
    if id == LEGACY then b
    else if id in b.handoffs then d
    else if Referenced(b, id) then e
    else e.(customers := b.customers - {id}, subscriptions := b.subscriptions - {id}, tenants := b.tenants - {id})
  }

  // Before a creation

  /** The id is fresh and the slug and host are free; a sign-up is in status 'creating'. */
  ghost predicate Ready(b: Box, slug: string, host: string, signup: Option<nat>) {
    var id := b.nextTenant;
    && id != LEGACY && id !in b.tenants && host !in b.domains && HostsOf(b, id) == {}
    && id !in b.relays && id !in b.owned && id !in b.customers && id !in b.subscriptions
    && id !in b.dirs && id !in b.compose && id !in b.stacks && id !in b.handoffs && !Referenced(b, id)
    && (forall i | 0 <= i < |b.blocks| :: b.blocks[i].tenant != id)
    && host !in b.vhosts && host !in b.certs
    && SlugFree(b, slug, signup)
    && (signup.Some? ==> signup.value in b.signups && b.signups[signup.value] == Signup(slug, None, true))
  }

  /** slug_error's two queries: no tenant has the slug, and no other sign-up holds it. */
  predicate SlugFree(b: Box, slug: string, own: Option<nat>) {
    && (forall t | t in b.tenants :: b.tenants[t].slug != slug)
    && (forall su | su in b.signups && b.signups[su].holds && own != Some(su) :: b.signups[su].slug != slug)
  }

  /** What a creation stopped after its first k effects leaves behind for good. */
  function Remains(b: Box, k: nat): Box {
    b.(nextTenant := if k >= 1 then b.nextTenant + 1 else b.nextTenant,
       blocks := if k >= 2 then b.blocks + [PortBlock(b.nextTenant, true)] else b.blocks)
  }

  /** The box after the first k effects, written out. */
  function Built(b: Box, k: nat, signup: Option<nat>, slug: string, host: string): Box {
    var id := b.nextTenant;
    b.(tenants := if k >= 1 then b.tenants[id := TenantRow(slug, InTrial)] else b.tenants,
       nextTenant := if k >= 1 then id + 1 else id,
       owned := if k >= 12 then b.owned[id := [Roles, if signup.Some? then Admin else Invite]]
                else if k >= 1 then b.owned[id := [Roles]] else b.owned,
       blocks := if k >= 2 then b.blocks + [PortBlock(id, false)] else b.blocks,
       dirs := if k >= 3 then b.dirs + {id} else b.dirs,
       relays := if k >= 4 then b.relays + {id} else b.relays,
       compose := if k >= 5 then b.compose + {id} else b.compose,
       stacks := if k >= 6 then b.stacks + {id} else b.stacks,
       domains := if k >= 8 then b.domains[host := id] else b.domains,
       certs := if k >= 9 then b.certs + {host} else b.certs,
       vhosts := if k >= 10 then b.vhosts + {host} else b.vhosts,
       customers := if k >= 13 then b.customers + {id} else b.customers,
       subscriptions := if k >= 13 then b.subscriptions + {id} else b.subscriptions,
       signups := if k >= 14 && signup.Some? && signup.value in b.signups then b.signups[signup.value := Linked(b.signups[signup.value], id)]
                  else b.signups)
  }

  lemma ApplySplits(b: Box, a: seq<Effect>, e: Effect, id: nat, slug: string, host: string)
    ensures ApplyAll(b, a + [e], id, slug, host) == Apply(ApplyAll(b, a, id, slug, host), e, id, slug, host)
    decreases |a|
  {
    if a == [] {
      assert a + [e] == [e];
      assert [e][1..] == [];
    } else {
      assert (a + [e])[1..] == a[1..] + [e];
      ApplySplits(Apply(b, a[0], id, slug, host), a[1..], e, id, slug, host);
    }
  }

  lemma {:induction false} PrefixBuilds(b: Box, k: nat, signup: Option<nat>, slug: string, host: string)
    requires Ready(b, slug, host, signup) && k <= |Plan(signup)|
    ensures ApplyAll(b, Plan(signup)[..k], b.nextTenant, slug, host) == Built(b, k, signup, slug, host)
    decreases k
  {
    if k > 0 {
      var plan := Plan(signup);
      PrefixBuilds(b, k - 1, signup, slug, host);
      assert plan[..k] == plan[..k - 1] + [plan[k - 1]];
      ApplySplits(b, plan[..k - 1], plan[k - 1], b.nextTenant, slug, host);
      StepBuilds(b, k, signup, slug, host);
    }
  }

  lemma StepBuilds(b: Box, k: nat, signup: Option<nat>, slug: string, host: string)
    requires Ready(b, slug, host, signup) && 0 < k <= |Plan(signup)|
    ensures Apply(Built(b, k - 1, signup, slug, host), Plan(signup)[k - 1], b.nextTenant, slug, host)
         == Built(b, k, signup, slug, host)
  {
    hide Apply, Built, Ready;
    if k == 1 { TenantBuilds(b, signup, slug, host); }
    else if k <= 7 { RelayBuilds(b, k, signup, slug, host); }
    else if k <= 11 { HostBuilds(b, k, signup, slug, host); }
    else if k == 12 { AdminBuilds(b, signup, slug, host); }
    else { LinkBuilds(b, k, signup.value, slug, host); }
  }

  lemma TenantBuilds(b: Box, signup: Option<nat>, slug: string, host: string)
    requires Ready(b, slug, host, signup)
    ensures Apply(Built(b, 0, signup, slug, host), Plan(signup)[0], b.nextTenant, slug, host) == Built(b, 1, signup, slug, host)
  {
    assert Plan(signup)[0] == InsertTenant && [] + [Roles] == [Roles];
  }

  lemma HostBuilds(b: Box, k: nat, signup: Option<nat>, slug: string, host: string)
    requires 7 < k <= 11
    ensures Apply(Built(b, k - 1, signup, slug, host), Plan(signup)[k - 1], b.nextTenant, slug, host)
         == Built(b, k, signup, slug, host)
  {
    var e := Plan(signup)[k - 1];
    if k == 8 { assert e == InsertDomain; }
    else if k == 9 { assert e == IssueCert; }
    else if k == 10 { assert e == WriteVhost; }
    else { assert e == BuildGuides; }
  }

  lemma RelayBuilds(b: Box, k: nat, signup: Option<nat>, slug: string, host: string)
    requires Ready(b, slug, host, signup) && 1 < k <= 7
    ensures Apply(Built(b, k - 1, signup, slug, host), Plan(signup)[k - 1], b.nextTenant, slug, host)
         == Built(b, k, signup, slug, host)
  {
  }

  lemma AdminBuilds(b: Box, signup: Option<nat>, slug: string, host: string)
    ensures Apply(Built(b, 11, signup, slug, host), Plan(signup)[11], b.nextTenant, slug, host) == Built(b, 12, signup, slug, host)
  {
    var id, row := b.nextTenant, if signup.Some? then Admin else Invite;
    var w := Built(b, 11, signup, slug, host);
    assert w.owned == b.owned[id := [Roles]];
    assert [Roles] + [row] == [Roles, row];
    assert w.owned[id := [Roles] + [row]] == b.owned[id := [Roles, row]];
    TwelfthEffect(signup);
    AdminApplies(w, signup, id, slug, host, row);
    hide Plan, Apply;
  }

  lemma TwelfthEffect(signup: Option<nat>)
    ensures Plan(signup)[11] == if signup.Some? then AddAdmin else AddInvite
  {
  }

  lemma AdminApplies(w: Box, signup: Option<nat>, id: nat, slug: string, host: string, row: OwnedRow)
    requires id in w.owned && w.owned[id] == [Roles] && row == if signup.Some? then Admin else Invite
    ensures Apply(w, if signup.Some? then AddAdmin else AddInvite, id, slug, host) == w.(owned := w.owned[id := [Roles] + [row]])
  {
  }

  lemma LinkBuilds(b: Box, k: nat, su: nat, slug: string, host: string)
    requires Ready(b, slug, host, Some(su)) && 12 < k <= 14
    ensures Apply(Built(b, k - 1, Some(su), slug, host), Plan(Some(su))[k - 1], b.nextTenant, slug, host)
         == Built(b, k, Some(su), slug, host)
  {
  }

  /** A creation that is not stopped: the tenant is on trial under its slug, has its host with vhost and
      certificate, a port block, a relay with its row, files and running containers, and its first rows;
      a sign-up has an administrator and its subscription, and refers to the tenant. Nothing else has changed. */
  lemma CreationCompletes(b: Box, signup: Option<nat>, slug: string, host: string)
    requires Ready(b, slug, host, signup)
    ensures var id, end := b.nextTenant, ApplyAll(b, Plan(signup), b.nextTenant, slug, host);
            && end.tenants == b.tenants[id := TenantRow(slug, InTrial)] && end.nextTenant == id + 1
            && end.domains == b.domains[host := id] && end.vhosts == b.vhosts + {host} && end.certs == b.certs + {host}
            && end.blocks == b.blocks + [PortBlock(id, false)]
            && end.relays == b.relays + {id} && end.dirs == b.dirs + {id}
            && end.compose == b.compose + {id} && end.stacks == b.stacks + {id}
            && end.owned == b.owned[id := [Roles, if signup.Some? then Admin else Invite]]
            && end.customers == (if signup.Some? then b.customers + {id} else b.customers)
            && end.subscriptions == (if signup.Some? then b.subscriptions + {id} else b.subscriptions)
            && end.signups == (if signup.Some? then b.signups[signup.value := Signup(slug, Some(id), false)] else b.signups)
            && end.handoffs == b.handoffs
  {
    var plan := Plan(signup);
    PrefixBuilds(b, |plan|, signup, slug, host);
    assert plan[..|plan|] == plan;
    hide ApplyAll;
  }

  // What undo leaves

  lemma BlocksOfBuilt(blocks: seq<PortBlock>, id: nat)
    requires forall i | 0 <= i < |blocks| :: blocks[i].tenant != id
    ensures BlocksMarked(blocks, id) == blocks
    ensures BlocksMarked(blocks + [PortBlock(id, false)], id) == blocks + [PortBlock(id, true)]
  {
  }

  lemma DomainsOfBuilt(b: Box, w: Box, id: nat, host: string)
    requires HostsOf(b, id) == {} && host !in b.domains
    ensures w.domains == b.domains ==> HostsOf(w, id) == {} && DomainsWithout(w.domains, id) == b.domains
    ensures w.domains == b.domains[host := id] ==> host in HostsOf(w, id) && DomainsWithout(w.domains, id) == b.domains
  {
    assert forall h | h in b.domains :: b.domains[h] == id ==> h in HostsOf(b, id);
  }

  /** The helper commands that an undo needs, once the effects they take back have happened. */
  predicate HelperSuffices(helper: Helper, k: nat) {
    && (k >= 5 ==> helper.purgeData || helper.clears)
    && (k >= 6 ==> helper.down)
    && (k >= 9 ==> helper.unpublish)
  }

  /** What undo makes of a creation stopped after its first k effects, field by field. */
  lemma UndoneFields(b: Box, k: nat, signup: Option<nat>, slug: string, host: string, helper: Helper)
    requires Ready(b, slug, host, signup) && k <= |Plan(signup)| && k < 14
    ensures var id, r := b.nextTenant, Remains(b, k);
            var u := Undone(Built(b, k, signup, slug, host), id, host, helper);
            u == r.(vhosts := if k >= 10 && !helper.unpublish then r.vhosts + {host} else r.vhosts,
                    certs := if k >= 9 && !helper.unpublish then r.certs + {host} else r.certs,
                    stacks := if k >= 6 && !helper.down then r.stacks + {id} else r.stacks,
                    compose := if k >= 5 && !helper.purgeData && !helper.clears then r.compose + {id} else r.compose,
                    dirs := if k >= 5 && !helper.purgeData && !helper.clears then r.dirs + {id} else r.dirs)
  {
    NotReferenced(b, k, signup, slug, host);
    UndoneSets(b, k, signup, slug, host, helper);
    UndoneRows(b, k, signup, slug, host, helper);
    hide Ready, Dismantled, HostsOf, DomainsWithout, BlocksMarked, Built;
  }

  lemma UndoneRows(b: Box, k: nat, signup: Option<nat>, slug: string, host: string, helper: Helper)
    requires Ready(b, slug, host, signup) && k <= |Plan(signup)| && k < 14
    ensures var id, r, w := b.nextTenant, Remains(b, k), Built(b, k, signup, slug, host);
            var m := Dismantled(w, id, host, helper);
            && BlocksMarked(w.blocks, id) == r.blocks && w.owned - {id} == b.owned && m.relays == b.relays && m.domains == b.domains
            && m.signups == b.signups && m.nextTenant == r.nextTenant && w.tenants - {id} == b.tenants
            && m.handoffs == b.handoffs && w.customers - {id} == b.customers && w.subscriptions - {id} == b.subscriptions
  {
    var id, w := b.nextTenant, Built(b, k, signup, slug, host);
    DomainsOfBuilt(b, w, id, host);
    BlocksOfBuilt(b.blocks, id);
    hide HostsOf, DomainsWithout, BlocksMarked;
    assert w.owned - {id} == b.owned && w.relays - {id} == b.relays && w.tenants - {id} == b.tenants;
    assert w.customers - {id} == b.customers && w.subscriptions - {id} == b.subscriptions;
  }

  lemma NotReferenced(b: Box, k: nat, signup: Option<nat>, slug: string, host: string)
    requires Ready(b, slug, host, signup) && k < 14
    ensures !Referenced(Built(b, k, signup, slug, host), b.nextTenant)
  {
  }

  lemma UndoneSets(b: Box, k: nat, signup: Option<nat>, slug: string, host: string, helper: Helper)
    requires Ready(b, slug, host, signup) && k <= |Plan(signup)| && k < 14
    ensures var id := b.nextTenant;
            var m := Dismantled(Built(b, k, signup, slug, host), id, host, helper);
            && m.vhosts == (if k >= 10 && !helper.unpublish then b.vhosts + {host} else b.vhosts)
            && m.certs == (if k >= 9 && !helper.unpublish then b.certs + {host} else b.certs)
            && m.stacks == (if k >= 6 && !helper.down then b.stacks + {id} else b.stacks)
            && m.compose == (if k >= 5 && !helper.purgeData && !helper.clears then b.compose + {id} else b.compose)
            && m.dirs == (if k >= 5 && !helper.purgeData && !helper.clears then b.dirs + {id} else b.dirs)
  {
    DomainsOfBuilt(b, Built(b, k, signup, slug, host), b.nextTenant, host);
  }

  /** A creation stopped after its first k effects and then undone, however the helper fares: the
      slug is free again, and everything is as before, but for a tenant id and at most one block,
      exactly when the helper commands that are needed by then succeed. */
  lemma CreationUndone(b: Box, k: nat, signup: Option<nat>, slug: string, host: string, helper: Helper)
    requires Ready(b, slug, host, signup) && k <= |Plan(signup)| && k < 14
    ensures var u := Undone(Built(b, k, signup, slug, host), b.nextTenant, host, helper);
            && SignupFailed(u, signup) == u && SlugFree(u, slug, signup)
            && (u == Remains(b, k) <==> HelperSuffices(helper, k))
  {
    UndoneFields(b, k, signup, slug, host, helper);
    var u, id := Undone(Built(b, k, signup, slug, host), b.nextTenant, host, helper), b.nextTenant;
    assert k >= 9 && !helper.unpublish ==> host in u.certs && host !in b.certs;
    assert k >= 6 && !helper.down ==> id in u.stacks && id !in b.stacks;
    assert k >= 5 && !helper.purgeData && !helper.clears ==> id in u.compose && id !in b.compose;
    assert u.signups == b.signups && u.tenants == b.tenants;
    hide Undone, Built, HostsOf, Referenced;
  }

  /** For a creation from the console, stopped anywhere by a failure or a restart. */
  lemma ConsoleCreationUndone(b: Box, k: nat, slug: string, host: string, helper: Helper)
    requires Ready(b, slug, host, None) && k <= |Plan(None)|
    ensures var stopped := ApplyAll(b, Plan(None)[..k], b.nextTenant, slug, host);
            var u := Undone(stopped, b.nextTenant, host, helper);
            SlugFree(u, slug, None) && (u == Remains(b, k) <==> HelperSuffices(helper, k))
  {
    PrefixBuilds(b, k, None, slug, host);
    CreationUndone(b, k, None, slug, host, helper);
  }

  /** For a sign-up, at every stop before its row is linked to the tenant; the sign-up itself can
      be tried again with its slug, which no other may take. */
  lemma SignupUndone(b: Box, k: nat, su: nat, slug: string, host: string, helper: Helper)
    requires Ready(b, slug, host, Some(su)) && k < |Plan(Some(su))|
    ensures var stopped := ApplyAll(b, Plan(Some(su))[..k], b.nextTenant, slug, host);
            var u := SignupFailed(Undone(stopped, b.nextTenant, host, helper), Some(su));
            && SlugFree(u, slug, Some(su)) && !SlugFree(u, slug, None)
            && (u == Remains(b, k) <==> HelperSuffices(helper, k))
  {
    PrefixBuilds(b, k, Some(su), slug, host);
    CreationUndone(b, k, Some(su), slug, host, helper);
    UndoneFields(b, k, Some(su), slug, host, helper);
  }

  /** Exactly when undo gets rid of the tenant, in any state and however the helper fares: when
      no sign-up refers to it and no handoff to one of its users. Otherwise its row stays and
      keeps its slug taken; with a handoff its users and other rows stay, too, although its
      domains and its relay's row are deleted in any case. */
  lemma UndoCompletes(b: Box, id: nat, host: string, helper: Helper)
    requires id != LEGACY && id in b.tenants
    ensures var u := Undone(b, id, host, helper);
            && (id !in u.tenants <==> !Referenced(b, id) && id !in b.handoffs)
            && (id in u.tenants ==> forall own :: !SlugFree(u, b.tenants[id].slug, own))
            && HostsOf(u, id) == {} && id !in u.relays
            && (if id in b.handoffs then u.owned == b.owned && u.blocks == b.blocks else id !in u.owned)
  {
    DomainsGone(b, id, host, helper);
  }

  /** An undo touches nothing of another tenant, and nothing at all for tenant #1. */
  lemma UndoSparesOthers(b: Box, id: nat, host: string, helper: Helper, other: nat)
    requires other != id
    ensures id == 1 ==> Undone(b, id, host, helper) == b
    ensures var u := Undone(b, id, host, helper);
            && (other in u.tenants <==> other in b.tenants) && (other in b.tenants ==> u.tenants[other] == b.tenants[other])
            && (other in u.owned <==> other in b.owned) && (other in b.owned ==> u.owned[other] == b.owned[other])
            && HostsOf(u, other) == HostsOf(b, other)
            && (other in u.relays <==> other in b.relays) && (other in u.dirs <==> other in b.dirs)
            && (other in u.compose <==> other in b.compose) && (other in u.stacks <==> other in b.stacks)
            && (other in u.customers <==> other in b.customers) && (other in u.subscriptions <==> other in b.subscriptions)
            && u.signups == b.signups && u.handoffs == b.handoffs && |u.blocks| == |b.blocks|
            && (forall i | 0 <= i < |b.blocks| && b.blocks[i].tenant == other :: u.blocks[i] == b.blocks[i])
            && (forall h | h != host :: (h in u.vhosts <==> h in b.vhosts) && (h in u.certs <==> h in b.certs))
  {
    if id != LEGACY {
      hide Undone, CanTakeDown, Referenced;
      UndoneDatabase(b, id, host, helper);
      UndoneRelay(b, id, host, helper);
      UndoneHost(b, id, host, helper);
    }
  }

  /** So a sign-up whose creation fails after the link (the sync or the welcome email) is stuck:
      the tenant's row outlives the undo, and the slug is not even free for the sign-up itself. */
  lemma LinkedSignupSticks(b: Box, su: nat, slug: string, host: string, helper: Helper)
    requires Ready(b, slug, host, Some(su))
    ensures var stopped := ApplyAll(b, Plan(Some(su)), b.nextTenant, slug, host);
            Referenced(stopped, b.nextTenant) && !SlugFree(Undone(stopped, b.nextTenant, host, helper), slug, Some(su))
  {
    var plan := Plan(Some(su));
    assert plan[..|plan|] == plan;
    PrefixBuilds(b, |plan|, Some(su), slug, host);
    var stopped := Built(b, |plan|, Some(su), slug, host);
    assert stopped.signups[su].tenant == Some(b.nextTenant);
    UndoCompletes(stopped, b.nextTenant, host, helper);
  }

  lemma DomainsGone(b: Box, id: nat, host: string, helper: Helper)
    requires id != LEGACY
    ensures var u := Undone(b, id, host, helper);
            && HostsOf(u, id) == {} && DomainsWithout(u.domains, id) == u.domains && u.signups == b.signups
            && (id !in b.handoffs ==> BlocksMarked(u.blocks, id) == u.blocks)
            && u.handoffs == b.handoffs && (Referenced(u, id) <==> Referenced(b, id))
  {
    var u := Undone(b, id, host, helper);
    assert u.domains == DomainsWithout(b.domains, id);
  }

  /** Undoing again with the same outcome of the helper changes nothing, in any state whatever. */
  lemma UndoIdempotent(b: Box, id: nat, host: string, helper: Helper)
    ensures Undone(Undone(b, id, host, helper), id, host, helper) == Undone(b, id, host, helper)
  {
    if id != LEGACY {
      DomainsGone(b, id, host, helper);
    }
  }

  /** The compose file lies in the tenant's directory. */
  predicate ComposeInDir(b: Box, id: nat) {
    id in b.compose ==> id in b.dirs
  }

  /** What a first undo must have managed for a later one to finish the rest: the vhost and
      certificate, and the containers. It deletes the rows in any case, and without those the
      later one neither looks for the host nor gets the helper to touch the stack. */
  predicate Retriable(b: Box, id: nat, host: string, helper: Helper) {
    && (helper.unpublish || HostsOf(b, id) == {} || (host !in b.vhosts && host !in b.certs))
    && (helper.down || id !in b.stacks || !CanTakeDown(b, id))
  }

  /** Undo can be run again after the helper failed: then, all being well, it reaches what one
      undo would have, exactly when the first one left nothing that no later one looks at. */
  lemma RetryCompletes(b: Box, id: nat, host: string, helper: Helper)
    requires id != LEGACY && ComposeInDir(b, id)
    ensures Undone(Undone(b, id, host, helper), id, host, ALL_WELL) == Undone(b, id, host, ALL_WELL)
            <==> Retriable(b, id, host, helper)
  {
    var v, w := Undone(b, id, host, ALL_WELL), Undone(Undone(b, id, host, helper), id, host, ALL_WELL);
    RetryStacks(b, id, host, helper);
    RetryHosts(b, id, host, helper);
    RetryRest(b, id, host, helper);
    hide Undone, CanTakeDown, HostsOf;
  }

  /** The relay's part of an undo. */
  lemma UndoneRelay(b: Box, id: nat, host: string, helper: Helper)
    requires id != LEGACY
    ensures var u, relayed := Undone(b, id, host, helper), id in b.dirs || id in b.relays;
            && u.stacks == (if relayed && helper.down && CanTakeDown(b, id) then b.stacks - {id} else b.stacks)
            && u.compose == (if (relayed && helper.purgeData) || helper.clears then b.compose - {id} else b.compose)
            && u.dirs == (if id in u.compose then b.dirs else b.dirs - {id}) && u.relays == b.relays - {id}
  {
    hide HostsOf, DomainsWithout, BlocksMarked, Referenced, CanTakeDown;
  }

  /** Containers are taken down exactly if the helper manages it and can know them: from the compose file, the
      relay's row and a tenant that is not purged. */
  lemma StackTakenDown(b: Box, id: nat, host: string, helper: Helper)
    requires id != LEGACY && id in b.stacks
    ensures id !in Undone(b, id, host, helper).stacks <==>
              helper.down && id in b.compose && id in b.relays && id in b.tenants && b.tenants[id].status != Purged
  {
    UndoneRelay(b, id, host, helper);
    hide Undone;
  }

  /** The web host's part of an undo. */
  lemma UndoneHost(b: Box, id: nat, host: string, helper: Helper)
    requires id != LEGACY
    ensures var u, gone := Undone(b, id, host, helper), HostsOf(b, id) != {} && helper.unpublish;
            && u.vhosts == (if gone then b.vhosts - {host} else b.vhosts)
            && u.certs == (if gone then b.certs - {host} else b.certs)
            && HostsOf(u, id) == {}
  {
    DomainsGone(b, id, host, helper);
  }

  lemma RetryStacks(b: Box, id: nat, host: string, helper: Helper)
    requires id != LEGACY && ComposeInDir(b, id)
    ensures Undone(Undone(b, id, host, helper), id, host, ALL_WELL).stacks == Undone(b, id, host, ALL_WELL).stacks
            <==> helper.down || id !in b.stacks || !CanTakeDown(b, id)
  {
    hide Undone;
    var u, v, w := Undone(b, id, host, helper), Undone(b, id, host, ALL_WELL), Undone(Undone(b, id, host, helper), id, host, ALL_WELL);
    UndoneRelay(b, id, host, helper);
    UndoneRelay(b, id, host, ALL_WELL);
    UndoneRelay(u, id, host, ALL_WELL);
    assert w.stacks == u.stacks;
    if CanTakeDown(b, id) {
      assert v.stacks == b.stacks - {id};
      assert id in b.stacks ==> id !in v.stacks;
      assert id !in b.stacks ==> v.stacks == b.stacks;
    }
  }

  lemma RetryHosts(b: Box, id: nat, host: string, helper: Helper)
    requires id != LEGACY
    ensures var v, w := Undone(b, id, host, ALL_WELL), Undone(Undone(b, id, host, helper), id, host, ALL_WELL);
            w.vhosts == v.vhosts && w.certs == v.certs <==>
            helper.unpublish || HostsOf(b, id) == {} || (host !in b.vhosts && host !in b.certs)
  {
    hide Undone, HostsOf;
    UndoneHost(b, id, host, helper);
    UndoneHost(b, id, host, ALL_WELL);
    UndoneHost(Undone(b, id, host, helper), id, host, ALL_WELL);
    assert host in b.vhosts ==> host !in b.vhosts - {host};
    assert host in b.certs ==> host !in b.certs - {host};
  }

  /** The database's part of an undo. */
  lemma UndoneDatabase(b: Box, id: nat, host: string, helper: Helper)
    requires id != LEGACY
    ensures var u, last := Undone(b, id, host, helper), id !in b.handoffs && !Referenced(b, id);
            && u.domains == DomainsWithout(b.domains, id) && u.nextTenant == b.nextTenant
            && u.signups == b.signups && u.handoffs == b.handoffs
            && u.blocks == (if id in b.handoffs then b.blocks else BlocksMarked(b.blocks, id))
            && u.owned == (if id in b.handoffs then b.owned else b.owned - {id})
            && u.customers == (if last then b.customers - {id} else b.customers)
            && u.subscriptions == (if last then b.subscriptions - {id} else b.subscriptions)
            && u.tenants == (if last then b.tenants - {id} else b.tenants)
  {
    hide HostsOf, DomainsWithout, BlocksMarked, CanTakeDown;
  }

  lemma RetryRest(b: Box, id: nat, host: string, helper: Helper)
    requires id != LEGACY && ComposeInDir(b, id)
    ensures var v, w := Undone(b, id, host, ALL_WELL), Undone(Undone(b, id, host, helper), id, host, ALL_WELL);
            w == v.(stacks := w.stacks, vhosts := w.vhosts, certs := w.certs)
  {
    hide Undone, BlocksMarked, DomainsWithout, HostsOf, CanTakeDown;
    var u := Undone(b, id, host, helper);
    var v, w := Undone(b, id, host, ALL_WELL), Undone(u, id, host, ALL_WELL);
    DomainsGone(b, id, host, helper);
    UndoneDatabase(b, id, host, helper);
    UndoneDatabase(b, id, host, ALL_WELL);
    UndoneDatabase(u, id, host, ALL_WELL);
    UndoneRelay(b, id, host, helper);
    UndoneRelay(b, id, host, ALL_WELL);
    UndoneRelay(u, id, host, ALL_WELL);
    assert w.compose == v.compose && w.dirs == v.dirs && w.relays == v.relays;
    assert w.owned == v.owned && w.tenants == v.tenants;
    assert w.customers == v.customers && w.subscriptions == v.subscriptions;
  }

  /** A vhost that the helper failed to remove: the row that names it is deleted all the same. */
  lemma UnpublishIsNotRetried(b: Box, id: nat, host: string, helper: Helper)
    requires id != LEGACY && host in b.vhosts && !helper.unpublish
    ensures host in Undone(Undone(b, id, host, helper), id, host, ALL_WELL).vhosts
    ensures HostsOf(b, id) != {} ==> host !in Undone(b, id, host, ALL_WELL).vhosts
  {
    hide Undone, HostsOf;
    UndoneHost(b, id, host, helper);
    UndoneHost(b, id, host, ALL_WELL);
    UndoneHost(Undone(b, id, host, helper), id, host, ALL_WELL);
  }

  /** Containers that the helper failed to take down stay up, whatever else it managed: the relay's
      row, without which it refuses to run the stack, is deleted all the same. */
  lemma DownIsNotRetried(b: Box, id: nat, host: string, helper: Helper)
    requires id != LEGACY && id in b.stacks && CanTakeDown(b, id) && !helper.down
    ensures id in Undone(Undone(b, id, host, helper), id, host, ALL_WELL).stacks
    ensures id !in Undone(b, id, host, ALL_WELL).stacks
  {
    hide Undone;
    UndoneRelay(b, id, host, helper);
    UndoneRelay(b, id, host, ALL_WELL);
    UndoneRelay(Undone(b, id, host, helper), id, host, ALL_WELL);
  }
}

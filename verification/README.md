# Verification of the fleet dashboard

A Dafny model of the multi-tenant dashboard in `subsystems/dashboard` and of the root helper's
DNS check in `subsystems/provisioning`, with proofs of what every run of it keeps. Database rows
are records in maps, times are whole seconds (milliseconds for the host cache, reals for the rate
limiter), and whatever the outside world decides (DNS answers, Stripe's answers, the certificate
authority, the root helper, the moment of a restart) is an argument of a step. `dafny verify
dfyconfig.toml` checks everything.

Objects whose fields the source updates are classes; each of their methods is proved against a
function or relation from state to state, and the properties are proved of those over whole runs.

| files | what they model |
|---|---|
| `Domains`, `DomainRuns`, `DomainHistory`, `DomainOwnership`, `DomainOutcomes`, `DomainRequests` | the life of custom domains: claims, checks, certificate attempts, health checks, removal, the primary host |
| `HostCache`, `CacheStaleness`, `Directory` | resolving hosts through the cache; the table and the worker as a class |
| `Lifecycle`, `LifecycleSafety`, `TenantOutcomes`, `GracePeriod`, `BillingSync`, `Queue`, `Desk` | a tenant's status under console actions, timers, Stripe syncs and queued jobs |
| `Provisioning`, `Purge`, `PurgeWindow`, `Provisioner` | creating a tenant with compensation, purging one, and what a purge cut off leaves |
| `Pricing` | the price of a licensed item, and what a plan includes |
| `Metering`, `UsageBooks` | daily device peaks and their report to a meter |
| `Sessions`, `SessionLog`, `SessionTime` | the remote-session log, and session time per day |
| `PortBlocks` | blocks of relay ports |
| `RateLimit`, `Limiter` | sign-in rate limiting |
| `Dns`, `DnsCheck` | the decision that a domain points here |
| `Util` | options, results and least elements |

## Where the code does not do what one would expect

Each of these is a lemma with a concrete case or an exact condition.

- Asking for a new check of a domain that is not served, being issued or given up on, skips the hourly limit, although the docstring of `check_now` says that it still applies (`DomainHistory.RecheckSkipsHourlyLimit`, `AttemptsApart`).
- A lookup that has read the database before a write stores its answer after the invalidation; the answer is then served for up to 30 seconds (`CacheStaleness.InvalidationIsExactly`).
- An extension of the grace period is not honoured if a purge was already queued or at work (`GracePeriod.ExtensionHonouredExactly`).
- A trial extended after a reactivation has read the tenant and before it writes is lost (`TenantOutcomes.ExtendedTooLate`).
- A recovery synced while the billing mode is not `stripe` does not clear `past_due_since` (`BillingSync.HiddenRecovery`; without a change of mode, `PastDueEverySync`).
- A creation for a sign-up that fails after the link to its subscription cannot be undone: the sign-up still refers to the tenant (`Provisioning.UndoCompletes`).
- An undo in which the helper failed is not always finished by running it again: a vhost that was not removed, and containers that were not taken down, are left for good, since the rows that the helper and the undo go by are deleted (`Provisioning.RetryCompletes`).
- Rows of `login_handoffs` stay after their use, refer to users, and are not among the tables that undo and purge clear: a tenant with such a row is neither undone nor ever purged (`Provisioning.UndoCompletes`, `Purging.PurgeCompletes`).
- An undo that the database refuses does not reach its invalidation of the cache (`HostCache.RefusedUndoExactly`).
- A tenant can be reactivated although a purge cut off at the wrong moment has deleted its rows (`PurgeWindow.CutOffPurgeReopens`).
- The spacing and the number of certificate attempts are per row: removing a hostname and adding it again starts anew (`DomainOwnership.HostAttemptsApart`).
- The daily usage row of a day is never refreshed after midnight once it exists: it misses what ran after the day's last pass, and keeps what was counted of sessions ended after the fact (`SessionTime.LastHourIsLost`).
- Raising `RELAY_PORT_BASE` into the five ports of an older block makes two relays share ports (`PortBlocks.OverlapsExactly`).
- The CAA climb does not look at the top-level label (`Dns.CaaAgreesWithTheStandard`).
- Volume prices fall as the quantity grows wherever a tier boundary drops (`Pricing.VolumeNeverFallsExactly`).
- If the clock goes back into a day already reported, a higher sample is never billed (`Metering.LateSampleAgrees`).

## Model

| member | source | states |
|---|---|---|
| Domains.HomeId | subsystems/dashboard/app/domains.py:144-150 | the host of its own that a tenant falls back to belongs to the tenant and is not a custom domain; there is none only if the tenant has no such row |
| DomainRuns.TableInvNext | subsystems/dashboard/app/domains.py:107-245 | every action, visit, creation, purge and status change keeps: hostnames unique, at most one primary row a tenant and one for every tenant that has rows, a host of its own for each of them, a primary row always one that answers requests, broken_since set among served rows exactly for dns_broken |
| DomainRuns.ClaimKeeps | subsystems/dashboard/app/domains.py:107-139 | taking over another tenant's released row deletes neither a primary row nor anyone's own host |
| DomainRuns.WithdrawKeeps | subsystems/dashboard/app/domains.py:231-254 | a removal request, accepted or not, keeps the table's invariant |
| DomainRuns.WithdrawLeaves | subsystems/dashboard/app/domains.py:231-254 | once a removal is accepted the primary row is the tenant's own host if the domain was primary, and otherwise the row that already was |
| DomainRuns.HealthKeeps | subsystems/dashboard/app/domains.py:412-480 | a health check, releasing or not, keeps the table's invariant |
| DomainHistory.VisitKeepsLog | subsystems/dashboard/app/domains.py:321-409 | one check of a domain keeps the history of its attempts in step with its failure count, its status and last_issue_at |
| DomainHistory.ProbeKeepsLog | subsystems/dashboard/app/domains.py:412-480 | one health check keeps broken_since at the first failure of the unbroken run of failures |
| DomainHistory.InvRun | subsystems/dashboard/app/domains.py:107-505 | table invariant and histories hold in every state of every run |
| DomainHistory.CertificateAttempts | subsystems/dashboard/app/domains.py:349-409 | on every run a domain's row has at most 5 certificate attempts between two check_now calls, besides those a restart cut off, and any two are an hour apart for each step between them; a name removed and claimed anew is a new row |
| DomainHistory.RecheckSkipsHourlyLimit | subsystems/dashboard/app/domains.py:189-204 | against the docstring: after check_now on any domain that is not served, within the hour after its last attempt, the next visit attempts exactly when it finds DNS in order; a domain being issued would otherwise have waited |
| DomainHistory.AttemptsApart | subsystems/dashboard/app/domains.py:349-409 | over any run two attempts of one row are less than an hour apart only if check_now put it back in between |
| DomainHistory.VisitSpends | subsystems/dashboard/app/domains.py:321-409 | each due visit lowers a measure over status, the 7-day window and the failure count, unless a restart cuts it off |
| DomainHistory.LeftAloneSettles | subsystems/dashboard/app/domains.py:321-409 | a domain of an open tenant that nobody touches needs at most that many visits, two more for each restart, for every outcome of DNS and issuance |
| DomainHistory.NewClaimSettles | subsystems/dashboard/app/domains.py:107-139 | for a new claim that is 2029 visits; it ends active or failed, and until then it always has a due time |
| DomainHistory.ReleaseNeedsGrace | subsystems/dashboard/app/domains.py:412-480 | a served domain becomes failed only in a health check, only after all its checks failed since broken_since, at least 7 days ago |
| DomainHistory.GoodCheckRestores | subsystems/dashboard/app/domains.py:428-446 | one good check makes a broken domain active and clears broken_since, whatever its history |
| DomainOutcomes.WaitsForDns | subsystems/dashboard/app/domains.py:349-360 | a visit that finds DNS not in order within the seven days leaves the domain pending_dns, due exactly five minutes later; nothing else of it changes, nor any other row |
| DomainOutcomes.WaitsAsLongAsItMay | subsystems/dashboard/app/domains.py:329-360 | over any run in which its visits come within its window, nobody puts it back and DNS is never in order, a domain still waits, with the same window, no failure counted and its next check planned five minutes after a visit |
| DomainOutcomes.WaitsForTheHour | subsystems/dashboard/app/domains.py:343-348 | a visit within the hour after the last certificate request only plans the next one for the end of that hour |
| DomainOutcomes.CertificateOutcome | subsystems/dashboard/app/domains.py:373-409 | what a visit that asks for a certificate leads to: active when published; an hour's wait after a refusal, failed after the fifth; still being issued after a restart |
| DomainOutcomes.ClaimIsServed | subsystems/dashboard/app/domains.py:107-409 | a claim visited within seven days with its DNS in order and its certificate issued resolves to its tenant |
| DomainOutcomes.FailsExactly | subsystems/dashboard/app/domains.py:321-480 | a custom domain becomes failed exactly by a visit after its window, by the fifth refused certificate, or by a failing health check seven days after it broke when the helper lets go of it |
| DomainOutcomes.FailedOverRuns | subsystems/dashboard/app/domains.py:321-480 | over any run a domain found failed that was not was given up by one of those three |
| DomainOutcomes.HealthOutcome | subsystems/dashboard/app/domains.py:428-460 | what any other health check leads to: active again, broken since now, or broken as before; checked again in an hour if the helper would not let go |
| DomainOutcomes.ReleaseOutcome | subsystems/dashboard/app/domains.py:461-480 | a released domain is failed and not primary, and if it was primary the tenant's own host is |
| DomainOutcomes.BrokenForAWeek | subsystems/dashboard/app/domains.py:446-480 | an active domain that breaks and fails its next check is released by that check exactly when seven days have passed and the helper lets go |
| DomainRequests.ClaimedExactly | subsystems/dashboard/app/domains.py:107-131 | when a claim is accepted, and which of the five refusals it gets: a name is in use while an own host, a verified domain not given up, or a claim of at most seven days has it |
| DomainRequests.ClaimedRows | subsystems/dashboard/app/domains.py:121-136 | the table after a claim: the stale rows of the name are gone, there is one new row, due at once, with seven days for its DNS, and the tenant has at most its limit of domains |
| DomainRequests.TakenOverExactly | subsystems/dashboard/app/domains.py:92-123 | another tenant takes a never verified claim over exactly once its seven days are over, one given up at any time, and a served domain never |
| DomainRequests.AtMostTheLimit | subsystems/dashboard/app/domains.py:124-129 | over any run a tenant has at most its limit of custom domains |
| DomainRequests.RecheckExactly | subsystems/dashboard/app/domains.py:189-204 | when check_now is refused; a served domain is due at once, any other one starts anew with seven days and no failures |
| DomainRequests.PutBackStartsAnew | subsystems/dashboard/app/domains.py:189-204 | after it the next step gives the domain up only if it is a visit more than seven days later |
| DomainRequests.PromoteExactly | subsystems/dashboard/app/domains.py:207-220 | a domain is made primary exactly if it is an own host or active and not being removed; then it is the tenant's only primary row |
| DomainRequests.WithdrawExactly | subsystems/dashboard/app/domains.py:231-254 | a removal is refused only for a foreign row or an own host; once accepted the name no longer resolves and the row is due |
| DomainRequests.RemovedExactly | subsystems/dashboard/app/domains.py:483-505 | the worker deletes such a row exactly if the helper let go, and changes nothing else |
| DomainRequests.HomeIsFirst | subsystems/dashboard/app/domains.py:144-150 | the home host is the first provider subdomain, and another own host only without one |
| DomainOwnership.OneOwner | subsystems/dashboard/app/tenancy.py:154-179 | a hostname resolves to at most one tenant |
| DomainOwnership.ServesAfter | subsystems/dashboard/app/domains.py:107-505 | exactly what each step does to what any hostname resolves to: only removal, health release, purge and undo end it, only issuance and publication begin it |
| DomainOwnership.ClaimIsSilent | subsystems/dashboard/app/domains.py:107-139 | a claim, also one that takes a stale row over, changes what no hostname resolves to |
| DomainOwnership.OwnershipOverRuns | subsystems/dashboard/app/domains.py:107-505 | over any run a hostname stops resolving to its tenant, or resolves to another, only after one of those four steps |
| DomainOwnership.PrimaryHostResolves | subsystems/dashboard/app/domains.py:144-157 | after any run a tenant with rows has exactly one primary row, it answers requests, and primary_host resolves back to the tenant |
| DomainOwnership.SelectionStands | subsystems/dashboard/app/domains.py:291-314 | a row selected by the worker is as selected, or gone, after any one other step |
| DomainOwnership.SelectionLasts | subsystems/dashboard/app/domains.py:291-314 | and after any run without a visit of it, from its selection to its visit |
| DomainOwnership.HostAttemptsApart | subsystems/dashboard/app/domains.py:107-409 | over any run two attempts for one hostname are less than an hour apart only if check_now put its domain back in between or the name was claimed anew |
| HostCache.LookupServes | subsystems/dashboard/app/tenancy.py:154-179 | the uncached lookup finds tenant t exactly when a reachable row says so |
| HostCache.SilentStep | subsystems/dashboard/app/tenancy.py:149-151 | a step that does not call invalidate_cache changes no lookup, a refused undo apart |
| HostCache.SilentFetch | subsystems/dashboard/app/tenancy.py:149-220 | nor does it change the answer of any of the three lookups |
| HostCache.RefusedUndoExactly | subsystems/dashboard/app/console/tenants.py:222-255 | an undo that the database refuses deletes the domains and raises before it invalidates: the cache still agrees exactly when no entry is about the tenant |
| HostCache.CachedAnswersAreExact | subsystems/dashboard/app/tenancy.py:142-220 | with every operation atomic with its invalidation, each request of resolve_host, legacy_tenant and resolve_relay_host is answered as without a cache, with the tenant's status, relay and other columns, after any run and at any time; a refused undo must find no entry about its tenant |
| CacheStaleness.InvRun | subsystems/dashboard/app/tenancy.py:142-220 | with lookups split into clock, read and store, every cached and every read answer was true at some instant since its timestamp |
| CacheStaleness.AnswersAreRecent | subsystems/dashboard/app/tenancy.py:142-220 | every answer taken from the cache is what an uncached lookup would have given at an instant of the last 30 seconds; one read from the database, at an instant since its call began |
| CacheStaleness.InvalidationIsExactly | subsystems/dashboard/app/tenancy.py:149-151 | invalidate_cache makes every cached answer true, and keeps it so in every run without a write, if and only if no lookup under way has read something older |
| CacheStaleness.InvalidationCanBeUndone | subsystems/dashboard/app/tenancy.py:154-179 | the interleaving that stores an old answer after the invalidation |
| Directories.Directory.constructor | subsystems/dashboard/app/domains.py:65-71 | the table the migration leaves: tenant #1 on its original host; it meets the table's invariant, and the empty cache is true |
| Directories.Directory.ResolveHost | subsystems/dashboard/app/tenancy.py:154-179 | while every entry is what a lookup would find, the answer is, too, and every entry stays so; a hit of less than 30 seconds changes nothing, anything else is looked up and stored with its time; at most 1001 entries |
| Directories.StepKeepsTrue | subsystems/dashboard/app/tenancy.py:149-151 | each step keeps every entry of the cache what a lookup would find, a refused undo exactly if no entry is about its tenant |
| Directories.AnswersStayTrue | subsystems/dashboard/app/tenancy.py:142-179 | after any run of steps with requests woven in, the next request for any host is answered with the tenant that a lookup finds, and its status |
| Directories.Directory.Add | subsystems/dashboard/app/domains.py:107-139 | new table, new cache, row id, or which of the five refusals |
| Directories.Directory.Recheck | subsystems/dashboard/app/domains.py:189-204 | new row, and exactly when it is refused |
| Directories.Directory.SetPrimaryRow | subsystems/dashboard/app/domains.py:218-220 | one row of the tenant primary, every other of its rows not, nothing else changed |
| Directories.Directory.FallBack | subsystems/dashboard/app/domains.py:223-228 | the tenant's own host becomes primary, and its guides are queued |
| Directories.Directory.Promote | subsystems/dashboard/app/domains.py:207-215 | new table, cache dropped, guides queued, or the refusal |
| Directories.Directory.Withdraw | subsystems/dashboard/app/domains.py:231-254 | the row is marked for removal after the fallback, whose guides are queued; or the refusal |
| Directories.Directory.IssueRow | subsystems/dashboard/app/domains.py:373-409 | the row after publication, refusal or a restart before or during it |
| Directories.Directory.AdvanceRow | subsystems/dashboard/app/domains.py:321-362 | the new table and cache; without DNS in order the row waits as pending_dns for five minutes more, or fails once its window is over; published, it is active |
| Directories.Directory.VisitRow | subsystems/dashboard/app/domains.py:329-360 | the same for a row of an open tenant |
| Directories.Directory.HealthRow | subsystems/dashboard/app/domains.py:412-480 | the new table and cache, and whose guides are queued |
| Directories.Directory.ProbeRow | subsystems/dashboard/app/domains.py:425-480 | the same for a row of an open tenant |
| Directories.Directory.ReleaseRow | subsystems/dashboard/app/domains.py:456-480 | fallback first, then failed and not primary |
| Directories.Directory.RemoveRow | subsystems/dashboard/app/domains.py:483-505 | the row goes exactly when the helper let go of the host |
| Directories.PassVisits | subsystems/dashboard/app/domains.py:291-314 | which rows a pass visits: a domain being checked when its check is due, a served one when not looked at for a day or when due, one to be removed always and only for that |
| Directories.Directory.DoAll | subsystems/dashboard/app/domains.py:291-314 | the visits of one selection, in order |
| Directories.Directory.RunDue | subsystems/dashboard/app/domains.py:291-314 | one worker pass equals the visits of its three selections, made before any visit |
| Directories.JobsAre | subsystems/dashboard/app/domains.py:291-314 | one visit for each selected row and no other, by ascending id |
| Directories.PassIsPossible | subsystems/dashboard/app/domains.py:291-314 | a pass is a possible run with any possible steps of tenants, console and jobs woven between its visits, so everything proved of runs holds after it; no row is visited twice |
| Directories.PassAlone | subsystems/dashboard/app/domains.py:291-314 | in particular the pass by itself |
| Lifecycle.FirstQueued | subsystems/dashboard/app/console/jobs.py:154-164 | the waiting job with the lowest id |
| Queues.OneJobDone | subsystems/dashboard/app/console/jobs.py:134-164 | a job run to its end leaves none at work and one fewer waiting |
| LifecycleSafety.StatusMoves | subsystems/dashboard/app/console/lifecycle.py:85-123 | steps other than a job's write move a tenant only among trial, active and suspended, or delete an unpaid one |
| LifecycleSafety.InvRun | subsystems/dashboard/app/console/lifecycle.py:166-316 | in any order of actions, timers, syncs, jobs and restarts: one job at work, no open tenant marked as suspended by billing, and what a job read at its start still allows its write |
| LifecycleSafety.ClosedStatuses | subsystems/dashboard/app/console/lifecycle.py:166-280 | purged is entered only from cancelled, by a purge, and never left; cancelled only by a cancellation |
| LifecycleSafety.PurgedForGood | subsystems/dashboard/app/console/lifecycle.py:223-267 | no run leads out of purged |
| LifecycleSafety.LegacyStays | subsystems/dashboard/app/console/lifecycle.py:66-76 | tenant #1 is never cancelled or purged, whatever is queued |
| LifecycleSafety.ClosingNeedsCancellation | subsystems/dashboard/app/console/lifecycle.py:166-187 | an open or suspended tenant is found closed only if a cancellation took effect in between |
| LifecycleSafety.ReactivateOrPurge | subsystems/dashboard/app/console/lifecycle.py:190-267 | a reactivation and a later purge both take effect only with a new cancellation in between; after a purge no reactivation does |
| PurgeWindow.ReactivatedWithRows | subsystems/dashboard/app/console/lifecycle.py:190-267 | if no purge is cut off between the deletion of the rows and its last write, a reactivation that takes effect finds all the rows |
| PurgeWindow.CutOffPurgeReopens | subsystems/dashboard/app/console/lifecycle.py:199-216 | after a purge cut off within the grace period a reactivation opens the tenant, with its rows exactly when the purge had not deleted them |
| LifecycleSafety.ExtensionAfterQueueing | subsystems/dashboard/app/console/lifecycle.py:223-243 | a queued purge takes effect although the grace period was extended meanwhile, by whatever amount |
| GracePeriod.HeldRun | subsystems/dashboard/app/console/lifecycle.py:132-143 | without a pending purge, and with none asked for before the grace period ends, a cancelled tenant stays cancelled until it is reactivated |
| GracePeriod.PendingPurgeRuns | subsystems/dashboard/app/console/lifecycle.py:223-267 | with a pending purge there is a run that asks for none, reactivates nothing, and purges the tenant |
| GracePeriod.ExtensionHonouredExactly | subsystems/dashboard/app/console/lifecycle.py:132-143 | an extension of the grace period is honoured in every run that asks for no purge before its new end, unless the tenant is reactivated first, if and only if no purge is queued or at work as it is made |
| LifecycleSafety.AtMostOneActive | subsystems/dashboard/app/console/jobs.py:118-123 | callers that look for an active job first never give a tenant two |
| TenantOutcomes.CancelledByJob | subsystems/dashboard/app/console/lifecycle.py:166-187 | a cancellation by hand closes every tenant in use or suspended but #1, with thirty days of grace from its write |
| TenantOutcomes.ReactivatedByJob | subsystems/dashboard/app/console/lifecycle.py:190-220 | a reactivation opens a suspended tenant at any time and a cancelled one exactly if it starts within the grace period; on trial exactly if trial time is left |
| TenantOutcomes.PurgedByJob | subsystems/dashboard/app/console/lifecycle.py:66-76 | a purge by hand purges exactly a cancelled tenant other than #1 that follows no living subscription |
| TenantOutcomes.RelayJobIsApart | subsystems/dashboard/app/console/jobs.py:134-151 | a relay's job does not touch the tenant's records |
| TenantOutcomes.QueuedExactly | subsystems/dashboard/app/console/tenant_pages.py:243-380 | when the console queues a job |
| TenantOutcomes.NotFollowed | subsystems/dashboard/app/billing.py:449-464 | a sync of a tenant that does not follow Stripe, is #1 or purged changes neither it nor its queue |
| TenantOutcomes.SubscriptionNoted | subsystems/dashboard/app/billing.py:466-475 | the noted status, and past_due_since: the first of a run of past-due syncs |
| TenantOutcomes.CanceledCloses | subsystems/dashboard/app/billing.py:504-507 | a canceled subscription of a tenant in use or suspended with an idle queue ends, through its job, in cancelled with thirty days of grace |
| TenantOutcomes.CanceledWaits | subsystems/dashboard/app/billing.py:504-507 | while another job waits or is at work, or for any other tenant, it changes neither tenant nor queue |
| TenantOutcomes.ResubscribedReopens | subsystems/dashboard/app/billing.py:488-493 | a good status reopens a cancelled tenant with an idle queue through a job exactly if sync and start both come within the grace period; after it nothing is queued |
| TenantOutcomes.GoodStatusOpens | subsystems/dashboard/app/billing.py:477-487 | a good status makes a tenant in use or suspended by billing what the subscription says, and leaves a suspension that billing did not make |
| TenantOutcomes.BadStatusSuspends | subsystems/dashboard/app/billing.py:494-503 | unpaid and paused suspend a tenant in use at once, past due only when the days are over, incomplete never; no job is queued |
| TenantOutcomes.PastDueCloses | subsystems/dashboard/app/billing.py:494-499 | of three past-due syncs the last suspends exactly if the configured days since the first are over |
| TenantOutcomes.ExpiredRemoves | subsystems/dashboard/app/billing.py:508-517 | a subscription never paid for undoes a tenant in use and no other |
| TenantOutcomes.ResubscribedExactly | subsystems/dashboard/app/billing.py:288-320 | a paid resubscription replaces the old subscription unless that is another one still good or past due |
| TenantOutcomes.ResubscribedOnce | subsystems/dashboard/app/billing.py:288-320 | a cancelled tenant that resubscribes in time is open after the sync and its job, and a second paid checkout changes nothing |
| TenantOutcomes.TrialEndsExactly | subsystems/dashboard/app/console/lifecycle.py:305-316 | the daily pass suspends exactly the manual trials that are over, tenant #1 apart |
| TenantOutcomes.PurgeQueuedExactly | subsystems/dashboard/app/console/lifecycle.py:285-293 | it queues a purge exactly for a cancelled tenant past its grace period with an idle queue |
| TenantOutcomes.GraceIsThirtyDays | subsystems/dashboard/app/console/lifecycle.py:166-293 | after a cancellation a daily pass queues the purge exactly if thirty days are over |
| TenantOutcomes.ExtendedTrial | subsystems/dashboard/app/console/lifecycle.py:108-123 | an extension ends the trial 1 to 365 days after its end, or after now if it is over; a daily pass suspends exactly from then on |
| TenantOutcomes.ExtendedThenReactivated | subsystems/dashboard/app/console/lifecycle.py:108-123 | a tenant suspended after its trial is back on trial once that is extended and it is reactivated in time |
| TenantOutcomes.ExtendedTooLate | subsystems/dashboard/app/console/lifecycle.py:190-213 | a trial extended after a reactivation has read the row and before it writes is lost |
| TenantOutcomes.Extensions | subsystems/dashboard/app/console/lifecycle.py:108-143 | what cannot be extended, and by how much a grace period is |
| TenantOutcomes.SuspensionByHand | subsystems/dashboard/app/console/lifecycle.py:85-93 | a suspension by hand holds against a good subscription, until a reactivation by hand |
| TenantOutcomes.ActivatedForGood | subsystems/dashboard/app/console/lifecycle.py:96-105 | activating ends the trial: no daily pass suspends the tenant afterwards |
| TenantOutcomes.Refused | subsystems/dashboard/app/console/lifecycle.py:85-105 | from any other status suspending and activating change nothing; the billing mode needs a subscription to follow and is not changed for tenant #1 |
| BillingSync.SyncsConverge | subsystems/dashboard/app/billing.py:393-519 | any delivery of lasting statuses, duplicated, reordered or incomplete, that ends at a decisive one gives the same status and billing mark, and the same trial end if it is a good one, queues no job, and syncing again changes nothing |
| BillingSync.ProvenanceOverRuns | subsystems/dashboard/app/billing.py:449-527 | an open tenant is never marked billing_suspended, and a suspended one is exactly when billing made the suspension |
| BillingSync.ProviderSuspensionHolds | subsystems/dashboard/app/console/lifecycle.py:85-93 | without a reactivation by hand a provider's suspension ends only by way of cancelled |
| BillingSync.PastDueRuns | subsystems/dashboard/app/billing.py:466-475 | past_due_since is the time of a sync since when every sync that reached the tenant saw past_due |
| BillingSync.PastDueSuspension | subsystems/dashboard/app/billing.py:494-503 | a past-due suspension means a run of at least the configured days in which every sync that reached the tenant saw past_due |
| BillingSync.PastDueEverySync | subsystems/dashboard/app/billing.py:494-503 | in a run that does not take the tenant off Stripe, a past-due suspension means that every sync of at least the configured days saw past_due |
| BillingSync.HiddenRecovery | subsystems/dashboard/app/billing.py:449-475 | off Stripe that fails for every tenant in service: a recovery synced while the mode is manual leaves past_due_since standing, and the next past-due sync suspends, although not every sync saw past_due |
| Desks.Desk.ActiveFor | subsystems/dashboard/app/console/jobs.py:118-123 | whether a job waits or is at work |
| Desks.Desk.Suspend | subsystems/dashboard/app/console/lifecycle.py:85-93 | new row, and exactly when it is refused |
| Desks.Desk.Activate | subsystems/dashboard/app/console/lifecycle.py:96-105 | new row, and exactly when it is refused |
| Desks.Desk.ExtendTrial | subsystems/dashboard/app/console/lifecycle.py:108-123 | the trial ends later than now, by 1 to 365 days from its end or from now |
| Desks.Desk.ExtendGrace | subsystems/dashboard/app/console/lifecycle.py:132-143 | the end of the grace period of a cancelled tenant moves by 1 to 365 days |
| Desks.Desk.SetMode | subsystems/dashboard/app/billing.py:819-836 | the mode changes unless tenant #1 or no subscription to follow |
| Desks.Desk.QueueJob | subsystems/dashboard/app/console/tenant_pages.py:243-380 | the job is queued exactly when status, guard and the active-job test allow |
| Desks.Desk.Daily | subsystems/dashboard/app/console/lifecycle.py:285-316 | due purges are queued, then ended manual trials suspended |
| Desks.Desk.SyncSubscription | subsystems/dashboard/app/billing.py:393-434 | subscription row first, then the tenant |
| Desks.Desk.ApplyStatus | subsystems/dashboard/app/billing.py:449-519 | the new records, past_due_since read before it is noted; a canceled subscription queues the cancellation of a tenant in use or suspended exactly with an idle queue |
| Desks.Desk.NotePastDue | subsystems/dashboard/app/billing.py:466-475 | past_due_since is set by the first past-due sync and cleared by any other |
| Desks.Desk.EnqueueIfFree | subsystems/dashboard/app/console/jobs.py:101-123 | one job more exactly if none waits or is at work |
| Desks.Desk.BillingSuspend | subsystems/dashboard/app/billing.py:522-527 | suspended and marked as by billing |
| Desks.Desk.StartJob | subsystems/dashboard/app/console/jobs.py:134-151 | the first waiting job starts with the row as it is, or fails its own test |
| Desks.Desk.JobWrites | subsystems/dashboard/app/console/lifecycle.py:166-280 | the final write of a cancellation, reactivation or purge |
| Desks.Desk.RunPending | subsystems/dashboard/app/console/jobs.py:154-164 | exactly the jobs that wait, each the first one waiting when its turn comes, and their number; none waits or is at work afterwards |
| Desks.Desk.RecoverInterrupted | subsystems/dashboard/app/console/jobs.py:167-187 | after a restart no job is at work and nothing else has changed |
| Provisioning.PrefixBuilds | subsystems/dashboard/app/console/tenants.py:270-350 | what the first k effects of a creation come to, for every k |
| Provisioning.CreationCompletes | subsystems/dashboard/app/console/tenants.py:270-376 | a creation that is not stopped leaves every record, file, container, vhost and certificate of the tenant in place, and changes nothing else |
| Provisioning.UndoSparesOthers | subsystems/dashboard/app/console/tenants.py:216-255 | an undo touches nothing of another tenant, and nothing at all for tenant #1 |
| Provisioning.StackTakenDown | subsystems/dashboard/app/console/tenants.py:230-234 | containers are taken down exactly if the helper manages it and still finds compose file, relay row and a tenant not purged |
| Provisioning.ConsoleCreationUndone | subsystems/dashboard/app/console/tenants.py:216-255 | a console creation stopped anywhere and undone, however the helper fares: the slug is free again, and the state is as before, but for one tenant id and at most one port block marked unused, exactly when the helper commands needed by then succeed, deletion of the relay's data only if the dashboard cannot delete it itself |
| Provisioning.SignupUndone | subsystems/dashboard/app/console/tenants.py:216-255 | the same for a sign-up at every stop before the Stripe link; its slug is free for itself and reserved from others |
| Provisioning.UndoCompletes | subsystems/dashboard/app/console/tenants.py:216-255 | in any state and however the helper fares, undo gets rid of the tenant exactly when no sign-up refers to it and no sign-in handoff to one of its users; with a handoff its users, its other rows and the block's note stay; domains and relay row go in any case |
| Provisioning.LinkedSignupSticks | subsystems/dashboard/app/billing.py:248-271 | a sign-up that fails after the link keeps its tenant row, and its slug is not even free for itself |
| Provisioning.UndoIdempotent | subsystems/dashboard/app/console/tenants.py:216-255 | undoing again with the same outcome of the helper changes nothing, from any state |
| Provisioning.RetryCompletes | subsystems/dashboard/app/console/tenants.py:216-255 | after an undo in which the helper failed, another one reaches what a single one would have, if and only if the vhost and certificate went the first time or there were none, and so did the containers or the helper could not have taken them down anyway |
| Provisioning.UnpublishIsNotRetried | subsystems/dashboard/app/console/tenants.py:222-228 | a vhost the helper failed to remove is not looked at by a second undo, whatever else the first one managed |
| Provisioning.DownIsNotRetried | subsystems/provisioning/rdf_helper.py:541-565 | containers the helper failed to take down are not taken down by a second undo, whatever else the first one managed: the relay row that the helper asks for is deleted |
| Purging.PurgePrefix | subsystems/dashboard/app/console/lifecycle.py:223-267 | what the first k steps of a purge come to, for every k |
| Purging.RunReaches | subsystems/dashboard/app/console/lifecycle.py:223-267 | how far a purge gets before a step raises |
| Purging.PurgeCompletes | subsystems/dashboard/app/console/lifecycle.py:223-267 | the helper doing its part, a purge reaches purged exactly when the helper knows the stack, if there is one, and no sign-in handoff refers to a user of the tenant; otherwise the rows stay as they are |
| Purging.PurgedIsEmpty | subsystems/dashboard/app/console/lifecycle.py:223-267 | after a purge that reaches its end the purged row with its slug and the port block are all that is left, and nothing of another tenant is touched |
| Purging.PurgeResumes | subsystems/dashboard/app/console/lifecycle.py:223-267 | a purge stopped anywhere, or by a step that raises, and run again ends exactly as one that was not stopped |
| Provisioners.Provisioner.UndoCreation | subsystems/dashboard/app/console/tenants.py:216-255 | the whole new state, exactly when the database refuses it, and when problems are reported |
| Provisioners.Provisioner.CreateTenant | subsystems/dashboard/app/console/tenants.py:270-376 | created with everything in place; or stopped after any number of effects, all included, and undone: refused by the database, or the slug free and all as before exactly when the helper did what was needed |
| Provisioners.Provisioner.PurgeNow | subsystems/dashboard/app/console/lifecycle.py:223-267 | allowed exactly for a cancelled or purged tenant other than #1 without a live subscription; then the steps up to the stop or the first that raises, after which it may be run again; done means purged |
| Pricing.TierOf | subsystems/dashboard/app/billing.py:335-336 | the tier holding a unit is the first one that does |
| Pricing.TierRun | subsystems/dashboard/app/billing.py:337-344 | the units of one tier cost unit price times their number plus the flat amount once |
| Pricing.GraduatedAmount | subsystems/dashboard/app/billing.py:337-345 | for ascending tiers the loop equals the sum over units 1..qty of the price of each unit's tier plus the flat amount of each tier reached |
| Pricing.ItemAmount | subsystems/dashboard/app/billing.py:328-345 | per-unit, graduated and volume prices; volume by its one-tier definition, the last tier past the end and nothing without tiers |
| Pricing.ChargeGrows | subsystems/dashboard/app/billing.py:337-345 | graduated amounts are never negative and never fall with quantity when prices are not negative |
| Pricing.VolumeNeverFallsExactly | subsystems/dashboard/app/billing.py:335-336 | with non-negative prices and strictly ascending tiers, volume amounts never fall with quantity if and only if no boundary between two tiers drops |
| Pricing.VolumeCanDrop | subsystems/dashboard/app/billing.py:335-336 | an instance where eleven units cost less than ten |
| Pricing.PerUnitAdds | subsystems/dashboard/app/billing.py:328-332 | per-unit amounts add up |
| Pricing.IncludedIsMost | subsystems/dashboard/app/plans.py:80-89 | the announced quantity is the most that is free: with a free first tier and a priced next one a quantity costs nothing exactly up to it |
| Pricing.IncludedIsFree | subsystems/dashboard/app/plans.py:80-89 | nothing is charged up to the announced included quantity |
| Pricing.BeyondIncluded | subsystems/dashboard/app/plans.py:80-89 | what is charged past it, as announced: the second tier's price for every further unit in it |
| Metering.PeakIsLargest | subsystems/dashboard/app/billing_usage.py:138-151 | a day's peak is one of its samples and none is larger |
| Metering.InvRun | subsystems/dashboard/app/billing_usage.py:138-195 | under lost answers, refusals and stops anywhere: each row is the largest sample of its day, the meter has counted that value and only for finished days, a reported row has been counted, tenant #1 never |
| Metering.CountedStays | subsystems/dashboard/app/billing_usage.py:160-195 | what was counted is never changed or repeated, and a finished day's peak no longer moves |
| Metering.BillIsExact | subsystems/dashboard/app/billing_usage.py:160-195 | device-days billed never exceed the daily peaks, and equal them once all rows are reported |
| Metering.LateSampleAgrees | subsystems/dashboard/app/billing_usage.py:138-151 | a sample for a day already counted never changes the bill, so row and bill agree exactly when it is no larger than the counted value |
| Metering.ClockBackLosesPeak | subsystems/dashboard/app/billing_usage.py:138-151 | an instance of a higher late sample that is never billed |
| Metering.SentExactly | subsystems/dashboard/app/billing_usage.py:180-194 | what each kind of answer does to a row and to the meter |
| Metering.OfferedUntilAnswered | subsystems/dashboard/app/billing_usage.py:160-195 | however often answers are lost or the process stops, the first answer that comes through marks the row, counted once at its value |
| Metering.IdentifiersDistinct | subsystems/dashboard/app/billing_usage.py:182-186 | different tenants or days never share a meter identifier |
| Usage.SamplesExactly | subsystems/dashboard/app/billing_usage.py:138-151 | a pass samples exactly the metered subscribers, each with its device count |
| Usage.MarkedStays | subsystems/dashboard/app/billing_usage.py:191-193 | an answered or already known report stays marked |
| Usage.CleanPassReports | subsystems/dashboard/app/billing_usage.py:160-195 | after a pass with good answers every finished row of a metered tenant is reported |
| Usage.UsageBooks.RecordPeaks | subsystems/dashboard/app/billing_usage.py:138-151 | one upsert of the larger value for each metered subscriber, in order |
| Usage.UsageBooks.ReportRow | subsystems/dashboard/app/billing_usage.py:175-194 | the event, then the mark, for each kind of answer |
| Usage.UsageBooks.ReportMeters | subsystems/dashboard/app/billing_usage.py:160-195 | offers the due rows in order until the end or a stop, and counts the rows it marked |
| Usage.UsageBooks.FetchRows | subsystems/dashboard/app/billing_usage.py:163-168 | exactly the due rows, each once |
| Sessions.NextKeeps | subsystems/dashboard/app/routes/client_api.py:166-239 | every step keeps: of two rows of one connection the older is closed before the younger starts, times in order, an ended row ends where it was last seen |
| Sessions.NeverTwice | subsystems/dashboard/app/routes/client_api.py:166-317 | over any mix of heartbeats, audit reports, sweeps and deletions no two sessions of a connection run at one instant or are both open |
| Sessions.HeartbeatExact | subsystems/dashboard/app/routes/client_api.py:166-194 | after a heartbeat the open connections of the device equal those reported, all seen now, and other devices' rows are untouched |
| Sessions.HeartbeatEnds | subsystems/dashboard/app/routes/client_api.py:176-182 | which rows a heartbeat ends, and when; it reopens none |
| Sessions.RetryAddsNothing | subsystems/dashboard/app/routes/client_api.py:205-222 | an audit report repeated within the retry window adds no row, also if the session was closed meanwhile |
| Sessions.NewReportExactly | subsystems/dashboard/app/routes/client_api.py:205-222 | a new report opens exactly one row, starting now, if every row of the connection has ended and started at least five minutes ago, and changes nothing otherwise |
| Sessions.HeartbeatOpens | subsystems/dashboard/app/routes/client_api.py:183-194 | a connection reported without an open session gets exactly one row, which starts now |
| Sessions.ForgottenExactly | subsystems/dashboard/app/routes/devices.py:251 | deleting a device deletes its sessions and no other |
| Sessions.LateRetryIsEmpty | subsystems/dashboard/app/routes/client_api.py:205-222 | a later repetition opens a row that the next heartbeat ends at its start |
| Sessions.CloseExact | subsystems/dashboard/app/routes/client_api.py:290-298 | a close report ends the open session now, leaves none open for the connection and changes no other row |
| Sessions.SweepExact | subsystems/dashboard/app/routes/client_api.py:225-239 | the sweeper ends exactly the open sessions not confirmed for more than two minutes |
| SessionLogs.SessionLog.OpenRows | subsystems/dashboard/app/routes/client_api.py:169-173 | the dict of open rows by connection |
| SessionLogs.SessionLog.Reconcile | subsystems/dashboard/app/routes/client_api.py:166-194 | the whole new log of a heartbeat, and the open connections equal to those reported |
| SessionLogs.SessionLog.CloseGone | subsystems/dashboard/app/routes/client_api.py:176-182 | the first loop ends the rows of connections gone |
| SessionLogs.SessionLog.TouchOrOpen | subsystems/dashboard/app/routes/client_api.py:183-194 | the second loop touches or inserts, one row for each new connection |
| SessionLogs.SessionLog.Find | subsystems/dashboard/app/routes/client_api.py:205-217 | the open row, else the youngest started within the window, else none |
| SessionLogs.SessionLog.ReportOpen | subsystems/dashboard/app/routes/client_api.py:299-305 | a row is inserted exactly if none is known |
| SessionLogs.SessionLog.ReportClose | subsystems/dashboard/app/routes/client_api.py:290-298 | the open row ends now, a closed one is left alone |
| SessionLogs.SessionLog.SweepStale | subsystems/dashboard/app/routes/client_api.py:225-239 | the new log and the number of sessions closed |
| SessionTime.TimeCounts | subsystems/dashboard/app/console/maintenance.py:38-46 | the query's sum is the number of session seconds in the window; its row filter loses none |
| SessionTime.TimeAdds | subsystems/dashboard/app/console/maintenance.py:38-46 | consecutive windows add up to their union |
| SessionTime.DaysCountOnce | subsystems/dashboard/app/console/maintenance.py:49-70 | daily windows together count every second of every session once |
| SessionTime.RoundingDrift | subsystems/dashboard/app/console/maintenance.py:46 | rounded days differ from the real total by at most half a minute each |
| SessionTime.RecordedRow | subsystems/dashboard/app/console/maintenance.py:55-67 | which rows one recording writes, and which it leaves |
| SessionTime.RowIsLastPass | subsystems/dashboard/app/console/maintenance.py:88-108 | a day's row stays what the day's last pass computed |
| SessionTime.FillsYesterday | subsystems/dashboard/app/console/maintenance.py:88-108 | a pass after a day without any row gives each live tenant its row of that day; a day with a row it leaves as it is |
| SessionTime.MissedDayIsFilled | subsystems/dashboard/app/console/maintenance.py:88-108 | a day on which no pass ran has, after the first pass of the next day, a row of its whole session time for each tenant live then, and no later pass changes it |
| SessionTime.MinutesExactly | subsystems/dashboard/app/console/maintenance.py:46 | the nearest number of minutes, the even one if two are as near |
| SessionTime.SeenSoFar | subsystems/dashboard/app/console/maintenance.py:38-46 | what is counted at a time is the session time up to it, and what is still counted of sessions over by then |
| SessionTime.LastHourIsLost | subsystems/dashboard/app/console/maintenance.py:88-108 | it misses exactly what ran between that pass and midnight, and keeps what the pass counted of sessions whose end was written only later; its seconds are the whole day's if and only if the two are equal |
| SessionTime.HalfTheHour | subsystems/dashboard/app/console/maintenance.py:88-108 | an instance: the last half hour before midnight missing for good |
| SessionTime.TwoMinutesMore | subsystems/dashboard/app/console/maintenance.py:88-108 | an instance: two minutes too many, of a session the sweeper ends after the fact |
| SessionTime.UsageTable.RecordUsage | subsystems/dashboard/app/console/maintenance.py:49-70 | one row a live tenant, and their number |
| SessionTime.UsageTable.RunOnce | subsystems/dashboard/app/console/maintenance.py:88-94 | yesterday only if it has no row, then today |
| PortBlocks.MaxFrom | subsystems/dashboard/app/console/relays.py:90 | the highest block at or above the base |
| PortBlocks.FivePorts | subsystems/dashboard/app/tenancy.py:54-61 | a relay listens on the five ports of its block, and its row gives the block back |
| PortBlocks.HelperAcceptsExactly | subsystems/provisioning/rdf_helper.py:581-583 | the helper accepts a block's relay exactly when all five ports lie in the range |
| PortBlocks.NeverReused | subsystems/dashboard/app/console/relays.py:86-96 | under any settings the new block is new, and the helper accepts it |
| PortBlocks.OverlapsExactly | subsystems/dashboard/app/console/relays.py:86-96 | its ports meet an older block's exactly when the base was raised to fewer than five ports past one, with no block beyond |
| PortBlocks.FreeIsExact | subsystems/dashboard/app/console/relays.py:99-104 | free_blocks is the number of allocations that succeed before one fails |
| PortBlocks.RelaysStayApart | subsystems/dashboard/app/console/relays.py:86-96 | with fixed settings past 21119 all relays, tenant #1's included, have disjoint ports in the range |
| PortBlocks.BlocksAreTens | subsystems/dashboard/app/console/relays.py:86-104 | with fixed settings the blocks come ten ports apart from the base on, and the n-th is given out exactly if its five ports fit in the range |
| PortBlocks.RaisedBaseOverlaps | subsystems/dashboard/app/console/relays.py:86-96 | a raised base that makes two relays share ports |
| PortBlocks.BlockTable.AllocateBlock | subsystems/dashboard/app/console/relays.py:86-96 | the block and the new table, base ports unique; or the error and no change |
| PortBlocks.BlockTable.CountFree | subsystems/dashboard/app/console/relays.py:99-104 | k further allocations succeed exactly when k is at most the result |
| RateLimit.WaitIsLeast | subsystems/dashboard/app/ratelimit.py:57 | as many whole seconds as are needed until the lock ends, and no more |
| RateLimit.WaitsExactly | subsystems/dashboard/app/ratelimit.py:52-57 | a wait is left for a key exactly if it locked less than 15 minutes ago; clearing does not lift a lock |
| RateLimit.BelowLimit | subsystems/dashboard/app/ratelimit.py:60-76 | between locks a key's failures in the window stay below its limit |
| RateLimit.LocksAtTheLimit | subsystems/dashboard/app/ratelimit.py:69-76 | a key locks exactly with the failure that reaches its limit in the window since the last lock or clear |
| RateLimit.LocksExactly | subsystems/dashboard/app/ratelimit.py:60-76 | without counting: a failure locks an email for 900 seconds exactly when the fourth last failure before it since the last lock or clear is less than 15 minutes old, an IP when the nineteenth last is |
| RateLimit.NoBurstNoLock | subsystems/dashboard/app/ratelimit.py:60-76 | a key below its limit in every window of its whole history is never locked |
| Limiters.PruneStands | subsystems/dashboard/app/ratelimit.py:44-49 | dropping ended locks and spent queues is not observable |
| Limiters.Limiter.Later | subsystems/dashboard/app/ratelimit.py:52-57 | what the limiter stores goes on standing for the same history as time passes |
| Limiters.Limiter.Prune | subsystems/dashboard/app/ratelimit.py:44-49 | ended locks go; queues only past the bound on keys |
| Limiters.Limiter.PopOld | subsystems/dashboard/app/ratelimit.py:67-68 | the queue without the failures that left the window |
| Limiters.Limiter.Count | subsystems/dashboard/app/ratelimit.py:65-75 | one key's count equals the unbounded history's, and says when it locks |
| Limiters.Limiter.RecordFailure | subsystems/dashboard/app/ratelimit.py:60-76 | returns exactly the keys that the unbounded history locks now |
| Limiters.Limiter.LockedSeconds | subsystems/dashboard/app/ratelimit.py:52-57 | no less than the wait of either key, and equal to one of them or none; none exactly if neither key locked less than 15 minutes ago |
| Limiters.LongestIsLongest | subsystems/dashboard/app/ratelimit.py:52-57 | no key of a list waits longer than its longest wait, which is that of one of them |
| Limiters.Limiter.ClearEmail | subsystems/dashboard/app/ratelimit.py:79-81 | forgets failures, keeps a lock |
| Dns.PassesExactly | subsystems/provisioning/rdf_helper.py:805-866 | one resolver passes by CNAME exactly if both address lookups succeed and one to ten CNAMEs lead to the tenant's host; by TXT exactly if they succeed, no CNAME of the domain is in either answer, the A answer has only this server's address and at least once, the AAAA answer none but this server's, none is a CDN's, and the text answer shows the non-empty code |
| Dns.CnameCodes | subsystems/provisioning/rdf_helper.py:813-840 | what a domain with a CNAME of its own is told |
| Dns.AddressCodes | subsystems/provisioning/rdf_helper.py:841-866 | what one without is told: the first thing that is wrong with its addresses or its code |
| Dns.CnameIsLast | subsystems/provisioning/rdf_helper.py:814-815 | the CNAME of a name is the last record it owns |
| Dns.ReachesLeads | subsystems/provisioning/rdf_helper.py:816-822 | a host within the walk is at the end of a chain of one to ten such records |
| Dns.CaaSetHolds | subsystems/provisioning/rdf_helper.py:880-883 | the set of a name holds the CAA records of its answer and no other |
| Dns.CaaAllowsExactly | subsystems/provisioning/rdf_helper.py:873-897 | the climb permits exactly if all lookups it makes succeed and the standard permits, or only the top-level label forbids |
| Dns.AcceptedExactly | subsystems/provisioning/rdf_helper.py:900-920 | all resolvers pass by one method and see no CAA problem exactly if all their answers say so |
| Dns.CaaLooksUp | subsystems/provisioning/rdf_helper.py:873-884 | the climb reports a failed lookup exactly when one that it makes fails |
| Dns.CaaAgreesWithTheStandard | subsystems/provisioning/rdf_helper.py:873-897 | when the lookups it makes succeed, the CAA climb agrees with sections 3 and 4.2 of RFC 8659 unless the only set belongs to the top-level label and forbids issuance |
| DnsCheck.CnameTable | subsystems/provisioning/rdf_helper.py:814-815 | the last CNAME record of each owner |
| DnsCheck.Follow | subsystems/provisioning/rdf_helper.py:816-819 | the first ten hops, fewer only where the chain ends; it terminates on cycles |
| DnsCheck.ChainIsReach | subsystems/provisioning/rdf_helper.py:822-824 | a target is in the walked chain exactly when it is reached within ten hops |
| DnsCheck.CheckOne | subsystems/provisioning/rdf_helper.py:805-866 | passes by a method exactly if the resolver's answers do; otherwise the code they call for |
| DnsCheck.Issuers | subsystems/provisioning/rdf_helper.py:887-893 | the set permits exactly when no issuer is named or ours is |
| DnsCheck.CheckCaa | subsystems/provisioning/rdf_helper.py:873-897 | the verdict of the climb, lookup failures included |
| DnsCheck.Vote | subsystems/provisioning/rdf_helper.py:906-917 | the common result, or none if two differ |
| DnsCheck.CheckDomain | subsystems/provisioning/rdf_helper.py:900-920 | accepted by a method exactly when the answers of all resolvers pass by it and all CAA climbs permit; otherwise the shared code, disagreement, or the first CAA problem |

## Left out

- HTTP routes, templates, email, PDF guides and the file tree: presentation and input/output. Building guides is a step that can fail, and a set of tenants whose guides are due.
- Stripe, certbot, nginx, docker and dig calls: each is an outcome chosen from outside. One DNS check sees one fixed answer to each question.
- Functions are steps at one instant, except where a model splits them: cache lookups, jobs (start, write, end), creation, purge, certificate attempts and meter events. The insert of a tenant and the save of its id in the job are one step.
- `domains.add` reads the tenant's status from the request, loaded up to 30 seconds before; the model reads the table.
- `Domains`: `verify_token`, `created_by`, `remove_reason`'s text and the certificate's expiry are not fields of the model; the syntax of a domain name is a parameter of a claim.
- Certificate attempts cut off by a restart are counted apart, because the code does not count them as failures.
- Restoring a backup under a running dashboard: outside the steps of the cache.
- `DomainHistory.NewClaimSettles` counts the worker's visits; that the worker's thread runs at all is not modelled.
- `billing.receive` and its table of processed events, `checkout_completed`, `reconcile`'s list of differences, cards, coupons, plan changes and `mrr`: they lead to syncs, which are modelled at every status in any order, or only compute a figure.
- Stripe test clocks: one clock that never goes back is assumed for a tenant.
- `billing_usage.push_quantities`: licensed quantities are sent to Stripe as absolute values; only the metered days need counting once.
- `Metering`: days are numbers; the ISO date is compared as text in the query, which is the same order. The meter is taken to drop a repeated identifier for as long as it is offered.
- The file audit of sessions and the names of peers: they change fields that the session log's order does not depend on.
- `SessionTime.Minutes`: the query adds fractions of Julian days in floating point; the model adds seconds, then rounds a half to the even minute as Python does.
- `LifecycleSafety.AtMostOneActive`: assumes the test for an active job and the insert are one step, as they are on the single worker and the console's thread taken in turn.
- `Pricing.GraduatedAmount`: for ascending tiers, which Stripe guarantees; what the loop computes for others is not stated.
- `Directories.Directory.ResolveHost`: the class caches the tenant and its status only; the other columns and the other two lookups are in `HostCache.CachedAnswersAreExact`.
- `Purging.PurgeCompletes`: the helper's commands are taken to succeed; one that fails raises, and the purge can be run again.
- `HostCache.CachedAnswersAreExact`: each function that writes a tenant or relay row is one step that ends with its invalidation; start-up migrations are not steps.
- `RateLimit`: lower case and stripping of an email are done before; the lock around the dictionaries is not modelled.
- `Dns`: splitting of names into labels, quoting of TXT strings, parsing of CAA values and of addresses are done before; names and addresses are in lower case. A CAA property with an unknown critical flag is not treated apart, as in the code.
- Reports, dynamic groups, operating-system lifecycle lookup, installers, backups and `allocate_tenant.py`: mappings and files, without the kind of state modelled here.
- Passwords, passkeys, cookies and tokens: library work.

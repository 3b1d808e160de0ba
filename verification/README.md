# The VPN panel and its two stores, as a verified model

The panel keeps its facts in two places. The router holds VPN users and their profile rows; the panel's database
holds managers, one row of metadata per user, and a ledger of profile activations that is settled manager by manager.
Every request reads one store and writes the other, and no transaction covers both. This project states what those
requests keep true of the two stores together, over every run, and proves it. Where a rule fails, a lemma gives the
state in which it fails and another gives the exact condition under which it holds.

## How it is built

A value-level meaning comes first and the program's own form is proved against it.

- `router.dfy`, `tables.dfy`, `steps.dfy` give the meaning: one function per router call, per SQL statement and per
  request. A `World` is the router, the database, the clock and the configuration. `Step` runs one request, `Run` a
  list of them. Each call that leaves the process can fail without effect; the request's event says which ones do.
- `fake.dfy`, `cache.dfy`, `database.dfy`, `panel.dfy` are the objects with mutable fields: the reference router
  client, the caching client, the store, and the panel whose handlers call them in order. Each method's contract is
  its meaning; the loops carry their invariants.
- `acceptance.dfy` says which requests are accepted, told from the state before them and the calls that fail; every
  guard below is stated in these terms.
- `agreement.dfy`, `frozen.dfy`, `quotaruns.dfy`, `saga.dfy`, `outcomes.dfy`, `heal.dfy`, `settlement.dfy` hold the
  theorems over steps and runs; `witnesses.dfy` the counterexamples and the start of every run.
- `owner.dfy`, `quota.dfy`, `overlay.dfy`, `ovpn.dfy`, `pages.dfy`, `session.dfy` are the self-contained cores: name
  and comment ownership, usage sums, the renewal overlay, the profile rewriter, page windows and the front end's token
  refresh. `text.dfy`, `totals.dfy` and `models.dfy` serve the others.

## Main results

1. **The ledger follows the router** (`Agreement.StepAgrees`, `LedgerFollowsRouter`). A user's newest unsettled row
   holds the router's shared users after a step if and only if a condition on the state before it holds: only a patch
   whose ledger write is lost or not positive, and a creation that cannot take its user back over stale rows, break it.
   A read then heals nothing exactly when every row it may take for current follows the router
   (`Heal.HealQuietExactly`); agreement alone is not enough when rows are hidden or tied (`Witnesses.TieHealsOldRow`).
2. **Settled rows are history** (`Frozen.SettledRowsFrozen`, `StepOrder`, `SettledRowsFirst`). They never change, and
   in every scope they precede the unsettled ones, if and only if patches that move a user to another scope fit.
3. **Quotas hold over whole runs** (`QuotaRuns.StepQuota`, `QuotaNeverExceeded`), again with the exact guard per step.
4. **A failed creation is undone** (`Saga.FailedCreationUndone`), and nobody else's user is touched whatever fails.
   Deleting a user undoes its creation (`Outcomes.DeleteUndoesCreate`). What each request leaves behind is stated on the
   two stores themselves (`Saga.CreationOutcome`, `Outcomes.PatchedUser`, `PatchedLedger`, `RenewalOutcome`).
5. **The cache is transparent** (`Cache.RunScript`) for every script and every movement of the clock; amid outside
   writes its user answers are never staler than the time to live (`Cache.RunAmidOutsideWrites`).
6. **Healing on read** (`Heal.PickIsNewest`, `HealedValues`, `HealTwice`, `SummaryIsPostState`) with the exact
   condition under which the row treated as current is the newest one.
7. **Settling is an algebra** (`Settlement.SettleDecides`, `SettleTwice`, `SettleAgain`, `SettleConserves`).
8. **Ownership** (`Owner.MatcherIsElementTest`, `CreatedNamesResolve`, `PatchPreservesOwner`, `OrderMattersExactly`).
9. **Single-flight refresh** (`Session.SingleFlight`, `TokensAfter`, `NoRetryLoop`, `OpenRequestsProgress`).
10. **Profile rewriting and paging** (`Ovpn.PersonalisedLines`, `Pages.WindowExact`, `Pages.PagesCover`).

## Where the code and its documentation differ

The model follows the code.

- `docs/business-rules.md:120` makes a later assignment subject to the quota. The code does not check it: renewing an
  expired user can exceed the quota (`Witnesses.RenewalExceedsQuota`), exactly when `AssignGuard` fails
  (`QuotaRuns.AssignQuota`). Re-enabling a user is not checked either (`Witnesses.ReenablingExceedsQuota`), nor is
  creating one for nobody or creating a manager (`Witnesses.OrphanExceedsQuota`, `NewManagerExceedsQuota`).
- `docs/business-rules.md:31` lets equal slugs pass the overlap test; the code rejects them as well.
- `docs/business-rules.md:175` lets every read follow the router for a user's newest unsettled row. An upper bound in
  the filter, or two rows of one instant, makes the overlay rewrite an older row (`Witnesses.UpperBoundHealsOldRow`,
  `Witnesses.TieHealsOldRow`); `Heal.PickIsNewest` says exactly when it does not.
- `docs/business-rules.md:263` gives the cached profile rows the same time to live as the user list. One stamp serves
  all entries: an entry keeps to the time to live exactly while the stamp is not later than its own fetch
  (`Cache.EntryTtl`), and a client can be left serving an older one (`Cache.ProfileEntryOutlivesTtl`). The user list
  does keep to it.
- `docs/data-model.md:84` has a renewal store the end time found after the assignment. The code stores the end of the
  first row still active: a renewal made before the old profile ends stores the old row's end
  (`Witnesses.EarlyRenewalStoresOldEnd`; `Outcomes.RenewalStoresNewEnd` says exactly when it does not).
- A patch to zero connections is accepted by the router and rejected by the ledger's CHECK
  (`Witnesses.PatchToZeroBreaksAgreement`).
- Nothing rejects a bar in a slug; the comment matcher is the intended test exactly for slugs without one
  (`Owner.MatcherIsElementTest`, `Owner.BarBreaksPatchedComment`).

## Model

| member | source | states |
|---|---|---|
| Acceptance.CreationShape | backend/internal/app/vpn_service.go:147-184 | a creation either refuses without effect, when a check fails or the name is taken, or adds a free name and goes on to the common tail |
| Acceptance.TailAccepted | backend/internal/app/vpn_service.go:186-234 | the tail succeeds if and only if its calls go through, the name has no row and, when a profile is assigned, the requested one, else the default, is defined |
| Acceptance.CreationAccepted | backend/internal/app/vpn_service.go:147-303 | a creation succeeds if and only if its checks pass and its tail does |
| Acceptance.CreationRefusedBecause | backend/internal/app/vpn_service.go:147-184 | a creation is refused for a taken name, for the quota, or for want of a manager in exactly these states |
| Acceptance.PatchAccepted | backend/internal/app/vpn_service.go:345-416 | a patch succeeds if and only if no check fails and the router and metadata writes go through; a lost ledger write goes unnoticed |
| Acceptance.PatchShape | backend/internal/app/vpn_service.go:345-402 | a patch either stops at a failed check without effect or goes on to its writes |
| Acceptance.PatchRefusedBecause | backend/internal/app/vpn_service.go:367-401 | a patch is refused for the quota, for want of an owner, or for naming another manager in exactly these states |
| Acceptance.AssignAccepted | backend/internal/app/vpn_service.go:423-437 | a renewal succeeds if and only if the user is on the router and owned, the profile exists, and the two router calls go through; a lost activation goes unnoticed |
| Acceptance.ManagerAccepted | backend/internal/app/admin_handlers.go:94-136 | a manager is created if and only if its quota is positive, no listed slug overlaps, and neither name nor slug is taken regardless of case |
| Agreement.StepAgrees | backend/internal/app/vpn_service.go:345-441 | for every panel step from an agreeing world: each router user's newest unsettled row holds the router's shared users afterwards if and only if the step's guard, a condition on the state before it, holds |
| Agreement.LedgerFollowsRouter | backend/internal/app/vpn_service.go:402-407 | over every guarded run the ledger follows the router |
| Agreement.OrderlyRunsAgree | backend/internal/store/store.go:459-468 | runs whose patches are positive and reach the ledger and whose compensating calls succeed keep agreement throughout |
| Agreement.CreateAgrees | backend/internal/app/vpn_service.go:147-303 | a creation keeps agreement if and only if it stops before the router, can take its user back, or meets no newest row of another value left by an earlier user of the name |
| Agreement.FinishCreateAgrees | backend/internal/app/vpn_service.go:186-234 | the tail of a creation, with every combination of failing calls, keeps agreement if and only if the compensating call works or no stale row disagrees |
| Agreement.CreatedAgrees | backend/internal/app/vpn_service.go:200-227 | a completed creation keeps agreement |
| Agreement.RefusedLedger | backend/internal/app/vpn_service.go:186-222 | a refused creation leaves the activations and the other rows of metadata alone; the router keeps the new user exactly when its removal failed |
| Agreement.PatchAgrees | backend/internal/app/vpn_service.go:345-416 | a patch keeps agreement if and only if its value reaches the ledger or there is no unsettled row it should have changed |
| Agreement.AssignAgrees | backend/internal/app/vpn_service.go:423-437 | a renewal, whether its activation is recorded or lost, keeps agreement |
| Agreement.DeleteAgrees | backend/internal/app/vpn_service.go:418-421 | deletion keeps agreement even when the router or the database refuses its half |
| Agreement.SettleAgrees | backend/internal/store/store.go:664-692 | settling keeps agreement |
| Agreement.SettleNewest | backend/internal/store/store.go:682-687 | a settlement that leaves a user any unsettled row leaves its newest row newest and unchanged |
| Agreement.HealAgrees | backend/internal/app/shared_users_sync.go:105-117 | no heal, under any filter, tie-break or lost write, harms a current row |
| Agreement.RecordNewest | backend/internal/app/vpn_service.go:478-503 | a recorded activation is its user's newest row, and the newest rows of others stay |
| Agreement.UpdateNewestNewest | backend/internal/store/store.go:459-468 | the ledger update writes exactly the newest unsettled row of the named user, and only positive values |
| Agreement.NewestUnique | backend/internal/store/store.go:465-465 | the order by instant and then id leaves one newest row |
| Frozen.StepEvolves | backend/internal/store/store.go:435-474 | in every step a settled row stays equal, an unsettled one may change only its shared users and its settlement, and ids are never reused |
| Frozen.SettledRowsFrozen | backend/internal/app/shared_users_sync.go:43-129 | over every run, outside router edits and failures included, a settled row is unchanged while it exists |
| Frozen.StepOrder | backend/internal/app/vpn_service.go:392-409 | a step keeps all settled rows of a scope before all unsettled ones if and only if, should it be a patch that goes through and moves a user between scopes, the moved rows fit the target's |
| Frozen.SettledRowsFirst | backend/internal/store/store.go:664-692 | the order holds in every scope over every run of such steps |
| Frozen.MoveNeedsInterleaving | backend/internal/store/store.go:396-414 | writing another manager id keeps the order exactly when the moved rows and the target's rows interleave |
| Frozen.PatchOrder | backend/internal/app/vpn_service.go:345-416 | the same condition for a whole patch, with its failing calls |
| Frozen.ClosedBeforeOpen | backend/internal/store/store.go:682-687 | what a settlement closes precedes what it leaves open in the scope |
| Frozen.SettleKeepsOrder | backend/internal/store/store.go:664-692 | settling keeps settled rows first in every scope, not only its own |
| Frozen.RecordKeepsOrder | backend/internal/store/store.go:435-445 | an appended activation comes last because the clock does not go back |
| Frozen.RegistryOk | backend/internal/store/schema.sql:6-19 | the registry built from the managers table has distinct, nonzero ids |
| Frozen.SyncRefOk | backend/internal/app/vpn_service.go:392-401 | the manager id an accepted patch writes always names an existing manager |
| QuotaRuns.StepQuota | backend/internal/quota/quota.go:74-97 | with prefix-free slugs, a panel step keeps every manager within quota if and only if its guard, a condition on the state before it, holds |
| QuotaRuns.QuotaNeverExceeded | backend/internal/app/vpn_service.go:166-177 | in every world a guarded run reaches, used(m) does not exceed quota(m) for any manager |
| QuotaRuns.CreateQuota | backend/internal/app/vpn_service.go:147-234 | a manager's creation needs no guard: the check made before the router call covers the usage found after it |
| QuotaRuns.OrphanQuota | backend/internal/app/vpn_service.go:236-303 | creating without an owner is safe exactly when a name that resolves to a manager after all fits that manager's quota |
| QuotaRuns.PatchQuotaSafe | backend/internal/app/vpn_service.go:367-402 | a patch is safe exactly when its value is not negative and re-enabling, or patching with unreadable rows, happens to fit |
| QuotaRuns.PatchUsage | backend/internal/app/vpn_service.go:345-416 | how a patch moves each manager's usage |
| QuotaRuns.AssignQuota | backend/internal/app/vpn_service.go:423-437 | a renewal is safe exactly when the user was disabled, already active, unowned, or fits |
| QuotaRuns.AssignUsage | backend/internal/app/vpn_service.go:423-437 | how a renewal moves each manager's usage |
| QuotaRuns.CreationUsage | backend/internal/app/vpn_service.go:179-234 | a creation adds to its owner the new user's connections if it ends enabled and active, and nothing to anyone else |
| QuotaRuns.ManagerQuota | backend/internal/app/admin_handlers.go:94-136 | creating a manager is safe exactly when the users its slug captures fit its quota |
| QuotaRuns.NewManagerResolve | backend/internal/owner/owner.go:45-57 | a new manager owns exactly the users its slug captures, and no old manager gains any |
| QuotaRuns.QuotaPatchSafe | backend/internal/app/admin_handlers.go:294-305 | changing a quota never leaves the manager over it |
| QuotaRuns.DeleteQuota | backend/internal/app/vpn_service.go:418-421 | deleting never raises anyone's usage over quota |
| QuotaRuns.ActivityExpires | backend/internal/quota/quota.go:11-27 | time only ends activity |
| QuotaRuns.StepSlugs | backend/internal/app/admin_handlers.go:100-108 | slugs stay prefix-free if and only if no overlapping manager passes the other checks, which takes a failed slug listing |
| QuotaRuns.CreatedOwner | backend/internal/app/vpn_service.go:152-164 | with prefix-free slugs a created user resolves to its creator |
| QuotaRuns.PatchedOwner | backend/internal/app/vpn_service.go:350-366 | whatever comment a patch writes, the user resolves as before |
| QuotaRuns.PatchedCommentFixed | backend/internal/app/vpn_service.go:359-366 | patching again writes the same comment |
| Saga.FailedCreationUndone | backend/internal/app/vpn_service.go:179-222 | a creation refused at any point, with working compensation, leaves users, profile rows and all tables as they were |
| Saga.RefusedTail | backend/internal/app/vpn_service.go:186-222 | exactly what is left when compensation fails too: the user unless removed, its row unless deleted, nothing else |
| Saga.CreationSparesOthers | backend/internal/app/vpn_service.go:179-222 | no creation, whatever fails, touches an existing user or its rows; a clash changes nothing |
| Saga.RestoreNeedsNoStrayRows | backend/internal/mikrotik/fake.go:59-100 | without the router's invariant, the undo restores profile rows if and only if none were filed under the new name |
| Saga.LeftBehindExactly | backend/internal/app/vpn_service.go:179-222 | a creation leaves its user behind if and only if it got past the router's add, failed later and could not take the user back; such a user has no profile row |
| Saga.CreationOutcome | backend/internal/app/vpn_service.go:147-303 | a successful creation leaves one new row of metadata and one new router user, both as requested; with a profile, that user's only row is active, of the requested profile, else the default, and ends in 30 days; a recorded activation is the newest row and holds the same profile, value and end |
| Saga.TailOutcome | backend/internal/app/vpn_service.go:186-234 | the same for the tail alone |
| Outcomes.DeleteUndoesCreate | backend/internal/app/vpn_by_name.go:101-110 | deleting a user that was just created, by a manager or for nobody, restores router users, profile rows and all tables |
| Outcomes.DeletionErases | backend/internal/app/vpn_by_name.go:101-110 | deletion by name forgets the user in both stores and nobody else, and is refused only for a name neither store knows |
| Outcomes.DeletionHalves | backend/internal/app/vpn_service.go:418-421 | each half of a deletion happens unless its own call fails, and only the database's failure is reported |
| Outcomes.DeletionByName | backend/internal/app/vpn_by_name.go:101-110 | deleting by name deletes the named row with its user, or without a row the router's user alone |
| Outcomes.AdoptOnce | backend/internal/app/vpn_by_name.go:70-99 | adoption gives a router user one row in its resolved owner's scope; asking again, as anybody, finds that row and changes nothing |
| Outcomes.AdoptExactly | backend/internal/app/vpn_by_name.go:70-99 | adoption succeeds exactly when there is a row already, or the user is found, the asking manager is its resolved owner and the insert goes through; a refusal changes nothing |
| Outcomes.RenewalOutcome | backend/internal/app/vpn_service.go:423-437 | a renewal expires every active row, puts the new one, of 30 days, first, and changes no other user; unless the insert is lost or rejected, the ledger gets a newest row with the router's value and the end of the first active row |
| Outcomes.RenewalStoresNewEnd | backend/internal/app/vpn_service.go:478-486 | the stored end is the new profile's exactly when no earlier row's end lies ahead, or the first such end is the same instant |
| Outcomes.RowRemoval | backend/internal/app/vpn_service.go:439-441 | a profile row is removed exactly when it exists, is not active and the call goes through; nothing else changes |
| Outcomes.ManagerCreated | backend/internal/app/admin_handlers.go:94-136 | a created manager is appended as requested under a new id; an overlap with a listed slug is the answer exactly when one is a prefix of the other |
| Outcomes.ManagerInserted | backend/internal/store/schema.sql:6-19 | the insert goes through exactly for a positive quota and a name and slug unlike all others regardless of case |
| Outcomes.QuotaChanged | backend/internal/app/admin_handlers.go:294-305 | a quota is changed exactly when it is positive and covers the usage; then that manager has it and nothing else changes |
| Outcomes.PatchedUser | backend/internal/app/vpn_service.go:402-404 | an accepted patch leaves the requested fields, the old ones otherwise, and "panel=" with the owner's slug for a comment, the old comment if nobody owns the user; same owner, same rows, and every other user as it was |
| Outcomes.PatchedUserUnflagged | backend/internal/app/vpn_service.go:359-366 | with prefix-free slugs and an owner whose slug has no bar, no accepted patch leaves its user flagged |
| Outcomes.PatchedLedger | backend/internal/app/vpn_service.go:405-407 | the user's newest unsettled row takes the requested value when it is positive and the write goes through; every other row, and that one otherwise, stays equal |
| Outcomes.PatchedMeta | backend/internal/app/vpn_service.go:392-410 | contact, notes and billing are as requested, with the resolved owner for a manager id, and the old ones otherwise; when the write fails only the metadata stays as it was, and the failure is reported |
| Heal.PickIsNewest | backend/internal/app/shared_users_sync.go:28-41 | the overlay's current row is the newest unsettled one, however ties are listed, if and only if that row is visible and untied |
| Heal.NoUpperBoundSeesNewest | backend/internal/store/store.go:626-658 | without an upper bound the newest unsettled row of a listed user is visible |
| Heal.HealedLedger | backend/internal/app/shared_users_sync.go:105-117 | exactly the listed users' current rows take the live value, every other row is untouched |
| Heal.HealedValues | backend/internal/app/shared_users_sync.go:105-117 | from any world, with no lost write: a picked row whose user is on the router shows the router's value and holds it when it is positive; every other row shows and holds what was stored |
| Heal.CurrentRowsHealed | backend/internal/app/shared_users_sync.go:21-41 | the same of every listed user's newest unsettled row, when those rows are visible and untied |
| Heal.HealSpares | backend/internal/app/shared_users_sync.go:81-99 | a listing of settled rows or an unreachable router leaves the ledger alone, and a lost write or a settlement its row |
| Heal.HealStaysInListing | backend/internal/store/store.go:626-658 | a heal leaves alone what its listing leaves out: users billed elsewhere or not searched for, and rows of other dates |
| Heal.HealOneRowEach | backend/internal/app/shared_users_sync.go:28-41 | of one user's rows a heal changes one at most, tied or not |
| Heal.RangesAddUp | backend/internal/store/store.go:626-658 | the sums of two adjoining date ranges add up to the sum of both together |
| Heal.HealTwice | backend/internal/app/shared_users_sync.go:81-129 | a second call against the same router makes the same choice and changes nothing |
| Heal.SummaryIsPostState | backend/internal/app/shared_users_sync.go:103-128 | the live sums are the sums over the healed ledger |
| Heal.ShownIsStored | backend/internal/app/shared_users_sync.go:105-113 | what is shown is what is stored afterwards, for every row, if and only if the ledger writes land |
| Heal.HealQuietExactly | backend/internal/app/shared_users_sync.go:81-129 | a heal writes nothing, whichever rows it picks, if and only if every row it may take for current holds the live value, or the live value is not positive |
| Heal.HealIsQuiet | backend/internal/app/shared_users_sync.go:81-129 | in particular while the ledger follows the router and the current rows are visible and untied; the live summary is then the stored one |
| Heal.PicksAreCurrentRows | backend/internal/app/shared_users_sync.go:28-41 | the rows treated as current are exactly the visible newest unsettled ones |
| Heal.PickWith | backend/internal/store/store.go:476-498 | every leading row can be the one the listing puts first, so ties really are open |
| Overlay.MikrotikSharedUsersByName | backend/internal/app/shared_users_sync.go:9-19 | the map holds each router user's shared users, whatever the order of the listing |
| Overlay.LatestUnsettledPerUser | backend/internal/app/shared_users_sync.go:28-41 | for each name with an unsettled row, the id of the first such row of the listing, and no other name |
| Overlay.PickIsValid | backend/internal/app/shared_users_sync.go:28-41 | over a listing by instant, these rows are one per listed user and none is older than a sibling |
| Overlay.RowShown | backend/internal/app/shared_users_sync.go:105-113 | the loop's decision for a row agrees with the meaning of the overlay |
| Overlay.SumStored | backend/internal/app/shared_users_sync.go:87-96 | a listing of settled rows sums the stored values |
| Overlay.SumIsTotal | backend/internal/app/shared_users_sync.go:104-117 | summing along any listing is summing over the visible rows |
| Settlement.SettleExact | backend/internal/store/store.go:664-692 | exactly the scope's unsettled rows up to the anchor are closed, only in their settlement fields, and the count is their number |
| Settlement.SettleDecides | backend/internal/store/store.go:664-692 | refused exactly when the anchor does not exist or its user is billed elsewhere, and then nothing changes; otherwise it closes the open rows of the users billed there up to the anchor and no other |
| Settlement.ScopeSums | backend/internal/store/store.go:626-658 | the listing's sums over a scope are its settled and unsettled totals |
| Settlement.SettleTwice | backend/internal/store/store.go:664-692 | settling through a, then b, closes what settling through the later one closes, and the two counts add up to the one |
| Settlement.SettleAgain | backend/internal/store/store.go:682-692 | repeating a settlement changes nothing and reports zero |
| Settlement.SettleConserves | backend/internal/store/store.go:682-699 | connections move from the scope's unsettled total to its settled total; other scopes see nothing |
| Settlement.SettleRow | backend/internal/store/store.go:682-687 | what one settlement makes of one row |
| Settlement.SettleCounts | backend/internal/store/store.go:688-692 | the count is the growth of the settled set |
| Cache.RunScript | backend/internal/mikrotik/types.go:62-171 | any script of reads and writes through the cache, with the clock moving arbitrarily, is answered as the router alone would answer |
| Cache.RunAmidOutsideWrites | backend/internal/mikrotik/types.go:62-171 | with outside writes in between, lists and lookups show the router as at a read less than the time to live ago or as it is, a refresh as it is, profile rows as at an earlier read of that user |
| Cache.Step | backend/internal/mikrotik/types.go:62-171 | one operation: faithful if the cache was coherent, no staler than allowed in any case, and recorded in the fetch history |
| Cache.CachedClient.ListUsers | backend/internal/mikrotik/types.go:62-73 | returns the router's users when nothing writes outside, and in any case a snapshot fetched now or less than the time to live ago |
| Cache.CachedClient.RefreshListUsers | backend/internal/mikrotik/types.go:168-171 | never serves the cached list |
| Cache.CachedClient.GetUser | backend/internal/mikrotik/types.go:80-91 | finds what the router has when nothing writes outside, and in any case what a snapshot taken now or within the time to live has |
| Cache.CachedClient.ListUserProfiles | backend/internal/mikrotik/types.go:117-128 | serves an entry under the one stamp, else fetches it and renews the stamp for all entries |
| Cache.CachedClient.Write | backend/internal/mikrotik/types.go:93-144 | writes through; success drops everything cached, failure keeps a coherent cache |
| Cache.CachedClient.InvalidateCache | backend/internal/mikrotik/types.go:162-166 | an empty cache agrees with any router |
| Cache.EntryTtl | backend/internal/mikrotik/types.go:117-128 | every instant at which a profile entry is served lies within the time to live of its own fetch if and only if the shared stamp is not later than that fetch; a later stamp came from another user's fetch |
| Cache.ProfileEntryOutlivesTtl | backend/internal/mikrotik/types.go:117-128 | a client left serving an entry whose own fetch is older than the time to live, with other rows than the router has |
| Router.RunKeeps | backend/internal/mikrotik/fake.go:59-146 | over every run of writes: one active row per user at most, rows only for existing users, all row ids distinct |
| Router.RunKeepsUserIds | backend/internal/mikrotik/fake.go:59-100 | over every run of writes users keep distinct ids taken from the counter |
| Router.WriteKeepsUserIds | backend/internal/mikrotik/fake.go:59-146 | each single write keeps that |
| Router.WriteKeeps | backend/internal/mikrotik/fake.go:59-146 | each single write keeps that |
| Router.AddUserKeeps | backend/internal/mikrotik/fake.go:59-69 | adding a user keeps the invariants |
| Router.SetUserKeeps | backend/internal/mikrotik/fake.go:71-89 | so does changing one |
| Router.RemoveUserKeeps | backend/internal/mikrotik/fake.go:91-100 | and removing one with its rows |
| Router.AddUserProfileKeeps | backend/internal/mikrotik/fake.go:108-129 | the new row is the only active one and its id is fresh |
| Router.RemoveRowExact | backend/internal/mikrotik/fake.go:131-146 | removing by id takes out exactly the named row, refuses an active one, and keeps the order of the rest |
| Router.RemoveRowMissing | backend/internal/mikrotik/fake.go:131-146 | a removal answers that the row is missing exactly when no user has it |
| Router.RemoveUserProfileKeeps | backend/internal/mikrotik/fake.go:131-146 | removing a row keeps the invariants |
| Router.FreshRowID | backend/internal/mikrotik/fake.go:108-129 | the counter's next id names no existing row |
| Router.FailedWriteChangesNothing | backend/internal/mikrotik/fake.go:59-146 | a refused write has no effect |
| Fake.FakeClient.constructor | backend/internal/mikrotik/fake.go:20-32 | the client starts in a well formed state |
| Fake.FakeClient.ListUsers | backend/internal/mikrotik/fake.go:38-46 | lists each user once, in some order |
| Fake.FakeClient.GetUser | backend/internal/mikrotik/fake.go:48-57 | the user, or not found |
| Fake.FakeClient.AddUser | backend/internal/mikrotik/fake.go:59-69 | refines the meaning of adding a user, name clash included |
| Fake.FakeClient.SetUser | backend/internal/mikrotik/fake.go:71-89 | refines the meaning of changing the given fields of a user |
| Fake.FakeClient.RemoveUser | backend/internal/mikrotik/fake.go:91-100 | refines the meaning of removing a user and its rows |
| Fake.FakeClient.ListUserProfiles | backend/internal/mikrotik/fake.go:102-106 | a user's rows, none when there is no entry |
| Fake.FakeClient.DeactivatePrevious | backend/internal/mikrotik/fake.go:121-126 | the loop expires every active row and nothing else |
| Fake.FakeClient.AddUserProfile | backend/internal/mikrotik/fake.go:108-129 | refines the meaning of activating a profile |
| Fake.FakeClient.RemoveUserProfile | backend/internal/mikrotik/fake.go:131-146 | the search over all users refines removal by id, whatever order the map is visited in |
| Owner.CommentMatchesPanel | backend/internal/owner/owner.go:29-42 | the four string tests, as the code runs them |
| Owner.MatcherIsElementTest | backend/internal/owner/owner.go:29-42 | the matcher is "panel=slug is an element of the comment split at bars" for every comment, if and only if the slug has no bar |
| Owner.MatchIsBoundedOccurrence | backend/internal/owner/owner.go:29-42 | for any slug the four tests find an occurrence bounded on both sides by a bar or an end |
| Owner.BarFreeTokenMatchesItself | backend/internal/owner/owner.go:23-42 | a token without bars is claimed only by its own slug |
| Owner.FindByName | backend/internal/owner/owner.go:46-50 | the first manager whose pattern starts the name |
| Owner.FindByComment | backend/internal/owner/owner.go:51-55 | the first manager whose token the comment carries |
| Owner.ResolveOwner | backend/internal/owner/owner.go:45-57 | the name decides first, then the comment, else nobody |
| Owner.OwnerMismatch | backend/internal/owner/owner.go:59-80 | flags exactly the users whose name and comment both name an owner and disagree |
| Owner.MismatchMeans | backend/internal/owner/owner.go:59-80 | a user is flagged exactly when it has an owner, and the first manager its name fits and the first its comment claims are two |
| Owner.BuildRegistry | backend/internal/owner/owner.go:94-100 | the registry lists the managers' ids and slugs in order |
| Owner.OverlapCheckKeepsPrefixFree | backend/internal/owner/owner.go:82-92 | appending a slug to prefix-free ones keeps them so exactly when the overlap check passes |
| Owner.PatternsExclusive | backend/internal/owner/owner.go:19-21 | with prefix-free slugs at most one pattern matches any name |
| Owner.ByNameIsPrefixTest | backend/internal/owner/owner.go:45-50 | with prefix-free slugs, owning by name is a plain prefix test |
| Owner.ResolveIgnoresOrder | backend/internal/owner/owner.go:45-57 | reordering the registry changes no ownership by name, nor by comment unless two tokens are claimed |
| Owner.OrderMattersExactly | backend/internal/owner/owner.go:45-57 | ownership is the same under every reordering of the registry if and only if the name decides or the comment carries one manager's token at most |
| Owner.CommentOrderMatters | backend/internal/owner/owner.go:51-55 | with two claims in one comment the order decides |
| Owner.CreatedNamesResolve | backend/internal/app/vpn_service.go:152-164 | all names a manager creates resolve to it if and only if no earlier pattern is comparable with its own |
| Owner.PatchPreservesOwner | backend/internal/app/vpn_service.go:359-366 | writing the owner's token resolves to the same owner, for any slugs |
| Owner.PatchClearsMismatch | backend/internal/owner/owner.go:59-80 | afterwards there is no mismatch exactly when no earlier manager claims the token; prefix-free slugs without bars always do |
| Owner.BarBreaksPatchedComment | backend/internal/owner/owner.go:59-80 | a slug with a bar that stays flagged after the panel's own write |
| Quota.IsProfileActive | backend/internal/quota/quota.go:11-27 | active by state, or by an end that lies ahead |
| Quota.ActiveExactly | backend/internal/quota/quota.go:11-27 | a row is active exactly when its state has "active" in it, in any case, or its end has not come; trimming the state makes no difference |
| Quota.UserHasActiveProfile | backend/internal/quota/quota.go:35-42 | some row is active |
| Quota.UsedForManager | backend/internal/quota/quota.go:74-89 | the scan fails exactly when a read it makes fails, else sums the connections of the manager's enabled, active users |
| Quota.AggregateByOwner | backend/internal/quota/quota.go:45-72 | one pass gives for every id, orphans included, what the separate scan gives, and fails exactly when some read fails |
| Quota.DisplayedRowsAddUp | backend/internal/app/admin_handlers.go:62-91 | users and connections: the total is the orphans plus the displayed manager rows |
| Quota.ResolveIsListed | backend/internal/owner/owner.go:45-57 | an owner is nobody or a listed manager |
| Quota.ScanIsUsed | backend/internal/app/vpn_service.go:20-30 | the scan computes the manager's usage whatever order the router lists users in |
| Quota.ScanCountsUsers | backend/internal/quota/quota.go:45-72 | and counts as many users as the manager is charged for |
| Database.LatestUnsettled | backend/internal/store/store.go:459-468 | the inner select finds the newest unsettled row in order of instant and id, or there is none |
| Database.CloseRows | backend/internal/store/store.go:682-692 | the update closes exactly the chosen rows and counts them |
| Database.RowsOfOthers | backend/internal/store/schema.sql:43-58 | the cascade removes exactly the deleted user's activations |
| Database.PickLatest | backend/internal/store/store.go:476-498 | the next row of the listing has the latest instant left; ties are open |
| Database.Listing | backend/internal/store/store.go:476-498 | each visible row once, newest instant first |
| Database.Store.FindManagerByID | backend/internal/store/store.go:194-199 | the manager with the id |
| Database.Store.CreateManager | backend/internal/store/store.go:237-248 | inserts unless a name or slug clashes regardless of case, or the quota is not positive |
| Database.Store.UpdateManagerQuota | backend/internal/store/store.go:263-291 | sets the quota of one manager and nothing else |
| Database.Store.FindVPNMetaByName | backend/internal/store/store.go:334-341 | a row of that name, or there is none |
| Database.Store.CreateVPNMeta | backend/internal/store/store.go:370-381 | inserts unless the name is taken or the manager does not exist |
| Database.Store.UpdateVPNMeta | backend/internal/store/store.go:396-414 | changes the given columns of one row |
| Database.Store.DeleteVPNMeta | backend/internal/store/store.go:416-419 | removes the row and, by cascade, its activations |
| Database.Store.CreateActivation | backend/internal/store/store.go:435-445 | appends an unsettled row unless the value is not positive |
| Database.Store.UpdateLatestUnsettledActivationSharedUsers | backend/internal/store/store.go:459-468 | rewrites the newest unsettled row of one user |
| Database.Store.UpdateActivationSharedUsers | backend/internal/store/store.go:470-474 | rewrites one row unless the value is not positive |
| Database.Store.SettleThrough | backend/internal/store/store.go:664-692 | refuses an anchor outside the scope without effect, else closes up to it and counts |
| Database.Store.ListRenewalSharedUsersInScope | backend/internal/store/store.go:476-498 | an answer of the listing query |
| Tables.SettleThroughOk | backend/internal/store/schema.sql:43-58 | settling keeps the schema's constraints: keys, unique names, references, positive values |
| Tables.InsertManagerOk | backend/internal/store/schema.sql:6-19 | inserting a manager keeps user names and slugs unique regardless of case, and all references valid |
| Tables.SetQuotaOk | backend/internal/store/schema.sql:6-19 | so does changing a quota |
| Tables.UpdateMetaOk | backend/internal/store/schema.sql:30-40 | writing another manager id keeps the references valid |
| Tables.InsertMetaOk | backend/internal/store/schema.sql:30-40 | inserting keeps names unique and every manager reference valid |
| Tables.UpdateActivationOk | backend/internal/store/store.go:470-474 | correcting one row by its id never leaves a value that is not positive, nor touches a key or a reference |
| Tables.LatestOf | backend/internal/store/store.go:465-465 | any nonempty set of rows has a last one in order of instant and id |
| Steps.StepValid | backend/internal/app/vpn_service.go:147-441 | every step, failures included, keeps the router's invariants and the schema, and never turns back the clock |
| Steps.RunValid | backend/internal/app/vpn_service.go:147-441 | both stores keep their invariants over every run, outside router edits included |
| Panel.App.Registry | backend/internal/owner/owner.go:94-100 | the registry of the managers table |
| Panel.App.ManagerUsedQuota | backend/internal/app/vpn_service.go:20-30 | returns the manager's usage |
| Panel.App.ActiveEnd | backend/internal/app/vpn_service.go:478-486 | the end of the first active row |
| Panel.App.RecordActivation | backend/internal/app/vpn_service.go:478-503 | records the activation, or nothing when the insert fails |
| Panel.App.FinishCreate | backend/internal/app/vpn_service.go:186-234 | the calls and compensations after the router's add, in order |
| Panel.App.CreateVPNUser | backend/internal/app/vpn_service.go:147-234 | performs its step and keeps both stores valid |
| Panel.App.CreateOrphanVPNUser | backend/internal/app/vpn_service.go:236-303 | performs its step and keeps both stores valid |
| Panel.App.PatchExceedsQuota | backend/internal/app/vpn_service.go:367-391 | refuses exactly an increase of an active user beyond the owner's quota, judged from the usage before |
| Panel.App.CheckPatch | backend/internal/app/vpn_service.go:345-401 | the first check that fails, and the comment that would be written |
| Panel.App.PatchVPNUser | backend/internal/app/vpn_service.go:345-416 | performs its step: router first, then ledger, then metadata |
| Panel.App.AssignVPNProfile | backend/internal/app/vpn_service.go:423-437 | performs its step; no quota is checked |
| Panel.App.RemoveVPNProfile | backend/internal/app/vpn_service.go:439-441 | performs its step |
| Panel.App.DeleteVPNUser | backend/internal/app/vpn_service.go:418-421 | performs its step; a failing router removal is ignored |
| Panel.App.DeleteVPNByName | backend/internal/app/vpn_by_name.go:101-110 | performs its step, with or without a row of metadata |
| Panel.App.EnsureVPNMeta | backend/internal/app/vpn_by_name.go:70-99 | finds the row or adopts the router's user under its resolved owner |
| Panel.MetaByNameUnique | backend/internal/store/schema.sql:30-40 | the unique name makes the lookup's answer the only one |
| Panel.App.HandleSettleThrough | backend/internal/app/renewals_handlers.go:79-109 | settles the named manager's scope, or the orphans' when none is named |
| Panel.App.HandleCreateManager | backend/internal/app/admin_handlers.go:94-136 | performs its step; a failed slug listing skips the overlap check |
| Panel.App.HandlePatchManagerQuota | backend/internal/app/admin_handlers.go:294-305 | performs its step; a quota below usage is refused |
| Panel.App.HealRow | backend/internal/app/shared_users_sync.go:105-113 | one row: shows and writes the live value if the row is current |
| Panel.App.HealLoop | backend/internal/app/shared_users_sync.go:103-117 | heals the listed rows and adds up what is shown |
| Panel.App.OverlayItems | backend/internal/app/shared_users_sync.go:119-126 | rewrites the page's items in place to what is shown |
| Panel.App.ApplyRenewalsLiveSharedUsers | backend/internal/app/shared_users_sync.go:81-129 | the whole overlay: a valid choice of current rows, the healed ledger, both sums, and the page |
| Panel.App.DetailLoop | backend/internal/app/shared_users_sync.go:52-77 | the flag-driven loop treats as current exactly the row the general overlay would |
| Panel.App.ActivationsWithLiveShared | backend/internal/app/shared_users_sync.go:47-79 | the detail view is a heal under the filter of one user, and shows every row of that user |
| Panel.DetailPicks | backend/internal/app/shared_users_sync.go:53-62 | the first unsettled row of one user's ledger is its picked row |
| Panel.AllHealed | backend/internal/app/shared_users_sync.go:105-117 | the finished loop has healed the whole ledger, not only the listed rows |
| Overlay.SumsAreTotals | backend/internal/app/shared_users_sync.go:104-117 | the running sums end as the totals of what is shown |
| Panel.SettledListingShowsStored | backend/internal/app/shared_users_sync.go:86-96 | a listing of settled rows shows the stored values |
| Witnesses.StartIsGood | backend/internal/store/schema.sql:6-58 | an empty panel satisfies every invariant, so the theorems over runs reach every reachable world |
| Witnesses.RenewalExceedsQuota | backend/internal/app/vpn_service.go:423-437 | a world within quota that a renewal takes over it |
| Witnesses.ReenablingExceedsQuota | backend/internal/app/vpn_service.go:402-402 | a world within quota that re-enabling a user takes over it |
| Witnesses.EarlyRenewalStoresOldEnd | backend/internal/app/vpn_service.go:478-486 | a renewal made before the old profile ends stores the old profile's end |
| Witnesses.OrphanExceedsQuota | backend/internal/app/vpn_service.go:236-303 | a creation for nobody whose name belongs to a manager after all takes it over its quota |
| Witnesses.NewManagerExceedsQuota | backend/internal/app/admin_handlers.go:94-136 | a manager whose slug captures a user in use starts over its quota |
| Witnesses.UnlistedSlugOverlaps | backend/internal/app/admin_handlers.go:101-105 | while the slug listing fails, a slug that extends another is created |
| Witnesses.LeftBehindBreaksAgreement | backend/internal/app/vpn_service.go:186-192 | a creation that cannot take its user back meets a stale row of another value |
| Witnesses.ResyncBreaksOrder | backend/internal/app/vpn_service.go:392-409 | a patch moves a user's open row before a row already settled in the target's scope |
| Witnesses.PatchToZeroBreaksAgreement | backend/internal/store/schema.sql:48-48 | a patch to zero that the router takes and the ledger refuses |
| Witnesses.UpperBoundHealsOldRow | backend/internal/store/store.go:648-651 | an upper bound under which a right ledger is healed in the wrong row |
| Witnesses.TieHealsOldRow | backend/internal/store/store.go:476-498 | two rows of one instant with the same effect |
| Ovpn.ReplaceOrPrepend | backend/internal/app/cert.go:61-89 | the loop replaces the first matching line, or prepends the line |
| Ovpn.PatchOvpnFriendlyName | backend/internal/app/cert.go:61-74 | the rewriter of the name line |
| Ovpn.PatchOvpnServerAddress | backend/internal/app/cert.go:76-89 | the rewriter of the remote line |
| Ovpn.EnsureUserOvpnFile | backend/internal/app/cert.go:91-100 | files the personalised copy under the user's name, or fails without effect when the certificate's profile is missing |
| Ovpn.MatchIsInBody | backend/internal/app/cert.go:61-89 | the substring guard before the loop never hides a matching line |
| Ovpn.RewriteTouchesOneLine | backend/internal/app/cert.go:61-89 | for a newline-free line: the first match is replaced or one line is put in front, all other lines stay |
| Ovpn.RewrittenFirst | backend/internal/app/cert.go:61-89 | the new line is the first match of the result |
| Ovpn.LastWriteWins | backend/internal/app/cert.go:61-89 | rewriting twice is rewriting with the second line only |
| Ovpn.OtherMatchKept | backend/internal/app/cert.go:91-100 | one rewriter leaves the other's first match alone |
| Ovpn.OwnLinesMatch | backend/internal/app/cert.go:61-89 | each rewriter's line matches its own key and not the other's |
| Ovpn.PersonalisedLines | backend/internal/app/cert.go:91-100 | after both rewriters the wanted name line and the wanted remote line are the first of their kind |
| Ovpn.PersonalisedFixed | backend/internal/app/cert.go:91-100 | personalising again changes nothing |
| Ovpn.RenamingIdempotent | backend/internal/app/cert.go:61-74 | renaming is idempotent on every profile if and only if the name has no newline |
| Text.JoinOfSplit | backend/internal/app/cert.go:61-74 | joining the split lines gives the body back |
| Text.SplitOfJoin | backend/internal/app/cert.go:61-74 | splitting joined newline-free lines gives the lines back |
| Text.TrimSpaceExact | backend/internal/app/cert.go:61-74 | trimming cuts white space off both ends and stops at the first visible character |
| Pages.WindowExact | backend/internal/app/renewals_handlers.go:127-138 | in 64-bit integers the window is the intended one, and can be sliced, exactly under the stated conditions on the product and the sum |
| Pages.HugePageOverflows | backend/internal/app/renewals_handlers.go:111-138 | a page number the query parser accepts whose window starts below zero |
| Pages.PageFits | backend/internal/app/renewals_handlers.go:127-138 | inside the machine's range a page's window is the intended one and can be sliced |
| Pages.FirstPagesArePrefix | backend/internal/app/renewals_handlers.go:127-138 | the first n pages the machine slices are the list's prefix of that length |
| Pages.PagesCover | backend/internal/app/renewals_handlers.go:127-138 | in 64-bit integers, while products stay in range, enough pages give the list exactly once in order, and every later page is empty |
| Pages.EnoughPages | backend/internal/app/renewals_handlers.go:127-138 | rounding the quotient up is enough pages |
| Session.SingleFlight | frontend/src/app/core/auth/auth.interceptor.ts:11-68 | in every interleaving: one refresh call outstanding at most; a request is sent at most twice, a second time exactly when it saw its flight succeed, and rejected exactly when it saw its flight fail or had none; all waiters on a flight see one verdict |
| Session.TokensAfter | frontend/src/app/core/auth/auth.interceptor.ts:29-63 | a flight's success saves its tokens; the session is signed out exactly by a request that resumes on a failed or absent flight |
| Session.AnswerDecides | frontend/src/app/core/auth/auth.interceptor.ts:20-68 | a 401 outside the login pages that is not a wrong password makes the request wait, on the flight in progress or a new one; any other first answer is final |
| Session.ResumeDecides | frontend/src/app/core/auth/auth.interceptor.ts:29-38 | a resumed request is sent again exactly when its flight succeeded, and rejected otherwise |
| Session.FlightDecides | frontend/src/app/core/auth/auth.interceptor.ts:44-68 | a flight is decided by the server's answer and stays in the way until it is cleared |
| Session.NoRetryLoop | frontend/src/app/core/auth/auth.interceptor.ts:13-42 | n requests cause at most 5n reactions |
| Session.NextWorks | frontend/src/app/core/auth/auth.interceptor.ts:20-68 | every reaction uses up owed work, so none can repeat for ever |
| Session.OpenRequestsProgress | frontend/src/app/core/auth/auth.interceptor.ts:20-68 | while a request is open some reaction is possible |
| Session.NextKeeps | frontend/src/app/core/auth/auth.interceptor.ts:11-68 | each event keeps the promises of every request and flight |
| Session.RunKeeps | frontend/src/app/core/auth/auth.interceptor.ts:11-68 | so does every run |
| Session.Interceptor.Intercept | frontend/src/app/core/auth/auth.interceptor.ts:13-20 | sending a request |
| Session.Interceptor.RefreshTokens | frontend/src/app/core/auth/auth.interceptor.ts:44-68 | joins the flight in progress, fails without a refresh token, or starts one flight |
| Session.Interceptor.OnResponse | frontend/src/app/core/auth/auth.interceptor.ts:21-28 | an answer ends the request unless it is a 401 that calls for a refresh |
| Session.Interceptor.OnRefreshResponse | frontend/src/app/core/auth/auth.interceptor.ts:57-63 | decides the flight and saves the tokens on success |
| Session.Interceptor.OnFinally | frontend/src/app/core/auth/auth.interceptor.ts:64-67 | clears the module variable |
| Session.Interceptor.OnVerdict | frontend/src/app/core/auth/auth.interceptor.ts:29-38 | retries after a success; clears the session and fails otherwise |
| Session.Interceptor.OnRetryResponse | frontend/src/app/core/auth/auth.interceptor.ts:34-37 | whatever the retry brings is final |

## Left out

- Concurrency between back-end requests: no lock spans a handler; here each handler is one step.
- Handlers sit on the router client itself: `Cache.RunScript` shows that the caching client answers as the router does while nobody else writes.
- Faults: a call that leaves the process either takes effect or fails without effect; a call that takes effect and then reports failure is not modelled.
- Authorization in the handlers: the theorems cover every request, allowed or not.
- Certificates and router files: the certificate step of a creation is a call that may fail; what it leaves behind is not undone by the code and is not part of `Saga.Restored`. Only the user's profile file is modelled (`ovpn.dfy`).
- Columns that no rule here reads: display names, activity flags, certificate columns, amounts, currency, notes on activations; `HandlePatchManager` is modelled for its quota part only.
- Detail view after a patch or a renewal: the heal it ends with is an event of its own.
- The page query of the renewal list (store.go:565-624): `Panel.App.ApplyRenewalsLiveSharedUsers` takes its answer as items that reflect stored rows.
- SQL: statements are functions on tables with the schema's constraints; LIKE is an arbitrary predicate on the user's row; no migrations, no engine.
- Text: lengths count characters, not bytes; lower-casing is ASCII.
- Time: instants are integers; time zones, parsing and unparsable end times are not modelled beyond "no end".
- The retry's Authorization header: which token value it carries is not recorded.
- Password, slug and certificate-title syntax checks, hashing, tokens, HTTP, JSON, messages, `routeros.go`, the user interface.
